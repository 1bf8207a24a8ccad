/** Lists of model names (controller/channel_upstream_update.go): normalisation, and the list
    operations that keep the order of their first argument. */
module ModelNames {
  import opened Lists
  import opened Text
  import opened Wrappers

  /** A name as normalizeModelNames sees it: trimmed, and dropped when nothing is left. */
  function TrimName(name: string): Option<string> {
    var trimmed := TrimSpace(name);
    if trimmed == [] then None else Some(trimmed)
  }

  /** normalizeModelNames. */
  function Normalize(models: seq<string>): seq<string> {
    Uniq(FilterMap(models, TrimName))
  }

  /** Distinct names, each its own trimmed form. */
  ghost predicate Normal(xs: seq<string>) {
    Distinct(xs) && forall x | x in xs :: x != "" && TrimSpace(x) == x
  }

  /** `name` is listed in `models`, up to surrounding white space. */
  ghost predicate Listed(models: seq<string>, name: string) {
    name != "" && exists m :: m in models && TrimSpace(m) == name
  }

  lemma TrimNameFixed(m: string)
    ensures TrimName(m).Some? ==> TrimName(TrimName(m).value) == TrimName(m) && |TrimName(m).value| > 0
    ensures TrimName(m).Some? ==> forall c | c in TrimName(m).value :: c in m
  {
    TrimSpaceTrims(m);
    TrimSpaceTrims(TrimSpace(m));
  }

  /** Normalising yields a normal list with exactly the listed names. */
  lemma NormalizeMember(models: seq<string>, name: string)
    ensures name in Normalize(models) <==> Listed(models, name)
    ensures name in Normalize(models) ==> name != "" && TrimSpace(name) == name
  {
    UniqMember(FilterMap(models, TrimName), name);
    FilterMapMember(models, TrimName, name);
    if name in Normalize(models) {
      var m :| m in models && TrimName(m) == Some(name);
      TrimNameFixed(m);
    }
    if Listed(models, name) {
      var m :| m in models && TrimSpace(m) == name;
      assert TrimName(m) == Some(name);
    }
  }

  lemma NormalizeIsNormal(models: seq<string>)
    ensures Normal(Normalize(models))
    ensures forall name :: name in Normalize(models) <==> Listed(models, name)
  {
    UniqDistinct(FilterMap(models, TrimName));
    forall name ensures name in Normalize(models) <==> Listed(models, name) {
      NormalizeMember(models, name);
    }
    forall name | name in Normalize(models) ensures name != "" && TrimSpace(name) == name {
      NormalizeMember(models, name);
    }
  }

  /** Exactly the normal lists are left alone; in particular normalising is idempotent. */
  lemma NormalizeFixed(xs: seq<string>)
    ensures Normalize(xs) == xs <==> Normal(xs)
  {
    if Normal(xs) {
      forall x | x in xs ensures TrimName(x) == Some(x) {
      }
      FilterMapFixed(xs, TrimName);
      UniqFixed(xs);
    }
    NormalizeIsNormal(xs);
  }

  lemma FilterNormal(xs: seq<string>, p: string -> bool)
    requires Normal(xs)
    ensures Normal(Filter(xs, p))
  {
    FilterDistinct(xs, p);
    FilterMembers(xs, p);
  }

  // ---------------------------------------------------------------- list operations

  /** subtractModelNames. */
  function Subtract(base: seq<string>, removed: seq<string>): seq<string> {
    Filter(Normalize(base), m => m !in Normalize(removed))
  }

  /** intersectModelNames. */
  function Intersect(base: seq<string>, allowed: seq<string>): seq<string> {
    Filter(Normalize(base), m => m in Normalize(allowed))
  }

  /** What mergeModelNames computes: the normalised concatenation. */
  function Union(base: seq<string>, appended: seq<string>): seq<string> {
    Normalize(base + appended)
  }

  /** applySelectedModelChanges: an addition wins over a removal of the same name. */
  function ApplySelected(origin: seq<string>, add: seq<string>, remove: seq<string>): seq<string> {
    var normalizedAdd := Normalize(add);
    Subtract(Union(origin, normalizedAdd), Subtract(Normalize(remove), normalizedAdd))
  }

  lemma SubtractNormal(base: seq<string>, removed: seq<string>)
    requires Normal(base) && Normal(removed)
    ensures Subtract(base, removed) == Filter(base, m => m !in removed)
    ensures Intersect(base, removed) == Filter(base, m => m in removed)
  {
    NormalizeFixed(base);
    NormalizeFixed(removed);
    FilterCongruent(base, m => m !in Normalize(removed), m => m !in removed);
    FilterCongruent(base, m => m in Normalize(removed), m => m in removed);
  }

  /** A union is the normalised base followed by the new names of the other list. */
  lemma UnionIsAppend(base: seq<string>, appended: seq<string>)
    ensures Union(base, appended) == Normalize(base) + Filter(Normalize(appended), m => m !in Normalize(base))
  {
    FilterMapAppend(base, appended, TrimName);
    UniqAppend(FilterMap(base, TrimName), FilterMap(appended, TrimName), m => m !in Normalize(base));
  }

  /** mergeModelNames: the loop over `seen` computes the union, in order. */
  method Merge(base: seq<string>, appended: seq<string>) returns (merged: seq<string>)
    ensures merged == Union(base, appended)
    ensures Normal(merged)
    ensures forall m :: m in merged <==> Listed(base, m) || Listed(appended, m)
  {
    var origin, extra := Normalize(base), Normalize(appended);
    NormalizeIsNormal(base);
    NormalizeIsNormal(appended);
    merged := AppendUnseen(origin, extra);
    UnionIsAppend(base, appended);
    FilterCongruent(extra, m => m !in origin, m => m !in Normalize(base));
    FilterMembers(extra, m => m !in origin);
    NormalizeIsNormal(base + appended);
  }

  method AppendUnseen(origin: seq<string>, extra: seq<string>) returns (merged: seq<string>)
    requires Distinct(extra)
    ensures merged == origin + Filter(extra, m => m !in origin)
  {
    ghost var isNew := (m: string) => m !in origin;
    merged := origin;
    var seen := set m | m in merged;
    for i := 0 to |extra|
      invariant merged == origin + Filter(extra[..i], isNew)
      invariant seen == (set m | m in origin) + (set m | m in extra[..i])
    {
      ghost var upto := extra[..i + 1];
      assert upto[..i] == extra[..i];
      assert upto == extra[..i] + [extra[i]];
      if extra[i] !in seen {
        seen := seen + {extra[i]};
        merged := merged + [extra[i]];
      }
    }
    assert extra[..|extra|] == extra;
  }

  /** Applying a selection: what stays of the origin, in order, then the additions it lacked. */
  lemma SelectedIsSplice(origin: seq<string>, add: seq<string>, remove: seq<string>)
    requires Normal(origin) && Normal(add) && Normal(remove)
    ensures ApplySelected(origin, add, remove)
         == Filter(origin, m => m !in remove || m in add) + Filter(add, m => m !in origin)
  {
    NormalizeFixed(add);
    NormalizeFixed(remove);
    UnionOfNormal(origin, add);
    SubtractNormal(remove, add);
    var novel, gone := Filter(add, m => m !in origin), Filter(remove, m => m !in add);
    FilterNormal(remove, m => m !in add);
    SubtractNormal(origin + novel, gone);
    FilterMembers(remove, m => m !in add);
    FilterMembers(add, m => m !in origin);
    Splice(origin, novel, m => m !in gone, m => m !in remove || m in add);
  }

  lemma UnionOfNormal(origin: seq<string>, add: seq<string>)
    requires Normal(origin) && Normal(add)
    ensures Union(origin, add) == origin + Filter(add, m => m !in origin) && Normal(Union(origin, add))
  {
    NormalizeFixed(origin);
    NormalizeFixed(add);
    UnionIsAppend(origin, add);
    FilterCongruent(add, m => m !in Normalize(origin), m => m !in origin);
    NormalizeIsNormal(origin + add);
  }

  lemma Splice(origin: seq<string>, novel: seq<string>, stays: string -> bool, wanted: string -> bool)
    requires (forall m | m in origin :: stays(m) == wanted(m)) && (forall m | m in novel :: stays(m))
    ensures Filter(origin + novel, stays) == Filter(origin, wanted) + novel
  {
    FilterAppend(origin, novel, stays);
    FilterAll(novel, stays);
    FilterCongruent(origin, stays, wanted);
  }
}
