/** The laws of the sync engine: incremental bookkeeping agrees with a fresh detection, applying
    everything converges, and aliases survive. */
module UpstreamConvergence {
  import opened Lists
  import opened ModelNames
  import opened Text
  import opened UpstreamSync
  import opened Wrappers

  // ---------------------------------------------------------------- the stored list

  /** Names read back from the stored list never contain a comma. */
  lemma StoredNamesAreCommaFree(models: string, m: string)
    requires m in Normalize(GetModels(models))
    ensures COMMA !in m
  {
    NormalizeMember(GetModels(models), m);
    var part :| part in GetModels(models) && TrimSpace(part) == m;
    TrimNameFixed(part);
  }

  /** Round trip: a normal list of comma-free names survives being stored. */
  lemma StoreRoundTrip(names: seq<string>)
    requires Normal(names) && forall m | m in names :: COMMA !in m
    ensures Normalize(GetModels(Join(names, COMMA))) == names
  {
    NormalizeFixed(names);
    if names == [] {
      assert Join(names, COMMA) == [];
    } else {
      forall i | 0 <= i < |names| ensures |names[i]| > 0 && COMMA !in names[i] {
        assert names[i] in names;
        TrimNameFixed(names[i]);
      }
      JoinFirst(names, COMMA);
      JoinLast(names, COMMA);
      TrimCharKeeps(Join(names, COMMA), COMMA);
      SplitJoin(names, COMMA);
    }
  }

  function SplitName(name: string): seq<string> {
    Split(name, COMMA)
  }

  /** All parts of all names, in order. */
  function Pieces(names: seq<string>): seq<string> {
    FlatMap(names, SplitName)
  }

  lemma {:induction false} SplitOfJoin(names: seq<string>)
    requires names != []
    ensures Split(Join(names, COMMA), COMMA) == Pieces(names)
  {
    if |names| == 1 {
      assert Pieces(names[1..]) == [];
    } else {
      SplitOfJoin(names[1..]);
      SplitConcat(names[0], Join(names[1..], COMMA), COMMA);
    }
  }

  lemma PiecesOfCommaFree(names: seq<string>)
    requires CommaFree(names)
    ensures Pieces(names) == names
  {
    forall m | m in names ensures SplitName(m) == [m] {
      SplitFirst(m, [], COMMA);
    }
    FlatMapFixed(names, SplitName);
  }

  /** The parts have no comma. */
  lemma PiecesCommaFree(names: seq<string>, m: string)
    requires m in Pieces(names)
    ensures COMMA !in m
  {
    FlatMapMember(names, SplitName, m);
  }

  /** An empty part changes nothing. */
  lemma NormalizeBlank(xs: seq<string>)
    ensures Normalize([""] + xs) == Normalize(xs) && Normalize(xs + [""]) == Normalize(xs)
  {
    FilterMapDrop(xs, TrimName, "");
  }

  /** Commas at the ends of the stored string make no difference. */
  lemma {:induction false} TrimLeftNames(s: string, cut: char -> bool)
    requires forall x :: cut(x) <==> x == COMMA
    ensures Normalize(Split(TrimLeft(s, cut), COMMA)) == Normalize(Split(s, COMMA))
  {
    if s != [] && cut(s[0]) {
      TrimLeftNames(s[1..], cut);
      NormalizeBlank(Split(s[1..], COMMA));
    }
  }

  lemma TrimRightNames(s: string, cut: char -> bool)
    requires forall x :: cut(x) <==> x == COMMA
    ensures Normalize(Split(TrimRight(s, cut), COMMA)) == Normalize(Split(s, COMMA))
  {
    forall t ensures StoredNames(t + [COMMA]) == StoredNames(t) {
      TrailingComma(t);
    }
    TrimRightInvariant(s, cut, StoredNames);
  }

  function StoredNames(s: string): seq<string> {
    Normalize(Split(s, COMMA))
  }

  /** Trimming changes nothing that a trailing comma does not change. */
  lemma {:induction false} TrimRightInvariant<R>(s: string, cut: char -> bool, n: string -> R)
    requires forall x :: cut(x) <==> x == COMMA
    requires forall t: string :: n(t + [COMMA]) == n(t)
    ensures n(TrimRight(s, cut)) == n(s)
  {
    if s != [] && cut(s[|s| - 1]) {
      TrimRightInvariant(s[..|s| - 1], cut, n);
      assert s == s[..|s| - 1] + [COMMA];
    }
  }

  lemma TrailingComma(s: string)
    ensures Normalize(Split(s + [COMMA], COMMA)) == Normalize(Split(s, COMMA))
  {
    calc {
      Normalize(Split(s + [COMMA], COMMA));
    == { assert s + [COMMA] == s + [COMMA] + []; }
      Normalize(Split(s + [COMMA] + [], COMMA));
    == { SplitConcat(s, [], COMMA); }
      Normalize(Split(s, COMMA) + [""]);
    == { NormalizeBlank(Split(s, COMMA)); }
      Normalize(Split(s, COMMA));
    }
  }

  /** What is read back from a stored list: the parts of its names, normalised. */
  lemma StoredPieces(names: seq<string>)
    requires Normal(names)
    ensures Normalize(GetModels(Join(names, COMMA))) == Normalize(Pieces(names))
  {
    var j := Join(names, COMMA);
    if names == [] {
      assert j == [];
    } else {
      NamesAreNonEmpty(names);
      JoinFirst(names, COMMA);
      JoinLast(names, COMMA);
      SplitOfJoin(names);
      TrimLeftNames(j, x => x == COMMA);
      TrimRightNames(TrimLeft(j, x => x == COMMA), x => x == COMMA);
    }
  }

  lemma NamesAreNonEmpty(names: seq<string>)
    requires Normal(names)
    ensures forall i | 0 <= i < |names| :: |names[i]| > 0
  {
    forall i | 0 <= i < |names| ensures |names[i]| > 0 {
      assert names[i] in names;
      TrimNameFixed(names[i]);
    }
  }

  ghost predicate CommaFree(names: seq<string>) {
    forall m | m in names :: COMMA !in m
  }

  lemma NextMembers(c: Channel, sel: Selection)
    ensures Normal(NextNames(c, sel))
    ensures forall m :: m in NextNames(c, sel) <==>
                        (m in LocalNames(c) && m !in Removed(c, sel)) || m in Added(c, sel)
  {
    var origin, added, removed := LocalNames(c), Added(c, sel), Removed(c, sel);
    SelectionFacts(c, sel);
    FilterMembers(origin, m => m !in removed);
    FilterMembers(added, m => m !in origin);
    FilterNormal(origin, m => m !in removed);
    FilterNormal(added, m => m !in origin);
    AppendDistinct(Filter(origin, m => m !in removed), Filter(added, m => m !in origin));
  }

  // ---------------------------------------------------------------- the ignore rules

  lemma RulesAfterApply(c: Channel, sel: Selection, now: int)
    ensures forall r :: r in Normalize(AfterApply(c, sel, now).settings.ignored) <==>
                        (r in Normalize(c.settings.ignored) || r in NewlyIgnored(c, sel)) && r !in Added(c, sel)
  {
    var added, ignoredNow := Added(c, sel), NewlyIgnored(c, sel);
    var rules := Union(c.settings.ignored, ignoredNow);
    SelectionFacts(c, sel);
    UnionMembers(c.settings.ignored, ignoredNow);
    FilterNormal(rules, m => m !in added);
    FilterMembers(rules, m => m !in added);
    NormalizeFixed(Filter(rules, m => m !in added));
  }

  lemma UnionMembers(base: seq<string>, extra: seq<string>)
    requires Normal(extra)
    ensures Normal(Union(base, extra))
    ensures forall m :: m in Union(base, extra) <==> m in Normalize(base) || m in extra
  {
    UnionIsAppend(base, extra);
    NormalizeFixed(extra);
    NormalizeIsNormal(base + extra);
    FilterMembers(extra, m => m !in Normalize(base));
  }

  /** No upstream name reads as a regular-expression rule. */
  ghost predicate PlainNames(upstream: seq<string>) {
    forall u | u in Normalize(upstream) :: !IsRegexRule(u)
  }

  /** The pending lists are normal, so the selection can be read off them directly. */
  lemma PendingFacts(c: Channel, sel: Selection, upstream: seq<string>, matches: Matcher)
    requires CameFrom(c, upstream, matches)
    ensures Normalize(c.settings.detected) == c.settings.detected && Normalize(c.settings.removed) == c.settings.removed
    ensures forall a | a in Added(c, sel) || a in NewlyIgnored(c, sel) ::
              a in Normalize(upstream)
              && Addable(LocalNames(c), c.mapping.Values, Normalize(c.settings.ignored), matches, a)
    ensures forall r | r in Removed(c, sel) ::
              r in LocalNames(c) && Removable(Normalize(upstream), c.mapping.Keys, r)
  {
    DetectFacts(c, upstream, matches);
    NormalizeFixed(c.settings.detected);
    NormalizeFixed(c.settings.removed);
    SelectionFacts(c, sel);
  }

  /** Some rule that is left after the selection ignores `u`. */
  ghost predicate StillIgnored(c: Channel, sel: Selection, matches: Matcher, u: string) {
    exists r :: (r in Normalize(c.settings.ignored) || r in NewlyIgnored(c, sel)) && r !in Added(c, sel)
                && RuleIgnores(r, u, matches)
  }

  lemma IgnoredAfterApply(c: Channel, sel: Selection, now: int, matches: Matcher, u: string)
    ensures Ignored(Normalize(AfterApply(c, sel, now).settings.ignored), u, matches) <==> StillIgnored(c, sel, matches, u)
  {
    RulesAfterApply(c, sel, now);
  }

  // ---------------------------------------------------------------- the names after a selection

  ghost function Kept(c: Channel, sel: Selection): seq<string> {
    Filter(LocalNames(c), m => m !in Removed(c, sel))
  }

  /** What the added names are read back as. */
  ghost function Parts(c: Channel, sel: Selection): seq<string> {
    Normalize(Pieces(Added(c, sel)))
  }

  lemma LocalIsPieces(c: Channel, sel: Selection, now: int)
    ensures LocalNames(AfterApply(c, sel, now)) == Normalize(Pieces(NextNames(c, sel)))
  {
    NextMembers(c, sel);
    if NextNames(c, sel) == LocalNames(c) {
      LocalIsCommaFree(c);
      PiecesOfCommaFree(LocalNames(c));
      NormalizeFixed(LocalNames(c));
    } else {
      StoredPieces(NextNames(c, sel));
    }
  }

  lemma LocalIsCommaFree(c: Channel)
    ensures CommaFree(LocalNames(c)) && Normal(LocalNames(c))
  {
    NormalizeIsNormal(GetModels(c.models));
    forall m | m in LocalNames(c) ensures COMMA !in m {
      StoredNamesAreCommaFree(c.models, m);
    }
  }

  lemma KeptFacts(c: Channel, sel: Selection)
    ensures Normal(Kept(c, sel)) && CommaFree(Kept(c, sel))
    ensures forall m :: m in Kept(c, sel) <==> m in LocalNames(c) && m !in Removed(c, sel)
  {
    LocalIsCommaFree(c);
    FilterNormal(LocalNames(c), m => m !in Removed(c, sel));
    FilterMembers(LocalNames(c), m => m !in Removed(c, sel));
  }

  /** Pending names are new, so the selection appends all the names it adds. */
  lemma NextIsAppend(c: Channel, sel: Selection, upstream: seq<string>, matches: Matcher)
    requires CameFrom(c, upstream, matches)
    ensures NextNames(c, sel) == Kept(c, sel) + Added(c, sel)
  {
    PendingFacts(c, sel, upstream, matches);
    FilterAll(Added(c, sel), m => m !in LocalNames(c));
  }

  lemma NormalizeAppend(kept: seq<string>, parts: seq<string>)
    requires Normal(kept)
    ensures Normalize(kept + parts) == kept + Filter(Normalize(parts), m => m !in kept)
  {
    NormalizeFixed(kept);
    UnionIsAppend(kept, parts);
    FilterCongruent(Normalize(parts), m => m !in Normalize(kept), m => m !in kept);
  }

  /** The channel then serves the names that stayed, followed by the new parts of the added names. */
  lemma LocalAfterApply(c: Channel, sel: Selection, now: int, upstream: seq<string>, matches: Matcher)
    requires CameFrom(c, upstream, matches)
    ensures LocalNames(AfterApply(c, sel, now)) == Kept(c, sel) + Filter(Parts(c, sel), m => m !in Kept(c, sel))
  {
    LocalIsPieces(c, sel, now);
    NextIsAppend(c, sel, upstream, matches);
    KeptFacts(c, sel);
    FlatMapAppend(Kept(c, sel), Added(c, sel), SplitName);
    PiecesOfCommaFree(Kept(c, sel));
    NormalizeAppend(Kept(c, sel), Pieces(Added(c, sel)));
  }

  lemma LocalMembers(c: Channel, sel: Selection, now: int, upstream: seq<string>, matches: Matcher, m: string)
    requires CameFrom(c, upstream, matches)
    ensures m in LocalNames(AfterApply(c, sel, now)) <==> m in Kept(c, sel) || m in Parts(c, sel)
  {
    LocalAfterApply(c, sel, now, upstream, matches);
    FilterMember(Parts(c, sel), k => k !in Kept(c, sel), m);
  }

  /** Without commas in added names, what is served after applying a selection is what was served and is not
      removed, and what is added. */
  lemma ServedAfterApply(c: Channel, sel: Selection, now: int, m: string)
    requires CommaFree(Added(c, sel))
    ensures var added := Chosen(sel.add, c.settings.detected, m);
            var removed := Chosen(sel.remove, c.settings.removed, m) && !added;
            Listed(GetModels(AfterApply(c, sel, now).models), m) <==>
            (Listed(GetModels(c.models), m) && !removed) || added
  {
    StoredAfterApply(c, sel, now);
    ApplyMembers(c, sel, now, m);
    NormalizeMember(GetModels(AfterApply(c, sel, now).models), m);
  }

  lemma StoredAfterApply(c: Channel, sel: Selection, now: int)
    requires CommaFree(Added(c, sel))
    ensures LocalNames(AfterApply(c, sel, now)) == NextNames(c, sel)
  {
    var next := NextNames(c, sel);
    if next != LocalNames(c) {
      NextMembers(c, sel);
      LocalIsCommaFree(c);
      StoreRoundTrip(next);
    }
  }

  // ---------------------------------------------------------------- agreement

  /** For every upstream name that the channel does not serve and that is no redirect target: a rule still
      ignores it, or it was stored as a part of an added name, exactly when it was ignored or selected. */
  ghost predicate AddsSettle(c: Channel, sel: Selection, upstream: seq<string>, matches: Matcher) {
    forall u | u in Normalize(upstream) && u !in c.mapping.Values && u !in LocalNames(c) :: AddSettles(c, sel, matches, u)
  }

  ghost predicate AddSettles(c: Channel, sel: Selection, matches: Matcher, u: string) {
    (u in Parts(c, sel) || StillIgnored(c, sel, matches, u)) <==>
    (u in Added(c, sel) || u in NewlyIgnored(c, sel) || Ignored(Normalize(c.settings.ignored), u, matches))
  }

  /** Every part of an added name stays served, is an upstream name or is a redirect source. */
  ghost predicate PartsSettle(c: Channel, sel: Selection, upstream: seq<string>) {
    forall p | p in Parts(c, sel) ::
      (p in LocalNames(c) && p !in Removed(c, sel)) || p in Normalize(upstream) || p in c.mapping.Keys
  }

  lemma AddSide(c: Channel, sel: Selection, now: int, upstream: seq<string>, matches: Matcher, u: string)
    requires CameFrom(c, upstream, matches) && u in Normalize(upstream)
    ensures var after := AfterApply(c, sel, now);
            Addable(LocalNames(after), c.mapping.Values, Normalize(after.settings.ignored), matches, u) <==>
            (u !in c.mapping.Values && u !in LocalNames(c) && u !in Parts(c, sel) && !StillIgnored(c, sel, matches, u))
  {
    LocalMembers(c, sel, now, upstream, matches, u);
    KeptFacts(c, sel);
    PendingFacts(c, sel, upstream, matches);
    IgnoredAfterApply(c, sel, now, matches, u);
  }

  /** Whether `u` is left on the stored list, and whether a fresh detection finds it. */
  ghost predicate Stays(c: Channel, sel: Selection, matches: Matcher, u: string) {
    && Addable(LocalNames(c), c.mapping.Values, Normalize(c.settings.ignored), matches, u)
    && u !in Added(c, sel) && u !in NewlyIgnored(c, sel)
  }

  ghost predicate Found(after: Channel, matches: Matcher, u: string) {
    Addable(LocalNames(after), after.mapping.Values, Normalize(after.settings.ignored), matches, u)
  }

  lemma AddPoint(c: Channel, sel: Selection, now: int, upstream: seq<string>, matches: Matcher, u: string)
    requires CameFrom(c, upstream, matches) && u in Normalize(upstream)
    ensures Stays(c, sel, matches, u) == Found(AfterApply(c, sel, now), matches, u) <==>
            u in c.mapping.Values || u in LocalNames(c) || AddSettles(c, sel, matches, u)
  {
    AddSide(c, sel, now, upstream, matches, u);
  }

  /** The stored additions agree exactly when the additions settle. */
  lemma AddListAgrees(c: Channel, sel: Selection, now: int, upstream: seq<string>, matches: Matcher)
    requires CameFrom(c, upstream, matches)
    ensures var after := AfterApply(c, sel, now);
            after.settings.detected == DetectFor(after, upstream, matches).add <==> AddsSettle(c, sel, upstream, matches)
  {
    var after := AfterApply(c, sel, now);
    StoredIsFilter(c, sel, now, upstream, matches, m => Stays(c, sel, matches, m));
    FreshIsFilter(after, upstream, matches, m => Found(after, matches, m));
    FilterEqual(Normalize(upstream), m => Stays(c, sel, matches, m), m => Found(after, matches, m));
    forall u | u in Normalize(upstream)
      ensures Stays(c, sel, matches, u) == Found(after, matches, u) <==>
              u in c.mapping.Values || u in LocalNames(c) || AddSettles(c, sel, matches, u)
    {
      AddPoint(c, sel, now, upstream, matches, u);
    }
  }

  lemma StoredIsFilter(c: Channel, sel: Selection, now: int, upstream: seq<string>, matches: Matcher, stays: string -> bool)
    requires CameFrom(c, upstream, matches) && forall m :: stays(m) == Stays(c, sel, matches, m)
    ensures AfterApply(c, sel, now).settings.detected == Filter(Normalize(upstream), stays)
  {
    PendingFacts(c, sel, upstream, matches);
    StoredAdditions(Normalize(upstream), LocalNames(c), c.mapping.Values, Normalize(c.settings.ignored), matches,
                    Added(c, sel), NewlyIgnored(c, sel), stays);
  }

  lemma FreshIsFilter(c: Channel, upstream: seq<string>, matches: Matcher, found: string -> bool)
    requires forall m :: found(m) == Found(c, matches, m)
    ensures DetectFor(c, upstream, matches).add == Filter(Normalize(upstream), found)
  {
    FilterCongruent(Normalize(upstream),
                    m => Addable(LocalNames(c), c.mapping.Values, Normalize(c.settings.ignored), matches, m), found);
  }

  lemma StoredAdditions(names: seq<string>, local: seq<string>, targets: set<string>, rules: seq<string>, matches: Matcher,
                        added: seq<string>, ignoredNow: seq<string>, stays: string -> bool)
    requires forall m :: stays(m) == (Addable(local, targets, rules, matches, m) && m !in added && m !in ignoredNow)
    ensures Filter(Filter(names, m => Addable(local, targets, rules, matches, m)), m => m !in added && m !in ignoredNow)
         == Filter(names, stays)
  {
    FilterTwice(names, m => Addable(local, targets, rules, matches, m), m => m !in added && m !in ignoredNow, stays);
  }

  /** The stored removals agree exactly when the parts settle. */
  lemma RemoveListAgrees(c: Channel, sel: Selection, now: int, upstream: seq<string>, matches: Matcher)
    requires CameFrom(c, upstream, matches)
    ensures var after := AfterApply(c, sel, now);
            after.settings.removed == DetectFor(after, upstream, matches).remove <==> PartsSettle(c, sel, upstream)
  {
    var names, sources := Normalize(upstream), c.mapping.Keys;
    LocalAfterApply(c, sel, now, upstream, matches);
    PendingFacts(c, sel, upstream, matches);
    KeptFacts(c, sel);
    StoredRemovals(LocalNames(c), names, sources, Removed(c, sel));
    FreshRemovals(Kept(c, sel), Parts(c, sel), names, sources);
  }

  lemma StoredRemovals(origin: seq<string>, names: seq<string>, sources: set<string>, gone: seq<string>)
    ensures Filter(Filter(origin, m => Removable(names, sources, m)), m => m !in gone)
         == Filter(Filter(origin, m => m !in gone), m => Removable(names, sources, m))
  {
    var p, q := (m: string) => Removable(names, sources, m), (m: string) => m !in gone;
    FilterTwice(origin, q, p, m => p(m) && q(m));
    FilterTwice(origin, p, q, m => p(m) && q(m));
  }

  lemma FreshRemovals(kept: seq<string>, parts: seq<string>, names: seq<string>, sources: set<string>)
    ensures (Filter(kept, m => Removable(names, sources, m))
             == Filter(kept + Filter(parts, m => m !in kept), m => Removable(names, sources, m))) <==>
            forall p | p in parts :: p in kept || !Removable(names, sources, p)
  {
    var removable, novel := (m: string) => Removable(names, sources, m), Filter(parts, m => m !in kept);
    FilterAppend(kept, novel, removable);
    FilterMembers(parts, m => m !in kept);
    FilterMembers(novel, removable);
    if forall p | p in parts :: p in kept || !Removable(names, sources, p) {
      FilterNone(novel, removable);
    } else {
      var p :| p in parts && p !in kept && Removable(names, sources, p);
      assert p in Filter(novel, removable);
    }
  }

  /** The central law, without any assumption on the names. When the pending lists came from a detection
      against `upstream`, then after applying any selection the stored remaining lists are, as ordered
      lists, what a fresh detection against the same upstream finds, exactly when additions and parts
      settle. */
  lemma BookkeepingIsExact(c: Channel, sel: Selection, now: int, upstream: seq<string>, matches: Matcher)
    requires CameFrom(c, upstream, matches)
    ensures CameFrom(AfterApply(c, sel, now), upstream, matches) <==>
            AddsSettle(c, sel, upstream, matches) && PartsSettle(c, sel, upstream)
  {
    AddListAgrees(c, sel, now, upstream, matches);
    RemoveListAgrees(c, sel, now, upstream, matches);
  }

  // ---------------------------------------------------------------- what a caller can read off

  ghost predicate NewRule(c: Channel, sel: Selection, r: string) {
    r in NewlyIgnored(c, sel) && r !in Added(c, sel)
  }

  /** Every newly ignored name is ignored by a newly ignored name: by itself, unless it reads as a rule. */
  ghost predicate NewRulesCover(c: Channel, sel: Selection, matches: Matcher) {
    forall u | NewRule(c, sel, u) :: exists r :: NewRule(c, sel, r) && RuleIgnores(r, u, matches)
  }

  /** No newly ignored name, read as a rule, ignores a pending name that was not selected. */
  ghost predicate NewRulesSpare(c: Channel, sel: Selection, matches: Matcher) {
    forall r, u | NewRule(c, sel, r) && u in c.settings.detected && u !in Added(c, sel) && u !in NewlyIgnored(c, sel) ::
      !RuleIgnores(r, u, matches)
  }

  /** No added name was the only rule to ignore another upstream name. */
  ghost predicate OldRulesHold(c: Channel, sel: Selection, upstream: seq<string>, matches: Matcher) {
    forall u | u in Normalize(upstream) && u !in c.mapping.Values && u !in LocalNames(c) && u !in Added(c, sel)
               && Ignored(Normalize(c.settings.ignored), u, matches) ::
      StillIgnored(c, sel, matches, u)
  }

  ghost predicate RulesSettle(c: Channel, sel: Selection, upstream: seq<string>, matches: Matcher) {
    NewRulesCover(c, sel, matches) && NewRulesSpare(c, sel, matches) && OldRulesHold(c, sel, upstream, matches)
  }

  lemma CommaFreeParts(c: Channel, sel: Selection)
    requires CommaFree(Added(c, sel))
    ensures Parts(c, sel) == Added(c, sel)
  {
    SelectionFacts(c, sel);
    PiecesOfCommaFree(Added(c, sel));
    NormalizeFixed(Added(c, sel));
  }

  /** A pending name is still ignored only by a newly ignored one. */
  lemma PendingIgnored(c: Channel, sel: Selection, upstream: seq<string>, matches: Matcher, u: string)
    requires CameFrom(c, upstream, matches) && u in c.settings.detected
    ensures u in Normalize(upstream) && u !in c.mapping.Values && u !in LocalNames(c)
    ensures !Ignored(Normalize(c.settings.ignored), u, matches)
    ensures StillIgnored(c, sel, matches, u) <==> exists r :: NewRule(c, sel, r) && RuleIgnores(r, u, matches)
  {
    DetectFacts(c, upstream, matches);
    if r :| NewRule(c, sel, r) && RuleIgnores(r, u, matches) {
      assert StillIgnored(c, sel, matches, u);
    }
  }

  /** An upstream name that could be adopted is pending. */
  lemma IsPending(c: Channel, upstream: seq<string>, matches: Matcher, u: string)
    requires CameFrom(c, upstream, matches) && u in Normalize(upstream)
    ensures Addable(LocalNames(c), c.mapping.Values, Normalize(c.settings.ignored), matches, u) <==> u in c.settings.detected
  {
    DetectFacts(c, upstream, matches);
  }

  /** What settling means for a name that was not added, when no added name contains a comma. */
  lemma SettlesAt(c: Channel, sel: Selection, upstream: seq<string>, matches: Matcher, u: string)
    requires CameFrom(c, upstream, matches) && CommaFree(Added(c, sel)) && u in Normalize(upstream)
    requires u !in c.mapping.Values && u !in LocalNames(c)
    ensures u in Added(c, sel) ==> AddSettles(c, sel, matches, u)
    ensures u !in Added(c, sel) && Ignored(Normalize(c.settings.ignored), u, matches) ==>
              u !in c.settings.detected && (AddSettles(c, sel, matches, u) <==> StillIgnored(c, sel, matches, u))
    ensures u !in Added(c, sel) && !Ignored(Normalize(c.settings.ignored), u, matches) ==>
              && u in c.settings.detected
              && (AddSettles(c, sel, matches, u) <==>
                  ((exists r :: NewRule(c, sel, r) && RuleIgnores(r, u, matches)) <==> u in NewlyIgnored(c, sel)))
  {
    CommaFreeParts(c, sel);
    IsPending(c, upstream, matches, u);
    if u in c.settings.detected {
      PendingIgnored(c, sel, upstream, matches, u);
    }
  }

  lemma NewIsPending(c: Channel, sel: Selection, upstream: seq<string>, matches: Matcher, u: string)
    requires CameFrom(c, upstream, matches) && (u in NewlyIgnored(c, sel) || u in c.settings.detected)
    ensures u in c.settings.detected && u in Normalize(upstream) && u !in c.mapping.Values && u !in LocalNames(c)
    ensures !Ignored(Normalize(c.settings.ignored), u, matches)
  {
    PendingFacts(c, sel, upstream, matches);
    SelectionFacts(c, sel);
    PendingIgnored(c, sel, upstream, matches, u);
  }

  lemma SettledRules(c: Channel, sel: Selection, upstream: seq<string>, matches: Matcher)
    requires CameFrom(c, upstream, matches) && CommaFree(Added(c, sel)) && AddsSettle(c, sel, upstream, matches)
    ensures RulesSettle(c, sel, upstream, matches)
  {
    assert NewRulesCover(c, sel, matches) by {
      forall u | NewRule(c, sel, u) ensures exists r :: NewRule(c, sel, r) && RuleIgnores(r, u, matches) {
        NewIsPending(c, sel, upstream, matches, u);
        SettlesAt(c, sel, upstream, matches, u);
      }
    }
    assert NewRulesSpare(c, sel, matches) by {
      forall r, u | NewRule(c, sel, r) && u in c.settings.detected && u !in Added(c, sel) && u !in NewlyIgnored(c, sel)
        ensures !RuleIgnores(r, u, matches)
      {
        NewIsPending(c, sel, upstream, matches, u);
        SettlesAt(c, sel, upstream, matches, u);
      }
    }
    assert OldRulesHold(c, sel, upstream, matches) by {
      forall u | u in Normalize(upstream) && u !in c.mapping.Values && u !in LocalNames(c) && u !in Added(c, sel)
                 && Ignored(Normalize(c.settings.ignored), u, matches)
        ensures StillIgnored(c, sel, matches, u)
      {
        SettlesAt(c, sel, upstream, matches, u);
      }
    }
  }

  lemma RulesSettled(c: Channel, sel: Selection, upstream: seq<string>, matches: Matcher)
    requires CameFrom(c, upstream, matches) && CommaFree(Added(c, sel)) && RulesSettle(c, sel, upstream, matches)
    ensures AddsSettle(c, sel, upstream, matches)
  {
    forall u | u in Normalize(upstream) && u !in c.mapping.Values && u !in LocalNames(c)
      ensures AddSettles(c, sel, matches, u)
    {
      SettlesAt(c, sel, upstream, matches, u);
      if u !in Added(c, sel) && u in NewlyIgnored(c, sel) {
        NewIsPending(c, sel, upstream, matches, u);
        assert NewRule(c, sel, u);
      }
    }
  }

  /** When no added name contains a comma, the lists agree exactly when the rules settle. */
  lemma BookkeepingOfRules(c: Channel, sel: Selection, now: int, upstream: seq<string>, matches: Matcher)
    requires CameFrom(c, upstream, matches) && CommaFree(Added(c, sel))
    ensures CameFrom(AfterApply(c, sel, now), upstream, matches) <==> RulesSettle(c, sel, upstream, matches)
  {
    BookkeepingIsExact(c, sel, now, upstream, matches);
    CommaFreeParts(c, sel);
    PendingFacts(c, sel, upstream, matches);
    if AddsSettle(c, sel, upstream, matches) {
      SettledRules(c, sel, upstream, matches);
    }
    if RulesSettle(c, sel, upstream, matches) {
      RulesSettled(c, sel, upstream, matches);
    }
  }

  /** Plain names settle: a plain rule ignores just itself. */
  lemma PlainRulesSettle(c: Channel, sel: Selection, upstream: seq<string>, matches: Matcher)
    requires CameFrom(c, upstream, matches) && PlainNames(upstream)
    ensures RulesSettle(c, sel, upstream, matches)
  {
    PendingFacts(c, sel, upstream, matches);
    forall u | NewRule(c, sel, u) ensures exists r :: NewRule(c, sel, r) && RuleIgnores(r, u, matches) {
      assert RuleIgnores(u, u, matches);
    }
    forall u | u in Normalize(upstream) && u !in Added(c, sel) && Ignored(Normalize(c.settings.ignored), u, matches)
      ensures StillIgnored(c, sel, matches, u)
    {
      var r :| r in Normalize(c.settings.ignored) && RuleIgnores(r, u, matches);
      assert r !in Added(c, sel);
    }
  }

  /** A selected name leaves the stored list. */
  lemma SelectedLeaves(c: Channel, sel: Selection, now: int, a: string)
    requires a in Added(c, sel) || a in NewlyIgnored(c, sel)
    ensures a !in AfterApply(c, sel, now).settings.detected
  {
    FilterMember(Normalize(c.settings.detected), m => m !in Added(c, sel) && m !in NewlyIgnored(c, sel), a);
  }

  /** An added name with a comma is split when it is stored, so a fresh detection finds it again, unless it
      is ignored by a name that the same selection ignores. */
  lemma CommaNameResurfaces(c: Channel, sel: Selection, now: int, upstream: seq<string>, matches: Matcher, a: string)
    requires CameFrom(c, upstream, matches) && a in Added(c, sel) && COMMA in a
    ensures var after := AfterApply(c, sel, now);
            && a !in after.settings.detected
            && (a in DetectFor(after, upstream, matches).add <==>
                !exists r :: NewRule(c, sel, r) && RuleIgnores(r, a, matches))
  {
    var after := AfterApply(c, sel, now);
    SelectedLeaves(c, sel, now, a);
    PendingFacts(c, sel, upstream, matches);
    SelectionFacts(c, sel);
    PendingIgnored(c, sel, upstream, matches, a);
    AddSide(c, sel, now, upstream, matches, a);
    assert a !in Parts(c, sel) by {
      NormalizeMember(Pieces(Added(c, sel)), a);
      if a in Parts(c, sel) {
        var p :| p in Pieces(Added(c, sel)) && TrimSpace(p) == a;
        TrimNameFixed(p);
        PiecesCommaFree(Added(c, sel), p);
      }
    }
    DetectFacts(after, upstream, matches);
  }

  /** For plain names the law reads: the lists agree exactly when no added name contains a comma. */
  lemma BookkeepingAgrees(c: Channel, sel: Selection, now: int, upstream: seq<string>, matches: Matcher)
    requires CameFrom(c, upstream, matches) && PlainNames(upstream)
    ensures CameFrom(AfterApply(c, sel, now), upstream, matches) <==> CommaFree(Added(c, sel))
  {
    if CommaFree(Added(c, sel)) {
      BookkeepingOfRules(c, sel, now, upstream, matches);
      PlainRulesSettle(c, sel, upstream, matches);
    } else {
      var a :| a in Added(c, sel) && COMMA in a;
      CommaNameResurfaces(c, sel, now, upstream, matches, a);
      PendingFacts(c, sel, upstream, matches);
    }
  }

  /** Ignoring a pending name that reads as a rule which does not match that name itself takes it off the
      stored list while a fresh detection still finds it. */
  lemma RegexNameResurfaces(c: Channel, now: int, upstream: seq<string>, matches: Matcher, r: string)
    requires CameFrom(c, upstream, matches)
    requires r in c.settings.detected && IsRegexRule(r) && !matches(TrimSpace(r[|REGEX_PREFIX|..]), r)
    ensures var after := AfterApply(c, Selection([], [r], []), now);
            r !in after.settings.detected && r in DetectFor(after, upstream, matches).add
  {
    var sel := Selection([], [r], []);
    OnlyIgnored(c, upstream, matches, r);
    SelectedLeaves(c, sel, now, r);
    PendingIgnored(c, sel, upstream, matches, r);
    CommaFreeParts(c, sel);
    AddSide(c, sel, now, upstream, matches, r);
    DetectFacts(AfterApply(c, sel, now), upstream, matches);
  }

  /** What a selection that ignores one pending name picks. */
  lemma OnlyIgnored(c: Channel, upstream: seq<string>, matches: Matcher, r: string)
    requires CameFrom(c, upstream, matches) && r in c.settings.detected
    ensures var sel := Selection([], [r], []); Added(c, sel) == [] && NewlyIgnored(c, sel) == [r]
  {
    DetectFacts(c, upstream, matches);
    NormalizeFixed(c.settings.detected);
    NormalizeFixed([r]);
    FilterAll([r], m => m in Normalize(Normalize(c.settings.detected)));
  }

  // ---------------------------------------------------------------- convergence

  ghost function Everything(c: Channel): Selection {
    Selection(c.settings.detected, [], c.settings.removed)
  }

  /** Applying everything takes every name off both stored lists. */
  lemma EverythingLeaves(c: Channel, now: int, upstream: seq<string>, matches: Matcher)
    requires CameFrom(c, upstream, matches)
    ensures Added(c, Everything(c)) == c.settings.detected && NewlyIgnored(c, Everything(c)) == []
    ensures var after := AfterApply(c, Everything(c), now); after.settings.detected == [] && after.settings.removed == []
  {
    var sel := Everything(c);
    var detected, removed := c.settings.detected, c.settings.removed;
    PendingFacts(c, sel, upstream, matches);
    DetectFacts(c, upstream, matches);
    var added, gone, ignoredNow := Added(c, sel), Removed(c, sel), NewlyIgnored(c, sel);
    FilterAll(detected, m => m in Normalize(Normalize(detected)));
    FilterAll(removed, m => m in Normalize(Normalize(removed)));
    SubtractNormal(removed, added);
    FilterAll(removed, m => m !in added);
    FilterNone(detected, m => m !in added && m !in ignoredNow);
    FilterNone(removed, m => m !in gone);
  }

  /** Applying everything that was detected is a fixpoint, where a further detection finds nothing to add and
      nothing to remove, exactly when additions and parts settle; for comma-free names, when no detected
      name was the only rule to ignore another upstream name; for plain names, when no detected name
      contains a comma. */
  lemma ApplyAllConverges(c: Channel, now: int, upstream: seq<string>, matches: Matcher)
    requires CameFrom(c, upstream, matches)
    ensures var converged := DetectFor(AfterApply(c, Everything(c), now), upstream, matches) == Pending([], []);
            && (converged <==> AddsSettle(c, Everything(c), upstream, matches) && PartsSettle(c, Everything(c), upstream))
            && (CommaFree(c.settings.detected) ==> (converged <==> OldRulesHold(c, Everything(c), upstream, matches)))
            && (PlainNames(upstream) ==> (converged <==> CommaFree(c.settings.detected)))
  {
    var sel := Everything(c);
    EverythingLeaves(c, now, upstream, matches);
    BookkeepingIsExact(c, sel, now, upstream, matches);
    if CommaFree(c.settings.detected) {
      BookkeepingOfRules(c, sel, now, upstream, matches);
    }
    if PlainNames(upstream) {
      BookkeepingAgrees(c, sel, now, upstream, matches);
    }
  }

  /** A detection with automatic adoption is a fixpoint too: detecting again finds nothing to add and
      the removals already stored — exactly when no adopted name contains a comma. */
  lemma AutoSyncConverges(c: Channel, now: int, minInterval: int, upstream: seq<string>, matches: Matcher)
    requires c.settings.autoSync
    ensures var after := AfterCheck(c, true, true, now, minInterval, Some(upstream), matches);
            CameFrom(after, upstream, matches) <==> CommaFree(DetectFor(c, upstream, matches).add)
    ensures AfterCheck(c, true, true, now, minInterval, Some(upstream), matches).settings.detected == []
  {
    var after := AfterCheck(c, true, true, now, minInterval, Some(upstream), matches);
    var found, l, u := DetectFor(c, upstream, matches), LocalNames(c), Normalize(upstream);
    DetectFacts(c, upstream, matches);
    if found.add == [] {
      assert after == c.(settings := after.settings);
    } else if CommaFree(found.add) {
      NormalizeIsNormal(GetModels(c.models));
      forall m | m in l ensures COMMA !in m {
        StoredNamesAreCommaFree(c.models, m);
      }
      AppendDistinct(l, found.add);
      StoreRoundTrip(l + found.add);
      FilterNone(u, m => Addable(l + found.add, c.mapping.Values, Normalize(c.settings.ignored), matches, m));
      FilterAppend(l, found.add, m => Removable(u, c.mapping.Keys, m));
      FilterNone(found.add, m => Removable(u, c.mapping.Keys, m));
    } else {
      var a :| a in found.add && COMMA in a;
      if a in LocalNames(after) {
        StoredNamesAreCommaFree(after.models, a);
      }
      DetectFacts(after, upstream, matches);
      assert a in DetectFor(after, upstream, matches).add;
    }
  }

  /** A redirect source that the channel serves stays on its list, whatever is selected. */
  lemma AliasesSurvive(c: Channel, sel: Selection, now: int, upstream: seq<string>, matches: Matcher, alias: string)
    requires CameFrom(c, upstream, matches) && alias in c.mapping.Keys && alias in LocalNames(c)
    ensures alias in NextNames(c, sel) && alias in LocalNames(AfterApply(c, sel, now))
  {
    PendingFacts(c, sel, upstream, matches);
    NextMembers(c, sel);
    KeptFacts(c, sel);
    LocalMembers(c, sel, now, upstream, matches, alias);
  }

  // ---------------------------------------------------------------- two channels

  /** A channel without models that has just detected the only name of its upstream. */
  function JustDetected(name: string): Channel {
    Channel([], Settings([], [name], [], 0, false), map[])
  }

  lemma DetectsIt(name: string, matches: Matcher)
    requires Trimmed(name) && name != []
    ensures CameFrom(JustDetected(name), [name], matches) && Normalize([name]) == [name]
  {
    TrimSpaceTrims(name);
    NormalizeFixed([name]);
    NothingListed();
    AllDetected(JustDetected(name), [name], matches);
  }

  lemma NothingListed()
    ensures Normalize([]) == []
  {
  }

  /** A channel that serves and ignores nothing detects every name. */
  lemma AllDetected(c: Channel, names: seq<string>, matches: Matcher)
    requires LocalNames(c) == [] && Normalize(c.settings.ignored) == [] && c.mapping == map[] && Normalize(names) == names
    ensures DetectFor(c, names, matches) == Pending(names, [])
  {
    DetectFacts(c, names, matches);
    FilterAll(names, m => Addable(LocalNames(c), c.mapping.Values, Normalize(c.settings.ignored), matches, m));
  }

  /** Both failing families have members: "a,b", and "regex:x" with a matcher that matches nothing. */
  lemma FailingFamiliesExist(matches: Matcher)
    requires forall p, n :: !matches(p, n)
    ensures var c := JustDetected("a,b");
            CameFrom(c, ["a,b"], matches) && "a,b" in Added(c, Selection(["a,b"], [], [])) && COMMA in "a,b"
    ensures var c := JustDetected("regex:x");
            CameFrom(c, ["regex:x"], matches) && "regex:x" in c.settings.detected && IsRegexRule("regex:x")
  {
    DetectsIt("a,b", matches);
    DetectsIt("regex:x", matches);
    FilterAll(["a,b"], m => m in Normalize(Normalize(["a,b"])));
    assert "a,b"[1] == COMMA;
    assert REGEX_PREFIX <= "regex:x";
  }
}
