/** Adding keys to a stored list of keys (controller/channel.go): the append mode of UpdateChannel and the
    upgrade of a single-key channel, and when the keys that were there stay in place. */
module KeyAppends {
  import opened KeyStrings
  import opened Lists
  import opened ModelNames
  import opened Text
  import opened Wrappers

  /** The keys appended to `existing`: trimmed, without blanks, duplicates or keys already there. */
  function NewKeys(existing: seq<string>, submitted: seq<string>): seq<string> {
    Filter(Normalize(submitted), k => k !in Normalize(existing))
  }

  /** The key-append logic of UpdateChannel: existing keys stay as they are and where they are. */
  method AppendKeys(existing: seq<string>, submitted: seq<string>) returns (all: seq<string>)
    ensures all == existing + NewKeys(existing, submitted)
    ensures Distinct(all[|existing|..])
    ensures forall k :: k in all[|existing|..] <==> Listed(submitted, k) && !Listed(existing, k)
    ensures Clean(existing) && Unbroken(submitted) ==> Clean(all)
  {
    if Clean(existing) && Unbroken(submitted) {
      NewKeysAreClean(existing, submitted);
    }
    var _, seen := CollectUnseen(existing, TrimName, {});
    var deduped, _ := CollectUnseen(submitted, TrimName, seen);
    FilterCongruent(Normalize(submitted), k => k !in seen, k => k !in Normalize(existing));
    all := existing + deduped;
    assert all[|existing|..] == deduped;
    NewKeysAre(existing, submitted);
  }

  /** The new keys are distinct, and exactly those submitted that are not there, up to white space. */
  lemma NewKeysAre(existing: seq<string>, submitted: seq<string>)
    ensures Distinct(NewKeys(existing, submitted))
    ensures forall k :: k in NewKeys(existing, submitted) <==> Listed(submitted, k) && !Listed(existing, k)
  {
    NormalizeIsNormal(submitted);
    NormalizeIsNormal(existing);
    FilterDistinct(Normalize(submitted), k => k !in Normalize(existing));
    FilterMembers(Normalize(submitted), k => k !in Normalize(existing));
  }

  /** The single-to-multi upgrade of UpdateChannel: the old key first, then the submitted ones,
      trimmed and without duplicates. */
  method MergeKeys(origin: seq<string>, submitted: seq<string>) returns (merged: seq<string>)
    ensures merged == Union(origin, submitted)
    ensures Normal(merged) && Normalize(origin) <= merged
    ensures forall k :: k in merged <==> Listed(origin, k) || Listed(submitted, k)
    ensures Unbroken(origin + submitted) ==> Clean(merged)
  {
    var empty: set<string> := {};
    var seen;
    merged, seen := CollectUnseen(origin + submitted, TrimName, empty);
    FilterAll(Normalize(origin + submitted), k => k !in empty);
    UnionIsAppend(origin, submitted);
    MergedMembers(origin, submitted);
    if Unbroken(origin + submitted) {
      NormalizedIsClean(origin + submitted);
    }
  }

  lemma MergedMembers(origin: seq<string>, submitted: seq<string>)
    ensures Normal(Union(origin, submitted))
    ensures forall k :: k in Union(origin, submitted) <==> Listed(origin, k) || Listed(submitted, k)
  {
    NormalizeIsNormal(origin + submitted);
    forall k ensures Listed(origin + submitted, k) <==> Listed(origin, k) || Listed(submitted, k) {
      if Listed(origin + submitted, k) {
        var l :| l in origin + submitted && TrimSpace(l) == k;
        assert l in origin || l in submitted;
      }
    }
  }

  /** No line has a newline or looks like the beginning of an array. */
  predicate Unbroken(lines: seq<string>) {
    forall l | l in lines :: NL !in l && !Bracketed(l)
  }

  /** Trimming and deduplicating lines gives a clean list. */
  lemma NormalizedIsClean(lines: seq<string>)
    requires Unbroken(lines)
    ensures Clean(Normalize(lines))
  {
    NormalizeIsNormal(lines);
    forall k | k in Normalize(lines) ensures k != "" && NL !in k && !Bracketed(k) {
      var l :| l in lines && TrimSpace(l) == k;
      TrimSpaceTrims(l);
      TrimSpaceTrims(k);
    }
  }

  lemma NewKeysAreClean(existing: seq<string>, submitted: seq<string>)
    requires Unbroken(submitted)
    ensures Clean(NewKeys(existing, submitted))
  {
    NormalizedIsClean(submitted);
    FilterMembers(Normalize(submitted), k => k !in Normalize(existing));
  }

  /** The old key stays in front of a merged list, which can be stored. */
  lemma MergedIsStorable(parse: Parser, origin: seq<string>, submitted: seq<string>)
    requires Unbroken(origin + submitted) && Normalize(origin) != []
    ensures var merged := Union(origin, submitted);
            Normalize(origin) <= merged && Clean(merged) && Storable(parse, merged)
  {
    UnionIsAppend(origin, submitted);
    NormalizedIsClean(origin + submitted);
    CleanIsStorable(parse, Union(origin, submitted));
  }

  /** A bracketed key string that is no array. */
  predicate Broken(parse: Parser, key: string) {
    Bracketed(key) && !SpellsArray(parse, key)
  }

  /** The list that appending starts from; a broken array counts as no keys here. */
  function Existing(parse: Parser, key: string): seq<string> {
    if Bracketed(key) then (if SpellsArray(parse, key) then parse(TrimSpace(key)).value else []) else Lines(key)
  }

  function Appended(parse: Parser, key: string, submitted: seq<string>): seq<string> {
    Existing(parse, key) + NewKeys(Existing(parse, key), submitted)
  }

  /** The key string after appending: an empty one is not written. */
  function AppendedKey(parse: Parser, key: string, submitted: seq<string>): string {
    var joined := Join(Appended(parse, key, submitted), NL);
    if joined == "" then key else joined
  }

  // ---------------------------------------------------------------- what appending keeps

  predicate Names(ks: seq<string>) {
    forall k | k in ks :: k != "" && Trimmed(k)
  }

  lemma NormalizedAreNames(submitted: seq<string>)
    ensures Names(Normalize(submitted))
  {
    NormalizeIsNormal(submitted);
    forall k | k in Normalize(submitted) ensures k != "" && Trimmed(k) {
      TrimSpaceTrims(k);
    }
  }

  lemma NewKeysAreNames(existing: seq<string>, submitted: seq<string>)
    ensures Names(NewKeys(existing, submitted))
  {
    NormalizedAreNames(submitted);
    FilterMembers(Normalize(submitted), k => k !in Normalize(existing));
  }

  lemma NameEndsJoin(es: seq<string>, more: seq<string>)
    requires more != [] && Names(more)
    ensures var j := Join(es + more, NL); j != [] && j[|j| - 1] != NL
  {
    var last := more[|more| - 1];
    assert last in more && (es + more)[|es + more| - 1] == last;
    JoinLast(es + more, NL);
  }

  /** What it takes for `es` to come back in front of the keys appended to it. */
  predicate StaysInFront(es: seq<string>, more: seq<string>) {
    es == [] || (NewlineFree(es) && es[0] != "" && (more == [] ==> es[|es| - 1] != ""))
  }

  lemma InFront(es: seq<string>, more: seq<string>)
    requires es != [] && Names(more) && StaysInFront(es, more)
    ensures es <= Lines(Join(es + more, NL))
  {
    var j := Join(es + more, NL);
    JoinFirst(es + more, NL);
    assert es[0] in es;
    if more == [] {
      assert es + more == es;
      LinesOfJoin(es);
    } else {
      NameEndsJoin(es, more);
      TrimCharKeeps(j, NL);
      JoinConcat(es, more, NL);
      SplitConcat(Join(es, NL), Join(more, NL), NL);
      SplitJoin(es, NL);
    }
  }

  lemma {:induction false} TrimLeftKeepsEnd(s: string, cut: char -> bool)
    requires s != [] && !cut(s[|s| - 1])
    ensures var l := TrimLeft(s, cut); l != [] && !cut(l[|l| - 1])
  {
    if cut(s[0]) {
      TrimLeftKeepsEnd(s[1..], cut);
    }
  }

  lemma LinesNonEmpty(j: string)
    requires j != [] && j[|j| - 1] != NL
    ensures Lines(j)[0] != ""
  {
    var l := TrimLeft(j, x => x == NL);
    TrimLeftKeepsEnd(j, x => x == NL);
    TrimCharEnds(j, NL);
    SplitEnds(l, NL);
  }

  /** The lines of a non-empty text begin with a non-blank line, or are one blank line. */
  lemma FirstLine(j: string)
    ensures Lines(j)[0] != "" || Lines(j) == [""]
  {
    var t := TrimChar(j, NL);
    TrimCharEnds(j, NL);
    if t != [] {
      SplitEnds(t, NL);
    }
  }

  lemma InFrontOnly(es: seq<string>, more: seq<string>)
    requires es != [] && Names(more) && Join(es + more, NL) != "" && es <= Lines(Join(es + more, NL))
    ensures StaysInFront(es, more)
  {
    var j := Join(es + more, NL);
    forall k | k in es ensures NL !in k {
      assert k in Lines(j);
    }
    FirstLine(j);
    if more != [] {
      NameEndsJoin(es, more);
      LinesNonEmpty(j);
    } else {
      assert es + more == es;
      JoinedCount(es);
    }
  }

  /** The keys that appending starts from come back in place, in front of the new ones, exactly when none of
      them has a newline, the first is non-blank, and so is the last unless a key is added. */
  lemma InFrontIff(es: seq<string>, more: seq<string>)
    requires Names(more) && Join(es + more, NL) != ""
    ensures es <= Lines(Join(es + more, NL)) <==> StaysInFront(es, more)
  {
    if es != [] && StaysInFront(es, more) {
      InFront(es, more);
    }
    if es != [] && es <= Lines(Join(es + more, NL)) {
      InFrontOnly(es, more);
    }
  }

  function KeyLines(k: string): seq<string> {
    Split(k, NL)
  }

  lemma {:induction false} SplitNames(ks: seq<string>)
    requires ks != []
    ensures Split(Join(ks, NL), NL) == FlatMap(ks, KeyLines)
  {
    if |ks| == 1 {
      assert FlatMap(ks[1..], KeyLines) == [];
    } else {
      SplitNames(ks[1..]);
      SplitConcat(ks[0], Join(ks[1..], NL), NL);
    }
  }

  lemma LinesOfNames(ks: seq<string>)
    requires ks != [] && Names(ks)
    ensures Lines(Join(ks, NL)) == FlatMap(ks, KeyLines)
  {
    assert ks[0] in ks;
    assert [] + ks == ks;
    JoinFirst(ks, NL);
    NameEndsJoin([], ks);
    TrimCharKeeps(Join(ks, NL), NL);
    SplitNames(ks);
  }

  lemma NothingExisting(submitted: seq<string>)
    ensures [] + NewKeys([], submitted) == Normalize(submitted)
  {
    AllNew(Normalize(submitted), k => k !in Normalize([]));
  }

  lemma AllNew(names: seq<string>, isNew: string -> bool)
    requires forall k :: isNew(k) <==> k !in Normalize([])
    ensures Filter(names, isNew) == names
  {
    assert Normalize([]) == [];
    FilterAll(names, isNew);
  }

  /** Nothing is written; or the joined text is taken for an array that begins with the keys; or the submitted
      lines begin with the keys of a broken array, which is forgotten; or the keys come back in front. */
  predicate KeptByAppend(parse: Parser, key: string, submitted: seq<string>) {
    var es := Existing(parse, key);
    var more := NewKeys(es, submitted);
    var joined := Join(es + more, NL);
    || joined == ""
    || (if SpellsArray(parse, joined) then ReadKeys(parse, key) <= parse(TrimSpace(joined)).value
        else if Broken(parse, key) then Lines(key) <= FlatMap(Normalize(submitted), KeyLines)
        else StaysInFront(es, more))
  }

  /** Appending leaves the existing keys in place in exactly these cases. */
  lemma AppendKeepsKeys(parse: Parser, key: string, submitted: seq<string>)
    requires key != ""
    ensures ReadKeys(parse, key) <= ReadKeys(parse, AppendedKey(parse, key, submitted)) <==>
            KeptByAppend(parse, key, submitted)
  {
    var es := Existing(parse, key);
    var more := NewKeys(es, submitted);
    var joined := Join(es + more, NL);
    if joined != "" && !SpellsArray(parse, joined) {
      if Broken(parse, key) {
        NothingExisting(submitted);
        NormalizedAreNames(submitted);
        LinesOfNames(Normalize(submitted));
      } else {
        NewKeysAreNames(es, submitted);
        InFrontIff(es, more);
      }
    }
  }

  /** A stored array with a newline inside an element, such as a pretty-printed one, loses that key. */
  lemma NewlineElementIsSplit(parse: Parser, key: string, submitted: seq<string>)
    requires SpellsArray(parse, key) && !NewlineFree(ReadKeys(parse, key))
    requires var joined := Join(Appended(parse, key, submitted), NL); joined != "" && !SpellsArray(parse, joined)
    ensures !(ReadKeys(parse, key) <= ReadKeys(parse, AppendedKey(parse, key, submitted)))
  {
    AppendKeepsKeys(parse, key, submitted);
  }

  lemma {:induction false} NewlinesAreSpace(s: string, cut: char -> bool)
    requires (forall c :: cut(c) <==> c == NL) && TrimLeft(s, cut) == []
    ensures FirstKept(s, IsSpace).None?
  {
    if s != [] {
      NewlinesAreSpace(s[1..], cut);
    }
  }

  lemma NewlinesOnly(key: string)
    requires TrimChar(key, NL) == ""
    ensures !Bracketed(key)
  {
    var cut := (x: char) => x == NL;
    var l := TrimLeft(key, cut);
    TrimLeftIs(key, cut);
    if l != [] {
      TrimRightFirst(l, cut);
    }
    NewlinesAreSpace(key, cut);
    BracketedIff(key);
  }

  /** A key string of newlines has one blank key, which any new key displaces. */
  lemma BlankKeyIsDisplaced(parse: Parser, key: string, submitted: seq<string>)
    requires key != "" && TrimChar(key, NL) == "" && NewKeys([""], submitted) != []
    requires !SpellsArray(parse, Join([""] + NewKeys([""], submitted), NL))
    ensures ReadKeys(parse, key) == [""]
    ensures !(ReadKeys(parse, key) <= ReadKeys(parse, AppendedKey(parse, key, submitted)))
  {
    NewlinesOnly(key);
    assert Existing(parse, key) == [""];
    JoinedNonEmpty(NewKeys([""], submitted));
    AppendKeepsKeys(parse, key, submitted);
  }

  lemma JoinedNonEmpty(more: seq<string>)
    requires more != []
    ensures Join([""] + more, NL) != ""
  {
    JoinConcat([""], more, NL);
  }

  /** Clean keys stay clean, and can be stored, when clean lines are appended. */
  lemma CleanAppends(parse: Parser, key: string, submitted: seq<string>)
    requires !Bracketed(key) && Clean(Lines(key)) && Unbroken(submitted)
    ensures var all := Appended(parse, key, submitted); Lines(key) <= all && Clean(all) && Storable(parse, all)
  {
    NewKeysAreClean(Lines(key), submitted);
    CleanConcat(parse, Lines(key), NewKeys(Lines(key), submitted));
  }

  lemma CleanConcat(parse: Parser, a: seq<string>, b: seq<string>)
    requires a != [] && Clean(a) && Clean(b)
    ensures Clean(a + b) && Storable(parse, a + b)
  {
    CleanIsStorable(parse, a + b);
  }
}
