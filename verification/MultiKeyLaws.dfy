/** What the multi-key actions amount to, as laws about the list of records. */
module MultiKeyLaws {
  import opened KeyStrings
  import opened Lists
  import opened MultiKey
  import opened Text
  import opened Wrappers

  ghost predicate SomeSurvivor(rs: seq<Record>) {
    exists r :: r in rs && Survives(r)
  }

  lemma DoomedOrSurvives(rs: seq<Record>)
    ensures |Filter(rs, Survives)| + CountWhere(rs, Doomed) == |rs|
    ensures Filter(rs, Survives) != [] <==> SomeSurvivor(rs)
  {
    Parted(rs);
    FilterMembers(rs, Survives);
    if Filter(rs, Survives) != [] {
      assert Filter(rs, Survives)[0] in Filter(rs, Survives);
    }
  }

  /** When every key is auto-disabled the action reports them deleted, but all of them are back,
      enabled, with their priorities lost. */
  lemma DeletingEveryKeyRevivesThem(parse: Parser, l: Listing, statuses: nat)
    requires l.records != [] && !SomeSurvivor(l.records)
    ensures Respond(l, statuses, DeleteDisabledKeys) == Counted(|l.records|)
    ensures Perform(l, DeleteDisabledKeys) == Settled(Map(l.records, Reset)) && Keeps(parse, l, DeleteDisabledKeys)
  {
    DoomedOrSurvives(l.records);
    AfterDeleteKeys(l.records);
  }

  /** When the only survivor is blank, none of the keys is deleted either. */
  lemma LoneBlankRevivesThem(parse: Parser, key: string, s: Store, out: Store)
    requires s.keys == ReadKeys(parse, key) && CountWhere(Records(s), Doomed) > 0
    requires Sound(out) && Records(out) == Map(Filter(Records(s), Survives), Tidied)
    requires KeysOf(Filter(Records(s), Survives)) == [""]
    ensures Rewritten(parse, key, out).keys == s.keys
  {
    SurvivorFacts(s, out, CountWhere(Records(s), Doomed));
    assert Join(out.keys, NL) == "";
  }

  /** A channel created from lines with white space at an end records more keys than it has. Deleting the
      last of them succeeds and deletes nothing; it only corrects the number. */
  lemma PhantomKey(parse: Parser, text: string, statuses: nat)
    requires var keys := Cleaned(Split(text, NL));
             keys != [] && (keys[0] == "" || keys[|keys| - 1] == "") && !SpellsArray(parse, Join(keys, NL))
    ensures var keys := Cleaned(Split(text, NL));
            var l, a := Listing(UntouchedAll(ReadKeys(parse, Join(keys, NL))), |keys|), DeleteKey(Some(|keys| - 1));
            && l.size > |l.records|
            && (l.records != [] ==> Respond(l, statuses, a) == Done && Perform(l, a) == Settled(l.records))
  {
    var keys := Cleaned(Split(text, NL));
    CleanedNewlineFree(text);
    if Join(keys, NL) != "" {
      JoinedCount(keys);
    }
    var l := Listing(UntouchedAll(ReadKeys(parse, Join(keys, NL))), |keys|);
    if l.records != [] {
      DeletesNothing(l, |keys| - 1, statuses);
    }
  }

  lemma DeletesNothing(l: Listing, i: nat, statuses: nat)
    requires 0 < |l.records| <= i < l.size
    ensures var a := DeleteKey(Some(i)); Respond(l, statuses, a) == Done && Perform(l, a) == Settled(l.records)
  {
  }

  // ---------------------------------------------------------------- record by record

  // The stored statuses: 1 is enabled, 2 switched off by hand, 3 switched off automatically.

  /** What an action that deletes nothing does to each record. */
  lemma EachRecord(l: Listing, a: Action, i: nat)
    requires RefusalOf(l, a).None? && !a.DeleteKey? && !a.DeleteDisabledKeys? && i < |l.records|
    ensures var r, after := l.records[i], Perform(l, a).records;
            && |after| == |l.records|
            && after[i] ==
               match a
               case DisableKey(k) => if i == k.value then r.(status := 2) else r
               case EnableKey(k) => if i == k.value then r.(status := 1, time := None, reason := None) else r
               case EnableAllKeys => r.(status := 1, time := None, reason := None)
               case DisableAllKeys => if i < l.size && r.status == 1 then r.(status := 2) else r
               case SetKeyPriority(k, p) => if i == k.value then r.(priority := p.value) else r
               case _ => r
  {
    var after := After(l, a);
    assert Perform(l, a).records == after;
    match a {
      case EnableAllKeys => assert after[i] == MultiKey.Enabled(l.records[i]);
      case DisableAllKeys => assert after[i] == if i < l.size then MultiKey.Disabled(l.records[i]) else l.records[i];
      case _ =>
    }
  }

  ghost predicate KeptByDeletion(r: Record) {
    r.status != 3
  }

  /** Deleting the disabled keys deletes exactly the automatically disabled ones, if a key is left: key, status
      and priority of every other key stay, in order. */
  lemma DeletesAutoDisabled(l: Listing)
    requires exists r :: r in l.records && r.status != 3
    ensures Briefs(Perform(l, DeleteDisabledKeys).records) == Briefs(Filter(l.records, KeptByDeletion))
  {
    FilterCongruent(l.records, Survives, KeptByDeletion);
    BulkDeletionPerforms(l);
    if CountWhere(l.records, Doomed) == 0 {
      NothingFiltered(l.records);
    } else {
      SurvivorsRemain(l.records);
      TidiedBriefs(Filter(l.records, Survives));
    }
  }

  /** Where some are deleted and some are left, an enabled key that is left loses the time and the reason of an
      earlier disabling, and nothing else changes. */
  lemma LeftByDeletion(l: Listing, i: nat)
    requires (exists r :: r in l.records && r.status != 3) && (exists r :: r in l.records && r.status == 3)
    requires i < |Filter(l.records, KeptByDeletion)|
    ensures var r, after := Filter(l.records, KeptByDeletion)[i], Perform(l, DeleteDisabledKeys).records;
            && |after| == |Filter(l.records, KeptByDeletion)|
            && after[i] == if r.status == 1 then r.(time := None, reason := None) else r
  {
    FilterCongruent(l.records, Survives, KeptByDeletion);
    FilterMembers(l.records, Doomed);
    var r :| r in l.records && r.status == 3;
    assert r in Filter(l.records, Doomed);
    BulkDeletionPerforms(l);
    SurvivorsRemain(l.records);
    var kept := Filter(l.records, KeptByDeletion);
    assert Perform(l, DeleteDisabledKeys).records == Map(kept, Tidied);
    TidiedIs(kept[i]);
  }

  lemma TidiedIs(r: Record)
    ensures Tidied(r) == if r.status == 1 then r.(time := None, reason := None) else r
  {
    assert r == Record(r.key, r.status, r.time, r.reason, r.priority);
  }

  /** disable_all_keys makes no key deletable: deleting the disabled keys afterwards deletes exactly those that
      were automatically disabled before. */
  lemma DisableThenDelete(l: Listing)
    requires exists r :: r in l.records && r.status != 3
    ensures KeysOf(PerformAll(l, [DisableAllKeys, DeleteDisabledKeys]).records) == KeysOf(Filter(l.records, KeptByDeletion))
  {
    var mid := Perform(l, DisableAllKeys);
    assert [DisableAllKeys, DeleteDisabledKeys] == [DisableAllKeys] + ([DeleteDisabledKeys] + []);
    PerformAllCons(l, DisableAllKeys, [DeleteDisabledKeys] + []);
    PerformAllCons(mid, DeleteDisabledKeys, []);
    DisabledAlike(l);
    FilterAlike(l.records, mid.records);
    var r :| r in l.records && r.status != 3;
    var i :| 0 <= i < |l.records| && l.records[i] == r;
    assert mid.records[i] in mid.records && mid.records[i].status != 3;
    DeletesAutoDisabled(mid);
    BriefKeys(Perform(mid, DeleteDisabledKeys).records, Filter(mid.records, KeptByDeletion));
  }

  /** The same keys, with the same ones automatically disabled. */
  ghost predicate Alike(rs: seq<Record>, ts: seq<Record>) {
    |rs| == |ts| && forall i | 0 <= i < |rs| :: rs[i].key == ts[i].key && (rs[i].status == 3 <==> ts[i].status == 3)
  }

  lemma DisabledAlike(l: Listing)
    ensures Alike(l.records, Perform(l, DisableAllKeys).records)
  {
    if RefusalOf(l, DisableAllKeys).None? {
      forall i | 0 <= i < |l.records|
        ensures var r, t := l.records[i], Perform(l, DisableAllKeys).records;
                |t| == |l.records| && r.key == t[i].key && (r.status == 3 <==> t[i].status == 3)
      {
        EachRecord(l, DisableAllKeys, i);
      }
    }
  }

  lemma {:induction false} FilterAlike(rs: seq<Record>, ts: seq<Record>)
    requires Alike(rs, ts)
    ensures KeysOf(Filter(rs, KeptByDeletion)) == KeysOf(Filter(ts, KeptByDeletion))
  {
    if rs != [] {
      var n := |rs| - 1;
      FilterAlike(rs[..n], ts[..n]);
      assert rs == rs[..n] + [rs[n]] && ts == ts[..n] + [ts[n]];
      KeptSnoc(rs[..n], rs[n]);
      KeptSnoc(ts[..n], ts[n]);
    }
  }

  lemma KeptSnoc(rs: seq<Record>, r: Record)
    ensures KeysOf(Filter(rs + [r], KeptByDeletion))
         == KeysOf(Filter(rs, KeptByDeletion)) + if r.status == 3 then [] else [r.key]
  {
    var kept, more := Filter(rs, KeptByDeletion), Filter(rs + [r], KeptByDeletion);
    FilterSnoc(rs, r, KeptByDeletion);
    if r.status == 3 {
      assert more == kept;
    } else {
      assert more == kept + [r];
      KeysSnoc(kept, r);
    }
  }

  lemma KeysSnoc(rs: seq<Record>, r: Record)
    ensures KeysOf(rs + [r]) == KeysOf(rs) + [r.key]
  {
  }

  // ---------------------------------------------------------------- the answers

  /** The positions with a status. */
  ghost function WithStatus(rs: seq<Record>, status: int): set<int> {
    set i | 0 <= i < |rs| && rs[i].status == status
  }

  /** The recorded positions whose key is enabled, or not there. */
  ghost function EnabledBelow(rs: seq<Record>, n: nat): set<int> {
    set i | 0 <= i < n && (i < |rs| ==> rs[i].status == 1)
  }

  lemma {:induction false} DoomedCount(rs: seq<Record>)
    ensures CountWhere(rs, Doomed) == |WithStatus(rs, 3)|
  {
    if rs != [] {
      var n := |rs| - 1;
      DoomedCount(rs[..n]);
      FilterSnoc(rs[..n], rs[n], Doomed);
      assert rs == rs[..n] + [rs[n]];
      WithStatusStep(rs[..n], rs[n], 3);
    }
  }

  lemma WithStatusStep(rs: seq<Record>, r: Record, status: int)
    ensures |WithStatus(rs + [r], status)| == |WithStatus(rs, status)| + if r.status == status then 1 else 0
  {
    var before, after := WithStatus(rs, status), WithStatus(rs + [r], status);
    if r.status == status {
      assert after == before + {|rs|};
    } else {
      assert after == before;
    }
  }

  lemma {:induction false} EnabledCount(rs: seq<Record>, n: nat)
    ensures EnabledFirst(rs, n) == |EnabledBelow(rs, n)|
  {
    if n > 0 {
      EnabledCount(rs, n - 1);
      EnabledFirstStep(rs, n - 1);
      EnabledBelowStep(rs, n - 1);
    }
  }

  lemma EnabledBelowStep(rs: seq<Record>, i: nat)
    ensures |EnabledBelow(rs, i + 1)| == |EnabledBelow(rs, i)| + if i < |rs| && rs[i].status != 1 then 0 else 1
  {
    var before, after := EnabledBelow(rs, i), EnabledBelow(rs, i + 1);
    if i < |rs| && rs[i].status != 1 {
      assert after == before;
    } else {
      assert after == before + {i};
    }
  }

  /** What each action answers. An index is checked against the recorded number of keys, a priority's index
      against the keys; the last key is not deleted; the counts are those of the keys concerned. */
  lemma Answers(l: Listing, statuses: nat, a: Action)
    ensures Respond(l, statuses, a) ==
            match a
            case DisableKey(k) => IndexAnswer(k, l.size)
            case EnableKey(k) => IndexAnswer(k, l.size)
            case EnableAllKeys => Counted(statuses)
            case DisableAllKeys =>
              var n := |EnabledBelow(l.records, l.size)|;
              if n == 0 then Refused(NothingToDisable) else Counted(n)
            case DeleteKey(k) =>
              if IndexAnswer(k, l.size) == Done && (l.records == [] || (|l.records| == 1 && k.value == 0)) then
                Refused(LastKey)
              else IndexAnswer(k, l.size)
            case DeleteDisabledKeys =>
              var n := |WithStatus(l.records, 3)|;
              if n == 0 then Refused(NothingToDelete) else Counted(n)
            case SetKeyPriority(k, p) =>
              if k.None? then Refused(MissingIndex)
              else if p.None? then Refused(MissingPriority)
              else if k.value < 0 || |l.records| <= k.value then Refused(IndexOutOfRange)
              else if p.value < 0 || 100 < p.value then Refused(BadPriority)
              else Done
  {
    EnabledCount(l.records, l.size);
    DoomedCount(l.records);
  }

  ghost function IndexAnswer(index: Option<int>, n: nat): Response {
    if index.None? then Refused(MissingIndex)
    else if 0 <= index.value < n then Done
    else Refused(IndexOutOfRange)
  }

  // ---------------------------------------------------------------- which lists are safe

  lemma {:induction false} PerformAllCons(l: Listing, a: Action, rest: seq<Action>)
    ensures PerformAll(l, [a] + rest) == PerformAll(Perform(l, a), rest)
    decreases |rest|
  {
    var all := [a] + rest;
    if rest == [] {
      assert all == [a] && all[..0] == [];
    } else {
      PerformAllCons(l, a, rest[..|rest| - 1]);
      assert all[..|all| - 1] == [a] + rest[..|rest| - 1];
    }
  }

  lemma {:induction false} KeepsAllCons(parse: Parser, l: Listing, a: Action, rest: seq<Action>)
    ensures KeepsAll(parse, l, [a] + rest) <==> Keeps(parse, l, a) && KeepsAll(parse, Perform(l, a), rest)
    decreases |rest|
  {
    var all := [a] + rest;
    if rest == [] {
      assert all == [a] && all[..0] == [];
      assert KeepsAll(parse, l, all[..0]);
    } else {
      var front := rest[..|rest| - 1];
      KeepsAllCons(parse, l, a, front);
      PerformAllCons(l, a, front);
      assert all[..|all| - 1] == [a] + front;
    }
  }

  lemma {:induction false} SubsequenceMember(xs: seq<string>, ys: seq<string>, x: string)
    requires Subsequence(xs, ys) && x in xs
    ensures x in ys
    decreases |ys|
  {
    var front := ys[..|ys| - 1];
    assert ys == front + [ys[|ys| - 1]];
    if xs[|xs| - 1] == ys[|ys| - 1] && Subsequence(xs[..|xs| - 1], front) {
      assert xs == xs[..|xs| - 1] + [xs[|xs| - 1]];
      if x in xs[..|xs| - 1] {
        SubsequenceMember(xs[..|xs| - 1], front, x);
      }
    } else {
      SubsequenceMember(xs, front, x);
    }
  }

  /** No action empties a list, and what it does not leave alone it makes shorter. */
  lemma NeverEmptied(l: Listing, a: Action)
    ensures Perform(l, a).records == [] ==> l.records == []
    ensures |Perform(l, a).records| == |l.records| ==> KeysOf(Perform(l, a).records) == KeysOf(l.records)
    ensures Perform(l, a) == l || Perform(l, a) == Settled(Perform(l, a).records)
  {
    PerformKeys(l, a);
    SubsequenceLength(KeysOf(Perform(l, a).records), KeysOf(l.records));
  }

  ghost predicate AlwaysKeeps(parse: Parser, l: Listing) {
    forall actions :: KeepsAll(parse, l, actions)
  }

  lemma AlwaysAfter(parse: Parser, l: Listing, a: Action)
    requires AlwaysKeeps(parse, l)
    ensures Keeps(parse, l, a) && AlwaysKeeps(parse, Perform(l, a))
  {
    KeepsAllCons(parse, l, a, []);
    assert KeepsAll(parse, l, [a] + []);
    forall rest ensures KeepsAll(parse, Perform(l, a), rest) {
      KeepsAllCons(parse, l, a, rest);
      assert KeepsAll(parse, l, [a] + rest);
    }
  }

  /** Every part of the keys that deletions can leave is storable, and so are all keys where more are counted
      than there are. */
  ghost predicate PartsStorable(parse: Parser, l: Listing) {
    var keys := KeysOf(l.records);
    && (forall ks :: Subsequence(ks, keys) && 0 < |ks| < |keys| ==> Storable(parse, ks))
    && (l.size > |keys| ==> Join(keys, NL) == "" || Storable(parse, keys))
  }

  /** Any action preserves this and does to the row what it does to the listing. */
  lemma PartsKeep(parse: Parser, l: Listing, a: Action)
    requires PartsStorable(parse, l)
    ensures Keeps(parse, l, a) && PartsStorable(parse, Perform(l, a))
  {
    var next := Perform(l, a);
    var keys, after := KeysOf(l.records), KeysOf(next.records);
    PerformKeys(l, a);
    NeverEmptied(l, a);
    SubsequenceLength(after, keys);
    forall ks | Subsequence(ks, after) && 0 < |ks| < |after| ensures Storable(parse, ks) {
      SubsequenceTrans(ks, after, keys);
    }
  }

  lemma {:induction false} PartsKeepAll(parse: Parser, l: Listing, actions: seq<Action>)
    requires PartsStorable(parse, l)
    ensures KeepsAll(parse, l, actions) && PartsStorable(parse, PerformAll(l, actions))
    decreases |actions|
  {
    if actions != [] {
      var front, last := actions[..|actions| - 1], actions[|actions| - 1];
      PartsKeepAll(parse, l, front);
      PartsKeep(parse, PerformAll(l, front), last);
    }
  }

  /** Deletions reach every proper part of a list. */
  lemma {:induction false} Reached(parse: Parser, rs: seq<Record>, ks: seq<string>)
    requires AlwaysKeeps(parse, Settled(rs)) && Subsequence(ks, KeysOf(rs)) && 0 < |ks| < |rs|
    ensures Storable(parse, ks)
    decreases |rs|
  {
    var keys, l := KeysOf(rs), Settled(rs);
    var i := Dispensable(ks, keys);
    var a := DeleteKey(Some(i));
    assert |Without(rs, i)| == |rs| - 1;
    DeletionPerforms(l, i);
    DeletionKeeps(parse, l, i);
    AlwaysAfter(parse, l, a);
    if |ks| == |rs| - 1 {
      SubsequenceLength(ks, RemoveAt(keys, i));
    } else {
      Reached(parse, Without(rs, i), ks);
    }
  }

  /** A proper part of a list leaves out an element of it. */
  lemma {:induction false} Dispensable(ks: seq<string>, keys: seq<string>) returns (i: nat)
    requires Subsequence(ks, keys) && |ks| < |keys|
    ensures i < |keys| && Subsequence(ks, RemoveAt(keys, i))
    decreases |keys|
  {
    var n := |keys| - 1;
    var front := keys[..n];
    if ks != [] && ks[|ks| - 1] == keys[n] && Subsequence(ks[..|ks| - 1], front) {
      i := Dispensable(ks[..|ks| - 1], front);
      assert RemoveAt(keys, i)[..n - 1] == RemoveAt(front, i);
    } else {
      i := n;
      assert RemoveAt(keys, n) == front;
    }
  }

  /** enable_all_keys is never refused, so the recorded number is soon right. */
  lemma Settles(parse: Parser, l: Listing)
    requires AlwaysKeeps(parse, l)
    ensures AlwaysKeeps(parse, Settled(Map(l.records, MultiKey.Enabled)))
    ensures KeysOf(Map(l.records, MultiKey.Enabled)) == KeysOf(l.records)
  {
    AlwaysAfter(parse, l, EnableAllKeys);
    MapKeys(l.records, MultiKey.Enabled);
  }

  /** Which listings are safe: every sequence of actions does to the row what it does to the listing if and
      only if every part that deletions can leave is storable. */
  lemma SafeIffStorable(parse: Parser, l: Listing)
    ensures AlwaysKeeps(parse, l) <==> PartsStorable(parse, l)
  {
    if PartsStorable(parse, l) {
      forall actions ensures KeepsAll(parse, l, actions) {
        PartsKeepAll(parse, l, actions);
      }
    }
    if AlwaysKeeps(parse, l) {
      var keys := KeysOf(l.records);
      Settles(parse, l);
      forall ks | Subsequence(ks, keys) && 0 < |ks| < |keys| ensures Storable(parse, ks) {
        Reached(parse, Map(l.records, MultiKey.Enabled), ks);
      }
      if l.size > |keys| > 0 {
        BeyondKeeps(parse, l);
      }
    }
  }

  lemma BeyondKeeps(parse: Parser, l: Listing)
    requires AlwaysKeeps(parse, l) && l.size > |l.records| > 0
    ensures Join(KeysOf(l.records), NL) == "" || Storable(parse, KeysOf(l.records))
  {
    AlwaysAfter(parse, l, DeleteKey(Some(|l.records|)));
    DeletionKeeps(parse, l, |l.records|);
  }

  /** For keys that do not look like arrays this means that every key is non-blank and newline-free, or that
      there is a single key and nothing to delete beside it. */
  lemma SafeIffNoBlank(parse: Parser, l: Listing)
    requires forall k | k in KeysOf(l.records) :: !Bracketed(k)
    ensures AlwaysKeeps(parse, l) <==>
            Clean(KeysOf(l.records)) || (|l.records| == 1 && (l.size <= 1 || KeysOf(l.records) == [""]))
  {
    SafeIffStorable(parse, l);
    if Clean(KeysOf(l.records)) {
      CleanParts(parse, l);
    } else if PartsStorable(parse, l) {
      var k := UncleanKey(parse, KeysOf(l.records));
      UnstorableAlone(parse, l, k);
    } else if |l.records| == 1 {
      SingleOnly(parse, l);
    }
  }

  lemma UncleanKey(parse: Parser, keys: seq<string>) returns (k: string)
    requires !Clean(keys) && forall k | k in keys :: !Bracketed(k)
    ensures k in keys && !Storable(parse, [k])
  {
    k :| k in keys && (k == "" || NL in k);
    SingleStorable(parse, k);
  }

  lemma UnstorableAlone(parse: Parser, l: Listing, k: string)
    requires PartsStorable(parse, l) && k in KeysOf(l.records) && !Storable(parse, [k])
    ensures |l.records| == 1 && (l.size <= 1 || KeysOf(l.records) == [""])
  {
    var keys := KeysOf(l.records);
    SingleIsPart(keys, k);
    if |keys| == 1 {
      assert keys == [k];
    }
  }

  lemma CleanParts(parse: Parser, l: Listing)
    requires Clean(KeysOf(l.records))
    ensures PartsStorable(parse, l)
  {
    var keys := KeysOf(l.records);
    forall ks | Subsequence(ks, keys) && 0 < |ks| ensures Storable(parse, ks) {
      forall k | k in ks ensures k in keys {
        SubsequenceMember(ks, keys, k);
      }
      CleanIsStorable(parse, ks);
    }
    SubsequenceRefl(keys);
  }

  /** So through every sequence of actions a channel with clean keys refines the list of records. */
  lemma CleanKeepsAll(parse: Parser, l: Listing, actions: seq<Action>)
    requires Clean(KeysOf(l.records))
    ensures KeepsAll(parse, l, actions) && Clean(KeysOf(PerformAll(l, actions).records))
  {
    CleanParts(parse, l);
    PartsKeepAll(parse, l, actions);
    KeysOnlyDisappear(l, actions);
    var after := KeysOf(PerformAll(l, actions).records);
    forall k | k in after ensures k in KeysOf(l.records) {
      SubsequenceMember(after, KeysOf(l.records), k);
    }
  }

  lemma SingleStorable(parse: Parser, k: string)
    requires !Bracketed(k)
    ensures Storable(parse, [k]) <==> k != "" && NL !in k
  {
    assert Join([k], NL) == k;
    assert k in [k];
  }

  lemma SingleIsPart(keys: seq<string>, k: string)
    requires k in keys
    ensures Subsequence([k], keys)
  {
    var n := |keys| - 1;
    assert [k][..0] == [];
    assert keys == keys[..n] + [keys[n]];
    if keys[n] != k {
      SingleIsPart(keys[..n], k);
    }
  }

  lemma SingleOnly(parse: Parser, l: Listing)
    requires |l.records| == 1 && !PartsStorable(parse, l)
    ensures l.size > 1 && KeysOf(l.records) != [""]
  {
  }

  lemma {:induction false} SubsequenceLength(xs: seq<string>, ys: seq<string>)
    requires Subsequence(xs, ys)
    ensures |xs| <= |ys| && (|xs| == |ys| ==> xs == ys)
    decreases |ys|
  {
    if xs != [] {
      var front := ys[..|ys| - 1];
      if xs[|xs| - 1] == ys[|ys| - 1] && Subsequence(xs[..|xs| - 1], front) {
        SubsequenceLength(xs[..|xs| - 1], front);
        assert xs == xs[..|xs| - 1] + [xs[|xs| - 1]] && ys == front + [ys[|ys| - 1]];
      } else {
        SubsequenceLength(xs, front);
      }
    }
  }

  // ---------------------------------------------------------------- deleting one by one

  /** `order` names, one deletion at a time, an auto-disabled key of the list as it then is, until
      none is left. */
  ghost predicate Purges(rs: seq<Record>, order: seq<nat>)
    decreases |order|
  {
    if order == [] then forall r | r in rs :: Survives(r)
    else order[0] < |rs| && Doomed(rs[order[0]]) && Purges(RemoveAt(rs, order[0]), order[1..])
  }

  ghost function Deletions(order: seq<nat>): seq<Action> {
    seq(|order|, i requires 0 <= i < |order| => DeleteKey(Some(order[i])))
  }

  lemma {:induction false} RemoveDropped<T>(rs: seq<T>, i: nat, keep: T -> bool)
    requires i < |rs| && !keep(rs[i])
    ensures Filter(RemoveAt(rs, i), keep) == Filter(rs, keep)
  {
    var n, out := |rs| - 1, RemoveAt(rs, i);
    if i == n {
      assert out == rs[..n];
    } else {
      RemoveDropped(rs[..n], i, keep);
      assert out[..n - 1] == RemoveAt(rs[..n], i);
    }
  }

  lemma RemoveDoomed(rs: seq<Record>, i: nat)
    requires i < |rs| && Doomed(rs[i])
    ensures Filter(RemoveAt(rs, i), Survives) == Filter(rs, Survives)
    ensures SomeSurvivor(rs) ==> SomeSurvivor(RemoveAt(rs, i)) && |rs| > 1
  {
    RemoveDropped(rs, i, Survives);
    DoomedOrSurvives(rs);
    DoomedOrSurvives(RemoveAt(rs, i));
    assert |RemoveAt(rs, i)| == |rs| - 1;
  }

  lemma DeleteDoomed(rs: seq<Record>, i: nat)
    requires i < |rs| && Doomed(rs[i]) && SomeSurvivor(rs)
    ensures Perform(Settled(rs), DeleteKey(Some(i))) == Settled(RemoveAt(rs, i))
    ensures SomeSurvivor(RemoveAt(rs, i)) && Filter(RemoveAt(rs, i), Survives) == Filter(rs, Survives)
  {
    RemoveDoomed(rs, i);
    DeletionPerforms(Settled(rs), i);
  }

  lemma DeletionsCons(order: seq<nat>)
    requires order != []
    ensures Deletions(order) == [DeleteKey(Some(order[0]))] + Deletions(order[1..])
  {
  }

  /** Deleting the auto-disabled keys one by one with delete_key, in any order, leaves the filtered
      list; on it nothing is refused while one key survives. */
  lemma {:induction false} DeletingOneByOne(rs: seq<Record>, order: seq<nat>)
    requires SomeSurvivor(rs) && Purges(rs, order)
    ensures PerformAll(Settled(rs), Deletions(order)) == Settled(Filter(rs, Survives))
    decreases |order|
  {
    if order == [] {
      FilterAll(rs, Survives);
    } else {
      var i := order[0];
      DeleteDoomed(rs, i);
      DeletingOneByOne(RemoveAt(rs, i), order[1..]);
      DeletionsCons(order);
      PerformAllCons(Settled(rs), DeleteKey(Some(i)), Deletions(order[1..]));
    }
  }

  /** So the bulk action and any one-by-one order agree on keys, statuses and priorities; with clean keys
      both are what is stored. */
  lemma BulkEqualsOneByOne(parse: Parser, rs: seq<Record>, order: seq<nat>)
    requires SomeSurvivor(rs) && Purges(rs, order)
    ensures var one, bulk := PerformAll(Settled(rs), Deletions(order)), Perform(Settled(rs), DeleteDisabledKeys);
            Briefs(one.records) == Briefs(bulk.records) && one.size == bulk.size
    ensures Clean(KeysOf(rs)) ==>
              KeepsAll(parse, Settled(rs), Deletions(order)) && Keeps(parse, Settled(rs), DeleteDisabledKeys)
  {
    DeletingOneByOne(rs, order);
    FilteredBriefs(rs);
    if Clean(KeysOf(rs)) {
      CleanKeepsAll(parse, Settled(rs), Deletions(order));
      CleanParts(parse, Settled(rs));
      PartsKeep(parse, Settled(rs), DeleteDisabledKeys);
    }
  }

  lemma FilteredBriefs(rs: seq<Record>)
    requires SomeSurvivor(rs)
    ensures var bulk := Perform(Settled(rs), DeleteDisabledKeys);
            Briefs(bulk.records) == Briefs(Filter(rs, Survives)) && bulk.size == |Filter(rs, Survives)|
  {
    BulkDeletionPerforms(Settled(rs));
    if CountWhere(rs, Doomed) == 0 {
      NothingFiltered(rs);
    } else {
      SurvivorsRemain(rs);
      TidiedBriefs(Filter(rs, Survives));
    }
  }

  lemma SurvivorsRemain(rs: seq<Record>)
    requires SomeSurvivor(rs)
    ensures AfterDeleteDisabled(rs) == Map(Filter(rs, Survives), Tidied)
  {
    DoomedOrSurvives(rs);
    assert |Map(Filter(rs, Survives), Tidied)| == |Filter(rs, Survives)|;
  }

  lemma NothingFiltered(rs: seq<Record>)
    requires CountWhere(rs, Doomed) == 0
    ensures Filter(rs, Survives) == rs
  {
    FilterMembers(rs, Doomed);
    FilterAll(rs, Survives);
  }

  // ---------------------------------------------------------------- priorities

  /** Every key of a sound store has a priority between 0 and 100. */
  lemma PrioritiesInRange(s: Store, i: nat)
    requires Sound(s) && i < |s.keys|
    ensures 0 <= Records(s)[i].priority <= MAX_PRIORITY
    ensures Records(s)[i].priority == 0 <==> i !in s.priority
  {
    assert Records(s)[i] == RecordAt(s, i);
  }

  /** Through any sequence of actions a key is never renamed or moved ahead of another: the keys that
      remain are a subsequence of the original keys. */
  lemma {:induction false} KeysOnlyDisappear(l: Listing, actions: seq<Action>)
    ensures Subsequence(KeysOf(PerformAll(l, actions).records), KeysOf(l.records))
    decreases |actions|
  {
    if actions == [] {
      SubsequenceRefl(KeysOf(l.records));
    } else {
      var front, last := actions[..|actions| - 1], actions[|actions| - 1];
      KeysOnlyDisappear(l, front);
      var mid := PerformAll(l, front);
      PerformKeys(mid, last);
      SubsequenceTrans(KeysOf(Perform(mid, last).records), KeysOf(mid.records), KeysOf(l.records));
    }
  }

  ghost predicate Subsequence(xs: seq<string>, ys: seq<string>) {
    if xs == [] then true
    else ys != [] && (if xs[|xs| - 1] == ys[|ys| - 1] && Subsequence(xs[..|xs| - 1], ys[..|ys| - 1]) then true
                      else Subsequence(xs, ys[..|ys| - 1]))
  }

  lemma {:induction false} SubsequenceRefl(xs: seq<string>)
    ensures Subsequence(xs, xs)
  {
    if xs != [] {
      SubsequenceRefl(xs[..|xs| - 1]);
    }
  }

  lemma {:induction false} SubsequenceTrans(xs: seq<string>, ys: seq<string>, zs: seq<string>)
    requires Subsequence(xs, ys) && Subsequence(ys, zs)
    ensures Subsequence(xs, zs)
    decreases |zs|, |ys|
  {
    if xs != [] {
      var zs' := zs[..|zs| - 1];
      if ys[|ys| - 1] == zs[|zs| - 1] && Subsequence(ys[..|ys| - 1], zs') {
        if xs[|xs| - 1] == ys[|ys| - 1] && Subsequence(xs[..|xs| - 1], ys[..|ys| - 1]) {
          SubsequenceTrans(xs[..|xs| - 1], ys[..|ys| - 1], zs');
        } else {
          SubsequenceTrans(xs, ys[..|ys| - 1], zs');
        }
      } else {
        SubsequenceTrans(xs, ys, zs');
      }
    }
  }

  lemma {:induction false} FilterKeys(rs: seq<Record>, p: Record -> bool)
    ensures Subsequence(KeysOf(Filter(rs, p)), KeysOf(rs))
  {
    if rs != [] {
      var front, last := rs[..|rs| - 1], rs[|rs| - 1];
      FilterKeys(front, p);
      assert KeysOf(rs)[..|rs| - 1] == KeysOf(front);
      if p(last) {
        assert KeysOf(Filter(rs, p)) == KeysOf(Filter(front, p)) + [last.key];
      } else {
        assert Filter(rs, p) == Filter(front, p);
      }
    }
  }

  lemma {:induction false} RemoveKeys(ks: seq<string>, i: nat)
    requires i < |ks|
    ensures Subsequence(RemoveAt(ks, i), ks)
  {
    var n := |ks| - 1;
    if i == n {
      assert RemoveAt(ks, i) == ks[..n];
      SubsequenceRefl(ks[..n]);
    } else {
      RemoveKeys(ks[..n], i);
      assert RemoveAt(ks, i)[..n - 1] == RemoveAt(ks[..n], i);
    }
  }

  lemma PerformKeys(l: Listing, a: Action)
    ensures Subsequence(KeysOf(Perform(l, a).records), KeysOf(l.records))
  {
    SubsequenceRefl(KeysOf(l.records));
    if RefusalOf(l, a).None? {
      match a {
        case DeleteKey(i) =>
          KeysWithoutOne(l.records, i.value);
          if i.value < |l.records| {
            RemoveKeys(KeysOf(l.records), i.value);
          }
        case DeleteDisabledKeys =>
          FilterKeys(l.records, Survives);
          MapKeys(Filter(l.records, Survives), Tidied);
          MapKeys(l.records, Reset);
        case EnableAllKeys => MapKeys(l.records, MultiKey.Enabled);
        case DisableAllKeys => MapKeys(l.records, MultiKey.Disabled);
        case _ => assert KeysOf(Perform(l, a).records) == KeysOf(l.records);
      }
    }
  }
}
