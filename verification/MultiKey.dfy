/** Multi-key channels (controller/channel.go, model/channel.go): a string of keys beside four sparse maps
    that are keyed by position and re-indexed on deletion. They refine a plain list of per-key
    records, as long as the lists that are written can be read back. */
module MultiKey {
  import opened KeyAppends
  import opened KeyStrings
  import opened Lists
  import opened ModelNames
  import opened Text
  import opened Wrappers

  const ENABLED := 1
  const MANUALLY_DISABLED := 2
  const AUTO_DISABLED := 3
  const MAX_PRIORITY := 100

  /** The key list and the maps of ChannelInfo; a nil map is an empty one. */
  datatype Store = Store(keys: seq<string>, status: map<int, int>, time: map<int, int>, reason: map<int, string>,
                         priority: map<int, int>)

  /** Everything a channel knows about one key. */
  datatype Record = Record(key: string, status: int, time: Option<int>, reason: Option<string>, priority: int)

  /** The records beside the recorded number of keys. At creation the two can differ; every action that is not
      refused corrects the number. */
  datatype Listing = Listing(records: seq<Record>, size: nat)

  function Settled(rs: seq<Record>): Listing {
    Listing(rs, |rs|)
  }

  function Get<V>(m: map<int, V>, i: int): Option<V> {
    if i in m then Some(m[i]) else None
  }

  function GetOr(m: map<int, int>, i: int, default: int): int {
    if i in m then m[i] else default
  }

  function RecordAt(s: Store, i: nat): Record
    requires i < |s.keys|
  {
    Record(s.keys[i], GetOr(s.status, i, ENABLED), Get(s.time, i), Get(s.reason, i), GetOr(s.priority, i, 0))
  }

  function Records(s: Store): seq<Record> {
    seq(|s.keys|, i requires 0 <= i < |s.keys| => RecordAt(s, i))
  }

  function KeysOf(rs: seq<Record>): seq<string> {
    seq(|rs|, i requires 0 <= i < |rs| => rs[i].key)
  }

  lemma KeysOfRecords(s: Store)
    ensures KeysOf(Records(s)) == s.keys
  {
  }

  ghost predicate InRange<V>(m: map<int, V>, n: nat) {
    forall i | i in m :: 0 <= i < n
  }

  /** No entry without a key, and every stored priority is between 1 and 100. */
  ghost predicate Sound(s: Store) {
    && InRange(s.status, |s.keys|) && InRange(s.time, |s.keys|) && InRange(s.reason, |s.keys|)
    && InRange(s.priority, |s.keys|)
    && forall i | i in s.priority :: 1 <= s.priority[i] <= MAX_PRIORITY
  }

  // ---------------------------------------------------------------- the abstract actions

  datatype Action =
    | DisableKey(index: Option<int>)
    | EnableKey(index: Option<int>)
    | EnableAllKeys
    | DisableAllKeys
    | DeleteKey(index: Option<int>)
    | DeleteDisabledKeys
    | SetKeyPriority(index: Option<int>, priority: Option<int>)

  datatype Response = Done | Counted(count: nat) | Refused(reason: Refusal)

  datatype Refusal = MissingIndex | IndexOutOfRange | NothingToDisable | LastKey | NothingToDelete | MissingPriority
                   | BadPriority

  function Enabled(r: Record): Record {
    r.(status := ENABLED, time := None, reason := None)
  }

  function Off(r: Record): Record {
    r.(status := MANUALLY_DISABLED)
  }

  function Disabled(r: Record): Record {
    if r.status == ENABLED then r.(status := MANUALLY_DISABLED) else r
  }

  function Map(rs: seq<Record>, f: Record -> Record): seq<Record> {
    seq(|rs|, i requires 0 <= i < |rs| => f(rs[i]))
  }

  function CountWhere(rs: seq<Record>, p: Record -> bool): nat {
    |Filter(rs, p)|
  }

  predicate IsEnabled(r: Record) {
    r.status == ENABLED
  }

  predicate Doomed(r: Record) {
    r.status == AUTO_DISABLED
  }

  predicate Survives(r: Record) {
    r.status != AUTO_DISABLED
  }

  /** What deleting the auto-disabled keys keeps of a survivor: an enabled key loses the time and
      reason of an earlier disabling. */
  function Tidied(r: Record): Record {
    if r.status == ENABLED then Enabled(r) else r
  }

  /** All keys back in place, enabled and in the default tier. */
  function Reset(r: Record): Record {
    Enabled(r).(priority := 0)
  }

  function RemoveAt<T>(xs: seq<T>, i: nat): seq<T>
    requires i < |xs|
  {
    xs[..i] + xs[i + 1..]
  }

  function Without<T>(xs: seq<T>, i: nat): seq<T> {
    if i < |xs| then RemoveAt(xs, i) else xs
  }

  function Change(rs: seq<Record>, i: nat, f: Record -> Record): seq<Record> {
    if i < |rs| then rs[i := f(rs[i])] else rs
  }

  function MapFirst(rs: seq<Record>, n: nat, f: Record -> Record): seq<Record> {
    seq(|rs|, i requires 0 <= i < |rs| => if i < n then f(rs[i]) else rs[i])
  }

  /** How many of the first `n` keys are enabled; a key that is not there counts as enabled. */
  function EnabledFirst(rs: seq<Record>, n: nat): nat {
    if n <= |rs| then CountWhere(rs[..n], IsEnabled) else CountWhere(rs, IsEnabled) + n - |rs|
  }

  /** delete_disabled_keys. With no survivor the new key string is empty, which the update neither
      writes nor parses: the old keys stay, while their statuses and priorities are gone. */
  function AfterDeleteDisabled(rs: seq<Record>): seq<Record> {
    var survivors := Map(Filter(rs, Survives), Tidied);
    if survivors == [] then Map(rs, Reset) else survivors
  }

  function Checked(index: Option<int>, n: nat): Option<Refusal> {
    if index.None? then Some(MissingIndex)
    else if index.value < 0 || index.value >= n then Some(IndexOutOfRange)
    else None
  }

  /** Why an action is refused, if it is. Only the priorities are checked against the keys themselves. */
  function RefusalOf(l: Listing, a: Action): Option<Refusal> {
    match a
    case DisableKey(i) => Checked(i, l.size)
    case EnableKey(i) => Checked(i, l.size)
    case EnableAllKeys => None
    case DisableAllKeys => if EnabledFirst(l.records, l.size) == 0 then Some(NothingToDisable) else None
    case DeleteKey(i) =>
      var bad := Checked(i, l.size);
      if bad.Some? then bad else if Without(l.records, i.value) == [] then Some(LastKey) else None
    case DeleteDisabledKeys => if CountWhere(l.records, Doomed) == 0 then Some(NothingToDelete) else None
    case SetKeyPriority(i, p) =>
      if i.None? then Some(MissingIndex)
      else if p.None? then Some(MissingPriority)
      else if i.value < 0 || i.value >= |l.records| then Some(IndexOutOfRange)
      else if p.value < 0 || p.value > MAX_PRIORITY then Some(BadPriority)
      else None
  }

  /** The answer, given the number of stored statuses, which enabling all keys reports. */
  function Respond(l: Listing, statuses: nat, a: Action): Response {
    var bad := RefusalOf(l, a);
    if bad.Some? then Refused(bad.value)
    else
      match a
      case EnableAllKeys => Counted(statuses)
      case DisableAllKeys => Counted(EnabledFirst(l.records, l.size))
      case DeleteDisabledKeys => Counted(CountWhere(l.records, Doomed))
      case _ => Done
  }

  function After(l: Listing, a: Action): seq<Record>
    requires RefusalOf(l, a).None?
  {
    match a
    case DisableKey(i) => Change(l.records, i.value, Off)
    case EnableKey(i) => Change(l.records, i.value, Enabled)
    case EnableAllKeys => Map(l.records, Enabled)
    case DisableAllKeys => MapFirst(l.records, l.size, Disabled)
    case DeleteKey(i) => Without(l.records, i.value)
    case DeleteDisabledKeys => AfterDeleteDisabled(l.records)
    case SetKeyPriority(i, p) => l.records[i.value := l.records[i.value].(priority := p.value)]
  }

  function Perform(l: Listing, a: Action): Listing {
    if RefusalOf(l, a).Some? then l else Settled(After(l, a))
  }

  /** Writing `after` over the keys `before` leaves just `after`; an empty key string is not written. */
  predicate Replaces(parse: Parser, before: seq<string>, after: seq<string>) {
    Storable(parse, after) || (after == before && Join(after, NL) == "")
  }

  /** A key is to be deleted that is counted but not there: all keys are written again. */
  predicate Beyond(l: Listing, a: Action) {
    a.DeleteKey? && RefusalOf(l, a).None? && a.index.value >= |l.records|
  }

  /** The action leaves the keys alone, or writes a list that can be stored. */
  predicate Keeps(parse: Parser, l: Listing, a: Action) {
    var before, after := KeysOf(l.records), KeysOf(Perform(l, a).records);
    (after == before && !Beyond(l, a)) || Replaces(parse, before, after)
  }

  function PerformAll(l: Listing, actions: seq<Action>): Listing {
    if actions == [] then l else Perform(PerformAll(l, actions[..|actions| - 1]), actions[|actions| - 1])
  }

  predicate KeepsAll(parse: Parser, l: Listing, actions: seq<Action>) {
    actions == []
    || (var front := actions[..|actions| - 1];
        KeepsAll(parse, l, front) && Keeps(parse, PerformAll(l, front), actions[|actions| - 1]))
  }

  lemma KeysWithoutOne(rs: seq<Record>, i: nat)
    ensures KeysOf(Without(rs, i)) == Without(KeysOf(rs), i)
  {
  }

  lemma DeletionPerforms(l: Listing, i: nat)
    requires i < l.size && Without(l.records, i) != []
    ensures Perform(l, DeleteKey(Some(i))) == Settled(Without(l.records, i))
    ensures KeysOf(Without(l.records, i)) == Without(KeysOf(l.records), i)
  {
    KeysWithoutOne(l.records, i);
  }

  lemma DeletionKeeps(parse: Parser, l: Listing, i: nat)
    requires i < l.size && Without(l.records, i) != []
    ensures Keeps(parse, l, DeleteKey(Some(i))) <==>
            Replaces(parse, KeysOf(l.records), Without(KeysOf(l.records), i))
  {
    DeletionPerforms(l, i);
    if i < |l.records| {
      assert |KeysOf(Without(l.records, i))| < |KeysOf(l.records)|;
    }
  }

  /** An action that is refused leaves everything as it is. */
  lemma RefusedKeeps(parse: Parser, l: Listing, a: Action)
    requires RefusalOf(l, a).Some?
    ensures Perform(l, a) == l && Keeps(parse, l, a)
  {
  }

  /** From what delete_key does to the keys to what it does to the records. */
  lemma DeletionOutcome(parse: Parser, l: Listing, t: Listing, i: nat, deleted: bool)
    requires i < l.size && (deleted <==> Without(l.records, i) != [])
    requires !deleted ==> t == l
    requires var before := KeysOf(l.records);
             deleted ==> (Replaces(parse, before, Without(before, i)) <==> KeysOf(t.records) == Without(before, i))
    requires var before := KeysOf(l.records);
             deleted && Replaces(parse, before, Without(before, i)) ==> t == Settled(Without(l.records, i))
    ensures var a := DeleteKey(Some(i));
            && (forall n :: Respond(l, n, a) == (if deleted then Done else Refused(LastKey)))
            && (Keeps(parse, l, a) <==> KeysOf(t.records) == KeysOf(Perform(l, a).records))
            && (Keeps(parse, l, a) ==> t == Perform(l, a))
  {
    if deleted {
      DeletionPerforms(l, i);
      DeletionKeeps(parse, l, i);
    } else {
      RefusedKeeps(parse, l, DeleteKey(Some(i)));
    }
  }

  lemma BulkDeletionPerforms(l: Listing)
    ensures Perform(l, DeleteDisabledKeys) ==
            if CountWhere(l.records, Doomed) == 0 then l else Settled(AfterDeleteDisabled(l.records))
  {
  }

  // ---------------------------------------------------------------- building a re-indexed store

  function Put<V>(m: map<int, V>, i: int, v: Option<V>): map<int, V> {
    if v.Some? then m[i := v.value] else m
  }

  const EMPTY := Store([], map[], map[], map[], map[])

  /** Append one key with its entries at the next index, as the deletion loops do. */
  function Push(s: Store, key: string, status: Option<int>, time: Option<int>, reason: Option<string>,
                priority: Option<int>): Store
  {
    var n := |s.keys|;
    Store(s.keys + [key], Put(s.status, n, status), Put(s.time, n, time), Put(s.reason, n, reason),
          Put(s.priority, n, priority))
  }

  /** Re-indexing is appending a record. */
  lemma PushAppends(s: Store, key: string, status: Option<int>, time: Option<int>, reason: Option<string>,
                    priority: Option<int>)
    requires Sound(s) && (priority.Some? ==> 1 <= priority.value <= MAX_PRIORITY)
    ensures var t := Push(s, key, status, time, reason, priority);
            && Sound(t)
            && Records(t) == Records(s) + [Record(key, if status.Some? then status.value else ENABLED, time, reason,
                                                  if priority.Some? then priority.value else 0)]
  {
    var t := Push(s, key, status, time, reason, priority);
    forall i | 0 <= i < |s.keys| ensures RecordAt(t, i) == RecordAt(s, i) {
    }
  }

  function NonDefault(m: map<int, int>, i: int, default: int): Option<int> {
    if i in m && m[i] != default then Some(m[i]) else None
  }

  // ---------------------------------------------------------------- the loops of the actions

  /** The loop of disable_all_keys, over the recorded number of keys: every enabled key becomes manually
      disabled, and statuses beyond the keys are cut off when the row is written. */
  method DisableEvery(s: Store, n: nat) returns (status: map<int, int>, count: nat)
    requires Sound(s)
    ensures var t := s.(status := Below(status, |s.keys|)); Sound(t) && Records(t) == MapFirst(Records(s), n, Disabled)
    ensures forall k | 0 <= k < |s.keys| :: GetOr(status, k, ENABLED) ==
              if k < n && GetOr(s.status, k, ENABLED) == ENABLED then MANUALLY_DISABLED else GetOr(s.status, k, ENABLED)
    ensures count == EnabledFirst(Records(s), n)
  {
    ghost var rs := Records(s);
    status, count := s.status, 0;
    for i := 0 to n
      invariant forall k | k in status :: 0 <= k
      invariant count == EnabledFirst(rs, i)
      invariant forall k | k >= i && k >= |rs| :: k !in status
      invariant forall k | 0 <= k < |rs| ::
                  GetOr(status, k, ENABLED) == if k < i then Disabled(rs[k]).status else rs[k].status
    {
      EnabledFirstStep(rs, i);
      if GetOr(status, i, ENABLED) == ENABLED {
        status := status[i := MANUALLY_DISABLED];
        count := count + 1;
      }
    }
    DisabledFirst(s, status, n);
  }

  lemma EnabledFirstStep(rs: seq<Record>, i: nat)
    ensures EnabledFirst(rs, i + 1) == EnabledFirst(rs, i) + if i < |rs| && !IsEnabled(rs[i]) then 0 else 1
  {
    if i < |rs| {
      assert rs[..i + 1][..i] == rs[..i];
    } else {
      assert rs[..|rs|] == rs;
    }
  }

  lemma DisabledFirst(s: Store, status: map<int, int>, n: nat)
    requires Sound(s) && forall k | k in status :: 0 <= k
    requires forall k | 0 <= k < |s.keys| ::
               GetOr(status, k, ENABLED) == if k < n then Disabled(RecordAt(s, k)).status else RecordAt(s, k).status
    ensures var t := s.(status := Below(status, |s.keys|)); Sound(t) && Records(t) == MapFirst(Records(s), n, Disabled)
  {
    var t := s.(status := Below(status, |s.keys|));
    forall k | 0 <= k < |s.keys|
      ensures RecordAt(t, k) == if k < n then Disabled(RecordAt(s, k)) else RecordAt(s, k)
    {
      assert GetOr(t.status, k, ENABLED) == GetOr(status, k, ENABLED);
    }
  }

  /** The first `n` records without the one at `k`. */
  ghost function Skipping(rs: seq<Record>, k: nat, n: nat): seq<Record>
    requires n <= |rs|
  {
    if n <= k then rs[..n] else rs[..k] + rs[k + 1..n]
  }

  lemma SkippingStep(rs: seq<Record>, k: nat, n: nat)
    requires n < |rs|
    ensures Skipping(rs, k, n + 1) == if n == k then Skipping(rs, k, n) else Skipping(rs, k, n) + [rs[n]]
  {
    if n > k {
      assert rs[k + 1..n + 1] == rs[k + 1..n] + [rs[n]];
    }
  }

  /** The loop of delete_key: skip one index, if it is there, and re-index the rest. */
  method ReindexWithout(s: Store, keyIndex: nat) returns (out: Store)
    requires Sound(s)
    ensures Sound(out) && out.keys == Without(s.keys, keyIndex)
    ensures Records(out) == Without(Records(s), keyIndex)
  {
    ghost var rs := Records(s);
    out := EMPTY;
    for i := 0 to |s.keys|
      invariant Sound(out)
      invariant Records(out) == Skipping(rs, keyIndex, i)
    {
      SkippingStep(rs, keyIndex, i);
      if i != keyIndex {
        var st, p := NonDefault(s.status, i, ENABLED), NonDefault(s.priority, i, 0);
        PushAppends(out, s.keys[i], st, Get(s.time, i), Get(s.reason, i), p);
        out := Push(out, s.keys[i], st, Get(s.time, i), Get(s.reason, i), p);
      }
    }
    KeysOfRecords(out);
    KeysOfRecords(s);
    KeysWithoutOne(rs, keyIndex);
  }

  /** One surviving key, re-indexed: time and reason are kept only for a key that is off. */
  function PushSurvivor(out: Store, s: Store, i: nat): Store
    requires i < |s.keys|
  {
    var st := GetOr(s.status, i, ENABLED);
    var off := st != ENABLED;
    Push(out, s.keys[i], if off then Some(st) else None, if off then Get(s.time, i) else None,
         if off then Get(s.reason, i) else None, NonDefault(s.priority, i, 0))
  }

  lemma SurvivorAppends(out: Store, s: Store, i: nat)
    requires Sound(out) && Sound(s) && i < |s.keys|
    ensures Sound(PushSurvivor(out, s, i)) && Records(PushSurvivor(out, s, i)) == Records(out) + [Tidied(RecordAt(s, i))]
  {
    var st := GetOr(s.status, i, ENABLED);
    var off := st != ENABLED;
    PushAppends(out, s.keys[i], if off then Some(st) else None, if off then Get(s.time, i) else None,
                if off then Get(s.reason, i) else None, NonDefault(s.priority, i, 0));
  }

  /** The loop of delete_disabled_keys: keep and re-index every key that is not auto-disabled. */
  method ReindexSurvivors(s: Store) returns (out: Store, count: nat)
    requires Sound(s)
    ensures Sound(out)
    ensures Records(out) == Map(Filter(Records(s), Survives), Tidied)
    ensures count == CountWhere(Records(s), Doomed)
  {
    ghost var rs := Records(s);
    out, count := EMPTY, 0;
    for i := 0 to |s.keys|
      invariant Sound(out)
      invariant Records(out) == Map(Filter(rs[..i], Survives), Tidied)
      invariant count == CountWhere(rs[..i], Doomed)
    {
      assert rs[..i + 1][..i] == rs[..i];
      var st := GetOr(s.status, i, ENABLED);
      if st == AUTO_DISABLED {
        count := count + 1;
      } else {
        SurvivorAppends(out, s, i);
        MapAppend(Filter(rs[..i], Survives), rs[i], Tidied);
        out := PushSurvivor(out, s, i);
      }
    }
    assert rs[..|s.keys|] == rs;
  }

  /** Emptying the maps resets the records. */
  lemma ClearedRecords(s: Store)
    ensures Records(Store(s.keys, map[], map[], map[], s.priority)) == Map(Records(s), Enabled)
    ensures Records(Store(s.keys, map[], map[], map[], map[])) == Map(Records(s), Reset)
  {
    var rs, t, u := Records(s), Store(s.keys, map[], map[], map[], s.priority), Store(s.keys, map[], map[], map[], map[]);
    forall i | 0 <= i < |s.keys| ensures RecordAt(t, i) == Enabled(rs[i]) && RecordAt(u, i) == Reset(rs[i]) {
    }
    assert Records(t) == Map(rs, Enabled);
    assert Records(u) == Map(rs, Reset);
  }

  /** The effect of changing the entries of one key, which are cut off if it is not there. */
  lemma DisabledRecords(s: Store, i: nat)
    requires Sound(s)
    ensures var t := s.(status := Below(s.status[i := MANUALLY_DISABLED], |s.keys|));
            Sound(t) && Records(t) == Change(Records(s), i, Off)
  {
  }

  lemma EnabledRecords(s: Store, i: nat)
    requires Sound(s)
    ensures var t := s.(status := s.status - {i}, time := s.time - {i}, reason := s.reason - {i});
            Sound(t) && Records(t) == Change(Records(s), i, Enabled)
  {
  }

  lemma PriorityRecords(s: Store, i: nat, p: int)
    requires Sound(s) && i < |s.keys| && 0 <= p <= MAX_PRIORITY
    ensures var t := s.(priority := if p == 0 then s.priority - {i} else s.priority[i := p]); var rs := Records(s);
            Sound(t) && Records(t) == rs[i := rs[i].(priority := p)]
  {
  }

  lemma MapAppend(rs: seq<Record>, r: Record, f: Record -> Record)
    ensures Map(rs + [r], f) == Map(rs, f) + [f(r)]
  {
  }

  // ---------------------------------------------------------------- adding keys

  function Untouched(key: string): Record {
    Record(key, ENABLED, None, None, 0)
  }

  function UntouchedAll(keys: seq<string>): seq<Record> {
    seq(|keys|, i requires 0 <= i < |keys| => Untouched(keys[i]))
  }

  lemma AppendRecords(s: Store, extra: seq<string>)
    requires Sound(s)
    ensures Sound(s.(keys := s.keys + extra))
    ensures Records(s.(keys := s.keys + extra)) == Records(s) + UntouchedAll(extra)
  {
    var t := s.(keys := s.keys + extra);
    forall i | 0 <= i < |t.keys|
      ensures RecordAt(t, i) == if i < |s.keys| then RecordAt(s, i) else Untouched(extra[i - |s.keys|])
    {
    }
  }

  // ---------------------------------------------------------------- writing a row

  function Below<V>(m: map<int, V>, n: nat): map<int, V> {
    map i | i in m && i < n :: m[i]
  }

  /** What is read after `out` was written over a row with the key string `key`: an empty key string is not
      written, and only statuses and priorities are trimmed to the number of keys. */
  function Rewritten(parse: Parser, key: string, out: Store): Store {
    var joined := Join(out.keys, NL);
    var k := if joined == "" then key else joined;
    var n := CountKeys(parse, k);
    Store(ReadKeys(parse, k), Below(out.status, n), out.time, out.reason, Below(out.priority, n))
  }

  lemma BelowAll<V>(m: map<int, V>, n: nat)
    requires InRange(m, n)
    ensures Below(m, n) == m
  {
  }

  /** Writing a sound store is faithful exactly when its keys replace the old ones; a shorter list never
      passes for the old one. */
  lemma RewrittenIsFaithful(parse: Parser, key: string, out: Store)
    requires Sound(out) && out.keys != []
    requires |out.keys| < |ReadKeys(parse, key)| || (out.keys == ReadKeys(parse, key) && CountKeys(parse, key) == |out.keys|)
    ensures Replaces(parse, ReadKeys(parse, key), out.keys) ==> Rewritten(parse, key, out) == out
    ensures !Replaces(parse, ReadKeys(parse, key), out.keys) ==> Rewritten(parse, key, out).keys != out.keys
  {
    StoreRoundTrip(parse, out.keys);
    BelowAll(out.status, |out.keys|);
    BelowAll(out.priority, |out.keys|);
  }

  /** What a caller can tell a key by: the key, its effective status and its priority. */
  datatype Brief = Brief(key: string, status: int, priority: int)

  function BriefOf(r: Record): Brief {
    Brief(r.key, r.status, r.priority)
  }

  function Briefs(rs: seq<Record>): seq<Brief> {
    seq(|rs|, i requires 0 <= i < |rs| => BriefOf(rs[i]))
  }

  lemma BriefKeys(rs: seq<Record>, ts: seq<Record>)
    requires Briefs(rs) == Briefs(ts)
    ensures KeysOf(rs) == KeysOf(ts)
  {
    assert |Briefs(rs)| == |rs| && |Briefs(ts)| == |ts|;
    forall i | 0 <= i < |rs| ensures rs[i].key == ts[i].key {
      assert Briefs(rs)[i] == Briefs(ts)[i];
    }
  }

  lemma TidiedBriefs(rs: seq<Record>)
    ensures Briefs(Map(rs, Tidied)) == Briefs(rs)
  {
    forall i | 0 <= i < |rs| ensures BriefOf(Tidied(rs[i])) == BriefOf(rs[i]) {
    }
  }

  /** delete_disabled_keys leaves, as far as key, status and priority go, exactly the keys that are not
      auto-disabled, in order, if and only if their list can be stored: there is one, the first and the
      last are non-blank, and none contains a newline. `out` is what the loop re-indexed. */
  lemma DeleteDisabledIsFilter(parse: Parser, key: string, s: Store, out: Store)
    requires s.keys == ReadKeys(parse, key) && CountWhere(Records(s), Doomed) > 0
    requires Sound(out) && Records(out) == Map(Filter(Records(s), Survives), Tidied)
    ensures Briefs(Records(Rewritten(parse, key, out))) == Briefs(Filter(Records(s), Survives)) <==>
            Storable(parse, KeysOf(Filter(Records(s), Survives)))
  {
    var survivors, after := Filter(Records(s), Survives), Rewritten(parse, key, out);
    SurvivorFacts(s, out, CountWhere(Records(s), Doomed));
    KeysOfRecords(after);
    if out.keys != [] {
      RewrittenIsFaithful(parse, key, out);
    }
    if Storable(parse, KeysOf(survivors)) {
      TidiedBriefs(survivors);
    } else if Briefs(Records(after)) == Briefs(survivors) {
      BriefKeys(Records(after), survivors);
    }
  }

  // ---------------------------------------------------------------- the channel object

  class Channel {
    const parse: Parser
    var key: string
    var size: nat
    var status: map<int, int>
    var time: map<int, int>
    var reason: map<int, string>
    var priority: map<int, int>

    function Keys(): seq<string>
      reads this
    {
      ReadKeys(parse, key)
    }

    function Value(): Store
      reads this
    {
      Store(Keys(), status, time, reason, priority)
    }

    function Held(): Listing
      reads this
    {
      Listing(Records(Value()), size)
    }

    /** The keys are the same number however they are counted, and the maps are sound. */
    ghost predicate Readable()
      reads this
    {
      CountKeys(parse, key) == |Keys()| && Sound(Value())
    }

    /** Moreover, the recorded size is that number. */
    ghost predicate Valid()
      reads this
    {
      Readable() && size == |Keys()|
    }

    constructor (parse: Parser, key: string, size: nat)
      ensures this.parse == parse && this.key == key && this.size == size
      ensures Value() == Store(ReadKeys(parse, key), map[], map[], map[], map[])
    {
      this.parse, this.key, this.size := parse, key, size;
      status, time, reason, priority := map[], map[], map[], map[];
    }

    /** Channel.Update: an empty key string is not written, the size is recounted, and entries beyond
        it are trimmed. */
    method Update(newKey: string)
      modifies this`key, this`size, this`status, this`priority
      ensures key == if newKey == "" then old(key) else newKey
      ensures size == CountKeys(parse, key)
      ensures status == Below(old(status), size) && priority == Below(old(priority), size)
    {
      if newKey != "" {
        key := newKey;
      }
      size := CountKeys(parse, key);
      status := map i | i in status && i < size :: status[i];
      priority := map i | i in priority && i < size :: priority[i];
    }

    /** Finishing an action that left the key list alone. */
    method Save()
      requires CountKeys(parse, key) == |Keys()|
      modifies this
      ensures key == old(key) && size == |Keys()|
      ensures Value() == old(Value()).(status := Below(old(status), |Keys()|), priority := Below(old(priority), |Keys()|))
    {
      Update(key);
    }

    /** Install a re-indexed store. */
    method Replace(out: Store)
      modifies this
      ensures Value() == Rewritten(parse, old(key), out)
      ensures key == (if Join(out.keys, NL) == "" then old(key) else Join(out.keys, NL)) && size == CountKeys(parse, key)
    {
      status, time, reason, priority := out.status, out.time, out.reason, out.priority;
      Update(Join(out.keys, NL));
    }

    /** disable_key, for an index below the recorded size. */
    method Disable(i: nat)
      requires Readable()
      modifies this
      ensures Valid() && key == old(key)
      ensures Records(Value()) == Change(Records(old(Value())), i, Off)
    {
      DisabledRecords(Value(), i);
      BelowAll(priority, |Keys()|);
      status := status[i := MANUALLY_DISABLED];
      Save();
    }

    method Enable(i: nat)
      requires Readable()
      modifies this
      ensures Valid() && key == old(key)
      ensures Records(Value()) == Change(Records(old(Value())), i, Enabled)
    {
      EnabledRecords(Value(), i);
      ghost var next := Value().(status := status - {i}, time := time - {i}, reason := reason - {i});
      BelowAll(next.status, |Keys()|);
      BelowAll(next.priority, |Keys()|);
      status := status - {i};
      time := time - {i};
      reason := reason - {i};
      assert Value() == next;
      Save();
    }

    /** enable_all_keys; the reported number is that of the stored statuses. */
    method EnableAll() returns (count: nat)
      requires Readable()
      modifies this
      ensures Valid() && key == old(key) && Records(Value()) == Map(Records(old(Value())), Enabled)
      ensures count == |old(status)|
    {
      ClearedRecords(Value());
      BelowAll(priority, |Keys()|);
      count := |status|;
      status, time, reason := map[], map[], map[];
      Save();
    }

    /** disable_all_keys: the recorded number of keys are gone through. */
    method DisableAll() returns (count: nat)
      requires Readable()
      modifies this
      ensures count == EnabledFirst(Records(old(Value())), old(size))
      ensures count == 0 ==> Value() == old(Value()) && size == old(size) && key == old(key)
      ensures count > 0 ==> Valid() && key == old(key)
      ensures count > 0 ==> Records(Value()) == MapFirst(Records(old(Value())), old(size), Disabled)
      ensures count > 0 ==> forall i | 0 <= i < |old(Keys())| ::
                var r := RecordAt(old(Value()), i);
                Records(Value())[i] == if i < old(size) && r.status == ENABLED then r.(status := MANUALLY_DISABLED) else r
    {
      var next;
      next, count := DisableEvery(Value(), size);
      if count == 0 {
        return;
      }
      BelowAll(priority, |Keys()|);
      status := next;
      Save();
    }

    /** delete_key: the last key stays; otherwise the record, if it is there, is removed exactly when the
        remaining keys can be stored. */
    method Delete(keyIndex: nat) returns (deleted: bool)
      requires Readable()
      modifies this
      ensures deleted <==> Without(old(Keys()), keyIndex) != []
      ensures !deleted ==> Value() == old(Value()) && size == old(size) && key == old(key)
      ensures var rest := Without(old(Keys()), keyIndex);
              deleted ==> (Replaces(parse, old(Keys()), rest) <==> Keys() == rest)
      ensures deleted && Replaces(parse, old(Keys()), Without(old(Keys()), keyIndex)) ==>
                Valid() && Records(Value()) == Without(Records(old(Value())), keyIndex)
    {
      var out := ReindexWithout(Value(), keyIndex);
      if out.keys == [] {
        return false;
      }
      RewrittenIsFaithful(parse, key, out);
      StoreRoundTrip(parse, out.keys);
      Replace(out);
      return true;
    }

    /** delete_disabled_keys: the survivors remain exactly when their keys can be stored; without survivors
        the old keys come back, reset. */
    method DeleteDisabled() returns (count: nat)
      requires Readable()
      modifies this
      ensures count == CountWhere(Records(old(Value())), Doomed)
      ensures count == 0 ==> Value() == old(Value()) && size == old(size) && key == old(key)
      ensures var rest := KeysOf(Filter(Records(old(Value())), Survives));
              && (count > 0 && rest != [] ==> (Storable(parse, rest) <==> Keys() == rest))
              && (count > 0 && (rest == [] || Storable(parse, rest)) ==>
                    Valid() && Records(Value()) == AfterDeleteDisabled(Records(old(Value()))))
      ensures var survivors := Filter(Records(old(Value())), Survives);
              count > 0 ==> (Briefs(Records(Value())) == Briefs(survivors) <==> Storable(parse, KeysOf(survivors)))
    {
      var out;
      out, count := ReindexSurvivors(Value());
      if count == 0 {
        return;
      }
      ghost var before := Value();
      SurvivorFacts(before, out, count);
      DeleteDisabledIsFilter(parse, key, before, out);
      if out.keys != [] {
        RewrittenIsFaithful(parse, key, out);
        StoreRoundTrip(parse, out.keys);
      } else {
        ClearedRecords(before);
      }
      Replace(out);
    }

    method SetPriority(i: nat, p: int)
      requires Readable() && i < |Keys()| && 0 <= p <= MAX_PRIORITY
      modifies this
      ensures Valid() && key == old(key)
      ensures var rs := Records(old(Value())); Records(Value()) == rs[i := rs[i].(priority := p)]
    {
      PriorityRecords(Value(), i, p);
      if p == 0 {
        priority := priority - {i};
      } else {
        priority := priority[i := p];
      }
      BelowAll(status, |Keys()|);
      BelowAll(priority, |Keys()|);
      Save();
    }

    /** The append mode of UpdateChannel. When the stored keys are not a broken array and the longer list can
        be stored, every record stays at its index and enabled keys follow. */
    method Append(submitted: seq<string>)
      requires Readable() && key != ""
      modifies this
      ensures key == AppendedKey(parse, old(key), submitted) && size == CountKeys(parse, key)
      ensures var all := Appended(parse, old(key), submitted);
              && Value() == Rewritten(parse, old(key), old(Value()).(keys := all))
              && (Storable(parse, all) && !Broken(parse, old(key)) ==>
                    Valid() && Records(Value()) == Records(old(Value())) + UntouchedAll(NewKeys(old(Keys()), submitted)))
    {
      var existing := Existing(parse, key);
      var all := AppendKeys(existing, submitted);
      var s := Value();
      if existing == s.keys {
        AppendRecords(s, NewKeys(s.keys, submitted));
        StoreRoundTrip(parse, all);
        BelowAll(status, |all|);
        BelowAll(priority, |all|);
      }
      Replace(s.(keys := all));
    }

    /** The upgrade of a single-key channel to the keys of a submitted string, if these are several: the old
        key comes first and every key starts enabled, in the default tier. */
    method Upgrade(submitted: string) returns (upgraded: bool)
      modifies this
      ensures upgraded <==> |ReadKeys(parse, submitted)| > 1
      ensures !upgraded ==> Value() == old(Value()) && key == old(key) && size == old(size)
      ensures var merged := Union(old(Keys()), ReadKeys(parse, submitted));
              upgraded ==> Value() == Rewritten(parse, old(key), EMPTY.(keys := merged)) && size == CountKeys(parse, key)
      ensures var merged := Union(old(Keys()), ReadKeys(parse, submitted));
              upgraded && Storable(parse, merged) ==> Valid() && Records(Value()) == UntouchedAll(merged)
      ensures upgraded && Unbroken(old(Keys()) + ReadKeys(parse, submitted)) && Normalize(old(Keys())) != [] ==>
                Valid() && Normalize(old(Keys())) <= Keys() && Clean(Keys())
    {
      var keys := ReadKeys(parse, submitted);
      if |keys| <= 1 {
        return false;
      }
      var merged := MergeKeys(Keys(), keys);
      if Unbroken(Keys() + keys) && Normalize(Keys()) != [] {
        MergedIsStorable(parse, Keys(), keys);
      }
      if Storable(parse, merged) {
        UpgradedRecords(parse, key, merged);
      }
      Replace(EMPTY.(keys := merged));
      return true;
    }

    /** ManageMultiKeys. The answer is always that of the listing. The action does to the stored row what it
        does to the listing exactly when it leaves the keys alone or leaves keys that can be stored. */
    method Manage(a: Action) returns (response: Response)
      requires Readable()
      modifies this
      ensures response == Respond(old(Held()), |old(status)|, a)
      ensures Keeps(parse, old(Held()), a) <==> Keys() == KeysOf(Perform(old(Held()), a).records)
      ensures Keeps(parse, old(Held()), a) ==> Readable() && Held() == Perform(old(Held()), a)
    {
      KeysOfRecords(Value());
      match a {
        case DisableKey(i) =>
          if i.None? { return Refused(MissingIndex); }
          if i.value < 0 || i.value >= size { return Refused(IndexOutOfRange); }
          Disable(i.value);
          KeysOfRecords(Value());
          return Done;
        case EnableKey(i) =>
          if i.None? { return Refused(MissingIndex); }
          if i.value < 0 || i.value >= size { return Refused(IndexOutOfRange); }
          Enable(i.value);
          KeysOfRecords(Value());
          return Done;
        case EnableAllKeys =>
          var n := EnableAll();
          KeysOfRecords(Value());
          return Counted(n);
        case DisableAllKeys =>
          var n := DisableAll();
          KeysOfRecords(Value());
          return if n == 0 then Refused(NothingToDisable) else Counted(n);
        case DeleteKey(i) =>
          response := ManageDeletion(i);
        case DeleteDisabledKeys =>
          AfterDeleteKeys(Records(Value()));
          var n := DeleteDisabled();
          KeysOfRecords(Value());
          return if n == 0 then Refused(NothingToDelete) else Counted(n);
        case SetKeyPriority(i, p) =>
          if i.None? { return Refused(MissingIndex); }
          if p.None? { return Refused(MissingPriority); }
          if i.value < 0 || i.value >= |Keys()| { return Refused(IndexOutOfRange); }
          if p.value < 0 || p.value > MAX_PRIORITY { return Refused(BadPriority); }
          SetPriority(i.value, p.value);
          KeysOfRecords(Value());
          return Done;
      }
    }

    method ManageDeletion(i: Option<int>) returns (response: Response)
      requires Readable()
      modifies this
      ensures response == Respond(old(Held()), |old(status)|, DeleteKey(i))
      ensures var l := old(Held());
              && (Keeps(parse, l, DeleteKey(i)) <==> Keys() == KeysOf(Perform(l, DeleteKey(i)).records))
              && (Keeps(parse, l, DeleteKey(i)) ==> Readable() && Held() == Perform(l, DeleteKey(i)))
    {
      ghost var before := Held();
      KeysOfRecords(Value());
      if i.None? || i.value < 0 || i.value >= size {
        RefusedKeeps(parse, before, DeleteKey(i));
        return Refused(if i.None? then MissingIndex else IndexOutOfRange);
      }
      KeysWithoutOne(before.records, i.value);
      var deleted := Delete(i.value);
      KeysOfRecords(Value());
      DeletionOutcome(parse, before, Held(), i.value, deleted);
      return if deleted then Done else Refused(LastKey);
    }

    /** Through every sequence of actions that leave storable keys the row refines the listing, with its
        entries in range and no zero priority. */
    method ManageAll(actions: seq<Action>)
      requires Readable() && KeepsAll(parse, Held(), actions)
      modifies this
      ensures Readable()
      ensures Held() == PerformAll(old(Held()), actions)
    {
      for i := 0 to |actions|
        invariant Readable()
        invariant Held() == PerformAll(old(Held()), actions[..i])
      {
        KeepsPrefix(parse, old(Held()), actions, i + 1);
        assert actions[..i + 1][..i] == actions[..i];
        var _ := Manage(actions[i]);
      }
      assert actions[..|actions|] == actions;
    }
  }

  /** AddChannel for several keys: the lines of the text are cleaned and joined, and their number is recorded. */
  method AddChannel(parse: Parser, text: string) returns (c: Channel)
    ensures fresh(c) && c.parse == parse
    ensures var keys := Cleaned(Split(text, NL));
            && c.key == Join(keys, NL) && c.Held() == Listing(UntouchedAll(ReadKeys(parse, c.key)), |keys|)
            && (Storable(parse, keys) ==> c.Valid() && c.Keys() == keys)
  {
    var keys := CleanLines(Split(text, NL));
    c := new Channel(parse, Join(keys, NL), |keys|);
    if keys != [] {
      StoreRoundTrip(parse, keys);
    }
  }

  lemma UpgradedRecords(parse: Parser, key: string, merged: seq<string>)
    requires Storable(parse, merged)
    ensures Rewritten(parse, key, EMPTY.(keys := merged)) == EMPTY.(keys := merged)
    ensures Sound(EMPTY.(keys := merged)) && Records(EMPTY.(keys := merged)) == UntouchedAll(merged)
  {
    StoreRoundTrip(parse, merged);
    BelowAll(EMPTY.status, |merged|);
  }

  lemma AfterDeleteKeys(rs: seq<Record>)
    ensures var rest := KeysOf(Filter(rs, Survives));
            KeysOf(AfterDeleteDisabled(rs)) == if rest == [] then KeysOf(rs) else rest
    ensures CountWhere(rs, Doomed) > 0 ==> |Filter(rs, Survives)| < |rs|
  {
    MapKeys(Filter(rs, Survives), Tidied);
    MapKeys(rs, Reset);
    Parted(rs);
  }

  lemma {:induction false} KeepsPrefix(parse: Parser, l: Listing, actions: seq<Action>, i: nat)
    requires i <= |actions| && KeepsAll(parse, l, actions)
    ensures KeepsAll(parse, l, actions[..i])
    decreases |actions|
  {
    if i == |actions| {
      assert actions[..i] == actions;
    } else {
      KeepsPrefix(parse, l, actions[..|actions| - 1], i);
      assert actions[..|actions| - 1][..i] == actions[..i];
    }
  }

  /** What the re-indexed survivors look like. */
  lemma SurvivorFacts(s: Store, out: Store, count: nat)
    requires Sound(out) && Records(out) == Map(Filter(Records(s), Survives), Tidied)
    requires count == CountWhere(Records(s), Doomed) && count > 0
    ensures out.keys == KeysOf(Filter(Records(s), Survives)) && |out.keys| < |s.keys|
    ensures out.keys == [] ==> out == EMPTY
    ensures AfterDeleteDisabled(Records(s)) == if out.keys == [] then Map(Records(s), Reset) else Records(out)
  {
    KeysOfRecords(out);
    MapKeys(Filter(Records(s), Survives), Tidied);
    Parted(Records(s));
    assert |Records(out)| == |out.keys|;
    if out.keys == [] {
      EmptyRange(out.status);
      EmptyRange(out.time);
      EmptyRange(out.reason);
      EmptyRange(out.priority);
    }
  }

  lemma EmptyRange<V>(m: map<int, V>)
    requires InRange(m, 0)
    ensures m == map[]
  {
    var empty: map<int, V> := map[];
    assert forall i: int :: i in m <==> i in empty;
  }

  lemma MapKeys(rs: seq<Record>, f: Record -> Record)
    requires forall r :: f(r).key == r.key
    ensures KeysOf(Map(rs, f)) == KeysOf(rs)
    ensures forall n: nat :: KeysOf(MapFirst(rs, n, f)) == KeysOf(rs)
  {
  }

  lemma {:induction false} Parted(rs: seq<Record>)
    ensures |Filter(rs, Survives)| + CountWhere(rs, Doomed) == |rs|
  {
    if rs != [] {
      Parted(rs[..|rs| - 1]);
    }
  }
}
