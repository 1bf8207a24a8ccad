/** The verification-code store (common/verification.go): codes by purpose and key, valid for ten
    minutes, with a sweep of expired entries whenever more than ten are stored. Times are nanoseconds. */
module VerificationStore {
  import opened Wrappers

  const SECOND := 1_000_000_000
  const VALID_MINUTES := 10
  const MAX_SIZE := 10

  const EMAIL_VERIFICATION := "v"
  const PASSWORD_RESET := "r"

  datatype Entry = Entry(code: string, time: int)

  /** Whole seconds of a duration, rounded toward zero as the conversion to int does. */
  function WholeSeconds(d: int): int {
    if d >= 0 then d / SECOND else -(-d / SECOND)
  }

  predicate Expired(e: Entry, now: int) {
    WholeSeconds(now - e.time) >= VALID_MINUTES * 60
  }

  /** removeExpiredPairs. */
  function Swept(m: map<string, Entry>, now: int): map<string, Entry> {
    map k | k in m && !Expired(m[k], now) :: m[k]
  }

  class Store {
    var entries: map<string, Entry>

    constructor ()
      ensures entries == map[]
    {
      entries := map[];
    }

    /** RegisterVerificationCodeWithKey. */
    method Register(key: string, code: string, purpose: string, now: int)
      modifies this
      ensures entries == AfterRegister(old(entries), key, code, purpose, now)
      ensures var more := old(entries)[purpose + key := Entry(code, now)];
              if |more| <= 10 then entries == more
              else forall k :: k in entries <==> k in more && now - more[k].time < 600 * SECOND
    {
      entries := entries[purpose + key := Entry(code, now)];
      if |entries| > MAX_SIZE {
        RemoveExpired(now);
      }
    }

    /** removeExpiredPairs: deletes while it walks over the keys, in any order. */
    method RemoveExpired(now: int)
      modifies this
      ensures entries == Swept(old(entries), now)
      ensures forall k :: k in entries <==> k in old(entries) && now - old(entries)[k].time < 600 * SECOND
      ensures forall k | k in entries :: entries[k] == old(entries)[k]
    {
      ghost var before := entries;
      var todo := entries.Keys;
      while todo != {}
        invariant todo <= entries.Keys <= before.Keys
        invariant forall k | k in entries :: entries[k] == before[k] && (k in todo || !Expired(before[k], now))
        invariant forall k | k in before && k !in entries :: Expired(before[k], now)
        decreases todo
      {
        var k :| k in todo;
        todo := todo - {k};
        if Expired(entries[k], now) {
          entries := entries - {k};
        }
      }
    }

    /** VerifyCodeWithKey. */
    method Verify(key: string, code: string, purpose: string, now: int) returns (ok: bool)
      ensures ok == Accepts(entries, key, code, purpose, now)
      ensures ok <==> var k := purpose + key; k in entries && entries[k].code == code && now - entries[k].time < 600 * SECOND
    {
      if purpose + key !in entries || Expired(entries[purpose + key], now) {
        return false;
      }
      return code == entries[purpose + key].code;
    }

    method Delete(key: string, purpose: string)
      modifies this
      ensures entries == old(entries) - {purpose + key}
    {
      entries := entries - {purpose + key};
    }
  }

  function AfterRegister(m: map<string, Entry>, key: string, code: string, purpose: string, now: int): map<string, Entry> {
    var more := m[purpose + key := Entry(code, now)];
    if |more| > MAX_SIZE then Swept(more, now) else more
  }

  predicate Accepts(m: map<string, Entry>, key: string, code: string, purpose: string, now: int) {
    purpose + key in m && !Expired(m[purpose + key], now) && code == m[purpose + key].code
  }

  // ---------------------------------------------------------------- runs

  datatype Purpose = Email | Reset

  function Name(p: Purpose): string {
    if p.Email? then EMAIL_VERIFICATION else PASSWORD_RESET
  }

  /** An operation that changes the store, with its time; a verification changes nothing. */
  datatype Event = Register(key: string, code: string, purpose: Purpose, time: int) | Delete(key: string, purpose: Purpose, time: int)

  function Apply(m: map<string, Entry>, e: Event): map<string, Entry> {
    match e
    case Register(key, code, purpose, time) => AfterRegister(m, key, code, Name(purpose), time)
    case Delete(key, purpose, _) => m - {Name(purpose) + key}
  }

  function ApplyAll(events: seq<Event>): map<string, Entry> {
    if events == [] then map[] else Apply(ApplyAll(events[..|events| - 1]), events[|events| - 1])
  }

  ghost predicate InOrder(events: seq<Event>) {
    forall i, j | 0 <= i < j < |events| :: events[i].time <= events[j].time
  }

  /** The last operation on a key and purpose, if there was one. */
  ghost function LastOn(events: seq<Event>, key: string, purpose: Purpose): Option<Event> {
    if events == [] then None
    else
      var e := events[|events| - 1];
      if e.key == key && e.purpose == purpose then Some(e) else LastOn(events[..|events| - 1], key, purpose)
  }

  /** What the last operation leaves for a key and purpose, as if nothing were ever swept. */
  ghost function Kept(events: seq<Event>, key: string, purpose: Purpose): Option<Entry> {
    var last := LastOn(events, key, purpose);
    if last.Some? && last.value.Register? then Some(Entry(last.value.code, last.value.time)) else None
  }

  /** The two purposes use different keys of one map. */
  lemma PurposesDoNotInterfere(p: Purpose, key: string, p': Purpose, key': string)
    ensures Name(p) == if p.Email? then "v" else "r"
    ensures Name(p) + key == Name(p') + key' <==> p == p' && key == key'
  {
    assert (Name(p) + key)[0] == Name(p)[0] && (Name(p') + key')[0] == Name(p')[0];
    assert (Name(p) + key)[1..] == key && (Name(p') + key')[1..] == key';
  }

  lemma ExpiredForGood(e: Entry, now: int, later: int)
    requires now <= later && Expired(e, now)
    ensures Expired(e, later)
  {
  }

  /** The store holds for a key and purpose what the last operation left, unless that has expired. */
  ghost predicate Faithful(m: map<string, Entry>, events: seq<Event>, key: string, purpose: Purpose, now: int) {
    var k, kept := Name(purpose) + key, Kept(events, key, purpose);
    && (k in m ==> kept == Some(m[k]))
    && (kept.Some? && k !in m ==> Expired(kept.value, now))
  }

  lemma {:induction false} StoreIsFaithful(events: seq<Event>, key: string, purpose: Purpose, now: int)
    requires InOrder(events) && (events != [] ==> events[|events| - 1].time <= now)
    ensures Faithful(ApplyAll(events), events, key, purpose, now)
  {
    if events != [] {
      var before, e := events[..|events| - 1], events[|events| - 1];
      StoreIsFaithful(before, key, purpose, e.time);
      PurposesDoNotInterfere(purpose, key, e.purpose, e.key);
      var kept := Kept(events, key, purpose);
      if kept.Some? && Expired(kept.value, e.time) {
        ExpiredForGood(kept.value, e.time, now);
      }
    }
  }

  /** After every run, at any time from its end on, a code is accepted exactly when the last operation on
      that key and purpose registered that code less than ten minutes ago: no sweep, and no operation on
      the other purpose, is ever noticed. */
  lemma VerifiesExactlyTheLastCode(events: seq<Event>, key: string, code: string, purpose: Purpose, now: int)
    requires InOrder(events) && (events != [] ==> events[|events| - 1].time <= now)
    ensures Accepts(ApplyAll(events), key, code, Name(purpose), now)
       <==> var last := LastOn(events, key, purpose);
            last.Some? && last.value.Register? && last.value.code == code && now - last.value.time < 600 * SECOND
  {
    StoreIsFaithful(events, key, purpose, now);
    var last := LastOn(events, key, purpose);
    if last.Some? && last.value.Register? {
      LastInTime(events, key, purpose, now);
    }
  }

  lemma {:induction false} LastInTime(events: seq<Event>, key: string, purpose: Purpose, now: int)
    requires InOrder(events) && (events != [] ==> events[|events| - 1].time <= now)
    requires LastOn(events, key, purpose).Some?
    ensures LastOn(events, key, purpose).value.time <= now
  {
    var before := events[..|events| - 1];
    if before != [] && LastOn(before, key, purpose).Some? {
      LastInTime(before, key, purpose, now);
    }
  }
}
