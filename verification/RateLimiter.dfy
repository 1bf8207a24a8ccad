/** The in-memory sliding-window rate limiter (common/rate-limit.go): a queue of accepted times per
    key, and a background sweep that forgets keys whose last request is older than the expiration.
    Times are whole seconds of a clock that does not go back; the expiration is in nanoseconds. */
module RateLimiter {

  type Store = map<string, seq<int>>

  /** What the callers pass for a key: at most `max` requests in any `duration` seconds. */
  datatype Limit = Limit(max: int, duration: int)

  predicate Admits(store: Store, key: string, limit: Limit, now: int) {
    key !in store || |store[key]| < limit.max || (store[key] != [] && now - store[key][0] >= limit.duration)
  }

  function Admitted(store: Store, key: string, limit: Limit, now: int): Store {
    if key !in store then store[key := [now]]
    else if |store[key]| < limit.max || store[key] == [] then store[key := store[key] + [now]]
    else store[key := store[key][1..] + [now]]
  }

  const SECOND := 1_000_000_000

  /** The whole seconds of a duration, which is never negative where they are taken. */
  function WholeSeconds(duration: int): int {
    duration / SECOND
  }

  predicate Stale(queue: seq<int>, now: int, expiration: int) {
    queue == [] || now - queue[|queue| - 1] > WholeSeconds(expiration)
  }

  function Swept(store: Store, now: int, expiration: int): Store {
    map key | key in store && !Stale(store[key], now, expiration) :: store[key]
  }

  class InMemoryRateLimiter {
    var store: Store
    const expiration: int

    /** A stored queue is never empty. */
    ghost predicate Valid()
      reads this
    {
      forall key | key in store :: store[key] != []
    }

    constructor (expiration: int)
      ensures Valid() && store == map[] && this.expiration == expiration
    {
      store := map[];
      this.expiration := expiration;
    }

    method Request(key: string, limit: Limit, now: int) returns (accepted: bool)
      requires Valid()
      modifies this`store
      ensures Valid()
      ensures accepted <==> Admits(old(store), key, limit, now)
      ensures store == if accepted then Admitted(old(store), key, limit, now) else old(store)
    {
      if key in store {
        var queue := store[key];
        if |queue| < limit.max {
          store := store[key := queue + [now]];
          return true;
        } else {
          if now - queue[0] >= limit.duration {
            queue := queue[1..];
            queue := queue + [now];
            store := store[key := queue];
            return true;
          } else {
            return false;
          }
        }
      } else {
        store := store[key := [now]];
      }
      return true;
    }

    /** One round of clearExpiredItems; the map is ranged over in any order. */
    method Sweep(now: int)
      requires Valid()
      modifies this`store
      ensures Valid()
      ensures store == Swept(old(store), now, expiration)
    {
      var pending := store.Keys;
      while pending != {}
        invariant pending <= store.Keys <= old(store).Keys
        invariant forall key | key in store :: store[key] == old(store)[key]
        invariant forall key | key in old(store) && key !in pending ::
                    key in store <==> !Stale(old(store)[key], now, expiration)
        decreases pending
      {
        var key :| key in pending;
        pending := pending - {key};
        if Stale(store[key], now, expiration) {
          store := store - {key};
        }
      }
    }
  }

  // ---------------------------------------------------------------- runs

  /** A limiter together with everything it has ever accepted and the time of the last event. */
  datatype State = State(store: Store, accepted: map<string, seq<int>>, clock: int)

  datatype Event = Ask(key: string, now: int) | Evict(now: int)

  function Accepted(s: State, key: string): seq<int> {
    if key in s.accepted then s.accepted[key] else []
  }

  /** The clock does not go back, and the sweeper runs only for a positive expiration. */
  predicate Enabled(s: State, expiration: int, e: Event) {
    e.now >= s.clock && (e.Evict? ==> expiration > 0)
  }

  function Apply(limits: string -> Limit, expiration: int, s: State, e: Event): State {
    match e
    case Ask(key, now) =>
      if Admits(s.store, key, limits(key), now) then
        State(Admitted(s.store, key, limits(key), now), s.accepted[key := Accepted(s, key) + [now]], now)
      else s.(clock := now)
    case Evict(now) => State(Swept(s.store, now, expiration), s.accepted, now)
  }

  ghost predicate Run(limits: string -> Limit, expiration: int, s: State, events: seq<Event>, t: State)
    decreases |events|
  {
    if events == [] then s == t
    else Enabled(s, expiration, events[0]) && Run(limits, expiration, Apply(limits, expiration, s, events[0]), events[1..], t)
  }

  function Initial(clock: int): State {
    State(map[], map[], clock)
  }

  /** The reference: how many of `times` lie within the last `duration` seconds. */
  ghost function Recent(times: seq<int>, now: int, duration: int): nat {
    if times == [] then 0
    else Recent(times[..|times| - 1], now, duration) + (if now - times[|times| - 1] < duration then 1 else 0)
  }

  /** The next decision about `key` is the one the reference gives. */
  ghost predicate DecidesRightly(limits: string -> Limit, s: State, key: string, now: int) {
    Admits(s.store, key, limits(key), now) <==> Recent(Accepted(s, key), now, limits(key).duration) < limits(key).max
  }

  // ---------------------------------------------------------------- the invariant

  ghost predicate Sorted(times: seq<int>) {
    forall i, j | 0 <= i <= j < |times| :: times[i] <= times[j]
  }

  function Queue(s: State, key: string): seq<int> {
    if key in s.store then s.store[key] else []
  }

  /** The queue `q` is the tail of the accepted times `all`; what it no longer holds is out of the
      window unless the queue is full. */
  ghost predicate Tail(limit: Limit, q: seq<int>, all: seq<int>, clock: int) {
    && Sorted(all) && (forall i | 0 <= i < |all| :: all[i] <= clock)
    && |q| <= |all| && q == all[|all| - |q|..] && |q| <= limit.max
    && (|q| < limit.max ==> forall i | 0 <= i < |all| - |q| :: clock - all[i] >= limit.duration)
  }

  ghost predicate Tracks(limit: Limit, s: State, key: string) {
    Tail(limit, Queue(s, key), Accepted(s, key), s.clock) && (key in s.store ==> s.store[key] != [])
  }

  lemma TailTick(limit: Limit, q: seq<int>, all: seq<int>, clock: int, now: int)
    requires Tail(limit, q, all, clock) && clock <= now
    ensures Tail(limit, q, all, now)
  {
  }

  lemma TailPush(limit: Limit, q: seq<int>, all: seq<int>, now: int)
    requires Tail(limit, q, all, now) && limit.max >= 1
    ensures Tail(limit, if |q| < limit.max then q + [now] else q[1..] + [now], all + [now], now)
  {
    var all', q' := all + [now], if |q| < limit.max then q + [now] else q[1..] + [now];
    assert q' == all'[|all'| - |q'|..];
  }

  lemma TailEvict(limit: Limit, q: seq<int>, all: seq<int>, now: int, expiration: int)
    requires Tail(limit, q, all, now) && q != [] && WholeSeconds(expiration) + 1 >= limit.duration
    requires now - q[|q| - 1] > WholeSeconds(expiration)
    ensures Tail(limit, [], all, now)
  {
    assert q[|q| - 1] == all[|all| - 1];
  }

  /** What an event does to the queue and the accepted times of a key. */
  lemma AskQueue(limits: string -> Limit, expiration: int, s: State, key: string, now: int)
    requires limits(key).max >= 1 && (key in s.store ==> s.store[key] != [])
    ensures var t, q, all := Apply(limits, expiration, s, Ask(key, now)), Queue(s, key), Accepted(s, key);
            && t.clock == now && (key in t.store ==> t.store[key] != [])
            && if Admits(s.store, key, limits(key), now) then
                 && Queue(t, key) == (if |q| < limits(key).max then q + [now] else q[1..] + [now])
                 && Accepted(t, key) == all + [now]
               else Queue(t, key) == q && Accepted(t, key) == all
  {
  }

  lemma OtherQueue(limits: string -> Limit, expiration: int, s: State, other: string, key: string, now: int)
    requires other != key && (key in s.store ==> s.store[key] != [])
    ensures var t := Apply(limits, expiration, s, Ask(other, now));
            && t.clock == now && (key in t.store ==> t.store[key] != [])
            && Queue(t, key) == Queue(s, key) && Accepted(t, key) == Accepted(s, key)
  {
  }

  lemma EvictQueue(limits: string -> Limit, expiration: int, s: State, key: string, now: int)
    requires key in s.store ==> s.store[key] != []
    ensures var t, q := Apply(limits, expiration, s, Evict(now)), Queue(s, key);
            && t.clock == now && (key in t.store ==> t.store[key] != [])
            && Queue(t, key) == (if Stale(q, now, expiration) then [] else q) && Accepted(t, key) == Accepted(s, key)
  {
  }

  lemma StepTracks(limits: string -> Limit, expiration: int, s: State, e: Event, key: string)
    requires limits(key).max >= 1 && (expiration > 0 ==> WholeSeconds(expiration) + 1 >= limits(key).duration)
    requires Tracks(limits(key), s, key) && Enabled(s, expiration, e)
    ensures Tracks(limits(key), Apply(limits, expiration, s, e), key)
  {
    var limit, q, all := limits(key), Queue(s, key), Accepted(s, key);
    TailTick(limit, q, all, s.clock, e.now);
    if e.Evict? {
      EvictQueue(limits, expiration, s, key, e.now);
      if q != [] && Stale(q, e.now, expiration) {
        TailEvict(limit, q, all, e.now, expiration);
      }
    } else if e.key == key {
      AskQueue(limits, expiration, s, key, e.now);
      TailPush(limit, q, all, e.now);
    } else {
      OtherQueue(limits, expiration, s, e.key, key, e.now);
    }
  }

  lemma {:induction false} RunTracks(limits: string -> Limit, expiration: int, s: State, events: seq<Event>, t: State, key: string)
    requires limits(key).max >= 1 && (expiration > 0 ==> WholeSeconds(expiration) + 1 >= limits(key).duration)
    requires Tracks(limits(key), s, key) && Run(limits, expiration, s, events, t)
    ensures Tracks(limits(key), t, key)
    decreases |events|
  {
    if events != [] {
      StepTracks(limits, expiration, s, events[0], key);
      RunTracks(limits, expiration, Apply(limits, expiration, s, events[0]), events[1..], t, key);
    }
  }

  lemma {:induction false} RecentAtMost(times: seq<int>, now: int, duration: int, k: nat)
    requires k <= |times| && forall i | 0 <= i < k :: now - times[i] >= duration
    ensures Recent(times, now, duration) <= |times| - k
  {
    if |times| > k {
      RecentAtMost(times[..|times| - 1], now, duration, k);
    } else if times != [] {
      RecentAtMost(times[..|times| - 1], now, duration, k - 1);
    }
  }

  lemma {:induction false} RecentAtLeast(times: seq<int>, now: int, duration: int, k: nat)
    requires Sorted(times) && k < |times| && now - times[k] < duration
    ensures Recent(times, now, duration) >= |times| - k
  {
    if k < |times| - 1 {
      RecentAtLeast(times[..|times| - 1], now, duration, k);
    }
  }

  /** A full queue decides by its oldest entry, a shorter one by its length. */
  lemma TailDecides(limit: Limit, q: seq<int>, all: seq<int>, clock: int, now: int)
    requires limit.max >= 1 && Tail(limit, q, all, clock) && now >= clock
    ensures (|q| < limit.max || now - q[0] >= limit.duration) <==> Recent(all, now, limit.duration) < limit.max
  {
    var first := |all| - |q|;
    if |q| < limit.max {
      RecentAtMost(all, now, limit.duration, first);
    } else {
      assert all[first] == q[0];
      if now - q[0] >= limit.duration {
        RecentAtMost(all, now, limit.duration, first + 1);
      } else {
        RecentAtLeast(all, now, limit.duration, first);
      }
    }
  }

  lemma TrackedDecision(limits: string -> Limit, s: State, key: string, now: int)
    requires limits(key).max >= 1 && Tracks(limits(key), s, key) && now >= s.clock
    ensures DecidesRightly(limits, s, key, now)
  {
    TailDecides(limits(key), Queue(s, key), Accepted(s, key), s.clock, now);
  }

  // ---------------------------------------------------------------- exactness

  /** In every run every decision is right, evictions or not. */
  ghost predicate AlwaysRight(limits: string -> Limit, expiration: int) {
    forall clock, events, s, key, now | Run(limits, expiration, Initial(clock), events, s) && now >= s.clock ::
      DecidesRightly(limits, s, key, now)
  }

  /** What a caller must configure: a positive maximum, and no window longer than a key is kept. */
  predicate WellConfigured(limit: Limit, expiration: int) {
    limit.max >= 1 && (expiration > 0 ==> WholeSeconds(expiration) + 1 >= limit.duration)
  }

  /** `n` requests at time zero fill the queue. */
  lemma {:induction false} FillQueue(limits: string -> Limit, expiration: int, key: string, n: nat) returns (events: seq<Event>, s: State)
    requires n <= limits(key).max
    ensures Run(limits, expiration, Initial(0), events, s) && s.clock == 0
    ensures Queue(s, key) == Accepted(s, key) == seq(n, _ => 0) && (key in s.store <==> n > 0)
  {
    if n == 0 {
      events, s := [], Initial(0);
    } else {
      events, s := FillQueue(limits, expiration, key, n - 1);
      RunSnoc(limits, expiration, Initial(0), events, s, Ask(key, 0));
      events, s := events + [Ask(key, 0)], Apply(limits, expiration, s, Ask(key, 0));
      assert seq(n, _ => 0) == seq(n - 1, _ => 0) + [0];
    }
  }

  lemma {:induction false} RunSnoc(limits: string -> Limit, expiration: int, s: State, events: seq<Event>, t: State, e: Event)
    requires Run(limits, expiration, s, events, t) && Enabled(t, expiration, e)
    ensures Run(limits, expiration, s, events + [e], Apply(limits, expiration, t, e))
    decreases |events|
  {
    if events == [] {
      assert (events + [e])[1..] == [];
    } else {
      RunSnoc(limits, expiration, Apply(limits, expiration, s, events[0]), events[1..], t, e);
      assert (events + [e])[1..] == events[1..] + [e];
    }
  }

  lemma {:induction false} RecentZeros(n: nat, now: int, duration: int)
    requires now < duration
    ensures Recent(seq(n, _ => 0), now, duration) == n
  {
    if n > 0 {
      RecentZeros(n - 1, now, duration);
      assert seq(n, _ => 0)[..n - 1] == seq(n - 1, _ => 0);
    }
  }

  lemma MisconfiguredIsWrong(limits: string -> Limit, expiration: int, key: string)
    requires !WellConfigured(limits(key), expiration)
    ensures !AlwaysRight(limits, expiration)
  {
    if limits(key).max < 1 {
      assert Run(limits, expiration, Initial(0), [], Initial(0));
      assert !DecidesRightly(limits, Initial(0), key, 0);
    } else {
      var events, s := FillQueue(limits, expiration, key, limits(key).max);
      var now := WholeSeconds(expiration) + 1;
      RunSnoc(limits, expiration, Initial(0), events, s, Evict(now));
      var t := Apply(limits, expiration, s, Evict(now));
      assert s.store[key][|s.store[key]| - 1] == 0;
      assert key !in t.store;
      RecentZeros(limits(key).max, now, limits(key).duration);
      assert !DecidesRightly(limits, t, key, now);
    }
  }

  /** The limiter accepts a request exactly when fewer than `max` requests for its key were accepted
      within the last `duration` seconds, in every run and whatever is evicted, if and only if every
      maximum is positive and, where the sweeper runs at all, no window is longer than the whole seconds
      of the expiration plus one. */
  lemma ExactIffWellConfigured(limits: string -> Limit, expiration: int)
    ensures AlwaysRight(limits, expiration) <==>
            forall key :: limits(key).max >= 1
                          && (expiration > 0 ==> limits(key).duration <= expiration / 1_000_000_000 + 1)
  {
    if forall key :: WellConfigured(limits(key), expiration) {
      forall clock, events, s, key, now | Run(limits, expiration, Initial(clock), events, s) && now >= s.clock
        ensures DecidesRightly(limits, s, key, now)
      {
        assert WellConfigured(limits(key), expiration);
        RunTracks(limits, expiration, Initial(clock), events, s, key);
        TrackedDecision(limits, s, key, now);
      }
    } else {
      var key :| !WellConfigured(limits(key), expiration);
      MisconfiguredIsWrong(limits, expiration, key);
    }
  }
}
