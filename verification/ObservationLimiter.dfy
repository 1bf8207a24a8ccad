/** The observation limiter (controller/plugin_protocol_limiter.go): four counters taken one after the
    other, rolled back step by step when a later one is exhausted, and given back by a release that
    acts once. */
module ObservationLimiter {
  import opened Text

  datatype Limits = Limits(global: int, perPlugin: int, perUser: int, perToken: int)

  datatype Identity = Identity(plugin: string, user: int, token: int)

  datatype Counters = Counters(global: int, plugin: map<string, int>, user: map<int, int>, token: map<int, int>)

  datatype Scope = Global | Plugin | User | Token

  datatype Outcome = Granted | Exhausted(scope: Scope) | InvalidIdentity

  function At<K>(m: map<K, int>, k: K): int {
    if k in m then m[k] else 0
  }

  function Up<K>(m: map<K, int>, k: K): map<K, int> {
    m[k := At(m, k) + 1]
  }

  /** Decrement, and forget the entry at zero. */
  function Down<K>(m: map<K, int>, k: K): map<K, int> {
    if At(m, k) - 1 == 0 then m - {k} else m[k := At(m, k) - 1]
  }

  ghost predicate NoZeros<K(!new)>(m: map<K, int>) {
    forall k | k in m :: m[k] > 0
  }

  ghost predicate Tidy(c: Counters) {
    NoZeros(c.plugin) && NoZeros(c.user) && NoZeros(c.token)
  }

  lemma UpDown<K(!new)>(m: map<K, int>, k: K)
    requires NoZeros(m)
    ensures Down(Up(m, k), k) == m && NoZeros(Up(m, k))
  {
  }

  function Normalised(id: Identity): Identity {
    id.(plugin := TrimSpace(id.plugin))
  }

  predicate ValidIdentity(id: Identity) {
    id.plugin != "" && id.user > 0 && id.token > 0
  }

  /** Whether an identity is admitted, and otherwise the first exhausted scope. */
  function Decide(c: Counters, limits: Limits, id: Identity): Outcome {
    if !ValidIdentity(id) then InvalidIdentity
    else if c.global >= limits.global then Exhausted(Global)
    else if At(c.plugin, id.plugin) >= limits.perPlugin then Exhausted(Plugin)
    else if At(c.user, id.user) >= limits.perUser then Exhausted(User)
    else if At(c.token, id.token) >= limits.perToken then Exhausted(Token)
    else Granted
  }

  function Taken(c: Counters, id: Identity): Counters {
    Counters(c.global + 1, Up(c.plugin, id.plugin), Up(c.user, id.user), Up(c.token, id.token))
  }

  function GivenBack(c: Counters, id: Identity): Counters {
    Counters(c.global - 1, Down(c.plugin, id.plugin), Down(c.user, id.user), Down(c.token, id.token))
  }

  lemma RollsBack(c: Counters, id: Identity)
    requires Tidy(c)
    ensures Tidy(Taken(c, id)) && GivenBack(Taken(c, id), id) == c
  {
    UpDown(c.plugin, id.plugin);
    UpDown(c.user, id.user);
    UpDown(c.token, id.token);
  }

  /** What acquire returns on success: a release that acts once. */
  class Permit {
    const id: Identity
    var released: bool

    constructor (id: Identity)
      ensures this.id == id && !released
    {
      this.id, released := id, false;
    }
  }

  class Limiter {
    const limits: Limits
    var global: int
    var plugin: map<string, int>
    var user: map<int, int>
    var token: map<int, int>

    constructor (limits: Limits)
      ensures this.limits == limits && Value() == Counters(0, map[], map[], map[])
    {
      this.limits, global := limits, 0;
      plugin, user, token := map[], map[], map[];
    }

    function Value(): Counters
      reads this
    {
      Counters(global, plugin, user, token)
    }

    /** acquire: a refusal, at whichever step, restores the exact prior state. */
    method Acquire(request: Identity) returns (outcome: Outcome, permit: Permit?)
      requires Tidy(Value())
      modifies this
      ensures outcome == Decide(old(Value()), limits, Normalised(request))
      ensures Value() == if outcome.Granted? then Taken(old(Value()), Normalised(request)) else old(Value())
      ensures Tidy(Value())
      ensures outcome.Granted? <==> permit != null
      ensures permit != null ==> fresh(permit) && permit.id == Normalised(request) && !permit.released
    {
      permit := null;
      var id := Normalised(request);
      if id.plugin == "" || id.user <= 0 || id.token <= 0 {
        return InvalidIdentity, null;
      }
      RollsBack(Value(), id);
      outcome := TakeInTurn(id);
      if outcome.Granted? {
        permit := new Permit(id);
      }
    }

    /** The four counters, taken in turn and given back in turn when one is exhausted. */
    method TakeInTurn(id: Identity) returns (outcome: Outcome)
      requires Tidy(Value()) && ValidIdentity(id)
      modifies this
      ensures outcome == Decide(old(Value()), limits, id)
      ensures Value() == if outcome.Granted? then Taken(old(Value()), id) else old(Value())
    {
      RollsBack(Value(), id);
      if global >= limits.global {
        return Exhausted(Global);
      }
      global := global + 1;

      if At(plugin, id.plugin) >= limits.perPlugin {
        global := global - 1;
        return Exhausted(Plugin);
      }
      plugin := Up(plugin, id.plugin);

      if At(user, id.user) >= limits.perUser {
        global := global - 1;
        plugin := Down(plugin, id.plugin);
        return Exhausted(User);
      }
      user := Up(user, id.user);

      if At(token, id.token) >= limits.perToken {
        global := global - 1;
        plugin := Down(plugin, id.plugin);
        user := Down(user, id.user);
        return Exhausted(Token);
      }
      token := Up(token, id.token);
      return Granted;
    }

    /** The release closure: the second call does nothing. */
    method Release(permit: Permit)
      modifies this, permit
      ensures permit.released
      ensures Value() == if old(permit.released) then old(Value()) else GivenBack(old(Value()), permit.id)
    {
      if !permit.released {
        permit.released := true;
        global := global - 1;
        plugin := Down(plugin, permit.id.plugin);
        user := Down(user, permit.id.user);
        token := Down(token, permit.id.token);
      }
    }
  }

  // ---------------------------------------------------------------- runs

  /** A granted permit: its identity and whether it is still held. */
  datatype Grant = Grant(id: Identity, live: bool)

  /** The counters and every permit ever granted; a permit is its position. */
  datatype State = State(counters: Counters, grants: seq<Grant>)

  datatype Event = Acquire(request: Identity) | Release(ticket: nat)

  const START := State(Counters(0, map[], map[], map[]), [])

  function Apply(limits: Limits, s: State, e: Event): State {
    match e
    case Acquire(request) =>
      var id := Normalised(request);
      if Decide(s.counters, limits, id).Granted? then State(Taken(s.counters, id), s.grants + [Grant(id, true)]) else s
    case Release(ticket) =>
      if ticket < |s.grants| && s.grants[ticket].live then
        State(GivenBack(s.counters, s.grants[ticket].id), s.grants[ticket := s.grants[ticket].(live := false)])
      else s
  }

  function ApplyAll(limits: Limits, s: State, events: seq<Event>): State {
    if events == [] then s else Apply(limits, ApplyAll(limits, s, events[..|events| - 1]), events[|events| - 1])
  }

  /** How many live permits belong to a dimension. */
  ghost function Live(grants: seq<Grant>, belongs: Identity -> bool): nat {
    if grants == [] then 0
    else Live(grants[1..], belongs) + (if grants[0].live && belongs(grants[0].id) then 1 else 0)
  }

  lemma {:induction false} LiveAppend(grants: seq<Grant>, id: Identity, belongs: Identity -> bool)
    ensures Live(grants + [Grant(id, true)], belongs) == Live(grants, belongs) + (if belongs(id) then 1 else 0)
  {
    var more := grants + [Grant(id, true)];
    if grants == [] {
      assert more[1..] == [];
    } else {
      assert more[1..] == grants[1..] + [Grant(id, true)];
      LiveAppend(grants[1..], id, belongs);
    }
  }

  lemma {:induction false} LiveRelease(grants: seq<Grant>, i: nat, belongs: Identity -> bool)
    requires i < |grants| && grants[i].live
    ensures Live(grants, belongs)
         == Live(grants[i := grants[i].(live := false)], belongs) + (if belongs(grants[i].id) then 1 else 0)
  {
    var less := grants[i := grants[i].(live := false)];
    if i == 0 {
      assert less[1..] == grants[1..];
    } else {
      assert less[1..] == grants[1..][i - 1 := less[i]];
      LiveRelease(grants[1..], i - 1, belongs);
    }
  }

  /** The counters of one dimension are the live permits of that dimension, without zero entries. */
  ghost predicate Counts<K(!new)>(m: map<K, int>, grants: seq<Grant>, of: Identity -> K, limit: int) {
    && NoZeros(m)
    && forall k :: At(m, k) == Live(grants, id => of(id) == k) && (k in m ==> m[k] <= limit)
  }

  ghost predicate Inv(limits: Limits, s: State) {
    && s.counters.global == Live(s.grants, id => true)
    && (s.counters.global == 0 || s.counters.global <= limits.global)
    && Counts(s.counters.plugin, s.grants, (id: Identity) => id.plugin, limits.perPlugin)
    && Counts(s.counters.user, s.grants, (id: Identity) => id.user, limits.perUser)
    && Counts(s.counters.token, s.grants, (id: Identity) => id.token, limits.perToken)
  }

  lemma CountsUp<K(!new)>(m: map<K, int>, grants: seq<Grant>, of: Identity -> K, limit: int, id: Identity)
    requires Counts(m, grants, of, limit) && At(m, of(id)) < limit
    ensures Counts(Up(m, of(id)), grants + [Grant(id, true)], of, limit)
  {
    forall k ensures At(Up(m, of(id)), k) == Live(grants + [Grant(id, true)], id => of(id) == k)
                     && (k in Up(m, of(id)) ==> Up(m, of(id))[k] <= limit)
    {
      assert At(m, k) == Live(grants, id => of(id) == k);
      LiveAppend(grants, id, id => of(id) == k);
    }
  }

  lemma CountsDown<K(!new)>(m: map<K, int>, grants: seq<Grant>, of: Identity -> K, limit: int, i: nat)
    requires Counts(m, grants, of, limit) && i < |grants| && grants[i].live
    ensures Counts(Down(m, of(grants[i].id)), grants[i := grants[i].(live := false)], of, limit)
  {
    var less, k0 := grants[i := grants[i].(live := false)], of(grants[i].id);
    assert At(m, k0) == Live(grants, id => of(id) == k0);
    LiveRelease(grants, i, id => of(id) == k0);
    forall k ensures At(Down(m, k0), k) == Live(less, id => of(id) == k) && (k in Down(m, k0) ==> Down(m, k0)[k] <= limit) {
      assert At(m, k) == Live(grants, id => of(id) == k);
      LiveRelease(grants, i, id => of(id) == k);
    }
  }

  lemma TakenInv(limits: Limits, s: State, id: Identity)
    requires Inv(limits, s) && Decide(s.counters, limits, id).Granted?
    ensures Inv(limits, State(Taken(s.counters, id), s.grants + [Grant(id, true)]))
  {
    LiveAppend(s.grants, id, id => true);
    CountsUp(s.counters.plugin, s.grants, (id: Identity) => id.plugin, limits.perPlugin, id);
    CountsUp(s.counters.user, s.grants, (id: Identity) => id.user, limits.perUser, id);
    CountsUp(s.counters.token, s.grants, (id: Identity) => id.token, limits.perToken, id);
  }

  lemma GivenBackInv(limits: Limits, s: State, i: nat)
    requires Inv(limits, s) && i < |s.grants| && s.grants[i].live
    ensures Inv(limits, State(GivenBack(s.counters, s.grants[i].id), s.grants[i := s.grants[i].(live := false)]))
  {
    LiveRelease(s.grants, i, id => true);
    CountsDown(s.counters.plugin, s.grants, (id: Identity) => id.plugin, limits.perPlugin, i);
    CountsDown(s.counters.user, s.grants, (id: Identity) => id.user, limits.perUser, i);
    CountsDown(s.counters.token, s.grants, (id: Identity) => id.token, limits.perToken, i);
  }

  lemma StepInv(limits: Limits, s: State, e: Event)
    requires Inv(limits, s)
    ensures Inv(limits, Apply(limits, s, e))
  {
    match e
    case Acquire(request) =>
      if Decide(s.counters, limits, Normalised(request)).Granted? {
        TakenInv(limits, s, Normalised(request));
      }
    case Release(ticket) =>
      if ticket < |s.grants| && s.grants[ticket].live {
        GivenBackInv(limits, s, ticket);
      }
  }

  /** In every reachable state each counter equals the live permits of its dimension and stays within
      its limit, and no map holds a zero entry. */
  lemma {:induction false} CountersMatchPermits(limits: Limits, events: seq<Event>)
    ensures Inv(limits, ApplyAll(limits, START, events))
  {
    if events != [] {
      CountersMatchPermits(limits, events[..|events| - 1]);
      StepInv(limits, ApplyAll(limits, START, events[..|events| - 1]), events[|events| - 1]);
    }
  }

  // ---------------------------------------------------------------- who is admitted

  lemma {:induction false} LiveCongruent(grants: seq<Grant>, p: Identity -> bool, q: Identity -> bool)
    requires forall id :: p(id) == q(id)
    ensures Live(grants, p) == Live(grants, q)
  {
    if grants != [] {
      LiveCongruent(grants[1..], p, q);
    }
  }

  /** The permits of anyone, of a plugin, of a user and of a token. */
  ghost function Anyone(): Identity -> bool {
    (id: Identity) => true
  }

  ghost function OfPlugin(plugin: string): Identity -> bool {
    (id: Identity) => id.plugin == plugin
  }

  ghost function OfUser(user: int): Identity -> bool {
    (id: Identity) => id.user == user
  }

  ghost function OfToken(token: int): Identity -> bool {
    (id: Identity) => id.token == token
  }

  lemma CountersAreLive(limits: Limits, s: State, id: Identity)
    requires Inv(limits, s)
    ensures s.counters.global == Live(s.grants, Anyone())
    ensures At(s.counters.plugin, id.plugin) == Live(s.grants, OfPlugin(id.plugin))
    ensures At(s.counters.user, id.user) == Live(s.grants, OfUser(id.user))
    ensures At(s.counters.token, id.token) == Live(s.grants, OfToken(id.token))
  {
    LiveCongruent(s.grants, id => true, Anyone());
    CountIs(s.counters.plugin, s.grants, (x: Identity) => x.plugin, limits.perPlugin, id.plugin, OfPlugin(id.plugin));
    CountIs(s.counters.user, s.grants, (x: Identity) => x.user, limits.perUser, id.user, OfUser(id.user));
    CountIs(s.counters.token, s.grants, (x: Identity) => x.token, limits.perToken, id.token, OfToken(id.token));
  }

  lemma CountIs<K(!new)>(m: map<K, int>, grants: seq<Grant>, of: Identity -> K, limit: int, k: K, belongs: Identity -> bool)
    requires Counts(m, grants, of, limit) && forall id :: belongs(id) <==> of(id) == k
    ensures At(m, k) == Live(grants, belongs)
  {
    assert At(m, k) == Live(grants, id => of(id) == k);
    LiveCongruent(grants, id => of(id) == k, belongs);
  }

  /** In every reachable state a request is granted exactly when it names a plugin, a user and a token and each
      of its four dimensions has fewer live permits than its limit. Otherwise the answer is the first dimension
      that is full, in the order global, plugin, user, token. */
  lemma GrantedIffRoom(limits: Limits, events: seq<Event>, request: Identity)
    ensures var s := ApplyAll(limits, START, events);
            var plugin := TrimSpace(request.plugin);
            Decide(s.counters, limits, Normalised(request)) ==
            if plugin == "" || request.user <= 0 || request.token <= 0 then InvalidIdentity
            else if Live(s.grants, Anyone()) >= limits.global then Exhausted(Global)
            else if Live(s.grants, OfPlugin(plugin)) >= limits.perPlugin then Exhausted(Plugin)
            else if Live(s.grants, OfUser(request.user)) >= limits.perUser then Exhausted(User)
            else if Live(s.grants, OfToken(request.token)) >= limits.perToken then Exhausted(Token)
            else Granted
  {
    CountersMatchPermits(limits, events);
    CountersAreLive(limits, ApplyAll(limits, START, events), Normalised(request));
  }

  /** A request that is granted adds one live permit for it, and any other request changes nothing. */
  lemma GrantAddsPermit(limits: Limits, s: State, request: Identity)
    ensures Apply(limits, s, Acquire(request)).grants ==
            if Decide(s.counters, limits, Normalised(request)).Granted? then
              s.grants + [Grant(Identity(TrimSpace(request.plugin), request.user, request.token), true)]
            else s.grants
  {
  }

  /** Releasing twice is releasing once, and giving back what was just taken restores the counters. */
  lemma ReleaseOnce(limits: Limits, events: seq<Event>, ticket: nat, request: Identity)
    ensures var s := ApplyAll(limits, START, events);
            && Apply(limits, Apply(limits, s, Release(ticket)), Release(ticket)) == Apply(limits, s, Release(ticket))
            && var t := Apply(limits, s, Acquire(request));
               t == s || Apply(limits, t, Release(|s.grants|)).counters == s.counters
  {
    var s := ApplyAll(limits, START, events);
    CountersMatchPermits(limits, events);
    InvIsTidy(limits, s);
    ReleasedTwice(limits, s, ticket);
    TakenAndGivenBack(limits, s, request);
  }

  lemma InvIsTidy(limits: Limits, s: State)
    requires Inv(limits, s)
    ensures Tidy(s.counters)
  {
  }

  lemma ReleasedTwice(limits: Limits, s: State, ticket: nat)
    ensures Apply(limits, Apply(limits, s, Release(ticket)), Release(ticket)) == Apply(limits, s, Release(ticket))
  {
  }

  lemma TakenAndGivenBack(limits: Limits, s: State, request: Identity)
    requires Tidy(s.counters)
    ensures var t := Apply(limits, s, Acquire(request));
            t == s || Apply(limits, t, Release(|s.grants|)).counters == s.counters
  {
    var id := Normalised(request);
    if Decide(s.counters, limits, id).Granted? {
      RollsBack(s.counters, id);
      assert (s.grants + [Grant(id, true)])[|s.grants|] == Grant(id, true);
    }
  }

  // ---------------------------------------------------------------- one permit among others

  /** A run that does not release permit `k` leaves it as it is; a released permit stays released. */
  lemma {:induction false} GrantKept(limits: Limits, s: State, events: seq<Event>, k: nat)
    requires k < |s.grants| && (s.grants[k].live ==> Release(k) !in events)
    ensures var t := ApplyAll(limits, s, events); k < |t.grants| && t.grants[k] == s.grants[k]
  {
    if events != [] {
      var front, last := events[..|events| - 1], events[|events| - 1];
      GrantKept(limits, s, front, k);
      assert last in events;
      GrantStep(limits, ApplyAll(limits, s, front), last, k);
    }
  }

  lemma GrantStep(limits: Limits, s: State, e: Event, k: nat)
    requires k < |s.grants| && (s.grants[k].live ==> e != Release(k))
    ensures var t := Apply(limits, s, e); k < |t.grants| && t.grants[k] == s.grants[k]
  {
  }

  lemma {:induction false} ApplyAllAppend(limits: Limits, s: State, a: seq<Event>, b: seq<Event>)
    ensures ApplyAll(limits, s, a + b) == ApplyAll(limits, ApplyAll(limits, s, a), b)
  {
    if b == [] {
      assert a + b == a;
    } else {
      ApplyAllAppend(limits, s, a, b[..|b| - 1]);
      assert (a + b)[..|a + b| - 1] == a + b[..|b| - 1];
    }
  }

  /** Whatever other requests acquire and release meanwhile, a granted permit counts exactly from its
      acquisition to its release, and never again afterwards. */
  lemma PermitLifetime(limits: Limits, s: State, request: Identity, others: seq<Event>, later: seq<Event>)
    requires Decide(s.counters, limits, Normalised(request)).Granted? && Release(|s.grants|) !in others
    ensures var k, id := |s.grants|, Normalised(request);
            var held := ApplyAll(limits, Apply(limits, s, Acquire(request)), others);
            var ended := ApplyAll(limits, Apply(limits, held, Release(k)), later);
            && k < |held.grants| && held.grants[k] == Grant(id, true)
            && k < |ended.grants| && ended.grants[k] == Grant(id, false)
            && ended == ApplyAll(limits, s, [Acquire(request)] + others + [Release(k)] + later)
  {
    var k := |s.grants|;
    var taken := Apply(limits, s, Acquire(request));
    var held := ApplyAll(limits, taken, others);
    GrantKept(limits, taken, others, k);
    var released := Apply(limits, held, Release(k));
    GrantKept(limits, released, later, k);
    RunOfOne(limits, s, Acquire(request));
    RunOfOne(limits, held, Release(k));
    ApplyAllAppend(limits, s, [Acquire(request)], others);
    ApplyAllAppend(limits, s, [Acquire(request)] + others, [Release(k)]);
    ApplyAllAppend(limits, s, [Acquire(request)] + others + [Release(k)], later);
  }

  lemma RunOfOne(limits: Limits, s: State, e: Event)
    ensures ApplyAll(limits, s, [e]) == Apply(limits, s, e)
  {
    assert [e][..0] == [];
    assert ApplyAll(limits, s, [e][..0]) == s;
  }

  // ---------------------------------------------------------------- one request among others

  ghost predicate Reachable(limits: Limits, s: State) {
    exists events :: s == ApplyAll(limits, START, events)
  }

  lemma ReachableIsTidy(limits: Limits, s: State)
    requires Reachable(limits, s)
    ensures Tidy(s.counters)
  {
    var events :| s == ApplyAll(limits, START, events);
    CountersMatchPermits(limits, events);
    InvIsTidy(limits, s);
  }

  lemma ReachableOn(limits: Limits, s: State, events: seq<Event>)
    requires Reachable(limits, s)
    ensures Reachable(limits, ApplyAll(limits, s, events))
  {
    var before :| s == ApplyAll(limits, START, before);
    ApplyAllAppend(limits, START, before, events);
  }

  predicate Admits(limits: Limits, s: State, request: Identity) {
    Decide(s.counters, limits, Normalised(request)).Granted?
  }

  /** What happens at the limiter from the admission of a request to its end. */
  function Served(limits: Limits, s: State, request: Identity, others: seq<Event>): seq<Event> {
    [Acquire(request)] + others + if Admits(limits, s, request) then [Release(|s.grants|)] else []
  }

  /** The permit of a request served among others ends released, and without others the counters are as before. */
  lemma ServedAmongOthers(limits: Limits, s: State, request: Identity, others: seq<Event>)
    requires Reachable(limits, s) && (Admits(limits, s, request) ==> Release(|s.grants|) !in others)
    ensures var after := ApplyAll(limits, s, Served(limits, s, request, others));
            && Reachable(limits, after)
            && (others == [] ==> after.counters == s.counters)
            && (Admits(limits, s, request) ==>
                  |s.grants| < |after.grants| && after.grants[|s.grants|] == Grant(Normalised(request), false))
  {
    ReachableOn(limits, s, Served(limits, s, request, others));
    RunOfOne(limits, s, Acquire(request));
    if Admits(limits, s, request) {
      PermitReleased(limits, s, request, others);
    } else if others == [] {
      assert Served(limits, s, request, others) == [Acquire(request)];
    }
  }

  lemma PermitReleased(limits: Limits, s: State, request: Identity, others: seq<Event>)
    requires Reachable(limits, s) && Admits(limits, s, request) && Release(|s.grants|) !in others
    ensures var after := ApplyAll(limits, s, Served(limits, s, request, others));
            && |s.grants| < |after.grants| && after.grants[|s.grants|] == Grant(Normalised(request), false)
            && (others == [] ==> after.counters == s.counters)
  {
    var k := |s.grants|;
    PermitLifetime(limits, s, request, others, []);
    assert [Acquire(request)] + others + [Release(k)] + [] == Served(limits, s, request, others);
    ReachableIsTidy(limits, s);
    TakenAndGivenBack(limits, s, request);
  }

  /** What other requests do to the limiter: acquire, and release their own permits. */
  method Meanwhile(limiter: Limiter, s: State, others: seq<Event>) returns (t: State)
    requires Reachable(limiter.limits, s) && limiter.Value() == s.counters
    modifies limiter
    ensures t == ApplyAll(limiter.limits, s, others) && limiter.Value() == t.counters
  {
    t := s;
    for i := 0 to |others|
      invariant t == ApplyAll(limiter.limits, s, others[..i]) && limiter.Value() == t.counters
    {
      assert others[..i + 1][..i] == others[..i];
      ReachableOn(limiter.limits, s, others[..i]);
      ReachableIsTidy(limiter.limits, t);
      t := OneEvent(limiter, t, others[i]);
    }
    assert others[..|others|] == others;
  }

  method OneEvent(limiter: Limiter, s: State, e: Event) returns (t: State)
    requires Tidy(s.counters) && limiter.Value() == s.counters
    modifies limiter
    ensures t == Apply(limiter.limits, s, e) && limiter.Value() == t.counters
  {
    t := Apply(limiter.limits, s, e);
    match e
    case Acquire(request) =>
      var _, _ := limiter.Acquire(request);
    case Release(ticket) =>
      if ticket < |s.grants| && s.grants[ticket].live {
        var permit := new Permit(s.grants[ticket].id);
        limiter.Release(permit);
      }
  }

  /** A request is admitted or refused, and others come and go. */
  method Admit(limiter: Limiter, s: State, request: Identity, others: seq<Event>)
    returns (outcome: Outcome, permit: Permit?, held: State)
    requires Reachable(limiter.limits, s) && limiter.Value() == s.counters
    requires Admits(limiter.limits, s, request) ==> Release(|s.grants|) !in others
    modifies limiter
    ensures permit != null <==> Admits(limiter.limits, s, request)
    ensures permit == null ==> (outcome.Exhausted? <==> ValidIdentity(Normalised(request)))
    ensures held == ApplyAll(limiter.limits, s, [Acquire(request)] + others) && limiter.Value() == held.counters
    ensures permit != null ==> fresh(permit) && permit.id == Normalised(request) && !permit.released
    ensures permit != null ==> |s.grants| < |held.grants| && held.grants[|s.grants|] == Grant(permit.id, true)
  {
    ReachableIsTidy(limiter.limits, s);
    outcome, permit := limiter.Acquire(request);
    var t := Apply(limiter.limits, s, Acquire(request));
    RunOfOne(limiter.limits, s, Acquire(request));
    ReachableOn(limiter.limits, s, [Acquire(request)]);
    held := Meanwhile(limiter, t, others);
    ApplyAllAppend(limiter.limits, s, [Acquire(request)], others);
    if permit != null {
      GrantKept(limiter.limits, t, others, |s.grants|);
    }
  }

  /** The deferred release of the permit with position `k`. */
  method Dismiss(limiter: Limiter, permit: Permit, held: State, k: nat) returns (after: State)
    requires k < |held.grants| && held.grants[k] == Grant(permit.id, true) && !permit.released
    requires limiter.Value() == held.counters
    modifies limiter, permit
    ensures permit.released && after == ApplyAll(limiter.limits, held, [Release(k)]) && limiter.Value() == after.counters
  {
    RunOfOne(limiter.limits, held, Release(k));
    after := Apply(limiter.limits, held, Release(k));
    limiter.Release(permit);
  }
}
