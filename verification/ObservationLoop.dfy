/** Observing a submitted task (controller/plugin_protocol.go): the polling loop of a plain request, the
    polling loop of a stream, and the admission permit that both hold. What the outside world does —
    loads, plugin calls, timers, the client — is one record per round; the loops run against any
    record whose times do not go back and whose timers are not early. */
module ObservationLoop {
  import opened ResponsesMachine
  import opened Wrappers

  // ---------------------------------------------------------------- configuration

  /** The durations of pluginProtocolBridgeDeps, in nanoseconds. */
  datatype Config = Config(submissionTimeout: int, observationTimeout: int, loadTimeout: int, tickInterval: int,
                           tickJitter: int, heartbeatInterval: int, admissionTimeout: int)

  function Positive(value: int, default: int): int {
    if value <= 0 then default else value
  }

  /** withDefaults. Whatever the caller leaves out, every duration is positive, the jitter is not
      negative, and a load ends before half a heartbeat has passed. */
  function WithDefaults(d: Config, defaults: Config): (r: Config)
    requires defaults.submissionTimeout > 0 && defaults.observationTimeout > 0 && defaults.loadTimeout > 0
    requires defaults.tickInterval > 0 && defaults.heartbeatInterval > 0 && defaults.admissionTimeout > 0
    ensures r.submissionTimeout > 0 && r.observationTimeout > 0 && r.loadTimeout > 0 && r.tickInterval > 0
    ensures r.heartbeatInterval > 0 && r.admissionTimeout > 0 && r.tickJitter >= 0
    ensures r.heartbeatInterval >= 2 ==> 2 * r.loadTimeout <= r.heartbeatInterval
    ensures d.tickInterval > 0 ==> r.tickInterval == d.tickInterval
    ensures d.observationTimeout > 0 ==> r.observationTimeout == d.observationTimeout
    ensures d.submissionTimeout > 0 ==> r.submissionTimeout == d.submissionTimeout
    ensures d.heartbeatInterval > 0 ==> r.heartbeatInterval == d.heartbeatInterval
    ensures d.admissionTimeout > 0 ==> r.admissionTimeout == d.admissionTimeout
    ensures d.tickJitter >= 0 ==> r.tickJitter == d.tickJitter
    ensures d.tickInterval <= 0 ==> r.tickInterval == defaults.tickInterval
    ensures d.observationTimeout <= 0 ==> r.observationTimeout == defaults.observationTimeout
    ensures d.submissionTimeout <= 0 ==> r.submissionTimeout == defaults.submissionTimeout
    ensures d.heartbeatInterval <= 0 ==> r.heartbeatInterval == defaults.heartbeatInterval
    ensures d.admissionTimeout <= 0 ==> r.admissionTimeout == defaults.admissionTimeout
    ensures d.tickJitter < 0 ==> r.tickJitter == 0
    ensures var load := if d.loadTimeout > 0 then d.loadTimeout else defaults.loadTimeout;
            r.loadTimeout == load || 0 < r.loadTimeout == r.heartbeatInterval / 2 < load
  {
    var heartbeat := Positive(d.heartbeatInterval, defaults.heartbeatInterval);
    var load := Positive(d.loadTimeout, defaults.loadTimeout);
    var half := heartbeat / 2;
    Config(Positive(d.submissionTimeout, defaults.submissionTimeout),
           Positive(d.observationTimeout, defaults.observationTimeout),
           if half > 0 && load > half then half else load,
           Positive(d.tickInterval, defaults.tickInterval),
           if d.tickJitter < 0 then 0 else d.tickJitter,
           heartbeat,
           Positive(d.admissionTimeout, defaults.admissionTimeout))
  }

  /** pluginProtocolTickDelay, with `hash` for the FNV hash of the task id and the tick number. */
  function TickDelay(base: int, jitter: int, hash: nat): (delay: int)
    ensures base <= delay <= base + (if jitter > 0 then jitter else 0)
  {
    if jitter <= 0 then base else base + hash % (jitter + 1)
  }

  /** Every delay between the base and the base plus the jitter occurs, and the hash decides modulo their number. */
  lemma TickSpread(base: int, jitter: int, hash: nat)
    requires jitter > 0
    ensures hash <= jitter ==> TickDelay(base, jitter, hash) == base + hash
    ensures TickDelay(base, jitter, hash + jitter + 1) == TickDelay(base, jitter, hash)
  {
    var n := jitter + 1;
    assert (hash + n) % n == hash % n by {
      WrapsAround(hash, n);
    }
  }

  lemma WrapsAround(h: nat, n: nat)
    requires n > 0
    ensures (h + n) % n == h % n
  {
    assert h == n * (h / n) + h % n;
    assert h + n == n * (h / n + 1) + h % n;
    QuotientUnique(h + n, n, h / n + 1, h % n);
  }

  lemma QuotientUnique(m: nat, n: nat, q: nat, r: nat)
    requires n > 0 && m == n * q + r && r < n
    ensures m % n == r
  {
    var q', r' := m / n, m % n;
    assert m == n * q' + r';
    if q' < q {
      FactorMonotone(q' + 1, q, n);
    } else if q' > q {
      FactorMonotone(q + 1, q', n);
    }
  }

  // ---------------------------------------------------------------- the world

  /** The observation starts at `start` and times out at `deadline`; the client may leave at `gone`. */
  datatype Clock = Clock(start: int, deadline: int, gone: Option<int>)

  datatype ContextError = Live | Canceled | DeadlineExceeded

  predicate ClientGone(c: Clock, t: int) {
    c.gone.Some? && c.gone.value <= t
  }

  /** The error of the observation context at time `t`: whichever came first, the client leaving or the
      deadline. */
  function ObservationError(c: Clock, t: int): ContextError {
    if ClientGone(c, t) && c.gone.value < c.deadline then Canceled
    else if c.deadline <= t then DeadlineExceeded
    else Live
  }

  /** The context fails with whichever comes first, the client leaving or the deadline, and keeps that error. */
  lemma FirstErrorStays(c: Clock, t: int, later: int)
    requires t <= later
    ensures ObservationError(c, t).Live? <==> Alive(c, t)
    ensures !ObservationError(c, t).Live? ==> ObservationError(c, later) == ObservationError(c, t)
    ensures ObservationError(c, t).Canceled? <==> c.gone.Some? && c.gone.value <= t && c.gone.value < c.deadline
  {
  }

  /** At time `t` the client is still there and the deadline has not passed. */
  ghost predicate Alive(c: Clock, t: int) {
    (c.gone.None? || t < c.gone.value) && t < c.deadline
  }

  datatype Call = Rendered(events: seq<Semantic>, done: bool) | Undecodable | AdmissionTimeout | HookFailed

  datatype Wake = ByTick | ByClient | ByObservation | ByHeartbeatFailure

  /** One round: the load begins at `loadStart`, the contexts are inspected at `checked` and again at
      `judged`, the plugin call is over at `rendered`, and the wait ends at `woke`. */
  datatype Round = Round(loadStart: int, checked: int, loadTimedOut: bool, loaded: Option<TaskStatus>, judged: int,
                         prepared: bool, call: Call, slow: bool, rendered: int, hash: nat, wake: Wake, woke: int)

  predicate LoadOverloaded(c: Clock, r: Round) {
    r.loadTimedOut && ObservationError(c, r.checked).Live? && !ClientGone(c, r.checked)
  }

  /** A load that timed out while the client was still there and the deadline had not passed. */
  ghost predicate Overload(c: Clock, r: Round) {
    r.loadTimedOut && Alive(c, r.checked)
  }

  /** Whether the round asks for one more tick interval before the next load. */
  predicate BacksOff(c: Clock, streaming: bool, r: Round) {
    || LoadOverloaded(c, r)
    || (r.prepared && r.call.AdmissionTimeout? && (streaming || r.loaded == Some(Success)))
    || (streaming && r.slow)
  }

  function Delay(cfg: Config, c: Clock, streaming: bool, r: Round): int {
    TickDelay(cfg.tickInterval, cfg.tickJitter, r.hash) + if BacksOff(c, streaming, r) then cfg.tickInterval else 0
  }

  /** Times do not go back, a load under an expired context fails, and each way of waking up has its
      cause; the tick timer fires no earlier than its delay. */
  ghost predicate Honest(cfg: Config, c: Clock, streaming: bool, r: Round, next: Round) {
    && r.loadStart <= r.checked <= r.judged <= r.rendered <= r.woke <= next.loadStart
    && (!ObservationError(c, r.loadStart).Live? ==> r.loaded.None?)
    && (r.wake.ByHeartbeatFailure? ==> streaming)
    && (r.wake.ByClient? ==> ClientGone(c, r.woke))
    && (r.wake.ByObservation? ==> !ObservationError(c, r.woke).Live?)
    && (r.wake.ByTick? ==> r.woke >= r.rendered + Delay(cfg, c, streaming, r))
  }

  ghost predicate World(cfg: Config, c: Clock, streaming: bool, world: nat -> Round) {
    && cfg.tickInterval > 0
    && c.deadline == c.start + cfg.observationTimeout
    && world(0).loadStart >= c.start
    && forall k: nat :: HonestAt(cfg, c, streaming, world, k)
  }

  ghost predicate HonestAt(cfg: Config, c: Clock, streaming: bool, world: nat -> Round, k: nat) {
    Honest(cfg, c, streaming, world(k), world(k + 1))
  }

  /** Round `k` begins no earlier than `k` tick intervals after the start. */
  ghost predicate Paced(cfg: Config, c: Clock, world: nat -> Round, k: nat) {
    world(k).loadStart >= c.start + k * cfg.tickInterval
  }

  lemma FactorMonotone(x: int, y: int, b: int)
    requires x <= y && b > 0
    ensures x * b <= y * b
  {
  }

  lemma QuotientBound(k: nat, b: int, t: int, q: int)
    requires b > 0 && k * b < t && t < (q + 1) * b
    ensures k <= q
  {
    if q + 1 <= k {
      FactorMonotone(q + 1, k, b);
      assert false;
    }
  }

  /** A round that begins before the deadline is among the first ones. */
  lemma LoadsBounded(cfg: Config, c: Clock, world: nat -> Round, k: nat)
    requires cfg.tickInterval > 0 && c.deadline == c.start + cfg.observationTimeout
    requires Paced(cfg, c, world, k) && world(k).loadStart < c.deadline
    ensures 0 <= cfg.observationTimeout && k <= cfg.observationTimeout / cfg.tickInterval
  {
    var t, b := cfg.observationTimeout, cfg.tickInterval;
    assert t == t / b * b + t % b;
    assert (t / b + 1) * b == t / b * b + b;
    QuotientBound(k, b, t, t / b);
  }

  lemma NextPaced(cfg: Config, c: Clock, streaming: bool, world: nat -> Round, k: nat)
    requires World(cfg, c, streaming, world) && Paced(cfg, c, world, k) && world(k).wake.ByTick?
    ensures Paced(cfg, c, world, k + 1) && world(k + 1).loadStart >= world(k).loadStart + cfg.tickInterval
    ensures var r := world(k);
            || Overload(c, r) || (streaming && r.slow)
            || (r.prepared && r.call.AdmissionTimeout? && (streaming || r.loaded == Some(Success))) ==>
            world(k + 1).loadStart >= r.loadStart + 2 * cfg.tickInterval
  {
    assert HonestAt(cfg, c, streaming, world, k);
    assert (k + 1) * cfg.tickInterval == k * cfg.tickInterval + cfg.tickInterval;
  }

  ghost function TimeLeft(c: Clock, r: Round): nat {
    if r.loadStart < c.deadline then c.deadline - r.loadStart else 0
  }

  // ---------------------------------------------------------------- the plain request

  datatype Response = TimeoutResponse | FailureResponse | FinalResponse

  /** The cause each kind of response must have, given the round that ended the loop at time `end`. */
  ghost predicate Justified(c: Clock, r: Round, response: Response, end: int) {
    match response
    case TimeoutResponse => ObservationError(c, end).DeadlineExceeded?
    case FinalResponse => r.loaded == Some(Success) && r.prepared && r.call.Rendered?
    case FailureResponse =>
      r.loaded == Some(Failure)
      || (!ClientGone(c, end) && !ObservationError(c, end).DeadlineExceeded?
          && (r.loaded.None? || (r.loaded == Some(Success) && !(r.prepared && r.call.Rendered?))))
  }

  /** A round that settles the request: the task is gone, has failed, or has succeeded and the final
      call did not have to be put off. */
  ghost predicate Decisive(c: Clock, r: Round) {
    && !Overload(c, r)
    && (r.loaded.None? || r.loaded == Some(Failure)
        || (r.loaded == Some(Success) && !(r.prepared && r.call.AdmissionTimeout?)))
  }

  /** One round of the plain loop: it goes on only after the tick timer fired and the load worked or
      was overloaded; otherwise it ends with one justified response, or with none after the client
      has left. */
  method WaitRound(cfg: Config, c: Clock, r: Round, ghost next: Round) returns (done: bool, responses: seq<Response>, end: int)
    requires Honest(cfg, c, false, r, next)
    ensures !done ==> responses == [] && ObservationError(c, r.loadStart).Live?
    ensures !done <==>
            r.wake.ByTick?
            && (|| Overload(c, r) || r.loaded == Some(Pending)
                || (r.loaded == Some(Success) && r.prepared && r.call.AdmissionTimeout? && Alive(c, r.rendered)))
    ensures !done ==> !Decisive(c, r)
    ensures |responses| <= 1
    ensures done && responses == [] ==> ClientGone(c, end)
    ensures |responses| == 1 ==> Justified(c, r, responses[0], end)
  {
    responses := [];
    var loadOverloaded := LoadOverloaded(c, r);
    FirstErrorStays(c, r.checked, r.checked);
    FirstErrorStays(c, r.rendered, r.rendered);
    assert loadOverloaded <==> Overload(c, r);
    if !loadOverloaded && r.loaded.None? {
      if ObservationError(c, r.judged).DeadlineExceeded? {
        return true, [TimeoutResponse], r.judged;
      }
      if !ClientGone(c, r.judged) {
        return true, [FailureResponse], r.judged;
      }
      return true, [], r.judged;
    }
    if !loadOverloaded && r.loaded == Some(Failure) {
      return true, [FailureResponse], r.judged;
    }
    if !loadOverloaded && r.loaded == Some(Success) {
      if !(r.prepared && r.call.Rendered?) {
        if ObservationError(c, r.rendered).DeadlineExceeded? {
          return true, [TimeoutResponse], r.rendered;
        }
        if ClientGone(c, r.rendered) {
          return true, [], r.rendered;
        }
        if !(r.prepared && r.call.AdmissionTimeout?) {
          return true, [FailureResponse], r.rendered;
        }
      } else {
        return true, [FinalResponse], r.rendered;
      }
    }
    match r.wake {
      case ByClient => return true, [], r.woke;
      case ByTick =>
        assert !loadOverloaded ==> r.loaded.value.Pending? || r.loaded.value.Success?;
        return false, [], r.woke;
      case _ =>
        if ObservationError(c, r.woke).DeadlineExceeded? {
          return true, [TimeoutResponse], r.woke;
        }
        return true, [], r.woke;
    }
  }

  /** waitTaskPluginProtocol. Every run writes exactly one response unless the client has left, and then
      at most one; the response has its cause in the last round, and no earlier round could have settled
      the request; and the database is loaded at most timeout / interval + 2 times. */
  method Wait(cfg: Config, c: Clock, world: nat -> Round) returns (responses: seq<Response>, loads: nat, end: int)
    requires World(cfg, c, false, world) && cfg.observationTimeout > 0
    ensures |responses| <= 1
    ensures responses == [] ==> ClientGone(c, end)
    ensures 0 < loads <= cfg.observationTimeout / cfg.tickInterval + 2
    ensures |responses| == 1 ==> Justified(c, world(loads - 1), responses[0], end)
    ensures forall k: nat | k + 1 < loads :: !Decisive(c, world(k))
  {
    responses, loads, end := [], 0, c.start;
    var done := false;
    while !done
      invariant !done ==> responses == [] && Paced(cfg, c, world, loads)
      invariant loads <= cfg.observationTimeout / cfg.tickInterval + if done then 2 else 1
      invariant done ==> loads > 0 && |responses| <= 1 && (responses == [] ==> ClientGone(c, end))
      invariant forall k: nat | k + (if done then 1 else 0) < loads :: !Decisive(c, world(k))
      invariant done && |responses| == 1 ==> Justified(c, world(loads - 1), responses[0], end)
      decreases !done, TimeLeft(c, world(loads))
    {
      assert HonestAt(cfg, c, false, world, loads);
      done, responses, end := WaitRound(cfg, c, world(loads), world(loads + 1));
      if !done {
        LoadsBounded(cfg, c, world, loads);
        NextPaced(cfg, c, false, world, loads);
      }
      loads := loads + 1;
    }
  }
}
