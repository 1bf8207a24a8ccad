/** The streaming loop of controller/plugin_protocol.go and the permit that a request holds while it
    observes its task. */
module ObservationStream {
  import opened ResponsesMachine
  import opened ObservationLoop
  import Limiter = ObservationLimiter
  import opened Wrappers

  /** The client's end of the connection: `broken` is the number of the first write that fails. */
  class Client {
    const broken: Option<nat>
    var received: seq<WireEvent>

    constructor (broken: Option<nat>)
      ensures this.broken == broken && received == []
    {
      this.broken, received := broken, [];
    }

    predicate Fails()
      reads this
    {
      broken.Some? && broken.value <= |received|
    }

    /** writeTaskPluginProtocolEvent. */
    method Write(e: WireEvent) returns (ok: bool)
      modifies this
      ensures ok == !old(Fails())
      ensures received == if ok then old(received) + [e] else old(received)
    {
      ok := !Fails();
      if ok {
        received := received + [e];
      }
    }

    /** What has arrived: everything, or everything before the first write that failed. */
    ghost predicate Has(log: seq<WireEvent>)
      reads this
    {
      received == log || (received <= log && Fails())
    }

    /** The write loop over one batch. */
    method WriteAll(events: seq<WireEvent>) returns (ok: bool)
      modifies this
      ensures Has(old(received) + events)
      ensures ok <==> received == old(received) + events
    {
      for i := 0 to |events|
        invariant received == old(received) + events[..i]
      {
        ok := Write(events[i]);
        if !ok {
          return;
        }
      }
      return true;
    }
  }

  lemma PrefixGrouped(log: seq<WireEvent>, written: seq<WireEvent>)
    requires Grouped(log) && written <= log
    ensures Grouped(written)
  {
    forall i | 0 <= i < |written| && written[i].kind.ItemDone?
      ensures i >= 5 && IsItem(written[i - 5..i + 1], |Texts(written[..i])|)
    {
      PrefixItem(log, written, i);
    }
  }

  lemma PrefixItem(log: seq<WireEvent>, written: seq<WireEvent>, i: nat)
    requires Grouped(log) && written <= log && i < |written| && written[i].kind.ItemDone?
    ensures i >= 5 && IsItem(written[i - 5..i + 1], |Texts(written[..i])|)
  {
    assert log[i].kind.ItemDone?;
    assert written[..i] == log[..i];
    assert written[i - 5..i + 1] == log[i - 5..i + 1];
  }

  /** Whatever part of a well-formed stream is delivered is well formed itself. */
  lemma PrefixWellFormed(log: seq<WireEvent>, written: seq<WireEvent>)
    requires WellFormed(log) && written <= log
    ensures WellFormed(written) && (Ended(written) ==> written == log)
  {
    PrefixGrouped(log, written);
    if |written| < |log| {
      assert forall i | 0 <= i < |written| :: written[i] == log[i];
    } else {
      assert written == log;
    }
  }

  /** taskPluginProtocolEventsTerminal. */
  predicate HasTerminal(events: seq<WireEvent>) {
    exists e | e in events :: IsTerminal(e.kind)
  }

  /** In a batch that the machine has just emitted, a terminal event can only be the last one. */
  lemma TerminalIsLast(log: seq<WireEvent>, events: seq<WireEvent>)
    requires Numbered(log + events) && !Ended(log)
    ensures HasTerminal(events) <==> Ended(log + events)
  {
    var more := log + events;
    if events == [] {
      assert more == log;
    } else {
      assert more[|more| - 1] == events[|events| - 1] && events[|events| - 1] in events;
      forall k | 0 <= k < |events| - 1 ensures !IsTerminal(events[k].kind) {
        assert events[k] == more[|log| + k];
      }
    }
  }

  /** A round whose plugin call produced a batch. */
  ghost predicate Renders(c: Clock, r: Round) {
    !Overload(c, r) && r.loaded.Some? && r.prepared && r.call.Rendered?
  }

  /** The outputs after a round, given those before it: a batch that fits adds its texts up to its first
      error, unless the task has failed. */
  ghost function OutputsAfter(c: Clock, r: Round, limits: ResponsesMachine.Limits, before: seq<string>): seq<string> {
    if Renders(c, r) && !r.loaded.value.Failure? && BatchFits(before, r.call.events, limits) then
      before + AllTexts(BeforeError(r.call.events))
    else before
  }

  /** The outputs of the first `k` rounds. */
  ghost function Collected(c: Clock, world: nat -> Round, limits: ResponsesMachine.Limits, k: nat): seq<string> {
    if k == 0 then [] else OutputsAfter(c, world(k - 1), limits, Collected(c, world, limits, k - 1))
  }

  /** The round's batch, if it has one, does not end the stream. */
  ghost predicate LeavesOpen(c: Clock, r: Round) {
    Renders(c, r) ==> r.loaded == Some(Pending) && !r.call.done && !HasError(r.call.events)
  }

  /** The round leads to another one, as long as what it renders can be written: it is overloaded, or what it
      renders leaves the stream open. `before` are the outputs so far. */
  ghost predicate GoesOn(c: Clock, r: Round, before: seq<string>, limits: ResponsesMachine.Limits) {
    r.wake.ByTick? && (Overload(c, r) || (r.loaded.Some? && StaysOpen(c, r, before, limits)))
  }

  /** The plugin call has to wait for admission, or its batch fits and does not end the stream. */
  ghost predicate StaysOpen(c: Clock, r: Round, before: seq<string>, limits: ResponsesMachine.Limits) {
    && r.prepared
    && (|| (r.call.AdmissionTimeout? && Alive(c, r.rendered))
        || (r.call.Rendered? && BatchStaysOpen(r, before, limits)))
  }

  ghost predicate BatchStaysOpen(r: Round, before: seq<string>, limits: ResponsesMachine.Limits)
    requires r.call.Rendered?
  {
    r.loaded == Some(Pending) && !r.call.done && !HasError(r.call.events) && BatchFits(before, r.call.events, limits)
  }

  /** None of the first `k` rounds ended the stream. */
  ghost predicate OpenUntil(c: Clock, world: nat -> Round, k: nat) {
    forall i: nat | i < k :: LeavesOpen(c, world(i))
  }

  /** Why the stream may end with an event of this kind: what the machine's fields are afterwards, the
      round that ended the loop, and the time. */
  ghost predicate Cause(c: Clock, r: Round, m: Machine, kind: Kind, end: int)
    reads m
  {
    CauseOf(c, r, m.outputs, m.limits, kind, end)
  }

  ghost predicate CauseOf(c: Clock, r: Round, outputs: seq<string>, limits: ResponsesMachine.Limits, kind: Kind, end: int) {
    match kind
    case Completed => r.loaded == Some(Success) && r.prepared && r.call.Rendered?
    case Incomplete =>
      || ObservationError(c, end).DeadlineExceeded?
      || (r.loaded == Some(Pending) && r.prepared && r.call.Rendered? && r.call.done)
    case Failed =>
      if r.loaded.None? || (r.prepared && r.call.HookFailed?) then
        !ClientGone(c, end) && !ObservationError(c, end).DeadlineExceeded?
      else
        || !r.prepared || !r.call.Rendered? || r.loaded == Some(Failure)
        || HasError(r.call.events) || !BatchFits(outputs, r.call.events, limits)
    case _ => false
  }

  /** Why the stream may stop without a terminal event. */
  ghost predicate Silent(c: Clock, r: Round, end: int) {
    ClientGone(c, end) || r.wake.ByHeartbeatFailure?
  }

  /** How one round leaves the stream when it is the last. */
  ghost predicate Stopped(c: Clock, r: Round, m: Machine, end: int)
    reads m
  {
    if Ended(m.log) then Cause(c, r, m, m.log[|m.log| - 1].kind, end) else Silent(c, r, end)
  }

  /** The state between two rounds. */
  ghost predicate InStep(m: Machine, client: Client)
    reads m, client
  {
    m.Valid() && m.started && !m.terminal && client.received == m.log
  }

  /** The state after the last round. */
  ghost predicate AtEnd(c: Clock, r: Round, m: Machine, client: Client, end: int)
    reads m, client
  {
    m.Valid() && m.started && client.Has(m.log) && (client.received == m.log ==> Stopped(c, r, m, end))
  }

  /** writeTaskPluginProtocolTimeout and writeTaskPluginProtocolFailure. */
  method Finish(m: Machine, client: Client, kind: Kind)
    requires InStep(m, client) && (kind.Failed? || kind.Incomplete?)
    modifies m, client
    ensures m.Valid() && client.Has(m.log) && m.outputs == old(m.outputs)
    ensures Ended(m.log) && m.log[|m.log| - 1].kind == kind
  {
    var e := m.EndEvent(kind);
    var _ := client.Write(e.value);
  }

  /** From the loaded task to the written batch: the stream goes on, or it has ended. */
  method Render(c: Clock, r: Round, m: Machine, client: Client) returns (go: bool)
    requires InStep(m, client) && !LoadOverloaded(c, r) && r.loaded.Some?
    modifies m, client
    ensures go ==> InStep(m, client)
    ensures !go ==> AtEnd(c, r, m, client, r.rendered)
    ensures m.outputs == OutputsAfter(c, r, m.limits, old(m.outputs))
    ensures go ==> LeavesOpen(c, r) && StaysOpen(c, r, old(m.outputs), m.limits)
    ensures StaysOpen(c, r, old(m.outputs), m.limits) && !go ==> client.Fails()
  {
    FirstErrorStays(c, r.rendered, r.rendered);
    if !r.prepared {
      Finish(m, client, Failed);
      return false;
    }
    if r.call.HookFailed? || r.call.AdmissionTimeout? {
      if ObservationError(c, r.rendered).DeadlineExceeded? {
        Finish(m, client, Incomplete);
        return false;
      }
      if ClientGone(c, r.rendered) {
        return false;
      }
      if r.call.AdmissionTimeout? {
        return true;
      }
    }
    if !r.call.Rendered? {
      Finish(m, client, Failed);
      return false;
    }
    go := ApplyAndWrite(c, r, m, client);
  }

  /** The batch of one tick, applied and written. */
  method ApplyAndWrite(c: Clock, r: Round, m: Machine, client: Client) returns (go: bool)
    requires InStep(m, client) && !LoadOverloaded(c, r) && r.loaded.Some? && r.prepared && r.call.Rendered?
    modifies m, client
    ensures go ==> InStep(m, client)
    ensures !go ==> AtEnd(c, r, m, client, r.rendered)
    ensures m.outputs == OutputsAfter(c, r, m.limits, old(m.outputs))
    ensures go ==> LeavesOpen(c, r) && BatchStaysOpen(r, old(m.outputs), m.limits)
    ensures BatchStaysOpen(r, old(m.outputs), m.limits) && !go ==> client.Fails()
  {
    var batch := ApplyBatch(c, r, m);
    if batch.None? {
      Finish(m, client, Failed);
      return false;
    }
    var ok := client.WriteAll(batch.value);
    return ok && !HasTerminal(batch.value);
  }

  /** The batch of one tick, applied to the machine: refused, or emitted with the cause of its ending. */
  method ApplyBatch(c: Clock, r: Round, m: Machine) returns (batch: Option<seq<WireEvent>>)
    requires m.Valid() && m.started && !m.terminal
    requires !LoadOverloaded(c, r) && r.loaded.Some? && r.prepared && r.call.Rendered?
    modifies m
    ensures m.Valid() && m.started && m.outputs == OutputsAfter(c, r, m.limits, old(m.outputs))
    ensures batch.None? ==> !m.terminal && m.log == old(m.log) && Cause(c, r, m, Failed, r.rendered)
    ensures batch.Some? ==> m.log == old(m.log) + batch.value && (HasTerminal(batch.value) <==> m.terminal)
    ensures batch.Some? && !m.terminal <==> BatchStaysOpen(r, old(m.outputs), m.limits)
    ensures batch.Some? ==>
              if m.terminal then Cause(c, r, m, m.log[|m.log| - 1].kind, r.rendered) else LeavesOpen(c, r)
  {
    ghost var before := m.outputs;
    batch := m.ApplyTick(r.call.events, r.call.done, r.loaded.value);
    TickHasCause(c, r, before, m.outputs, m.limits, batch.Some?, m.terminal);
    if batch.Some? {
      TerminalIsLast(old(m.log), batch.value);
    }
  }

  /** How a tick that is not refused ends the stream. */
  ghost function EndOfTick(r: Round): Kind
    requires r.loaded.Some? && r.call.Rendered?
  {
    if r.loaded.value.Failure? || HasError(r.call.events) then Failed
    else if r.loaded.value.Success? then Completed
    else Incomplete
  }

  lemma TickHasCause(c: Clock, r: Round, before: seq<string>, outputs: seq<string>, limits: ResponsesMachine.Limits,
                     applied: bool, ended: bool)
    requires !LoadOverloaded(c, r) && r.loaded.Some? && r.prepared && r.call.Rendered?
    requires applied <==> r.loaded.value.Failure? || BatchFits(before, r.call.events, limits)
    requires ended <==> applied && (!r.loaded.value.Pending? || HasError(r.call.events) || r.call.done)
    requires applied ==>
               outputs == before + if r.loaded.value.Failure? then [] else AllTexts(BeforeError(r.call.events))
    requires !applied ==> outputs == before
    ensures outputs == OutputsAfter(c, r, limits, before)
    ensures !applied ==> CauseOf(c, r, outputs, limits, Failed, r.rendered)
    ensures applied && !ended <==> BatchStaysOpen(r, before, limits)
    ensures applied && !ended ==> LeavesOpen(c, r)
    ensures ended ==> CauseOf(c, r, outputs, limits, EndOfTick(r), r.rendered)
  {
  }

  /** One round of the streaming loop: it goes on only after the tick timer fired, with everything
      emitted so far delivered. */
  method StreamRound(cfg: Config, c: Clock, r: Round, ghost next: Round, m: Machine, client: Client) returns (go: bool, end: int)
    requires InStep(m, client) && Honest(cfg, c, true, r, next)
    modifies m, client
    ensures go ==> InStep(m, client) && r.wake.ByTick? && ObservationError(c, r.loadStart).Live?
    ensures !go ==> AtEnd(c, r, m, client, end)
    ensures m.outputs == OutputsAfter(c, r, m.limits, old(m.outputs))
    ensures go ==> LeavesOpen(c, r)
    ensures go ==> GoesOn(c, r, old(m.outputs), m.limits)
    ensures GoesOn(c, r, old(m.outputs), m.limits) && !go ==> client.Fails()
  {
    if !LoadOverloaded(c, r) {
      if r.loaded.None? {
        if ObservationError(c, r.judged).DeadlineExceeded? {
          Finish(m, client, Incomplete);
        } else if !ClientGone(c, r.judged) {
          Finish(m, client, Failed);
        }
        return false, r.judged;
      }
      go := Render(c, r, m, client);
      if !go {
        return false, r.rendered;
      }
    }
    if !r.wake.ByTick? {
      if ObservationError(c, r.woke).DeadlineExceeded? {
        Finish(m, client, Incomplete);
      }
      return false, r.woke;
    }
    return true, r.woke;
  }

  lemma RoundFollows(cfg: Config, c: Clock, world: nat -> Round, k: nat)
    requires World(cfg, c, true, world) && Paced(cfg, c, world, k)
    requires world(k).wake.ByTick? && ObservationError(c, world(k).loadStart).Live?
    ensures Paced(cfg, c, world, k + 1) && k <= cfg.observationTimeout / cfg.tickInterval
    ensures TimeLeft(c, world(k + 1)) < TimeLeft(c, world(k))
  {
    LoadsBounded(cfg, c, world, k);
    NextPaced(cfg, c, true, world, k);
  }

  /** The rounds after the created event. */
  method StreamRounds(cfg: Config, c: Clock, world: nat -> Round, m: Machine, client: Client) returns (loads: nat, end: int)
    requires World(cfg, c, true, world) && cfg.observationTimeout > 0
    requires InStep(m, client) && m.outputs == []
    modifies m, client
    ensures 0 < loads <= cfg.observationTimeout / cfg.tickInterval + 2
    ensures AtEnd(c, world(loads - 1), m, client, end)
    ensures m.outputs == Collected(c, world, m.limits, loads)
    ensures loads > 0 ==> OpenUntil(c, world, loads - 1)
  {
    loads := 0;
    while true
      invariant InStep(m, client) && Paced(cfg, c, world, loads)
      invariant loads <= cfg.observationTimeout / cfg.tickInterval + 1
      invariant m.outputs == Collected(c, world, m.limits, loads) && OpenUntil(c, world, loads)
      decreases TimeLeft(c, world(loads))
    {
      var go;
      go, end := RoundAt(cfg, c, world, loads, m, client);
      loads := loads + 1;
      if !go {
        return;
      }
    }
  }

  /** Round `k`, and what holds when another one follows. */
  method RoundAt(cfg: Config, c: Clock, world: nat -> Round, k: nat, m: Machine, client: Client) returns (go: bool, end: int)
    requires World(cfg, c, true, world) && Paced(cfg, c, world, k)
    requires InStep(m, client) && m.outputs == Collected(c, world, m.limits, k)
    modifies m, client
    ensures m.outputs == Collected(c, world, m.limits, k + 1)
    ensures !go ==> AtEnd(c, world(k), m, client, end)
    ensures go ==> InStep(m, client) && LeavesOpen(c, world(k)) && Paced(cfg, c, world, k + 1)
    ensures go ==> k <= cfg.observationTimeout / cfg.tickInterval && TimeLeft(c, world(k + 1)) < TimeLeft(c, world(k))
  {
    assert HonestAt(cfg, c, true, world, k);
    go, end := StreamRound(cfg, c, world(k), world(k + 1), m, client);
    if go {
      RoundFollows(cfg, c, world, k);
    }
  }

  /** What the client has when the loop is over. */
  lemma DeliveredAtEnd(c: Clock, r: Round, m: Machine, client: Client, end: int)
    requires AtEnd(c, r, m, client, end)
    ensures WellFormed(client.received) && (client.received == [] ==> client.Fails())
    ensures Ended(client.received) ==> Cause(c, r, m, client.received[|client.received| - 1].kind, end)
    ensures !Ended(client.received) ==> client.Fails() || Silent(c, r, end)
  {
    PrefixWellFormed(m.log, client.received);
  }

  /** The created event is emitted and written. */
  method Open(m: Machine, client: Client) returns (ok: bool)
    requires m.Valid() && m.log == [] && client.received == []
    modifies m, client
    ensures m.outputs == [] && m.Valid()
    ensures ok ==> InStep(m, client)
    ensures !ok ==> client.received == [] && client.Fails()
  {
    var created := m.CreatedEvent();
    ok := client.Write(created.value);
  }

  /** streamTaskPluginProtocol. What reaches the client is a well-formed stream: numbered from zero,
      opened by its created event, with nothing after a terminal event, which carries exactly the
      outputs sent before it; those outputs are exactly what the rounds so far rendered, and a round
      whose batch ends the stream is the last. The stream ends with a terminal event that has its cause
      in the last round, unless a write failed or the client left. The database is loaded at most
      timeout / interval + 2 times. */
  method Stream(cfg: Config, c: Clock, world: nat -> Round, m: Machine, client: Client) returns (loads: nat, end: int)
    requires World(cfg, c, true, world) && cfg.observationTimeout > 0
    requires m.Valid() && m.log == [] && client.received == []
    modifies m, client
    ensures m.Valid() && client.Has(m.log) && WellFormed(client.received)
    ensures m.outputs == Collected(c, world, m.limits, loads)
    ensures loads > 0 ==> OpenUntil(c, world, loads - 1)
    ensures loads <= cfg.observationTimeout / cfg.tickInterval + 2
    ensures Ended(client.received) ==> loads > 0 && Cause(c, world(loads - 1), m, client.received[|client.received| - 1].kind, end)
    ensures client.received == [] ==> client.Fails()
    ensures !Ended(client.received) ==> client.Fails() || (loads > 0 && Silent(c, world(loads - 1), end))
  {
    loads, end := 0, c.start;
    var ok := Open(m, client);
    if !ok {
      return;
    }
    loads, end := StreamRounds(cfg, c, world, m, client);
    DeliveredAtEnd(c, world(loads - 1), m, client, end);
  }

  // ---------------------------------------------------------------- the permit

  /** How the submission of an admitted request ends; `Durable` is a persisted task. */
  datatype Submission = RelayInfoFailed | OriginTaskFailed | SubmitFailed | InvalidOutcome | Durable(background: bool)

  datatype Reply = TooManyObservations | Unauthenticated | SubmissionError | StillPending | Observed(response: Response)

  /** serveTaskPluginProtocol from the admission on, while other requests acquire and release permits of their
      own. Whatever path the request takes, the permit it was granted is released when it ends, so the limiter
      is where the others have brought it; a request gets at most one reply, and a stream only when it gets no
      reply. Only a client that has left gets neither. `s` is the limiter with the permits granted so far. */
  method Serve(limiter: Limiter.Limiter, s: Limiter.State, request: Limiter.Identity, others: seq<Limiter.Event>,
               streaming: bool, submission: Submission, left: bool,
               cfg: Config, c: Clock, world: nat -> Round, limits: ResponsesMachine.Limits, client: Client)
    returns (replies: seq<Reply>, permit: Limiter.Permit?, after: Limiter.State, end: int)
    requires Limiter.Reachable(limiter.limits, s) && limiter.Value() == s.counters && client.received == []
    requires Limiter.Admits(limiter.limits, s, request) ==> Limiter.Release(|s.grants|) !in others
    requires World(cfg, c, streaming, world) && cfg.observationTimeout > 0
    modifies limiter, client
    ensures after == Limiter.ApplyAll(limiter.limits, s, Limiter.Served(limiter.limits, s, request, others))
    ensures limiter.Value() == after.counters && Limiter.Reachable(limiter.limits, after)
    ensures others == [] ==> limiter.Value() == old(limiter.Value())
    ensures permit != null <==> Limiter.Admits(limiter.limits, s, request)
    ensures permit != null ==> fresh(permit) && permit.released && |s.grants| < |after.grants|
                               && after.grants[|s.grants|] == Limiter.Grant(permit.id, false)
    ensures permit == null ==>
              replies == [if Limiter.ValidIdentity(Limiter.Normalised(request)) then TooManyObservations else Unauthenticated]
    ensures |replies| <= 1 && (replies != [] ==> client.received == []) && WellFormed(client.received)
    ensures replies == [] && client.received == [] ==> left || client.Fails() || ClientGone(c, end)
  {
    end := c.start;
    Limiter.ServedAmongOthers(limiter.limits, s, request, others);
    var outcome, held;
    outcome, permit, held := Limiter.Admit(limiter, s, request, others);
    if permit == null {
      after := held;
      assert [Limiter.Acquire(request)] + others == Limiter.Served(limiter.limits, s, request, others);
      replies := [if outcome.Exhausted? then TooManyObservations else Unauthenticated];
    } else {
      replies, end := Admitted(streaming, submission, left, cfg, c, world, limits, client);
      Limiter.ApplyAllAppend(limiter.limits, s, [Limiter.Acquire(request)] + others, [Limiter.Release(|s.grants|)]);
      after := Limiter.Dismiss(limiter, permit, held, |s.grants|);
    }
  }

  /** The part of serveTaskPluginProtocol under the permit. */
  method Admitted(streaming: bool, submission: Submission, left: bool, cfg: Config, c: Clock, world: nat -> Round,
                  limits: ResponsesMachine.Limits, client: Client)
    returns (replies: seq<Reply>, end: int)
    requires client.received == [] && World(cfg, c, streaming, world) && cfg.observationTimeout > 0
    modifies client
    ensures |replies| <= 1 && (replies != [] ==> client.received == []) && WellFormed(client.received)
    ensures left ==> replies == [] && client.received == []
    ensures !left && !submission.Durable? ==> replies == [SubmissionError]
    ensures !left && submission.Durable? ==>
              if streaming then replies == []
              else if submission.background then replies == [StillPending]
              else replies == [] || replies[0].Observed?
    ensures replies == [] && client.received == [] ==> left || client.Fails() || ClientGone(c, end)
  {
    end := c.start;
    if left {
      return [], end;
    }
    if !submission.Durable? {
      return [SubmissionError], end;
    }
    if submission.background && !streaming {
      return [StillPending], end;
    }
    if streaming {
      var m := new Machine(limits);
      var loads;
      loads, end := Stream(cfg, c, world, m, client);
      return [], end;
    }
    var responses, loads;
    responses, loads, end := Wait(cfg, c, world);
    return if responses == [] then [] else [Observed(responses[0])], end;
  }
}
