/** The channel-test worker pool (runChannelTestWorkers in controller/channel-test.go) as a
    transition system: a producer, `workerCount` workers, a closer and a reducer that meet over two
    unbuffered channels, with cancellation possible between any two steps. */
module WorkerPool {
  import opened HealthCheck

  /** One entry of the channel list. A nil or manually disabled channel is skipped; otherwise
      `outcome` is what `run` returns for it when nothing is cancelled. */
  datatype Job = Job(skipped: bool, outcome: Summary)

  datatype Pool = Pool(jobs: seq<Job>, workerCount: nat, pause: bool)

  /** A worker goroutine: waiting in its select, holding a job it has just received, running the
      test, blocked on `results <- result`, waiting out the request interval, or returned. */
  datatype Worker =
    | Ready
    | Holding(job: nat)
    | Testing(job: nat)
    | Reporting(job: nat, result: Summary)
    | Pausing
    | Stopped

  /** The caller's goroutine: blocked on `range results`, folding a received result, or returned. */
  datatype Reducer = Receiving | Folding(job: nat, result: Summary) | Finished

  /** `next` is the producer's position; `started`, `dropped`, `reduced` and `folded` are the history
      of the run: jobs that passed the cancellation check, jobs discarded by it, jobs reduced, and
      the results in the order they were folded. */
  datatype State = State(
    cancelled: bool,
    next: nat,
    jobsClosed: bool,
    workers: seq<Worker>,
    resultsClosed: bool,
    reducer: Reducer,
    processed: nat,
    summary: Summary,
    reports: seq<nat>,
    started: seq<nat>,
    dropped: seq<nat>,
    reduced: seq<nat>,
    folded: seq<Summary>)

  datatype Step =
    | Cancel
    | Send(w: nat)
    | CloseJobs
    | StopIdle(w: nat)
    | Drop(w: nat)
    | Start(w: nat)
    | Finish(w: nat, r: Summary)
    | Deliver(w: nat)
    | Resume(w: nat)
    | QuitPause(w: nat)
    | CloseResults
    | Fold
    | Return

  const DEFAULT_CONCURRENCY := 1
  const MAX_CONCURRENCY := 32

  function NormalizeConcurrency(concurrency: int): nat {
    if concurrency < 1 then DEFAULT_CONCURRENCY
    else if concurrency > MAX_CONCURRENCY then MAX_CONCURRENCY
    else concurrency
  }

  ghost predicate WellFormed(p: Pool) {
    && p.workerCount <= |p.jobs|
    && (p.jobs != [] ==> 1 <= p.workerCount <= MAX_CONCURRENCY)
    && forall j | 0 <= j < |p.jobs| :: Coherent(p.jobs[j].outcome)
  }

  function NewPool(jobs: seq<Job>, concurrency: int, pause: bool): (p: Pool)
    requires forall j | 0 <= j < |jobs| :: Coherent(jobs[j].outcome)
    ensures WellFormed(p) && p.jobs == jobs && p.pause == pause
    ensures p.workerCount == |jobs|
            || p.workerCount == if concurrency < 1 then 1 else if concurrency > 32 then 32 else concurrency
  {
    var n := NormalizeConcurrency(concurrency);
    Pool(jobs, if n <= |jobs| then n else |jobs|, pause)
  }

  function Expected(p: Pool, j: nat): Summary {
    if j < |p.jobs| && !p.jobs[j].skipped then p.jobs[j].outcome else ZERO
  }

  /** An empty list returns before any goroutine starts; progress 0 is reported either way. */
  function Init(p: Pool): State {
    var idle := p.jobs == [];
    State(false, 0, idle, if idle then [] else seq(p.workerCount, _ => Ready), idle,
          if idle then Finished else Receiving, 0, ZERO, [0], [], [], [], [])
  }

  /** What `run` may return: nothing for a skipped channel, its outcome while nothing is cancelled,
      and any coherent summary once the context is cancelled. */
  ghost predicate MayReturn(p: Pool, s: State, j: nat, r: Summary) {
    if j < |p.jobs| && p.jobs[j].skipped then r == ZERO
    else if s.cancelled then Coherent(r)
    else r == Expected(p, j)
  }

  ghost predicate Enabled(p: Pool, s: State, step: Step) {
    match step
    case Cancel => !s.cancelled
    case Send(w) => w < |s.workers| && s.workers[w].Ready? && !s.jobsClosed && s.next < |p.jobs|
    case CloseJobs => !s.jobsClosed && (s.next == |p.jobs| || s.cancelled)
    case StopIdle(w) => w < |s.workers| && s.workers[w].Ready? && (s.cancelled || s.jobsClosed)
    case Drop(w) => w < |s.workers| && s.workers[w].Holding? && s.cancelled
    case Start(w) => w < |s.workers| && s.workers[w].Holding? && !s.cancelled
    case Finish(w, r) => w < |s.workers| && s.workers[w].Testing? && MayReturn(p, s, s.workers[w].job, r)
    case Deliver(w) => w < |s.workers| && s.workers[w].Reporting? && s.reducer.Receiving?
    case Resume(w) => w < |s.workers| && s.workers[w].Pausing?
    case QuitPause(w) => w < |s.workers| && s.workers[w].Pausing? && s.cancelled
    case CloseResults => !s.resultsClosed && forall w | 0 <= w < |s.workers| :: s.workers[w].Stopped?
    case Fold => s.reducer.Folding?
    case Return => s.reducer.Receiving? && s.resultsClosed
  }

  ghost function Apply(p: Pool, s: State, step: Step): State
    requires Enabled(p, s, step)
  {
    match step
    case Cancel => s.(cancelled := true)
    case Send(w) => s.(workers := s.workers[w := Holding(s.next)], next := s.next + 1)
    case CloseJobs => s.(jobsClosed := true)
    case StopIdle(w) => s.(workers := s.workers[w := Stopped])
    case Drop(w) => s.(workers := s.workers[w := Stopped], dropped := s.dropped + [s.workers[w].job])
    case Start(w) => s.(workers := s.workers[w := Testing(s.workers[w].job)], started := s.started + [s.workers[w].job])
    case Finish(w, r) => s.(workers := s.workers[w := Reporting(s.workers[w].job, r)])
    case Deliver(w) => s.(workers := s.workers[w := if p.pause then Pausing else Ready],
                          reducer := Folding(s.workers[w].job, s.workers[w].result))
    case Resume(w) => s.(workers := s.workers[w := Ready])
    case QuitPause(w) => s.(workers := s.workers[w := Stopped])
    case CloseResults => s.(resultsClosed := true)
    case Fold => s.(reducer := Receiving, summary := Plus(s.summary, s.reducer.result), processed := s.processed + 1,
                    reports := if s.cancelled then s.reports else s.reports + [s.processed + 1],
                    reduced := s.reduced + [s.reducer.job], folded := s.folded + [s.reducer.result])
    case Return => s.(reducer := Finished)
  }

  /** `steps` is a run from `s` to `t`. */
  ghost predicate Run(p: Pool, s: State, steps: seq<Step>, t: State)
    decreases |steps|
  {
    if steps == [] then s == t
    else Enabled(p, s, steps[0]) && Run(p, Apply(p, s, steps[0]), steps[1..], t)
  }

  /** The call has returned and no goroutine is left behind. */
  ghost predicate Quiescent(s: State) {
    && s.reducer.Finished?
    && s.jobsClosed
    && forall w | 0 <= w < |s.workers| :: s.workers[w].Stopped?
  }

  // ---------------------------------------------------------------- places a job can be in

  ghost function Count(xs: seq<nat>, j: nat): nat {
    if xs == [] then 0 else Count(xs[..|xs| - 1], j) + (if xs[|xs| - 1] == j then 1 else 0)
  }

  lemma CountSnoc(xs: seq<nat>, x: nat, j: nat)
    ensures Count(xs + [x], j) == Count(xs, j) + if x == j then 1 else 0
  {
    assert (xs + [x])[..|xs|] == xs;
  }

  /** Whether a worker holds job `j`, and whether it has started testing it. */
  ghost function HasJob(w: Worker, j: nat): nat {
    if (w.Holding? || w.Testing? || w.Reporting?) && w.job == j then 1 else 0
  }

  ghost function HasTest(w: Worker, j: nat): nat {
    if (w.Testing? || w.Reporting?) && w.job == j then 1 else 0
  }

  ghost function Held(ws: seq<Worker>, j: nat): nat {
    if ws == [] then 0 else HasJob(ws[0], j) + Held(ws[1..], j)
  }

  ghost function Tested(ws: seq<Worker>, j: nat): nat {
    if ws == [] then 0 else HasTest(ws[0], j) + Tested(ws[1..], j)
  }

  ghost function AtReducer(r: Reducer, j: nat): nat {
    if r.Folding? && r.job == j then 1 else 0
  }

  /** The number of tests running or waiting to be delivered. */
  ghost function InFlight(ws: seq<Worker>): nat {
    if ws == [] then 0 else (if ws[0].Testing? || ws[0].Reporting? then 1 else 0) + InFlight(ws[1..])
  }

  lemma {:induction false} SetHeld(ws: seq<Worker>, w: nat, x: Worker, j: nat)
    requires w < |ws|
    ensures Held(ws[w := x], j) + HasJob(ws[w], j) == Held(ws, j) + HasJob(x, j)
  {
    if w == 0 {
      assert ws[w := x][1..] == ws[1..];
    } else {
      assert ws[w := x][1..] == ws[1..][w - 1 := x];
      SetHeld(ws[1..], w - 1, x, j);
    }
  }

  lemma {:induction false} SetTested(ws: seq<Worker>, w: nat, x: Worker, j: nat)
    requires w < |ws|
    ensures Tested(ws[w := x], j) + HasTest(ws[w], j) == Tested(ws, j) + HasTest(x, j)
  {
    if w == 0 {
      assert ws[w := x][1..] == ws[1..];
    } else {
      assert ws[w := x][1..] == ws[1..][w - 1 := x];
      SetTested(ws[1..], w - 1, x, j);
    }
  }

  lemma {:induction false} InFlightBound(ws: seq<Worker>)
    ensures InFlight(ws) <= |ws|
  {
    if ws != [] {
      InFlightBound(ws[1..]);
    }
  }

  lemma {:induction false} TestedHeld(ws: seq<Worker>, j: nat)
    ensures Tested(ws, j) <= Held(ws, j)
  {
    if ws != [] {
      TestedHeld(ws[1..], j);
    }
  }

  /** Workers that wait or have stopped hold nothing. */
  lemma {:induction false} NoneHeld(ws: seq<Worker>, j: nat)
    requires forall w | 0 <= w < |ws| :: ws[w].Stopped? || ws[w].Ready?
    ensures Held(ws, j) == Tested(ws, j) == 0
  {
    if ws != [] {
      NoneHeld(ws[1..], j);
    }
  }

  /** With a request interval, a worker that has delivered a result takes no job before it has waited. */
  lemma WaitsBetweenJobs(p: Pool, s: State, w: nat)
    requires p.pause && Enabled(p, s, Deliver(w))
    ensures !Enabled(p, Apply(p, s, Deliver(w)), Send(w)) && Enabled(p, Apply(p, s, Deliver(w)), Resume(w))
  {
  }

  // ---------------------------------------------------------------- the invariant

  /** How many places hold job `j`: not yet sent, with a worker, with the reducer, dropped, reduced. */
  ghost function Places(s: State, j: nat): nat {
    Held(s.workers, j) + Elsewhere(s, j)
  }

  ghost function Elsewhere(s: State, j: nat): nat {
    (if j >= s.next then 1 else 0) + AtReducer(s.reducer, j) + Count(s.dropped, j) + Count(s.reduced, j)
  }

  /** How often the test of job `j` is with a worker, with the reducer or reduced. */
  ghost function TestPlaces(s: State, j: nat): nat {
    Tested(s.workers, j) + AtReducer(s.reducer, j) + Count(s.reduced, j)
  }

  /** Every job is in exactly one place, and every started test is in as many places as it was
      started. */
  ghost predicate Conserved(s: State) {
    forall j: nat :: Places(s, j) == 1 && TestPlaces(s, j) == Count(s.started, j)
  }

  /** Who may have stopped, and what that says about the two channels. */
  ghost predicate Ordered(p: Pool, s: State) {
    && s.next <= |p.jobs|
    && |s.workers| == p.workerCount
    && (s.jobsClosed ==> s.next == |p.jobs| || s.cancelled)
    && (forall w | 0 <= w < |s.workers| :: s.workers[w].Stopped? ==> s.cancelled || s.jobsClosed)
    && (s.resultsClosed ==> forall w | 0 <= w < |s.workers| :: s.workers[w].Stopped?)
    && (s.reducer.Finished? ==> s.resultsClosed)
    && (!s.cancelled ==> s.dropped == [])
    && (p.jobs == [] ==> s.jobsClosed)
  }

  /** A result in transit is coherent, and the expected one while nothing is cancelled. */
  ghost predicate GoodResult(p: Pool, cancelled: bool, j: nat, r: Summary) {
    Coherent(r) && (!cancelled ==> r == Expected(p, j))
  }

  ghost predicate Tallied(p: Pool, s: State) {
    && s.processed == |s.reduced| == |s.folded|
    && s.summary == SumAll(s.folded)
    && AllGood(p, s.cancelled, s.reduced, s.folded)
  }

  ghost predicate InTransit(p: Pool, s: State) {
    && (s.reducer.Folding? ==> GoodResult(p, s.cancelled, s.reducer.job, s.reducer.result))
    && (forall w | 0 <= w < |s.workers| && s.workers[w].Reporting? ::
          GoodResult(p, s.cancelled, s.workers[w].job, s.workers[w].result))
  }

  /** Progress reports count up from zero without gaps and stop at cancellation. */
  ghost predicate Reported(s: State) {
    && 1 <= |s.reports| <= s.processed + 1
    && (!s.cancelled ==> |s.reports| == s.processed + 1)
    && forall i | 0 <= i < |s.reports| :: s.reports[i] == i
  }

  ghost predicate Inv(p: Pool, s: State) {
    Conserved(s) && Ordered(p, s) && InTransit(p, s) && Tallied(p, s) && Reported(s)
  }

  lemma InitInv(p: Pool)
    requires WellFormed(p)
    ensures Inv(p, Init(p))
  {
    forall j: nat ensures Places(Init(p), j) == 1 && TestPlaces(Init(p), j) == 0 {
      NoneHeld(Init(p).workers, j);
    }
  }

  /** The state a worker is in after a step that moves it. */
  ghost function Moved(p: Pool, s: State, step: Step): Worker
    requires Enabled(p, s, step) && MovesWorker(step)
  {
    Apply(p, s, step).workers[step.w]
  }

  ghost predicate MovesWorker(step: Step) {
    step.Send? || step.StopIdle? || step.Drop? || step.Start? || step.Finish? || step.Deliver?
    || step.Resume? || step.QuitPause?
  }

  /** What a step of a worker does to the places of a job. */
  lemma WorkerStepPlaces(p: Pool, s: State, step: Step, j: nat)
    requires Enabled(p, s, step) && MovesWorker(step)
    ensures var t := Apply(p, s, step);
            && t.workers == s.workers[step.w := Moved(p, s, step)]
            && Held(t.workers, j) + HasJob(s.workers[step.w], j) == Held(s.workers, j) + HasJob(Moved(p, s, step), j)
  {
    assert Apply(p, s, step).workers == s.workers[step.w := Moved(p, s, step)];
    SetHeld(s.workers, step.w, Moved(p, s, step), j);
  }

  lemma StepKeepsPlaces(p: Pool, s: State, step: Step, j: nat)
    requires Enabled(p, s, step) && Places(s, j) == 1
    ensures Places(Apply(p, s, step), j) == 1
  {
    if MovesWorker(step) {
      WorkerKeepsPlaces(p, s, step, j);
    } else if step.Fold? {
      CountSnoc(s.reduced, s.reducer.job, j);
    }
  }

  lemma WorkerKeepsPlaces(p: Pool, s: State, step: Step, j: nat)
    requires Enabled(p, s, step) && MovesWorker(step) && Places(s, j) == 1
    ensures Places(Apply(p, s, step), j) == 1
  {
    WorkerStepPlaces(p, s, step, j);
    if step.Drop? {
      CountSnoc(s.dropped, s.workers[step.w].job, j);
    }
    Balance(p, s, step, j, Held(s.workers, j), Held(Apply(p, s, step).workers, j));
  }

  /** A worker takes its job from the producer, passes it to the reducer, drops it or keeps it. */
  lemma Balance(p: Pool, s: State, step: Step, j: nat, before: nat, after: nat)
    requires Enabled(p, s, step) && MovesWorker(step)
    requires after + HasJob(s.workers[step.w], j) == before + HasJob(Moved(p, s, step), j)
    requires step.Drop? ==>
               Count(s.dropped + [s.workers[step.w].job], j) == Count(s.dropped, j) + HasJob(s.workers[step.w], j)
    ensures Elsewhere(Apply(p, s, step), j) + after == Elsewhere(s, j) + before
  {
    match step {
      case Send(w) =>
      case StopIdle(w) =>
      case Drop(w) =>
      case Start(w) =>
      case Finish(w, r) =>
      case Deliver(w) =>
      case Resume(w) =>
      case QuitPause(w) =>
    }
  }

  lemma StepKeepsTests(p: Pool, s: State, step: Step, j: nat)
    requires Enabled(p, s, step) && TestPlaces(s, j) == Count(s.started, j)
    ensures var t := Apply(p, s, step); TestPlaces(t, j) == Count(t.started, j)
  {
    if MovesWorker(step) {
      WorkerKeepsTests(p, s, step, j);
    } else if step.Fold? {
      CountSnoc(s.reduced, s.reducer.job, j);
    }
  }

  lemma WorkerKeepsTests(p: Pool, s: State, step: Step, j: nat)
    requires Enabled(p, s, step) && MovesWorker(step) && TestPlaces(s, j) == Count(s.started, j)
    ensures var t := Apply(p, s, step); TestPlaces(t, j) == Count(t.started, j)
  {
    var t, x := Apply(p, s, step), Moved(p, s, step);
    assert t.workers == s.workers[step.w := x];
    SetTested(s.workers, step.w, x, j);
    if step.Start? {
      CountSnoc(s.started, s.workers[step.w].job, j);
    }
    TestBalance(p, s, step, j, Tested(s.workers, j), Tested(t.workers, j));
  }

  lemma TestBalance(p: Pool, s: State, step: Step, j: nat, before: nat, after: nat)
    requires Enabled(p, s, step) && MovesWorker(step)
    requires after + HasTest(s.workers[step.w], j) == before + HasTest(Moved(p, s, step), j)
    requires step.Start? ==>
               Count(s.started + [s.workers[step.w].job], j) == Count(s.started, j) + HasJob(s.workers[step.w], j)
    requires before + AtReducer(s.reducer, j) + Count(s.reduced, j) == Count(s.started, j)
    ensures var t := Apply(p, s, step);
            after + AtReducer(t.reducer, j) + Count(t.reduced, j) == Count(t.started, j)
  {
    if step.Start? {
      StartedTest(p, s, step, j);
    } else if step.Deliver? {
      DeliveredTest(p, s, step, j);
    } else {
      OtherTests(p, s, step, j);
    }
  }

  lemma StartedTest(p: Pool, s: State, step: Step, j: nat)
    requires Enabled(p, s, step) && step.Start?
    ensures var t := Apply(p, s, step);
            && t.reducer == s.reducer && t.reduced == s.reduced && t.started == s.started + [s.workers[step.w].job]
            && HasTest(s.workers[step.w], j) == 0 && HasTest(Moved(p, s, step), j) == HasJob(s.workers[step.w], j)
  {
  }

  lemma DeliveredTest(p: Pool, s: State, step: Step, j: nat)
    requires Enabled(p, s, step) && step.Deliver?
    ensures var t := Apply(p, s, step);
            && t.reduced == s.reduced && t.started == s.started && AtReducer(s.reducer, j) == 0
            && HasTest(Moved(p, s, step), j) == 0 && AtReducer(t.reducer, j) == HasTest(s.workers[step.w], j)
  {
  }

  lemma OtherTests(p: Pool, s: State, step: Step, j: nat)
    requires Enabled(p, s, step) && MovesWorker(step) && !step.Start? && !step.Deliver?
    ensures var t := Apply(p, s, step);
            && t.reducer == s.reducer && t.reduced == s.reduced && t.started == s.started
            && HasTest(Moved(p, s, step), j) == HasTest(s.workers[step.w], j)
  {
  }

  lemma StepOrders(p: Pool, s: State, step: Step)
    requires Ordered(p, s) && Enabled(p, s, step)
    ensures Ordered(p, Apply(p, s, step))
  {
  }

  lemma StepTransits(p: Pool, s: State, step: Step)
    requires WellFormed(p) && InTransit(p, s) && Enabled(p, s, step)
    ensures InTransit(p, Apply(p, s, step))
  {
    var t := Apply(p, s, step);
    forall w | 0 <= w < |t.workers| && t.workers[w].Reporting?
      ensures GoodResult(p, t.cancelled, t.workers[w].job, t.workers[w].result)
    {
      ReportTransits(p, s, step, w);
    }
    FoldTransits(p, s, step);
  }

  lemma ReportTransits(p: Pool, s: State, step: Step, w: nat)
    requires WellFormed(p) && InTransit(p, s) && Enabled(p, s, step)
    requires var t := Apply(p, s, step); w < |t.workers| && t.workers[w].Reporting?
    ensures var t := Apply(p, s, step); GoodResult(p, t.cancelled, t.workers[w].job, t.workers[w].result)
  {
    if step.Finish? && step.w == w {
      ReturnedIsGood(p, s, s.workers[w].job, step.r);
    } else {
      ReportStays(p, s, step, w);
      assert GoodResult(p, s.cancelled, s.workers[w].job, s.workers[w].result);
    }
  }

  lemma ReturnedIsGood(p: Pool, s: State, j: nat, r: Summary)
    requires WellFormed(p) && MayReturn(p, s, j, r)
    ensures GoodResult(p, s.cancelled, j, r)
  {
  }

  lemma ReportStays(p: Pool, s: State, step: Step, w: nat)
    requires Enabled(p, s, step) && !(step.Finish? && step.w == w)
    requires var t := Apply(p, s, step); w < |t.workers| && t.workers[w].Reporting?
    ensures var t := Apply(p, s, step);
            w < |s.workers| && t.workers[w] == s.workers[w] && (s.cancelled ==> t.cancelled)
  {
  }

  lemma FoldTransits(p: Pool, s: State, step: Step)
    requires InTransit(p, s) && Enabled(p, s, step)
    ensures var t := Apply(p, s, step);
            t.reducer.Folding? ==> GoodResult(p, t.cancelled, t.reducer.job, t.reducer.result)
  {
    if step.Deliver? {
      assert GoodResult(p, s.cancelled, s.workers[step.w].job, s.workers[step.w].result);
    }
  }

  ghost predicate AllGood(p: Pool, cancelled: bool, reduced: seq<nat>, folded: seq<Summary>) {
    |reduced| == |folded| && forall i | 0 <= i < |folded| :: GoodResult(p, cancelled, reduced[i], folded[i])
  }

  lemma GoodSnoc(p: Pool, cancelled: bool, reduced: seq<nat>, folded: seq<Summary>, j: nat, r: Summary)
    requires AllGood(p, cancelled, reduced, folded) && GoodResult(p, cancelled, j, r)
    ensures AllGood(p, cancelled, reduced + [j], folded + [r])
  {
    forall i | 0 <= i < |folded| + 1 ensures GoodResult(p, cancelled, (reduced + [j])[i], (folded + [r])[i]) {
      GoodAt(p, cancelled, reduced, folded, j, r, i);
    }
  }

  lemma GoodAt(p: Pool, cancelled: bool, reduced: seq<nat>, folded: seq<Summary>, j: nat, r: Summary, i: nat)
    requires AllGood(p, cancelled, reduced, folded) && GoodResult(p, cancelled, j, r) && i <= |folded|
    ensures GoodResult(p, cancelled, (reduced + [j])[i], (folded + [r])[i])
  {
    if i < |folded| {
      assert (reduced + [j])[i] == reduced[i] && (folded + [r])[i] == folded[i];
    } else {
      assert (reduced + [j])[i] == j && (folded + [r])[i] == r;
    }
  }

  lemma SumSnoc(xs: seq<Summary>, x: Summary)
    ensures SumAll(xs + [x]) == Plus(SumAll(xs), x)
  {
    assert (xs + [x])[..|xs|] == xs;
  }

  lemma FoldTallies(p: Pool, s: State)
    requires InTransit(p, s) && Tallied(p, s) && s.reducer.Folding?
    ensures Tallied(p, Apply(p, s, Fold))
  {
    var t := Apply(p, s, Fold);
    assert t.reduced == s.reduced + [s.reducer.job] && t.folded == s.folded + [s.reducer.result];
    assert AllGood(p, t.cancelled, t.reduced, t.folded) by {
      GoodSnoc(p, s.cancelled, s.reduced, s.folded, s.reducer.job, s.reducer.result);
    }
    assert t.summary == SumAll(t.folded) by {
      SumSnoc(s.folded, s.reducer.result);
    }
  }

  lemma StepTallies(p: Pool, s: State, step: Step)
    requires InTransit(p, s) && Tallied(p, s) && Enabled(p, s, step)
    ensures Tallied(p, Apply(p, s, step))
  {
    if step.Fold? {
      FoldTallies(p, s);
    } else {
      var t := Apply(p, s, step);
      assert t.folded == s.folded && t.reduced == s.reduced && t.summary == s.summary && t.processed == s.processed;
      forall i | 0 <= i < |t.folded| ensures GoodResult(p, t.cancelled, t.reduced[i], t.folded[i]) {
        assert GoodResult(p, s.cancelled, s.reduced[i], s.folded[i]);
      }
    }
  }

  lemma StepReports(p: Pool, s: State, step: Step)
    requires Reported(s) && Enabled(p, s, step)
    ensures Reported(Apply(p, s, step))
  {
  }

  lemma StepInv(p: Pool, s: State, step: Step)
    requires WellFormed(p) && Inv(p, s) && Enabled(p, s, step)
    ensures Inv(p, Apply(p, s, step))
  {
    var t := Apply(p, s, step);
    forall j: nat ensures Places(t, j) == 1 && TestPlaces(t, j) == Count(t.started, j) {
      StepKeepsPlaces(p, s, step, j);
      StepKeepsTests(p, s, step, j);
    }
    StepOrders(p, s, step);
    StepTransits(p, s, step);
    StepTallies(p, s, step);
    StepReports(p, s, step);
  }

  /** The invariant holds after every run, whatever the interleaving and wherever it is cancelled. */
  lemma {:induction false} RunInv(p: Pool, s: State, steps: seq<Step>, t: State)
    requires WellFormed(p) && Inv(p, s) && Run(p, s, steps, t)
    ensures Inv(p, t)
    decreases |steps|
  {
    if steps != [] {
      StepInv(p, s, steps[0]);
      RunInv(p, Apply(p, s, steps[0]), steps[1..], t);
    }
  }

  // ---------------------------------------------------------------- what follows from it

  /** In every reachable state each channel is in exactly one place, is tested at most once and
      reduced at most once, at most `workerCount` tests are in flight, and nobody is about to send on
      the closed results channel. */
  lemma EveryChannelInOnePlace(p: Pool, steps: seq<Step>, t: State, j: nat)
    requires WellFormed(p) && Run(p, Init(p), steps, t)
    ensures Places(t, j) == 1
    ensures Count(t.reduced, j) <= Count(t.started, j) <= 1
    ensures InFlight(t.workers) <= p.workerCount
    ensures t.resultsClosed ==> forall w | 0 <= w < |t.workers| :: !t.workers[w].Reporting?
  {
    InitInv(p);
    RunInv(p, Init(p), steps, t);
    assert Places(t, j) == 1;
    InFlightBound(t.workers);
    TestedHeld(t.workers, j);
  }

  /** Deadlock freedom: until the call has returned and every goroutine has ended, some step other
      than cancellation is enabled. */
  lemma NeverStuck(p: Pool, s: State)
    requires WellFormed(p) && Inv(p, s) && !Quiescent(s)
    ensures exists step: Step :: !step.Cancel? && Enabled(p, s, step)
  {
    if s.reducer.Folding? {
      assert Enabled(p, s, Fold);
    } else if s.reducer.Finished? {
      assert !s.jobsClosed;
      assert s.workers[0].Stopped?;
      assert Enabled(p, s, CloseJobs);
    } else if s.resultsClosed {
      assert Enabled(p, s, Return);
    } else if forall w | 0 <= w < |s.workers| :: s.workers[w].Stopped? {
      assert Enabled(p, s, CloseResults);
    } else {
      var w: nat :| w < |s.workers| && !s.workers[w].Stopped?;
      ActiveWorkerMoves(p, s, w);
    }
  }

  lemma ActiveWorkerMoves(p: Pool, s: State, w: nat)
    requires Ordered(p, s) && s.reducer.Receiving? && w < |s.workers| && !s.workers[w].Stopped?
    ensures exists step: Step :: !step.Cancel? && Enabled(p, s, step)
  {
    match s.workers[w]
    case Ready =>
      assert Enabled(p, s, if s.cancelled || s.jobsClosed then StopIdle(w) else if s.next < |p.jobs| then Send(w) else CloseJobs);
    case Holding(j) => assert Enabled(p, s, if s.cancelled then Drop(w) else Start(w));
    case Testing(j) =>
      var r := if s.cancelled then ZERO else Expected(p, j);
      assert Enabled(p, s, Finish(w, r));
    case Reporting(_, _) => assert Enabled(p, s, Deliver(w));
    case Pausing => assert Enabled(p, s, Resume(w));
    case Stopped =>
  }

  // ---------------------------------------------------------------- termination

  ghost function Weight(w: Worker): nat {
    match w
    case Stopped => 0
    case Ready => 1
    case Pausing => 2
    case Reporting(_, _) => 4
    case Testing(_) => 5
    case Holding(_) => 6
  }

  ghost function Weights(ws: seq<Worker>): nat {
    if ws == [] then 0 else Weight(ws[0]) + Weights(ws[1..])
  }

  ghost function Measure(p: Pool, s: State): nat
    requires s.next <= |p.jobs|
  {
    Remaining(p, s) + Weights(s.workers)
  }

  ghost function Remaining(p: Pool, s: State): nat
    requires s.next <= |p.jobs|
  {
    6 * (|p.jobs| - s.next)
    + (match s.reducer case Receiving => 1 case Folding(_, _) => 2 case Finished => 0)
    + (if s.cancelled then 0 else 1) + (if s.jobsClosed then 0 else 1) + (if s.resultsClosed then 0 else 1)
  }

  lemma {:induction false} SetWeights(ws: seq<Worker>, w: nat, x: Worker)
    requires w < |ws|
    ensures Weights(ws[w := x]) + Weight(ws[w]) == Weights(ws) + Weight(x)
  {
    if w == 0 {
      assert ws[w := x][1..] == ws[1..];
    } else {
      assert ws[w := x][1..] == ws[1..][w - 1 := x];
      SetWeights(ws[1..], w - 1, x);
    }
  }

  lemma {:induction false} AllReadyWeigh(n: nat)
    ensures Weights(seq(n, _ => Ready)) == n
  {
    if n > 0 {
      AllReadyWeigh(n - 1);
      assert seq(n, _ => Ready)[1..] == seq(n - 1, _ => Ready);
    }
  }

  lemma StepDecreases(p: Pool, s: State, step: Step)
    requires s.next <= |p.jobs| && Enabled(p, s, step)
    ensures Apply(p, s, step).next <= |p.jobs|
    ensures Measure(p, Apply(p, s, step)) < Measure(p, s)
  {
    if MovesWorker(step) {
      var x := Moved(p, s, step);
      assert Apply(p, s, step).workers == s.workers[step.w := x];
      SetWeights(s.workers, step.w, x);
      WorkerDecreases(p, s, step, Weights(s.workers), Weights(Apply(p, s, step).workers));
    }
  }

  lemma WorkerDecreases(p: Pool, s: State, step: Step, before: nat, after: nat)
    requires s.next <= |p.jobs| && Enabled(p, s, step) && MovesWorker(step)
    requires after + Weight(s.workers[step.w]) == before + Weight(Moved(p, s, step))
    ensures var t := Apply(p, s, step); t.next <= |p.jobs| && Remaining(p, t) + after < Remaining(p, s) + before
  {
    match step {
      case Send(w) =>
      case StopIdle(w) =>
      case Drop(w) =>
      case Start(w) =>
      case Finish(w, r) =>
      case Deliver(w) =>
      case Resume(w) =>
      case QuitPause(w) =>
    }
  }

  lemma {:induction false} RunShrinks(p: Pool, s: State, steps: seq<Step>, t: State)
    requires s.next <= |p.jobs| && Run(p, s, steps, t)
    ensures t.next <= |p.jobs| && |steps| + Measure(p, t) <= Measure(p, s)
    decreases |steps|
  {
    if steps != [] {
      StepDecreases(p, s, steps[0]);
      RunShrinks(p, Apply(p, s, steps[0]), steps[1..], t);
    }
  }

  /** Termination: no run takes more than 6 * total + workerCount + 4 steps, and a run that cannot be
      extended has returned with every goroutine ended. */
  lemma EveryRunEnds(p: Pool, steps: seq<Step>, t: State)
    requires WellFormed(p) && Run(p, Init(p), steps, t)
    ensures |steps| <= 6 * |p.jobs| + p.workerCount + 4
    ensures (forall step: Step :: !step.Cancel? ==> !Enabled(p, t, step)) ==> Quiescent(t)
  {
    InitInv(p);
    AllReadyWeigh(p.workerCount);
    RunShrinks(p, Init(p), steps, t);
    RunInv(p, Init(p), steps, t);
    if !Quiescent(t) {
      NeverStuck(p, t);
    }
  }

  // ---------------------------------------------------------------- the result

  ghost function SumOver(p: Pool, js: seq<nat>): Summary {
    if js == [] then ZERO else Plus(SumOver(p, js[..|js| - 1]), Expected(p, js[|js| - 1]))
  }

  lemma {:induction false} SumOverFolded(p: Pool, folded: seq<Summary>, reduced: seq<nat>)
    requires |folded| == |reduced|
    requires forall i | 0 <= i < |folded| :: folded[i] == Expected(p, reduced[i])
    ensures SumAll(folded) == SumOver(p, reduced)
  {
    if folded != [] {
      SumOverFolded(p, folded[..|folded| - 1], reduced[..|folded| - 1]);
    }
  }

  ghost function Except(xs: seq<nat>, i: nat): seq<nat>
    requires i < |xs|
  {
    xs[..i] + xs[i + 1..]
  }

  lemma ExceptFront(xs: seq<nat>, i: nat)
    requires i < |xs| - 1
    ensures Except(xs, i) == Except(xs[..|xs| - 1], i) + [xs[|xs| - 1]]
  {
  }

  /** Without an element, counts and totals drop by that element. */
  lemma {:induction false} ExceptCount(xs: seq<nat>, i: nat, j: nat)
    requires i < |xs|
    ensures Count(xs, j) == Count(Except(xs, i), j) + (if xs[i] == j then 1 else 0)
  {
    var n := |xs| - 1;
    if i == n {
      assert Except(xs, i) == xs[..n];
    } else {
      ExceptFront(xs, i);
      CountSnoc(Except(xs[..n], i), xs[n], j);
      ExceptCount(xs[..n], i, j);
    }
  }

  lemma SumOverSnoc(p: Pool, xs: seq<nat>, x: nat)
    ensures SumOver(p, xs + [x]) == Plus(SumOver(p, xs), Expected(p, x))
  {
    assert (xs + [x])[..|xs|] == xs;
  }

  lemma PlusSwaps(a: Summary, b: Summary, c: Summary)
    ensures Plus(Plus(a, b), c) == Plus(Plus(a, c), b)
  {
  }

  lemma {:induction false} ExceptSum(p: Pool, xs: seq<nat>, i: nat)
    requires i < |xs|
    ensures SumOver(p, xs) == Plus(SumOver(p, Except(xs, i)), Expected(p, xs[i]))
  {
    var n := |xs| - 1;
    if i == n {
      assert Except(xs, i) == xs[..n];
    } else {
      ExceptSum(p, xs[..n], i);
      calc {
        SumOver(p, xs);
        Plus(Plus(SumOver(p, Except(xs[..n], i)), Expected(p, xs[i])), Expected(p, xs[n]));
      == { PlusSwaps(SumOver(p, Except(xs[..n], i)), Expected(p, xs[i]), Expected(p, xs[n])); }
        Plus(Plus(SumOver(p, Except(xs[..n], i)), Expected(p, xs[n])), Expected(p, xs[i]));
      == { SumOverSnoc(p, Except(xs[..n], i), xs[n]); ExceptFront(xs, i); }
        Plus(SumOver(p, Except(xs, i)), Expected(p, xs[i]));
      }
    }
  }

  ghost function Indices(n: nat): seq<nat> {
    if n == 0 then [] else Indices(n - 1) + [n - 1]
  }

  lemma {:induction false} FindOnce(xs: seq<nat>, j: nat) returns (i: nat)
    requires Count(xs, j) > 0
    ensures i < |xs| && xs[i] == j
  {
    i := |xs| - 1;
    if xs[i] != j {
      i := FindOnce(xs[..i], j);
    }
  }

  lemma LastCounts(xs: seq<nat>)
    ensures xs != [] ==> Count(xs, xs[|xs| - 1]) > 0
  {
  }

  /** A list that holds each of 0, ..., n - 1 once and nothing else has n elements, and the order in
      which results arrive does not change the total. */
  lemma {:induction false} EachOnce(p: Pool, n: nat, xs: seq<nat>)
    requires forall j: nat :: Count(xs, j) == if j < n then 1 else 0
    ensures |xs| == n && SumOver(p, xs) == SumOver(p, Indices(n))
  {
    if n == 0 {
      LastCounts(xs);
    } else {
      var i := FindOnce(xs, n - 1);
      var rest := Except(xs, i);
      forall j: nat ensures Count(rest, j) == if j < n - 1 then 1 else 0 {
        ExceptCount(xs, i, j);
      }
      EachOnce(p, n - 1, rest);
      ExceptSum(p, xs, i);
      SumOverSnoc(p, Indices(n - 1), n - 1);
    }
  }

  ghost function TestedIn(j: Job): nat { if j.skipped then 0 else j.outcome.tested }
  ghost function SucceededIn(j: Job): nat { if j.skipped then 0 else j.outcome.succeeded }
  ghost function FailedIn(j: Job): nat { if j.skipped then 0 else j.outcome.failed }
  ghost function DisabledIn(j: Job): nat { if j.skipped then 0 else j.outcome.disabled }
  ghost function EnabledIn(j: Job): nat { if j.skipped then 0 else j.outcome.enabled }

  /** Each counter of `s` is the sum of that counter over the outcomes of the jobs that are not skipped. */
  ghost predicate JobsAddUp(s: Summary, jobs: seq<Job>) {
    && s.tested == Total(jobs, TestedIn) && s.succeeded == Total(jobs, SucceededIn)
    && s.failed == Total(jobs, FailedIn) && s.disabled == Total(jobs, DisabledIn)
    && s.enabled == Total(jobs, EnabledIn)
  }

  lemma {:induction false} SumOverAddsUp(p: Pool, n: nat)
    requires n <= |p.jobs|
    ensures JobsAddUp(SumOver(p, Indices(n)), p.jobs[..n])
  {
    if n > 0 {
      SumOverAddsUp(p, n - 1);
      SumOverSnoc(p, Indices(n - 1), n - 1);
      assert p.jobs[..n][..n - 1] == p.jobs[..n - 1];
    }
  }

  /** A run that ends, cancelled or not, has reduced every test it started as often as it started it,
      its summary is the sum of the folded results, and the counters are coherent. */
  lemma EndedRun(p: Pool, steps: seq<Step>, t: State)
    requires WellFormed(p) && Run(p, Init(p), steps, t) && Quiescent(t)
    ensures forall j: nat :: Count(t.started, j) == Count(t.reduced, j)
    ensures AddsUp(t.summary, t.folded) && Coherent(t.summary)
    ensures t.processed == |t.reduced|
    ensures |t.reports| <= t.processed + 1 && forall i | 0 <= i < |t.reports| :: t.reports[i] == i
  {
    InitInv(p);
    RunInv(p, Init(p), steps, t);
    forall j: nat ensures Count(t.started, j) == Count(t.reduced, j) {
      NoneHeld(t.workers, j);
      assert Places(t, j) == 1;
    }
    SumAllCoherent(t.folded);
    SumAllAddsUp(t.folded);
  }

  /** An uncancelled run that ends has reduced every channel once, reported 0, 1, ..., total, and its
      summary is the sum of the expected outcomes taken in list order. */
  lemma UncancelledRun(p: Pool, steps: seq<Step>, t: State)
    requires WellFormed(p) && Run(p, Init(p), steps, t) && Quiescent(t) && !t.cancelled
    ensures t.processed == |p.jobs|
    ensures |t.reports| == |p.jobs| + 1 && forall i | 0 <= i < |t.reports| :: t.reports[i] == i
    ensures forall j: nat :: Count(t.reduced, j) == if j < |p.jobs| then 1 else 0
    ensures JobsAddUp(t.summary, p.jobs)
  {
    InitInv(p);
    RunInv(p, Init(p), steps, t);
    forall j: nat ensures Count(t.reduced, j) == if j < |p.jobs| then 1 else 0 {
      ReducedOnce(p, t, j);
    }
    EachOnce(p, |p.jobs|, t.reduced);
    UncancelledTotals(p, t);
    SumOverAddsUp(p, |p.jobs|);
    assert p.jobs[..|p.jobs|] == p.jobs;
  }

  lemma ReducedOnce(p: Pool, t: State, j: nat)
    requires Inv(p, t) && Quiescent(t) && !t.cancelled
    ensures Count(t.reduced, j) == if j < |p.jobs| then 1 else 0
  {
    NoneHeld(t.workers, j);
    assert Places(t, j) == 1;
  }

  lemma UncancelledTotals(p: Pool, t: State)
    requires Tallied(p, t) && Reported(t) && !t.cancelled
    ensures t.summary == SumOver(p, t.reduced) && |t.reports| == |t.reduced| + 1
  {
    GoodSum(p, t.reduced, t.folded);
  }

  lemma GoodSum(p: Pool, reduced: seq<nat>, folded: seq<Summary>)
    requires AllGood(p, false, reduced, folded)
    ensures SumAll(folded) == SumOver(p, reduced)
  {
    forall i | 0 <= i < |folded| ensures folded[i] == Expected(p, reduced[i]) {
      GoodIsExpected(p, reduced, folded, i);
    }
    SumOverFolded(p, folded, reduced);
  }

  lemma GoodIsExpected(p: Pool, reduced: seq<nat>, folded: seq<Summary>, i: nat)
    requires AllGood(p, false, reduced, folded) && i < |folded|
    ensures folded[i] == Expected(p, reduced[i])
  {
    assert GoodResult(p, false, reduced[i], folded[i]);
  }
}
