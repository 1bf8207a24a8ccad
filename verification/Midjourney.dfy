/** Midjourney polling and refunds (controller/midjourney.go, model/midjourney.go,
    service/midjourney.go): pollers hold snapshots of unfinished tasks, race through a compare-and-set
    on the status column, and the winner of a failing update returns the task's quota. */
module Midjourney {
  import opened Wrappers

  const DONE := "100%"
  const FAILURE := "FAILURE"
  const TIMED_OUT := "上游任务超时（超过1小时）"
  const ONE_HOUR := 3600000

  /** A task row. `videoUrls` is the stored JSON text, empty when there are none. */
  datatype Task = Task(code: int, progress: string, promptEn: string, state: string, submitTime: int, startTime: int,
                       finishTime: int, imageUrl: string, status: string, failReason: string, videoUrl: string,
                       videoUrls: string, properties: string, buttons: string, quota: int)

  /** One item of an upstream reply. */
  datatype Item = Item(progress: string, promptEn: string, state: string, submitTime: int, startTime: int,
                       finishTime: int, imageUrl: string, status: string, failReason: string, videoUrl: string,
                       videoUrls: string, properties: Option<string>, buttons: Option<string>)

  // ---------------------------------------------------------------- one item against one snapshot

  /** A task unfinished after an hour is failed, whatever the upstream says. */
  function TimeOut(t: Task, item: Item, now: int): Item {
    if now - t.submitTime > ONE_HOUR && t.progress != DONE then item.(failReason := TIMED_OUT, status := FAILURE) else item
  }

  /** checkMjTaskNeedUpdate. */
  predicate NeedsUpdate(t: Task, item: Item) {
    if t.code != 1 then true
    else if t.progress != item.progress then true
    else if t.promptEn != item.promptEn then true
    else if t.state != item.state then true
    else if t.submitTime != item.submitTime then true
    else if t.startTime != item.startTime then true
    else if t.finishTime != item.finishTime then true
    else if t.imageUrl != item.imageUrl then true
    else if t.status != item.status then true
    else if t.failReason != item.failReason then true
    else if t.progress != DONE && item.failReason != "" then true
    else if t.videoUrl != item.videoUrl then true
    else t.videoUrls != item.videoUrls
  }

  function Absorb(t: Task, item: Item): Task {
    Task(1, item.progress, item.promptEn, item.state, item.submitTime, item.startTime, item.finishTime, item.imageUrl,
         item.status, item.failReason, item.videoUrl, item.videoUrls,
         if item.properties.Some? then item.properties.value else t.properties,
         if item.buttons.Some? then item.buttons.value else t.buttons, t.quota)
  }

  /** The condition under which an update ends the task as failed and returns its quota. */
  predicate Fails(item: Item) {
    (item.progress != DONE && item.failReason != "") || (item.progress == DONE && item.status == FAILURE)
  }

  function Next(t: Task, item: Item): Task {
    if Fails(item) then Absorb(t, item).(progress := DONE) else Absorb(t, item)
  }

  /** An unfinished task is skipped exactly when writing the item would change nothing but its
      buttons and properties, which are never compared. */
  lemma SkipsOnlyNoOps(t: Task, item: Item)
    requires t.progress != DONE
    ensures NeedsUpdate(t, item) <==> Next(t, item).(properties := t.properties, buttons := t.buttons) != t
  {
    if NeedsUpdate(t, item) && !Fails(item) {
      assert Absorb(t, item).progress == item.progress;
    }
  }

  // ---------------------------------------------------------------- the protocol

  /** A poller's snapshot of task `id`. */
  datatype Copy = Copy(id: nat, task: Task)

  /** `payments[id]` lists what was returned for task `id`; `clearing` holds the tasks whose refund
      was paid and whose quota column is still to be cleared; `billed[id]` is what the task cost. The
      clock counts milliseconds from any epoch. */
  datatype State = State(clock: int, rows: map<nat, Task>, copies: map<nat, Copy>, payments: map<nat, seq<int>>,
                         clearing: set<nat>, billed: map<nat, int>)

  /** Steps of any number of pollers of both kinds: `clears` tells the poller that clears the quota
      column after paying; `paid` is false when the payment itself fails. */
  datatype Step =
    | Submit(id: nat, task: Task)
    | Snapshot(k: nat, id: nat)
    | Reply(k: nat, item: Item, now: int, clears: bool, paid: bool)
    | Clear(id: nat)
    | BulkFail(ids: set<nat>, reason: Option<string>)

  function Payments(s: State, id: nat): seq<int> {
    if id in s.payments then s.payments[id] else []
  }

  predicate Enabled(s: State, step: Step) {
    match step
    case Submit(id, _) => id !in s.rows
    case Snapshot(k, id) => k !in s.copies && id in s.rows && s.rows[id].progress != DONE
    case Reply(k, _, now, _, _) => k in s.copies && s.copies[k].id in s.rows && s.clock <= now
    case Clear(id) => id in s.clearing && id in s.rows
    case BulkFail(_, _) => true
  }

  /** UpdateWithStatus: overwrite the row if its status is still the snapshot's. */
  predicate Wins(s: State, copy: Copy) {
    copy.id in s.rows && s.rows[copy.id].status == copy.task.status
  }

  function Failed(t: Task, reason: Option<string>): Task {
    t.(status := FAILURE, progress := DONE, failReason := if reason.Some? then reason.value else t.failReason)
  }

  predicate Writes(s: State, step: Step)
    requires Enabled(s, step) && step.Reply?
  {
    var copy := s.copies[step.k];
    NeedsUpdate(copy.task, TimeOut(copy.task, step.item, step.now)) && Wins(s, copy)
  }

  predicate Pays(s: State, step: Step)
    requires Enabled(s, step) && step.Reply?
  {
    var copy := s.copies[step.k];
    Writes(s, step) && Fails(TimeOut(copy.task, step.item, step.now)) && copy.task.quota != 0 && step.paid
  }

  function Apply(s: State, step: Step): State
    requires Enabled(s, step)
  {
    match step
    case Submit(id, task) => s.(rows := s.rows[id := task], billed := s.billed[id := task.quota])
    case Snapshot(k, id) => s.(copies := s.copies[k := Copy(id, s.rows[id])])
    case Reply(k, item, now, clears, paid) =>
      var copy := s.copies[k];
      var next := Next(copy.task, TimeOut(copy.task, item, now));
      State(now,
            if Writes(s, step) then s.rows[copy.id := next] else s.rows,
            s.copies - {k},
            if Pays(s, step) then s.payments[copy.id := Payments(s, copy.id) + [copy.task.quota]] else s.payments,
            if Pays(s, step) && clears then s.clearing + {copy.id} else s.clearing,
            s.billed)
    case Clear(id) => s.(rows := s.rows[id := s.rows[id].(quota := 0)], clearing := s.clearing - {id})
    case BulkFail(ids, reason) =>
      s.(rows := map id | id in s.rows :: if id in ids then Failed(s.rows[id], reason) else s.rows[id])
  }

  /** What the world may do: `starts` are the tasks that may be submitted, `allowed` the items that the
      upstream may reply with. */
  ghost predicate Permits(starts: Task -> bool, allowed: Item -> bool, step: Step) {
    (step.Submit? ==> starts(step.task)) && (step.Reply? ==> allowed(step.item))
  }

  ghost predicate Run(starts: Task -> bool, allowed: Item -> bool, s: State, steps: seq<Step>, t: State)
    decreases |steps|
  {
    if steps == [] then s == t
    else
      && Enabled(s, steps[0])
      && Permits(starts, allowed, steps[0])
      && Run(starts, allowed, Apply(s, steps[0]), steps[1..], t)
  }

  function Empty(clock: int): State {
    State(clock, map[], map[], map[], {}, map[])
  }

  // ---------------------------------------------------------------- at most one refund

  /** A task that is polled and that a refund would be paid for. */
  predicate Owing(t: Task) {
    t.progress != DONE && t.quota != 0
  }

  /** A status that a failing update can leave a task with: FAILURE, which a time-out always sets, or the
      status of a reply below 100 % that gives a reason. */
  ghost predicate Leaves(allowed: Item -> bool, status: string) {
    || status == FAILURE
    || exists item :: allowed(item) && item.progress != DONE && item.failReason != "" && item.status == status
  }

  ghost predicate StartsWith(starts: Task -> bool, status: string) {
    exists t :: starts(t) && Owing(t) && t.status == status
  }

  /** A status that a task still polled can have: it was submitted with it, or a reply below 100 % that
      gives no reason set it. */
  ghost predicate Live(starts: Task -> bool, allowed: Item -> bool, status: string) {
    || StartsWith(starts, status)
    || (exists item :: allowed(item) && item.progress != DONE && item.failReason == "" && item.status == status)
  }

  /** No failing update leaves a task with a status that a polled task can have. */
  ghost predicate Separate(starts: Task -> bool, allowed: Item -> bool) {
    forall status :: Leaves(allowed, status) ==> !Live(starts, allowed, status)
  }

  ghost predicate GoodRow(allowed: Item -> bool, s: State, id: nat) {
    && id in s.rows && id in s.billed
    && (s.billed[id] == 0 ==> s.rows[id].quota == 0 && Payments(s, id) == [] && id !in s.clearing)
    && (s.billed[id] != 0 ==>
          && (Leaves(allowed, s.rows[id].status) ==> s.rows[id].progress == DONE)
          && (!Leaves(allowed, s.rows[id].status) ==>
                s.rows[id].quota == s.billed[id] && Payments(s, id) == [] && id !in s.clearing)
          && (Payments(s, id) == [] || Payments(s, id) == [s.billed[id]]))
  }

  ghost predicate GoodCopy(allowed: Item -> bool, s: State, k: nat) {
    && k in s.copies
    && var copy := s.copies[k];
       && copy.id in s.rows && copy.id in s.billed
       && copy.task.progress != DONE && copy.task.quota == s.billed[copy.id]
       && (copy.task.quota != 0 ==> !Leaves(allowed, copy.task.status))
  }

  ghost predicate Inv(allowed: Item -> bool, s: State) {
    && (forall id | id in s.rows :: GoodRow(allowed, s, id))
    && (forall k | k in s.copies :: GoodCopy(allowed, s, k))
    && (forall id | id in s.payments || id in s.clearing :: id in s.rows)
  }

  /** What a permitted reply to a polled task does: it fails the task with a status that failing updates
      leave, or keeps it polled with a live status, or finishes it. */
  lemma ReplyOutcome(starts: Task -> bool, allowed: Item -> bool, t: Task, item: Item, now: int)
    requires allowed(item) && t.progress != DONE
    ensures var out := TimeOut(t, item, now);
            && (Fails(out) ==> Leaves(allowed, out.status))
            && (!Fails(out) && out.progress != DONE ==> Live(starts, allowed, out.status))
  {
  }

  lemma ReplyRows(starts: Task -> bool, allowed: Item -> bool, s: State, step: Step, id: nat)
    requires Inv(allowed, s) && Separate(starts, allowed) && Enabled(s, step) && step.Reply? && allowed(step.item)
    requires id in s.rows
    ensures GoodRow(allowed, Apply(s, step), id)
  {
    assert GoodRow(allowed, s, id) && GoodCopy(allowed, s, step.k);
    ReplyOutcome(starts, allowed, s.copies[step.k].task, step.item, step.now);
  }

  lemma OtherRows(starts: Task -> bool, allowed: Item -> bool, s: State, step: Step, id: nat)
    requires Inv(allowed, s) && Separate(starts, allowed) && Enabled(s, step) && Permits(starts, allowed, step)
    requires !step.Reply? && id in Apply(s, step).rows
    ensures GoodRow(allowed, Apply(s, step), id)
  {
    if id in s.rows {
      assert GoodRow(allowed, s, id);
    } else if Owing(step.task) {
      assert StartsWith(starts, step.task.status);
      assert Live(starts, allowed, step.task.status);
    }
  }

  lemma StepCopies(allowed: Item -> bool, s: State, step: Step, k: nat)
    requires Inv(allowed, s) && Enabled(s, step) && k in Apply(s, step).copies
    ensures GoodCopy(allowed, Apply(s, step), k)
  {
    if k in s.copies {
      assert GoodCopy(allowed, s, k);
    } else {
      assert GoodRow(allowed, s, step.id);
    }
  }

  lemma StepInv(starts: Task -> bool, allowed: Item -> bool, s: State, step: Step)
    requires Inv(allowed, s) && Separate(starts, allowed) && Enabled(s, step) && Permits(starts, allowed, step)
    ensures Inv(allowed, Apply(s, step))
  {
    var t := Apply(s, step);
    forall id | id in t.rows ensures GoodRow(allowed, t, id) {
      if step.Reply? {
        ReplyRows(starts, allowed, s, step, id);
      } else {
        OtherRows(starts, allowed, s, step, id);
      }
    }
    forall k | k in t.copies ensures GoodCopy(allowed, t, k) {
      StepCopies(allowed, s, step, k);
    }
  }

  lemma {:induction false} RunInv(starts: Task -> bool, allowed: Item -> bool, s: State, steps: seq<Step>, t: State)
    requires Inv(allowed, s) && Run(starts, allowed, s, steps, t) && Separate(starts, allowed)
    ensures Inv(allowed, t)
    decreases |steps|
  {
    if steps != [] {
      StepInv(starts, allowed, s, steps[0]);
      RunInv(starts, allowed, Apply(s, steps[0]), steps[1..], t);
    }
  }

  /** When failing statuses and live ones are separate, in every interleaving a task is refunded at most
      once, with what it was billed, and then it is at 100 % with a failing status, which it keeps. */
  lemma RefundedAtMostOnce(starts: Task -> bool, allowed: Item -> bool, clock: int, steps: seq<Step>, t: State, id: nat)
    requires Run(starts, allowed, Empty(clock), steps, t) && Separate(starts, allowed)
    ensures |Payments(t, id)| <= 1
    ensures |Payments(t, id)| == 1 ==>
              id in t.rows && id in t.billed && Payments(t, id) == [t.billed[id]]
              && Leaves(allowed, t.rows[id].status) && t.rows[id].progress == DONE
  {
    RunInv(starts, allowed, Empty(clock), steps, t);
    if id in t.rows {
      assert GoodRow(allowed, t, id);
    }
  }

  /** A billed task with a failing status is settled: no step changes that or pays for it. */
  lemma SettledForGood(starts: Task -> bool, allowed: Item -> bool, clock: int, steps: seq<Step>, s: State, step: Step, id: nat)
    requires Run(starts, allowed, Empty(clock), steps, s) && Separate(starts, allowed)
    requires Enabled(s, step) && Permits(starts, allowed, step)
    requires id in s.rows && id in s.billed && s.billed[id] != 0 && Leaves(allowed, s.rows[id].status)
    ensures id in Apply(s, step).rows && Leaves(allowed, Apply(s, step).rows[id].status)
    ensures Payments(Apply(s, step), id) == Payments(s, id)
  {
    RunInv(starts, allowed, Empty(clock), steps, s);
    if step.Reply? {
      assert GoodCopy(allowed, s, step.k);
    }
  }

  /** The only step that pays is a winning reply that moves a task to a failing status at 100 %. */
  lemma PaysOnFailureOnly(starts: Task -> bool, allowed: Item -> bool, clock: int, steps: seq<Step>, s: State, step: Step, id: nat)
    requires Run(starts, allowed, Empty(clock), steps, s) && Separate(starts, allowed)
    requires Enabled(s, step) && Permits(starts, allowed, step)
    requires Payments(Apply(s, step), id) != Payments(s, id)
    ensures step.Reply? && id in s.rows && !Leaves(allowed, s.rows[id].status)
    ensures var t := Apply(s, step); id in t.rows && Leaves(allowed, t.rows[id].status) && t.rows[id].progress == DONE
  {
    RunInv(starts, allowed, Empty(clock), steps, s);
    assert step.Reply?;
    assert GoodCopy(allowed, s, step.k);
    ReplyOutcome(starts, allowed, s.copies[step.k].task, step.item, step.now);
  }

  // ---------------------------------------------------------------- every failure is refunded

  /** More than an hour after the submit time of the snapshot. */
  ghost predicate Late(t: Task, now: int) {
    now - t.submitTime > 3600000
  }

  /** What ends an unfinished task as failed: it is late, or the reply says FAILURE at 100 %, or gives a reason
      below 100 %. */
  ghost predicate EndsFailed(t: Task, item: Item, now: int) {
    || Late(t, now)
    || (item.progress == "100%" && item.status == "FAILURE")
    || (item.progress != "100%" && item.failReason != "")
  }

  /** A reply to a snapshot of an unfinished task returns what the task cost exactly when it ends the task as
      failed, the status is still that of the snapshot, the task cost something and the payment works. */
  lemma RefundsExactlyFailures(s: State, step: Step)
    requires Enabled(s, step) && step.Reply? && s.copies[step.k].task.progress != "100%"
    ensures var id, t := s.copies[step.k].id, s.copies[step.k].task;
            var refunded := EndsFailed(t, step.item, step.now) && s.rows[id].status == t.status && t.quota != 0 && step.paid;
            && Payments(Apply(s, step), id) == Payments(s, id) + (if refunded then [t.quota] else [])
            && (id in Apply(s, step).clearing <==> id in s.clearing || (refunded && step.clears))
            && forall other: nat | other != id :: Payments(Apply(s, step), other) == Payments(s, other)
  {
  }

  /** What a reply to a snapshot of an unfinished task leaves in the row: nothing if the status has changed
      meanwhile; otherwise the fields of the reply, with FAILURE and the time-out reason if it is late, at
      100 % if the task ends as failed. Buttons and properties are kept if the reply has none; the quota is
      kept. A reply that would change nothing else is not written. */
  lemma RowAfterReply(s: State, step: Step)
    requires Enabled(s, step) && step.Reply? && s.copies[step.k].task.progress != "100%"
    ensures var id, t, item := s.copies[step.k].id, s.copies[step.k].task, step.item;
            var late := Late(t, step.now);
            var next := Task(1, if EndsFailed(t, item, step.now) then "100%" else item.progress, item.promptEn, item.state,
                             item.submitTime, item.startTime, item.finishTime, item.imageUrl,
                             if late then "FAILURE" else item.status, if late then TIMED_OUT else item.failReason,
                             item.videoUrl, item.videoUrls,
                             if item.properties.Some? then item.properties.value else t.properties,
                             if item.buttons.Some? then item.buttons.value else t.buttons, t.quota);
            && (s.rows[id].status != t.status ==> Apply(s, step).rows == s.rows)
            && (s.rows[id].status == t.status ==>
                  Apply(s, step).rows ==
                  if next.(properties := t.properties, buttons := t.buttons) == t then s.rows else s.rows[id := next])
  {
    SkipsOnlyNoOps(s.copies[step.k].task, TimeOut(s.copies[step.k].task, step.item, step.now));
  }

  /** Failing rows in bulk: FAILURE at 100 % with the given reason, and nothing is paid. */
  lemma BulkFailure(s: State, ids: set<nat>, reason: Option<string>, id: nat)
    requires id in s.rows
    ensures var t := Apply(s, BulkFail(ids, reason));
            && t.payments == s.payments && id in t.rows
            && t.rows[id] ==
               if id !in ids then s.rows[id]
               else s.rows[id].(status := "FAILURE", progress := "100%",
                                failReason := if reason.Some? then reason.value else s.rows[id].failReason)
  {
  }

  /** After a refund the poller that clears takes the quota out of the row, and nothing else changes it. */
  lemma ClearingTakesQuota(s: State, id: nat)
    requires Enabled(s, Clear(id))
    ensures var t := Apply(s, Clear(id));
            && t.rows == s.rows[id := s.rows[id].(quota := 0)] && t.clearing == s.clearing - {id}
            && t.payments == s.payments && t.copies == s.copies
  {
  }

  lemma {:induction false} PaymentsStay(starts: Task -> bool, allowed: Item -> bool, s: State, steps: seq<Step>, t: State, id: nat)
    requires Run(starts, allowed, s, steps, t)
    ensures Payments(s, id) <= Payments(t, id)
    decreases |steps|
  {
    if steps != [] {
      PaymentsStep(s, steps[0], id);
      PaymentsStay(starts, allowed, Apply(s, steps[0]), steps[1..], t, id);
    }
  }

  lemma PaymentsStep(s: State, step: Step, id: nat)
    requires Enabled(s, step)
    ensures Payments(s, id) <= Payments(Apply(s, step), id)
  {
  }

  /** A billed task that a reply ends as failed has been refunded exactly once, with what it was billed, in
      every interleaving before and after, when failing statuses and live ones are separate. */
  lemma RefundedExactlyOnce(starts: Task -> bool, allowed: Item -> bool, clock: int, before: seq<Step>, s: State,
                            step: Step, after: seq<Step>, t: State)
    requires Separate(starts, allowed) && Run(starts, allowed, Empty(clock), before, s)
    requires Enabled(s, step) && Permits(starts, allowed, step) && Run(starts, allowed, Apply(s, step), after, t)
    requires step.Reply? && step.paid && EndsFailed(s.copies[step.k].task, step.item, step.now)
    requires var copy := s.copies[step.k];
             copy.id in s.billed && s.billed[copy.id] != 0 && s.rows[copy.id].status == copy.task.status
    ensures var id := s.copies[step.k].id; Payments(t, id) == [s.billed[id]] && id in t.rows && t.rows[id].progress == "100%"
  {
    var id := s.copies[step.k].id;
    RunInv(starts, allowed, Empty(clock), before, s);
    assert GoodCopy(allowed, s, step.k);
    RefundsExactlyFailures(s, step);
    PaymentsStay(starts, allowed, Apply(s, step), after, t, id);
    RunCons(starts, allowed, s, step, after, t);
    RunAppend(starts, allowed, Empty(clock), before, s, [step] + after, t);
    RefundedAtMostOnce(starts, allowed, clock, before + ([step] + after), t, id);
    assert Payments(t, id)[0] == s.billed[id];
  }

  // ---------------------------------------------------------------- nothing to pay

  /** No reply ever arrives, or no task that owes anything is ever polled. */
  ghost predicate Quiet(starts: Task -> bool, allowed: Item -> bool) {
    (forall item :: !allowed(item)) || (forall t | starts(t) :: !Owing(t))
  }

  ghost predicate Unpaid(starts: Task -> bool, s: State) {
    && s.payments == map[]
    && ((forall t | starts(t) :: !Owing(t)) ==>
          && (forall id | id in s.rows :: !Owing(s.rows[id]))
          && (forall k | k in s.copies :: s.copies[k].task.quota == 0))
  }

  lemma {:induction false} QuietRun(starts: Task -> bool, allowed: Item -> bool, s: State, steps: seq<Step>, t: State)
    requires Quiet(starts, allowed) && Unpaid(starts, s) && Run(starts, allowed, s, steps, t)
    ensures t.payments == map[]
    decreases |steps|
  {
    if steps != [] {
      QuietRun(starts, allowed, Apply(s, steps[0]), steps[1..], t);
    }
  }

  // ---------------------------------------------------------------- the condition is exact

  ghost predicate NeverPaysTwice(starts: Task -> bool, allowed: Item -> bool) {
    forall clock, steps, t, id: nat | Run(starts, allowed, Empty(clock), steps, t) :: |Payments(t, id)| <= 1
  }

  lemma RunCons(starts: Task -> bool, allowed: Item -> bool, s: State, step: Step, rest: seq<Step>, t: State)
    requires Enabled(s, step) && Permits(starts, allowed, step) && Run(starts, allowed, Apply(s, step), rest, t)
    ensures Run(starts, allowed, s, [step] + rest, t)
  {
    assert ([step] + rest)[1..] == rest;
  }

  lemma {:induction false} RunAppend(starts: Task -> bool, allowed: Item -> bool, s: State, a: seq<Step>, m: State, b: seq<Step>, t: State)
    requires Run(starts, allowed, s, a, m) && Run(starts, allowed, m, b, t)
    ensures Run(starts, allowed, s, a + b, t)
    decreases |a|
  {
    if a == [] {
      assert a + b == b;
    } else {
      RunAppend(starts, allowed, Apply(s, a[0]), a[1..], m, b, t);
      assert (a + b)[1..] == a[1..] + b;
    }
  }

  /** Task 0 is alone, polled, owed for, and not yet timed out. */
  ghost predicate Ready(s: State, status: string) {
    && s.copies == map[] && s.payments == map[] && 0 in s.rows
    && Owing(s.rows[0]) && s.rows[0].status == status && s.clock <= s.rows[0].submitTime
  }

  /** A live status is reached by submitting a task with it, or by submitting any task and one reply. */
  lemma ReachLive(starts: Task -> bool, allowed: Item -> bool, status: string) returns (clock: int, steps: seq<Step>, s: State)
    requires Live(starts, allowed, status) && exists t :: starts(t) && Owing(t)
    ensures Run(starts, allowed, Empty(clock), steps, s) && Ready(s, status)
  {
    if StartsWith(starts, status) {
      var t :| starts(t) && Owing(t) && t.status == status;
      clock := t.submitTime;
      var a := Submit(0, t);
      s := Apply(Empty(clock), a);
      RunCons(starts, allowed, Empty(clock), a, [], s);
      steps := [a] + [];
    } else {
      var t :| starts(t) && Owing(t);
      var item :| allowed(item) && item.progress != DONE && item.failReason == "" && item.status == status;
      clock := if t.submitTime <= item.submitTime then t.submitTime else item.submitTime;
      var a, b, c := Submit(0, t), Snapshot(0, 0), Reply(0, item, clock, false, true);
      var s1 := Apply(Empty(clock), a);
      var s2 := Apply(s1, b);
      s := Apply(s2, c);
      RunCons(starts, allowed, s2, c, [], s);
      RunCons(starts, allowed, s1, b, [c] + [], s);
      RunCons(starts, allowed, Empty(clock), a, [b] + ([c] + []), s);
      steps := [a] + ([b] + ([c] + []));
    }
  }

  /** Two pollers hold the same snapshot of task 0 and get a failing item that leaves the status as
      it is: both win, both pay. */
  lemma BothPay(starts: Task -> bool, allowed: Item -> bool, s: State, item: Item, now: int) returns (steps: seq<Step>, t: State)
    requires 0 in s.rows && Ready(s, s.rows[0].status) && allowed(item) && s.clock <= now
    requires var out := TimeOut(s.rows[0], item, now); out.status == s.rows[0].status && Fails(out)
    ensures Run(starts, allowed, s, steps, t) && |Payments(t, 0)| == 2
  {
    var a, b := Snapshot(1, 0), Snapshot(2, 0);
    var c, d := Reply(1, item, now, false, true), Reply(2, item, now, false, true);
    var s1 := Apply(s, a);
    var s2 := Apply(s1, b);
    assert NeedsUpdate(s.rows[0], TimeOut(s.rows[0], item, now)) && Pays(s2, c);
    var s3 := Apply(s2, c);
    assert Pays(s3, d);
    t := Apply(s3, d);
    RunCons(starts, allowed, s3, d, [], t);
    RunCons(starts, allowed, s2, c, [d] + [], t);
    RunCons(starts, allowed, s1, b, [c] + ([d] + []), t);
    RunCons(starts, allowed, s, a, [b] + ([c] + ([d] + [])), t);
    steps := [a] + ([b] + ([c] + ([d] + [])));
  }

  /** A status that is both live and left behind lets two pollers pay. */
  lemma SharedStatusPaysTwice(starts: Task -> bool, allowed: Item -> bool, status: string)
    requires !Quiet(starts, allowed) && Leaves(allowed, status) && Live(starts, allowed, status)
    ensures !NeverPaysTwice(starts, allowed)
  {
    var clock, before, s := ReachLive(starts, allowed, status);
    var after, t;
    if status == FAILURE {
      var item :| allowed(item);
      after, t := BothPay(starts, allowed, s, item, s.rows[0].submitTime + ONE_HOUR + 1);
    } else {
      var item :| allowed(item) && item.progress != DONE && item.failReason != "" && item.status == status;
      after, t := BothPay(starts, allowed, s, item, s.clock);
    }
    RunAppend(starts, allowed, Empty(clock), before, s, after, t);
  }

  /** The condition is exact. Whatever tasks may be submitted and whatever the upstream may reply, no
      interleaving refunds a task twice if and only if there is nothing to pay, or no failing update
      leaves a task with a status that a polled task can have. */
  lemma RefundSafety(starts: Task -> bool, allowed: Item -> bool)
    ensures NeverPaysTwice(starts, allowed) <==> Quiet(starts, allowed) || Separate(starts, allowed)
  {
    if Quiet(starts, allowed) {
      forall clock, steps, t, id: nat | Run(starts, allowed, Empty(clock), steps, t) ensures |Payments(t, id)| <= 1 {
        QuietRun(starts, allowed, Empty(clock), steps, t);
      }
    } else if Separate(starts, allowed) {
      forall clock, steps, t, id: nat | Run(starts, allowed, Empty(clock), steps, t) ensures |Payments(t, id)| <= 1 {
        RefundedAtMostOnce(starts, allowed, clock, steps, t, id);
      }
    } else {
      var status :| Leaves(allowed, status) && Live(starts, allowed, status);
      SharedStatusPaysTwice(starts, allowed, status);
    }
  }

  // ---------------------------------------------------------------- consistent replies

  /** Below 100 %, a reply says FAILURE exactly when it gives a reason. */
  predicate Consistent(item: Item) {
    item.progress != DONE ==> (item.failReason != "" <==> item.status == FAILURE)
  }

  ghost predicate AllConsistent(allowed: Item -> bool) {
    forall item | allowed(item) :: Consistent(item)
  }

  /** No task that owes anything is submitted as FAILURE below 100 %. */
  ghost predicate NoFailedStart(starts: Task -> bool) {
    forall t | starts(t) && Owing(t) :: t.status != FAILURE
  }

  /** A task submitted as FAILURE below 100 % is paid for twice, however consistent the replies are: any
      reply after an hour does it. */
  lemma FailedStartPaysTwice(starts: Task -> bool, allowed: Item -> bool, t: Task, item: Item)
    requires starts(t) && Owing(t) && t.status == FAILURE && allowed(item)
    ensures !NeverPaysTwice(starts, allowed)
  {
    assert StartsWith(starts, FAILURE);
    SharedStatusPaysTwice(starts, allowed, FAILURE);
  }

  /** With consistent replies FAILURE is the only status that a failing update leaves. */
  lemma ConsistentIsSeparate(starts: Task -> bool, allowed: Item -> bool)
    requires AllConsistent(allowed)
    ensures forall status :: Leaves(allowed, status) <==> status == FAILURE
    ensures Separate(starts, allowed) <==> NoFailedStart(starts)
  {
    if !NoFailedStart(starts) {
      assert Leaves(allowed, FAILURE);
    }
  }

  /** Where a task may be submitted with every status but FAILURE, as a reply to the submission may say,
      the condition reads: no reply at all, or every reply consistent and no task that owes anything
      submitted as FAILURE below 100 %. */
  lemma RefundSafetyIsConsistency(starts: Task -> bool, allowed: Item -> bool)
    requires forall status | status != FAILURE :: StartsWith(starts, status)
    ensures NeverPaysTwice(starts, allowed) <==>
            (forall item :: !allowed(item)) || (AllConsistent(allowed) && NoFailedStart(starts))
  {
    RefundSafety(starts, allowed);
    assert StartsWith(starts, "");
    if AllConsistent(allowed) {
      ConsistentIsSeparate(starts, allowed);
    } else {
      var item :| allowed(item) && !Consistent(item);
      assert Leaves(allowed, if item.failReason != "" then item.status else FAILURE);
      assert Live(starts, allowed, item.status);
    }
  }
}
