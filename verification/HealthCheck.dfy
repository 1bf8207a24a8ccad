/** One channel health check and the counters it contributes to a test cycle
    (controller/channel-test.go). */
module HealthCheck {
  import opened Wrappers

  // common/constants.go: channel and key statuses.
  const CHANNEL_ENABLED := 1
  const CHANNEL_AUTO_DISABLED := 3

  /** channelTestSummary. */
  datatype Summary = Summary(tested: nat, succeeded: nat, failed: nat, disabled: nat, enabled: nat)

  const ZERO := Summary(0, 0, 0, 0, 0)

  function Plus(a: Summary, b: Summary): Summary {
    Summary(a.tested + b.tested, a.succeeded + b.succeeded, a.failed + b.failed,
            a.disabled + b.disabled, a.enabled + b.enabled)
  }

  /** What every summary must satisfy: a tested channel either succeeded or failed, only failures
      are disabled, only successes are enabled again, and no channel is both. */
  ghost predicate Coherent(s: Summary) {
    && s.tested == s.succeeded + s.failed
    && s.disabled <= s.failed
    && s.enabled <= s.succeeded
    && s.disabled + s.enabled <= s.tested
  }

  function SumAll(results: seq<Summary>): Summary {
    if results == [] then ZERO else Plus(SumAll(results[..|results| - 1]), results[|results| - 1])
  }

  lemma {:induction false} SumAllCoherent(results: seq<Summary>)
    requires forall r | r in results :: Coherent(r)
    ensures Coherent(SumAll(results))
  {
    if results != [] {
      SumAllCoherent(results[..|results| - 1]);
      assert Coherent(results[|results| - 1]);
    }
  }

  /** The sum of one counter over a list. */
  ghost function Total<T>(xs: seq<T>, count: T -> nat): nat {
    if xs == [] then 0 else Total(xs[..|xs| - 1], count) + count(xs[|xs| - 1])
  }

  ghost function TestedOf(r: Summary): nat { r.tested }
  ghost function SucceededOf(r: Summary): nat { r.succeeded }
  ghost function FailedOf(r: Summary): nat { r.failed }
  ghost function DisabledOf(r: Summary): nat { r.disabled }
  ghost function EnabledOf(r: Summary): nat { r.enabled }

  /** Each counter of `s` is the sum of that counter over `results`. */
  ghost predicate AddsUp(s: Summary, results: seq<Summary>) {
    && s.tested == Total(results, TestedOf) && s.succeeded == Total(results, SucceededOf)
    && s.failed == Total(results, FailedOf) && s.disabled == Total(results, DisabledOf)
    && s.enabled == Total(results, EnabledOf)
  }

  lemma {:induction false} SumAllAddsUp(results: seq<Summary>)
    ensures AddsUp(SumAll(results), results)
  {
    if results != [] {
      SumAllAddsUp(results[..|results| - 1]);
    }
  }

  /** The part of a multi-key channel that the probe selection reads. */
  datatype Channel = Channel(status: int, multiKey: bool, keyCount: nat, keyStatus: map<int, int>,
                             disabledTime: map<int, int>, autoBan: bool)

  function Lookup(m: map<int, int>, i: int): int {
    if i in m then m[i] else 0
  }

  /** A key a health check may probe: in range and auto-disabled. */
  predicate Probeable(c: Channel, i: int) {
    0 <= i < c.keyCount && Lookup(c.keyStatus, i) == CHANNEL_AUTO_DISABLED
  }

  lemma ProbeableIs(c: Channel, i: int)
    ensures Probeable(c, i) <==> 0 <= i < c.keyCount && i in c.keyStatus && c.keyStatus[i] == 3
  {
  }

  /** selectRecoveryProbeKeyIndex: the auto-disabled key that went bad first, the lowest index among
      equals; nothing exactly when the channel is single-key or all its keys are healthy. */
  method SelectRecoveryProbeKey(c: Channel) returns (probe: Option<nat>)
    ensures probe.None? <==> !c.multiKey || forall i :: !Probeable(c, i)
    ensures probe.Some? ==> Probeable(c, probe.value)
    ensures probe.Some? ==> forall i | Probeable(c, i) ::
              var best := Lookup(c.disabledTime, probe.value);
              best < Lookup(c.disabledTime, i) || (best == Lookup(c.disabledTime, i) && probe.value <= i)
  {
    if !c.multiKey {
      return None;
    }
    var selected, selectedTime := -1, 0;
    for idx := 0 to c.keyCount
      invariant selected < idx
      invariant selected < 0 ==> forall i | i < idx :: !Probeable(c, i)
      invariant selected >= 0 ==> Probeable(c, selected) && selectedTime == Lookup(c.disabledTime, selected)
      invariant selected >= 0 ==> forall i | i < idx && Probeable(c, i) ::
                  selectedTime < Lookup(c.disabledTime, i)
                  || (selectedTime == Lookup(c.disabledTime, i) && selected <= i)
    {
      if Lookup(c.keyStatus, idx) == CHANNEL_AUTO_DISABLED {
        var disabledAt := Lookup(c.disabledTime, idx);
        if selected < 0 || disabledAt < selectedTime {
          selected, selectedTime := idx, disabledAt;
        }
      }
    }
    if selected < 0 {
      return None;
    }
    return Some(selected);
  }

  /** What one call of testChannel and the surrounding configuration contribute. `apiError` is the
      error the test returned; `banWorthy` is service.ShouldDisableChannel for that error. */
  datatype Probe = Probe(cancelled: bool, apiError: bool, localError: bool, banWorthy: bool, slow: bool,
                         autoDisable: bool, autoEnable: bool, allowDisable: bool)

  /** testChannelForHealthCheck. A cancelled check counts nothing. Otherwise the check counts exactly
      one test; a channel is disabled only after a failure outside a key probe, and enabled only
      after a success, so the summary is coherent whatever the test returned. */
  method CheckChannel(c: Channel, r: Probe) returns (summary: Summary, probed: Option<nat>)
    ensures Coherent(summary)
    ensures r.cancelled ==> summary == ZERO
    ensures !r.cancelled ==> summary.tested == 1
    ensures !r.cancelled ==> (summary.failed == 1 <==> r.apiError || (r.autoDisable && r.slow))
    ensures summary.disabled == 1 <==>
            !r.cancelled && r.allowDisable && c.status == 1 && c.autoBan && probed.None?
            && ((r.apiError && r.banWorthy) || (r.autoDisable && r.slow))
    ensures summary.enabled == 1 <==>
            !r.cancelled && r.autoEnable && !r.localError && !r.apiError && !(r.autoDisable && r.slow)
            && (probed.Some? || c.status == 3)
    ensures summary.disabled <= 1 && summary.enabled <= 1
    ensures probed.Some? <==> r.autoEnable && c.multiKey && exists i :: Probeable(c, i)
    ensures probed.Some? ==> Probeable(c, probed.value)
  {
    summary, probed := ZERO, None;
    var isChannelEnabled := c.status == CHANNEL_ENABLED;
    if r.autoEnable {
      probed := SelectRecoveryProbeKey(c);
    }
    if r.cancelled {
      return;
    }
    summary := summary.(tested := summary.tested + 1);
    var failing := r.apiError;
    var shouldBan := r.apiError && r.banWorthy;
    if r.autoDisable && !shouldBan {
      if r.slow {
        failing := true;
        shouldBan := true;
      }
    }
    if !failing {
      summary := summary.(succeeded := summary.succeeded + 1);
    } else {
      summary := summary.(failed := summary.failed + 1);
    }
    if r.allowDisable && isChannelEnabled && shouldBan && c.autoBan && probed.None? {
      summary := summary.(disabled := summary.disabled + 1);
    }
    var recovered := false;
    if !r.localError {
      if probed.Some? {
        recovered := r.autoEnable && !failing && Lookup(c.keyStatus, probed.value) == CHANNEL_AUTO_DISABLED;
      } else {
        recovered := !isChannelEnabled && r.autoEnable && !failing && c.status == CHANNEL_AUTO_DISABLED;
      }
    }
    if recovered {
      summary := summary.(enabled := summary.enabled + 1);
    }
  }
}
