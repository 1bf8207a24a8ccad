# A verified model of the gateway's state machines

The repository is a gateway in front of many language-model providers. This project models the parts of it that
hold state, share it between goroutines or do exact arithmetic, and proves what they keep over every input, every
run or every interleaving. `dafny verify dfyconfig.toml` checks the whole project.

| module | what it models |
|---|---|
| `WorkerPool`, `HealthCheck` | the channel-test worker pool as a transition system, and the single check whose counters it adds up |
| `ModelNames`, `UpstreamSync`, `UpstreamConvergence` | detecting model differences against an upstream list, storing them, applying a selection |
| `BatchScan` | the id-ordered batched scans over a table that changes between queries |
| `KeyStrings`, `KeyAppends`, `MultiKey`, `MultiKeyLaws` | a string of keys beside four sparse position-keyed maps, as a refinement of a list of records |
| `Midjourney` | pollers with stale snapshots that race through a compare-and-set and refund failed tasks |
| `RateLimiter` | the in-memory sliding-window limiter and its background eviction |
| `ObservationLimiter` | four admission counters taken in turn, rolled back in turn, released once |
| `ResponsesMachine`, `ObservationLoop`, `ObservationStream` | the Responses event machine, the two polling loops and the permit they hold |
| `BodyStorage` | replayable request bodies in memory and on disk, with their usage ledger |
| `OpusScanner` | the Ogg page scanner behind the Opus duration |
| `QuotaMath`, `TestCharge` | saturating and strict quota conversion through float64, and the three-stage charge |
| `VerificationStore` | verification codes with a garbage collection that nobody can notice |
| `Text`, `Lists`, `Wrappers` | strings, order-preserving list operations and options shared by the above |

Code that updates state in place is modelled by classes and by methods with loops, proved against functions on
values; runs and interleavings are sequences of steps over those functions. Clocks, timers, the database, the
network, the plugin and the operating system appear as parameters; times only move forward.

## What does not hold as one might expect

These promises are kept only under a condition. Each is proved as an equivalence, with the condition stated on what
a caller can see beforehand, and the failing family is shown by lemmas.

* Keys are stored in one string. A list of keys is read back as it was stored exactly when it is storable: its first
  and last key are non-blank and no key contains a newline (or the text spells a JSON array of just these keys)
  (`KeyStrings.StoreRoundTrip`). So an action does what it should exactly when it leaves the keys alone or leaves a
  storable list (`Channel.Manage`), and every sequence of actions does exactly when every part of the keys that
  deletions can leave is storable (`SafeIffStorable`). For keys that do not look like arrays this means that none is
  blank or contains a newline, or that there is a single key and no further one is recorded (`SafeIffNoBlank`).
* Blank keys do get in: a line of white space in a new channel becomes one (`CleanLines`). The number of keys recorded
  at creation is the number that is read back exactly when neither end is blank, or the text spells an array of that
  many keys (`CreatedSize`). Until an action corrects the number, indices are checked against it: deleting a key that
  is counted but not there succeeds and deletes nothing (`PhantomKey`).
* Deleting all auto-disabled keys equals filtering the list exactly when the keys that survive are storable
  (`DeleteDisabledIsFilter`). If none survives, or a lone blank one does, nothing is deleted, and the statuses are
  overwritten (`DeletingEveryKeyRevivesThem`, `LoneBlankRevivesThem`).
* Appending keys keeps the existing ones in place exactly when none of them contains a newline, the first is non-blank
  and so is the last unless a key is added (`AppendKeepsKeys`, which also covers that nothing is written, that the joined
  text is itself read as an array, and the string that looks like an array but is none, whose keys are forgotten). A
  stored array with a newline in an element loses it (`NewlineElementIsSplit`), and so does a string of newlines its
  blank key (`BlankKeyIsDisplaced`).
* A Midjourney task is refunded at most once in every interleaving exactly when nothing can be owed or answered, or
  no failing update leaves a task with a status that a polled task can have (`RefundSafety`). Where tasks may be
  submitted with any other status, this means that every reply below 100 % says FAILURE if and only if it gives a
  reason, and that no billed task is submitted as FAILURE below 100 % (`RefundSafetyIsConsistency`,
  `FailedStartPaysTwice`); a reply to a submission can do the latter (relay/mjproxy_handler.go:589-599). Interleavings
  begin at any clock: the second payment may need a run that begins before the submit time that a reply carries.
* The rate limiter counts exactly its window exactly when every maximum is positive and, where the sweeper runs, the
  window is at most one second longer than the whole seconds of the expiration (`ExactIffWellConfigured`).
* After applying a selection the stored remaining lists equal a fresh detection exactly when additions and parts
  settle (`BookkeepingIsExact`): the list is stored comma-separated and ignored names may read as `regex:` rules. For
  comma-free additions this is a condition on the rules alone (`BookkeepingOfRules`), for names that do not read as
  rules it is that no added name contains a comma (`BookkeepingAgrees`).
* The open cache files stay within the configured limit exactly when no stream that is copied straight to disk is
  longer than it declares (`UsageWithinLimit`).

## Model

| member | source | states |
|---|---|---|
| `WorkerPool.NewPool` | controller/channel-test.go:1043 | the number of workers is the configured concurrency, at least 1 and at most 32, but never above the number of channels |
| `WorkerPool.StepInv` | controller/channel-test.go:1043-1112 | every step of producer, workers, closer, reducer or cancellation keeps the invariant: each channel in one place, channels closed in order, results in transit genuine, counters and reports in step |
| `WorkerPool.EveryChannelInOnePlace` | controller/channel-test.go:1043-1112 | in every reachable state each channel is unsent, with a worker, with the reducer, dropped or reduced, in exactly one of these; it is tested and reduced at most once; at most `workerCount` tests are in flight; nobody is about to send on the closed results channel |
| `WorkerPool.NeverStuck` | controller/channel-test.go:1049-1112 | until the call has returned and every goroutine has ended, some step other than cancellation can be taken |
| `WorkerPool.EveryRunEnds` | controller/channel-test.go:1049-1112 | no run is longer than 6 * total + workers + 4 steps, and a run that cannot go on has returned with no goroutine left |
| `WorkerPool.EndedRun` | controller/channel-test.go:1099-1112 | a run that ends, cancelled anywhere or not, has reduced exactly the tests it started; each of the five counters of its summary is the sum of that counter over the folded results, the summary is coherent, and the reports count up from 0 without gaps |
| `WorkerPool.UncancelledRun` | controller/channel-test.go:1034-1112 | an uncancelled run reduces every channel once, reports exactly 0..total, and each of the five counters of its summary is the sum of that counter over the outcomes of the channels that are not skipped, in whatever order the results arrived |
| `WorkerPool.WaitsBetweenJobs` | controller/channel-test.go:1069-1077 | with a request interval a worker that has delivered a result takes no job before it has waited |
| `HealthCheck.SumAllCoherent` | controller/channel-test.go:1099-1107 | sums of coherent summaries stay coherent: tested = succeeded + failed, disabled <= failed, enabled <= succeeded |
| `HealthCheck.SelectRecoveryProbeKey` | controller/channel-test.go:934-954 | the auto-disabled key that failed first, the lowest index among equals; nothing exactly when the channel is single-key or no key is auto-disabled |
| `HealthCheck.CheckChannel` | controller/channel-test.go:956-1020 | a cancelled check counts nothing, any other counts one test; on the error, the latency and the settings, exactly when a channel is disabled, re-enabled or counted as failed; the counters are coherent whatever the test returned |
| `ModelNames.NormalizeIsNormal` | controller/channel_upstream_update.go:101-106 | normalising gives trimmed, non-empty, distinct names, exactly the listed ones |
| `ModelNames.NormalizeFixed` | controller/channel_upstream_update.go:101-106 | exactly the normal lists are left alone |
| `ModelNames.Merge` | controller/channel_upstream_update.go:108-122 | the loop over seen names gives the normalised union in order, normal, with exactly the names of both lists |
| `ModelNames.SubtractNormal` | controller/channel_upstream_update.go:124-144 | on normal lists subtraction and intersection are order-preserving filters |
| `ModelNames.SelectedIsSplice` | controller/channel_upstream_update.go:146-151 | applying a selection leaves the old names that stay, in order, followed by the additions that were missing; an addition wins over a removal |
| `UpstreamSync.CollectPending` | controller/channel_upstream_update.go:180-239 | the detection loop finds, in upstream order, the names that are not served, not a redirect target and not ignored, and, in local order, the served names that the upstream lacks and that are no redirect source |
| `UpstreamSync.ComputeApply` | controller/channel_upstream_update.go:958-1004 | what is added, dropped and left pending by a selection, and whether the model list changes, as declarative functions of the row |
| `UpstreamSync.UpstreamChannel.Apply` | controller/channel_upstream_update.go:958-1006 | the row after a selection, and the reported lists |
| `UpstreamSync.UpstreamChannel.Check` | controller/channel_upstream_update.go:513-560 | the row after a check that is throttled, fails to fetch, stores its findings or adopts them; the reported number of automatic additions is the number of pending additions |
| `UpstreamSync.DetectionFinds` | controller/channel_upstream_update.go:180-239 | name by name: found as additions are exactly the upstream names that are not served, not the target of a redirect and not ruled out by a name or pattern; found as removals exactly the served names that the upstream lacks and no redirect starts from |
| `UpstreamSync.CheckStoresDetection` | controller/channel_upstream_update.go:513-560 | a check that is neither throttled nor fails and adopts nothing stores exactly these names as pending, which is what a fresh detection finds, with the models unchanged and the time set |
| `UpstreamSync.ApplyMembers` | controller/channel_upstream_update.go:958-1004 | name by name, what applying a selection makes of the rules, the pending lists and the served names |
| `UpstreamSync.UnionOfNew` | controller/channel_upstream_update.go:537-544 | pending additions are new, so adopting them appends all of them |
| `UpstreamConvergence.StoreRoundTrip` | model/channel.go:537-542 | a normal list of comma-free names survives being stored and read back |
| `UpstreamConvergence.StoredPieces` | model/channel.go:537-542 | what is read back from any stored list of names is the normalised list of their comma-separated parts |
| `UpstreamConvergence.LocalAfterApply` | controller/channel_upstream_update.go:979-984 | after a selection the channel serves the names that stayed, followed by the new parts of the added names |
| `UpstreamConvergence.ServedAfterApply` | controller/channel_upstream_update.go:979-984 | without commas in added names, served afterwards is exactly what was served and is not removed, and what is added |
| `UpstreamConvergence.BookkeepingIsExact` | controller/channel_upstream_update.go:958-1006 | after any selection the stored remaining lists equal, as ordered lists, a fresh detection against the same upstream, if and only if additions and parts settle, with no assumption on the names |
| `UpstreamConvergence.BookkeepingOfRules` | controller/channel_upstream_update.go:986-991 | when no added name contains a comma: if and only if newly ignored names cover each other, spare the unselected pending names, and no added name was the only rule to ignore another |
| `UpstreamConvergence.BookkeepingAgrees` | controller/channel_upstream_update.go:958-1006 | for upstream names that do not read as `regex:` rules, the stored remaining lists equal a fresh detection if and only if no added name contains a comma |
| `UpstreamConvergence.CommaNameResurfaces` | controller/channel_upstream_update.go:979-984 | an added name with a comma leaves the stored list and is found again, unless a name ignored by the same selection ignores it |
| `UpstreamConvergence.RegexNameResurfaces` | controller/channel_upstream_update.go:218-224 | an ignored name that reads as a rule not matching itself leaves the stored list but is found again |
| `UpstreamConvergence.FailingFamiliesExist` | controller/channel_upstream_update.go:180-239 | two concrete channels that meet the assumptions of the two lemmas above |
| `UpstreamConvergence.ApplyAllConverges` | controller/channel_upstream_update.go:1054-1064 | applying everything detected leaves nothing to add or remove if and only if additions and parts settle; for comma-free names, if and only if no detected name was the only rule to ignore another; for plain names, if and only if none contains a comma |
| `UpstreamConvergence.AutoSyncConverges` | controller/channel_upstream_update.go:537-549 | detection with automatic adoption is a fixpoint if and only if no adopted name contains a comma |
| `UpstreamConvergence.AliasesSurvive` | controller/channel_upstream_update.go:229-237 | a redirect source on the list is still on the stored list after any selection |
| `BatchScan.BatchIsNext` | controller/channel_upstream_update.go:1012-1023 | a batch holds the next enabled ids in order and leaves out only ids beyond its last one, and only when full |
| `BatchScan.Scan` | controller/channel_upstream_update.go:712-800 | the scan ends, visits no channel twice and only enabled ones, and visits every channel enabled at every query, whatever else changes in between |
| `MultiKey.PushAppends` | controller/channel.go:2002-2026 | re-indexing one surviving key appends its record and keeps the maps in range |
| `KeyStrings.StoreRoundTrip` | model/channel.go:364-385 | a list of keys is read back as it was joined if and only if it is storable |
| `KeyStrings.ReadsArrayOrLines` | model/channel.go:364-385 | what is read and what is counted: the elements of a text that begins with a bracket and decodes, otherwise the lines between the outer newlines; an empty array counts as lines |
| `KeyStrings.CleanIsStorable` | model/channel.go:364-385 | every list of non-blank, newline-free keys that do not look like arrays is storable |
| `KeyStrings.BlankFrontIsLost` | model/channel.go:364-385 | a blank key in front of a longer list is lost when the list is read back |
| `KeyStrings.CleanLines` | controller/channel.go:712-722 | the loop gives the non-empty lines, trimmed, one by one; a blank key exactly for a line of white space |
| `KeyStrings.CreatedSize` | controller/channel.go:712-722 | the number of keys recorded at creation is the number that an update counts if and only if neither end is blank, or the text spells an array of as many keys |
| `MultiKey.AddChannel` | controller/channel.go:712-722 | a new channel has the cleaned lines as its key string, their number as its size and nothing stored about any key; storable lines are read back as its keys |
| `MultiKey.RewrittenIsFaithful` | model/channel.go:835-893 | a sound store with fewer keys, or the same ones, is read back as it was written if and only if its keys are storable or nothing is written over themselves |
| `MultiKey.DeleteDisabledIsFilter` | controller/channel.go:2062-2141 | deleting the disabled keys equals filtering, as far as key, status and priority go, if and only if the surviving keys are storable |
| `KeyAppends.AppendKeepsKeys` | controller/channel.go:1148-1222 | appending leaves the existing keys in place if and only if nothing is written; or the joined text spells an array that begins with them; or they are a broken array and the submitted lines begin with it; or no key has a newline, the first is non-blank and so is the last unless a key is added |
| `KeyAppends.InFrontIff` | controller/channel.go:1199-1220 | a list joined with further non-blank keys is read back in front of them if and only if it has no newline, its first key is non-blank and so is its last unless a key is added |
| `KeyAppends.NewlineElementIsSplit` | controller/channel.go:1158-1220 | a stored array with a newline inside an element does not keep its keys |
| `KeyAppends.BlankKeyIsDisplaced` | controller/channel.go:1167-1220 | a key string of newlines has one blank key, and does not keep it when a key is added |
| `KeyAppends.CleanAppends` | controller/channel.go:1148-1222 | clean keys stay clean and storable when unbroken lines are appended |
| `MultiKey.DisableEvery` | controller/channel.go:1923-1968 | the loop over the recorded number of keys gives exactly the enabled keys below it the status of keys switched off by hand, and counts them, keys that are not there included |
| `MultiKey.ReindexWithout` | controller/channel.go:1990-2027 | the re-indexing loop removes exactly one record, if it is there, and moves the later ones up |
| `MultiKey.ReindexSurvivors` | controller/channel.go:2062-2107 | the re-indexing loop keeps exactly the records that are not auto-disabled, in order, and counts the others |
| `KeyAppends.AppendKeys` | controller/channel.go:1199-1220 | the existing keys stay in front; behind them, without repetition, exactly the submitted keys that are not there; clean keys stay clean |
| `KeyAppends.MergeKeys` | controller/channel.go:1092-1117 | upgrading a single key puts it first, then the submitted keys; the list is normal and has exactly the keys of both; unbroken lines give clean keys |
| `MultiKey.Channel.Update` | model/channel.go:835-893 | an empty key string is not written, the size is recounted from the string, and status and priority entries beyond it are dropped |
| `MultiKey.Channel.Disable` | controller/channel.go:1814-1855 | exactly the record at the index, if it is there, changes its status, and the size is corrected |
| `MultiKey.Channel.Enable` | controller/channel.go:1857-1897 | exactly the record at the index, if it is there, is enabled, without its time and reason |
| `MultiKey.Channel.EnableAll` | controller/channel.go:1899-1921 | every record is enabled and keeps its priority; the number of stored statuses is reported |
| `MultiKey.Channel.DisableAll` | controller/channel.go:1923-1968 | every enabled record below the recorded size becomes one switched off by hand, with everything else kept, every other record is unchanged, and how many; with none nothing changes |
| `MultiKey.Channel.Delete` | controller/channel.go:1970-2060 | the last key stays; otherwise the record, if it is there, is removed if and only if the remaining keys are storable (or nothing is written over themselves) |
| `MultiKey.Channel.DeleteDisabled` | controller/channel.go:2062-2141 | the survivors remain in order if and only if their keys are storable; without survivors the old keys come back, reset |
| `MultiKey.Channel.SetPriority` | controller/channel.go:2143-2199 | exactly one record changes its priority, and no zero is stored |
| `MultiKey.Channel.Append` | controller/channel.go:1148-1222 | the whole row after appending, and that records stay at their index with enabled keys behind them when the string is no broken array and the longer list is storable |
| `MultiKey.Channel.Upgrade` | controller/channel.go:1092-1117 | a single-key channel is upgraded exactly by several submitted keys; the row is that of the merged list without any entry; storable, all its keys are enabled in the default tier, and the old key comes first when no line is broken |
| `MultiKey.Channel.Manage` | controller/channel.go:1814-2199 | for any recorded size, the answer is that of the listing; the action does to the row what it does to the listing if and only if it leaves the keys alone or leaves storable keys; unless refused it corrects the size |
| `MultiKey.Channel.ManageAll` | controller/channel.go:1814-2199 | the same through every sequence of actions that leave storable keys, with entries in range, priorities 1..100 and no stored zero |
| `MultiKeyLaws.DeletingEveryKeyRevivesThem` | controller/channel.go:2117-2129 | with no survivor all keys are reported deleted and all are back, enabled, without priority |
| `MultiKeyLaws.LoneBlankRevivesThem` | controller/channel.go:2117-2129 | with a lone blank survivor none of the keys is deleted |
| `MultiKeyLaws.PhantomKey` | controller/channel.go:712-722 | a channel created from lines with white space at an end records more keys than it has; deleting the last of them succeeds and deletes nothing |
| `MultiKeyLaws.EachRecord` | controller/channel.go:1814-2199 | what each action that deletes nothing does to each record, field by field |
| `MultiKeyLaws.Answers` | controller/channel.go:1814-2199 | what each action answers, with the counts as numbers of positions |
| `MultiKeyLaws.DeletesAutoDisabled` | controller/channel.go:2062-2141 | deleting the disabled keys deletes exactly those with status 3 while a key is left; key, status and priority of the others stay, in order |
| `MultiKeyLaws.LeftByDeletion` | controller/channel.go:2084-2106 | an enabled key that is left loses the time and reason of an earlier disabling, and nothing else changes |
| `MultiKeyLaws.DisableThenDelete` | controller/channel.go:1923-2141 | disabling all keys and then deleting the disabled ones deletes exactly the keys that were automatically disabled before |
| `MultiKeyLaws.CleanKeepsAll` | controller/channel.go:1814-2199 | on clean keys every sequence of actions leaves storable, clean keys |
| `MultiKeyLaws.SafeIffStorable` | controller/channel.go:1814-2199 | every sequence of actions refines the listing if and only if every proper part of the keys is storable, and all of them are where more are recorded |
| `MultiKeyLaws.SafeIffNoBlank` | controller/channel.go:1814-2199 | for keys that do not look like arrays: every sequence of actions refines the listing if and only if no key is blank or has a newline, or there is a single key and no more are recorded (or it is blank) |
| `MultiKeyLaws.DeletingOneByOne` | controller/channel.go:1970-2060 | deleting the auto-disabled keys one at a time, in any order, leaves the filtered list |
| `MultiKeyLaws.BulkEqualsOneByOne` | controller/channel.go:1970-2141 | the bulk action and every one-by-one order agree on key, status and priority while a key survives, and with clean keys both are what is stored |
| `MultiKeyLaws.PrioritiesInRange` | controller/channel.go:2167-2188 | every effective priority is 0..100, and zero exactly when nothing is stored |
| `MultiKeyLaws.KeysOnlyDisappear` | controller/channel.go:1814-2199 | through any actions the keys that remain are a subsequence of the original keys |
| `Midjourney.SkipsOnlyNoOps` | controller/midjourney.go:202-255 | an unfinished task is skipped exactly when writing the reply would change nothing but buttons and properties |
| `Midjourney.StepInv` | controller/midjourney.go:307-491 | with separate statuses every step of any poller, submission or bulk failure keeps rows, snapshots and payments consistent |
| `Midjourney.RefundedAtMostOnce` | controller/midjourney.go:307-491 | with separate statuses, in every interleaving, a task is refunded at most once, with what it was billed, and then is at 100 % with a failing status |
| `Midjourney.PaysOnFailureOnly` | controller/midjourney.go:168-183 | the only step that pays is a winning reply that moves a task to a failing status at 100 % |
| `Midjourney.SettledForGood` | controller/midjourney.go:307-491 | a billed task with a failing status keeps one, and nothing more is paid for it |
| `Midjourney.RefundsExactlyFailures` | controller/midjourney.go:433-491 | a reply to an unfinished task pays back what it cost exactly when the task is late, or the reply says FAILURE at 100 % or gives a reason below, the status is still that of the snapshot, the task cost something and the payment works |
| `Midjourney.RefundedExactlyOnce` | controller/midjourney.go:307-491 | with separate statuses a billed task that such a reply ends has exactly one payment, of what it was billed, after every interleaving |
| `Midjourney.RowAfterReply` | controller/midjourney.go:433-487 | the row after a reply, field by field, and exactly when it is not written |
| `Midjourney.BulkFailure` | controller/midjourney.go:332-372 | failing rows in bulk sets status, progress and reason and pays nothing |
| `Midjourney.ClearingTakesQuota` | service/midjourney.go:134-137 | clearing after a refund sets the quota of the row to zero |
| `Midjourney.SharedStatusPaysTwice` | controller/midjourney.go:168-183 | a status that is both live and left behind by a failing update lets two pollers with one snapshot both win and pay |
| `Midjourney.RefundSafety` | controller/midjourney.go:307-491 | for any tasks that may be submitted and any replies: no interleaving refunds twice if and only if there is nothing to pay or no failing update leaves a status that a polled task can have |
| `Midjourney.FailedStartPaysTwice` | relay/mjproxy_handler.go:589-599 | a billed task submitted as FAILURE below 100 % is paid for twice after any late reply |
| `Midjourney.RefundSafetyIsConsistency` | controller/midjourney.go:307-491 | where tasks may be submitted with every status but FAILURE: no interleaving refunds twice if and only if there is no reply at all, or every reply is consistent and no billed task is submitted as FAILURE below 100 % |
| `RateLimiter.InMemoryRateLimiter.Request` | common/rate-limit.go:45-70 | the decision and the new queues, with no empty queue stored |
| `RateLimiter.InMemoryRateLimiter.Sweep` | common/rate-limit.go:28-43 | exactly the keys whose last request is older than the expiration are forgotten, in any iteration order |
| `RateLimiter.TrackedDecision` | common/rate-limit.go:45-70 | a queue that is the tail of the accepted times decides by the number accepted in the window |
| `RateLimiter.MisconfiguredIsWrong` | common/rate-limit.go:28-70 | a non-positive maximum, or a window longer than the whole seconds of the expiration plus one, has a run with a wrong decision |
| `RateLimiter.ExactIffWellConfigured` | common/rate-limit.go:28-70 | in every run, whatever is evicted, a request is accepted exactly when fewer than the maximum were accepted in the window, if and only if the limiter is well configured |
| `ObservationLimiter.Limiter.TakeInTurn` | controller/plugin_protocol_limiter.go:80-131 | the first exhausted scope decides, and a refusal at any step restores the exact prior counters |
| `ObservationLimiter.Limiter.Acquire` | controller/plugin_protocol_limiter.go:65-157 | an invalid identity or an exhausted scope is refused with nothing changed; otherwise all four counters are taken and a live permit is handed out |
| `ObservationLimiter.Limiter.Release` | controller/plugin_protocol_limiter.go:133-156 | the counters are given back once; a second release changes nothing |
| `ObservationLimiter.CountersMatchPermits` | controller/plugin_protocol_limiter.go:65-157 | in every reachable state each counter equals the live permits of its dimension, stays within its limit, and no map holds a zero |
| `ObservationLimiter.GrantedIffRoom` | controller/plugin_protocol_limiter.go:65-131 | in every reachable state a valid request is granted if and only if each of its four dimensions has fewer live permits than its limit; otherwise the answer is the first full dimension, in order |
| `ObservationLimiter.GrantAddsPermit` | controller/plugin_protocol_limiter.go:133-157 | a grant adds one live permit of the request, and a refusal none |
| `ObservationLimiter.ReleaseOnce` | controller/plugin_protocol_limiter.go:133-156 | in every reachable state releasing twice is releasing once, and releasing what was just acquired restores the counters |
| `ObservationLimiter.PermitLifetime` | controller/plugin_protocol_limiter.go:65-157 | whatever other requests do meanwhile, a permit counts exactly from its acquisition to its release and never again |
| `ObservationLimiter.ServedAmongOthers` | controller/plugin_protocol_limiter.go:65-157 | in every reachable state a request that is admitted, served among any other requests and ended leaves its permit released, and without others the counters as they were |
| `ResponsesMachine.CheckBatch` | relay/plugin_protocol.go:456-494 | a batch passes exactly when each event is valid, as stated on its fields, and the outputs, counted and in bytes, stay within the limits |
| `ResponsesMachine.Machine.CreatedEvent` | relay/plugin_protocol.go:430-442 | a stream is opened once, by its created event |
| `ResponsesMachine.Machine.AppendOutput` | relay/plugin_protocol.go:855-921 | an output is sent as its six events in order, with its position and one text, and the stream stays well formed |
| `ResponsesMachine.Machine.EmitBatch` | relay/plugin_protocol.go:497-519 | the outputs before the first error event are appended, and an error event ends the stream |
| `ResponsesMachine.Machine.ApplyTick` | relay/plugin_protocol.go:444-532 | a batch that does not fit changes nothing; otherwise the stream grows by it and ends exactly as status, error or `done` demand |
| `ResponsesMachine.Machine.EndEvent` | relay/plugin_protocol.go:537-561 | failure and timeout end a stream that has begun and not ended, and nothing else |
| `ObservationLoop.WithDefaults` | controller/plugin_protocol.go:84-132 | every duration is positive, a positive setting is kept and any other replaced by its default, and a load ends before half a heartbeat |
| `ObservationLoop.TickDelay` | controller/plugin_protocol.go:1200-1209 | the delay lies between the base and the base plus the jitter |
| `ObservationLoop.TickSpread` | controller/plugin_protocol.go:1200-1209 | every delay in that range occurs, and the hash decides modulo their number |
| `ObservationLoop.FirstErrorStays` | controller/plugin_protocol.go:404 | the observation context fails with whichever comes first, the client leaving or the deadline, and keeps that error |
| `ObservationLoop.LoadsBounded` | controller/plugin_protocol.go:662-829 | a round that begins before the deadline is among the first timeout / interval + 1 |
| `ObservationLoop.NextPaced` | controller/plugin_protocol.go:798-804 | rounds are at least one tick interval apart, and two after an overloaded round |
| `ObservationLoop.WaitRound` | controller/plugin_protocol.go:662-828 | a round goes on exactly when the timer fired and the load was overloaded, the task is pending, or its final call waits for admission; otherwise it ends with one justified response, or none after the client left |
| `ObservationLoop.Wait` | controller/plugin_protocol.go:639-829 | every run writes exactly one response unless the client has left, then at most one; the response has its cause in the last round and no earlier round settled the request; loads are at most timeout / interval + 2 |
| `ObservationStream.PrefixWellFormed` | controller/plugin_protocol.go:574-579 | what is delivered before a write fails is itself a well-formed stream: numbered, of whole items, with nothing after its end |
| `ObservationStream.TerminalIsLast` | controller/plugin_protocol.go:1211-1219 | in an emitted batch a terminal event is the last one, so the scan for one tells whether the stream has ended |
| `ObservationStream.Render` | controller/plugin_protocol.go:486-586 | from the loaded task to the written batch: the stream goes on with everything delivered, or has ended for a stated cause |
| `ObservationStream.StreamRound` | controller/plugin_protocol.go:412-611 | one round adds exactly what it rendered; it goes on exactly when the timer fired and it was overloaded, waits for admission, or rendered a batch that fits and leaves the stream open, unless a write failed |
| `ObservationStream.Stream` | controller/plugin_protocol.go:372-612 | the client gets a well-formed stream with nothing after its terminal event, carrying exactly what the rounds rendered; it ends with a caused terminal event unless a write failed or the client left; loads are at most timeout / interval + 2 |
| `ObservationStream.Admitted` | controller/plugin_protocol.go:224-369 | which reply or stream each submission outcome leads to, never both |
| `ObservationStream.Serve` | controller/plugin_protocol.go:206-369 | whatever other requests acquire and release meanwhile, on every path the permit is released when the request ends, and the limiter is where the others have brought it; only a client that left or cannot be written to gets neither reply nor stream |
| `BodyStorage.ReadsAddUp` | common/body_storage.go:62-69 | whatever sizes are asked for and whatever portions come back, the pieces read from the cursor up to the end add up to the rest of the body |
| `BodyStorage.SeekGoes` | common/body_storage.go:71-78 | a seek goes to the offset counted from the start, the cursor or the end, refuses anything before the start, and a refused seek moves nothing |
| `BodyStorage.File.ReadFull` | common/body_storage.go:244-248 | reading in full gathers all bytes from any portions |
| `BodyStorage.MemoryStorage.Read` | common/body_storage.go:62-69 | refines the abstract read; a closed storage refuses |
| `BodyStorage.MemoryStorage.Seek` | common/body_storage.go:71-78 | refines the abstract seek; a failed seek moves nothing |
| `BodyStorage.MemoryStorage.Close` | common/body_storage.go:80-87 | closes once and gives its size back once |
| `BodyStorage.MemoryStorage.NewReader` | common/body_storage.go:98-108 | a new reader at the start of the same bytes, refused once closed |
| `BodyStorage.DiskStorage.Read` | common/body_storage.go:196-203 | refines the same abstract read |
| `BodyStorage.DiskStorage.Seek` | common/body_storage.go:205-212 | refines the same abstract seek |
| `BodyStorage.DiskStorage.Close` | common/body_storage.go:214-223 | closes once and gives its size back once |
| `BodyStorage.DiskStorage.Bytes` | common/body_storage.go:225-257 | returns the whole body and leaves the cursor where it was |
| `BodyStorage.DiskStorage.NewReader` | common/body_storage.go:259-275 | a second descriptor at the start of the same bytes, refused once closed |
| `BodyStorage.ReplayFromDisk` | common/body_storage.go:259-275 | whatever reads, seeks, other readers and closing are interleaved, what a reader delivers adds up to the whole body |
| `BodyStorage.ReplayFromMemory` | common/body_storage.go:98-108 | the same for a storage in memory |
| `BodyStorage.Ledger.Decrement` | common/disk_cache_config.go:115-134 | counters go down by one storage, and only the disk counters stop at zero |
| `BodyStorage.Create` | common/body_storage.go:286-304 | always succeeds with identical contents, on disk exactly when enabled, large enough, within the limit and the disk works |
| `BodyStorage.CreateFromReader` | common/body_storage.go:307-348 | succeeds exactly when the stream is at most `maxBytes` long and readable (and the disk works when copied straight there), with identical contents; a size error only for a longer stream; only a handed-out storage is counted |
| `BodyStorage.CountersMatchOpenStorages` | common/disk_cache_config.go:109-134 | after every run of creations and closes the counters are the number and the total size of the open storages |
| `BodyStorage.UsageWithinLimit` | common/disk_cache_config.go:170-177 | where every honest stream may arrive, the open files stay within the limit in every sequential run if and only if no stream copied straight to disk is longer than it declares |
| `BodyStorage.UnderstatedLengthExceedsLimit` | common/body_storage.go:311-314 | every stream that is copied straight and understates its size exceeds the limit after one honest stream |
| `OpusScanner.LittleEndianRoundTrip` | common/audio.go:229 | decoding an encoded integer gives it back |
| `OpusScanner.GranuleRoundTrip` | common/audio.go:229 | the same for signed granule positions |
| `OpusScanner.CaptureIsOggS` | common/audio.go:220 | the capture pattern is the text OggS |
| `OpusScanner.ScanRound` | common/audio.go:207-249 | each round moves the cursor forward and leaves the rest of the scan the same answer, or ends with it |
| `OpusScanner.OpusDuration` | common/audio.go:196-254 | ends on every byte string with the scanned granule position over 48000 |
| `OpusScanner.ScanFindsLargestGranule` | common/audio.go:196-254 | on well-formed pages (section 6 of RFC 3533), after any bytes in which no capture pattern begins, the result is the largest signed granule position, or zero if none is positive |
| `QuotaMath.RoundedIsNearest` | common/quota_math.go:129-142 | an integer is the rounded value exactly when it is nearest, and farther from zero on a tie |
| `QuotaMath.TruncatedTowardZero` | common/quota_math.go:86-100 | an integer is the truncated value exactly when it is on the same side of zero and less than one closer to it |
| `QuotaMath.SaturateInRange` | common/quota_math.go:86-100 | the result is in range; each clamp is reported with its kind and bound exactly for its values; otherwise the value is truncated toward zero |
| `QuotaMath.SaturateMonotone` | common/quota_math.go:86-100 | saturation is monotone on everything but NaN |
| `QuotaMath.RoundQuotaMonotone` | common/quota_math.go:140-142 | so is rounding saturation |
| `QuotaMath.NearestIsNearest` | common/quota_math.go:172-175 | nothing with a 53-bit significand is closer to an integer than its conversion |
| `QuotaMath.NearestIsRepresentable` | common/quota_math.go:172-175 | the conversion has a 53-bit significand |
| `QuotaMath.TiesToEven` | common/quota_math.go:172-175 | halfway between two multiples the even one is taken |
| `QuotaMath.FloatOverflows` | common/quota_math.go:172-175 | the conversion is infinite exactly when the nearest value is 2^1024 or more |
| `QuotaMath.ThroughFloat` | common/quota_math.go:159-175 | within 53 bits the detour through float64 gives the clamped integer and reports a clamp exactly when it is out of range |
| `QuotaMath.WalletIsExact` | common/quota_math.go:170-175 | the wallet conversion succeeds exactly when the rounded decimal has magnitude at most 2^53 - 1, and then returns it |
| `QuotaMath.DecimalIsClampedRound` | common/quota_math.go:157-162 | the decimal conversion is the rounded value clamped to int32 |
| `QuotaMath.DecimalMonotone` | common/quota_math.go:157-162 | and therefore monotone |
| `QuotaMath.StrictAgrees` | common/quota_math.go:102-168 | in each family the strict form succeeds exactly when the saturating form does not clamp, with equal results, and that is when the value is in range |
| `TestCharge.Charge` | controller/channel-test.go:556-565 | the staged reassignment gives a charge in 0..MaxQuota, at least one unless the model is free and zero if it is, and without clamping within max(1, (modelRatio + 1) / 2) of the exact price |
| `TestCharge.ChargeMonotone` | controller/channel-test.go:556-565 | more tokens of either kind never cost less |
| `TestCharge.ChargeInRange` | controller/channel-test.go:556-565 | the charge is in 0..MaxQuota, at least one for a positive model ratio and zero for a zero one |
| `TestCharge.ChargeError` | controller/channel-test.go:556-565 | without clamping the charge differs from the exact price by at most max(1, (modelRatio + 1) / 2) |
| `VerificationStore.Store.Register` | common/verification.go:35-45 | the code is stored and, above ten entries, the expired ones are removed |
| `VerificationStore.Store.RemoveExpired` | common/verification.go:65-72 | exactly the expired entries are removed, in any iteration order |
| `VerificationStore.Store.Verify` | common/verification.go:47-56 | a code is accepted exactly when it is stored for that purpose and key and not expired |
| `VerificationStore.Store.Delete` | common/verification.go:58-62 | exactly the entry of that purpose and key is gone |
| `VerificationStore.PurposesDoNotInterfere` | common/verification.go:16-19 | the two purposes never share a key of the map |
| `VerificationStore.StoreIsFaithful` | common/verification.go:35-72 | after every run the store holds what the last operation on a key and purpose left, unless it has expired |
| `VerificationStore.VerifiesExactlyTheLastCode` | common/verification.go:47-56 | a code is accepted exactly when the last operation on its key and purpose registered that code less than ten minutes ago |

## Left out

- HTTP handlers, JSON binding, logging, audit entries and notifications: no invariant beyond the functions they call.
- OAuth, passkeys, sessions, payments, deployments, other audio formats, URL checks: library-bound or external.
- The regular-expression engine: `regex:` rules use an uninterpreted matcher.
- Map iteration order and goroutine scheduling are arbitrary in the model; preemption inside a modelled step is not.
- The Midjourney notify callback in relay/mjproxy_handler.go, a further writer of the same rows; one reply lists each task at most once. Nor the settlement after insertion, which clears the quota of a task whose charge failed.
- Midjourney.RefundSafety: ranges over every starting clock, also one before the submit times that replies carry.
- Heartbeat comments of a stream: only a failing heartbeat is modelled; metadata and usage fields of response events are not.
- RateLimiter.InMemoryRateLimiter.Request: a negative maximum, for which the source panics when it allocates the queue of a new key.
- RateLimiter.ExactIffWellConfigured: limits per key are fixed over a run and the clock does not go back.
- BodyStorage.UsageWithinLimit: sequential; two creations that check the limit at the same time can exceed it together.
- MultiKey.Channel.Manage: not for a key string that spells an empty JSON array, which GetKeys reads as no key and Update counts as one; the JSON decoder itself is a parameter.
- MultiKeyLaws.SafeIffNoBlank: for keys that do not look like arrays; for others, whose text is up to the JSON decoder, the condition is that of `SafeIffStorable`.
- The `replace` mode of UpdateChannel and the automatic status changes of keys.
- Cleanup, reset and resynchronisation of the disk counters, which change them independently of open storages.
- Read errors of the operating system on an open cache file, and int64 overflow of seek offsets and of `maxBytes + 1`.
- OpusScanner.OpusDuration: reads from an in-memory reader, whose reads are never short before the end; the division is over reals.
- TestCharge.ChargeError: over real arithmetic, without the float64 rounding of the products; fixed prices and tiered settlement are not modelled.
- QuotaMath.FromFloat: finite float64 values are any reals; the text of a clamp record is not modelled.
- VerificationStore.Store.Register: the two clock readings of one registration are taken as one.
- The final Responses document of a plain request is a kind of response, not its fields.
