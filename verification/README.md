# A verified model of the bundle submission stack

The system submits bundles of transactions to the Jito block engine, follows each one through its
commitment stages, and decides what to do when one fails. This project models the parts of it that keep
state or make promises over time, and proves those promises for every input, every run and every
interleaving. `dafny verify dfyconfig.toml` checks all of it.

**The lifecycle tracker** (`lifecycle_*.dfy`) is the core. A bundle goes from Submitted through Processed,
Confirmed and Finalized, or to Failed. The tracker keeps a map of pending bundles, a map from signatures,
two indices keyed by slot, a slot clock, and a table from which a new process rebuilds all of these.

- `lifecycle_rows.dfy` and `lifecycle_model.dfy` say what each operation means for one bundle, seen by
  itself. There are no indices here: a stream event is applied by scanning every bundle. The theorems about
  runs are proved of this machine.
- `lifecycle_inner.dfy` and `lifecycle_tracker.dfy` are the tracker as it is written, with its maps and
  indices updated in place. Each of its operations is proved to be exactly one step of the machine, so that
  whatever holds for all runs of the machine holds for the tracker.
- `lifecycle_passes.dfy` adds the reconcile passes under way, each with the rows it found open when it began.
- `lifecycle_columns.dfy` says the same once more without memory, indices or writes: what every operation does
  to the columns of a row, from the row and the slot clock alone. `lifecycle_clock.dfy` says what that clock is.
- The other `lifecycle_*.dfy` files hold the theorems: crashes are invisible, histories are lawful, reconcile
  works from an out-of-date view, lost slot updates only delay, sweeps give the right verdicts.

Clock readings, the database, the remote node and the model behind the agent enter as arguments. One lock
section together with the writes it makes is one step, in order; that is the contract of
`ingest_and_persist`.

**Around the core** are the rate limiter as a concurrent protocol (`rate_limiter.dfy`), the leader-window
search and its tracker (`leader.dfy`), the stream's forwarding task (`stream.dfy`) with its end-to-end
consequence for the tracker (`stream_to_lifecycle.dfy`), the retry loop (`agent.dfy`, `retry.dfy`) and
everything that runs beside it (`pipeline.dfy`), the classifier and its two hexadecimal printers
(`failure.dfy`), and the URL redactor (`redaction.dfy`, `redaction_spans.dfy`, `redaction_shown.dfy`).

## What turned out to have a condition

Some promises hold only under a condition that the code does not check or the documentation does not
mention. Each is proved as an equivalence, or with a concrete input on the other side.

- Losing slot updates is harmless, whichever are lost, exactly when two kinds of error stay away: one on the
  stream for a bundle that is Confirmed or Finalized and would still be Processed without slot updates, and
  one answered to a reconcile pass that found its bundle Finalized where, without slot updates, it would have
  asked for it. With no answers to reconcile passes that is an error for any Confirmed or Finalized bundle
  (`HarmlessIffTimely`, `HarmlessIffErrorsAreEarly`, `LateErrorOvertakes`, `PassErrorOvertakes`).
- What backpressure drops only delays; what is in the channel when the process ends is lost for good, and a
  bundle whose success was there stays Submitted until a reconcile pass or a sweep comes
  (`BackpressureIsHarmless`, `CrashLosesTheChannel`).
- A history is lawful exactly when no rejection and no error status is recorded for a bundle that is no
  longer tracked: neither `record_rejection` nor the error branch of `reconcile` looks, so a bundle that the
  stream finalizes while a pass is under way can be failed afterwards (`RunIsLawful`, `RejectedTwice`,
  `ReconcileRace`).
- A crash leaves no trace in the table, whatever follows it, exactly when at each later sweep the rebuilt
  clock times out the bundles that the lost one would; the clock is not stored, and can be behind
  (`CrashWithSweeps`, `SweepAfterCrash`, `SweepsCanDiffer`). The next slot update mends that
  (`CrashHealsAtNextSlot`).
- The limiter keeps to its rate in every one-second window exactly when the rate divides 10^9, because the
  interval is rounded down. The documented tiers of 1 and 5 do (`RateIsKeptIffItDivides`).
- A High caller goes ahead of every Low one that has not reserved yet, as the limiter's comment has it, exactly
  when none of them is past its check when it raises the count; each of those that are can go first
  (`GoesFirstIffNonePastCheck`, `OvertakersArePastCheck`), and from the start one does (`LowGoesFirst`).
- Looking at one slot of each group finds what a full scan finds exactly when the schedule begins no later
  than the next group, or on a boundary (`GroupSteppingIsFullScan`). The leader tracker keeps to the first
  in every interleaving of events and refreshes (`RunStaysBehind`). A call that has read the clock before a
  schedule is installed need not be so lucky, and can report no leader although one is ahead
  (`SplitCallsAreTrueIffAligned`, `SplitCallMisses`).
- Every tip sent is within the cap unless the table holds a row, written under a larger cap, that can still
  time out: a retry starts from the tip in the row, and only a tip that the agent sets is clamped
  (`OvershootsOnlyFromLooseRow`).
- An outbid tip that is doubled by the fallback never falls exactly when it starts within the cap
  (`FallbackDoubles`).
- The empty error is the one value that neither printer's output gives back (`PrintersInvertParser`).

Where the code and its comments disagree the model follows the code. `record_jito_status` is described as
doing nothing for terminal rows, but its UPDATE is unconditional (`JitoStatusReachesTerminalRow`). The first
comment above `next_jito_leader` says that it can return the current slot; it returns the start of a later
group. The repository's README gives the stale-blockhash fault as a source of ExpiredBlockhash; a sweep can
never give that verdict, since submission stores one slot in both columns (`SweepVerdicts`).

## Model

| member | source | states |
|---|---|---|
| LifecycleModel.StepKeepsInv | crates/lifecycle/src/lib.rs:416-692 | every operation keeps memory equal to what hydration would read from the open rows, and keeps every row's columns in order for its stage |
| LifecycleModel.TableMirrorsMemory | crates/lifecycle/src/lib.rs:948-978 | in every reachable state the open rows are exactly the pending bundles, equal on every hydrated field |
| LifecycleModel.LatenciesTelescope | crates/lifecycle/src/lib.rs:301-355 | in every reachable table, across crashes and reconcile, three filled deltas add up to finalized minus submitted, and a row finalized straight from Processed has no confirm deltas |
| LifecycleColumns.RowsSpeakForThemselves | crates/lifecycle/src/lib.rs:301-387 | in every consistent state every operation leaves every row with exactly the columns that the row, the operation and the slot clock give: times, slots, deltas, sources and verdicts |
| LifecycleColumns.MemoryAddsNothing | crates/lifecycle/src/lib.rs:401-692 | over any run the table is what it would be if every operation went by the rows alone |
| LifecycleColumns.ColumnsAreAccountedFor | crates/lifecycle/src/lib.rs:770-863 | in every reachable table the processed, confirmed and finalized times, the landed slot and the sources of a row are those of one operation that reported that stage for it, and the verdict of a failed row is that of one failure reported for it |
| LifecycleColumns.OneVerdictStored | crates/lifecycle/src/lib.rs:614-633 | an error in the print of the stream and the same error in the print of reconcile leave one verdict in the row of a Submitted or Processed bundle: the kind and confidence that its decoded bytes call for |
| LifecycleColumns.UncheckedVerdicts | crates/lifecycle/src/lib.rs:491-503 | a rejection leaves the verdict of the rejection rules in the row whatever its stage, and an error found by reconcile that of the error |
| LifecycleClock.ClockIsGreatestSlot | crates/lifecycle/src/lib.rs:721-728 | with no crash the slot clock is the greatest slot of any update seen, in whatever order they came, and 0 if there was none |
| LifecycleClock.ClockNeverFalls | crates/lifecycle/src/lib.rs:721-728 | no operation but a crash lowers the clock, and it takes no slot but from an update |
| LifecycleClock.ClockAfterCrash | crates/lifecycle/src/lib.rs:980-988 | after a crash it is the greatest of the landed and submission slots in the open rows and the slots seen since |
| LifecycleClock.SubmissionIsRemembered | crates/lifecycle/src/lib.rs:416-468 | whatever happens later, a submission has a row of its own with its signature, slot, time, tip and percentiles, and the last Jito status polled for it |
| LifecycleInner.Inner.MarkProcessed | crates/lifecycle/src/lib.rs:770-796 | only a Submitted bundle moves, its write carries slot, time and first delta, and it enters the confirm index; the invariant of the four maps is kept |
| LifecycleInner.Inner.MarkConfirmed | crates/lifecycle/src/lib.rs:798-819 | only a Processed bundle moves; it enters the finalize index and may stay behind in the confirm index |
| LifecycleInner.Inner.MarkFinalized | crates/lifecycle/src/lib.rs:821-837 | only a Processed or Confirmed bundle moves, and is then forgotten |
| LifecycleInner.Inner.FailLanded | crates/lifecycle/src/lib.rs:839-863 | only a Submitted or Processed bundle fails, with the landed slot and first delta written |
| LifecycleInner.Inner.Forget | crates/lifecycle/src/lib.rs:866-874 | a forgotten bundle is in none of the four maps, and everything else stays |
| LifecycleInner.RemoveOk | crates/lifecycle/src/lib.rs:876-883 | removing an id from its own slot's entry removes every trace of it from that index and nothing else |
| LifecycleInner.DrainLe | crates/lifecycle/src/lib.rs:886-895 | exactly the entries at slots up to n are taken out, and the ids returned are those they held |
| LifecycleInner.Inner.ConfirmUpTo | crates/lifecycle/src/lib.rs:729-734 | a Confirmed update for n confirms exactly the Processed bundles landed by n, with one write each |
| LifecycleInner.Inner.FinalizeUpTo | crates/lifecycle/src/lib.rs:735-743 | a Finalized update for n finalizes exactly the Processed and Confirmed bundles landed by n, with one write each even for an id in both indices |
| LifecycleInner.Inner.ApplyEvent | crates/lifecycle/src/lib.rs:721-768 | the indices refine a scan: for every id, what becomes of it and what is written for it is what looking at every bundle would give, the clock moves as `ClockIsGreatestSlot` says, and the invariant of the four maps is kept |
| LifecycleTracking.Hydrate | crates/lifecycle/src/lib.rs:921-988 | rows read in any order rebuild exactly the open rows' records, the greatest slot among them as clock, and valid indices |
| LifecycleTracking.LifecycleTracker.RecordSubmission | crates/lifecycle/src/lib.rs:416-468 | a new Submitted row with one slot in both slot columns, and its record in memory, are one step of the machine |
| LifecycleTracking.LifecycleTracker.RecordJitoStatus | crates/lifecycle/src/lib.rs:474-487 | the status reaches the row whatever its stage, and the record if there is one |
| LifecycleTracking.LifecycleTracker.RecordRejection | crates/lifecycle/src/lib.rs:491-503 | the bundle is forgotten and its row failed without looking at its stage |
| LifecycleTracking.LifecycleTracker.IngestAndPersist | crates/lifecycle/src/lib.rs:525-534 | an event with its writes in order is one step of the machine on memory and table |
| LifecycleTracking.LifecycleTracker.CheckTimeouts | crates/lifecycle/src/lib.rs:539-581 | a sweep reports, once each, and fails exactly the Submitted bundles over the age limit |
| LifecycleTracking.LifecycleTracker.ApplySigStatus | crates/lifecycle/src/lib.rs:607-692 | one status of a reconcile pass, judged by the stage its row had when the pass began, is one step of the machine, and so leaves the columns of `RowsSpeakForThemselves` and the verdict of `OneVerdictStored` |
| LifecycleTracking.LifecycleTracker.Reconcile | crates/lifecycle/src/lib.rs:586-692 | a whole pass asks once for every open row and applies the answers in order, as that run of the machine |
| LifecycleTracking.JitoStatusReachesTerminalRow | crates/lifecycle/src/lib.rs:474-487 | a status polled for a bundle no longer tracked changes that one column of its row and nothing else |
| LifecycleTracking.LifecycleTracker.PerformAll | crates/lifecycle/src/lib.rs:401-692 | over any sequence of operations, each submission under a signature no bundle tracked at the time has, tracker and machine stay equal and the invariant of the maps holds |
| LifecycleTracking.CrashBisimulation | crates/lifecycle/src/lib.rs:921-988 | a live tracker and one restarted on its table, whose confirm indices may differ, have the same table and the same pending bundles after any further operations but sweeps, submissions under new signatures included |
| LifecycleRecovery.CrashIsInvisible | crates/lifecycle/src/lib.rs:921-988 | a crash at any point of any run changes neither table nor memory afterwards, sweeps apart |
| LifecycleRecovery.CrashHealsAtNextSlot | crates/lifecycle/src/lib.rs:721-728 | after one slot update at or above both clocks the run with the crash and the one without are the same in everything, later sweeps included |
| LifecycleRecovery.CrashWithSweeps | crates/lifecycle/src/lib.rs:539-581 | over any continuation, sweeps included, the run with the crash and the one without have the same table at every point, if and only if at each sweep both clocks time out the same bundles |
| LifecycleRecovery.SweepAfterCrash | crates/lifecycle/src/lib.rs:539-581 | a sweep after the crash leaves the same table if and only if the rebuilt clock times out the same bundles |
| LifecycleRecovery.SweepsCanDiffer | crates/lifecycle/src/lib.rs:980-988 | a run in which they do not: the bundle swept without the crash stays Submitted after it |
| LifecycleTraces.LawfulIsAutomaton | crates/lifecycle/src/lib.rs:63-72 | two independent definitions of a lawful history, over all pairs of writes and step by step, agree |
| LifecycleTraces.StepIsLawful | crates/lifecycle/src/lib.rs:770-863 | one operation never lowers a row's stage and continues its history lawfully, unless it is an unchecked failure of a bundle no longer tracked |
| LifecycleTraces.RunIsLawful | crates/lifecycle/src/lib.rs:491-503 | over every run with crashes, stage ranks strictly increase, Confirmed and Finalized come only after Processed, and nothing follows a terminal write, if and only if no failure is recorded late |
| LifecycleTraces.RejectedTwice | crates/lifecycle/src/lib.rs:491-503 | a bundle rejected twice has an unlawful history |
| LifecycleReconcile.StagesNeverFall | crates/lifecycle/src/lib.rs:63-72 | over every run the stage of a row never goes down |
| LifecycleReconcile.ReconcileFromStaleSnapshot | crates/lifecycle/src/lib.rs:586-692 | with any operations between the row read and the apply, a non-error status takes a pending bundle to exactly the higher of its own and the reported stage, writes each stage between in order, and writes nothing for a bundle that became terminal |
| LifecycleReconcile.PassIsComplete | crates/lifecycle/src/lib.rs:586-692 | after an undisturbed pass every open row whose status came back is at the higher of the two stages, or Failed on a reported error |
| LifecyclePasses.ProceedKeepsOk | crates/lifecycle/src/lib.rs:590-609 | however many passes are under way and whatever comes between, no stage a pass has read is above that of its row, and every bundle asked for has a row |
| LifecyclePasses.PassIsItsAnswers | crates/lifecycle/src/lib.rs:586-692 | a pass taken apart into its reading of the open rows and its answers, with nothing in between, is the pass as a whole |
| LifecycleSweep.SweepVerdicts | crates/lifecycle/src/lib.rs:539-581 | in every reachable state a sweep fails exactly the overdue Submitted rows and leaves the others as they were; the verdict is FeeTooLow or AuctionLost and never ExpiredBlockhash |
| LifecycleClock.SweepsGoByTheGreatestSlot | crates/lifecycle/src/lib.rs:539-581 | over any run without a crash a sweep fails a Submitted bundle if and only if the greatest slot seen is past that of its submission by more than the limit; kind and confidence follow from the tip and median given at submission and the last Jito status |
| LifecycleSweep.DriverAgreesWithSweep | crates/orchestrator/src/app.rs:1364-1422 | the retry driver, from the row alone, later and by another clock, computes the kind and confidence the sweep stored, if no Jito status for the bundle came in between |
| LifecycleLossy.LossyNeverAhead | crates/lifecycle/src/lib.rs:723-746 | a run that misses any slot updates has the same rows as the full run and never a higher stage, with rejections, crashes and reconcile passes anywhere in both, each pass asking only for the rows that its own run had open; where stages differ both have landed |
| LifecycleLossy.FinalizedMakesUp | crates/lifecycle/src/lib.rs:735-743 | one Finalized update at or above all earlier advancing slots makes all stages of those two runs equal |
| LifecycleLossy.StageReadEarlierIsHonest | crates/lifecycle/src/lib.rs:586-605 | the stage a reconcile pass read is never above the stage of the row when a status is applied, as the comparison of runs assumes |
| LifecycleLateErrors.HarmlessIffTimely | crates/lifecycle/src/lib.rs:586-640 | no run that misses slot updates is ever ahead, whichever it misses and at whatever point of the run, if and only if no error comes over the stream for a bundle Confirmed or Finalized that would be Processed without slot updates, and no error is answered to a pass that did not ask for a bundle, being Finalized, and would have asked without slot updates |
| LifecycleLateErrors.HarmlessIffErrorsAreEarly | crates/lifecycle/src/lib.rs:747-765 | with no answers to reconcile passes that is so if and only if no error comes for a bundle already Confirmed or Finalized |
| LifecycleLateErrors.NoLateErrorsAreEarly | crates/lifecycle/src/lib.rs:747-765 | for which it is enough that none comes for a signature after a success |
| LifecycleLateErrors.LateErrorOvertakes | crates/lifecycle/src/lib.rs:839-863 | an error of the first kind fails the bundle in the run that lost its Confirmed update, and not in the full one |
| LifecycleLateErrors.PassErrorOvertakes | crates/lifecycle/src/lib.rs:590-640 | an error of the second kind: the pass of the full run does not ask for the Finalized bundle, that of the run that lost the Finalized update does, and fails it |
| LifecycleLateErrors.ReconcileRace | crates/lifecycle/src/lib.rs:607-640 | a pass reads a Processed row, the stream finalizes it, the pass applies an error: the finished bundle is Failed and its history unlawful |
| LifecycleWrites.OrderOnlyDecidesStatus | crates/lifecycle/src/lib.rs:301-387 | reordering the Processed, Confirmed and Finalized writes of a row changes no column but the status, which is that of the last write |
| LifecycleWrites.LateProcessedReopens | crates/lifecycle/src/lib.rs:508-521 | and a Processed write that overtakes a Finalized one brings the bundle back at the next restart |
| StreamToLifecycle.BackpressureIsHarmless | crates/stream/src/lib.rs:556-591 | for every channel capacity and consumer speed, with submissions, rejections, reconcile passes and crashes that empty the channel at any time, the tracker fed through the channel is at no point ahead of one that also saw every slot update dropped so far, and level with it after one Finalized update; that other one has missed nothing the process has decoded but what is still under way or was refused by a closed channel, and nothing of earlier processes but what died in theirs |
| StreamToLifecycle.CrashLosesTheChannel | crates/orchestrator/src/app.rs:763-803 | a success that is in the channel when the process ends is seen by neither run: the bundle stays Submitted whatever slot update follows |
| Stream.Supervisor.TrySend | crates/stream/src/lib.rs:556-591 | an event is enqueued at the back if there is room, and otherwise the queue is as it was |
| Stream.Supervisor.Perform | crates/stream/src/lib.rs:556-591 | the forwarding task, its parked send, its consumer and its reconnections act as the state machine says |
| Stream.Supervisor.RunInner | crates/stream/src/lib.rs:380-446 | the same over any sequence of events, with the counter of dropped slots threaded through every connection |
| Stream.NothingElseIsLost | crates/stream/src/lib.rs:380-551 | until the consumer is gone, decoded slots are those enqueued plus those counted as dropped, every status is enqueued in order but for one waiting, and the enqueued events are the decoded ones with some slots left out |
| Stream.OnlyWhenFull | crates/stream/src/lib.rs:556-591 | only a slot update that finds the channel full is dropped, only a status that does has to wait, and it waits no longer than until there is room |
| Stream.RoomForAll | crates/stream/src/lib.rs:556-591 | a channel with room for all that is decoded drops nothing, keeps nothing waiting and counts every reconnection |
| RateLimiter.JitoRateLimiter.Reserve | crates/submitter/src/lib.rs:492-505 | the section under the mutex takes the later of next start and now, moves the next start on by one interval, and says how long to wait |
| RateLimiter.Contention.Perform | crates/submitter/src/lib.rs:480-506 | callers that use the limiter one atomic section at a time do what the interleaving machine says |
| RateLimiter.CountIsExact | crates/submitter/src/lib.rs:480-506 | in every interleaving the pending count is the number of High callers between increment and decrement, so the decrement never goes below zero |
| RateLimiter.BoundedOvertaking | crates/submitter/src/lib.rs:480-506 | in every interleaving the Low callers that reserve between a High caller's increment and its reservation are all among those already past their check at that increment |
| RateLimiter.OvertakersArePastCheck | crates/submitter/src/lib.rs:480-506 | a Low caller reserves before a High one in some interleaving if and only if it was past its check at the increment |
| RateLimiter.GoesFirstIffNonePastCheck | crates/submitter/src/lib.rs:480-506 | in every interleaving no Low caller reserves between increment and reservation, if and only if none was past its check at the increment |
| RateLimiter.LowGoesFirst | crates/submitter/src/lib.rs:480-506 | a run from the start in which a Low caller gets the first start and the High one, which raised the count before, the second |
| RateLimiter.ReservationsAreSpaced | crates/submitter/src/lib.rs:469-505 | in every interleaving the k-th reservation starts at least k intervals after creation |
| RateLimiter.NoNeedlessWait | crates/submitter/src/lib.rs:492-505 | in every reachable state a caller that reserves gets the moment it asks at, or one interval after the start before if that is later |
| RateLimiter.ReleasedOnTime | crates/submitter/src/lib.rs:492-506 | a waiting caller is let through if and only if its start has come |
| RateLimiter.ReleasesAreBounded | crates/submitter/src/lib.rs:469-505 | in every interleaving, for every rate, the calls let through but the first have taken an interval each; at most 1 + elapsed / interval have, where the interval does not round to zero |
| RateLimiter.RateIsKeptIffItDivides | crates/submitter/src/lib.rs:469-477 | every half-open second of every interleaving holds at most rps reserved starts, if and only if rps divides 10^9 |
| Leader.NextJitoLeader | crates/leader/src/lib.rs:344-371 | the loop computes the search whose properties follow |
| Leader.GroupSteppingIsFullScan | crates/leader/src/lib.rs:344-371 | for every schedule constant on groups of four, the slot returned is the least led slot from the next boundary on and a group start, or None when there is none, if and only if the schedule begins by that boundary or on one |
| Leader.MissedGroup | crates/leader/src/lib.rs:344-371 | otherwise some schedule and leader set make the search pass over a led group |
| Leader.WindowIsAhead | crates/leader/src/lib.rs:500-548 | whatever schedule is installed meanwhile, an open window lies at least one slot ahead and its leader is in the set |
| Leader.StartsStayBehind | crates/leader/src/lib.rs:304-323 | no event and neither half of a refresh makes the cached schedule, or one still being fetched, begin ahead of the clock, which never goes back |
| Leader.RunStaysBehind | crates/leader/src/lib.rs:304-323 | so it does not after any interleaving of events and any number of refreshes under way at once |
| Leader.WindowsAreTrue | crates/leader/src/lib.rs:500-548 | after any such interleaving an open window is at least one slot ahead, says rightly whether its leader is in the BAM set, and names the least led slot from the next boundary on, and NoJitoLeaderInLookahead means there is none, for schedules laid out in groups |
| Leader.HealthComesFirst | crates/leader/src/lib.rs:500-548 | each error is reported if and only if its own condition on the clock, the schedule or the sets holds and those before it do not |
| Leader.CachesAreLatest | crates/leader/src/lib.rs:304-323 | after any interleaving the clock is the greatest Processed slot, last seen alive at the last one; the schedule is that of the last refresh to finish, beginning where the clock stood when that refresh began; the sets are the last ones to come in |
| Leader.SplitCallsAreTrueIffAligned | crates/leader/src/lib.rs:500-548 | a call whose clock reading and caches are any number of events and refreshes apart answers as a full scan, in all interleavings, if and only if the schedule begins by the next group of the slot read or on a boundary |
| Leader.SplitCallMisses | crates/leader/src/lib.rs:500-548 | from the start, a call reads the clock, the clock moves on off a boundary beyond the next group, a schedule from there is installed, and the call reports NoJitoLeaderInLookahead although a group ahead is led |
| Leader.LeaderTracker.IngestEvent | crates/leader/src/lib.rs:414-429 | only Processed slots move the clock, and never backwards |
| Leader.LeaderTracker.BeginScheduleRefresh | crates/leader/src/lib.rs:304-310 | a refresh begins with a reading of the clock, and not without one |
| Leader.LeaderTracker.FinishScheduleRefresh | crates/leader/src/lib.rs:311-323 | the schedule installed begins at the slot read when the refresh began, which the clock has not fallen behind since |
| Leader.LeaderTracker.PerformAll | crates/leader/src/lib.rs:287-429 | events and refreshes in any order do what the machine says and keep schedules behind the clock |
| Leader.LeaderTracker.CurrentWindow | crates/leader/src/lib.rs:500-548 | an undisturbed call tells the truth about the next led group; a missing or stale clock comes first |
| Leader.LeaderTracker.WaitForWindow | crates/leader/src/lib.rs:555-587 | whatever happens between checks, the wait returns what the first check has seen that shows an error or a true window within the threshold, and goes on while none does |
| Leader.UnsettledIsFar | crates/leader/src/lib.rs:555-587 | a check lets the wait go on if and only if it sees a true window further ahead than the threshold |
| Agent.PlanActions | crates/orchestrator/src/app.rs:345-368 | the loop computes the plan of the actions up to the first terminal one |
| Agent.PlanMeaning | crates/orchestrator/src/app.rs:345-368 | a plan refreshes if and only if asked, holds for all the slots asked for together as far as the integer range goes, carries a tip if and only if it is the last one set, ends as its terminal action says, and has no ending without one |
| Agent.EndsAtFirstTerminal | crates/orchestrator/src/app.rs:345-368 | the first terminal action decides the ending and nothing after it counts |
| Agent.ClampThenPlan | crates/agent/src/lib.rs:229-249 | clamping the actions and then planning is planning and then clamping the tip; nothing else in the plan changes, and clamping says it has acted exactly when it has |
| Agent.NormalTipPolicy | crates/orchestrator/src/app.rs:289-319 | the tip of a normal submission is never above the cap, and below 1000 only if the cap is; a fresh feed gives the percentile configured wherever it lies between, a stale or missing one 10000 |
| Retry.ExecuteRound | crates/orchestrator/src/app.rs:463-600 | one turn of the loop on the tracker: decide with fallback, clamp, plan, submit, and track what was accepted |
| Retry.AgentRetryLoop | crates/orchestrator/src/app.rs:443-610 | the loop submits the tips of the specification in order, ends as it does, and the tracker records exactly the accepted bundle |
| Retry.RetryIsBounded | crates/orchestrator/src/app.rs:463-610 | at most one submission for each attempt left, all of them used up when the cap ends the loop and not when the agent gives up; the verdict is always that of the latest evidence |
| Retry.RoundMeaning | crates/orchestrator/src/app.rs:443-610 | a round submits unless the first terminal action is Abandon, with the last tip set before that, capped, or else the one before; an accepted bundle is tracked as submitted, a refused one goes on with the verdict on its refusal |
| Retry.EndingIsRecorded | crates/orchestrator/src/app.rs:576-589 | the bundle a loop ends with has one new row with its signature, slot, time, tip and percentiles; without one the tracker is as it was |
| Retry.RetryTranscript | crates/orchestrator/src/app.rs:443-610 | every submission of a loop but the last was refused, a tracked bundle is the last one submitted with the signature, slot and time of its reply, and the loop ends on the evidence of its last refusal |
| Retry.RetryTipsCapped | crates/orchestrator/src/app.rs:537-551 | whatever the model decides, a tip over the cap can only be the one the loop began with, and none follows a tip within the cap |
| Retry.BaselinePlan | crates/agent/src/lib.rs:262-309 | by kind and attempt, the baseline gives up exactly when its attempts are used, gets a new blockhash for every resubmission but after a transport error, which it waits four slots for, and sets a tip only for an outbid bundle: the greater of the 75th percentile and twice the old one, within the cap |
| Retry.BaselinePersists | crates/agent/src/lib.rs:262-309 | left to the baseline, a bundle that keeps failing in one way is submitted exactly until the last attempt for that kind of failure or the cap, whichever is first, and only an outbid tip changes |
| Retry.FallbackDoubles | crates/agent/src/lib.rs:267-276 | after k outbid rounds decided by the baseline the tip is at least min(cap, 2^k times the first), saturation included, and it never falls on the way if and only if it began within the cap |
| Pipeline.LoopIsItsRounds | crates/orchestrator/src/app.rs:463-610 | the rounds of one loop with nothing in between give the tips and the tracked bundle of the sequential loop |
| Pipeline.SubmissionIsRecorded | crates/orchestrator/src/app.rs:1093-1291 | a normal submission sends one tip and leaves one row with that tip and the percentiles of the feed, tracked under its signature if accepted, and if rejected failed with the verdict from which its loop sets out |
| Pipeline.TimedOutIsRetried | crates/orchestrator/src/app.rs:1364-1396 | a timed-out bundle leaves the queue for a loop that sets out from the tip in its row and the verdict that its row gives |
| Pipeline.LoopsKeepToThemselves | crates/orchestrator/src/app.rs:443-610 | no operation moves the retry loop of another bundle, and only a crash takes one away before its own rounds end it, together with all others and the queue |
| Pipeline.RunBooked | crates/orchestrator/src/app.rs:1093-1396 | over every interleaving each row of this process has a tip that was sent, and every bundle queued for a retry has failed |
| Pipeline.RunCapped | crates/orchestrator/src/app.rs:1093-1396 | over every interleaving of normal submissions, sweeps, timeouts, retry loops, stream events and crashes, every tip sent, every loop's tip and every row that can still time out is within the cap, and each loop keeps classification equal to classify of its evidence |
| Pipeline.OvershootsOnlyFromLooseRow | crates/orchestrator/src/app.rs:1364-1390 | started on any table, some run sends a tip over the cap if and only if some row is over the cap and can still time out |
| Failure.ToHex | crates/lifecycle/src/lib.rs:1004-1011 | the tracker's printer gives two lower-case digits for each byte |
| Failure.HexEncode | crates/stream/src/lib.rs:234-242 | the stream's printer gives the same behind 0x |
| Failure.HexAt | crates/stream/src/lib.rs:234-242 | the two digits of each byte in the print are its high and its low half |
| Failure.DecodeHexLoop | crates/failure/src/lib.rs:491-510 | the loop computes the parser specified on pairs of digits |
| Failure.PrintersInvertParser | crates/failure/src/lib.rs:491-510 | the parser gives back every non-empty byte string from either printer, and rejects the empty one |
| Failure.ParserInvertsPrinter | crates/failure/src/lib.rs:491-510 | a text is read as given bytes if and only if it is their digits in either case, perhaps behind a prefix, with nothing but white space around |
| Failure.OneVerdictPerError | crates/failure/src/lib.rs:246-331 | an on-chain error gets the same verdict in either print: ExpiredBlockhash if and only if its bytes decode to BlockhashNotFound, ComputeExceeded if and only if to one of the two budget errors, both certain; other errors are likely, and what does not decode is ambiguous |
| Failure.NeverLandedVerdicts | crates/failure/src/lib.rs:339-439 | a bundle that never landed had an expired blockhash if it was over 150 slots old when submitted, else a low tip if below the median, else lost the auction, as certain as the last Jito status makes it, whatever its case and the space around it |
| Redaction.MaskReveals | crates/runtime/src/lib.rs:50-60 | two secrets are masked alike if and only if they are equal, both short, or longer than four characters with the same first four |
| Redaction.PasswordIsHidden | crates/runtime/src/lib.rs:125-137 | what is shown of a user, a password and a host does not depend on the password and leaves the host as it is |
| Redaction.QueryValuesAreMasked | crates/runtime/src/lib.rs:155-164 | every query parameter stays in its place under its own name with its value masked |
| Redaction.RedactPathTwice | crates/runtime/src/lib.rs:139-153 | masking the segments of a path twice is masking them once, and brings in no character of its own but ink |
| Redaction.CleanUrlIsUntouched | crates/runtime/src/lib.rs:112-123 | a URL without userinfo or query, none of whose segments is 16 or more letters, digits, dashes and underscores, is left as it is |
| Redaction.RedactSingleTwice | crates/runtime/src/lib.rs:103-110 | a masked URL keeps its scheme, ends in its own last character or in ink, and is left alone when masked again |
| RedactionShown.UrlIsShown | crates/runtime/src/lib.rs:103-177 | of every URL the scheme and host are shown as they are, of a user and password the user, of a query the names; a path segment of 16 or more letters, digits, dashes and underscores, a query value and a lone userinfo as the first four characters and an ellipsis, or the ellipsis alone if there are no more; every other segment as it is |
| RedactionShown.UrlHasParts | crates/runtime/src/lib.rs:103-123 | and every URL is made of such parts |
| RedactionShown.TokensAreHidden | crates/runtime/src/lib.rs:139-177 | two URLs that differ only after the fourth character of such segments are shown alike |
| RedactionShown.UrlInText | crates/runtime/src/lib.rs:69-101 | a URL in a text, up to the white space, quote or bracket after it and less the full stops and commas at its end, is masked, and the text around it is left alone |
| RedactionSpans.PiecesAreTheText | crates/runtime/src/lib.rs:69-101 | the URLs and the text between them put together are the input, character for character |
| RedactionSpans.PiecesAreSorted | crates/runtime/src/lib.rs:69-101 | each URL found has its separator, holds no delimiter and does not end in punctuation, and no other piece has a separator |
| RedactionSpans.RedactionIsAProjection | crates/runtime/src/lib.rs:69-101 | a redacted text falls into the same pieces with only the URLs masked, and redacting it again changes nothing |
| RedactionSpans.RedactUrl | crates/runtime/src/lib.rs:69-101 | the loop ends, since the cursor always passes the separator it found, and computes that redaction |

## Left out

- Unordered persistence: `ingest` spawns a task for each event's writes, which reach the table in any order; only what reordering does to one row is covered.
- LifecycleTracking.LifecycleTracker.RecordSubmission: requires a signature that no tracked bundle has, as Solana signatures are; what a duplicate would do to the signature map is not modelled. The insert and the lock section after it are one step.
- LifecycleLossy.LossyNeverAhead: covers everything but sweeps, which consult the clock; both runs get the same answers to the passes that ask for them, and the errors excluded are exactly those for which the claim is false (`HarmlessIffTimely`).
- Retry.ExecuteRound: requires, like `RecordSubmission`, that an accepted bundle has a signature no tracked bundle has.
- Retry.AgentRetryLoop: accepted bundles have signatures no tracked bundle has, as for `RecordSubmission`, and nothing else touches the tracker while the loop runs; `Pipeline` interleaves the rounds of many loops with everything else.
- Pipeline.RunCapped: the synthetic row of a rejected submission is inserted and failed in one step, and a tip changed by fault injection is not covered.
- Leader.NextJitoLeader: slots are unbounded, so overflow near 2^64 is not covered.
- Leader.LeaderTracker.CurrentWindow: is for a call during which nothing is installed; `WindowIsAhead` and `SplitCallsAreTrueIffAligned` cover a call in two halves, with the clock read in the first and both caches in the second.
- RateLimiter.JitoRateLimiter.Reserve: cancellation of a waiting caller and overflow of durations are not covered.
- RedactionSpans.RedactUrl: texts are sequences of characters, so byte positions inside characters beyond ASCII are not covered; the ellipsis that masking brings in is, since a second pass meets it only inside a URL.
- Failure.OneVerdictPerError: the decoding of error bytes and the wording rules for rejections are arbitrary functions; rationale texts are left out of verdicts.
- Columns nothing reads back (bundle id, tip account, blockhash, injected fault), SQL text, the report that reconcile returns, export and markdown.
- A bound on retries across bundles: an accepted resubmission is a new row that starts its own loop at attempt 1.
- Backoff and jitter, conversion of SOL amounts, tip history and trends: floating point and randomness.
- Building, signing and simulating transactions, swaps, HTTP, gRPC, prompts, JSON, configuration and logging.
