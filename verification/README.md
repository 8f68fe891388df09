# bxi_hardware: a model of its protocols and what they guarantee

A controller hands motor commands to a real-time driver; the driver puts them on a CAN bus. In
between sit small lock-free protocols and state machines. This project models them in Dafny and
proves what they promise over every interleaving, every run or every input.

Two conventions hold throughout. A C++ double is `NaN`, an infinity or the exact real number it
stands for; times are unbounded integers and a clock reading is any instant not before the last
one. Foreign calls (bus, file system, hook, state and command interfaces) answer as they like.

`dafny verify dfyconfig.toml` checks the whole project.

## Files

| file | models |
|---|---|
| Doubles.dfy | doubles; the option type |
| Interfaces.dfy | how a command interface answers a write |
| Seqlock.dfy | `AtomicSnapshot`, word by word: one writer, any number of readers |
| PairCommit.dfy | `PairCommit`: which staged batch is admitted |
| WriteSchedule.dfy | `WriteSchedule`, the stop and send decisions of `sendWriteLoop`, its timer |
| Packets.dfy | the payload of the command snapshot |
| CommandPath.dfy | control thread (`writePair`, mode switch, `publishCommandBatch`) and send thread (`sendWriteLoop`, `collectFeedbackStale`, `performGroupSafety`) as one interleaved machine |
| CommandDelivery.dfy | its invariants from admission to the wire |
| SafetyProtocol.dfy | its invariants for the one-shot safety broadcast |
| SendTiming.dfy | its invariants for send times and sleeping |
| RepeatCounts.dfy | how often a publication is repeated on the wire |
| CommandRuns.dfy | the theorems over every run of that machine |
| Progress.dfy | what its control thread must do when left alone |
| SendProgress.dfy | what its send thread must do when left alone |
| LateStamp.dfy | a run of that machine, outside pair mode, that oversleeps |
| FrameSizes.dfy | every pair-mode frame has a command for every axis |
| PairBytes.dfy | from accepted values to the bytes each motor reads |
| PairAdapter.dfy | `BxiPairAdapter` against one `PairCommit` per group |
| NAxis.dfy | `NAxisTrajectoryController` against `PairCommit` |
| HilHandover.dfy | `HilTrajectoryController`: update thread, services and file writer interleaved |
| HilRuns.dfy | the theorems over every run of that machine |
| HilProgress.dfy | what each of its threads must do when left alone |
| Intervals.dfy | outward-rounded intervals and root exclusion |
| Ramp.dfy | the trigonometric and polynomial identities of the ramp |
| SineTrajectory.dfy | envelope, velocity, acceleration and their bounds |
| MitProtocol.dfy | the MIT bit-field codec |
| Actuator.dfy | joint against motor coordinates; the broadcast frame |
| PeriodicSender.dfy | the periodic `sendLoop` |
| TraceWriter.dfy | `TraceBufferedWriter` |

## Model

| member | source | states |
|---|---|---|
| CommandRuns.EveryFrameIsReleasedOrOneAcceptedBatch | src/bus_streamer.cpp:1280-1462 | in pair mode, in every run, each control frame on the bus is zero-gain or exactly the commands of one batch accepted under one generation, and those generations never go down |
| CommandRuns.AcceptedBatchesAreConsecutive | src/pair_system_interface.cpp:186-241 | in every run the accepted batches are generations 1, 2, ... with no gap, all in bounds, the first and every latched one released, the first before the deadline; everything published is one of them |
| CommandRuns.BoundaryCheckInEveryRun | src/bus_streamer.cpp:1281-1301 | when the version check before the first frame passes, the cached batch is the newest publication begun, is complete, and is what the snapshot holds, although the noted version may have been odd or outdated when it was loaded |
| CommandRuns.SafetyBroadcastIsOneShot | src/bus_streamer.cpp:1108-1212 | in every run at most one safety frame, at most one other control frame after a request became visible, no attempt after a ready check that saw a hardware fault without seeing its error, and time stamps in place before a request shows; the final result is the truth: succeeded means one frame the bus took and it is on the wire, send failed one it refused and none on the wire, any other that none was tried, and incomplete only after an order to give up |
| CommandRuns.HistoryNeverGoesBack | include/bxi_hardware/bus_streamer.hpp:171-190 | over any stretch of a run: a final safety result, a first time stamp, a registered source, the stop latch and the commit latch stay, and the logs of accepted, published and sent only grow |
| CommandRuns.FeedbackStopAdmitsNothing | src/pair_system_interface.cpp:202-272 | once the feedback stop is up no batch is accepted any more, from whatever point of a write; once no write is in flight either, nothing is published and no new hardware fault is registered |
| CommandRuns.SendThreadNeverReportsHwFault | src/bus_streamer.cpp:1244-1276 | in every run only the control thread registers a hardware fault |
| CommandRuns.SendTimesAreBounded | src/bus_streamer.cpp:1365-1477 | in every run, in either mode: batch starts other than a stop at least half a period apart, every normal frame younger than the maximum command age at its pre-send reading, and any publication repeated k times on the wire only if k periods plus grace stay below that age |
| CommandRuns.NoDeadlineIsMissed | src/bus_streamer.cpp:1302-1378 | whenever the loop goes to sleep in a run, for any reply stamps that have risen since they were loaded (those in memory among them): whatever becomes due (a stop, a new batch, a repeat, a bootstrap, a snapshot retry, a silent axis, each defined by the clock and the schedule alone) is reached by the timer, or one nanosecond after the clock reading it was armed with; in pair mode always, outside it if and only if no stamp from before the first send that was stored after its load falls due before the timer |
| LateStamp.PlainLoopCanOversleep | src/bus_streamer.cpp:456-482 | outside pair mode there is a run that goes to sleep with an axis already overdue |
| CommandRuns.RunKeepsInv | src/bus_streamer.cpp:1214-1507 | every reachable state satisfies the delivery, safety, timing and sleep invariants together |
| CommandDelivery.BoundaryCheckMeansNewest | src/bus_streamer.cpp:1428-1432 | equal versions at the send boundary mean that no publication began after the cached one |
| CommandDelivery.StepKeepsDelivery | src/bus_streamer.cpp:1280-1462 | each step of any thread keeps the chain from admission over snapshot and cache to the wire |
| CommandDelivery.WonReadHoldsNewest | src/bus_streamer.cpp:1281-1301 | a won read parses to the newest publication, and an equal number means that very batch is already cached |
| SafetyProtocol.StepKeepsSafety | src/bus_streamer.cpp:1108-1212 | each step of any thread keeps: processing exactly during an attempt, finished only when leaving, one safety frame, one late frame, honest ready check, stamps |
| SendTiming.AsleepIsQuiet | src/bus_streamer.cpp:1302-1378 | the path to the sleep leaves no stop condition, retry or batch due at its clock reading; in pair mode the capture, which loads every stamp again and never an older one, found nothing stale |
| WriteSchedules.SleepMissesNothing | src/bus_streamer.cpp:1491-1507 | with nothing due now, the timer is early enough for everything due later under every risen set of stamps: always in pair mode, otherwise if and only if no late stamp from before the first send is due before it |
| WriteSchedules.StopsExactly | src/bus_streamer.cpp:1302-1333 | the stream stops for each reason if and only if the instant calls for it: the command too old with the snapshot good or failed, a receive fault, no first write in time, a silent axis outside pair mode, in that precedence |
| WriteSchedules.SendsExactly | src/bus_streamer.cpp:1365-1378 | without a stop a batch is due if and only if half a period has passed since the last and either it is new or its repeat is due and the snapshot is good, or nothing was ever written and a bootstrap is due |
| WriteSchedules.CapturesExactly | src/bus_streamer.cpp:1023-1046 | the pair-mode capture finds something stale if and only if a feedback age has passed since the first send and some axis has not replied within it |
| WriteSchedules.QuietExactly | src/bus_streamer.cpp:1302-1378 | the loop has nothing to do at an instant if and only if no stop, batch, retry or silent axis is due then |
| WriteSchedules.WakesForSomething | src/bus_streamer.cpp:1491-1507 | the timer is after its clock reading, and if it is later than the next nanosecond and before the feedback deadline, something is due then or a batch is held back |
| WriteSchedules.StaysQuiet | src/bus_streamer.cpp:1302-1378 | nothing becomes due before the computed wake-up, whatever replies are stamped meanwhile, that one exception aside |
| WriteSchedules.FeedbackDue | src/bus_streamer.cpp:1316-1333 | the feedback deadline is the earliest of the axes that have a reply base, or one feedback age from now |
| SendTiming.RepeatOnce | include/bxi_hardware/write_schedule.hpp:13-29 | a repeat sent when due and before the maximum age raises the count to k with k periods plus grace still below that age, and makes the next one due a period later |
| RepeatCounts.AllFit | src/bus_streamer.cpp:1365-1477 | the repeats of each publication on the wire, one underway included, keep k periods plus grace below the maximum age |
| RepeatCounts.TxKeepsCount | src/bus_streamer.cpp:1280-1477 | each step of the send thread keeps the schedule and the wire in agreement about repeats; a newer publication starts at none |
| Progress.AdmissibleIsAccepted | src/pair_system_interface.cpp:202-233 | a write that is claimed, not stopped and admissible at both inspections is accepted under the next generation with its very values, whatever else the state is |
| Progress.RejectionIsDeserved | src/pair_system_interface.cpp:202-210 | the first inspection answers the stop latch, the missing claim, or exactly the reason deserved, and raises the latch exactly where it must |
| Progress.WriteIsPublished | src/pair_system_interface.cpp:211-241 | left alone on an armed, running stream, an admissible write is complete in the snapshot after a number of steps known beforehand, word for word, two versions later |
| Progress.RefusedHandOverLatches | src/pair_system_interface.cpp:233-237 | an accepted batch that the stream does not take, or whose notification fails, latches and is judged as a failed publication |
| Progress.AbnormalIsReported | src/pair_system_interface.cpp:260-272 | a write judged malformed, rolled back, gapped, out of bounds, non-zero under the latch, late or unpublished registers a hardware fault with its time stamps; any other registers nothing |
| Progress.ModeStopIsReported | src/pair_system_interface.cpp:172-179 | giving up the command mode registers a mode stop, drops the claim for good and latches |
| Progress.ClaimIsGranted | src/pair_system_interface.cpp:165-184 | the command mode can be claimed exactly while it is not terminal and not stopped |
| Progress.ErrorIsObserved | src/pair_system_interface.cpp:289-298 | the error return is noted once, and only once something is requested |
| SendProgress.PublicationIsTaken | src/bus_streamer.cpp:1281-1301 | left alone, a pass takes a complete publication with a new number over whole, with its schedule |
| SendProgress.LostReadRetries | src/bus_streamer.cpp:1297-1300 | a lost read leaves the cache alone and is due again a twentieth of a period later, a nanosecond at least |
| SendProgress.HeadObeys | src/bus_streamer.cpp:1276-1279 | each flag at the head of the loop ends the thread if and only if it is against going on |
| SendProgress.DecidesOnWhatIsThere | src/bus_streamer.cpp:1302-1343 | left alone, a pass loads every reply stamp and flag and stops for the reason that is due |
| SendProgress.SettlesExactly | src/bus_streamer.cpp:1344-1415 | after its decision a pass sends, sleeps, starts over, asks for the watchdog or faults, each if and only if that is due; what it sends is the cached batch, or a release where nothing was written or the stream stops |
| SendProgress.ReleasedHolds | src/bus_streamer.cpp:1407-1410 | a released batch holds every axis at its position, with zero speed, gains and effort |
| SendProgress.FrameLeaves | src/bus_streamer.cpp:1425-1462 | with nothing against it and the bus willing, the next frame of a batch is on the wire with the commands of its batch and the time of its last check |
| SendProgress.FrameIsHeldBack | src/bus_streamer.cpp:1425-1446 | each check before a frame ends the batch if and only if its own reason holds |
| SendProgress.BatchIsBooked | src/bus_streamer.cpp:1469-1489 | what was sent is on the schedule from its first frame on; the next bootstrap, and after a repeat the next repeat, is due a period later; a stop ends the thread |
| SendProgress.PublishedBatchLeaves | src/bus_streamer.cpp:1244-1462 | left alone with a new publication and nothing against it, the send thread has its first frame on the wire, the whole batch on a broadcast bus, after a number of steps known beforehand |
| SendProgress.AdmissibleWriteLeaves | src/pair_system_interface.cpp:186-241 | from an admissible write to the bus: after one undisturbed write and one clear pass the next frame carries the values written, under the next generation |
| SendProgress.CaptureJudges | src/bus_streamer.cpp:1048-1053 | while the result is open the pair-mode capture loads every stamp and finds a silent axis, not seen before, if and only if one is due |
| SendProgress.SilenceIsReported | src/bus_streamer.cpp:1048-1065 | a silent axis raises the stop latch before it registers itself |
| SendProgress.AttemptStarts | src/bus_streamer.cpp:1113-1121 | a look at the requests leads to an attempt if and only if one is visible, none was abandoned and a hardware fault comes with its error; an abandoned one ends incomplete |
| SendProgress.AttemptEnds | src/bus_streamer.cpp:1120-1207 | the first attempt ends with what happened: no frame could be built, the bus refused it, or it is on the wire; a later one does nothing |
| SendProgress.ResultStops | src/bus_streamer.cpp:1256-1262 | any safety result ends the stream on every bus; without one the loop goes on |
| SendProgress.WatchdogReports | src/bus_streamer.cpp:1249-1254 | while a request is open, a command that has expired registers the watchdog once |
| SendProgress.RefusedFrameStops | src/bus_streamer.cpp:1454-1460 | a refused frame stops every bus and ends the thread |
| SendProgress.ReadyRequestIsAttempted | src/bus_streamer.cpp:1244-1276 | left alone, the send thread attempts a ready request within a number of steps known beforehand, whatever else it finds on its way |
| Packets.ParseWords | src/pair_system_interface.cpp:212-222 | what the send thread parses out of a whole snapshot is the batch the control thread stored |
| Packets.ReleasedIsZeroGain | include/bxi_hardware/pair_commit.hpp:64-71 | a row is released if and only if every command built from it has no gains, speed or effort |
| Seqlock.SuccessfulReadsAreWholeAndCurrent | include/bxi_hardware/atomic_snapshot.hpp:32-62 | for every interleaving of one writer and any number of readers, a read that succeeds holds one whole publication, the newest begun, complete at the second version load |
| Seqlock.ReadsNeverGoBack | include/bxi_hardware/atomic_snapshot.hpp:46-62 | one reader's successful reads never return an earlier publication than before |
| Seqlock.WinningLoadIsNewest | include/bxi_hardware/atomic_snapshot.hpp:50-59 | the closing version load that matches pins the writer at rest and the copied words to the newest publication |
| Seqlock.LoadsRunOut | include/bxi_hardware/atomic_snapshot.hpp:46-62 | a read is wait-free: whatever the writer does, each load uses up one of at most two attempts' worth |
| Seqlock.QuietReadWins | include/bxi_hardware/atomic_snapshot.hpp:46-62 | a read that begins with something published and no store under way, and is left alone for its loads, wins at its first attempt with the words that are there |
| Seqlock.FailsExactly | include/bxi_hardware/atomic_snapshot.hpp:50-61 | a load ends its attempt if and only if the opening version is zero or odd or the closing one differs; the second such end loses the read |
| Seqlock.RunIsOk | include/bxi_hardware/atomic_snapshot.hpp:32-62 | in every reachable state the stored words are the head of the publication in progress or all of the last one, and each reader's copy is a head of the version it opened with |
| Seqlock.AtomicSnapshot.constructor | include/bxi_hardware/atomic_snapshot.hpp:24-29 | version zero, nothing published; an empty snapshot is not allowed |
| Seqlock.AtomicSnapshot.Publish | include/bxi_hardware/atomic_snapshot.hpp:32-45 | afterwards the words are the batch, it is the last of the log, and the version is even and two higher |
| Seqlock.AtomicSnapshot.TryRead | include/bxi_hardware/atomic_snapshot.hpp:46-62 | with the writer running between any two loads: true gives the newest publication begun at the second version load, complete, and not older than the newest complete one at the call; an attempt succeeds if and only if its opening version is even and not zero and its closing one the same, so false means that both attempts met a store under way, nothing published or a change, and an unchanged published version means success at the first attempt |
| Seqlock.UnpackPack | include/bxi_hardware/atomic_snapshot.hpp:36-57 | splitting a payload into 8-byte words, the last one partial, and copying it back loses no byte |
| PairCommits.PairCommit.Inspect | include/bxi_hardware/pair_commit.hpp:42-72 | the checks with their early-exit loops give each reason exactly where it is deserved, accept exactly the admissible batches, raise the latch exactly for being late or for a faulty presentation, and mark exactly the late ones expired |
| PairCommits.PairCommit.Reset | include/bxi_hardware/pair_commit.hpp:32-36 | generation zero, no latch, a new deadline |
| PairCommits.InspectDecides | include/bxi_hardware/pair_commit.hpp:42-74 | acceptance if and only if: not expired, before the deadline for the first, next generation, in bounds, released when first or latched; the latch and the expiry never clear, and an accepting inspection changes nothing |
| PairCommits.InspectAnswers | include/bxi_hardware/pair_commit.hpp:42-74 | each reason if and only if its own condition on number, values and time holds; the latch goes up if and only if the first deadline has passed or a live object meets a malformed, earlier, too far or unacceptable next batch |
| PairCommits.GenerationsAreNumbers | include/bxi_hardware/pair_commit.hpp:46-52 | a presented number is well formed if and only if it is one of 0, 1, ..., 2^53 - 1 |
| PairCommits.OnlyReleasesAfterFault | include/bxi_hardware/pair_commit.hpp:42-74 | in every call sequence, after a call rejected as faulty every later adoption is released |
| PairCommits.InspectNeighbours | include/bxi_hardware/pair_commit.hpp:53-57 | gap and rollback are reported only for generations that are neither the accepted one nor the next, and for all of those while the object is neither expired nor at its last generation |
| PairCommits.EveryCallSequence | include/bxi_hardware/pair_commit.hpp:32-74 | for every call sequence from a reset: accepted generations are 1, 2, ..., last, all in bounds; the first and every latched one released; the first before the deadline; the latch never clears |
| PairAdapters.PairAdapter.constructor | src/bxi_pair_adapter.cpp:205-216 | a fresh activation satisfies the invariant with nothing written |
| PairAdapters.PairAdapter.WriteValue | src/bxi_pair_adapter.cpp:218-238 | true if and only if the very value is read back; the try is on record, the cell holds what the interface stored, and nothing else is touched |
| PairAdapters.PairAdapter.WriteBatch | src/bxi_pair_adapter.cpp:240-295 | every value of every group that takes part is tried, and nothing else; a commit is written if and only if all values of its group came back and, in a normal attempt, everyone's did; it succeeds if and only if every commit is read back too |
| PairAdapters.PairAdapter.Cycle | src/bxi_pair_adapter.cpp:305-417 | fine if and only if no check fires and every value and commit comes back; then every group advances past an accepted generation with its whole target staged. Any other cycle stops the adapter for good: unless it ends quietly it tries the released batch of every group that reported its own generation and whose commit it has not written, and commits it if and only if all values come back. A stopped adapter writes nothing ever after |
| PairAdapters.TriesAre | src/bxi_pair_adapter.cpp:245-284 | an attempt tries exactly the values ordered for the groups that take part: not left out, positions in limits, a generation left |
| PairAdapters.ReleaseReaches | src/bxi_pair_adapter.cpp:392-409 | a release tries all values of every group it does not leave out, zero but for the measured positions, and commits the group if and only if they all come back |
| PairAdapters.PairAdapter.HardwareWrite | include/bxi_hardware/pair_commit.hpp:42-74 | the hardware never meets a gap, a rollback or a malformed generation, adopts exactly the admissible batches behind its commit cell, and otherwise gives the reason deserved; a failed publication raises the latch |
| PairAdapters.PairAdapter.Run | src/bxi_pair_adapter.cpp:305-417 | over any number of cycles with any failures: no (group, generation) commit is written twice, release included; behind each commit stands exactly the batch that the row of one cycle orders, normal or release, with every position in its joint's limits, and in a normal attempt every other group holds its own batch of that row; every adopted batch is one of them |
| PairAdapters.TargetOfAxis | src/bxi_pair_adapter.cpp:268-277 | the five values of each axis in a normal, a first and a release batch |
| NAxis.NAxisController.constructor | src/n_axis_trajectory_controller.cpp:120-138 | activation at accepted generation zero satisfies the invariant, in boot state |
| NAxis.Candidate | src/n_axis_trajectory_controller.cpp:249-258 | the generation moves on if and only if it is the first, or the last one was complete and was read back accepted |
| NAxis.LeaseIsHalfASecond | src/n_axis_trajectory_controller.cpp:26-27 | a heartbeat is good for exactly half a second from when it was sent |
| NAxis.ReleasedBatchOfAxis | src/n_axis_trajectory_controller.cpp:243-246 | a released batch holds every axis at its measured position with nothing else |
| NAxis.ValidRunIs | src/n_axis_trajectory_controller.cpp:279-288 | a request is valid if and only if it is for all axes, identified, not from the future, has the fixed profile, gains in their fixed range and an amplitude inside every axis' limits |
| NAxis.NAxisController.Attempt | src/n_axis_trajectory_controller.cpp:191-216 | every value is tried; success if and only if all values and then the commit are read back; the commit cell changes exactly if all values came back and it was taken |
| NAxis.NAxisController.Check | src/n_axis_trajectory_controller.cpp:259-272 | an update is aborted here if and only if there is no room for its row, a state is missing, the period is invalid, or with a generation left some joint stands beyond the state limit, each with its own cause; it ends quietly if and only if only the generations are used up |
| NAxis.NAxisController.TakeMessages | src/n_axis_trajectory_controller.cpp:277-295 | an idle controller takes a request over and arms or aborts by its validity; the heartbeat is replaced exactly by a later one of the run in force that is not from the future |
| NAxis.NAxisController.Progress | src/n_axis_trajectory_controller.cpp:296-309 | armed, running and holding move exactly as the decision says |
| NAxis.DecidesExactly | src/n_axis_trajectory_controller.cpp:273-311 | each state after a decision if and only if what leads there holds: stop, boot, no request, waiting for a heartbeat, started near zero by a live one, held after the duration, let go by finish or after the hold time, aborted for an invalid request, a start out of range, no heartbeat in time or an expired lease |
| NAxis.DecisionLeaves | src/n_axis_trajectory_controller.cpp:276-309 | the run, heartbeat and arming time in force after a decision, the elapsed time of a drive, and that a drive is always leased and an end terminal |
| NAxis.NAxisController.WriteOut | src/n_axis_trajectory_controller.cpp:327-338 | a normal batch is tried exactly when the update has not aborted and is driving or knows all positions; the state and the generation advance exactly if it was written; a release is tried exactly after an abort with all positions usable and a generation left; what both leave in the cells |
| NAxis.NAxisController.Command | src/n_axis_trajectory_controller.cpp:312-323 | aborts if and only if a driving trajectory point is not finite, too fast, out of limits or pulls too hard; otherwise, while driving, every axis has that point, the run's gains, no effort, and bounded position, speed and spring torque, and the released batch when not driving |
| NAxis.NAxisController.Update | src/n_axis_trajectory_controller.cpp:230-340 | the row of a live update has the phase its inputs decide, tries a normal batch and a release exactly when they are due, and keeps its phase exactly if the normal one was written; the generation advances by one and only past an accepted one; an aborted or inactive controller writes nothing |
| NAxis.NAxisController.HardwareWrite | include/bxi_hardware/pair_commit.hpp:42-74 | the hardware never meets a gap, a rollback or a malformed generation from this controller, adopts exactly the admissible batches, and otherwise gives the reason deserved; a failed publication raises the latch |
| NAxis.NAxisController.Run | src/n_axis_trajectory_controller.cpp:230-340 | over any number of cycles: batches with gains only while running or holding, leased and bounded; generations paced by acceptance; none with gains once released, stopped or aborted |
| NAxis.HistoryGrows | src/n_axis_trajectory_controller.cpp:230-340 | a justified row without gains after the end keeps the whole history justified |
| NAxis.NAxisController.Deactivate | src/n_axis_trajectory_controller.cpp:139-146 | deactivation writes no command and keeps the first cause |
| HilRuns.StopBeatsStart | src/hil_trajectory_controller.cpp:361-398 | in every run, from whatever instant a stop has counted, no update that begins later writes gains for a run accepted before it, and one under way writes once more at most |
| HilRuns.StopCancelsEverythingAccepted | src/hil_trajectory_controller.cpp:748-755 | the step that counts a stop cancels the pending start and every run number handed out so far |
| HilRuns.PendingMeansStopsApplied | src/hil_trajectory_controller.cpp:687-725 | a pending start implies that every stop so far has been applied |
| HilRuns.RecordsChangeHandsSafely | src/hil_trajectory_controller.cpp:776-843 | in every run no row is stored while the writer may read it, no start is accepted while a run or its record is outstanding, the writer's late clearing of busy_ never hits a newer run, and gains are written only under an unexpired lease |
| HilRuns.RunKeepsInv | src/hil_trajectory_controller.cpp:349-600 | every reachable state satisfies the lock, stop, service and record invariants together |
| HilProgress.StartAnswers | src/hil_trajectory_controller.cpp:679-729 | a start call that gets the lock is accepted if and only if none is pending, nothing is busy and every stop has been applied; then it is the pending one under the next number |
| HilProgress.StopIsCounted | src/hil_trajectory_controller.cpp:748-755 | a stop call that gets the lock clears the pending start and counts |
| HilProgress.StopEndsRun | src/hil_trajectory_controller.cpp:361-369 | an update with a stop not applied yet applies it first and releases an active run |
| HilProgress.PendingIsTaken | src/hil_trajectory_controller.cpp:371-398 | a pending start is taken if and only if nothing is outstanding and the lock is free; it becomes the armed run, busy, with its record begun |
| HilProgress.AcceptedStartIsArmed | src/hil_trajectory_controller.cpp:361-398 | left alone, the next update after an accepted start with nothing in its way has it armed before it writes anything |
| HilProgress.KeepaliveExtends | src/hil_trajectory_controller.cpp:400-406 | a keepalive extends the lease if and only if it is for the active run, not older than its acceptance and later than the last |
| HilProgress.AdvancesExactly | src/hil_trajectory_controller.cpp:408-508 | each mode after the checks of a cycle if and only if what leads there holds; a run that ends leaves its release pending |
| HilProgress.FinishReleases | src/hil_trajectory_controller.cpp:499-510 | a holding run is released if and only if its finish has been asked for |
| HilProgress.RefusedGainsAbort | src/hil_trajectory_controller.cpp:512-550 | a refused write with gains aborts the run in the same cycle; a release stays pending until a complete released write |
| HilProgress.RecordEnds | src/hil_trajectory_controller.cpp:552-587 | the record goes on until the run has ended, its release is written and its tail is over, and is then handed over |
| HilProgress.DeactivationEndsRun | src/hil_trajectory_controller.cpp:285-312 | deactivation aborts an active run and hands its record over |
| HilProgress.ActivationAppliesStops | src/hil_trajectory_controller.cpp:265-283 | activation starts idle with every stop so far applied |
| HilProgress.FileFreesController | src/hil_trajectory_controller.cpp:776-843 | a written file clears the record and frees the controller; a failed one changes nothing |
| Intervals.Polynomial | src/hil_trajectory.cpp:29-36 | the accumulator loop encloses the exact value at every point of the interval |
| Intervals.HornerEncloses | src/hil_trajectory.cpp:22-36 | nested outward-rounded sums and products enclose the exact polynomial, for any sound rounding |
| Intervals.MultiplyEncloses | src/hil_trajectory.cpp:23-27 | the interval product encloses every exact product |
| Intervals.AddEncloses | src/hil_trajectory.cpp:22-22 | the interval sum encloses every exact sum |
| Intervals.RampMagnitudeBounds | src/hil_trajectory.cpp:39-46 | at every point of the unit circle with cosine in the interval the result is at least the size of s * Q(c) |
| Intervals.StationaryMagnitude | src/hil_trajectory.cpp:52-64 | exactly what the bisection finds, with what it leaves of the budget; at least the size of s * Q(c) at every root of P in the interval; at most 2 * budget + 1 evaluations |
| Intervals.NoRootIsLost | src/hil_trajectory.cpp:48-64 | the bisection loses no root, whatever the depth cut-off, the budget and the sound rounding, also of the middle |
| Intervals.BisectedBounds | src/hil_trajectory.cpp:52-64 | bisecting anywhere, with any cut-off and budget, keeps a bound at all roots if dropping an interval loses none and taking it whole bounds them |
| Intervals.BisectedIsAttained | src/hil_trajectory.cpp:52-64 | the bisection is not coarser than it must be: its result is zero or the magnitude of one interval that survives every halving, at full depth if the budget lasts |
| Intervals.BisectedCovers | src/hil_trajectory.cpp:52-64 | it is at least the magnitude of every interval of full depth that survives, while the budget lasts |
| Intervals.EndsAreAttained | src/hil_trajectory.cpp:22-27 | without rounding the ends of a product are the least and greatest product of ends, and those of a sum the sums |
| Intervals.PointIsExact | src/hil_trajectory.cpp:29-36 | without rounding the polynomial of a point is its value |
| Intervals.PointMagnitudeIsExact | src/hil_trajectory.cpp:39-46 | without rounding the magnitude of a point is exactly the size of s * Q(c) |
| Intervals.SomeRoundingIsSound | src/hil_trajectory.cpp:17-21 | the assumptions on rounding can be met |
| Ramp.StationaryPolynomial | src/hil_trajectory.cpp:170-179 | for both ramp lengths and every real c, P(c) = c Q(c) - (1 - c^2) Q'(c) |
| Ramp.SlopeIsDerivative | src/hil_trajectory.cpp:170-179 | the Q' used there is the derivative: the remainder is of second order in the step |
| Ramp.ChebyshevForm | src/hil_trajectory.cpp:170-176 | for both ramp lengths P is the stated combination of three Chebyshev polynomials |
| Ramp.MultipleIsChebyshev | src/hil_trajectory.cpp:170-173 | the cosine of n times an angle is the Chebyshev polynomial of its cosine, for every n |
| SineTrajectories.RampAccelerationIs | src/hil_trajectory.cpp:126-143 | for both ramp lengths and every angle the acceleration formula on the ramp equals A k^2 / 4 * s * Q(c) |
| SineTrajectories.DownIsReversedUp | src/hil_trajectory.cpp:105-112 | ramping down is ramping up backwards with the sign turned |
| SineTrajectories.AccelerationUpperBound | src/hil_trajectory.cpp:156-199 | a bound if and only if the parameters are supported and the bound computed from the bisection is finite; it is that one, and under every sound rounding and for any pi in its interval at least the exact acceleration at the ends and all stationary points of both ramps and everywhere on the flat part |
| SineTrajectories.BoundIsTight | src/hil_trajectory.cpp:181-196 | without rounding the bound is exactly the larger of the flat part's acceleration and the ramps' at the stationary magnitude, plus the guard |
| SineTrajectories.DominatedIsCovered | src/hil_trajectory.cpp:170-191 | a bound at a point where s * Q(c) is at least as large carries over, on either ramp; a stationary point or an end is such a point |
| SineTrajectories.EnvelopeInRange | src/hil_trajectory.cpp:91-115 | on either ramp the amplitude stays in range and its rate below half the envelope speed times the amplitude |
| SineTrajectories.EnvelopeRates | src/hil_trajectory.cpp:98-104 | while ramping up the amplitude changes at the rate given for it, and that at its own rate, up to second order in time |
| SineTrajectories.EnvelopeDownRates | src/hil_trajectory.cpp:105-112 | the same while ramping down |
| SineTrajectories.VelocityIsDerivative | src/hil_trajectory.cpp:117-124 | the velocity of a setpoint is the derivative of its position, for every envelope, frequency and angle |
| SineTrajectories.AccelerationIsDerivative | src/hil_trajectory.cpp:126-143 | the acceleration is the derivative of that velocity |
| SineTrajectories.VelocityIsBounded | src/hil_trajectory.cpp:145-154 | the velocity is at most amplitude times hypot(omega, k / 2) |
| SineTrajectories.FlatVelocityIsBounded | src/hil_trajectory.cpp:145-150 | without a ramp the velocity is at most amplitude times omega |
| MitProtocol.QuantisedBelow | src/mit_protocol.cpp:44-67 | an integer if and only if range, width and number are valid and the number is in range; then it fits the field and rounds down by less than one step |
| MitProtocol.UintRoundTrip | src/mit_protocol.cpp:44-67 | encoding a decoded integer gives it back, saturated at the top, for every width from 1 to 31 |
| MitProtocol.ZeroQuantised | src/mit_protocol.cpp:44-67 | zero in range reads back as zero if and only if it is a whole number of steps above the bottom, and otherwise as less than one step below zero |
| MitProtocol.SymmetricZero | src/mit_protocol.cpp:44-67 | in every symmetric range, whatever the width, zero reads back as half a step below zero |
| MitProtocol.PackRoundTrip | src/mit_protocol.cpp:92-98 | the eight bytes give all five fields back |
| MitProtocol.UnpackRoundTrip | src/mit_protocol.cpp:92-98 | every eight bytes are the packing of the fields read from them |
| MitProtocol.EncodedFieldsArrive | src/mit_protocol.cpp:69-99 | bytes if and only if all limits are valid and all five values finite and in range; then the motor reads all five, each rounded down by less than one step |
| MitProtocol.ReplyIsUnderstood | src/mit_protocol.cpp:101-123 | a reply is refused exactly for invalid limits or another motor's id; otherwise it decodes to exactly the values of its integers |
| MitProtocol.TemperatureScale | src/mit_protocol.cpp:125-128 | the temperature byte runs from -30 to 150 degrees in 255 equal steps |
| Actuators.EncodeControlBlock | src/bxi_actuator.cpp:294-315 | a block if and only if the actuator is enabled and all five values are finite: saturation leaves nothing out of range |
| Actuators.FeedbackTurnsBack | src/bxi_actuator.cpp:138-155 | position, velocity and effort turned back are the motor's; no temperature exactly when both sensors read below the fault threshold, otherwise the hottest healthy one |
| Actuators.CommandComesBack | src/bxi_actuator.cpp:294-315 | for either direction and any offset, position, velocity and effort commanded through the block, echoed and converted back, are within one quantum of the saturated values, on a known side |
| Actuators.ToldIsClamped | src/bxi_actuator.cpp:304-313 | seen from the joint, the motor is told the joint-limited position, and the velocity, effort and gains asked for, each if and only if that is inside the motor's own range |
| Actuators.ToldStaysInLimits | src/bxi_actuator.cpp:306-309 | whatever is asked, the told position is inside the joint's limits if and only if those overlap the motor's range seen from the joint |
| Actuators.ToldCanLeaveLimits | src/bxi_actuator.cpp:306-309 | a valid actuator whose joint is told a position outside its own limits |
| Actuators.BuildBroadcastFrame | src/bus_streamer.cpp:155-177 | a frame if and only if the length is one CAN FD has and every motor has a slot; then each motor's slot holds its last block or the padding, and the rest is zero |
| PairBytes.BatchFrame | src/bus_streamer.cpp:1407-1442 | a frame if and only if every axis encodes and the block count fits; then each motor's slot holds the block of its own command |
| PairBytes.NothingSaturates | src/pair_system_interface.cpp:108-134 | inside bounds the configuration check lets through, saturation in joint and motor coordinates changes nothing |
| PairBytes.AcceptedValuesReachTheMotors | src/pair_system_interface.cpp:186-241 | in every run in pair mode, every axis of every normal frame encodes, and its motor reads the five accepted values of that generation, each rounded down in motor coordinates by less than one step |
| PairBytes.OtherFramesRelease | src/bus_streamer.cpp:1407-1415 | in every run in pair mode, every axis of every bootstrap, stop and safety frame encodes if and only if its position is a number; its motor then reads kp and kd exactly zero, and velocity and effort zero or less than one step below, zero exactly where that is a step |
| PairBytes.FrameOnTheBus | src/bus_streamer.cpp:1437-1442 | a control frame of any run in pair mode: out of its own slot each motor reads the accepted values of the frame's generation, or that it is released |
| PairBytes.ReleasedEffortIsHalfAStep | src/bxi_actuator.cpp:310-314 | every actuator with a symmetric torque range reads a released command as an effort of half a step below zero |
| PairBytes.ReleasedEffortIsNotZero | src/bxi_actuator.cpp:310-314 | with the ranges of MOTOR_70 every released command asks for the effort -80/4095 |
| FrameSizes.FramesAreWhole | src/bus_streamer.cpp:1407-1410 | in every run in pair mode each frame on the bus has a command for every axis |
| PeriodicSenders.PeriodicSender.TakeReplies | src/bus_streamer.cpp:624-658 | a fault if and only if, after the first send, some motor's reply is too old; the first such motor is reported |
| PeriodicSenders.PeriodicSender.Before | src/bus_streamer.cpp:590-705 | the cycle stops exactly for a silent motor, a temperature fault or a forbidden reply; commands are stale exactly if their age is watched, they were written, and longer ago than allowed; a cycle is skipped as late exactly past its slot, and as a burst exactly within half a period of the last send, neither when stale |
| PeriodicSenders.PeriodicSender.SendFrames | src/bus_streamer.cpp:752-810 | exactly the frames before the first that meets a stop, a closed slot or a refusal have left, each right after its check; a refusal is reported, a closed window is not an error |
| PeriodicSenders.PeriodicSender.Transmit | src/bus_streamer.cpp:811-864 | the outcome and the fault are the ones deserved by the frames that left, the refusal, the stop and the staleness of the commands |
| PeriodicSenders.PeriodicSender.Cycle | src/bus_streamer.cpp:590-865 | one cycle adds exactly the outcome and the frames its findings and answers deserve, goes on exactly unless that is stopped, and keeps accounts and timing |
| PeriodicSenders.PeriodicSender.SendLoop | src/bus_streamer.cpp:590-865 | over every run and clock: traced cycles are sent plus skipped plus partial plus stopped; at most one is stopped and it is the last; starts other than a stale stop are half a period apart; every non-stale frame was checked inside its slot |
| PeriodicSenders.TallyAddsUp | include/bxi_hardware/bus_streamer.hpp:247-255 | every cycle counts under exactly one heading |
| PeriodicSenders.SlotsFollow | src/bus_streamer.cpp:588-591 | the slots follow each other without a gap |
| TraceWriter.BufferedWriter.Flush | src/stream_trace_io.cpp:129-139 | follows the answers of the operating system exactly; success leaves the file as all that was handed over, anything else a prefix of it and the buffer untouched |
| TraceWriter.FlushFollowsAnswers | src/stream_trace_io.cpp:129-139 | a flush goes on over short and interrupted writes, is done once they have taken everything, and fails at the first refusal or zero-length write with exactly the characters taken before it |
| TraceWriter.BufferedWriter.Text | src/stream_trace_io.cpp:146-154 | success appends exactly the text to file plus buffer; what fits makes no call at all; it fails only with a full buffer whose flush failed, and the file is a prefix of the text always |
| TraceWriter.BufferedWriter.Close | src/stream_trace_io.cpp:140-145 | success if and only if the flush is done and the descriptor closes; then everything is in the file; a failed flush keeps the descriptor, a failed close gives it up |
| TraceWriter.Run | src/stream_trace_io.cpp:129-154 | for every call sequence and every pattern of short, interrupted and failing writes: file plus buffer is all the text while calls succeed, and the file is a prefix of it always |
| TraceWriter.RetryAfterFailure | src/stream_trace_io.cpp:129-139 | flushing again after a failure leaves the file right if and only if the failed flush had written nothing |
| TraceWriter.RetryCanDouble | src/stream_trace_io.cpp:129-139 | a concrete script under which a second flush doubles a character |

## Findings

- A flush that fails after a short write keeps its whole buffer, so a second flush writes the first
  part again (`RetryCanDouble`, `RetryAfterFailure`). `StreamTraceOutput` lets the error
  propagate instead of flushing again.
- Outside pair mode the loop can oversleep a feedback deadline: the receive thread reads its clock,
  is delayed past the first send, and stores that stamp after the loop has loaded none for the axis.
  `PlainLoopCanOversleep` is such a run; `NoDeadlineIsMissed` says exactly when it happens. In pair
  mode the capture counts only replies since the first send, and it cannot.
- With a large offset the motor's own range pulls a joint out of its limits: asked for 0 inside
  [-1, 1], it is told -7.5 (`ToldCanLeaveLimits`). Whatever is asked, it stays inside if and only if
  its limits and the motor's range overlap (`ToldStaysInLimits`), and it is told exactly its limited
  target if and only if that is in the motor's range (`ToldIsClamped`). In pair mode the
  configuration check rules both out (`NothingSaturates`).
- A released command is not quite without effort. Gains of zero arrive exactly, but zero effort is no
  step of a symmetric range and arrives as half a step below zero (`ReleasedEffortIsHalfAStep`):
  -80/4095 for a MOTOR_70 (`ReleasedEffortIsNotZero`). It arrives as zero if and only if zero is a whole
  number of steps above the bottom of the range (`ZeroQuantised`).

## Left out

- SocketCAN, eventfd, timerfd, poll, thread priorities: they appear as free results and wake-ups.
- ROS parameters, services, lifecycle, plugins and logging: wrappers around the parts modelled here.
- CSV and trace formatting, file linking, timing statistics: they decide nothing.
- YAML and URDF parsing, the Python tools, tools/ and the mock plugins: long lists of easy checks.
- Activation and release sequencing in src/bxi_system_interface.cpp: resource plumbing; only the writer and reader roles it hands out are kept.
- Floating-point error in the codec, the trajectories and the controllers: exact reals; only Intervals.dfy models rounding.
- SineTrajectories.AccelerationUpperBound: does not model an intermediate result that overflows; the test of the final one is there.
- sin, cos and hypot: an angle is a point of the unit circle; that a continuous function on the ramp takes its maximum at an end or a stationary point is not proved.
- Widths of counters: run numbers, stop counts, sequence numbers and snapshot versions do not wrap.
- Weak memory orders: every atomic access is one sequentially consistent step.
- Liveness under interference: what a thread must do is stated for stretches in which the others leave it alone; nothing says that a thread is ever scheduled or a sleep ever ends.
- Update in place in the command path and the HIL controller: their threads are interleaved, so their state is one value and each atomic access one function on it; `WriteSchedule` is a value there for the same reason.
- Encoding outside pair mode: frames are compared as commands there; in pair mode PairBytes.dfy goes on to the bytes.
- Numeric checks of the pair adapter (deviation, reference jump, temperature): any of them may fire in any cycle; what a cycle computes for an axis is free.
- NAxis.NAxisController.Run: makes no claim that an adopted batch is unmixed, because a held cycle rewrites staged values under a generation already written.
- requestStart, keepalive and requestFinish of the N-axis controller: what update reads from them is free, which covers whatever they let through.
- TraceWriter.Run: covers one file; reopening the writer for the next one after a successful close starts the same story again.
- PeriodicSenders.PeriodicSender.SendLoop: leaves out the per-motor reply counters and row details beyond the outcome.
