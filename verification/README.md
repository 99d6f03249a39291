# Verified models of marengo

A Dafny project about five parts of marengo, the controller software of a robot
arm: the write-behind queue that makes limit changes durable and the gateway call
that waits for it, the analyzer of drive timing in CAN captures, the calibration
trace pipeline, the gravity sweep with the gate it guards, and the rate limiter in
front of actuator commands. Each part is modelled in the form the program has:
objects with fields that methods update, loops where it loops, functions where it
only computes. The results hold for every input, every interleaving and every run that
their statements name; where the program does not keep what it promises, the exact
condition under which it does is proved.

`dafny verify dfyconfig.toml` checks everything. Automatic induction is switched off
on every lemma: each is proved by what its body says.

## How the parts are modelled

**Persist queue** (`LimitConfig`, `PersistQueue`, `Coalescing`, `PersistRuns`,
`PersistOutcomes`, `PersistBatches`, `PersistGuarantees`, `PersistWorker`,
`StrayDirectory`). The slot shared by clients and worker is the class
`ConfigPersistQueue`. Concurrency is a step system: every point where a thread takes
or releases the lock, uses the wake channel, writes or publishes is one step, `Apply`
says when it is enabled and what it does, and `Run` is any interleaving. The disk maps
each configuration directory to its files; writing them and publishing events may fail
at any point. A limit patch carries entries for its joint and a session id of its own,
as the operator's path provides. `System` also records what has happened (accepted
requests, writes, publication attempts) for the theorems to speak about.

**Live configuration** (`LiveConfig`, `LiveBatches`, `LiveRuns`, `EndToEnd`). The
robot's command loop on top of the queue: a tuning changes gains only, a limit patch
one joint's limits; each is made live when its request is accepted and rolled back
otherwise. These runs interleave with every step of the worker and of shutdown.

**Gateway call** (`GatewayAck`). The broadcast subscription is a class whose inbox a
wait consumes; deliveries may lag, be dropped, reordered and interleaved with foreign
traffic. The last section joins it to the persist queue's runs, `EndToEnd` to the
robot's.

**Drive timing** (`DriveTiming`, `DriveRuns`, `StatusMatching`, `DriveHistory`,
`SilenceHistory`, `ReplyHistory`, `ReportHistory`, `DriveFiles`, `EndOfCapture`,
`BusLoad`, `CaptureAnalyzer`). Times are exact reals in seconds, samples are milliseconds.
`DriveState` keeps the state and the samples of one drive grouped by the window they
belong to. Its methods are proved equal to transition functions, and the theorems are
about all captures run through those functions: the history modules say, without any
running state, what each recorded sample is.

**Calibration trace** (`Trace`, `ForwardFill`, `StaleRows`, `Segmentation`,
`SettledWindow`, `FrictionRegression`, `UnifiedDiff`). Numbers are exact reals. Unified diffs are judged
by a strict applier written from the POSIX `diff` utility description, section
"Diff -u or -U Output Format": a hunk applies only where its header says and only if
every context and removed line matches.

**Sweep and gate** (`GravitySweep`, `EnableGate`, `ArmFates`, `EnableFates`). The gravity
model is an arbitrary fixed function of the pose that may fail or return non-finite
torques. The gate is proved over all sequences of calls on it.

**Rate limiter** (`RateLimiter`). The evicting map is compared with one that never
drops a bucket, for clocks that may step back between calls, since callers read the
clock before they take the lock.

## Where the code does not do what its comments say

- `enable_gate.rs:320-321` says no held command survives a Disable. Commands held
  behind a sweep that has already passed do: `CancelClearsIff` gives the exact
  condition and `HeldCommandOutlivesDisable` a run.
- `limit_persist.rs:417-421` lets a control-only save take over the motors of a pending
  one without the comparison of directories that lines 262-266 make for a pending patch.
  The queue can then report a patch Durable and write its motors into another directory
  (`DurableElsewhere`). `CoalescedMotorsAreSequentialIff` gives the exact condition.
  The robot names one directory only, so it never meets the case.
- `limit_persist.rs:645-651` tells the operator that a later limit patch was written
  instead. The queue alone does not ensure that there is one (`SupersededWithoutPatch`
  gives a batch, `SupersededIsTrueIff` the exact condition). For the robot's own requests
  the message is true (`SupersededIff`).
- `enable_gate.rs:201` says that `enabled` follows once an Enable is complete. An Enable
  begun while another is pending silently takes its place, and the first one never ends:
  `EnablesEndOnceIff` gives the exact condition and `EnableVanishes` a run.
- The "worker disconnected" branch of `enqueue` cannot be reached (`NeverDisconnected`),
  and neither can "empty measurement window" of `measure_steps`
  (`SettledWindow.MeasureHold`).
- The unified diff of an empty and a non-empty text is not a patch: its header counts
  lines from 1 where the format wants 0 for an empty range (`UnifiedDiff.Diff`).
- `firmware_timing.rs:669-673` says kernel error frames are never traffic. They still
  set the end time of the file, so a trailing one can close windows: `TrailingErrorIff`
  says exactly when that shows, `TrailingErrorCounts` gives a capture.

## Model

| member | source | states |
|---|---|---|
| LimitConfig.ReplaceMotor | crates/davout/src/limit_envelope.rs:42-50 | Updating a motor in place makes lookups of its joint return it and leaves every other joint's lookup alone. |
| PersistQueue.ConfigPersistQueue.Spawn | bins/marengo-pi/src/limit_persist.rs:346-388 | A new queue accepts, holds nothing, and its worker holds the receiving end. |
| PersistQueue.ConfigPersistQueue.Enqueue | bins/marengo-pi/src/limit_persist.rs:395-436 | Admission closed: refused and nothing changes. Worker gone: closed with an error. Otherwise the request is installed over any pending one and the worker is woken; a coalescing that is refused leaves slot and counters as they were. |
| PersistQueue.ConfigPersistQueue.CloseAdmission | bins/marengo-pi/src/limit_persist.rs:480-490 | Only admission closes; a wake token is queued unless the receiver is gone. |
| PersistQueue.ConfigPersistQueue.Take | bins/marengo-pi/src/limit_persist.rs:591-601 | The worker takes the pending request together with every completion riding on it, or changes nothing. |
| PersistQueue.ConfigPersistQueue.Finalise | bins/marengo-pi/src/limit_persist.rs:719-731 | One write is counted as success or failure, a failed publication is counted, and the slot stops writing. |
| PersistQueue.ConfigPersistQueue.WorkerExit | bins/marengo-pi/src/limit_persist.rs:170-186 | The guard closes admission and marks the worker done, with an error unless it returned normally; an earlier error stays. |
| PersistRuns.StepKeepsControl | bins/marengo-pi/src/limit_persist.rs:555-734 | Every step of any interleaving keeps: no lost wakeup, the worker's lifecycle, a clean exit, an accurate writing flag, and carried completions only with a pending request that has motors. |
| PersistRuns.StepConserves | bins/marengo-pi/src/limit_persist.rs:395-436 | Every step keeps accepted = successful + failed + coalesced + pending + in flight, below counter saturation. |
| PersistBatches.StepKeepsBatched | bins/marengo-pi/src/limit_persist.rs:405-424 | Every step keeps: each write is the coalescing of one stretch of the accepted requests, and the stretches of the writes, of the request in the worker's hands and of the pending one follow each other without gap or overlap. |
| PersistBatches.StepKeepsAnnounced | bins/marengo-pi/src/limit_persist.rs:626-714 | Every step keeps: each completion is the one its write's stretch and outcome call for at that place. |
| PersistBatches.StepKeepsSequenced | bins/marengo-pi/src/limit_persist.rs:626-714 | Every step keeps: the publication attempts are those of the writes in order, for each write its riders and then its own, and the write whose completions are still due has published a prefix of them. |
| PersistBatches.EveryRunIsSound | bins/marengo-pi/src/limit_persist.rs:555-734 | All invariants together hold in every reachable state, and unless a write failed the disk is that of the writes in order. |
| PersistGuarantees.EveryRunPlaces | bins/marengo-pi/src/limit_persist.rs:591-714 | In every run the times a session was accepted equal the times it waits, is in the worker's hands, was completed or was lost. |
| PersistGuarantees.ExactlyOneCompletion | bins/marengo-pi/src/limit_persist.rs:395-436 | An accepted patch is in exactly one place, or completed exactly once; nothing is lost unless the worker unwound; carried completions always ride on a pending request with motors. |
| PersistGuarantees.DurableIsBacked | bins/marengo-pi/src/limit_persist.rs:626-653 | A completion belongs to a patch its own write stands for and says Durable, superseded or failed exactly as that write did; its bounds are then in its own directory if and only if it says Durable and the last request of the batch names that directory. |
| PersistGuarantees.NoInventedCompletion | bins/marengo-pi/src/limit_persist.rs:633-714 | Every limit-patch completion names the session of an accepted patch. |
| PersistGuarantees.EveryCompletionIsTrue | bins/marengo-pi/src/limit_persist.rs:633-714 | In every run each attempt belongs to one write. The request's own names the time, session, operator, joint and action of the last request of its stretch and is accepted, Durable, completed and with the write's revision if and only if the write succeeded, else refused, Failed, with no revision, for every kind of request. A carried one names its patch and says the same if and only if the write also holds its bounds, else failed or superseded. |
| PersistGuarantees.CompletionsAreComplete | bins/marengo-pi/src/limit_persist.rs:633-714 | In every run, unless the worker is publishing or unwound, the attempts are exactly those of the writes in order: for each write one for every patch that rode on it, then one of its own. |
| PersistGuarantees.PendingIsTaken | bins/marengo-pi/src/limit_persist.rs:570-601 | While a request is pending and the worker runs, the worker can step, never waits out its timeout, and every step takes the request or brings the take strictly closer. |
| PersistGuarantees.NeverDisconnected | bins/marengo-pi/src/limit_persist.rs:427-433 | The disconnected branch of enqueue is unreachable in every run. |
| PersistGuarantees.NothingAfterExit | bins/marengo-pi/src/limit_persist.rs:570-582 | After a normal worker exit the slot is empty and stays empty, with no further accepted request or write, whatever follows. |
| PersistGuarantees.EveryRunConserves | bins/marengo-pi/src/limit_persist.rs:134-156 | The counters of the drain report account for every accepted request in every reachable state. |
| PersistGuarantees.IdleDiskIsCurrent | bins/marengo-pi/src/limit_persist.rs:591-624 | When nothing is pending or in flight and no write failed, the motors in every directory are those of sequential writing, provided each batch meets the condition of CoalescedMotorsAreSequentialIff. |
| PersistGuarantees.OneDirectoryIsCurrent | bins/marengo-pi/src/main.rs:1683 | When all requests name one directory, as the robot's do, that condition always holds. |
| PersistGuarantees.CompleteDrainLosesNothing | bins/marengo-pi/src/limit_persist.rs:440-477 | A Complete drain means every write succeeded, every accepted patch got exactly one delivered completion and the disk is that of the writes; under the same condition its motors are those that writing every request in order leaves. |
| PersistGuarantees.DrainStatusIff | bins/marengo-pi/src/limit_persist.rs:134-156 | In every run the drain says worker failed if and only if the worker unwound, timed out if and only if it has neither ended nor unwound, complete if and only if it ended normally, every write succeeded and every completion was delivered, and completed with failures if and only if it ended normally and one did not or was not. |
| StrayDirectory.DurableElsewhere | bins/marengo-pi/src/limit_persist.rs:417-421 | A run in which a patch is reported Durable although its directory was never written. |
| PersistWorker.PublishCompletions | bins/marengo-pi/src/limit_persist.rs:626-714 | Each carried completion and then the request's own is attempted once, in order, whatever fails; each tells whether the write succeeded, a carried one whether it also holds that patch's bounds; the result says whether all were delivered. |
| PersistWorker.ServeOne | bins/marengo-pi/src/limit_persist.rs:590-732 | One turn takes, writes, publishes true completions of that write and finalises, or finds nothing and changes nothing. |
| Coalescing.CoalescedMotorsAreSequentialIff | bins/marengo-pi/src/limit_persist.rs:405-424 | A batch's one write leaves, on every disk and in every directory, the motors that writing its requests in order leaves if and only if every request of the batch with motors names the directory of the last one. |
| Coalescing.CoalescedFilesAreSequentialIff | bins/marengo-pi/src/limit_persist.rs:258-321 | It leaves all the files of sequential writing if and only if the batch names one directory and a control-only save at its end already holds the patch it directly replaces. |
| Coalescing.CarriedIsHeldIff | bins/marengo-pi/src/limit_persist.rs:219-247 | A batch's write holds the bounds of one of its patches if and only if the last motors snapshot of the batch has its hard limits and the last control snapshot, with a patch directly before it imposed again, its soft ones. |
| Coalescing.SupersededIsTrueIff | bins/marengo-pi/src/limit_persist.rs:644-652 | The report that a later patch on the joint was written instead is true of a batch's patch if and only if the batch's last snapshots hold its bounds, so that it is not reported, or such a patch is in the batch. |
| Coalescing.SupersededWithoutPatch | bins/marengo-pi/src/limit_persist.rs:644-652 | A patch and two control-only saves whose write does not hold the patch's bounds, with no later patch. |
| Coalescing.CarriedAreThePatches | bins/marengo-pi/src/limit_persist.rs:405-424 | The completions that ride on a batch are those of its limit patches before the last request, each once and in order. |
| Coalescing.MotorsGoAstray | bins/marengo-pi/src/limit_persist.rs:417-421 | Three requests whose one write puts a patch's motors into another directory, leaves its own alone and still holds its bounds. |
| Coalescing.ReimposedIsNoOpIff | bins/marengo-pi/src/limit_persist.rs:299-320 | Re-imposing a patch on a control snapshot changes nothing if and only if the snapshot already holds its fields. |
| LiveConfig.ChangeIsDerived | bins/marengo-pi/src/overlay.rs:304-393 | Whatever changes the live configuration, the request enqueued for it moves at most its own joint's limits, and only a limit patch moves any. |
| LiveConfig.LiveApplyIff | crates/davout/src/limit_envelope.rs:17-60 | A limit patch is applied if and only if its joint is not blank and in both files, its hard limits are ordered, its torque and velocity limits positive and its soft limits, given or default, ordered; then its joint has the limits given, the soft ones moved into the hard range, the old torque and velocity limits where it gives none, and no other entry changes. |
| LiveConfig.AppliedSnapshotHoldsCommand | crates/davout/src/limit_envelope.rs:17-60 | The snapshot enqueued for a live-applied command holds the hard limits as commanded and soft limits, by default 0.027 rad or a quarter of the range inside the hard ones, clamped into them and in order. |
| LiveBatches.HeldIffLastPatchKeeps | bins/marengo-pi/src/limit_persist.rs:249-257 | For requests from one live configuration a batch's write holds a patch's bounds if and only if the last patch on its joint in the batch keeps them. |
| LiveRuns.EveryLiveRunIsConsistent | bins/marengo-pi/src/overlay.rs:304-470 | In every run each accepted request comes from the live configuration of its moment, and the live limits are those of the last accepted request unless a refused patch could not be rolled back. |
| LiveRuns.NoSaveIsRefused | bins/marengo-pi/src/overlay.rs:346-367 | No request of the robot is refused by the request it replaces: only closed admission refuses. |
| LiveRuns.LiveDiskIsSequential | bins/marengo-pi/src/limit_persist.rs:258-321 | At rest, with no failed write, both files of every directory are those of sequential writing, in every run. |
| LiveRuns.DiskHoldsLiveLimits | bins/marengo-pi/src/overlay.rs:396-470 | At rest the files hold exactly the motors, soft limits and velocity caps the robot enforces, if they did at the start. |
| LiveRuns.SupersededIff | bins/marengo-pi/src/limit_persist.rs:620-653 | A completion says superseded if and only if its write succeeded and the last patch on its joint in that write has other bounds, and Durable if and only if its bounds were written into its directory. |
| GatewayAck.Receiver.RecvActionAck | bins/marengo-gateway/src/action_ack.rs:13-47 | The wait returns and leaves unread exactly what the specification functions say of the buffered and arriving deliveries. |
| GatewayAck.AckedIsFirstStop | bins/marengo-gateway/src/action_ack.rs:20-46 | The answer is the first event of this session and action, or the synthetic failure if the channel closes before one; none exactly when neither occurs. |
| GatewayAck.ApplyLimitPatch | bins/marengo-gateway/src/limit_patch.rs:53-216 | Refused unless joint, revision and publish are in order and the live acknowledgement accepts; otherwise the answer that AnswerIsDecided describes, over the deliveries the live wait left and those that arrive. |
| GatewayAck.AnswerIsDecided | bins/marengo-gateway/src/limit_patch.rs:142-201 | The whole answer in terms of the deliveries: ok and Durable if and only if the first completion heard after the accepting live acknowledgement is accepted and Durable, ok and Pending if and only if it is accepted and neither Durable nor Failed, not ok and Pending if and only if none comes, and Failed otherwise. |
| GatewayAck.OkMeansDurable | bins/marengo-gateway/src/limit_patch.rs:142-201 | In every run of the queue and under every loss and reordering of events the call answers ok if and only if it answers Durable. |
| GatewayAck.HeardFailureIsRefused | bins/marengo-gateway/src/limit_patch.rs:142-201 | In every run of the queue, when the completion the call hears first is superseded or failed the answer is not ok and Failed. |
| GatewayAck.DurableNeedsEvent | bins/marengo-gateway/src/limit_patch.rs:142-201 | Durable is answered only for a delivered, accepted, Durable persist event of this very session. |
| GatewayAck.DurableAnswerIsOnDisk | bins/marengo-gateway/src/limit_patch.rs:142-201 | In every run of the queue and under every loss, delay and reordering of events, when the call answers Durable its patch was accepted and a successful write that stands for it held its bounds, in its own directory if and only if the batch ended in that directory. |
| EndToEnd.DurableAnswerMeansRequestedLimits | bins/marengo-gateway/src/limit_patch.rs:218-236 | In every run of the robot, when the call answers Durable the limits it asked for, and those it looked up where it asked for none, were written to the files of the robot's directory. |
| EndToEnd.ApplyLimitPatchOnRobot | bins/marengo-gateway/src/limit_patch.rs:53-216 | When the call, run against any run of the robot, returns Durable, it returns ok and the requested limits were written to the files of the robot's directory. |
| RateLimiter.Limiter.AllowRequest | bins/marengo-gateway/src/ratelimit.rs:146-159 | Answer and new buckets are those of the reference call with eviction; a blank client is refused without a trace. |
| RateLimiter.Limiter.RefundRequest | bins/marengo-gateway/src/ratelimit.rs:162-172 | A refund touches one existing bucket of a non-blank client and nothing else. |
| RateLimiter.SameKeyIff | bins/marengo-gateway/src/ratelimit.rs:103-122 | Two calls share a bucket if and only if they are of one kind and, for tuning, client and joint read the same joined, for motion, diagnostics and testing the joint is the same whoever calls, and for a status poll always. |
| RateLimiter.TuningIsPerClientAndJoint | bins/marengo-gateway/src/ratelimit.rs:111-113 | For joint names without a colon two tuning calls share a bucket if and only if client and joint are the same. |
| RateLimiter.EvictionIsUnobservable | bins/marengo-gateway/src/ratelimit.rs:141-172 | Every answer equals that of a limiter that never evicts: for any calls under a clock that never steps back, and for steps back of up to 298 s when each refund promptly follows its allow. |
| RateLimiter.NetAllowedIsBounded | bins/marengo-gateway/src/ratelimit.rs:64-88 | Over any interval, calls allowed on a key less those refunded are at most the published burst plus the published rate times its length. |
| RateLimiter.AllowedIff | bins/marengo-gateway/src/ratelimit.rs:64-88 | A call of a non-blank client is allowed if and only if, since each earlier call on its key, the calls allowed less those refunded plus this one are at most the burst plus what the rate has brought since. |
| RateLimiter.BlankIsRefused | bins/marengo-gateway/src/ratelimit.rs:147-149 | A blank client is always refused and leaves no trace. |
| RateLimiter.TokensInRange | bins/marengo-gateway/src/ratelimit.rs:64-88 | A bucket always holds between nothing and its burst. |
| GravitySweep.Start | bins/marengo-pi/src/gravity_preflight.rs:128-198 | A sweep starts if and only if every joint has a motor, policy, position and valid envelope and there are at most eight joints; it captures each envelope and evaluates nothing. |
| GravitySweep.GridFitsIff | bins/marengo-pi/src/gravity_preflight.rs:175-185 | The sample bound admits exactly up to eight joints. |
| GravitySweep.EveryPointIsSampled | bins/marengo-pi/src/gravity_preflight.rs:275-282 | Every point of the grid is the pose of some sample below 5^n. |
| GravitySweep.GravitySweep.Evaluate | bins/marengo-pi/src/gravity_preflight.rs:275-306 | True exactly when the model vouches for the sample's pose, and then the recorded maxima cover it. |
| GravitySweep.GravitySweep.WithinLimits | bins/marengo-pi/src/gravity_preflight.rs:308-327 | True exactly when every joint's torque is within a positive finite limit at every sample. |
| GravitySweep.MaximaDecide | bins/marengo-pi/src/gravity_preflight.rs:298-313 | Comparing each joint's maximum with its limit decides every sample. |
| GravitySweep.GravitySweep.Advance | bins/marengo-pi/src/gravity_preflight.rs:229-272 | Any budget makes progress; the last slice ends in the verdict and sample count of the one-shot sweep. |
| GravitySweep.RunSweep | bins/marengo-pi/src/gravity_preflight.rs:229-272 | Under any sequence of budgets the sweep ends within 5^n slices in the one-shot verdict. |
| GravitySweep.PassedIffGridIsSafe | bins/marengo-pi/src/gravity_preflight.rs:225-228 | Passed if and only if at every pose that puts each joint at its lower end, its upper end or one of the three equally spaced points between, the model gives one finite torque per joint, each within a positive limit in either direction. |
| EnableGate.EnableGateObject.BeginPreflight | bins/marengo-pi/src/enable_gate.rs:106-116 | A second sweep is handed back while one is pending. |
| EnableGate.EnableGateObject.EndPreflightNow | bins/marengo-pi/src/enable_gate.rs:166-194 | With a sweep pending its request is refused and every held command discarded; without one nothing happens. |
| EnableGate.EnableGateObject.Submit | bins/marengo-pi/src/enable_gate.rs:223-252 | An arm waits behind a pending Enable or an earlier arm; otherwise it is attempted once and waits only if the Enable is incomplete. |
| EnableGate.EnableGateObject.Poll | bins/marengo-pi/src/enable_gate.rs:256-318 | Reports, waits for or fails the pending Enable, then retries arms in order until one must wait. |
| EnableGate.EnableGateObject.RetryDeferred | bins/marengo-pi/src/enable_gate.rs:301-316 | The retry loop leaves the arms, attempts and lines of the recursive specification. |
| EnableGate.EnableGateObject.Cancel | bins/marengo-pi/src/enable_gate.rs:322-331 | Disable ends the sweep, the Enable and every arm, with one line each. |
| EnableGate.EveryRunIsOrderly | bins/marengo-pi/src/enable_gate.rs:99-344 | Every sequence of calls keeps arms, held stdin commands and held Chappe enables in arrival order, each ended once, deadlines sorted, at most 64 held of either kind. |
| EnableGate.HeldEndOnceInOrder | bins/marengo-pi/src/enable_gate.rs:122-194 | Held stdin commands and held Chappe enables run or are discarded in arrival order, each exactly once, and at most 64 of each wait. |
| EnableGate.ArmsEndOnceInOrder | bins/marengo-pi/src/enable_gate.rs:223-318 | Arms end in arrival order with exactly one outcome each, and none was attempted while an Enable was pending and not complete. |
| EnableGate.PollLeavesNoOverdueArm | bins/marengo-pi/src/enable_gate.rs:301-316 | After a poll that reaches the arms every waiting arm's deadline is still ahead. |
| EnableGate.FailedEnableRefusesAll | bins/marengo-pi/src/enable_gate.rs:272-299 | A failed Enable stops the drives, attempts no arm and refuses every one of them, in order. |
| EnableGate.CancelClearsIff | bins/marengo-pi/src/enable_gate.rs:320-331 | Disable clears sweep, Enable and arms, and the held commands if and only if a sweep was pending or none were held. |
| EnableGate.HeldCommandOutlivesDisable | bins/marengo-pi/src/enable_gate.rs:166-170 | A run in which a command held behind a passed sweep runs after a Disable. |
| ArmFates.ArmsEndAsAttempted | bins/marengo-pi/src/enable_gate.rs:223-331 | In every run an arm ended done if and only if its last attempt armed, with an error if and only if that attempt failed with it, late if and only if that attempt found the Enable incomplete at or after its deadline, and cancelled only by a failed Enable, a Disable or a cancel of the arms, with that call's reason. |
| ArmFates.PollGoesOnUntilToldToWait | bins/marengo-pi/src/enable_gate.rs:301-316 | A poll that reaches the arms attempts them in order up to and including the first that has to wait, and no further. |
| EnableFates.EnablesEndOnceIff | bins/marengo-pi/src/enable_gate.rs:201-331 | In every run the lines that end an Enable are those of the Enables that ended, one each and in order; every Enable ends exactly once, with the line its ending call has for it (enabled, failed once lost or two seconds old, or cancelled), or is still pending, if and only if none was begun while another was pending. |
| EnableFates.EnableVanishes | bins/marengo-pi/src/enable_gate.rs:212-216 | A run in which an announced Enable is replaced and never ends. |
| EnableFates.PollEndsEnableIff | bins/marengo-pi/src/enable_gate.rs:256-299 | A poll ends the pending Enable if and only if it completed, lost its session or reached its deadline. |
| EnableFates.SweepsEndOnce | bins/marengo-pi/src/enable_gate.rs:106-199 | In every run each request behind a sweep ends exactly once: it passes, or is refused with one line or one refusal for publication, in order, none lost and none twice. |
| EnableFates.DiscardsAreTold | bins/marengo-pi/src/enable_gate.rs:166-194 | In every run the counts that the discard lines print add up to the held stdin commands that were dropped. |
| ForwardFill.TracePeriods | bins/marengo-log-cli/src/gravity_fit.rs:987-1008 | The one-pass map gives every joint its period over the whole trace. |
| ForwardFill.MedianSplits | bins/marengo-log-cli/src/gravity_fit.rs:1001-1007 | At most half of the gaps lie below the period's median and more than half at or below it. |
| ForwardFill.PeriodIff | bins/marengo-log-cli/src/gravity_fit.rs:985-987 | A joint has a period if and only if it is traced twice or more. |
| ForwardFill.Fill | bins/marengo-log-cli/src/gravity_fit.rs:1008-1056 | Every tick keeps its time and holds for each joint exactly the row that stands for it; the stale runs are exactly the runs of dropped ticks, in order of last row and joint, and per joint they add up to all dropped ticks. |
| StaleRows.PeriodIsMedian | bins/marengo-log-cli/src/gravity_fit.rs:985-1006 | The period a joint is filled by is the upper median of the gaps between its consecutive rows, at least one tick; it exists if and only if the joint is traced twice or more. |
| StaleRows.FilledStandsFor | bins/marengo-log-cli/src/gravity_fit.rs:1009-1045 | The filled trace has a joint at a tick if and only if its latest row up to there is the tick's own or at most two periods old, and then that row. |
| StaleRows.ReportedIffStale | bins/marengo-log-cli/src/gravity_fit.rs:1026-1055 | The reported stale runs are exactly those of the trace: for each row that is too old at some tick before the joint's next row, how many such ticks there are, and where the joint was traced again. |
| Segmentation.FindHolds | bins/marengo-log-cli/src/gravity_fit.rs:1100-1130 | Holds are found in plan order, each at the first tick that shows its target after the previous start; one is skipped only if its target never shows again. |
| Segmentation.SetEnds | bins/marengo-log-cli/src/gravity_fit.rs:1131-1139 | Each hold runs until some joint's target changes, or the next hold starts. |
| Segmentation.GapIsClear | bins/marengo-log-cli/src/gravity_fit.rs:1150-1164 | The gap of a wave runs from the latest end of an earlier hold, or the start of the trace, to the earliest start of a later one, or the end of the trace. |
| Segmentation.SplitWaves | bins/marengo-log-cli/src/gravity_fit.rs:1220-1260 | If every wave departs, each share starts at the first tick at or after the end of the share before at which its reference leaves its minimum, and ends at the first tick of the gap later than its start by more than its nominal duration, or at the end of the gap; the gap is split evenly, at whole ticks, if and only if some wave has no such departure. |
| Segmentation.SharesAreUnique | bins/marengo-log-cli/src/gravity_fit.rs:1213-1219 | The shares of a group of waves are determined by plan and trace. |
| Segmentation.PlaceWaves | bins/marengo-log-cli/src/gravity_fit.rs:1140-1210 | Every wave step has exactly its share of the gap between its neighbouring holds, as SplitWaves describes it for the waves of that gap, or is skipped because gap or share has no tick. |
| Segmentation.SegmentPlan | bins/marengo-log-cli/src/gravity_fit.rs:1097-1211 | Every step is in exactly one of holds, waves and skipped; all ranges are non-empty, in bounds and wholly before those of later steps, for complete and aborted sessions; holds run from where their target first shows until a target changes, and each wave has exactly its share. |
| SettledWindow.SettledRun | bins/marengo-log-cli/src/gravity_fit.rs:1290-1308 | The backward scan stops where the longest settled run that reaches the end of the hold begins: at every tick from there on every joint is traced at 0.1 rad/s or slower and the measured one within 0.05 rad of its target, and not at the tick before. |
| SettledWindow.MeasureHold | bins/marengo-log-cli/src/gravity_fit.rs:1309-1357 | Never settled, regressed or too short are reported exactly then; otherwise every joint's means of position, torque and commanded torque are taken over exactly the settled ticks at most the time asked for, or one second, before the end, and the reported length is that from the first of them to the end of the hold. |
| SettledWindow.Means | bins/marengo-log-cli/src/gravity_fit.rs:1330-1343 | The divisor equals the number of rows summed for every joint. |
| SettledWindow.MeasuredFromSuffix | bins/marengo-log-cli/src/gravity_fit.rs:1309-1329 | When time never runs backwards the window is the end of the settled run, cut at the first recent tick, its reported length is the time it spans, and no other failure occurs. |
| SettledWindow.MeasuredOnTarget | bins/marengo-log-cli/src/gravity_fit.rs:1290-1343 | The measured joint's mean position is within the settling band of its target. |
| SettledWindow.MeasuredRowsAreRecent | bins/marengo-log-cli/src/gravity_fit.rs:1009-1014 | Over a filled trace every row that enters a mean is its joint's latest row and at most two of the joint's own periods old. |
| FrictionRegression.RegressFriction | bins/marengo-log-cli/src/gravity_fit.rs:1537-1576 | Whenever it answers, (fc, fv) is the unique pair of least squared error and R² is one less its squared error over the spread about the mean, one exactly for an exact fit; it refuses if and only if there are fewer than 20 samples or all have one speed. |
| FrictionRegression.DetDetectsCollinear | bins/marengo-log-cli/src/gravity_fit.rs:1552-1555 | The determinant is never negative, and zero exactly for collinear samples. |
| FrictionRegression.NormalIsBest | bins/marengo-log-cli/src/gravity_fit.rs:1556-1557 | A solution of the normal equations has strictly less error than any other pair. |
| UnifiedDiff.Align | bins/marengo-log-cli/src/gravity_fit.rs:1977-1990 | The alignment ends and covers every line of both sides once, in order; an old line is passed over alone only when no new one is left, a new one alone only when no old one is left or the line after it is the old one and it is not. |
| UnifiedDiff.PrintHunk | bins/marengo-log-cli/src/gravity_fit.rs:2009-2031 | A hunk's header starts and lengths match the lines it shows, it shows exactly its stretch of both sides, and as common exactly the positions with the same line. |
| UnifiedDiff.Diff | bins/marengo-log-cli/src/gravity_fit.rs:1971-2035 | Applied strictly to the old lines the hunks give exactly the new ones if and only if both or neither text is empty; there are no hunks if and only if the texts are equal; the hunks are the longest stretches of the alignment at most three positions from a change. |
| DriveTiming.DriveState.Expire | bins/marengo-log-cli/src/firmware_timing.rs:381-425 | Every window past its deadline closes, as its transition function says, and nothing else changes. |
| DriveTiming.DriveState.OnHost | bins/marengo-log-cli/src/firmware_timing.rs:435-496 | A host command opens, closes and counts exactly as the transition functions of all windows say. |
| DriveTiming.DriveState.OnDrive | bins/marengo-log-cli/src/firmware_timing.rs:498-598 | A drive frame ends a gap, answers windows and records samples exactly as the transition functions say. |
| DriveTiming.DriveState.FinishFile | bins/marengo-log-cli/src/firmware_timing.rs:429-433 | The end of a file closes late windows, then the SetZero and Off windows it cut short. |
| DriveRuns.ExpireTwice | bins/marengo-log-cli/src/firmware_timing.rs:381-425 | Expiring at t and then at a later u equals expiring at u. |
| DriveRuns.LazyIsEager | bins/marengo-log-cli/src/firmware_timing.rs:690-705 | Adding timers at any instants between the frames of a file changes no sample and no count. |
| DriveRuns.RequestsAreConserved | bins/marengo-log-cli/src/firmware_timing.rs:346-598 | For every capture: Enables = run + never run + open, MIT = replies + unanswered + pending, identity = replies + unanswered + open, SetZeros = silences + unobservable. |
| DriveRuns.LatenciesAreBounded | bins/marengo-log-cli/src/firmware_timing.rs:381-598 | Every recorded latency is non-negative and within its window; every silence lasts at least 20 ms and ends within its SetZero window. |
| StatusMatching.MatchingIsOneToOneInOrder | bins/marengo-log-cli/src/firmware_timing.rs:43-49 | A status answers the earliest solicit before it that is at most 5 ms old and that no earlier status answered; this pairs each solicit with at most one status and each status with at most one solicit, in order. |
| StatusMatching.QueueIsWaiting | bins/marengo-log-cli/src/firmware_timing.rs:415-425 | At any instant the queue holds exactly the solicits that the matching leaves unanswered and that are in time, in order. |
| StatusMatching.AnsweredIff | bins/marengo-log-cli/src/firmware_timing.rs:498-504 | The queue calls a status answered if and only if the matching pairs it, and then with the solicit at its front. |
| StatusMatching.UnansweredAreLost | bins/marengo-log-cli/src/firmware_timing.rs:415-425 | The unanswered count is the number of MIT commands that no status answered and whose 5 ms have passed. |
| DriveHistory.FlagsMeanHistory | bins/marengo-log-cli/src/firmware_timing.rs:321-335 | Every incremental evidence flag equals its meaning over the whole history of frames. |
| SilenceHistory.OwedIff | bins/marengo-log-cli/src/firmware_timing.rs:504-520 | Requests are owed if and only if both ends of the gap answer a solicit, a request but no reporting write lies in it, and no two consecutive frames across it are over 20 ms apart; likewise for a running stream. |
| SilenceHistory.BestIsLongest | bins/marengo-log-cli/src/firmware_timing.rs:521-529 | The best gap is one that qualifies and none that qualifies is longer; there is none exactly when none qualifies. |
| SilenceHistory.SilencesAreLongest | bins/marengo-log-cli/src/firmware_timing.rs:353-364 | After the file every SetZero is credited, in order, with the longest observable silence of its window, or counted as unobservable. |
| ReplyHistory.FirstEndIsFirst | bins/marengo-log-cli/src/firmware_timing.rs:11-14 | The frame that decides a request is the first after it that supersedes, cancels or answers it. |
| ReplyHistory.RepliesArePaired | bins/marengo-log-cli/src/firmware_timing.rs:11-51 | After the file every Enable, Disable, identity and parameter request is recorded, in order, with the time to its first reply if that comes in its window and before a superseding or cancelling command; the Enables and identity requests for which it does not are counted, and so are the Reset frames while an Enable waits. |
| ReportHistory.MitRepliesAreMatched | bins/marengo-log-cli/src/firmware_timing.rs:43-49 | The recorded MIT latencies are those of the matched pairs, in the order of the statuses. |
| ReportHistory.PeriodsAreUnbroken | bins/marengo-log-cli/src/firmware_timing.rs:34-36 | Report periods are exactly the intervals between consecutive reports that no reporting write or SetZero spans and that do not start within a SetZero window. |
| ReportHistory.ReportsArePaired | bins/marengo-log-cli/src/firmware_timing.rs:34-49 | After the file periods, MIT latencies, the unanswered count and, for each Off that stopped a running stream, the time to its last report (less one that answers the next write) are those of the history. |
| DriveFiles.FilesAreIndependent | bins/marengo-log-cli/src/firmware_timing.rs:653-664 | No pairing crosses a file boundary: what a file adds does not depend on the files before it. |
| EndOfCapture.TrailingErrorIff | bins/marengo-log-cli/src/firmware_timing.rs:666-677 | Appending a kernel error frame to a capture leaves a drive's samples alone, whatever files came before, if and only if among the drive's frames no Enable or identity request that nothing replies to, supersedes or cancels, and no MIT command that no status answers, is in time at the frame before and too old at the error frame. |
| EndOfCapture.TrailingErrorCounts | bins/marengo-log-cli/src/firmware_timing.rs:666-677 | A capture of an Enable and a kernel error frame: with the error frame the Enable counts as never run, without it as open, after any earlier files. |
| BusLoad.OnBus | bins/marengo-log-cli/src/firmware_timing.rs:721-739 | The sliding window and the gap flag are those of the specification functions. |
| BusLoad.NextMeters | bins/marengo-log-cli/src/firmware_timing.rs:729-737 | Sliding keeps exactly the frames less than 10 ms older than the last one. |
| BusLoad.NoWindowIsBusier | bins/marengo-log-cli/src/firmware_timing.rs:721-739 | No half-open 10 ms window, wherever it starts, holds more frames than the busiest of those that end with a frame. |
| BusLoad.LoadIsReached | bins/marengo-log-cli/src/firmware_timing.rs:721-739 | The load at each frame is reached by some real window. |
| CaptureAnalyzer.DriveIsRun | bins/marengo-log-cli/src/firmware_timing.rs:684-705 | In one pass over a mixed capture each drive is run on its own frames only. |
| CaptureAnalyzer.BusesMeasured | bins/marengo-log-cli/src/firmware_timing.rs:721-739 | The maximum is that over every window of every interface, and the gaps are summed over interfaces. |
| CaptureAnalyzer.NonNeutralMeans | bins/marengo-log-cli/src/firmware_timing.rs:694-700 | The count of non-neutral MIT commands grows by those of the file, and the first and the last of all files so far are kept on the joined timeline. |
| CaptureAnalyzer.Analyzer.OnFrame | bins/marengo-log-cli/src/firmware_timing.rs:666-706 | A kernel error frame moves only the time of the last frame; any other adds to its interface, and a drive's frame to its drive. |
| CaptureAnalyzer.Analyzer.AddFile | bins/marengo-log-cli/src/firmware_timing.rs:628-664 | A drive's samples depend only on its own frames and the end of the file; the bus maximum is that of every 10 ms window; drives are listed exactly if they had a frame. |
| CaptureAnalyzer.ErrorsAreInvisible | bins/marengo-log-cli/src/firmware_timing.rs:666-677 | Captures that differ only in kernel error frames and end at the same time agree on every drive, on neutrality and on bus load. |

## Left out

- HTTP routing, credentials, TLS, transport and message encoding: plumbing of libraries.
- Writers of YAML and URDF files: a write is one step that succeeds or leaves any content; URDF widening is not modelled.
- LiveConfig.Changed: the operating mode, profile revision, measured position and cross-file checks that may refuse a change; a change they refuse is no step of a run. Tunings of the running loop alone touch no file and are left out.
- Mutex poisoning, beyond an abnormal worker exit; `join_finished_worker` is the step at which the thread ends.
- `GravitySweep::invalidated` and the driver that calls the sweep and the gate: one comparison per field, and the driver is not part of this model.
- DriveTiming.DriveState: groups each window's state with its samples in one record, so that samples and state are one object here.
- CaptureAnalyzer.Analyzer.AddFile: holds drives by value in a map; decoding of frames and of kernel error classes is not modelled, a frame comes classified.
- `Stats::from_ms`, rounding to microseconds, and all text, JSON and markdown rendering.
- Floating point: rounding, NaN and the sign of zero; `FrictionRegression` takes the sign of zero speed as positive.
- Unicode white space beyond ASCII in the blank-client and blank-joint checks.
- UnifiedDiff.Diff: decimal rendering of headers and the missing-newline marker; hunks are values.
- ForwardFill.Fill: the order of stale runs that agree in joint and last tick number, and the parser that groups rows into ticks.
- SettledWindow.MeasureHold: the choice of which holds are measured, and pairing of approaches.
- The fit of masses and centres of gravity, friction cancellation, wave sampling and second differences: easy members or foreign models.
- Overflow of 64-bit tick numbers and times; saturating differences are modelled.
- `motion_owner`, `degraded`, `restart`, scripts and user interface: small case tables or input and output.
