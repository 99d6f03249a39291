/** The guarantees of the persist queue, each over every run of the step system. */
module PersistGuarantees {
  import opened PersistQueue
  import opened Coalescing
  import opened PersistRuns
  import opened PersistOutcomes
  import opened PersistBatches

  // ----- Completions

  lemma {:induction false} EveryRunPlaces(disk: Disk, steps: seq<Step>, session: string)
    requires Run(disk, steps).Some?
    ensures Placement(Run(disk, steps).value, session)
  {
    if steps == [] {
      assert Sessions([]) == [];
    } else {
      var front := steps[..|steps| - 1];
      EveryRunPlaces(disk, front, session);
      StepKeepsPlacement(Run(disk, front).value, steps[|steps| - 1], session);
    }
  }

  /**
    An accepted limit patch is in exactly one place (pending or carried in the
    slot, in the worker's hands, completed once, or lost to an unwinding worker),
    nothing is lost unless the worker unwound, and a session that was never
    accepted gets no completion at all.
   */
  lemma {:induction false} ExactlyOneCompletion(disk: Disk, steps: seq<Step>, session: string)
    requires Run(disk, steps).Some?
    ensures var s := Run(disk, steps).value;
            && WaitingTimes(s.slot, session) + Times(Hands(s.worker), session)
               + CompletedTimes(s.attempts, session) + Times(s.lost, session)
               == Count(IsPatchSession(s.accepted, session))
            && (!CutShort(s.worker) ==> s.lost == [])
            && (s.slot.carried != [] ==> s.slot.request.Some? && s.slot.request.value.motors.Some?)
  {
    EveryRunPlaces(disk, steps, session);
    EveryRunIsSound(disk, steps);
    AcceptedAtMostOnce(Run(disk, steps).value.accepted, session);
  }

  /** The w-th write succeeded and put the patch's own bounds into the patch's own directory. */
  ghost predicate WroteBounds(writes: seq<Write>, w: int, patch: Request)
    requires CompletePatch(patch)
  {
    && 0 <= w < |writes| && writes[w].ok && writes[w].request.configDir == patch.configDir
    && WrittenBy(BoundsOf(patch), writes[w].request, patch.joint)
  }

  ghost predicate BoundsOnDisk(writes: seq<Write>, patch: Request)
    requires CompletePatch(patch)
  {
    exists w :: WroteBounds(writes, w, patch)
  }

  /** `event` completes `patch` and says exactly what `write` did for it. */
  ghost predicate Completes(write: Write, patch: Request, event: Event) {
    && IsPatch(patch) && CompletePatch(patch)
    && event.session == patch.session && event.joint == patch.joint
    && event.operator == patch.operator && event.timestampMs == patch.timestampMs
    && var held := WrittenBy(BoundsOf(patch), write.request, patch.joint);
       && event.accepted == (write.ok && held)
       && event.status == (if write.ok && held then Durable else Failed)
       && event.reason == (if !write.ok then WriteFailed else if held then DiskWriteCompleted else Superseded(patch.joint))
       && event.configRevision == (if write.ok && held then write.revision else "")
  }

  lemma {:induction false} BatchIsComplete(accepted: seq<Request>, writes: seq<Write>, w: int)
    requires HasBatch(accepted, writes, w) && AllComplete(accepted)
    ensures AllComplete(BatchOf(accepted, writes, w))
  {
    var from := From(writes, w);
    assert forall i | 0 <= i < |BatchOf(accepted, writes, w)| :: BatchOf(accepted, writes, w)[i] == accepted[from + i];
  }

  /** A limit-patch completion is that of one patch of its write's batch. */
  lemma {:induction false} AnnouncedPatch(batch: seq<Request>, write: Write, place: nat, event: Event) returns (k: nat)
    requires batch != [] && AllComplete(batch) && CoalesceAll(batch).Ok? && write.request == CoalesceAll(batch).value.request
    requires place <= |CoalesceAll(batch).value.carried| && event.action == PATCH_PERSIST
    requires event == EventAt(write.request, CoalesceAll(batch).value.carried, write.ok, write.revision, place)
    ensures k < |batch| && Completes(write, batch[k], event)
  {
    var carried := CoalesceAll(batch).value.carried;
    var front := batch[..|batch| - 1];
    CarriedAreThePatches(batch);
    if place < |carried| {
      k := CompletionIsOfPatch(front, place);
      assert front[k] == batch[k];
    } else {
      k := |batch| - 1;
      PendingPatchIsVerbatim(batch);
      OwnWriteHoldsBounds(write.request);
    }
  }

  /** `event` completes `patch`, one of the requests its write stands for, in its own directory or another. */
  ghost predicate CompletedBy(accepted: seq<Request>, writes: seq<Write>, w: int, patch: Request, event: Event) {
    && HasBatch(accepted, writes, w) && Completes(writes[w], patch, event)
    && var batch := BatchOf(accepted, writes, w);
       && patch in batch
       && (WroteBounds(writes, w, patch) <==>
           event.status == Durable && batch[|batch| - 1].configDir == patch.configDir)
  }

  lemma {:induction false} AnnouncedIsCompleted(accepted: seq<Request>, writes: seq<Write>, origin: Origin,
      event: Event)
    returns (patch: Request)
    requires AllComplete(accepted) && Announces(accepted, writes, origin, event) && event.action == PATCH_PERSIST
    ensures patch in accepted && CompletedBy(accepted, writes, origin.write, patch, event)
  {
    var w := origin.write;
    var batch, from := BatchOf(accepted, writes, w), From(writes, w);
    BatchIsComplete(accepted, writes, w);
    var k := AnnouncedPatch(batch, writes[w], origin.place, event);
    patch := batch[k];
    assert patch == accepted[from + k];
    CoalescedMotors(batch);
  }

  lemma {:induction false} SameSessionSamePatch(s: System, p: Request, q: Request)
    requires Identified(s) && p in s.accepted && q in s.accepted && IsPatch(p) && IsPatch(q) && p.session == q.session
    ensures p == q
  {
    var i :| 0 <= i < |s.accepted| && s.accepted[i] == p;
    var j :| 0 <= j < |s.accepted| && s.accepted[j] == q;
    assert !(i < j) && !(j < i);
  }

  lemma {:induction false} AttemptIsCompletion(s: System, a: nat) returns (patch: Request)
    requires Identified(s) && Announced(s) && a < |s.attempts| && s.attempts[a].event.action == PATCH_PERSIST
    ensures patch in s.accepted && CompletedBy(s.accepted, s.writes, s.origins[a].write, patch, s.attempts[a].event)
  {
    assert AllComplete(s.accepted);
    assert Announces(s.accepted, s.writes, s.origins[a], s.attempts[a].event);
    patch := AnnouncedIsCompleted(s.accepted, s.writes, s.origins[a], s.attempts[a].event);
  }

  /**
    A limit-patch completion belongs to a patch that its own write stands for,
    and is Durable, superseded or failed exactly as that write did. The bounds
    are then in the patch's own directory if and only if the completion says
    Durable and the last request of the batch names that directory.
   */
  lemma {:induction false} DurableIsBacked(disk: Disk, steps: seq<Step>, a: nat, patch: Request)
    requires Run(disk, steps).Some?
    requires var s := Run(disk, steps).value;
             && a < |s.attempts| && s.attempts[a].event.action == PATCH_PERSIST
             && patch in s.accepted && IsPatch(patch) && patch.session == s.attempts[a].event.session
    ensures var s := Run(disk, steps).value;
            && |s.origins| == |s.attempts|
            && CompletedBy(s.accepted, s.writes, s.origins[a].write, patch, s.attempts[a].event)
  {
    EveryRunIsSound(disk, steps);
    var s := Run(disk, steps).value;
    var completed := AttemptIsCompletion(s, a);
    SameSessionSamePatch(s, patch, completed);
  }

  /** The event names this request and this action, and reports the outcome `done` of its write. */
  predicate Reports(event: Event, timestampMs: nat, session: string, operator: string, joint: string, action: string,
                    done: bool, revision: string)
  {
    && event.timestampMs == timestampMs && event.session == session && event.operator == operator
    && event.joint == joint && event.action == action
    && event.accepted == done && event.status == (if done then Durable else Failed)
    && event.configRevision == (if done then revision else "")
  }

  lemma {:induction false} OwnEvent(batch: seq<Request>, write: Write, event: Event)
    requires batch != [] && CoalesceAll(batch).Ok? && write.request == CoalesceAll(batch).value.request
    requires event == EventAt(write.request, CoalesceAll(batch).value.carried, write.ok, write.revision,
                              |CoalesceAll(batch).value.carried|)
    ensures var last := batch[|batch| - 1];
            && Reports(event, last.timestampMs, last.session, last.operator, last.joint,
                       if last.param == "limit_patch" then "limit_patch_persist" else "config_persist",
                       write.ok, write.revision)
            && event.reason == if write.ok then DiskWriteCompleted else WriteFailed
  {
    CoalescedIdentity(batch);
  }

  lemma {:induction false} CarriedEventOf(batch: seq<Request>, write: Write, place: nat, event: Event)
    requires batch != [] && AllComplete(batch) && CoalesceAll(batch).Ok? && write.request == CoalesceAll(batch).value.request
    requires place < |CoalesceAll(batch).value.carried|
    requires event == EventAt(write.request, CoalesceAll(batch).value.carried, write.ok, write.revision, place)
    ensures place < |Patches(batch[..|batch| - 1])|
    ensures event.action == "limit_patch_persist" && Completes(write, Patches(batch[..|batch| - 1])[place], event)
  {
    var front := batch[..|batch| - 1];
    CarriedAreThePatches(batch);
    CompletionsArePatches(front);
  }

  /**
    Every completion of every run, whatever its action: the one at place `place`
    of its write is that of the write's place-th coalesced patch, and the last one
    is that of the batch's last request, patch or control-only save, and reports
    exactly whether the write succeeded.
   */
  lemma {:induction false} EveryCompletionIsTrue(disk: Disk, steps: seq<Step>, a: nat)
    requires Run(disk, steps).Some? && a < |Run(disk, steps).value.attempts|
    ensures var s := Run(disk, steps).value;
            && |s.origins| == |s.attempts| && HasBatch(s.accepted, s.writes, s.origins[a].write)
            && var write, event := s.writes[s.origins[a].write], s.attempts[a].event;
               var batch := BatchOf(s.accepted, s.writes, s.origins[a].write);
               var patches, last := Patches(batch[..|batch| - 1]), batch[|batch| - 1];
               && s.origins[a].place <= |patches|
               && if s.origins[a].place < |patches| then
                    event.action == "limit_patch_persist" && Completes(write, patches[s.origins[a].place], event)
                  else
                    && Reports(event, last.timestampMs, last.session, last.operator, last.joint,
                               if last.param == "limit_patch" then "limit_patch_persist" else "config_persist",
                               write.ok, write.revision)
                    && event.reason == if write.ok then DiskWriteCompleted else WriteFailed
  {
    EveryRunIsSound(disk, steps);
    AttemptIsTrue(Run(disk, steps).value, a);
  }

  lemma {:induction false} AttemptIsTrue(s: System, a: nat)
    requires Identified(s) && Announced(s) && a < |s.attempts|
    ensures HasBatch(s.accepted, s.writes, s.origins[a].write)
    ensures var write, event := s.writes[s.origins[a].write], s.attempts[a].event;
            var batch := BatchOf(s.accepted, s.writes, s.origins[a].write);
            var patches, last := Patches(batch[..|batch| - 1]), batch[|batch| - 1];
            && s.origins[a].place <= |patches|
            && if s.origins[a].place < |patches| then
                 event.action == "limit_patch_persist" && Completes(write, patches[s.origins[a].place], event)
               else
                 && Reports(event, last.timestampMs, last.session, last.operator, last.joint,
                            if last.param == "limit_patch" then "limit_patch_persist" else "config_persist",
                            write.ok, write.revision)
                 && event.reason == if write.ok then DiskWriteCompleted else WriteFailed
  {
    assert Announces(s.accepted, s.writes, s.origins[a], s.attempts[a].event);
    assert AllComplete(s.accepted);
    var w, place := s.origins[a].write, s.origins[a].place;
    var batch := BatchOf(s.accepted, s.writes, w);
    BatchIsComplete(s.accepted, s.writes, w);
    CarriedAreThePatches(batch);
    CompletionsArePatches(batch[..|batch| - 1]);
    if place < |CoalesceAll(batch).value.carried| {
      CarriedEventOf(batch, s.writes[w], place, s.attempts[a].event);
    } else {
      OwnEvent(batch, s.writes[w], s.attempts[a].event);
    }
  }

  /**
    No completion is left out or repeated: unless the worker unwound, the
    completions attempted so far are those of every finished write, in order,
    each with its coalesced patches first and its own request last.
   */
  lemma {:induction false} CompletionsAreComplete(disk: Disk, steps: seq<Step>)
    requires Run(disk, steps).Some? && !CutShort(Run(disk, steps).value.worker) && !Run(disk, steps).value.worker.AtPublish?
    ensures var s := Run(disk, steps).value; s.origins == Expected(s.writes) && |s.origins| == |s.attempts|
  {
    EveryRunIsSound(disk, steps);
  }

  /** A completion event never names a session no accepted limit patch had. */
  lemma {:induction false} NoInventedCompletion(disk: Disk, steps: seq<Step>, a: nat)
    requires Run(disk, steps).Some? && a < |Run(disk, steps).value.attempts|
    requires Run(disk, steps).value.attempts[a].event.action == PATCH_PERSIST
    ensures var s := Run(disk, steps).value;
            exists patch :: patch in s.accepted && IsPatch(patch) && patch.session == s.attempts[a].event.session
  {
    EveryRunIsSound(disk, steps);
    var patch := AttemptIsCompletion(Run(disk, steps).value, a);
  }

  // ----- Wakeups and progress

  predicate IsProgressStep(step: Step) {
    || step.Check? || step.Receive? || step.Timeout? || step.SeeDisconnect? || step.DrainOne? || step.DrainDone?
    || step.TakeWork? || step.WriteWork? || step.Publish? || step.FinaliseWork?
  }

  /** Worker steps left before a pending request is taken. */
  function Distance(s: System): nat {
    match s.worker
    case AtCheck => 5
    case AtReceive => 4
    case AtDrain => if s.wakeToken then 3 else 2
    case AtTake => 1
    case AtWrite(_, carried) => |carried| + 4
    case AtPublish(_, carried, _, _, sent, _) => if sent <= |carried| then |carried| - sent + 3 else 2
    case _ => 0
  }

  /**
    No abandoned write: while a request is pending, the lock is free and the
    worker has not unwound, the worker can step, no step it takes waits out the
    receive timeout, and each either takes the request or brings the take closer.
   */
  lemma {:induction false} PendingIsTaken(disk: Disk, steps: seq<Step>, step: Step)
    requires Run(disk, steps).Some?
    requires var s := Run(disk, steps).value;
             Running(s.worker) && s.slot.request.Some? && s.admitting.None? && IsProgressStep(step)
    ensures var s := Run(disk, steps).value;
            && Apply(s, NextStep(s)).Some?
            && !(step.Timeout? && Apply(s, step).Some?)
            && (Apply(s, step).Some? ==>
                  var s' := Apply(s, step).value;
                  if s.worker.AtTake? then s'.worker == AtWrite(s.slot.request.value, s.slot.carried)
                  else s'.slot.request == s.slot.request && Running(s'.worker) && Distance(s') < Distance(s))
  {
    EveryRunIsSound(disk, steps);
    var s := Run(disk, steps).value;
    assert Control(s);
    ProgressStep(s, step);
  }

  /** A step the worker can take when the lock is free. */
  function NextStep(s: System): Step {
    match s.worker
    case AtCheck => Check
    case AtReceive => Receive
    case AtDrain => if s.wakeToken then DrainOne else DrainDone
    case AtTake => TakeWork
    case AtWrite(_, _) => WriteWork(true, "", s.disk)
    case AtPublish(_, carried, _, _, sent, _) => if sent <= |carried| then Publish(true) else FinaliseWork
    case AtReturn(_) => Guard
    case _ => Finish
  }

  lemma {:induction false} ProgressStep(s: System, step: Step)
    requires Control(s) && Running(s.worker) && s.slot.request.Some? && s.admitting.None? && IsProgressStep(step)
    ensures Apply(s, NextStep(s)).Some?
    ensures !(step.Timeout? && Apply(s, step).Some?)
    ensures Apply(s, step).Some? ==>
              var s' := Apply(s, step).value;
              if s.worker.AtTake? then s'.worker == AtWrite(s.slot.request.value, s.slot.carried)
              else s'.slot.request == s.slot.request && Running(s'.worker) && Distance(s') < Distance(s)
  {
  }

  // ----- Exit, drain and admission

  /** Enqueue's "worker disconnected" branch cannot be reached: admission is closed before the receiver is dropped. */
  lemma {:induction false} NeverDisconnected(disk: Disk, steps: seq<Step>, request: Request)
    requires Run(disk, steps).Some?
    ensures Apply(Run(disk, steps).value, AdmitDisconnected(request)).None?
  {
    EveryRunIsControlled(disk, steps);
    StaysConnected(Run(disk, steps).value, request);
  }

  lemma {:induction false} StaysConnected(s: System, request: Request)
    requires Control(s)
    ensures Apply(s, AdmitDisconnected(request)).None?
  {
  }

  lemma {:induction false} EveryRunIsControlled(disk: Disk, steps: seq<Step>)
    requires Run(disk, steps).Some?
    ensures Control(Run(disk, steps).value)
  {
    EveryRunIsSound(disk, steps);
  }

  /** After a normal worker exit the slot is empty and stays empty, whatever happens next. */
  lemma {:induction false} NothingAfterExit(disk: Disk, steps: seq<Step>, more: seq<Step>)
    requires Run(disk, steps).Some? && Run(disk, steps + more).Some?
    requires Exited(Run(disk, steps).value.worker) && Run(disk, steps).value.worker.normally
    ensures var s, s' := Run(disk, steps).value, Run(disk, steps + more).value;
            && Exited(s'.worker) && s'.worker.normally
            && s'.slot.request.None? && s'.slot.carried == [] && s'.accepted == s.accepted
            && s'.writes == s.writes && s'.disk == s.disk
  {
    if more == [] {
      assert steps + more == steps;
      EveryRunIsControlled(disk, steps);
      ExitedIsEmpty(Run(disk, steps).value);
    } else {
      var front := more[..|more| - 1];
      assert (steps + more)[..|steps + more| - 1] == steps + front;
      assert (steps + more)[|steps + more| - 1] == more[|more| - 1];
      NothingAfterExit(disk, steps, front);
      EveryRunIsControlled(disk, steps + front);
      ExitedStep(Run(disk, steps + front).value, more[|more| - 1]);
      EveryRunIsControlled(disk, steps + more);
      ExitedIsEmpty(Run(disk, steps + more).value);
    }
  }

  lemma {:induction false} ExitedIsEmpty(s: System)
    requires Control(s) && Exited(s.worker) && s.worker.normally
    ensures s.slot.request.None? && s.slot.carried == []
  {
  }

  lemma {:induction false} ExitedStep(s: System, step: Step)
    requires Control(s) && Exited(s.worker) && s.worker.normally && Apply(s, step).Some?
    ensures var s' := Apply(s, step).value;
            && Exited(s'.worker) && s'.worker.normally
            && s'.accepted == s.accepted && s'.writes == s.writes && s'.disk == s.disk
  {
  }

  /** The counters add up in every reachable state, below 2^64 accepted requests. */
  lemma {:induction false} EveryRunConserves(disk: Disk, steps: seq<Step>)
    requires Run(disk, steps).Some? && |Run(disk, steps).value.accepted| <= U64_MAX
    ensures var s := Run(disk, steps).value;
            |s.accepted| == s.slot.successfulWrites + s.slot.failedWrites + s.slot.coalescedRequests
                            + Count(s.slot.request.Some?) + Count(s.slot.writing)
  {
    EveryRunIsSound(disk, steps);
  }

  /**
    What each status of the drain report means, in every run: WorkerFailed if and
    only if the worker ended abnormally and its guard has run; otherwise TimedOut
    if and only if it has not ended; otherwise Complete if and only if every write
    succeeded and every completion was delivered.
   */
  lemma {:induction false} DrainStatusIff(disk: Disk, steps: seq<Step>)
    requires Run(disk, steps).Some?
    ensures var s := Run(disk, steps).value;
            var status := StatusOf(s.slot, s.worker.Finished?);
            && (status == WorkerFailed <==> (s.worker.Guarded? || s.worker.Finished?) && !s.worker.normally)
            && (status == TimedOut <==> !s.worker.Finished? && !(s.worker.Guarded? && !s.worker.normally))
            && (status == Complete <==>
                  s.worker.Finished? && s.worker.normally && AllWritten(s.writes) && AllDelivered(s.attempts))
            && (status == CompletedWithFailures <==>
                  s.worker.Finished? && s.worker.normally && !(AllWritten(s.writes) && AllDelivered(s.attempts)))
  {
    EveryRunIsSound(disk, steps);
    var s := Run(disk, steps).value;
    assert Lifecycle(s) && CleanExit(s) && HonestCounters(s);
  }

  // ----- What is on disk

  /** In each write's batch every request with motors names the directory of the last one. */
  ghost predicate AllStay(s: System) {
    forall w | 0 <= w < |s.writes| :: HasBatch(s.accepted, s.writes, w) && MotorsStay(BatchOf(s.accepted, s.writes, w))
  }

  lemma {:induction false} NextBatch(disk: Disk, accepted: seq<Request>, writes: seq<Write>, w: nat)
    requires HasBatch(accepted, writes, w)
    ensures Sequential(disk, accepted[..writes[w].upTo])
            == Sequential(Sequential(disk, accepted[..From(writes, w)]), BatchOf(accepted, writes, w))
  {
    var from, upTo := From(writes, w), writes[w].upTo;
    assert accepted[..upTo] == accepted[..from] + accepted[from..upTo];
    SequentialAppend(disk, accepted[..from], accepted[from..upTo]);
  }

  /** One more write keeps a directory's motors those of sequential writing. */
  lemma {:induction false} ReplayOne(replayed: Disk, sequential: Disk, batch: seq<Request>, dir: string)
    requires batch != [] && CoalesceAll(batch).Ok? && MotorsStay(batch) && SameMotors(replayed, sequential, dir)
    ensures SameMotors(WriteTo(replayed, CoalesceAll(batch).value.request), Sequential(sequential, batch), dir)
  {
    StayingWrite(sequential, batch, dir);
  }

  lemma {:induction false} ReplayedMotors(disk: Disk, s: System, n: nat, dir: string)
    requires WritesAreBatches(s.accepted, s.writes) && AllStay(s) && n <= |s.writes|
    ensures From(s.writes, n) <= |s.accepted|
    ensures SameMotors(Replay(disk, s.writes[..n]), Sequential(disk, s.accepted[..From(s.writes, n)]), dir)
  {
    if n == 0 {
      assert s.accepted[..0] == [];
    } else {
      var w := n - 1;
      ReplayedMotors(disk, s, w, dir);
      assert HasBatch(s.accepted, s.writes, w);
      NextBatch(disk, s.accepted, s.writes, w);
      ReplayOne(Replay(disk, s.writes[..w]), Sequential(disk, s.accepted[..From(s.writes, w)]),
                BatchOf(s.accepted, s.writes, w), dir);
      assert s.writes[..n][..w] == s.writes[..w];
    }
  }

  /** No request is waiting or being written, and no write has failed. */
  predicate Idle(s: System) {
    s.slot.request.None? && !s.worker.AtWrite? && s.intact
  }

  /**
    Whenever nothing is pending or being written and no write failed, every
    directory holds the motors that writing each accepted request in order would
    have left there, provided no batch moved its motors to another directory.
   */
  lemma {:induction false} IdleDiskIsCurrent(disk: Disk, steps: seq<Step>, dir: string)
    requires Run(disk, steps).Some? && Idle(Run(disk, steps).value) && AllStay(Run(disk, steps).value)
    ensures SameMotors(Run(disk, steps).value.disk, Sequential(disk, Run(disk, steps).value.accepted), dir)
  {
    EveryRunIsSound(disk, steps);
    var s := Run(disk, steps).value;
    ReplayedMotors(disk, s, |s.writes|, dir);
    assert s.writes[..|s.writes|] == s.writes && s.accepted[..|s.accepted|] == s.accepted;
  }

  lemma {:induction false} OneDirectoryStays(s: System, home: string)
    requires WritesAreBatches(s.accepted, s.writes) && InDirectory(s.accepted, home)
    ensures AllStay(s)
  {
    forall w | 0 <= w < |s.writes| ensures HasBatch(s.accepted, s.writes, w) && MotorsStay(BatchOf(s.accepted, s.writes, w)) {
      assert HasBatch(s.accepted, s.writes, w);
      var batch, from := BatchOf(s.accepted, s.writes, w), From(s.writes, w);
      assert forall i | 0 <= i < |batch| :: batch[i] == s.accepted[from + i];
    }
  }

  /** When all requests name one directory, as the robot's do, its motors are always current at rest. */
  lemma {:induction false} OneDirectoryIsCurrent(disk: Disk, steps: seq<Step>, home: string, dir: string)
    requires Run(disk, steps).Some? && Idle(Run(disk, steps).value)
    requires InDirectory(Run(disk, steps).value.accepted, home)
    ensures SameMotors(Run(disk, steps).value.disk, Sequential(disk, Run(disk, steps).value.accepted), dir)
  {
    EveryRunIsSound(disk, steps);
    OneDirectoryStays(Run(disk, steps).value, home);
    IdleDiskIsCurrent(disk, steps, dir);
  }

  /**
    A drain that reports Complete: every accepted request was written or
    coalesced, every write succeeded, every accepted limit patch got exactly one
    completion and every completion was delivered, and the disk is that of the
    writes in order; unless a batch moved its motors to another directory, the
    motors are those that writing each accepted request in order would have left.
   */
  lemma {:induction false} CompleteDrainLosesNothing(disk: Disk, steps: seq<Step>, session: string, dir: string)
    requires Run(disk, steps).Some?
    requires var s := Run(disk, steps).value; StatusOf(s.slot, s.worker.Finished?) == Complete
    ensures var s := Run(disk, steps).value;
            && (|s.accepted| <= U64_MAX ==> |s.accepted| == s.slot.successfulWrites + s.slot.coalescedRequests)
            && AllWritten(s.writes) && AllDelivered(s.attempts)
            && CompletedTimes(s.attempts, session) == Count(IsPatchSession(s.accepted, session))
            && s.disk == Replay(disk, s.writes)
            && (AllStay(s) ==> SameMotors(s.disk, Sequential(disk, s.accepted), dir))
  {
    EveryRunIsSound(disk, steps);
    ExactlyOneCompletion(disk, steps, session);
    assert Sessions([]) == [];
    if AllStay(Run(disk, steps).value) {
      IdleDiskIsCurrent(disk, steps, dir);
    }
  }
}
