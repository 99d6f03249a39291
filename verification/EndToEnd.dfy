/**
  The operator's view of a limit patch, from the gateway's call through the
  robot's live apply and its persist queue to the files.
 */
module EndToEnd {
  import opened Basics
  import opened LimitConfig
  import opened PersistQueue
  import opened Coalescing
  import opened PersistRuns
  import opened PersistBatches
  import opened LiveConfig
  import opened LiveBatches
  import opened LiveRuns
  import opened GatewayAck

  /** The request's value where it has one, the value looked up elsewhere. */
  function Asked(asked: Option<real>, before: Option<real>): Option<real> {
    if asked.Some? then asked else before
  }

  /**
    The written files hold, for the joint looked up, every limit the request asks
    for and the one looked up where it asks for none; soft limits that nobody gave
    are the defaults, and all soft limits are moved into the hard range.
   */
  predicate FilesHold(written: Request, request: LimitPatchRequest, before: LimitPatch) {
    var lower := if request.positionLower.Some? then request.positionLower.value else before.positionLower;
    var upper := if request.positionUpper.Some? then request.positionUpper.value else before.positionUpper;
    var torque, velocity := Asked(request.torqueLimit, before.torqueLimit), Asked(request.velocityMax, before.velocityMax);
    && lower < upper
    && written.motors.Some? && FindMotor(written.motors.value, before.joint).Some? && before.joint in written.control
    && var motor := FindMotor(written.motors.value, before.joint).value;
       var control := written.control[before.joint];
       && motor.positionLower == lower && motor.positionUpper == upper
       && (torque.Some? ==> motor.torqueLimit == torque.value)
       && (velocity.Some? ==> control.velocityMax == velocity)
       && control.softLower
          == Some(Inside(Wanted(Asked(request.softLower, before.softLower), lower, lower, upper), lower, upper))
       && control.softUpper
          == Some(Inside(Wanted(Asked(request.softUpper, before.softUpper), upper, lower, upper), lower, upper))
  }

  lemma {:induction false} WrittenHoldsLimits(patch: Request, written: Request, request: LimitPatchRequest, before: LimitPatch)
    requires EnqueuedFor(patch, MergeLimits(before, request)) && CompletePatch(patch)
    requires WrittenBy(BoundsOf(patch), written, patch.joint)
    ensures FilesHold(written, request, before)
  {
    AppliedSnapshotHoldsCommand(patch, MergeLimits(before, request));
  }

  // ----- Where the accepted patches come from

  ghost predicate IsCommand(step: LiveStep, patch: Request) {
    && step.Submit? && step.change.Limits? && step.stamp.session == patch.session
    && EnqueuedFor(patch, step.change.command)
  }

  ghost predicate Commanded(steps: seq<LiveStep>, patch: Request) {
    exists i :: 0 <= i < |steps| && IsCommand(steps[i], patch)
  }

  ghost predicate AllCommanded(steps: seq<LiveStep>, s: System) {
    && (forall patch | patch in s.accepted && IsPatch(patch) :: Commanded(steps, patch))
    && (s.admitting.Some? && IsPatch(s.admitting.value) ==> Commanded(steps, s.admitting.value))
  }

  lemma {:induction false} CommandedGrows(steps: seq<LiveStep>, step: LiveStep, s: System)
    requires AllCommanded(steps, s)
    ensures AllCommanded(steps + [step], s)
  {
    var more := steps + [step];
    forall patch | Commanded(steps, patch) ensures Commanded(more, patch) {
      var i :| 0 <= i < |steps| && IsCommand(steps[i], patch);
      assert IsCommand(more[i], patch);
    }
  }

  lemma {:induction false} SubmittedIsCommanded(dir: string, w: World, step: LiveStep)
    requires step.Submit? && Next(dir, w, step).Some?
    ensures var s := Next(dir, w, step).value.queue;
            && s.accepted == w.queue.accepted && s.admitting.Some?
            && (IsPatch(s.admitting.value) ==> IsCommand(step, s.admitting.value))
  {
    var after := Changed(w.live, step.change).value;
    AdmitPart(w.queue, RequestFor(dir, after, step.change, step.stamp));
    if step.change.Tuning? {
      assert !IsPatch(RequestFor(dir, after, step.change, step.stamp));
    } else {
      assert LiveApply(w.live.motors, w.live.control, step.change.command) == Some((after.motors, after.control));
    }
  }

  lemma {:induction false} NextIsCommanded(dir: string, w: World, steps: seq<LiveStep>, step: LiveStep)
    requires AllCommanded(steps, w.queue) && Next(dir, w, step).Some?
    ensures AllCommanded(steps + [step], Next(dir, w, step).value.queue)
  {
    CommandedGrows(steps, step, w.queue);
    if step.Submit? {
      SubmittedIsCommanded(dir, w, step);
      assert (steps + [step])[|steps|] == step;
    } else if step.Other? {
      OtherPart(w.queue, step.step);
    } else if step.Commit? {
      assert Next(dir, w, step).value.queue == Placed(w.queue);
    }
  }

  lemma {:induction false} EveryPatchIsCommanded(dir: string, disk: Disk, live: Live, steps: seq<LiveStep>)
    requires LiveRun(dir, disk, live, steps).Some?
    ensures AllCommanded(steps, LiveRun(dir, disk, live, steps).value.queue)
  {
    if steps == [] {
      NothingToCommand(disk);
    } else {
      var front, last := steps[..|steps| - 1], steps[|steps| - 1];
      EveryPatchIsCommanded(dir, disk, live, front);
      NextIsCommanded(dir, LiveRun(dir, disk, live, front).value, front, last);
      assert front + [last] == steps;
    }
  }

  lemma {:induction false} NothingToCommand(disk: Disk)
    ensures AllCommanded([], Initial(disk))
  {
  }

  /** The w-th write succeeded and left the requested limits in the files of `dir`. */
  ghost predicate WroteLimits(writes: seq<Write>, w: int, dir: string, request: LimitPatchRequest, before: LimitPatch) {
    && 0 <= w < |writes| && writes[w].ok && writes[w].request.configDir == dir
    && FilesHold(writes[w].request, request, before)
  }

  /**
    When the call answers Durable, the limits it asked for (its own where given,
    the previous ones elsewhere) were written to the files of the robot's
    configuration directory. The robot receives a session's command as it was sent.
   */
  lemma {:induction false} DurableAnswerMeansRequestedLimits(
      dir: string, disk: Disk, live: Live, steps: seq<LiveStep>,
      request: LimitPatchRequest, lookup: Lookup, session: string, heard: Heard)
    requires VelocitiesPositive(live) && LiveRun(dir, disk, live, steps).Some?
    requires LossyView(heard.inbox + heard.duringLive + heard.duringPersist,
                       LiveRun(dir, disk, live, steps).value.queue.attempts)
    requires lookup.before.Some? ==> forall i | 0 <= i < |steps| ::
               steps[i].Submit? && steps[i].change.Limits? && steps[i].stamp.session == session ==>
                 steps[i].change.command == MergeLimits(lookup.before.value, request)
    requires Answer(request, lookup, session, heard).status == GatewayDurable
    ensures Sendable(request, lookup)
    ensures exists w :: WroteLimits(LiveRun(dir, disk, live, steps).value.queue.writes, w, dir, request, lookup.before.value)
  {
    var queueSteps := LiveRunIsRun(dir, disk, live, steps);
    DurableAnswerIsOnDisk(disk, queueSteps, request, lookup, session, heard);
    var world := LiveRun(dir, disk, live, steps).value;
    var s := world.queue;
    var i :| 0 <= i < |s.accepted| && IsPatch(s.accepted[i]) && s.accepted[i].session == session;
    var patch := s.accepted[i];
    assert patch in s.accepted;
    EveryPatchIsCommanded(dir, disk, live, steps);
    EveryLiveRunIsConsistent(dir, disk, live, steps);
    var w :| DurableWrite(s, w, patch);
    WriteIsAtHome(dir, s, world.snapshots, w);
    WrittenHoldsLimits(patch, s.writes[w].request, request, lookup.before.value);
    assert WroteLimits(s.writes, w, dir, request, lookup.before.value);
  }

  lemma {:induction false} WriteIsAtHome(dir: string, s: System, snapshots: seq<Live>, w: int)
    requires Chain(dir, s.accepted, snapshots) && HasBatch(s.accepted, s.writes, w)
    ensures s.writes[w].request.configDir == dir
  {
    CoalescedMotors(BatchOf(s.accepted, s.writes, w));
  }

  /** The gateway's call against a run of the robot: what it returns, and what a Durable result means on disk. */
  method ApplyLimitPatchOnRobot(
      rx: Receiver, request: LimitPatchRequest, lookup: Lookup, session: string,
      duringLive: seq<Item>, duringPersist: seq<Item>,
      ghost dir: string, ghost disk: Disk, ghost live: Live, ghost steps: seq<LiveStep>)
    returns (result: PatchResult)
    requires VelocitiesPositive(live) && LiveRun(dir, disk, live, steps).Some?
    requires LossyView(rx.inbox + duringLive + duringPersist, LiveRun(dir, disk, live, steps).value.queue.attempts)
    requires lookup.before.Some? ==> forall i | 0 <= i < |steps| ::
               steps[i].Submit? && steps[i].change.Limits? && steps[i].stamp.session == session ==>
                 steps[i].change.command == MergeLimits(lookup.before.value, request)
    modifies rx
    ensures result.status == GatewayDurable ==>
              && result.ok && lookup.before.Some?
              && exists w ::
                   WroteLimits(LiveRun(dir, disk, live, steps).value.queue.writes, w, dir, request, lookup.before.value)
  {
    ghost var heard := Heard(rx.inbox, duringLive, duringPersist);
    result := ApplyLimitPatch(rx, request, lookup, session, duringLive, duringPersist);
    if result.status == GatewayDurable {
      DurableAnswerMeansRequestedLimits(dir, disk, live, steps, request, lookup, session, heard);
    }
  }
}
