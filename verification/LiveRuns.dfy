/**
  The robot's command loop on top of the persist queue: live changes, the saves
  and patches enqueued for them, commit or roll-back when the queue has answered,
  interleaved with every step of the worker and of shutdown.
 */
module LiveRuns {
  import opened Basics
  import opened PersistQueue
  import opened Coalescing
  import opened PersistRuns
  import opened PersistOutcomes
  import opened PersistBatches
  import opened PersistGuarantees
  import opened LiveConfig
  import opened LiveBatches

  /** `draft`: the configuration of a change whose request is being enqueued. */
  datatype World = World(
    queue: System, live: Live, draft: Option<Live>,
    snapshots: seq<Live>,         // live0, then the configuration of each accepted request
    stranded: bool)               // a patch stayed live although its request was refused

  datatype LiveStep =
    | Submit(change: Change, stamp: Stamp)
    | Commit                      // the queue has answered: the change goes live, or is rolled back
    | Retune(change: Change)      // a tuning that is not to be saved
    | Strand(change: Change)      // a refused patch whose roll-back failed too
    | Other(step: Step)           // worker and shutdown

  function Start(disk: Disk, live: Live): World {
    World(Initial(disk), live, None, [live], false)
  }

  function Committed(w: World, queue: System): World
    requires w.draft.Some?
  {
    if |queue.accepted| > |w.queue.accepted| then
      World(queue, w.draft.value, None, w.snapshots + [w.draft.value], w.stranded)
    else
      w.(queue := queue, draft := None)
  }

  /** One step, or `None` when it cannot happen now. A change that some further check refuses is no step. */
  function Next(dir: string, w: World, step: LiveStep): Option<World> {
    match step
    case Submit(change, stamp) =>
      if w.draft.Some? || Changed(w.live, change).None? then None
      else
        var after := Changed(w.live, change).value;
        var queue := Apply(w.queue, Admit(RequestFor(dir, after, change, stamp)));
        if queue.None? then None else Some(w.(queue := queue.value, draft := Some(after)))
    case Commit =>
      if w.draft.None? || Apply(w.queue, Place).None? then None
      else Some(Committed(w, Apply(w.queue, Place).value))
    case Retune(change) =>
      if w.draft.Some? || !change.Tuning? || Changed(w.live, change).None? then None
      else Some(w.(live := Changed(w.live, change).value))
    case Strand(change) =>
      if w.draft.Some? || !change.Limits? || AdmissionOpen(w.queue.slot) || Changed(w.live, change).None? then None
      else Some(w.(live := Changed(w.live, change).value, stranded := true))
    case Other(other) =>
      if other.Admit? || other.Place? || Apply(w.queue, other).None? then None
      else Some(w.(queue := Apply(w.queue, other).value))
  }

  function LiveRun(dir: string, disk: Disk, live: Live, steps: seq<LiveStep>): Option<World> {
    if steps == [] then Some(Start(disk, live))
    else
      match LiveRun(dir, disk, live, steps[..|steps| - 1])
      case None => None
      case Some(w) => Next(dir, w, steps[|steps| - 1])
  }

  // ----- Every live run is a run of the queue

  lemma {:induction false} StepOfQueue(dir: string, w: World, step: LiveStep) returns (queueStep: Option<Step>)
    requires Next(dir, w, step).Some?
    ensures match queueStep
            case None => Next(dir, w, step).value.queue == w.queue
            case Some(s) => Apply(w.queue, s) == Some(Next(dir, w, step).value.queue)
  {
    match step
    case Submit(change, stamp) =>
      queueStep := Some(Admit(RequestFor(dir, Changed(w.live, change).value, change, stamp)));
    case Commit => queueStep := Some(Place);
    case Other(other) => queueStep := Some(other);
    case _ => queueStep := None;
  }

  lemma {:induction false} LiveRunIsRun(dir: string, disk: Disk, live: Live, steps: seq<LiveStep>)
    returns (queueSteps: seq<Step>)
    requires LiveRun(dir, disk, live, steps).Some?
    ensures Run(disk, queueSteps) == Some(LiveRun(dir, disk, live, steps).value.queue)
  {
    queueSteps := [];
    if steps != [] {
      var front := steps[..|steps| - 1];
      queueSteps := LiveRunIsRun(dir, disk, live, front);
      var step := StepOfQueue(dir, LiveRun(dir, disk, live, front).value, steps[|steps| - 1]);
      if step.Some? {
        assert (queueSteps + [step.value])[..|queueSteps|] == queueSteps;
        queueSteps := queueSteps + [step.value];
      }
    }
  }

  lemma {:induction false} LiveQueueIsSound(dir: string, disk: Disk, live: Live, steps: seq<LiveStep>)
    requires LiveRun(dir, disk, live, steps).Some?
    ensures Sound(disk, LiveRun(dir, disk, live, steps).value.queue)
  {
    var queueSteps := LiveRunIsRun(dir, disk, live, steps);
    EveryRunIsSound(disk, queueSteps);
  }

  // ----- What every live run keeps

  ghost predicate Agree(a: Live, b: Live) {
    a.motors == b.motors && forall joint :: SameLimits(a, b, joint)
  }

  /** The request being enqueued comes from the last accepted snapshot. */
  ghost predicate DraftIsDerived(dir: string, w: World) {
    && (w.draft.None? <==> w.queue.admitting.None?)
    && (w.draft.Some? ==>
          && w.snapshots != [] && w.queue.admitting.value.configDir == dir && VelocitiesPositive(w.draft.value)
          && Derived(w.snapshots[|w.snapshots| - 1], w.queue.admitting.value, w.draft.value))
  }

  ghost predicate Consistent(dir: string, live: Live, w: World) {
    && Chain(dir, w.queue.accepted, w.snapshots) && w.snapshots[0] == live
    && VelocitiesPositive(w.live)
    && (w.stranded ==> !AdmissionOpen(w.queue.slot))
    && (!w.stranded ==> Agree(w.snapshots[|w.snapshots| - 1], w.live))
    && DraftIsDerived(dir, w)
  }

  lemma {:induction false} CloseDerived(a: Live, b: Live, request: Request, after: Live)
    requires Agree(a, b) && Derived(b, request, after)
    ensures Derived(a, request, after)
  {
    forall joint | SameLimits(b, after, joint) ensures SameLimits(a, after, joint) {
      assert SameLimits(a, b, joint);
    }
  }

  lemma {:induction false} AdmitPart(s: System, request: Request)
    requires Apply(s, Admit(request)).Some?
    ensures var s' := Apply(s, Admit(request)).value;
            && AdmissionOpen(s.slot) && s'.slot == s.slot && s'.accepted == s.accepted && s'.admitting == Some(request)
  {
  }

  lemma {:induction false} SubmitKeepsConsistent(dir: string, live: Live, w: World, step: LiveStep)
    requires step.Submit? && Consistent(dir, live, w) && Next(dir, w, step).Some?
    ensures Consistent(dir, live, Next(dir, w, step).value)
  {
    var after := Changed(w.live, step.change).value;
    var request := RequestFor(dir, after, step.change, step.stamp);
    AdmitPart(w.queue, request);
    ChangeIsDerived(dir, w.live, step.change, step.stamp);
    CloseDerived(w.snapshots[|w.snapshots| - 1], w.live, request, after);
  }

  lemma {:induction false} CommitKeepsConsistent(dir: string, live: Live, w: World)
    requires Consistent(dir, live, w) && Lifecycle(w.queue) && Next(dir, w, Commit).Some?
    ensures Consistent(dir, live, Next(dir, w, Commit).value)
  {
    var request, after := w.queue.admitting.value, w.draft.value;
    assert AdmissionOpen(w.queue.slot) && !w.stranded;
    var queue := Apply(w.queue, Place).value;
    assert queue == Placed(w.queue);
    if Install(w.queue.slot, request).Ok? {
      ChainGrows(dir, w.queue.accepted, w.snapshots, request, after);
    }
  }

  lemma {:induction false} RetuneKeepsConsistent(dir: string, live: Live, w: World, step: LiveStep)
    requires step.Retune? || step.Strand?
    requires Consistent(dir, live, w) && Next(dir, w, step).Some?
    ensures Consistent(dir, live, Next(dir, w, step).value)
  {
    var last := w.snapshots[|w.snapshots| - 1];
    ChangeIsDerived(dir, w.live, step.change, Stamp(0, "", ""));
    if step.Retune? && !w.stranded {
      CloseDerived(last, w.live, RequestFor(dir, Changed(w.live, step.change).value, step.change, Stamp(0, "", "")),
                   Changed(w.live, step.change).value);
    }
  }

  /** Steps of worker and shutdown leave admission's requests alone and never reopen it. */
  lemma {:induction false} OtherPart(s: System, step: Step)
    requires !step.Admit? && !step.Place? && Apply(s, step).Some?
    ensures var s' := Apply(s, step).value;
            && s'.accepted == s.accepted && s'.admitting == s.admitting
            && (AdmissionOpen(s'.slot) ==> AdmissionOpen(s.slot))
  {
  }

  lemma {:induction false} NextKeepsConsistent(dir: string, live: Live, w: World, step: LiveStep)
    requires Consistent(dir, live, w) && Lifecycle(w.queue) && Next(dir, w, step).Some?
    ensures Consistent(dir, live, Next(dir, w, step).value)
  {
    match step
    case Submit(_, _) => SubmitKeepsConsistent(dir, live, w, step);
    case Commit => CommitKeepsConsistent(dir, live, w);
    case Retune(_) => RetuneKeepsConsistent(dir, live, w, step);
    case Strand(_) => RetuneKeepsConsistent(dir, live, w, step);
    case Other(other) => OtherPart(w.queue, other);
  }

  /** Every request comes from the live configuration of its moment, and at most its own joint's limits moved. */
  lemma {:induction false} EveryLiveRunIsConsistent(dir: string, disk: Disk, live: Live, steps: seq<LiveStep>)
    requires VelocitiesPositive(live) && LiveRun(dir, disk, live, steps).Some?
    ensures Consistent(dir, live, LiveRun(dir, disk, live, steps).value)
  {
    if steps == [] {
      assert Chain(dir, [], [live]);
    } else {
      var front := steps[..|steps| - 1];
      EveryLiveRunIsConsistent(dir, disk, live, front);
      LiveQueueIsSound(dir, disk, live, front);
      NextKeepsConsistent(dir, live, LiveRun(dir, disk, live, front).value, steps[|steps| - 1]);
    }
  }

  // ----- What the robot's operator can rely on

  /** A request made from the live configuration is never refused by the pending one: only closed admission refuses. */
  lemma {:induction false} NoSaveIsRefused(dir: string, disk: Disk, live: Live, steps: seq<LiveStep>)
    requires VelocitiesPositive(live) && LiveRun(dir, disk, live, steps).Some?
    requires LiveRun(dir, disk, live, steps).value.draft.Some?
    ensures var w := LiveRun(dir, disk, live, steps).value;
            w.queue.admitting.Some? && Install(w.queue.slot, w.queue.admitting.value).Ok?
  {
    EveryLiveRunIsConsistent(dir, disk, live, steps);
    LiveQueueIsSound(dir, disk, live, steps);
    PendingTakesDraft(dir, live, LiveRun(dir, disk, live, steps).value);
  }

  lemma {:induction false} PendingTakesDraft(dir: string, live: Live, w: World)
    requires Consistent(dir, live, w) && SlotIsBatch(w.queue) && w.draft.Some?
    ensures Install(w.queue.slot, w.queue.admitting.value).Ok?
  {
    if w.queue.slot.request.Some? {
      var accepted, n := w.queue.accepted, |w.queue.accepted|;
      var pending, batch := w.queue.slot.request.value, accepted[w.queue.taken..n];
      BatchIsFaithful(dir, accepted, w.snapshots, w.queue.taken, n);
      CoalescedMotors(batch);
      if IsPatch(pending) {
        PendingPatchIsVerbatim(batch);
        assert Link(accepted, w.snapshots, n - 1);
        assert pending == accepted[n - 1];
      }
      LiveRequestCoalesces(pending, w.snapshots[n], w.queue.admitting.value, w.draft.value);
    }
  }

  lemma {:induction false} ReplayOneFaithful(replayed: Disk, sequential: Disk, batch: seq<Request>, d: string)
    requires batch != [] && AllComplete(batch) && CoalesceAll(batch).Ok? && SameFiles(replayed, sequential, d)
    requires InDirectory(batch, batch[|batch| - 1].configDir) && SaveHoldsPatch(batch)
    ensures SameFiles(WriteTo(replayed, CoalesceAll(batch).value.request), Sequential(sequential, batch), d)
  {
    FaithfulWrite(sequential, batch, d);
  }

  lemma {:induction false} ReplayedFiles(dir: string, disk: Disk, accepted: seq<Request>, writes: seq<Write>,
      snapshots: seq<Live>, n: nat, d: string)
    requires WritesAreBatches(accepted, writes) && Chain(dir, accepted, snapshots) && n <= |writes|
    ensures From(writes, n) <= |accepted|
    ensures SameFiles(Replay(disk, writes[..n]), Sequential(disk, accepted[..From(writes, n)]), d)
  {
    if n == 0 {
      assert accepted[..0] == [];
    } else {
      ReplayedFiles(dir, disk, accepted, writes, snapshots, n - 1, d);
      ReplayedNext(dir, disk, accepted, writes, snapshots, n - 1, d);
      assert writes[..n][..n - 1] == writes[..n - 1];
    }
  }

  lemma {:induction false} ReplayedNext(dir: string, disk: Disk, accepted: seq<Request>, writes: seq<Write>,
      snapshots: seq<Live>, w: nat, d: string)
    requires HasBatch(accepted, writes, w) && Chain(dir, accepted, snapshots)
    requires SameFiles(Replay(disk, writes[..w]), Sequential(disk, accepted[..From(writes, w)]), d)
    ensures SameFiles(WriteTo(Replay(disk, writes[..w]), writes[w].request), Sequential(disk, accepted[..writes[w].upTo]), d)
  {
    NextBatch(disk, accepted, writes, w);
    BatchIsFaithful(dir, accepted, snapshots, From(writes, w), writes[w].upTo);
    ReplayOneFaithful(Replay(disk, writes[..w]), Sequential(disk, accepted[..From(writes, w)]), BatchOf(accepted, writes, w), d);
  }

  /**
    Whenever nothing is pending or being written and no write failed, both files
    of every directory are those that writing each accepted request in order
    would have left: coalescing is not visible on disk.
   */
  lemma {:induction false} LiveDiskIsSequential(dir: string, disk: Disk, live: Live, steps: seq<LiveStep>, d: string)
    requires VelocitiesPositive(live) && LiveRun(dir, disk, live, steps).Some?
    requires Idle(LiveRun(dir, disk, live, steps).value.queue)
    ensures var s := LiveRun(dir, disk, live, steps).value.queue;
            SameFiles(s.disk, Sequential(disk, s.accepted), d)
  {
    var w := LiveRun(dir, disk, live, steps).value;
    EveryLiveRunIsConsistent(dir, disk, live, steps);
    LiveQueueIsSound(dir, disk, live, steps);
    ReplayedFiles(dir, disk, w.queue.accepted, w.queue.writes, w.snapshots, |w.queue.writes|, d);
    assert w.queue.writes[..|w.queue.writes|] == w.queue.writes;
    assert w.queue.accepted[..|w.queue.accepted|] == w.queue.accepted;
  }

  /**
    At rest the files hold exactly the limits the robot enforces, if they did at
    the start: the same motors, and for every joint the same soft limits and
    velocity cap.
   */
  lemma {:induction false} DiskHoldsLiveLimits(dir: string, disk: Disk, live: Live, steps: seq<LiveStep>, joint: string)
    requires VelocitiesPositive(live) && LiveRun(dir, disk, live, steps).Some?
    requires FilesIn(disk, dir).motors == live.motors
    requires SameLimits(Live(FilesIn(disk, dir).motors, FilesIn(disk, dir).control), live, joint)
    requires var w := LiveRun(dir, disk, live, steps).value; Idle(w.queue) && w.draft.None? && !w.stranded
    ensures var w := LiveRun(dir, disk, live, steps).value;
            var files := FilesIn(w.queue.disk, dir);
            files.motors == w.live.motors && SameLimits(Live(files.motors, files.control), w.live, joint)
  {
    var w := LiveRun(dir, disk, live, steps).value;
    var n := |w.queue.accepted|;
    LiveDiskIsSequential(dir, disk, live, steps, dir);
    EveryLiveRunIsConsistent(dir, disk, live, steps);
    SequentialIsSnapshot(dir, disk, w.queue.accepted, w.snapshots, n);
    assert w.queue.accepted[..n] == w.queue.accepted;
    assert SameLimits(w.snapshots[n], w.live, joint);
  }

  /**
    The completion of a patch says superseded if and only if its write succeeded
    and the last patch on its joint in the same write has other bounds, and
    Durable if and only if the write put its bounds into its own directory.
   */
  lemma {:induction false} SupersededIff(dir: string, disk: Disk, live: Live, steps: seq<LiveStep>, a: nat, i: nat)
    requires VelocitiesPositive(live) && LiveRun(dir, disk, live, steps).Some?
    requires var s := LiveRun(dir, disk, live, steps).value.queue;
             && a < |s.attempts| && i < |s.accepted| && IsPatch(s.accepted[i])
             && CompletesSession(s.attempts[a], s.accepted[i].session)
    ensures var s := LiveRun(dir, disk, live, steps).value.queue;
            && |s.origins| == |s.attempts| && HasBatch(s.accepted, s.writes, s.origins[a].write)
            && var w, event, patch := s.origins[a].write, s.attempts[a].event, s.accepted[i];
               var r := LastPatchOn(s.accepted, patch.joint, s.writes[w].upTo);
               && From(s.writes, w) <= i <= r < s.writes[w].upTo
               && CompletePatch(patch) && CompletePatch(s.accepted[r])
               && (event.reason.Superseded? <==> s.writes[w].ok && !Keeps(BoundsOf(patch), BoundsOf(s.accepted[r])))
               && (event.status == Durable <==> WroteBounds(s.writes, w, patch))
  {
    var world := LiveRun(dir, disk, live, steps).value;
    var s := world.queue;
    var queueSteps := LiveRunIsRun(dir, disk, live, steps);
    EveryRunIsSound(disk, queueSteps);
    EveryLiveRunIsConsistent(dir, disk, live, steps);
    DurableIsBacked(disk, queueSteps, a, s.accepted[i]);
    var w := s.origins[a].write;
    PatchIsInBatch(s, w, i);
    SupersededPart(dir, world, w, i);
  }

  lemma {:induction false} PatchIsInBatch(s: System, w: int, i: nat)
    requires Identified(s) && HasBatch(s.accepted, s.writes, w) && i < |s.accepted| && IsPatch(s.accepted[i])
    requires s.accepted[i] in BatchOf(s.accepted, s.writes, w)
    ensures From(s.writes, w) <= i < s.writes[w].upTo
  {
    var batch, from := BatchOf(s.accepted, s.writes, w), From(s.writes, w);
    var k :| 0 <= k < |batch| && batch[k] == s.accepted[i];
    assert s.accepted[from + k] == s.accepted[i];
    assert !(from + k < i) && !(i < from + k);
  }

  lemma {:induction false} SupersededPart(dir: string, world: World, w: int, i: nat)
    requires Chain(dir, world.queue.accepted, world.snapshots) && HasBatch(world.queue.accepted, world.queue.writes, w)
    requires From(world.queue.writes, w) <= i < world.queue.writes[w].upTo && IsPatch(world.queue.accepted[i])
    ensures var s := world.queue;
            var patch, r := s.accepted[i], LastPatchOn(s.accepted, s.accepted[i].joint, s.writes[w].upTo);
            && i <= r && CompletePatch(patch) && CompletePatch(s.accepted[r])
            && (WrittenBy(BoundsOf(patch), s.writes[w].request, patch.joint) <==>
                Keeps(BoundsOf(patch), BoundsOf(s.accepted[r])))
            && s.writes[w].request.configDir == dir == patch.configDir
  {
    var s := world.queue;
    HeldIffLastPatchKeeps(dir, s.accepted, world.snapshots, From(s.writes, w), i, s.writes[w].upTo);
    BatchWritesSnapshot(dir, s.accepted, world.snapshots, From(s.writes, w), i, s.writes[w].upTo);
  }
}
