/**
  Batches of requests that all come from one live configuration: what their one
  write holds, and which of their patches it supersedes.
 */
module LiveBatches {
  import opened Basics
  import opened PersistQueue
  import opened Coalescing
  import opened LiveConfig

  ghost predicate Link(accepted: seq<Request>, snapshots: seq<Live>, i: int) {
    0 <= i < |accepted| && i + 1 < |snapshots| && Derived(snapshots[i], accepted[i], snapshots[i + 1])
  }

  /** `snapshots[i]` is the live configuration that the i-th request was made from, `snapshots[i + 1]` the one after. */
  ghost predicate Chain(dir: string, accepted: seq<Request>, snapshots: seq<Live>) {
    && |snapshots| == |accepted| + 1 && InDirectory(accepted, dir)
    && forall i | 0 <= i < |accepted| :: Link(accepted, snapshots, i)
  }

  lemma {:induction false} ChainGrows(dir: string, accepted: seq<Request>, snapshots: seq<Live>, request: Request,
      after: Live)
    requires Chain(dir, accepted, snapshots) && request.configDir == dir
    requires Derived(snapshots[|accepted|], request, after)
    ensures Chain(dir, accepted + [request], snapshots + [after])
  {
    var more, next := accepted + [request], snapshots + [after];
    forall i | 0 <= i < |more| ensures Link(more, next, i) {
      if i < |accepted| {
        assert Link(accepted, snapshots, i);
      }
    }
  }

  lemma {:induction false} ChainIsComplete(dir: string, accepted: seq<Request>, snapshots: seq<Live>)
    requires Chain(dir, accepted, snapshots)
    ensures AllComplete(accepted)
  {
    forall i | 0 <= i < |accepted| && IsPatch(accepted[i]) ensures CompletePatch(accepted[i]) {
      assert Link(accepted, snapshots, i);
    }
  }

  /** A save made from the configuration a patch left already holds the patch, so re-imposing it succeeds and changes nothing. */
  lemma {:induction false} SaveHoldsIts(patch: Request, between: Live, save: Request, after: Live)
    requires Imposed(patch) && patch.control == between.control && patch.motors == Some(between.motors)
    requires !IsPatch(save) && Derived(between, save, after) && save.configDir == patch.configDir
    ensures AlreadyHolds(patch, save) && CarryPending(patch, save).Ok?
  {
    var joint := patch.joint;
    assert SameLimits(between, after, joint);
    assert LimitsOf(between, joint) == Some(BoundsOf(patch));
    assert joint in save.control;
    CarryRefusedIff(patch, save);
  }

  /** Nothing made from the live configuration is refused by the request it replaces. */
  lemma {:induction false} LiveRequestCoalesces(pending: Request, between: Live, latest: Request, after: Live)
    requires pending.configDir == latest.configDir && Derived(between, latest, after)
    requires IsPatch(pending) ==> Imposed(pending) && pending.control == between.control && pending.motors == Some(between.motors)
    ensures Coalesce(pending, latest).Ok?
  {
    if IsPatch(pending) && !IsPatch(latest) {
      SaveHoldsIts(pending, between, latest, after);
    }
  }

  lemma {:induction false} BatchIsFaithful(dir: string, accepted: seq<Request>, snapshots: seq<Live>, from: nat,
      upTo: nat)
    requires Chain(dir, accepted, snapshots) && from < upTo <= |accepted|
    ensures var batch := accepted[from..upTo];
            && AllComplete(batch) && InDirectory(batch, dir) && batch[|batch| - 1].configDir == dir && SaveHoldsPatch(batch)
  {
    var batch := accepted[from..upTo];
    ChainIsComplete(dir, accepted, snapshots);
    assert forall i | 0 <= i < |batch| :: batch[i] == accepted[from + i];
    if EndsInSave(batch) {
      assert Link(accepted, snapshots, upTo - 2) && Link(accepted, snapshots, upTo - 1);
      assert accepted[upTo - 2] == batch[|batch| - 2] && accepted[upTo - 1] == batch[|batch| - 1];
      SaveHoldsIts(accepted[upTo - 2], snapshots[upTo - 1], accepted[upTo - 1], snapshots[upTo]);
    }
  }

  // ----- What the write of a batch holds

  lemma {:induction false} BatchMotors(dir: string, accepted: seq<Request>, snapshots: seq<Live>, from: nat, i: nat,
      upTo: nat)
    requires Chain(dir, accepted, snapshots) && from <= i < upTo <= |accepted| && IsPatch(accepted[i])
    ensures LastMotors(accepted[from..upTo]) == Some(snapshots[upTo].motors)
  {
    var batch := accepted[from..upTo];
    assert Link(accepted, snapshots, upTo - 1);
    assert batch[|batch| - 1] == accepted[upTo - 1];
    if i < upTo - 1 {
      BatchMotors(dir, accepted, snapshots, from, i, upTo - 1);
      assert batch[..|batch| - 1] == accepted[from..upTo - 1];
    }
  }

  /** A batch with a patch in it writes the live configuration as its last request saw it. */
  lemma {:induction false} BatchWritesSnapshot(dir: string, accepted: seq<Request>, snapshots: seq<Live>, from: nat,
      i: nat, upTo: nat)
    requires Chain(dir, accepted, snapshots) && from <= i < upTo <= |accepted| && IsPatch(accepted[i])
    requires CoalesceAll(accepted[from..upTo]).Ok?
    ensures var request := CoalesceAll(accepted[from..upTo]).value.request;
            && request.configDir == dir
            && request.motors == Some(snapshots[upTo].motors) && request.control == snapshots[upTo].control
  {
    var batch := accepted[from..upTo];
    BatchIsFaithful(dir, accepted, snapshots, from, upTo);
    CoalescedMotors(batch);
    BatchMotors(dir, accepted, snapshots, from, i, upTo);
    WritesLastControlIff(batch);
    assert Link(accepted, snapshots, upTo - 1);
  }

  // ----- Which patches it supersedes

  /** The last of the first `n` requests that is a limit patch on `joint`. */
  function LastPatchOn(accepted: seq<Request>, joint: string, n: nat): (r: int)
    requires n <= |accepted|
    ensures -1 <= r < n
    ensures r >= 0 ==> PatchOn(accepted[r], joint)
    ensures forall k | r < k < n :: !PatchOn(accepted[k], joint)
  {
    if n == 0 then -1
    else if PatchOn(accepted[n - 1], joint) then n - 1
    else LastPatchOn(accepted, joint, n - 1)
  }

  /** Files with the limits `later` hold the bounds `earlier`; what `earlier` leaves unset constrains nothing. */
  predicate Keeps(earlier: Bounds, later: Bounds) {
    && earlier.positionLower == later.positionLower && earlier.positionUpper == later.positionUpper
    && earlier.torqueLimit == later.torqueLimit
    && Held(earlier.softLower, later.softLower) && Held(earlier.softUpper, later.softUpper)
    && Held(earlier.velocityMax, later.velocityMax)
  }

  /** The live limits of a joint are those its last patch imposed. */
  lemma {:induction false} LimitsAreLastPatch(dir: string, accepted: seq<Request>, snapshots: seq<Live>,
      joint: string, n: nat)
    requires Chain(dir, accepted, snapshots) && n <= |accepted| && LastPatchOn(accepted, joint, n) >= 0
    ensures CompletePatch(accepted[LastPatchOn(accepted, joint, n)])
    ensures LimitsOf(snapshots[n], joint) == Some(BoundsOf(accepted[LastPatchOn(accepted, joint, n)]))
  {
    assert Link(accepted, snapshots, n - 1);
    if !PatchOn(accepted[n - 1], joint) {
      LimitsAreLastPatch(dir, accepted, snapshots, joint, n - 1);
      assert SameLimits(snapshots[n - 1], snapshots[n], joint);
    }
  }

  /**
    The write of a batch holds the bounds of one of its patches if and only if
    the last patch on that joint in the same batch keeps them: a patch is
    superseded only by a later patch on its joint with other bounds.
   */
  lemma {:induction false} HeldIffLastPatchKeeps(dir: string, accepted: seq<Request>, snapshots: seq<Live>,
      from: nat, i: nat, upTo: nat)
    requires Chain(dir, accepted, snapshots) && from <= i < upTo <= |accepted| && IsPatch(accepted[i])
    requires CoalesceAll(accepted[from..upTo]).Ok?
    ensures var patch, r := accepted[i], LastPatchOn(accepted, accepted[i].joint, upTo);
            && i <= r && CompletePatch(patch) && CompletePatch(accepted[r])
            && (WrittenBy(BoundsOf(patch), CoalesceAll(accepted[from..upTo]).value.request, patch.joint) <==>
                Keeps(BoundsOf(patch), BoundsOf(accepted[r])))
  {
    var joint := accepted[i].joint;
    assert PatchOn(accepted[i], joint);
    BatchWritesSnapshot(dir, accepted, snapshots, from, i, upTo);
    LimitsAreLastPatch(dir, accepted, snapshots, joint, upTo);
    ChainIsComplete(dir, accepted, snapshots);
  }

  // ----- What writing in order leaves

  lemma {:induction false} SequentialIsSnapshot(dir: string, disk: Disk, accepted: seq<Request>,
      snapshots: seq<Live>, n: nat)
    requires Chain(dir, accepted, snapshots) && n <= |accepted| && FilesIn(disk, dir).motors == snapshots[0].motors
    ensures var files := FilesIn(Sequential(disk, accepted[..n]), dir);
            && files.motors == snapshots[n].motors
            && files.control == if n == 0 then FilesIn(disk, dir).control else snapshots[n].control
  {
    if n == 0 {
      assert accepted[..0] == [];
    } else {
      SequentialIsSnapshot(dir, disk, accepted, snapshots, n - 1);
      assert Link(accepted, snapshots, n - 1);
      assert accepted[..n][..n - 1] == accepted[..n - 1];
    }
  }
}
