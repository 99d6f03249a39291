/**
  A batch of requests coalesced into one write, against the same requests
  written one after another, each into its own configuration directory.
 */
module Coalescing {
  import opened Basics
  import opened LimitConfig
  import opened PersistQueue

  // ----- The files of each configuration directory

  datatype Files = Files(motors: MotorsFile, control: ControlFile)

  type Disk = map<string, Files>

  const NO_FILES := Files([], map[])

  function FilesIn(disk: Disk, dir: string): Files {
    if dir in disk then disk[dir] else NO_FILES
  }

  /** The worker's write: both files of the request's directory, or its control file alone. */
  function WriteTo(disk: Disk, request: Request): Disk {
    var files := FilesIn(disk, request.configDir);
    disk[request.configDir :=
      Files(if request.motors.Some? then request.motors.value else files.motors, request.control)]
  }

  function Sequential(disk: Disk, requests: seq<Request>): Disk {
    if requests == [] then disk
    else WriteTo(Sequential(disk, requests[..|requests| - 1]), requests[|requests| - 1])
  }

  lemma {:induction false} SequentialAppend(disk: Disk, xs: seq<Request>, ys: seq<Request>)
    ensures Sequential(disk, xs + ys) == Sequential(Sequential(disk, xs), ys)
  {
    if ys == [] {
      assert xs + ys == xs;
    } else {
      var front := ys[..|ys| - 1];
      assert (xs + ys)[..|xs + ys| - 1] == xs + front;
      SequentialAppend(disk, xs, front);
    }
  }

  // ----- The batch

  /** What the slot holds after `requests` were enqueued onto an empty, busy queue. */
  function CoalesceAll(requests: seq<Request>): Result<Merged, PersistError>
    requires requests != []
  {
    if |requests| == 1 then Ok(Merged([], requests[0]))
    else
      match CoalesceAll(requests[..|requests| - 1])
      case Err(error) => Err(error)
      case Ok(pending) =>
        match Coalesce(pending.request, requests[|requests| - 1])
        case Err(error) => Err(error)
        case Ok(merged) => Ok(Merged(pending.carried + merged.carried, merged.request))
  }

  lemma {:induction false} CoalesceOneMore(requests: seq<Request>, latest: Request)
    requires requests != [] && CoalesceAll(requests).Ok? && Coalesce(CoalesceAll(requests).value.request, latest).Ok?
    ensures var pending := CoalesceAll(requests).value;
            var merged := Coalesce(pending.request, latest).value;
            CoalesceAll(requests + [latest]) == Ok(Merged(pending.carried + merged.carried, merged.request))
  {
    assert (requests + [latest])[..|requests|] == requests;
  }

  predicate AllComplete(requests: seq<Request>) {
    forall i | 0 <= i < |requests| :: IsPatch(requests[i]) ==> CompletePatch(requests[i])
  }

  lemma {:induction false} FrontIsComplete(requests: seq<Request>)
    requires requests != [] && AllComplete(requests)
    ensures AllComplete(requests[..|requests| - 1])
  {
    var front := requests[..|requests| - 1];
    forall i | 0 <= i < |front| && IsPatch(front[i]) ensures CompletePatch(front[i]) {
      assert front[i] == requests[i];
    }
  }

  /** The motors of the last request that has any. */
  function LastMotors(requests: seq<Request>): Option<MotorsFile> {
    if requests == [] then None
    else OrElse(requests[|requests| - 1].motors, LastMotors(requests[..|requests| - 1]))
  }

  /** The last request is a control-only save directly behind a limit patch. */
  predicate EndsInSave(requests: seq<Request>) {
    |requests| >= 2 && IsPatch(requests[|requests| - 2]) && requests[|requests| - 1].motors.None?
  }

  /** The write keeps the last request's directory and identity and takes the motors of the last that has any. */
  lemma {:induction false} CoalescedMotors(requests: seq<Request>)
    requires requests != [] && CoalesceAll(requests).Ok?
    ensures var request, last := CoalesceAll(requests).value.request, requests[|requests| - 1];
            && request.configDir == last.configDir && request.param == last.param
            && request.motors == LastMotors(requests)
            && (last.motors.Some? ==> request == last)
  {
    if |requests| > 1 {
      CoalescedMotors(requests[..|requests| - 1]);
    }
  }

  /** A complete patch at the end of a batch stays in the slot exactly as it was enqueued. */
  lemma {:induction false} PendingPatchIsVerbatim(requests: seq<Request>)
    requires requests != [] && AllComplete(requests) && CoalesceAll(requests).Ok?
    requires IsPatch(CoalesceAll(requests).value.request)
    ensures CoalesceAll(requests).value.request == requests[|requests| - 1]
  {
    CoalescedMotors(requests);
  }

  /**
    The control file the batch writes: the last request's, except that a
    control-only save directly behind a limit patch gets that patch imposed again.
   */
  lemma {:induction false} CoalescedControl(requests: seq<Request>)
    requires requests != [] && AllComplete(requests) && CoalesceAll(requests).Ok?
    ensures !EndsInSave(requests) ==>
              CoalesceAll(requests).value.request.control == requests[|requests| - 1].control
    ensures EndsInSave(requests) ==>
              var patch, last := requests[|requests| - 2], requests[|requests| - 1];
              && CarryPending(patch, last).Ok?
              && CoalesceAll(requests).value.request == CarryPending(patch, last).value.1
  {
    if |requests| > 1 {
      var front := requests[..|requests| - 1];
      FrontIsComplete(requests);
      CoalescedMotors(front);
      if IsPatch(CoalesceAll(front).value.request) {
        PendingPatchIsVerbatim(front);
      }
    }
  }

  /** Completions of the limit patches among `requests`, in order. */
  function Completions(requests: seq<Request>): seq<Carried>
    requires AllComplete(requests)
  {
    if requests == [] then []
    else
      var last := requests[|requests| - 1];
      FrontIsComplete(requests);
      Completions(requests[..|requests| - 1]) + if IsPatch(last) then [CarriedOf(last)] else []
  }

  /** Every limit patch of the batch but a last one rides on the write, once and in order. */
  lemma {:induction false} CarriedAreThePatches(requests: seq<Request>)
    requires requests != [] && AllComplete(requests) && CoalesceAll(requests).Ok?
    ensures AllComplete(requests[..|requests| - 1])
    ensures CoalesceAll(requests).value.carried == Completions(requests[..|requests| - 1])
  {
    FrontIsComplete(requests);
    if |requests| > 1 {
      var front := requests[..|requests| - 1];
      CarriedAreThePatches(front);
      CoalescedMotors(front);
      if IsPatch(CoalesceAll(front).value.request) {
        PendingPatchIsVerbatim(front);
      }
    } else {
      assert requests[..|requests| - 1] == [];
    }
  }

  lemma {:induction false} CompletionIsOfPatch(requests: seq<Request>, i: nat) returns (k: nat)
    requires AllComplete(requests) && i < |Completions(requests)|
    ensures k < |requests| && IsPatch(requests[k]) && Completions(requests)[i] == CarriedOf(requests[k])
  {
    var front := requests[..|requests| - 1];
    FrontIsComplete(requests);
    if i < |Completions(front)| {
      k := CompletionIsOfPatch(front, i);
      assert requests[k] == front[k];
    } else {
      k := |requests| - 1;
    }
  }

  /** The limit patches among `requests`, in order. */
  function Patches(requests: seq<Request>): seq<Request> {
    if requests == [] then []
    else
      var last := requests[|requests| - 1];
      Patches(requests[..|requests| - 1]) + if last.param == "limit_patch" then [last] else []
  }

  lemma {:induction false} CompletionsArePatches(requests: seq<Request>)
    requires AllComplete(requests)
    ensures |Completions(requests)| == |Patches(requests)|
    ensures forall i | 0 <= i < |Patches(requests)| ::
              && IsPatch(Patches(requests)[i]) && CompletePatch(Patches(requests)[i])
              && Completions(requests)[i] == CarriedOf(Patches(requests)[i])
  {
    if requests != [] {
      FrontIsComplete(requests);
      CompletionsArePatches(requests[..|requests| - 1]);
    }
  }

  /** The write keeps everything of the last request but its files. */
  lemma {:induction false} CoalescedIdentity(requests: seq<Request>)
    requires requests != [] && CoalesceAll(requests).Ok?
    ensures var request, last := CoalesceAll(requests).value.request, requests[|requests| - 1];
            request == last.(motors := request.motors, control := request.control)
  {
  }

  // ----- Which carried patches the write holds

  predicate MotorsHold(bounds: Bounds, motors: MotorsFile, joint: string) {
    && FindMotor(motors, joint).Some?
    && var motor := FindMotor(motors, joint).value;
       && motor.positionLower == bounds.positionLower
       && motor.positionUpper == bounds.positionUpper
       && motor.torqueLimit == bounds.torqueLimit
  }

  predicate EntryHolds(bounds: Bounds, entry: JointControl) {
    && Held(bounds.softLower, entry.softLower)
    && Held(bounds.softUpper, entry.softUpper)
    && Held(bounds.velocityMax, entry.velocityMax)
  }

  /** A soft side the batch writes for a joint: the re-imposed patch's where it has one, inside its hard range. */
  function SideWritten(patch: Option<real>, save: Option<real>, lower: real, upper: real): Option<real> {
    if lower <= upper then ClampSome(OrElse(patch, save), lower, upper) else save
  }

  /** The batch's last control snapshot, with a patch directly before it imposed again, holds `bounds`. */
  predicate ControlHolds(bounds: Bounds, requests: seq<Request>, joint: string)
    requires requests != [] && AllComplete(requests)
  {
    var last := requests[|requests| - 1];
    && joint in last.control
    && var entry := last.control[joint];
       if EndsInSave(requests) && requests[|requests| - 2].joint == joint then
         var patch := BoundsOf(requests[|requests| - 2]);
         && Held(bounds.softLower, SideWritten(patch.softLower, entry.softLower, patch.positionLower, patch.positionUpper))
         && Held(bounds.softUpper, SideWritten(patch.softUpper, entry.softUpper, patch.positionLower, patch.positionUpper))
         && Held(bounds.velocityMax, OrElse(patch.velocityMax, entry.velocityMax))
       else EntryHolds(bounds, entry)
  }

  /**
    Exactly when a batch's write holds the bounds of one of its patches, so that
    the patch is not reported superseded: the last motors snapshot of the batch
    has its hard limits, and the last control snapshot, with a patch directly
    before it imposed again, its soft ones. Whatever lies between does not matter.
   */
  lemma {:induction false} CarriedIsHeldIff(requests: seq<Request>, i: nat)
    requires i < |requests| && AllComplete(requests) && CoalesceAll(requests).Ok? && IsPatch(requests[i])
    ensures var bounds, joint := BoundsOf(requests[i]), requests[i].joint;
            WrittenBy(bounds, CoalesceAll(requests).value.request, joint) <==>
            && LastMotors(requests).Some? && MotorsHold(bounds, LastMotors(requests).value, joint)
            && ControlHolds(bounds, requests, joint)
  {
    CoalescedMotors(requests);
    CoalescedControl(requests);
  }

  predicate PatchOn(request: Request, joint: string) {
    IsPatch(request) && request.joint == joint
  }

  /** A patch on the same joint follows in the batch. */
  predicate HasLaterPatch(requests: seq<Request>, i: nat)
    requires i < |requests|
  {
    exists j | i < j < |requests| :: PatchOn(requests[j], requests[i].joint)
  }

  /**
    Exactly when the worker's report of one of a batch's patches is true: it says
    superseded by a later patch on the joint whenever the write does not hold the
    bounds, so either the last snapshots of the batch hold them or there is such
    a patch.
   */
  lemma {:induction false} SupersededIsTrueIff(requests: seq<Request>, i: nat)
    requires i < |requests| && AllComplete(requests) && CoalesceAll(requests).Ok? && IsPatch(requests[i])
    ensures var bounds, joint := BoundsOf(requests[i]), requests[i].joint;
            (!WrittenBy(bounds, CoalesceAll(requests).value.request, joint) ==> HasLaterPatch(requests, i)) <==>
            || (LastMotors(requests).Some? && MotorsHold(bounds, LastMotors(requests).value, joint)
                && ControlHolds(bounds, requests, joint))
            || HasLaterPatch(requests, i)
  {
    CarriedIsHeldIff(requests, i);
  }

  /**
    A patch, a save of the configuration it left and a save with another velocity
    cap: the patch will be reported superseded although no later patch exists.
   */
  lemma {:induction false} SupersededWithoutPatch() returns (patch: Request, save: Request, other: Request)
    ensures IsPatch(patch) && CompletePatch(patch) && !IsPatch(save) && !IsPatch(other)
    ensures CoalesceAll([patch, save, other]).Ok?
    ensures !WrittenBy(BoundsOf(patch), CoalesceAll([patch, save, other]).value.request, patch.joint)
    ensures !HasLaterPatch([patch, save, other], 0)
  {
    var entry;
    patch, save, entry := ElbowPatchAndSave();
    other := save.(control := map["elbow" := entry.(velocityMax := Some(0.5))], session := "tune-2");
    var batch := [patch, save, other];
    assert batch[..2] == [patch, save];
  }

  /** A limit patch on a joint and a save of the configuration it left, coalesced. */
  lemma {:induction false} ElbowPatchAndSave() returns (patch: Request, save: Request, entry: JointControl)
    ensures IsPatch(patch) && CompletePatch(patch) && patch.joint == "elbow" && patch.configDir == save.configDir == "a"
    ensures !IsPatch(save) && save.motors.None? && save.control == map["elbow" := entry]
    ensures BoundsOf(patch) == Bounds(-1.0, 1.0, 2.5, Some(-0.9), Some(0.9), Some(0.8))
    ensures entry == JointControl(Some(-0.9), Some(0.9), Some(0.8), "")
    ensures CoalesceAll([patch, save]) == Ok(Merged([CarriedOf(patch)], save.(motors := patch.motors)))
  {
    var motor := MotorEntry("elbow", -1.0, 1.0, 2.5, "");
    entry := JointControl(Some(-0.9), Some(0.9), Some(0.8), "");
    patch := Request("a", Some([motor]), map["elbow" := entry], 1, "limit-elbow-1", "op", "elbow", LIMIT_PATCH);
    save := Request("a", None, map["elbow" := entry], 2, "tune-1", "op", "elbow", "friction.fc");
    assert BoundsOf(patch) == Bounds(-1.0, 1.0, 2.5, Some(-0.9), Some(0.9), Some(0.8));
    assert !IsSpace("elbow"[0]) && !Blank("elbow");
    assert ValidPatch(PatchOf(patch));
    assert [patch, save][..1] == [patch];
    assert CoalesceAll([patch]) == Ok(Merged([], patch));
    var entry' := ApplyToControl(entry, PatchOf(patch)).value;
    assert entry' == entry;
    assert save.control["elbow" := entry'] == save.control;
    assert CarryPending(patch, save) == Ok((CarriedOf(patch), save.(motors := patch.motors)));
    assert Coalesce(patch, save) == Ok(Merged([CarriedOf(patch)], save.(motors := patch.motors)));
    assert [] + [CarriedOf(patch)] == [CarriedOf(patch)];
  }

  // ----- Exactly when one write does what the requests one by one would have done

  /** The last motors `requests` write into `dir`. */
  function MotorsFor(requests: seq<Request>, dir: string): Option<MotorsFile> {
    if requests == [] then None
    else
      var last := requests[|requests| - 1];
      if last.configDir == dir && last.motors.Some? then last.motors
      else MotorsFor(requests[..|requests| - 1], dir)
  }

  /** The last control file `requests` write into `dir`. */
  function ControlFor(requests: seq<Request>, dir: string): Option<ControlFile> {
    if requests == [] then None
    else
      var last := requests[|requests| - 1];
      if last.configDir == dir then Some(last.control) else ControlFor(requests[..|requests| - 1], dir)
  }

  lemma {:induction false} SequentialFiles(disk: Disk, requests: seq<Request>, dir: string)
    ensures var files := FilesIn(disk, dir);
            FilesIn(Sequential(disk, requests), dir) ==
            Files(if MotorsFor(requests, dir).Some? then MotorsFor(requests, dir).value else files.motors,
                  if ControlFor(requests, dir).Some? then ControlFor(requests, dir).value else files.control)
  {
    if requests != [] {
      SequentialFiles(disk, requests[..|requests| - 1], dir);
    }
  }

  predicate StaysIn(requests: seq<Request>, dir: string) {
    forall i | 0 <= i < |requests| :: requests[i].motors.Some? ==> requests[i].configDir == dir
  }

  /** Every request with motors names the directory of the last request. */
  predicate MotorsStay(requests: seq<Request>)
    requires requests != []
  {
    StaysIn(requests, requests[|requests| - 1].configDir)
  }

  predicate InDirectory(requests: seq<Request>, dir: string) {
    forall i | 0 <= i < |requests| :: requests[i].configDir == dir
  }

  lemma {:induction false} StayingMotors(requests: seq<Request>, home: string, dir: string)
    requires StaysIn(requests, home)
    ensures MotorsFor(requests, dir) == if dir == home then LastMotors(requests) else None
  {
    if requests != [] {
      var front := requests[..|requests| - 1];
      assert forall i | 0 <= i < |front| :: front[i] == requests[i];
      StayingMotors(front, home, dir);
    }
  }

  lemma {:induction false} StrayMotors(requests: seq<Request>, i: nat)
    requires i < |requests| && requests[i].motors.Some?
    ensures MotorsFor(requests, requests[i].configDir).Some?
  {
    if i < |requests| - 1 {
      assert requests[..|requests| - 1][i] == requests[i];
      StrayMotors(requests[..|requests| - 1], i);
    }
  }

  lemma {:induction false} StrayControl(requests: seq<Request>, i: nat)
    requires i < |requests|
    ensures ControlFor(requests, requests[i].configDir).Some?
  {
    if i < |requests| - 1 {
      assert requests[..|requests| - 1][i] == requests[i];
      StrayControl(requests[..|requests| - 1], i);
    }
  }

  lemma {:induction false} ElsewhereIsUntouched(requests: seq<Request>, home: string, dir: string)
    requires InDirectory(requests, home) && dir != home
    ensures ControlFor(requests, dir).None?
  {
    if requests != [] {
      var front := requests[..|requests| - 1];
      assert forall i | 0 <= i < |front| :: front[i] == requests[i];
      ElsewhereIsUntouched(front, home, dir);
    }
  }

  ghost predicate SameMotors(a: Disk, b: Disk, dir: string) {
    FilesIn(a, dir).motors == FilesIn(b, dir).motors
  }

  ghost predicate SameFiles(a: Disk, b: Disk, dir: string) {
    FilesIn(a, dir) == FilesIn(b, dir)
  }

  /** The batch's write does to the motors of `dir` what its requests one by one do. */
  lemma {:induction false} StayingWrite(disk: Disk, requests: seq<Request>, dir: string)
    requires requests != [] && CoalesceAll(requests).Ok? && MotorsStay(requests)
    ensures SameMotors(WriteTo(disk, CoalesceAll(requests).value.request), Sequential(disk, requests), dir)
  {
    CoalescedMotors(requests);
    SequentialFiles(disk, requests, dir);
    StayingMotors(requests, requests[|requests| - 1].configDir, dir);
  }

  /**
    One coalesced write leaves the motors that writing in order leaves, on every
    disk and in every directory, if and only if every request of the batch with
    motors names the directory of the last one.
   */
  lemma {:induction false} CoalescedMotorsAreSequentialIff(requests: seq<Request>)
    requires requests != [] && CoalesceAll(requests).Ok?
    ensures (forall disk, dir :: SameMotors(WriteTo(disk, CoalesceAll(requests).value.request),
                                            Sequential(disk, requests), dir))
            <==> MotorsStay(requests)
  {
    if MotorsStay(requests) {
      forall disk, dir
        ensures SameMotors(WriteTo(disk, CoalesceAll(requests).value.request), Sequential(disk, requests), dir)
      {
        StayingWrite(disk, requests, dir);
      }
    } else {
      var home := requests[|requests| - 1].configDir;
      var i :| 0 <= i < |requests| && requests[i].motors.Some? && requests[i].configDir != home;
      var dir := requests[i].configDir;
      StrayMotors(requests, i);
      var other := MotorsFor(requests, dir).value + [MotorEntry("", 0.0, 0.0, 0.0, "")];
      var disk: Disk := map[dir := Files(other, map[])];
      CoalescedMotors(requests);
      SequentialFiles(disk, requests, dir);
      assert !SameMotors(WriteTo(disk, CoalesceAll(requests).value.request), Sequential(disk, requests), dir);
    }
  }

  /** A later side already equal to the patch's, or inside the hard range where the patch leaves it open. */
  predicate SideHeld(patch: Option<real>, entry: Option<real>, lower: real, upper: real)
    requires lower <= upper
  {
    if patch.Some? then entry == Some(Clamp(patch.value, lower, upper))
    else entry.Some? ==> lower <= entry.value <= upper
  }

  /** The control snapshot of `latest` already holds the fields of the limit patch `patch`. */
  predicate AlreadyHolds(patch: Request, latest: Request)
    requires CompletePatch(patch)
  {
    var bounds := BoundsOf(patch);
    && bounds.positionLower <= bounds.positionUpper && patch.joint in latest.control
    && var entry := latest.control[patch.joint];
       && SideHeld(bounds.softLower, entry.softLower, bounds.positionLower, bounds.positionUpper)
       && SideHeld(bounds.softUpper, entry.softUpper, bounds.positionLower, bounds.positionUpper)
       && Held(bounds.velocityMax, entry.velocityMax)
  }

  /** Re-imposing a patch on a control-only save changes nothing if and only if the save already holds it. */
  lemma {:induction false} ReimposedIsNoOpIff(patch: Request, latest: Request)
    requires CompletePatch(patch) && latest.motors.None? && CarryPending(patch, latest).Ok?
    ensures CarryPending(patch, latest).value.1.control == latest.control <==> AlreadyHolds(patch, latest)
  {
    var joint := patch.joint;
    var entry := latest.control[joint];
    var entry' := ApplyToControl(entry, PatchOf(patch)).value;
    assert latest.control[joint := entry'][joint] == entry';
    if entry' == entry {
      assert latest.control[joint := entry'] == latest.control;
    }
  }

  /** A control-only save at the end of the batch already holds the patch directly before it. */
  predicate SaveHoldsPatch(requests: seq<Request>)
    requires AllComplete(requests)
  {
    EndsInSave(requests) ==> AlreadyHolds(requests[|requests| - 2], requests[|requests| - 1])
  }

  lemma {:induction false} WritesLastControlIff(requests: seq<Request>)
    requires requests != [] && AllComplete(requests) && CoalesceAll(requests).Ok?
    ensures CoalesceAll(requests).value.request.control == requests[|requests| - 1].control
            <==> SaveHoldsPatch(requests)
  {
    CoalescedControl(requests);
    if EndsInSave(requests) {
      ReimposedIsNoOpIff(requests[|requests| - 2], requests[|requests| - 1]);
    }
  }

  lemma {:induction false} FaithfulWrite(disk: Disk, requests: seq<Request>, dir: string)
    requires requests != [] && AllComplete(requests) && CoalesceAll(requests).Ok?
    requires InDirectory(requests, requests[|requests| - 1].configDir) && SaveHoldsPatch(requests)
    ensures SameFiles(WriteTo(disk, CoalesceAll(requests).value.request), Sequential(disk, requests), dir)
  {
    var home := requests[|requests| - 1].configDir;
    StayingWrite(disk, requests, dir);
    CoalescedMotors(requests);
    WritesLastControlIff(requests);
    SequentialFiles(disk, requests, dir);
    if dir != home {
      ElsewhereIsUntouched(requests, home, dir);
    }
  }

  /** Some control file other than `control`. */
  function OtherControl(control: ControlFile): (other: ControlFile)
    ensures other != control
  {
    var filled := map["" := JointControl(None, None, None, "")];
    assert "" in filled;
    if control == map[] then filled else map[]
  }

  /**
    One coalesced write leaves all the files that writing in order leaves, on
    every disk and in every directory, if and only if the batch names one
    directory and a control-only save at its end already holds the patch it
    directly replaces.
   */
  lemma {:induction false} CoalescedFilesAreSequentialIff(requests: seq<Request>)
    requires requests != [] && AllComplete(requests) && CoalesceAll(requests).Ok?
    ensures (forall disk, dir :: SameFiles(WriteTo(disk, CoalesceAll(requests).value.request),
                                           Sequential(disk, requests), dir))
            <==> InDirectory(requests, requests[|requests| - 1].configDir) && SaveHoldsPatch(requests)
  {
    var home := requests[|requests| - 1].configDir;
    CoalescedMotors(requests);
    if !InDirectory(requests, home) {
      var i :| 0 <= i < |requests| && requests[i].configDir != home;
      var dir := requests[i].configDir;
      StrayControl(requests, i);
      var disk: Disk := map[dir := Files([], OtherControl(ControlFor(requests, dir).value))];
      SequentialFiles(disk, requests, dir);
      assert !SameFiles(WriteTo(disk, CoalesceAll(requests).value.request), Sequential(disk, requests), dir);
    } else if !SaveHoldsPatch(requests) {
      WritesLastControlIff(requests);
      SequentialFiles(map[], requests, home);
      assert !SameFiles(WriteTo(map[], CoalesceAll(requests).value.request), Sequential(map[], requests), home);
    } else {
      forall disk, dir
        ensures SameFiles(WriteTo(disk, CoalesceAll(requests).value.request), Sequential(disk, requests), dir)
      {
        FaithfulWrite(disk, requests, dir);
      }
    }
  }

  /**
    A limit patch and a save for one directory, then a save for another: the
    motors go into the other directory, the patch's own is never written, and the
    write still holds the patch's bounds, so the patch will be reported Durable.
   */
  lemma {:induction false} MotorsGoAstray() returns (patch: Request, save: Request, stray: Request)
    ensures IsPatch(patch) && CompletePatch(patch) && !IsPatch(save) && !IsPatch(stray) && save.motors.None? && stray.motors.None?
    ensures patch.configDir == save.configDir != stray.configDir
    ensures CoalesceAll([patch, save, stray]).Ok?
    ensures var request := CoalesceAll([patch, save, stray]).value.request;
            && request.configDir == stray.configDir && request.motors == patch.motors
            && WrittenBy(BoundsOf(patch), request, patch.joint)
            && forall disk :: SameFiles(WriteTo(disk, request), disk, patch.configDir)
    ensures forall disk :: FilesIn(Sequential(disk, [patch, save, stray]), patch.configDir).motors == patch.motors.value
  {
    var entry;
    patch, save, entry := ElbowPatchAndSave();
    stray := save.(configDir := "b", session := "tune-2");
    var batch := [patch, save, stray];
    assert batch[..2] == [patch, save] && [patch, save][..1] == [patch] && [patch][..0] == [];
    assert MotorsFor([patch], "a") == patch.motors;
    assert MotorsFor([patch, save], "a") == patch.motors;
    forall disk: Disk
      ensures FilesIn(Sequential(disk, batch), patch.configDir).motors == patch.motors.value
    {
      SequentialFiles(disk, batch, patch.configDir);
    }
  }
}
