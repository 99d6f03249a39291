/**
  The coalescing write-behind queue: one pending request, the limit patches it
  replaced, and the counters. `ConfigPersistQueue` is the object that enqueue,
  close and the worker change under its lock; the functions beside it say what
  each change means.
 */
module PersistQueue {
  import opened Basics
  import opened LimitConfig

  const U64_MAX: nat := 0xFFFF_FFFF_FFFF_FFFF

  const LIMIT_PATCH := "limit_patch"

  datatype Request = Request(
    configDir: string, motors: Option<MotorsFile>, control: ControlFile,
    timestampMs: nat, session: string, operator: string, joint: string, param: string)

  /** A limit patch's joint entries as its own snapshot held them. */
  datatype Bounds = Bounds(
    positionLower: real, positionUpper: real, torqueLimit: real,
    softLower: Option<real>, softUpper: Option<real>, velocityMax: Option<real>)

  /** Identity and bounds of a coalesced limit patch, for its completion event. */
  datatype Carried = Carried(timestampMs: nat, session: string, operator: string, joint: string, bounds: Bounds)

  datatype PersistError =
    | AdmissionClosed
    | WorkerDisconnected
    | AcrossDirectories
    | NoMotorsSnapshot
    | MotorMissing
    | ControlMissing
    | LatestLacksJoint
    | PatchRejected

  predicate IsPatch(request: Request) {
    request.param == LIMIT_PATCH
  }

  /** An unset optional field in the patch's own snapshot constrains nothing. */
  predicate Held(patch: Option<real>, written: Option<real>) {
    patch.None? || patch == written
  }

  /** True when writing `request` puts `bounds` on disk for `joint`. */
  predicate WrittenBy(bounds: Bounds, request: Request, joint: string) {
    && request.motors.Some?
    && FindMotor(request.motors.value, joint).Some?
    && joint in request.control
    && var motor := FindMotor(request.motors.value, joint).value;
       var control := request.control[joint];
       && motor.positionLower == bounds.positionLower
       && motor.positionUpper == bounds.positionUpper
       && motor.torqueLimit == bounds.torqueLimit
       && Held(bounds.softLower, control.softLower)
       && Held(bounds.softUpper, control.softUpper)
       && Held(bounds.velocityMax, control.velocityMax)
  }

  /** What the operator's path guarantees of a limit patch it enqueues. */
  predicate CompletePatch(request: Request) {
    && request.motors.Some?
    && FindMotor(request.motors.value, request.joint).Some?
    && request.joint in request.control
  }

  function BoundsOf(request: Request): Bounds
    requires CompletePatch(request)
  {
    var motor := FindMotor(request.motors.value, request.joint).value;
    var control := request.control[request.joint];
    Bounds(motor.positionLower, motor.positionUpper, motor.torqueLimit,
           control.softLower, control.softUpper, control.velocityMax)
  }

  function CarriedOf(request: Request): Carried
    requires CompletePatch(request)
  {
    Carried(request.timestampMs, request.session, request.operator, request.joint, BoundsOf(request))
  }

  /** The patch that re-imposes a pending limit patch on a later control-only save. */
  function PatchOf(request: Request): LimitPatch
    requires CompletePatch(request)
  {
    var bounds := BoundsOf(request);
    LimitPatch(request.joint, bounds.positionLower, bounds.positionUpper, None,
               bounds.softLower, bounds.softUpper, bounds.velocityMax)
  }

  /** Coalesce the pending limit patch into `latest`: its completion, and what will be written instead. */
  function CarryPending(pending: Request, latest: Request): Result<(Carried, Request), PersistError> {
    if pending.configDir != latest.configDir then Err(AcrossDirectories)
    else if pending.motors.None? then Err(NoMotorsSnapshot)
    else if FindMotor(pending.motors.value, pending.joint).None? then Err(MotorMissing)
    else if pending.joint !in pending.control then Err(ControlMissing)
    else
      var carried := CarriedOf(pending);
      if latest.motors.Some? then Ok((carried, latest))
      else if pending.joint !in latest.control then Err(LatestLacksJoint)
      else
        match ApplyToControl(latest.control[pending.joint], PatchOf(pending))
        case Err(_) => Err(PatchRejected)
        case Ok(entry) =>
          Ok((carried, latest.(control := latest.control[pending.joint := entry], motors := pending.motors)))
  }

  datatype Merged = Merged(carried: seq<Carried>, request: Request)

  /** What `latest` becomes when it replaces the not-yet-started `pending`. */
  function Coalesce(pending: Request, latest: Request): Result<Merged, PersistError> {
    if IsPatch(pending) then
      match CarryPending(pending, latest)
      case Err(error) => Err(error)
      case Ok((carried, request)) => Ok(Merged([carried], request))
    else if latest.motors.None? then
      Ok(Merged([], latest.(motors := pending.motors)))
    else
      Ok(Merged([], latest))
  }

  // ----- The slot under the lock

  datatype Slot = Slot(
    request: Option<Request>, carried: seq<Carried>, writing: bool, accepting: bool,
    workerDone: bool, workerError: Option<string>,
    successfulWrites: nat, failedWrites: nat, publicationFailures: nat, coalescedRequests: nat)

  const EMPTY_SLOT := Slot(None, [], false, true, false, None, 0, 0, 0, 0)

  function SaturatingInc(n: nat): nat {
    if n < U64_MAX then n + 1 else n
  }

  predicate AdmissionOpen(slot: Slot) {
    slot.accepting && !slot.workerDone && slot.workerError.None?
  }

  /** The slot once an admitted `latest` is in it; an error leaves the slot as it was. */
  function Install(slot: Slot, latest: Request): Result<Slot, PersistError> {
    if slot.request.None? then
      Ok(slot.(request := Some(latest)))
    else
      match Coalesce(slot.request.value, latest)
      case Err(error) => Err(error)
      case Ok(merged) =>
        Ok(slot.(request := Some(merged.request),
                 carried := slot.carried + merged.carried,
                 coalescedRequests := SaturatingInc(slot.coalescedRequests)))
  }

  function WithError(slot: Slot, message: string): Slot {
    if slot.workerError.Some? then slot else slot.(workerError := Some(message))
  }

  function Closed(slot: Slot): Slot {
    slot.(accepting := false)
  }

  function Taken(slot: Slot): Slot {
    slot.(request := None, carried := [], writing := true)
  }

  function Finalised(slot: Slot, writeOk: bool, published: bool): Slot {
    slot.(successfulWrites := if writeOk then SaturatingInc(slot.successfulWrites) else slot.successfulWrites,
          failedWrites := if writeOk then slot.failedWrites else SaturatingInc(slot.failedWrites),
          publicationFailures := if published then slot.publicationFailures else SaturatingInc(slot.publicationFailures),
          writing := false)
  }

  /** The completion guard, which runs on a normal return and on unwinding alike. */
  function WorkerGone(slot: Slot, normally: bool): Slot {
    var closed := slot.(accepting := false, workerDone := true);
    if normally then closed else WithError(closed, "persist worker exited unexpectedly")
  }

  datatype DrainStatus = Complete | CompletedWithFailures | TimedOut | WorkerFailed

  function StatusOf(slot: Slot, workerTerminated: bool): DrainStatus {
    if slot.workerError.Some? then WorkerFailed
    else if !workerTerminated || slot.request.Some? || slot.writing then TimedOut
    else if slot.failedWrites != 0 || slot.publicationFailures != 0 then CompletedWithFailures
    else Complete
  }

  // ----- The shared object

  /** The slot, its one-token wake channel, and whether the worker still holds the receiving end. */
  class ConfigPersistQueue {
    var request: Option<Request>
    var carried: seq<Carried>
    var writing: bool
    var accepting: bool
    var workerDone: bool
    var workerError: Option<string>
    var successfulWrites: nat
    var failedWrites: nat
    var publicationFailures: nat
    var coalescedRequests: nat
    var wakeToken: bool
    var receiverAlive: bool

    function View(): Slot
      reads this
    {
      Slot(request, carried, writing, accepting, workerDone, workerError,
           successfulWrites, failedWrites, publicationFailures, coalescedRequests)
    }

    constructor Spawn()
      ensures View() == EMPTY_SLOT && !wakeToken && receiverAlive
    {
      request, carried, writing, accepting := None, [], false, true;
      workerDone, workerError := false, None;
      successfulWrites, failedWrites, publicationFailures, coalescedRequests := 0, 0, 0, 0;
      wakeToken, receiverAlive := false, true;
    }

    /** `get_or_insert_with`: the first error stays. */
    method RecordError(message: string)
      modifies this`workerError
      ensures View() == WithError(old(View()), message)
      ensures workerError == if old(workerError).Some? then old(workerError) else Some(message)
    {
      if workerError.None? {
        workerError := Some(message);
      }
    }

    /** Queue a durable write, replacing any not-yet-started request. */
    method Enqueue(latest: Request) returns (result: Result<(), PersistError>)
      modifies this
      ensures receiverAlive == old(receiverAlive)
      ensures !old(AdmissionOpen(View())) ==>
                result == Err(AdmissionClosed) && View() == old(View()) && wakeToken == old(wakeToken)
      ensures old(AdmissionOpen(View())) && !receiverAlive ==>
                && result == Err(WorkerDisconnected) && wakeToken == old(wakeToken)
                && View() == WithError(Closed(old(View())), "persist worker disconnected")
      ensures old(AdmissionOpen(View())) && receiverAlive ==>
                && wakeToken
                && match Install(old(View()), latest)
                   case Ok(slot) => result == Ok(()) && View() == slot
                   case Err(error) => result == Err(error) && View() == old(View())
    {
      if !accepting || workerDone || workerError.Some? {
        return Err(AdmissionClosed);
      }
      if !receiverAlive {
        accepting := false;
        RecordError("persist worker disconnected");
        return Err(WorkerDisconnected);
      }
      wakeToken := true;
      var replacement := latest;
      if request.Some? {
        var pending := request.value;
        request := None;
        if pending.param == LIMIT_PATCH {
          var carry := CarryPending(pending, replacement);
          match carry {
            case Ok((completion, merged)) =>
              carried := carried + [completion];
              replacement := merged;
            case Err(error) =>
              request := Some(pending);
              return Err(error);
          }
        } else if replacement.motors.None? {
          replacement := replacement.(motors := pending.motors);
        }
        coalescedRequests := SaturatingInc(coalescedRequests);
      }
      request := Some(replacement);
      return Ok(());
    }

    /** Close without waiting; the wake lets an idle worker see it. */
    method CloseAdmission()
      modifies this
      ensures View() == Closed(old(View())) && receiverAlive == old(receiverAlive)
      ensures wakeToken == (old(wakeToken) || receiverAlive)
    {
      accepting := false;
      if receiverAlive {
        wakeToken := true;
      }
    }

    /** The worker takes the pending request and every completion that rides on it. */
    method Take() returns (work: Option<(Request, seq<Carried>)>)
      modifies this
      ensures wakeToken == old(wakeToken) && receiverAlive == old(receiverAlive)
      ensures work.None? <==> old(request).None?
      ensures work.None? ==> View() == old(View())
      ensures work.Some? ==> work.value == (old(request).value, old(carried)) && View() == Taken(old(View()))
    {
      if request.None? {
        return None;
      }
      work := Some((request.value, carried));
      request, carried, writing := None, [], true;
    }

    /** After the publication attempts: count the write and release the slot. */
    method Finalise(writeOk: bool, published: bool)
      modifies this
      ensures View() == Finalised(old(View()), writeOk, published)
      ensures wakeToken == old(wakeToken) && receiverAlive == old(receiverAlive)
    {
      if writeOk {
        successfulWrites := SaturatingInc(successfulWrites);
      } else {
        failedWrites := SaturatingInc(failedWrites);
      }
      if !published {
        publicationFailures := SaturatingInc(publicationFailures);
      }
      writing := false;
    }

    /** The completion guard's drop. */
    method WorkerExit(normally: bool)
      modifies this
      ensures View() == WorkerGone(old(View()), normally)
      ensures wakeToken == old(wakeToken) && receiverAlive == old(receiverAlive)
    {
      accepting := false;
      workerDone := true;
      if !normally {
        RecordError("persist worker exited unexpectedly");
      }
    }
  }

  // ----- What coalescing two requests keeps

  /** A limit patch that is written as its own request holds its own bounds. */
  lemma {:induction false} OwnWriteHoldsBounds(request: Request)
    requires CompletePatch(request)
    ensures WrittenBy(BoundsOf(request), request, request.joint)
  {
  }

  /** Soft limits that cross, and still cross once both are moved inside the hard range. */
  predicate CrossInside(softLower: Option<real>, softUpper: Option<real>, lower: real, upper: real) {
    softLower.Some? && softUpper.Some? && softUpper.value < softLower.value
    && lower < softLower.value && softUpper.value < upper
  }

  /**
    Exactly when a complete pending patch cannot be absorbed: the directories
    differ, or a control-only save has no entry for the joint, or the patch is
    malformed, or its soft limits, completed by the save's, cross inside its hard
    range.
   */
  lemma {:induction false} CarryRefusedIff(pending: Request, latest: Request)
    requires CompletePatch(pending)
    ensures var bounds, joint := BoundsOf(pending), pending.joint;
            CarryPending(pending, latest).Err? <==>
            || pending.configDir != latest.configDir
            || (latest.motors.None? &&
                (|| joint !in latest.control || Blank(joint)
                 || bounds.positionUpper <= bounds.positionLower || !PositiveIfSet(bounds.velocityMax)
                 || !OrderedIfSet(bounds.softLower, bounds.softUpper)
                 || CrossInside(OrElse(bounds.softLower, latest.control[joint].softLower),
                                OrElse(bounds.softUpper, latest.control[joint].softUpper),
                                bounds.positionLower, bounds.positionUpper)))
  {
  }
}
