/**
  Every interleaving of enqueuing clients, close, queue drop and the persist
  worker, one lock section or channel operation at a time. A client's enqueue is
  two steps (wake sent, then request placed, the lock held throughout), so the
  worker may already consume the token in between.
 */
module PersistRuns {
  import opened Basics
  import opened PersistQueue
  import opened Coalescing

  // ----- Completion events

  datatype PersistStatus = NotApplicable | Pending | Durable | Failed

  datatype Reason = DiskWriteCompleted | WriteFailed | Superseded(joint: string) | Elsewhere(text: string)

  datatype Event = Event(
    timestampMs: nat, session: string, operator: string, joint: string, action: string,
    accepted: bool, reason: Reason, status: PersistStatus, configRevision: string)

  const PATCH_PERSIST := "limit_patch_persist"
  const CONFIG_PERSIST := "config_persist"

  function AuditAction(param: string): string {
    if param == LIMIT_PATCH then PATCH_PERSIST else CONFIG_PERSIST
  }

  /** The written request's own completion; `revision` is the profile revision read back after a good write. */
  function MainEvent(request: Request, writeOk: bool, revision: string): Event {
    Event(request.timestampMs, request.session, request.operator, request.joint, AuditAction(request.param),
          writeOk,
          if writeOk then DiskWriteCompleted else WriteFailed,
          if writeOk then Durable else Failed,
          if writeOk then revision else "")
  }

  /** A coalesced patch shares the write's outcome only when the write holds its bounds. */
  function CarriedEvent(carried: Carried, request: Request, writeOk: bool, revision: string): Event {
    var shared := MainEvent(request, writeOk, revision)
                  .(timestampMs := carried.timestampMs, session := carried.session, operator := carried.operator,
                    joint := carried.joint, action := PATCH_PERSIST);
    if writeOk && !WrittenBy(carried.bounds, request, carried.joint) then
      shared.(accepted := false, reason := Superseded(carried.joint), status := Failed, configRevision := "")
    else
      shared
  }

  /** The i-th completion the worker publishes for one write: the carried ones in order, then its own. */
  function EventAt(request: Request, carried: seq<Carried>, writeOk: bool, revision: string, i: nat): Event
    requires i <= |carried|
  {
    if i < |carried| then CarriedEvent(carried[i], request, writeOk, revision)
    else MainEvent(request, writeOk, revision)
  }

  // ----- The system

  /** A write, how many of the accepted requests had been taken up to and including its own, and the completions riding on it. */
  datatype Write = Write(request: Request, ok: bool, revision: string, upTo: nat, riders: nat)

  datatype Attempt = Attempt(event: Event, delivered: bool)

  /** The write an attempt announces, and its place among the completions of that write. */
  datatype Origin = Origin(write: int, place: nat)

  /** Where the worker thread is. `Guarded`: its completion guard has run; `Finished`: it has returned. */
  datatype Worker =
    | AtCheck
    | AtReceive
    | AtDrain
    | AtTake
    | AtWrite(request: Request, carried: seq<Carried>)
    | AtPublish(request: Request, carried: seq<Carried>, writeOk: bool, revision: string, sent: nat, published: bool)
    | AtReturn(normally: bool)
    | Guarded(normally: bool)
    | Finished(normally: bool)

  datatype System = System(
    slot: Slot, wakeToken: bool, senderAlive: bool,
    admitting: Option<Request>,   // a client between its wake and placing its request: it holds the lock
    worker: Worker,
    disk: Disk,
    accepted: seq<Request>, taken: nat, writes: seq<Write>,               // what has happened so far
    attempts: seq<Attempt>, origins: seq<Origin>,
    lost: seq<string>,            // sessions in an unwinding worker's hands
    intact: bool)                 // no write has failed or been cut short

  function Initial(disk: Disk): System {
    System(EMPTY_SLOT, false, true, None, AtCheck, disk, [], 0, [], [], [], [], true)
  }

  datatype Step =
    | Admit(request: Request)
    | AdmitDisconnected(request: Request)
    | Place
    | Close
    | CloseQuietly                // the locked half of dropping the queue
    | Wake                        // the unlocked half
    | Disconnect
    | Check
    | Receive
    | Timeout
    | SeeDisconnect
    | DrainOne
    | DrainDone
    | TakeWork
    | WriteWork(ok: bool, revision: string, diskIfFailed: Disk)
    | Publish(delivered: bool)
    | FinaliseWork
    | Unwind
    | Guard
    | Finish

  predicate IsPatchSession(accepted: seq<Request>, session: string) {
    exists i :: 0 <= i < |accepted| && IsPatch(accepted[i]) && accepted[i].session == session
  }

  predicate Working(worker: Worker) {
    worker.AtWrite? || worker.AtPublish?
  }

  predicate Running(worker: Worker) {
    worker.AtCheck? || worker.AtReceive? || worker.AtDrain? || worker.AtTake? || Working(worker)
  }

  predicate Exited(worker: Worker) {
    worker.AtReturn? || worker.Guarded? || worker.Finished?
  }

  /** Sessions whose completion the worker still owes for the request in its hands. */
  function Hands(worker: Worker): seq<string> {
    match worker
    case AtWrite(request, carried) => Sessions(carried) + OwnSession(request)
    case AtPublish(request, carried, _, _, sent, _) =>
      if sent < |carried| then Sessions(carried[sent..]) + OwnSession(request)
      else if sent == |carried| then OwnSession(request)
      else []
    case _ => []
  }

  function OwnSession(request: Request): seq<string> {
    if IsPatch(request) then [request.session] else []
  }

  function Sessions(carried: seq<Carried>): seq<string> {
    seq(|carried|, i requires 0 <= i < |carried| => carried[i].session)
  }

  /** The lock holder's request enters the slot, or is refused and nothing changes. */
  function Placed(s: System): System
    requires s.admitting.Some?
  {
    match Install(s.slot, s.admitting.value)
    case Ok(slot) => s.(slot := slot, admitting := None, accepted := s.accepted + [s.admitting.value])
    case Err(_) => s.(admitting := None)
  }

  /**
    One step, or `None` when the step cannot happen now. Admission assumes what
    the operator path ensures: a limit patch carries entries for its joint, and
    its session id is new.
   */
  function Apply(s: System, step: Step): Option<System> {
    match step
    case Admit(request) =>
      if s.admitting.None? && s.senderAlive && AdmissionOpen(s.slot) && !s.worker.Finished?
         && (IsPatch(request) ==> CompletePatch(request) && !IsPatchSession(s.accepted, request.session)) then
        Some(s.(admitting := Some(request), wakeToken := true))
      else None
    case AdmitDisconnected(request) =>
      if s.admitting.None? && s.senderAlive && AdmissionOpen(s.slot) && s.worker.Finished? then
        Some(s.(slot := WithError(Closed(s.slot), "persist worker disconnected")))
      else None
    case Place =>
      if s.admitting.Some? then Some(Placed(s)) else None
    case Close =>
      if s.admitting.None? && s.senderAlive then
        Some(s.(slot := Closed(s.slot), wakeToken := s.wakeToken || !s.worker.Finished?))
      else None
    case CloseQuietly =>
      if s.admitting.None? && s.senderAlive then Some(s.(slot := Closed(s.slot))) else None
    case Wake =>
      if s.senderAlive then Some(s.(wakeToken := s.wakeToken || !s.worker.Finished?)) else None
    case Disconnect =>
      if s.admitting.None? && s.senderAlive && !s.slot.accepting then Some(s.(senderAlive := false)) else None
    case Check =>
      if s.admitting.None? && s.worker.AtCheck? then
        Some(s.(worker := if !s.slot.accepting && s.slot.request.None? then AtReturn(true) else AtReceive))
      else None
    case Receive =>
      if s.worker.AtReceive? && s.wakeToken then Some(s.(worker := AtDrain, wakeToken := false)) else None
    case Timeout =>
      if s.worker.AtReceive? && !s.wakeToken && s.senderAlive then Some(s.(worker := AtCheck)) else None
    case SeeDisconnect =>
      if s.admitting.None? && s.worker.AtReceive? && !s.wakeToken && !s.senderAlive then
        Some(s.(slot := Closed(s.slot), worker := AtDrain))
      else None
    case DrainOne =>
      if s.worker.AtDrain? && s.wakeToken then Some(s.(wakeToken := false)) else None
    case DrainDone =>
      if s.worker.AtDrain? && !s.wakeToken then Some(s.(worker := AtTake)) else None
    case TakeWork =>
      if s.admitting.None? && s.worker.AtTake? then
        if s.slot.request.None? then Some(s.(worker := AtCheck))
        else Some(s.(slot := Taken(s.slot), worker := AtWrite(s.slot.request.value, s.slot.carried), taken := |s.accepted|))
      else None
    case WriteWork(ok, revision, diskIfFailed) =>
      if s.worker.AtWrite? then
        Some(s.(worker := AtPublish(s.worker.request, s.worker.carried, ok, revision, 0, true),
                writes := s.writes + [Write(s.worker.request, ok, revision, s.taken, |s.worker.carried|)],
                disk := if ok then WriteTo(s.disk, s.worker.request) else diskIfFailed,
                intact := s.intact && ok))
      else None
    case Publish(delivered) =>
      if s.worker.AtPublish? && s.worker.sent <= |s.worker.carried| then
        var w := s.worker;
        Some(s.(worker := w.(sent := w.sent + 1, published := w.published && delivered),
                attempts := s.attempts
                            + [Attempt(EventAt(w.request, w.carried, w.writeOk, w.revision, w.sent), delivered)],
                origins := s.origins + [Origin(|s.writes| - 1, w.sent)]))
      else None
    case FinaliseWork =>
      if s.admitting.None? && s.worker.AtPublish? && s.worker.sent == |s.worker.carried| + 1 then
        Some(s.(slot := Finalised(s.slot, s.worker.writeOk, s.worker.published), worker := AtTake))
      else None
    case Unwind =>
      if Running(s.worker) then
        Some(s.(worker := AtReturn(false),
                lost := s.lost + Hands(s.worker),
                intact := s.intact && !s.worker.AtWrite?))
      else None
    case Guard =>
      if s.admitting.None? && s.worker.AtReturn? then
        Some(s.(slot := WorkerGone(s.slot, s.worker.normally), worker := Guarded(s.worker.normally)))
      else None
    case Finish =>
      if s.worker.Guarded? then Some(s.(worker := Finished(s.worker.normally))) else None
  }

  function Run(disk: Disk, steps: seq<Step>): Option<System> {
    if steps == [] then Some(Initial(disk))
    else
      match Run(disk, steps[..|steps| - 1])
      case None => None
      case Some(s) => Apply(s, steps[|steps| - 1])
  }

  // ----- Control: wakeups, exit and the writing flag

  /** A request waiting or about to be placed is never left to a worker that sleeps without a token. */
  predicate NoLostWakeup(s: System) {
    (s.worker.AtCheck? || s.worker.AtReceive?) && (s.slot.request.Some? || s.admitting.Some?) ==> s.wakeToken
  }

  predicate Lifecycle(s: System) {
    && (s.admitting.Some? ==> AdmissionOpen(s.slot) && s.senderAlive)
    && (!s.senderAlive ==> !s.slot.accepting)
    && (s.slot.workerDone <==> s.worker.Guarded? || s.worker.Finished?)
    && (s.slot.workerError.Some? <==> (s.worker.Guarded? || s.worker.Finished?) && !s.worker.normally)
    && (s.slot.workerDone ==> !s.slot.accepting)
  }

  /** A normal exit leaves nothing behind and nothing can come after it. */
  predicate CleanExit(s: System) {
    Exited(s.worker) && s.worker.normally ==>
      && !s.slot.accepting && s.slot.request.None? && s.slot.carried == [] && !s.slot.writing
      && s.admitting.None? && s.lost == []
  }

  predicate WritingFlag(s: System) {
    && (Working(s.worker) ==> s.slot.writing)
    && (Running(s.worker) && !Working(s.worker) ==> !s.slot.writing)
    && (Running(s.worker) ==> s.lost == [])
    && (s.worker.AtPublish? ==> s.worker.sent <= |s.worker.carried| + 1)
  }

  /** Carried completions always ride on a pending request that will write motors. */
  predicate CarriedRide(s: System) {
    s.slot.carried != [] ==> s.slot.request.Some? && s.slot.request.value.motors.Some?
  }

  predicate Control(s: System) {
    NoLostWakeup(s) && Lifecycle(s) && CleanExit(s) && WritingFlag(s) && CarriedRide(s)
  }

  /** Steps of enqueuing, closing and dropping clients, up to placing the request. */
  predicate IsClientStep(step: Step) {
    step.Admit? || step.AdmitDisconnected? || step.Close? || step.CloseQuietly? || step.Wake? || step.Disconnect?
  }

  /** Steps of a worker that has work in its hands before or after. */
  predicate IsWorkStep(step: Step) {
    step.TakeWork? || step.WriteWork? || step.Publish? || step.FinaliseWork? || step.Unwind?
  }

  lemma {:induction false} StepKeepsControl(s: System, step: Step)
    requires Control(s) && Apply(s, step).Some?
    ensures Control(Apply(s, step).value)
  {
    if step.Place? {
      PlaceKeepsControl(s);
    } else if IsWorkStep(step) {
      WorkStepKeepsControl(s, step);
    } else if IsClientStep(step) {
      ClientStepKeepsControl(s, step);
    } else {
      IdleStepKeepsControl(s, step);
    }
  }

  lemma {:induction false} PlaceKeepsControl(s: System)
    requires Control(s) && s.admitting.Some?
    ensures Control(Placed(s))
  {
    if s.slot.request.Some? && Install(s.slot, s.admitting.value).Ok? {
      MergedHasMotors(s.slot.request.value, s.admitting.value);
    }
  }

  lemma {:induction false} WorkStepKeepsControl(s: System, step: Step)
    requires Control(s) && Apply(s, step).Some? && IsWorkStep(step)
    ensures Control(Apply(s, step).value)
  {
    if step.TakeWork? || step.WriteWork? {
      WriteStepKeepsControl(s, step);
    } else {
      EndStepKeepsControl(s, step);
    }
  }

  lemma {:induction false} WriteStepKeepsControl(s: System, step: Step)
    requires Control(s) && Apply(s, step).Some? && (step.TakeWork? || step.WriteWork?)
    ensures Control(Apply(s, step).value)
  {
  }

  lemma {:induction false} EndStepKeepsControl(s: System, step: Step)
    requires Control(s) && Apply(s, step).Some? && (step.Publish? || step.FinaliseWork? || step.Unwind?)
    ensures Control(Apply(s, step).value)
  {
  }

  lemma {:induction false} ClientStepKeepsControl(s: System, step: Step)
    requires Control(s) && Apply(s, step).Some? && IsClientStep(step)
    ensures Control(Apply(s, step).value)
  {
  }

  lemma {:induction false} IdleStepKeepsControl(s: System, step: Step)
    requires Control(s) && Apply(s, step).Some? && !IsWorkStep(step) && !IsClientStep(step) && !step.Place?
    ensures Control(Apply(s, step).value)
  {
    if step.Guard? || step.Finish? {
      ExitStepKeepsControl(s, step);
    } else {
      WaitStepKeepsControl(s, step);
    }
  }

  lemma {:induction false} ExitStepKeepsControl(s: System, step: Step)
    requires Control(s) && Apply(s, step).Some? && (step.Guard? || step.Finish?)
    ensures Control(Apply(s, step).value)
  {
  }

  lemma {:induction false} WaitStepKeepsControl(s: System, step: Step)
    requires Control(s) && Apply(s, step).Some?
    requires step.Check? || step.Receive? || step.Timeout? || step.SeeDisconnect? || step.DrainOne? || step.DrainDone?
    ensures Control(Apply(s, step).value)
  {
  }

  lemma {:induction false} MergedHasMotors(pending: Request, latest: Request)
    requires Coalesce(pending, latest).Ok?
    ensures var merged := Coalesce(pending, latest).value;
            && (merged.carried != [] ==> merged.request.motors.Some?)
            && (pending.motors.Some? ==> merged.request.motors.Some?)
  {
  }

  // ----- Conservation of accepted requests

  function Count(b: bool): nat {
    if b then 1 else 0
  }

  /** Requests the slot's counters, its pending request and its write in flight stand for. */
  function Accounted(slot: Slot): nat {
    slot.successfulWrites + slot.failedWrites + slot.coalescedRequests
    + Count(slot.request.Some?) + Count(slot.writing)
  }

  /** The counters account for every accepted request, as long as none of them can have saturated. */
  predicate Conserved(s: System) {
    |s.accepted| <= U64_MAX ==> |s.accepted| == Accounted(s.slot)
  }

  lemma {:induction false} InstallAccounts(slot: Slot, latest: Request)
    requires Install(slot, latest).Ok? && Accounted(slot) < U64_MAX
    ensures Accounted(Install(slot, latest).value) == Accounted(slot) + 1
  {
  }

  lemma {:induction false} FinaliseAccounts(slot: Slot, writeOk: bool, published: bool)
    requires slot.writing && Accounted(slot) <= U64_MAX
    ensures Accounted(Finalised(slot, writeOk, published)) == Accounted(slot)
  {
  }

  lemma {:induction false} ClientStepAccounts(s: System, step: Step)
    requires Apply(s, step).Some? && IsClientStep(step)
    ensures Accounted(Apply(s, step).value.slot) == Accounted(s.slot) && Apply(s, step).value.accepted == s.accepted
  {
  }

  lemma {:induction false} WorkStepAccounts(s: System, step: Step)
    requires Apply(s, step).Some? && IsWorkStep(step) && !step.FinaliseWork? && (step.TakeWork? ==> !s.slot.writing)
    ensures Accounted(Apply(s, step).value.slot) == Accounted(s.slot) && Apply(s, step).value.accepted == s.accepted
  {
  }

  lemma {:induction false} ExitStepAccounts(s: System, step: Step)
    requires Apply(s, step).Some? && (step.Guard? || step.Finish?)
    ensures Accounted(Apply(s, step).value.slot) == Accounted(s.slot) && Apply(s, step).value.accepted == s.accepted
  {
    GoneAccounts(s.slot, true);
    GoneAccounts(s.slot, false);
  }

  lemma {:induction false} GoneAccounts(slot: Slot, normally: bool)
    ensures Accounted(WorkerGone(slot, normally)) == Accounted(slot)
  {
  }

  lemma {:induction false} WaitStepAccounts(s: System, step: Step)
    requires Apply(s, step).Some?
    requires step.Check? || step.Receive? || step.Timeout? || step.SeeDisconnect? || step.DrainOne? || step.DrainDone?
    ensures Accounted(Apply(s, step).value.slot) == Accounted(s.slot) && Apply(s, step).value.accepted == s.accepted
  {
  }

  lemma {:induction false} StepConserves(s: System, step: Step)
    requires Control(s) && Conserved(s) && Apply(s, step).Some?
    ensures Conserved(Apply(s, step).value)
  {
    if step.Place? {
      if Install(s.slot, s.admitting.value).Ok? && |s.accepted| < U64_MAX {
        InstallAccounts(s.slot, s.admitting.value);
      }
    } else if step.FinaliseWork? {
      if Accounted(s.slot) <= U64_MAX {
        FinaliseAccounts(s.slot, s.worker.writeOk, s.worker.published);
      }
    } else if IsWorkStep(step) {
      WorkStepAccounts(s, step);
    } else if IsClientStep(step) {
      ClientStepAccounts(s, step);
    } else if step.Guard? || step.Finish? {
      ExitStepAccounts(s, step);
    } else {
      WaitStepAccounts(s, step);
    }
  }
}
