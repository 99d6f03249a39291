/**
  The enable gate: commands wait behind a gravity sweep, a stdin Enable waits
  for its completion, and Position-mode arms wait behind both. What the motor
  loop answers (whether an Enable completed, how an arm attempt went, whether a
  stop was delivered) is an input. Times are milliseconds.
 */
module EnableGate {
  import opened Basics

  const TIMEOUT_MS: int := 2000
  const MAX_DEFERRED: nat := 64

  datatype ArmKind = HoldOn | HoldAt | Wave | OtherCommand

  /** An operator command; `arrival` tells apart commands with the same text. */
  datatype Command = Command(kind: ArmKind, arrival: nat)

  datatype EnableRequest = EnableRequest(operator: string, arrival: nat)

  /** What runs once the gravity preflight passes. */
  datatype PreflightFor = StdinEnable(operator: string) | ChappeEnable(request: EnableRequest) | TestingBatch(batch: string)

  datatype Abort = Disabled | Shutdown | Stopped | FaultLatched | ReferenceWork | LimitsChanged(joint: string)

  datatype Refusal = Refusal(waiter: PreflightFor, abort: Option<Abort>)

  datatype PendingEnable = PendingEnable(operator: string, targets: seq<string>, deadline: int)

  datatype DeferredArm = DeferredArm(cmd: Command, deadline: int)

  /** How one attempt to arm Position mode went. */
  datatype ArmOutcome = Armed | EnableIncomplete | Failed(error: string)

  datatype Line =
    | WaitingForEnable(operator: string, targets: seq<string>)
    | Enabled(operator: string, targets: seq<string>)
    | EnableFailed(lost: bool, stopDelivered: bool)
    | EnableCancelled
    | EnableRefused(abort: Option<Abort>)
    | Discarded(count: nat)
    | ArmDone(cmd: Command)
    | ArmWaiting(cmd: Command)
    | ArmFailed(cmd: Command, why: ArmFailure)

  datatype ArmFailure = ArmError(error: string) | NoCompletionInTime | Cancelled(reason: string)

  const ENABLE_DID_NOT_COMPLETE := "enable did not complete"
  const DISABLED_FIRST := "disabled before enable completed"

  // ----- The gate's state and what each call does to it

  datatype Gate = Gate(
    enable: Option<PendingEnable>, deferred: seq<DeferredArm>, preflight: Option<PreflightFor>,
    heldStdin: seq<Command>, heldChappe: seq<EnableRequest>, unreported: seq<Refusal>)

  const IDLE := Gate(None, [], None, [], [], [])

  /** What the motor loop answers during one poll: completion, lost session, stop delivered, and each attempt. */
  datatype Answers = Answers(completed: bool, lost: bool, stopDelivered: bool, attempt: nat -> ArmOutcome)

  /** One attempt at the front arm. */
  datatype Attempt = Attempt(cmd: Command, outcome: ArmOutcome)

  datatype Retried = Retried(left: seq<DeferredArm>, attempts: seq<Attempt>, lines: seq<Line>)

  /** The line an arm ends with, or `None` when it keeps waiting. */
  function EndLine(arm: DeferredArm, now: int, outcome: ArmOutcome): Option<Line> {
    match outcome
    case Armed => Some(ArmDone(arm.cmd))
    case EnableIncomplete => if now < arm.deadline then None else Some(ArmFailed(arm.cmd, NoCompletionInTime))
    case Failed(error) => Some(ArmFailed(arm.cmd, ArmError(error)))
  }

  /** Retry deferred arms in order until one has to keep waiting; `n` attempts were made before. */
  function Retry(deferred: seq<DeferredArm>, now: int, attempt: nat -> ArmOutcome, n: nat): Retried
    decreases |deferred|
  {
    if deferred == [] then Retried([], [], [])
    else
      var tried := Attempt(deferred[0].cmd, attempt(n));
      match EndLine(deferred[0], now, attempt(n))
      case None => Retried(deferred, [tried], [])
      case Some(line) =>
        var rest := Retry(deferred[1..], now, attempt, n + 1);
        Retried(rest.left, [tried] + rest.attempts, [line] + rest.lines)
  }

  function Preceded(attempts: seq<Attempt>, lines: seq<Line>, rest: Retried): Retried {
    Retried(rest.left, attempts + rest.attempts, lines + rest.lines)
  }

  lemma {:induction false} PrecededStep(attempts: seq<Attempt>, lines: seq<Line>, deferred: seq<DeferredArm>, now: int,
                     attempt: nat -> ArmOutcome, n: nat)
    requires deferred != []
    ensures var tried := attempts + [Attempt(deferred[0].cmd, attempt(n))];
            Preceded(attempts, lines, Retry(deferred, now, attempt, n))
            == match EndLine(deferred[0], now, attempt(n))
               case None => Retried(deferred, tried, lines)
               case Some(line) => Preceded(tried, lines + [line], Retry(deferred[1..], now, attempt, n + 1))
  {
  }

  function RefuseAll(deferred: seq<DeferredArm>, reason: string): seq<Line> {
    seq(|deferred|, i requires 0 <= i < |deferred| => ArmFailed(deferred[i].cmd, Cancelled(reason)))
  }

  /** What one call does: the new state, its output, the arm attempts it made, and whether it stopped the drives. */
  datatype Effect = Effect(gate: Gate, lines: seq<Line>, attempts: seq<Attempt>, stopped: bool)

  function SubmitEffect(g: Gate, cmd: Command, now: int, outcome: ArmOutcome): Effect {
    var waiting := g.(deferred := g.deferred + [DeferredArm(cmd, now + TIMEOUT_MS)]);
    if g.enable.Some? || g.deferred != [] then Effect(waiting, [ArmWaiting(cmd)], [], false)
    else
      match outcome
      case Armed => Effect(g, [ArmDone(cmd)], [Attempt(cmd, outcome)], false)
      case EnableIncomplete => Effect(waiting, [ArmWaiting(cmd)], [Attempt(cmd, outcome)], false)
      case Failed(error) => Effect(g, [ArmFailed(cmd, ArmError(error))], [Attempt(cmd, outcome)], false)
  }

  /** An Enable that lost its session or ran out of time. */
  predicate EnableFails(g: Gate, now: int, answers: Answers) {
    g.enable.Some? && !answers.completed && (answers.lost || g.enable.value.deadline <= now)
  }

  /** An Enable that neither completed nor failed: nothing else is looked at. */
  predicate EnableWaits(g: Gate, now: int, answers: Answers) {
    g.enable.Some? && !answers.completed && !EnableFails(g, now, answers)
  }

  function PollEffect(g: Gate, now: int, answers: Answers): Effect {
    if EnableWaits(g, now, answers) then Effect(g, [], [], false)
    else if EnableFails(g, now, answers) then
      Effect(g.(enable := None, deferred := []),
             [EnableFailed(answers.lost, answers.stopDelivered)] + RefuseAll(g.deferred, ENABLE_DID_NOT_COMPLETE),
             [], true)
    else
      var report := if g.enable.Some? then [Enabled(g.enable.value.operator, g.enable.value.targets)] else [];
      var retried := Retry(g.deferred, now, answers.attempt, 0);
      Effect(g.(enable := None, deferred := retried.left), report + retried.lines, retried.attempts, false)
  }

  function EndPreflight(g: Gate, abort: Option<Abort>): (Gate, seq<Line>) {
    if g.preflight.None? then (g, [])
    else
      var waiter := g.preflight.value;
      (g.(preflight := None, heldStdin := [], heldChappe := [],
          unreported := if waiter.StdinEnable? then g.unreported else g.unreported + [Refusal(waiter, abort)]),
       (if waiter.StdinEnable? then [EnableRefused(abort)] else [])
       + (if g.heldStdin == [] then [] else [Discarded(|g.heldStdin|)]))
  }

  function CancelEffect(g: Gate): (Gate, seq<Line>) {
    var (ended, lines) := EndPreflight(g, Some(Disabled));
    (ended.(enable := None, deferred := []),
     lines + (if g.enable.Some? then [EnableCancelled] else []) + RefuseAll(g.deferred, DISABLED_FIRST))
  }

  // ----- The object

  class EnableGateObject {
    var enable: Option<PendingEnable>
    var deferred: seq<DeferredArm>
    var preflight: Option<PreflightFor>
    var heldStdin: seq<Command>
    var heldChappe: seq<EnableRequest>
    var unreported: seq<Refusal>

    function View(): Gate
      reads this
    {
      Gate(enable, deferred, preflight, heldStdin, heldChappe, unreported)
    }

    constructor ()
      ensures View() == IDLE
    {
      enable, deferred, preflight := None, [], None;
      heldStdin, heldChappe, unreported := [], [], [];
    }

    /** Hold `waiter` until the sweep's verdict; while one is pending it is handed back. */
    method BeginPreflight(waiter: PreflightFor) returns (begun: bool)
      modifies this
      ensures begun <==> old(preflight).None?
      ensures View() == if begun then old(View()).(preflight := Some(waiter)) else old(View())
    {
      if preflight.Some? {
        return false;
      }
      preflight := Some(waiter);
      return true;
    }

    method DeferStdin(cmd: Command) returns (held: bool)
      modifies this
      ensures held <==> |old(heldStdin)| < 64
      ensures View() == if held then old(View()).(heldStdin := old(heldStdin) + [cmd]) else old(View())
    {
      if |heldStdin| >= MAX_DEFERRED {
        return false;
      }
      heldStdin := heldStdin + [cmd];
      return true;
    }

    method TakeReadyStdin() returns (cmd: Option<Command>)
      modifies this
      ensures cmd.Some? <==> old(preflight).None? && old(heldStdin) != []
      ensures cmd.Some? ==> [cmd.value] + heldStdin == old(heldStdin)
      ensures View() == old(View()).(heldStdin := heldStdin) && (cmd.None? ==> View() == old(View()))
    {
      if preflight.Some? || heldStdin == [] {
        return None;
      }
      cmd := Some(heldStdin[0]);
      heldStdin := heldStdin[1..];
    }

    method DeferChappeEnable(request: EnableRequest) returns (held: bool)
      modifies this
      ensures held <==> |old(heldChappe)| < 64
      ensures View() == if held then old(View()).(heldChappe := old(heldChappe) + [request]) else old(View())
    {
      if |heldChappe| >= MAX_DEFERRED {
        return false;
      }
      heldChappe := heldChappe + [request];
      return true;
    }

    method TakeReadyChappeEnable() returns (request: Option<EnableRequest>)
      modifies this
      ensures request.Some? <==> old(preflight).None? && old(heldChappe) != []
      ensures request.Some? ==> [request.value] + heldChappe == old(heldChappe)
      ensures View() == old(View()).(heldChappe := heldChappe) && (request.None? ==> View() == old(View()))
    {
      if preflight.Some? || heldChappe == [] {
        return None;
      }
      request := Some(heldChappe[0]);
      heldChappe := heldChappe[1..];
    }

    method PassPreflight() returns (waiter: Option<PreflightFor>)
      modifies this
      ensures waiter == old(preflight) && View() == old(View()).(preflight := None)
    {
      waiter := preflight;
      preflight := None;
    }

    /** The sweep refused or was voided: refuse its request and discard every held command. */
    method EndPreflightNow(abort: Option<Abort>) returns (lines: seq<Line>)
      modifies this
      ensures View() == EndPreflight(old(View()), abort).0
      ensures lines == EndPreflight(old(View()), abort).1
    {
      lines := [];
      if preflight.None? {
        return;
      }
      var waiter := preflight.value;
      preflight := None;
      if waiter.StdinEnable? {
        lines := lines + [EnableRefused(abort)];
      } else {
        unreported := unreported + [Refusal(waiter, abort)];
      }
      var count := |heldStdin|;
      if count > 0 {
        heldStdin := [];
        lines := lines + [Discarded(count)];
      }
      heldChappe := [];
    }

    method BeginEnable(operator: string, targets: seq<string>, now: int) returns (lines: seq<Line>)
      modifies this
      ensures View() == old(View()).(enable := Some(PendingEnable(operator, targets, now + TIMEOUT_MS)))
      ensures lines == [WaitingForEnable(operator, targets)]
    {
      enable := Some(PendingEnable(operator, targets, now + TIMEOUT_MS));
      lines := [WaitingForEnable(operator, targets)];
    }

    /** Run a Position-mode arm now, or defer it. `outcome` is what the attempt would answer. */
    method Submit(cmd: Command, now: int, outcome: ArmOutcome) returns (lines: seq<Line>, attempts: seq<Attempt>)
      modifies this
      ensures attempts == SubmitEffect(old(View()), cmd, now, outcome).attempts
      ensures View() == SubmitEffect(old(View()), cmd, now, outcome).gate
      ensures lines == SubmitEffect(old(View()), cmd, now, outcome).lines
    {
      if enable.Some? || deferred != [] {
        deferred := deferred + [DeferredArm(cmd, now + TIMEOUT_MS)];
        return [ArmWaiting(cmd)], [];
      }
      attempts := [Attempt(cmd, outcome)];
      match outcome {
        case Armed => lines := [ArmDone(cmd)];
        case EnableIncomplete =>
          deferred := deferred + [DeferredArm(cmd, now + TIMEOUT_MS)];
          lines := [ArmWaiting(cmd)];
        case Failed(error) => lines := [ArmFailed(cmd, ArmError(error))];
      }
    }

    method RefuseDeferred(reason: string) returns (lines: seq<Line>)
      modifies this
      ensures View() == old(View()).(deferred := []) && lines == RefuseAll(old(deferred), reason)
    {
      lines := RefuseAll(deferred, reason);
      deferred := [];
    }

    /** After each control tick: report or refuse the Enable, then retry deferred arms in order. */
    method Poll(now: int, answers: Answers) returns (lines: seq<Line>, attempts: seq<Attempt>, stopped: bool)
      modifies this
      ensures attempts == PollEffect(old(View()), now, answers).attempts
      ensures View() == PollEffect(old(View()), now, answers).gate
      ensures lines == PollEffect(old(View()), now, answers).lines
      ensures stopped == PollEffect(old(View()), now, answers).stopped
    {
      lines, attempts, stopped := [], [], false;
      if enable.Some? {
        if answers.completed {
          lines := lines + [Enabled(enable.value.operator, enable.value.targets)];
          enable := None;
        } else {
          if !answers.lost && now < enable.value.deadline {
            return;
          }
          enable := None;
          stopped := true;
          var refused := RefuseDeferred(ENABLE_DID_NOT_COMPLETE);
          lines := lines + [EnableFailed(answers.lost, answers.stopDelivered)] + refused;
          return;
        }
      }
      var ended;
      ended, attempts := RetryDeferred(now, answers.attempt);
      lines := lines + ended;
    }

    /** Retry the front arm until the queue is empty or the front has to keep waiting. */
    method RetryDeferred(now: int, attempt: nat -> ArmOutcome) returns (lines: seq<Line>, attempts: seq<Attempt>)
      modifies this`deferred
      ensures Retried(deferred, attempts, lines) == Retry(old(deferred), now, attempt, 0)
    {
      lines, attempts := [], [];
      var waits := false;
      while deferred != [] && !waits
        invariant !waits ==> Retry(old(deferred), now, attempt, 0)
                             == Preceded(attempts, lines, Retry(deferred, now, attempt, |attempts|))
        invariant waits ==> Retry(old(deferred), now, attempt, 0) == Retried(deferred, attempts, lines)
        decreases !waits, |deferred|
      {
        var front := deferred[0];
        var outcome := attempt(|attempts|);
        PrecededStep(attempts, lines, deferred, now, attempt, |attempts|);
        attempts := attempts + [Attempt(front.cmd, outcome)];
        waits := outcome.EnableIncomplete? && now < front.deadline;
        if !waits {
          match outcome {
            case Armed => lines := lines + [ArmDone(front.cmd)];
            case EnableIncomplete => lines := lines + [ArmFailed(front.cmd, NoCompletionInTime)];
            case Failed(error) => lines := lines + [ArmFailed(front.cmd, ArmError(error))];
          }
          deferred := deferred[1..];
        }
      }
    }

    method Cancel() returns (lines: seq<Line>)
      modifies this
      ensures View() == CancelEffect(old(View())).0
      ensures lines == CancelEffect(old(View())).1
    {
      lines := EndPreflightNow(Some(Disabled));
      if enable.Some? {
        enable := None;
        lines := lines + [EnableCancelled];
      }
      var refused := RefuseDeferred(DISABLED_FIRST);
      lines := lines + refused;
    }
  }

  // ----- All runs

  /** One call on the gate. Submitted arms, held stdin commands and held Chappe enables are each numbered by arrival. */
  datatype Step =
    | DoBeginPreflight(waiter: PreflightFor)
    | DoDeferStdin(kind: ArmKind)
    | DoTakeStdin
    | DoDeferChappe(operator: string)
    | DoTakeChappe
    | DoPass
    | DoEnd(abort: Option<Abort>)
    | DoTakeUnreported
    | DoBeginEnable(operator: string, targets: seq<string>, now: int)
    | DoSubmit(kind: ArmKind, now: int, outcome: ArmOutcome)
    | DoPoll(now: int, answers: Answers)
    | DoCancel
    | DoCancelArms(reason: string)

  /** An arm attempt, and whether an Enable was pending and not yet complete when it was made. */
  datatype Tried = Tried(cmd: Command, outcome: ArmOutcome, enablePending: bool)

  /** What became of a held command. */
  datatype HeldEnd<T> = Ran(item: T) | Dropped(item: T)

  datatype World = World(
    gate: Gate, clock: int, submitted: nat, stdinHeld: nat, chappeHeld: nat,
    ended: seq<Line>, tried: seq<Tried>,
    stdinEnded: seq<HeldEnd<Command>>, chappeEnded: seq<HeldEnd<EnableRequest>>)

  const START := World(IDLE, 0, 0, 0, 0, [], [], [], [])

  predicate EndsArm(line: Line) {
    line.ArmDone? || line.ArmFailed?
  }

  /** The lines that end an arm, in the order they are printed. */
  function Endings(lines: seq<Line>): seq<Line> {
    if lines == [] then []
    else (if EndsArm(lines[0]) then [lines[0]] else []) + Endings(lines[1..])
  }

  /** Attempts of one call that found an Enable pending, or not. */
  function TriedIn(attempts: seq<Attempt>, enablePending: bool): seq<Tried> {
    seq(|attempts|, i requires 0 <= i < |attempts| => Tried(attempts[i].cmd, attempts[i].outcome, enablePending))
  }

  function After(w: World, gate: Gate, lines: seq<Line>): World {
    w.(gate := gate, ended := w.ended + Endings(lines))
  }

  function AllDropped<T>(held: seq<T>): seq<HeldEnd<T>> {
    seq(|held|, i requires 0 <= i < |held| => Dropped(held[i]))
  }

  /** The commands a sweep's end discards: all that wait behind it, when there is one. */
  function WithDropped(w: World, g: Gate): World {
    if g.preflight.None? then w
    else w.(stdinEnded := w.stdinEnded + AllDropped(g.heldStdin), chappeEnded := w.chappeEnded + AllDropped(g.heldChappe))
  }

  /** One call; `None` when its clock reading would step back. */
  function Next(w: World, step: Step): Option<World> {
    var g := w.gate;
    match step
    case DoBeginPreflight(waiter) =>
      Some(if g.preflight.Some? then w else w.(gate := g.(preflight := Some(waiter))))
    case DoDeferStdin(kind) =>
      if |g.heldStdin| >= MAX_DEFERRED then Some(w)
      else Some(w.(gate := g.(heldStdin := g.heldStdin + [Command(kind, w.stdinHeld)]), stdinHeld := w.stdinHeld + 1))
    case DoTakeStdin =>
      if g.preflight.Some? || g.heldStdin == [] then Some(w)
      else Some(w.(gate := g.(heldStdin := g.heldStdin[1..]), stdinEnded := w.stdinEnded + [Ran(g.heldStdin[0])]))
    case DoDeferChappe(operator) =>
      if |g.heldChappe| >= MAX_DEFERRED then Some(w)
      else Some(w.(gate := g.(heldChappe := g.heldChappe + [EnableRequest(operator, w.chappeHeld)]),
                   chappeHeld := w.chappeHeld + 1))
    case DoTakeChappe =>
      if g.preflight.Some? || g.heldChappe == [] then Some(w)
      else Some(w.(gate := g.(heldChappe := g.heldChappe[1..]), chappeEnded := w.chappeEnded + [Ran(g.heldChappe[0])]))
    case DoPass => Some(w.(gate := g.(preflight := None)))
    case DoEnd(abort) =>
      Some(WithDropped(After(w, EndPreflight(g, abort).0, EndPreflight(g, abort).1), g))
    case DoTakeUnreported => Some(w.(gate := g.(unreported := [])))
    case DoBeginEnable(operator, targets, now) =>
      if now < w.clock then None
      else Some(w.(gate := g.(enable := Some(PendingEnable(operator, targets, now + TIMEOUT_MS))), clock := now))
    case DoSubmit(kind, now, outcome) =>
      if now < w.clock then None
      else
        var e := SubmitEffect(g, Command(kind, w.submitted), now, outcome);
        Some(After(w, e.gate, e.lines).(clock := now, submitted := w.submitted + 1,
                                         tried := w.tried + TriedIn(e.attempts, g.enable.Some?)))
    case DoPoll(now, answers) =>
      if now < w.clock then None
      else
        var e := PollEffect(g, now, answers);
        Some(After(w, e.gate, e.lines).(clock := now,
                                         tried := w.tried + TriedIn(e.attempts, g.enable.Some? && !answers.completed)))
    case DoCancel =>
      Some(WithDropped(After(w, CancelEffect(g).0, CancelEffect(g).1), g))
    case DoCancelArms(reason) =>
      Some(After(w, g.(deferred := []), RefuseAll(g.deferred, reason)))
  }

  function Run(steps: seq<Step>): Option<World> {
    if steps == [] then Some(START)
    else
      match Run(steps[..|steps| - 1])
      case None => None
      case Some(w) => Next(w, steps[|steps| - 1])
  }

  // ----- Arrival order and exactly one outcome

  predicate AllEndArms(lines: seq<Line>) {
    forall i | 0 <= i < |lines| :: EndsArm(lines[i])
  }

  function LineArrivals(lines: seq<Line>): seq<nat>
    requires AllEndArms(lines)
  {
    seq(|lines|, i requires 0 <= i < |lines| => lines[i].cmd.arrival)
  }

  function ArmArrivals(arms: seq<DeferredArm>): seq<nat> {
    seq(|arms|, i requires 0 <= i < |arms| => arms[i].cmd.arrival)
  }

  function Upto(n: nat): seq<nat> {
    seq(n, i => i)
  }

  /** Ended arms, then waiting arms, are exactly the submitted ones in arrival order. */
  ghost predicate InOrder(w: World) {
    && AllEndArms(w.ended)
    && LineArrivals(w.ended) + ArmArrivals(w.gate.deferred) == Upto(w.submitted)
  }

  lemma {:induction false} EndingsAppend(xs: seq<Line>, ys: seq<Line>)
    ensures Endings(xs + ys) == Endings(xs) + Endings(ys)
  {
    if xs == [] {
      assert xs + ys == ys;
    } else {
      assert (xs + ys)[1..] == xs[1..] + ys;
      EndingsAppend(xs[1..], ys);
    }
  }

  lemma {:induction false} EndingsOfEndings(lines: seq<Line>)
    requires AllEndArms(lines)
    ensures Endings(lines) == lines
  {
    if lines != [] {
      EndingsOfEndings(lines[1..]);
    }
  }

  /** Every arm a retry ends leaves the queue's front, in order, with one line. */
  lemma {:induction false} RetryEndsPrefix(deferred: seq<DeferredArm>, now: int, attempt: nat -> ArmOutcome, n: nat)
    ensures var r := Retry(deferred, now, attempt, n);
            && AllEndArms(r.lines)
            && LineArrivals(r.lines) + ArmArrivals(r.left) == ArmArrivals(deferred)
            && |r.lines| <= |deferred| && r.left == deferred[|r.lines|..]
  {
    if deferred != [] && EndLine(deferred[0], now, attempt(n)).Some? {
      RetryEndsPrefix(deferred[1..], now, attempt, n + 1);
      var rest := Retry(deferred[1..], now, attempt, n + 1);
      var r := Retry(deferred, now, attempt, n);
      assert ArmArrivals(deferred) == [deferred[0].cmd.arrival] + ArmArrivals(deferred[1..]);
      assert LineArrivals(r.lines) == [deferred[0].cmd.arrival] + LineArrivals(rest.lines);
      assert deferred[1..][|rest.lines|..] == deferred[|r.lines|..];
    }
  }

  /** The gate after a call keeps the order if the call's endings are the front of the queue it had. */
  lemma {:induction false} KeepsOrder(w: World, gate: Gate, lines: seq<Line>, endings: seq<Line>)
    requires InOrder(w) && Endings(lines) == endings
    requires AllEndArms(endings)
    requires LineArrivals(endings) + ArmArrivals(gate.deferred) == ArmArrivals(w.gate.deferred)
    ensures InOrder(After(w, gate, lines))
  {
    var w' := After(w, gate, lines);
    assert LineArrivals(w'.ended) == LineArrivals(w.ended) + LineArrivals(endings);
  }

  lemma {:induction false} RefusalsEndAll(deferred: seq<DeferredArm>, reason: string)
    ensures AllEndArms(RefuseAll(deferred, reason))
    ensures LineArrivals(RefuseAll(deferred, reason)) == ArmArrivals(deferred)
    ensures Endings(RefuseAll(deferred, reason)) == RefuseAll(deferred, reason)
  {
    EndingsOfEndings(RefuseAll(deferred, reason));
  }

  lemma {:induction false} PollKeepsOrder(w: World, now: int, answers: Answers)
    requires InOrder(w)
    ensures InOrder(After(w, PollEffect(w.gate, now, answers).gate, PollEffect(w.gate, now, answers).lines))
  {
    var g, e := w.gate, PollEffect(w.gate, now, answers);
    if EnableWaits(g, now, answers) {
      KeepsOrder(w, e.gate, e.lines, []);
    } else if EnableFails(g, now, answers) {
      RefusalsEndAll(g.deferred, ENABLE_DID_NOT_COMPLETE);
      var head := [EnableFailed(answers.lost, answers.stopDelivered)];
      EndingsAppend(head, RefuseAll(g.deferred, ENABLE_DID_NOT_COMPLETE));
      assert Endings(head) == [];
      KeepsOrder(w, e.gate, e.lines, RefuseAll(g.deferred, ENABLE_DID_NOT_COMPLETE));
    } else {
      var report := if g.enable.Some? then [Enabled(g.enable.value.operator, g.enable.value.targets)] else [];
      var retried := Retry(g.deferred, now, answers.attempt, 0);
      RetryEndsPrefix(g.deferred, now, answers.attempt, 0);
      EndingsOfEndings(retried.lines);
      EndingsAppend(report, retried.lines);
      assert Endings(report) == [];
      KeepsOrder(w, e.gate, e.lines, retried.lines);
    }
  }

  lemma {:induction false} SubmitKeepsOrder(w: World, kind: ArmKind, now: int, outcome: ArmOutcome)
    requires InOrder(w)
    ensures var e := SubmitEffect(w.gate, Command(kind, w.submitted), now, outcome);
            InOrder(After(w, e.gate, e.lines).(submitted := w.submitted + 1))
  {
    var cmd := Command(kind, w.submitted);
    var e := SubmitEffect(w.gate, cmd, now, outcome);
    var w' := After(w, e.gate, e.lines).(submitted := w.submitted + 1);
    assert Upto(w.submitted + 1) == Upto(w.submitted) + [w.submitted];
    if e.gate.deferred == w.gate.deferred {
      EndingsOfEndings(e.lines);
      assert LineArrivals(w'.ended) == LineArrivals(w.ended) + [w.submitted];
    } else {
      assert Endings(e.lines) == [];
      assert ArmArrivals(e.gate.deferred) == ArmArrivals(w.gate.deferred) + [w.submitted];
    }
  }

  lemma {:induction false} EndPreflightEndsNoArm(g: Gate, abort: Option<Abort>)
    ensures Endings(EndPreflight(g, abort).1) == []
    ensures EndPreflight(g, abort).0.deferred == g.deferred
  {
    var lines := EndPreflight(g, abort).1;
    assert forall line | line in lines :: !EndsArm(line);
    NoEndings(lines);
  }

  lemma {:induction false} NoEndings(lines: seq<Line>)
    requires forall line | line in lines :: !EndsArm(line)
    ensures Endings(lines) == []
  {
    if lines != [] {
      NoEndings(lines[1..]);
    }
  }

  lemma {:induction false} CancelKeepsOrder(w: World)
    requires InOrder(w)
    ensures InOrder(After(w, CancelEffect(w.gate).0, CancelEffect(w.gate).1))
  {
    var g := w.gate;
    var (gate, lines) := CancelEffect(g);
    var head := EndPreflight(g, Some(Disabled)).1;
    var note := if g.enable.Some? then [EnableCancelled] else [];
    var refused := RefuseAll(g.deferred, DISABLED_FIRST);
    EndPreflightEndsNoArm(g, Some(Disabled));
    RefusalsEndAll(g.deferred, DISABLED_FIRST);
    EndingsAppend(head, note);
    EndingsAppend(head + note, refused);
    NoEndings(note);
    KeepsOrder(w, gate, lines, refused);
  }

  lemma {:induction false} StepKeepsOrder(w: World, step: Step)
    requires InOrder(w) && Next(w, step).Some?
    ensures InOrder(Next(w, step).value)
  {
    match step
    case DoPoll(now, answers) => PollKeepsOrder(w, now, answers);
    case DoSubmit(kind, now, outcome) => SubmitKeepsOrder(w, kind, now, outcome);
    case DoCancel => CancelKeepsOrder(w);
    case DoCancelArms(reason) =>
      RefusalsEndAll(w.gate.deferred, reason);
      KeepsOrder(w, w.gate.(deferred := []), RefuseAll(w.gate.deferred, reason), RefuseAll(w.gate.deferred, reason));
    case DoEnd(abort) =>
      EndPreflightEndsNoArm(w.gate, abort);
    case _ =>
  }

  // ----- Held commands

  function StdinArrivals(held: seq<Command>): seq<nat> {
    seq(|held|, i requires 0 <= i < |held| => held[i].arrival)
  }

  function StdinEnds(ends: seq<HeldEnd<Command>>): seq<nat> {
    seq(|ends|, i requires 0 <= i < |ends| => ends[i].item.arrival)
  }

  function ChappeArrivals(held: seq<EnableRequest>): seq<nat> {
    seq(|held|, i requires 0 <= i < |held| => held[i].arrival)
  }

  function ChappeEnds(ends: seq<HeldEnd<EnableRequest>>): seq<nat> {
    seq(|ends|, i requires 0 <= i < |ends| => ends[i].item.arrival)
  }

  /** Held stdin commands run or are discarded in arrival order, each once, and at most 64 wait. */
  ghost predicate StdinInOrder(w: World) {
    && StdinEnds(w.stdinEnded) + StdinArrivals(w.gate.heldStdin) == Upto(w.stdinHeld)
    && |w.gate.heldStdin| <= 64
  }

  /** And so do held Chappe enables. */
  ghost predicate ChappeInOrder(w: World) {
    && ChappeEnds(w.chappeEnded) + ChappeArrivals(w.gate.heldChappe) == Upto(w.chappeHeld)
    && |w.gate.heldChappe| <= 64
  }

  ghost predicate HeldInOrder(w: World) {
    StdinInOrder(w) && ChappeInOrder(w)
  }

  /** What one call can do to held stdin commands: hold one more, run the oldest, discard all, or nothing. */
  ghost predicate StdinMoves(w: World, w': World) {
    var held, ended, n := w.gate.heldStdin, w.stdinEnded, w.stdinHeld;
    || (w'.stdinHeld == n && w'.gate.heldStdin == held && w'.stdinEnded == ended)
    || (w'.stdinHeld == n + 1 && w'.stdinEnded == ended && |held| < 64
        && exists item :: w'.gate.heldStdin == held + [item] && item.arrival == n)
    || (w'.stdinHeld == n && held != [] && w'.gate.heldStdin == held[1..] && w'.stdinEnded == ended + [Ran(held[0])])
    || (w'.stdinHeld == n && w'.gate.heldStdin == [] && w'.stdinEnded == ended + AllDropped(held))
  }

  lemma {:induction false} StdinStep(w: World, step: Step)
    requires Next(w, step).Some?
    ensures StdinMoves(w, Next(w, step).value)
  {
    var w' := Next(w, step).value;
    if w'.stdinHeld != w.stdinHeld {
      assert w'.gate.heldStdin == w.gate.heldStdin + [Command(step.kind, w.stdinHeld)];
    }
  }

  lemma {:induction false} StdinMovesInOrder(w: World, w': World)
    requires StdinInOrder(w) && StdinMoves(w, w')
    ensures StdinInOrder(w')
  {
    var held := w.gate.heldStdin;
    if w'.stdinHeld != w.stdinHeld {
      assert StdinArrivals(w'.gate.heldStdin) == StdinArrivals(held) + [w.stdinHeld];
      assert Upto(w.stdinHeld + 1) == Upto(w.stdinHeld) + [w.stdinHeld];
    } else if w'.gate.heldStdin == held && w'.stdinEnded == w.stdinEnded {
    } else if held != [] && w'.gate.heldStdin == held[1..] && w'.stdinEnded == w.stdinEnded + [Ran(held[0])] {
      assert StdinArrivals(held) == [held[0].arrival] + StdinArrivals(held[1..]);
      assert StdinEnds(w'.stdinEnded) == StdinEnds(w.stdinEnded) + [held[0].arrival];
    } else {
      assert StdinEnds(w'.stdinEnded) == StdinEnds(w.stdinEnded) + StdinArrivals(held);
    }
  }

  /** What one call can do to held Chappe enables: hold one more, run the oldest, discard all, or nothing. */
  ghost predicate ChappeMoves(w: World, w': World) {
    var held, ended, n := w.gate.heldChappe, w.chappeEnded, w.chappeHeld;
    || (w'.chappeHeld == n && w'.gate.heldChappe == held && w'.chappeEnded == ended)
    || (w'.chappeHeld == n + 1 && w'.chappeEnded == ended && |held| < 64
        && exists item :: w'.gate.heldChappe == held + [item] && item.arrival == n)
    || (w'.chappeHeld == n && held != [] && w'.gate.heldChappe == held[1..] && w'.chappeEnded == ended + [Ran(held[0])])
    || (w'.chappeHeld == n && w'.gate.heldChappe == [] && w'.chappeEnded == ended + AllDropped(held))
  }

  lemma {:induction false} ChappeStep(w: World, step: Step)
    requires Next(w, step).Some?
    ensures ChappeMoves(w, Next(w, step).value)
  {
    var w' := Next(w, step).value;
    if w'.chappeHeld != w.chappeHeld {
      assert w'.gate.heldChappe == w.gate.heldChappe + [EnableRequest(step.operator, w.chappeHeld)];
    }
  }

  lemma {:induction false} ChappeMovesInOrder(w: World, w': World)
    requires ChappeInOrder(w) && ChappeMoves(w, w')
    ensures ChappeInOrder(w')
  {
    var held := w.gate.heldChappe;
    if w'.chappeHeld != w.chappeHeld {
      assert ChappeArrivals(w'.gate.heldChappe) == ChappeArrivals(held) + [w.chappeHeld];
      assert Upto(w.chappeHeld + 1) == Upto(w.chappeHeld) + [w.chappeHeld];
    } else if w'.gate.heldChappe == held && w'.chappeEnded == w.chappeEnded {
    } else if held != [] && w'.gate.heldChappe == held[1..] && w'.chappeEnded == w.chappeEnded + [Ran(held[0])] {
      assert ChappeArrivals(held) == [held[0].arrival] + ChappeArrivals(held[1..]);
      assert ChappeEnds(w'.chappeEnded) == ChappeEnds(w.chappeEnded) + [held[0].arrival];
    } else {
      assert ChappeEnds(w'.chappeEnded) == ChappeEnds(w.chappeEnded) + ChappeArrivals(held);
    }
  }

  // ----- Attempts and deadlines

  ghost predicate NoneTriedEarly(tried: seq<Tried>) {
    forall t | t in tried :: !t.enablePending
  }

  /** Deadlines are in queue order and no later than one timeout from the clock. */
  ghost predicate DeadlinesSorted(deferred: seq<DeferredArm>, clock: int) {
    && (forall i, j | 0 <= i < j < |deferred| :: deferred[i].deadline <= deferred[j].deadline)
    && forall i | 0 <= i < |deferred| :: deferred[i].deadline <= clock + TIMEOUT_MS
  }

  ghost predicate Timely(w: World) {
    NoneTriedEarly(w.tried) && DeadlinesSorted(w.gate.deferred, w.clock)
  }

  lemma {:induction false} RetryLeavesFuture(deferred: seq<DeferredArm>, now: int, attempt: nat -> ArmOutcome, n: nat)
    requires forall i, j | 0 <= i < j < |deferred| :: deferred[i].deadline <= deferred[j].deadline
    ensures forall arm | arm in Retry(deferred, now, attempt, n).left :: now < arm.deadline
  {
    if deferred != [] {
      if EndLine(deferred[0], now, attempt(n)).Some? {
        RetryLeavesFuture(deferred[1..], now, attempt, n + 1);
      } else {
        forall arm | arm in deferred ensures now < arm.deadline {
          var k :| 0 <= k < |deferred| && deferred[k] == arm;
          assert k > 0 ==> deferred[0].deadline <= deferred[k].deadline;
        }
      }
    }
  }

  lemma {:induction false} StepKeepsTimely(w: World, step: Step)
    requires Timely(w) && Next(w, step).Some?
    ensures Timely(Next(w, step).value)
  {
    if step.DoPoll? {
      RetryEndsPrefix(w.gate.deferred, step.now, step.answers.attempt, 0);
    }
  }

  lemma {:induction false} EveryRunIsOrderly(steps: seq<Step>)
    requires Run(steps).Some?
    ensures InOrder(Run(steps).value) && HeldInOrder(Run(steps).value) && Timely(Run(steps).value)
  {
    if steps != [] {
      var front := steps[..|steps| - 1];
      EveryRunIsOrderly(front);
      StepKeepsOrder(Run(front).value, steps[|steps| - 1]);
      StdinStep(Run(front).value, steps[|steps| - 1]);
      StdinMovesInOrder(Run(front).value, Run(steps).value);
      ChappeStep(Run(front).value, steps[|steps| - 1]);
      ChappeMovesInOrder(Run(front).value, Run(steps).value);
      StepKeepsTimely(Run(front).value, steps[|steps| - 1]);
    }
  }

  // ----- Guarantees

  /**
    In every run: arms end in arrival order, each with exactly one outcome, and
    the ones still waiting are the latest arrivals; no arm was attempted while an
    Enable was pending.
   */
  lemma {:induction false} ArmsEndOnceInOrder(steps: seq<Step>)
    requires Run(steps).Some?
    ensures var w := Run(steps).value;
            && |w.ended| + |w.gate.deferred| == w.submitted
            && (forall i | 0 <= i < |w.ended| :: EndsArm(w.ended[i]) && w.ended[i].cmd.arrival == i)
            && (forall i | 0 <= i < |w.gate.deferred| :: w.gate.deferred[i].cmd.arrival == |w.ended| + i)
            && (forall t | t in w.tried :: !t.enablePending)
  {
    EveryRunIsOrderly(steps);
    var w := Run(steps).value;
    var all := LineArrivals(w.ended) + ArmArrivals(w.gate.deferred);
    assert |all| == w.submitted;
    forall i | 0 <= i < |w.ended| ensures w.ended[i].cmd.arrival == i {
      assert all[i] == w.ended[i].cmd.arrival && Upto(w.submitted)[i] == i;
    }
    forall i | 0 <= i < |w.gate.deferred| ensures w.gate.deferred[i].cmd.arrival == |w.ended| + i {
      assert all[|w.ended| + i] == w.gate.deferred[i].cmd.arrival;
    }
  }

  lemma {:induction false} StdinNumbered(w: World)
    requires StdinInOrder(w)
    ensures |w.stdinEnded| + |w.gate.heldStdin| == w.stdinHeld
    ensures forall i | 0 <= i < |w.stdinEnded| :: w.stdinEnded[i].item.arrival == i
    ensures forall i | 0 <= i < |w.gate.heldStdin| :: w.gate.heldStdin[i].arrival == |w.stdinEnded| + i
  {
    var all := StdinEnds(w.stdinEnded) + StdinArrivals(w.gate.heldStdin);
    assert |all| == w.stdinHeld;
    forall i | 0 <= i < |w.stdinEnded| ensures w.stdinEnded[i].item.arrival == i {
      assert all[i] == w.stdinEnded[i].item.arrival;
    }
    forall i | 0 <= i < |w.gate.heldStdin| ensures w.gate.heldStdin[i].arrival == |w.stdinEnded| + i {
      assert all[|w.stdinEnded| + i] == w.gate.heldStdin[i].arrival;
    }
  }

  lemma {:induction false} ChappeNumbered(w: World)
    requires ChappeInOrder(w)
    ensures |w.chappeEnded| + |w.gate.heldChappe| == w.chappeHeld
    ensures forall i | 0 <= i < |w.chappeEnded| :: w.chappeEnded[i].item.arrival == i
    ensures forall i | 0 <= i < |w.gate.heldChappe| :: w.gate.heldChappe[i].arrival == |w.chappeEnded| + i
  {
    var all := ChappeEnds(w.chappeEnded) + ChappeArrivals(w.gate.heldChappe);
    assert |all| == w.chappeHeld;
    forall i | 0 <= i < |w.chappeEnded| ensures w.chappeEnded[i].item.arrival == i {
      assert all[i] == w.chappeEnded[i].item.arrival;
    }
    forall i | 0 <= i < |w.gate.heldChappe| ensures w.gate.heldChappe[i].arrival == |w.chappeEnded| + i {
      assert all[|w.chappeEnded| + i] == w.gate.heldChappe[i].arrival;
    }
  }

  /** In every run held commands of either kind end once, in arrival order, and at most 64 of each wait. */
  lemma {:induction false} HeldEndOnceInOrder(steps: seq<Step>)
    requires Run(steps).Some?
    ensures var w := Run(steps).value;
            && |w.stdinEnded| + |w.gate.heldStdin| == w.stdinHeld && |w.gate.heldStdin| <= 64
            && |w.chappeEnded| + |w.gate.heldChappe| == w.chappeHeld && |w.gate.heldChappe| <= 64
            && (forall i | 0 <= i < |w.stdinEnded| :: w.stdinEnded[i].item.arrival == i)
            && (forall i | 0 <= i < |w.chappeEnded| :: w.chappeEnded[i].item.arrival == i)
            && (forall i | 0 <= i < |w.gate.heldStdin| :: w.gate.heldStdin[i].arrival == |w.stdinEnded| + i)
            && (forall i | 0 <= i < |w.gate.heldChappe| :: w.gate.heldChappe[i].arrival == |w.chappeEnded| + i)
  {
    EveryRunIsOrderly(steps);
    StdinNumbered(Run(steps).value);
    ChappeNumbered(Run(steps).value);
  }

  /** After a poll that looks at the arms, every arm still waiting has its deadline ahead. */
  lemma {:induction false} PollLeavesNoOverdueArm(steps: seq<Step>, now: int, answers: Answers)
    requires Run(steps).Some? && Run(steps).value.clock <= now
    requires !EnableWaits(Run(steps).value.gate, now, answers)
    ensures forall arm | arm in PollEffect(Run(steps).value.gate, now, answers).gate.deferred :: now < arm.deadline
  {
    EveryRunIsOrderly(steps);
    RetryLeavesFuture(Run(steps).value.gate.deferred, now, answers.attempt, 0);
  }

  /**
    Disable leaves no sweep, Enable or arm, and no held command exactly when a
    sweep was pending or none was held: commands held behind a sweep that already
    passed survive it.
   */
  lemma {:induction false} CancelClearsIff(g: Gate)
    ensures var after := CancelEffect(g).0;
            && after.preflight.None? && after.enable.None? && after.deferred == []
            && (after.heldStdin == [] && after.heldChappe == []
                <==> g.preflight.Some? || (g.heldStdin == [] && g.heldChappe == []))
  {
  }

  /** A command held behind a passed sweep outlives a Disable and still runs. */
  lemma {:induction false} HeldCommandOutlivesDisable() returns (steps: seq<Step>)
    ensures Run(steps).Some? && |steps| >= 2 && steps[|steps| - 2] == DoCancel
    ensures Run(steps).value.stdinEnded == [Ran(Command(HoldOn, 0))]
  {
    var s1 := [DoBeginPreflight(StdinEnable("op"))];
    var s2 := s1 + [DoDeferStdin(HoldOn)];
    var s3 := s2 + [DoPass];
    var s4 := s3 + [DoCancel];
    steps := s4 + [DoTakeStdin];
    assert s1[..0] == [] && s2[..1] == s1 && s3[..2] == s2 && s4[..3] == s3 && steps[..4] == s4;
    assert Run([]) == Some(START);
    assert Run(s1).value.gate.preflight.Some?;
    assert Run(s2).value.gate.heldStdin == [Command(HoldOn, 0)];
    assert Run(s3).value.gate.preflight.None?;
    assert Run(s4).value.gate.heldStdin == [Command(HoldOn, 0)] && Run(s4).value.stdinEnded == [];
  }

  /** A failed Enable empties the arms, refuses each, attempts none and stops the drives. */
  lemma {:induction false} FailedEnableRefusesAll(g: Gate, now: int, answers: Answers)
    requires EnableFails(g, now, answers)
    ensures var e := PollEffect(g, now, answers);
            && AllEndArms(Endings(e.lines)) && e.stopped && e.attempts == [] && e.gate.enable.None? && e.gate.deferred == []
            && LineArrivals(Endings(e.lines)) == ArmArrivals(g.deferred)
  {
    RefusalsEndAll(g.deferred, ENABLE_DID_NOT_COMPLETE);
    var head := [EnableFailed(answers.lost, answers.stopDelivered)];
    EndingsAppend(head, RefuseAll(g.deferred, ENABLE_DID_NOT_COMPLETE));
    assert Endings(head) == [];
  }
}
