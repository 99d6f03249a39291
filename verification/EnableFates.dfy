/**
  What becomes of each Enable and of each request behind a gravity sweep, over
  every sequence of calls on the gate.
 */
module EnableFates {
  import opened Basics
  import opened EnableGate

  // ----- What a run prints

  /** The lines one call prints. */
  function Printed(w: World, step: Step): seq<Line> {
    match step
    case DoEnd(abort) => EndPreflight(w.gate, abort).1
    case DoBeginEnable(operator, targets, _) => [WaitingForEnable(operator, targets)]
    case DoSubmit(kind, now, outcome) => SubmitEffect(w.gate, Command(kind, w.submitted), now, outcome).lines
    case DoPoll(now, answers) => PollEffect(w.gate, now, answers).lines
    case DoCancel => CancelEffect(w.gate).1
    case DoCancelArms(reason) => RefuseAll(w.gate.deferred, reason)
    case _ => []
  }

  /** The lines that `pick` chooses, in order. */
  function Only(lines: seq<Line>, pick: Line -> bool): seq<Line> {
    if lines == [] then []
    else Only(lines[..|lines| - 1], pick) + if pick(lines[|lines| - 1]) then [lines[|lines| - 1]] else []
  }

  lemma {:induction false} OnlyAppends(xs: seq<Line>, ys: seq<Line>, pick: Line -> bool)
    ensures Only(xs + ys, pick) == Only(xs, pick) + Only(ys, pick)
  {
    if ys == [] {
      assert xs + ys == xs;
    } else {
      var front := ys[..|ys| - 1];
      assert (xs + ys)[..|xs + ys| - 1] == xs + front;
      OnlyAppends(xs, front, pick);
    }
  }

  lemma {:induction false} OnlyNone(lines: seq<Line>, pick: Line -> bool)
    requires forall line | line in lines :: !pick(line)
    ensures Only(lines, pick) == []
  {
    if lines != [] {
      assert lines[|lines| - 1] in lines && forall line | line in lines[..|lines| - 1] :: line in lines;
      OnlyNone(lines[..|lines| - 1], pick);
    }
  }

  predicate EndsEnable(line: Line) {
    line.Enabled? || line.EnableFailed? || line.EnableCancelled?
  }

  predicate RefusesSweep(line: Line) {
    line.EnableRefused?
  }

  // ----- Enables

  /** Still pending, ended by a call that printed these ending lines, or replaced by another Enable. */
  datatype Fate = Undecided | Ended(lines: seq<Line>, call: Step) | Replaced

  /** An Enable as it was begun, and what became of it. */
  datatype EnableCase = EnableCase(operator: string, targets: seq<string>, begunAt: int, fate: Fate)

  /** Every Enable begun so far, in order. */
  function NextEnables(cases: seq<EnableCase>, w: World, step: Step, gate: Gate): seq<EnableCase> {
    if step.DoBeginEnable? then
      (if cases != [] && w.gate.enable.Some? then cases[|cases| - 1 := cases[|cases| - 1].(fate := Replaced)] else cases)
      + [EnableCase(step.operator, step.targets, step.now, Undecided)]
    else if cases != [] && w.gate.enable.Some? && gate.enable.None? then
      cases[|cases| - 1 := cases[|cases| - 1].(fate := Ended(Only(Printed(w, step), EndsEnable), step))]
    else cases
  }

  // ----- Requests behind a sweep

  datatype SweepFate = Sweeping | Passed | Refused(abort: Option<Abort>)

  datatype SweepCase = SweepCase(waiter: PreflightFor, fate: SweepFate)

  /** How a call ends the pending sweep, if it does. */
  function SweepEnd(step: Step): Option<SweepFate> {
    match step
    case DoPass => Some(Passed)
    case DoEnd(abort) => Some(Refused(abort))
    case DoCancel => Some(Refused(Some(Disabled)))
    case _ => None
  }

  /** Every request that had to wait behind a sweep of its own so far, in order. */
  function NextSweeps(cases: seq<SweepCase>, w: World, step: Step): seq<SweepCase> {
    if step.DoBeginPreflight? && w.gate.preflight.None? then cases + [SweepCase(step.waiter, Sweeping)]
    else if cases != [] && w.gate.preflight.Some? && SweepEnd(step).Some? then
      cases[|cases| - 1 := cases[|cases| - 1].(fate := SweepEnd(step).value)]
    else cases
  }

  // ----- The history of a run

  datatype History = History(enables: seq<EnableCase>, sweeps: seq<SweepCase>, lines: seq<Line>, taken: seq<Refusal>)

  const NOTHING_YET := History([], [], [], [])

  function Extend(past: History, w: World, step: Step): History
    requires Next(w, step).Some?
  {
    History(NextEnables(past.enables, w, step, Next(w, step).value.gate), NextSweeps(past.sweeps, w, step),
            past.lines + Printed(w, step),
            past.taken + Taken(w.gate, step))
  }

  function HistoryOf(steps: seq<Step>): History
    requires Run(steps).Some?
  {
    if steps == [] then NOTHING_YET
    else
      var front := steps[..|steps| - 1];
      Extend(HistoryOf(front), Run(front).value, steps[|steps| - 1])
  }

  // ----- Each Enable ends once, unless another replaces it

  /**
    The line a call ends this Enable with: a poll that finds it complete says so, a
    poll that finds it incomplete and lost or 2000 ms old says it failed, and a
    Disable says it was cancelled.
   */
  predicate OwnLine(c: EnableCase, call: Step, line: Line) {
    match call
    case DoPoll(now, answers) =>
      if answers.completed then line == Enabled(c.operator, c.targets)
      else line == EnableFailed(answers.lost, answers.stopDelivered) && (answers.lost || c.begunAt + 2000 <= now)
    case DoCancel => line == EnableCancelled
    case _ => false
  }

  predicate EndedOnce(c: EnableCase) {
    c.fate.Ended? && |c.fate.lines| == 1 && OwnLine(c, c.fate.call, c.fate.lines[0])
  }

  /** What the gate keeps of an Enable while it is pending. */
  function PendingOf(c: EnableCase): PendingEnable {
    PendingEnable(c.operator, c.targets, c.begunAt + 2000)
  }

  function FateLines(cases: seq<EnableCase>): seq<Line> {
    if cases == [] then []
    else FateLines(cases[..|cases| - 1]) + LinesOf(cases[|cases| - 1].fate)
  }

  function LinesOf(fate: Fate): seq<Line> {
    if fate.Ended? then fate.lines else []
  }

  /** Only the last Enable can be pending; the others ended with one line of their own or were replaced. */
  ghost predicate EnablesSettled(cases: seq<EnableCase>, pending: Option<PendingEnable>) {
    && (forall k | 0 <= k < |cases| - 1 :: EndedOnce(cases[k]) || cases[k].fate.Replaced?)
    && if cases == [] then pending.None?
       else
         var last := cases[|cases| - 1];
         if pending.Some? then last.fate.Undecided? && pending.value == PendingOf(last) else EndedOnce(last)
  }

  ghost predicate EnablesTold(past: History, gate: Gate) {
    EnablesSettled(past.enables, gate.enable) && Only(past.lines, EndsEnable) == FateLines(past.enables)
  }

  lemma {:induction false} ArmLinesEndNoEnable(lines: seq<Line>)
    requires AllEndArms(lines)
    ensures Only(lines, EndsEnable) == [] && Only(lines, RefusesSweep) == []
  {
    OnlyNone(lines, EndsEnable);
    OnlyNone(lines, RefusesSweep);
  }

  lemma {:induction false} SingleLine(line: Line, pick: Line -> bool)
    ensures Only([line], pick) == if pick(line) then [line] else []
  {
    assert [line][..0] == [];
  }

  lemma {:induction false} PreflightLines(g: Gate, abort: Option<Abort>)
    ensures Only(EndPreflight(g, abort).1, EndsEnable) == []
    ensures Only(EndPreflight(g, abort).1, RefusesSweep)
            == if g.preflight.Some? && g.preflight.value.StdinEnable? then [EnableRefused(abort)] else []
  {
    var lines := EndPreflight(g, abort).1;
    OnlyNone(lines, EndsEnable);
    if g.preflight.Some? {
      var head := if g.preflight.value.StdinEnable? then [EnableRefused(abort)] else [];
      var tail := if g.heldStdin == [] then [] else [Discarded(|g.heldStdin|)];
      assert lines == head + tail;
      OnlyAppends(head, tail, RefusesSweep);
      OnlyNone(tail, RefusesSweep);
      SingleLine(EnableRefused(abort), RefusesSweep);
    }
  }

  /** A poll prints an ending line exactly when it ends the Enable. */
  lemma {:induction false} PollLines(g: Gate, now: int, answers: Answers)
    ensures var e := PollEffect(g, now, answers);
            && Only(e.lines, RefusesSweep) == []
            && if g.enable.Some? && e.gate.enable.None? then
                 && Only(e.lines, EndsEnable)
                    == [if answers.completed then Enabled(g.enable.value.operator, g.enable.value.targets)
                        else EnableFailed(answers.lost, answers.stopDelivered)]
                 && (answers.completed || answers.lost || g.enable.value.deadline <= now)
               else e.gate.enable == g.enable && Only(e.lines, EndsEnable) == []
  {
    if EnableWaits(g, now, answers) {
    } else if EnableFails(g, now, answers) {
      var head := EnableFailed(answers.lost, answers.stopDelivered);
      RefusalsEndAll(g.deferred, ENABLE_DID_NOT_COMPLETE);
      HeadThenArms([head], RefuseAll(g.deferred, ENABLE_DID_NOT_COMPLETE));
      SingleLine(head, EndsEnable);
      SingleLine(head, RefusesSweep);
    } else {
      var report := if g.enable.Some? then [Enabled(g.enable.value.operator, g.enable.value.targets)] else [];
      RetryEndsPrefix(g.deferred, now, answers.attempt, 0);
      HeadThenArms(report, Retry(g.deferred, now, answers.attempt, 0).lines);
      if g.enable.Some? {
        SingleLine(report[0], EndsEnable);
        SingleLine(report[0], RefusesSweep);
      }
    }
  }

  lemma {:induction false} HeadThenArms(head: seq<Line>, arms: seq<Line>)
    requires AllEndArms(arms)
    ensures Only(head + arms, EndsEnable) == Only(head, EndsEnable)
    ensures Only(head + arms, RefusesSweep) == Only(head, RefusesSweep)
  {
    ArmLinesEndNoEnable(arms);
    OnlyAppends(head, arms, EndsEnable);
    OnlyAppends(head, arms, RefusesSweep);
  }

  lemma {:induction false} CancelLines(g: Gate)
    ensures var (gate, lines) := CancelEffect(g);
            && gate.enable.None?
            && Only(lines, EndsEnable) == (if g.enable.Some? then [EnableCancelled] else [])
            && Only(lines, RefusesSweep)
               == if g.preflight.Some? && g.preflight.value.StdinEnable? then [EnableRefused(Some(Disabled))] else []
  {
    var swept := EndPreflight(g, Some(Disabled)).1;
    var note := if g.enable.Some? then [EnableCancelled] else [];
    PreflightLines(g, Some(Disabled));
    OnlyAppends(swept, note, EndsEnable);
    OnlyAppends(swept, note, RefusesSweep);
    SingleLine(EnableCancelled, EndsEnable);
    SingleLine(EnableCancelled, RefusesSweep);
    RefusalsEndAll(g.deferred, DISABLED_FIRST);
    HeadThenArms(swept + note, RefuseAll(g.deferred, DISABLED_FIRST));
  }

  lemma {:induction false} SubmitLines(g: Gate, cmd: Command, now: int, outcome: ArmOutcome)
    ensures var e := SubmitEffect(g, cmd, now, outcome);
            && Only(e.lines, EndsEnable) == [] && Only(e.lines, RefusesSweep) == []
            && e.gate.enable == g.enable && e.gate.preflight == g.preflight && e.gate.unreported == g.unreported
  {
    var lines := SubmitEffect(g, cmd, now, outcome).lines;
    OnlyNone(lines, EndsEnable);
    OnlyNone(lines, RefusesSweep);
  }

  /** The ending line that fits a pending Enable and the call that ends it. */
  predicate EndsPending(enable: PendingEnable, call: Step, line: Line) {
    match call
    case DoPoll(now, answers) =>
      if answers.completed then line == Enabled(enable.operator, enable.targets)
      else line == EnableFailed(answers.lost, answers.stopDelivered) && (answers.lost || enable.deadline <= now)
    case DoCancel => line == EnableCancelled
    case _ => false
  }

  /** What one call does to the pending Enable, and the ending lines it prints. */
  ghost predicate TellsEnable(g: Gate, gate: Gate, step: Step, ends: seq<Line>) {
    if step.DoBeginEnable? then
      gate.enable == Some(PendingEnable(step.operator, step.targets, step.now + 2000)) && ends == []
    else if gate.enable == g.enable then ends == []
    else g.enable.Some? && gate.enable.None? && |ends| == 1 && EndsPending(g.enable.value, step, ends[0])
  }

  lemma {:induction false} PollStep(w: World, step: Step)
    requires step.DoPoll? && Next(w, step).Some?
    ensures TellsEnable(w.gate, Next(w, step).value.gate, step, Only(Printed(w, step), EndsEnable))
  {
    PollLines(w.gate, step.now, step.answers);
  }

  lemma {:induction false} CancelStep(w: World)
    ensures Next(w, DoCancel).Some?
    ensures TellsEnable(w.gate, Next(w, DoCancel).value.gate, DoCancel, Only(Printed(w, DoCancel), EndsEnable))
  {
    CancelLines(w.gate);
  }

  lemma {:induction false} OtherStep(w: World, step: Step)
    requires !step.DoPoll? && !step.DoCancel? && Next(w, step).Some?
    ensures TellsEnable(w.gate, Next(w, step).value.gate, step, Only(Printed(w, step), EndsEnable))
  {
    match step
    case DoEnd(abort) => PreflightLines(w.gate, abort);
    case DoSubmit(kind, now, outcome) => SubmitLines(w.gate, Command(kind, w.submitted), now, outcome);
    case DoCancelArms(reason) =>
      RefusalsEndAll(w.gate.deferred, reason);
      ArmLinesEndNoEnable(RefuseAll(w.gate.deferred, reason));
    case DoBeginEnable(operator, targets, _) => SingleLine(WaitingForEnable(operator, targets), EndsEnable);
    case _ =>
  }

  lemma {:induction false} EnableStep(w: World, step: Step)
    requires Next(w, step).Some?
    ensures TellsEnable(w.gate, Next(w, step).value.gate, step, Only(Printed(w, step), EndsEnable))
  {
    if step.DoPoll? {
      PollStep(w, step);
    } else if step.DoCancel? {
      CancelStep(w);
    } else {
      OtherStep(w, step);
    }
  }

  lemma {:induction false} FateLinesAppend(cases: seq<EnableCase>, c: EnableCase)
    ensures FateLines(cases + [c]) == FateLines(cases) + LinesOf(c.fate)
  {
    assert (cases + [c])[..|cases|] == cases;
  }

  lemma {:induction false} LastFate(cases: seq<EnableCase>, fate: Fate)
    requires cases != [] && !cases[|cases| - 1].fate.Ended?
    ensures FateLines(cases[|cases| - 1 := cases[|cases| - 1].(fate := fate)]) == FateLines(cases) + LinesOf(fate)
  {
    var front, last := cases[..|cases| - 1], cases[|cases| - 1];
    assert cases == front + [last];
    assert cases[|cases| - 1 := last.(fate := fate)] == front + [last.(fate := fate)];
    FateLinesAppend(front, last);
    FateLinesAppend(front, last.(fate := fate));
  }

  /** The Enables after one more call, and the ending lines that were added. */
  lemma {:induction false} NextEnablesSettled(cases: seq<EnableCase>, w: World, step: Step, gate: Gate, ends: seq<Line>)
    requires EnablesSettled(cases, w.gate.enable) && ends == Only(Printed(w, step), EndsEnable)
    requires TellsEnable(w.gate, gate, step, ends)
    ensures EnablesSettled(NextEnables(cases, w, step, gate), gate.enable)
    ensures FateLines(NextEnables(cases, w, step, gate)) == FateLines(cases) + ends
  {
    if step.DoBeginEnable? {
      var started := EnableCase(step.operator, step.targets, step.now, Undecided);
      if w.gate.enable.Some? {
        LastFate(cases, Replaced);
        FateLinesAppend(cases[|cases| - 1 := cases[|cases| - 1].(fate := Replaced)], started);
      } else {
        FateLinesAppend(cases, started);
      }
    } else if gate.enable != w.gate.enable {
      LastFate(cases, Ended(ends, step));
    }
  }

  lemma {:induction false} EnablesAreTold(steps: seq<Step>)
    requires Run(steps).Some?
    ensures EnablesTold(HistoryOf(steps), Run(steps).value.gate)
  {
    if steps != [] {
      var front, step := steps[..|steps| - 1], steps[|steps| - 1];
      EnablesAreTold(front);
      var past, w := HistoryOf(front), Run(front).value;
      EnableStep(w, step);
      NextEnablesSettled(past.enables, w, step, Next(w, step).value.gate, Only(Printed(w, step), EndsEnable));
      OnlyAppends(past.lines, Printed(w, step), EndsEnable);
    }
  }

  /** Call `j` begins an Enable while another is pending. */
  ghost predicate BeginsOver(steps: seq<Step>, j: nat)
    requires j < |steps|
  {
    steps[j].DoBeginEnable? && Run(steps[..j]).Some? && Run(steps[..j]).value.gate.enable.Some?
  }

  /** Every Enable has ended with exactly one line of its own, or is the last and still pending. */
  ghost predicate AllEndOnce(cases: seq<EnableCase>) {
    forall k | 0 <= k < |cases| :: EndedOnce(cases[k]) || (k == |cases| - 1 && cases[k].fate.Undecided?)
  }

  ghost predicate SomeReplaced(cases: seq<EnableCase>) {
    exists k | 0 <= k < |cases| :: cases[k].fate.Replaced?
  }

  ghost predicate SomeBeginsOver(steps: seq<Step>) {
    exists j: nat | j < |steps| :: BeginsOver(steps, j)
  }

  lemma {:induction false} ReplacedIff(steps: seq<Step>)
    requires Run(steps).Some?
    ensures SomeReplaced(HistoryOf(steps).enables) <==> SomeBeginsOver(steps)
  {
    if steps != [] {
      var front, step := steps[..|steps| - 1], steps[|steps| - 1];
      ReplacedIff(front);
      EnablesAreTold(front);
      EnableStep(Run(front).value, step);
      ReplacedNext(HistoryOf(front).enables, Run(front).value, step, Next(Run(front).value, step).value.gate);
      BeginsOverNext(steps, front);
    }
  }

  lemma {:induction false} BeginsOverNext(steps: seq<Step>, front: seq<Step>)
    requires steps != [] && front == steps[..|steps| - 1]
    ensures SomeBeginsOver(steps) <==> SomeBeginsOver(front) || BeginsOver(steps, |steps| - 1)
  {
    forall j: nat | j < |front| ensures BeginsOver(front, j) <==> BeginsOver(steps, j) {
      assert front[..j] == steps[..j];
    }
  }

  lemma {:induction false} ReplacedNext(cases: seq<EnableCase>, w: World, step: Step, gate: Gate)
    requires EnablesSettled(cases, w.gate.enable)
    ensures SomeReplaced(NextEnables(cases, w, step, gate))
       <==> SomeReplaced(cases) || (step.DoBeginEnable? && w.gate.enable.Some?)
  {
    var next := NextEnables(cases, w, step, gate);
    var last := |cases| - 1;
    forall k | 0 <= k < |cases| && cases[k].fate.Replaced? ensures next[k].fate.Replaced? {
      assert k < last || !w.gate.enable.Some?;
    }
    if step.DoBeginEnable? && w.gate.enable.Some? {
      assert next[last].fate.Replaced?;
    }
  }

  /**
    In every run the lines that end an Enable are exactly those of the Enables
    that ended, one each, in order; and every Enable ends exactly once or is still
    pending if and only if no Enable was begun while another was pending.
   */
  lemma {:induction false} EnablesEndOnceIff(steps: seq<Step>)
    requires Run(steps).Some?
    ensures Only(HistoryOf(steps).lines, EndsEnable) == FateLines(HistoryOf(steps).enables)
    ensures AllEndOnce(HistoryOf(steps).enables) <==> !SomeBeginsOver(steps)
  {
    EnablesAreTold(steps);
    ReplacedIff(steps);
    EndOnceIff(HistoryOf(steps).enables, Run(steps).value.gate.enable);
  }

  lemma {:induction false} EndOnceIff(cases: seq<EnableCase>, pending: Option<PendingEnable>)
    requires EnablesSettled(cases, pending)
    ensures AllEndOnce(cases) <==> !SomeReplaced(cases)
  {
  }

  lemma {:induction false} OneMoreCall(steps: seq<Step>, step: Step)
    requires Run(steps).Some? && Next(Run(steps).value, step).Some?
    ensures Run(steps + [step]) == Next(Run(steps).value, step)
    ensures HistoryOf(steps + [step]) == Extend(HistoryOf(steps), Run(steps).value, step)
  {
    assert (steps + [step])[..|steps|] == steps;
  }

  /** A poll ends the pending Enable if and only if it finds it complete, lost or past its deadline. */
  lemma {:induction false} PollEndsEnableIff(w: World, now: int, answers: Answers)
    requires Next(w, DoPoll(now, answers)).Some? && w.gate.enable.Some?
    ensures Next(w, DoPoll(now, answers)).value.gate.enable.None?
       <==> answers.completed || answers.lost || w.gate.enable.value.deadline <= now
  {
  }

  /** A second Enable silently takes the place of the first, which never ends. */
  lemma {:induction false} EnableVanishes() returns (steps: seq<Step>, answers: Answers)
    ensures Run(steps).Some?
    ensures HistoryOf(steps).enables
            == [EnableCase("first", [], 0, Replaced),
                EnableCase("second", [], 0, Ended([Enabled("second", [])], DoPoll(0, answers)))]
    ensures Only(HistoryOf(steps).lines, EndsEnable) == [Enabled("second", [])]
  {
    answers := Answers(true, false, true, (n: nat) => Armed);
    var first, second := EnableCase("first", [], 0, Undecided), EnableCase("second", [], 0, Undecided);
    var begin, again := DoBeginEnable("first", [], 0), DoBeginEnable("second", [], 0);
    OneMoreCall([], begin);
    steps := [] + [begin];
    assert Run(steps) == Some(START.(gate := IDLE.(enable := Some(PendingOf(first)))));
    assert HistoryOf(steps).enables == [first];
    OneMoreCall(steps, again);
    steps := steps + [again];
    assert Run(steps) == Some(START.(gate := IDLE.(enable := Some(PendingOf(second)))));
    assert HistoryOf(steps).enables == [first.(fate := Replaced), second];
    SecondEnds(steps, first.(fate := Replaced), second, Run(steps).value, answers);
    steps := steps + [DoPoll(0, answers)];
  }

  /** A poll that finds the only pending Enable complete. */
  lemma {:induction false} PollReports(w: World, answers: Answers)
    requires w.gate.enable.Some? && w.gate.deferred == [] && w.clock == 0 && answers.completed
    ensures var enable := w.gate.enable.value;
            && Printed(w, DoPoll(0, answers)) == [Enabled(enable.operator, enable.targets)]
            && Next(w, DoPoll(0, answers)).Some? && Next(w, DoPoll(0, answers)).value.gate.enable.None?
  {
    assert Retry(w.gate.deferred, 0, answers.attempt, 0) == Retried([], [], []);
  }

  lemma {:induction false} OnlyLastSpeaks(first: EnableCase, last: EnableCase)
    requires first.fate.Replaced?
    ensures FateLines([first, last]) == LinesOf(last.fate)
  {
    assert FateLines([]) == [] && [] + [first] == [first] && [first] + [last] == [first, last];
    FateLinesAppend([], first);
    FateLinesAppend([first], last);
  }

  lemma {:induction false} PollDecides(first: EnableCase, second: EnableCase, w: World, answers: Answers)
    requires w.gate.enable == Some(PendingOf(second)) && w.gate.deferred == [] && w.clock == 0 && answers.completed
    requires Next(w, DoPoll(0, answers)).Some?
    ensures NextEnables([first, second], w, DoPoll(0, answers), Next(w, DoPoll(0, answers)).value.gate)
            == [first, second.(fate := Ended([Enabled(second.operator, second.targets)], DoPoll(0, answers)))]
  {
    PollReports(w, answers);
    SingleLine(Enabled(second.operator, second.targets), EndsEnable);
  }

  lemma {:induction false} SecondEnds(steps: seq<Step>, first: EnableCase, second: EnableCase, w: World, answers: Answers)
    requires Run(steps) == Some(w) && w.gate.enable == Some(PendingOf(second)) && w.gate.deferred == [] && w.clock == 0
    requires answers.completed && first.fate.Replaced? && HistoryOf(steps).enables == [first, second]
    ensures var line, more := Enabled(second.operator, second.targets), steps + [DoPoll(0, answers)];
            && Run(more).Some? && HistoryOf(more).enables == [first, second.(fate := Ended([line], DoPoll(0, answers)))]
            && Only(HistoryOf(more).lines, EndsEnable) == [line]
  {
    PollReports(w, answers);
    PollDecides(first, second, w, answers);
    OneMoreCall(steps, DoPoll(0, answers));
    EnablesAreTold(steps + [DoPoll(0, answers)]);
    OnlyLastSpeaks(first, HistoryOf(steps + [DoPoll(0, answers)]).enables[1]);
  }

  // ----- Each sweep request ends once

  predicate Settled(c: SweepCase) {
    c.fate.Passed? || c.fate.Refused?
  }

  /** A refused stdin Enable is told by one line, any other request by one refusal for publication. */
  function SweepLines(cases: seq<SweepCase>): seq<Line> {
    if cases == [] then [] else SweepLines(cases[..|cases| - 1]) + LineOf(cases[|cases| - 1])
  }

  function LineOf(c: SweepCase): seq<Line> {
    if c.fate.Refused? && c.waiter.StdinEnable? then [EnableRefused(c.fate.abort)] else []
  }

  function Refusals(cases: seq<SweepCase>): seq<Refusal> {
    if cases == [] then [] else Refusals(cases[..|cases| - 1]) + RefusalOf(cases[|cases| - 1])
  }

  function RefusalOf(c: SweepCase): seq<Refusal> {
    if c.fate.Refused? && !c.waiter.StdinEnable? then [Refusal(c.waiter, c.fate.abort)] else []
  }

  /** Only the last request can still wait for its sweep; every other one passed or was refused. */
  ghost predicate SweepsSettled(cases: seq<SweepCase>, pending: Option<PreflightFor>) {
    && (forall k | 0 <= k < |cases| - 1 :: Settled(cases[k]))
    && if cases == [] then pending.None?
       else
         var last := cases[|cases| - 1];
         if pending.Some? then last == SweepCase(pending.value, Sweeping) else Settled(last)
  }

  ghost predicate SweepsTold(past: History, gate: Gate) {
    && SweepsSettled(past.sweeps, gate.preflight)
    && Only(past.lines, RefusesSweep) == SweepLines(past.sweeps)
    && past.taken + gate.unreported == Refusals(past.sweeps)
  }

  /** What the end of a sweep adds: one line or one refusal for the request it ends, nothing when it passed. */
  function EndOfSweep(g: Gate, step: Step): SweepCase
    requires g.preflight.Some? && SweepEnd(step).Some?
  {
    SweepCase(g.preflight.value, SweepEnd(step).value)
  }

  predicate EndsSweep(g: Gate, step: Step) {
    g.preflight.Some? && SweepEnd(step).Some?
  }

  /** The pending sweep and the refusals kept for publication after one call. */
  lemma {:induction false} SweepStep(w: World, step: Step)
    requires Next(w, step).Some?
    ensures var g, gate := w.gate, Next(w, step).value.gate;
            && gate.preflight == (if EndsSweep(g, step) then None
                                  else if step.DoBeginPreflight? && g.preflight.None? then Some(step.waiter) else g.preflight)
            && Taken(g, step) + gate.unreported
               == g.unreported + if EndsSweep(g, step) then RefusalOf(EndOfSweep(g, step)) else []
  {
    if step.DoSubmit? {
      SubmitLines(w.gate, Command(step.kind, w.submitted), step.now, step.outcome);
    }
  }

  function Taken(g: Gate, step: Step): seq<Refusal> {
    if step.DoTakeUnreported? then g.unreported else []
  }

  /** The refusals one call prints. */
  lemma {:induction false} SweepPrinted(w: World, step: Step)
    ensures Only(Printed(w, step), RefusesSweep)
            == if EndsSweep(w.gate, step) then LineOf(EndOfSweep(w.gate, step)) else []
  {
    match step
    case DoPoll(now, answers) => PollLines(w.gate, now, answers);
    case DoCancel => CancelLines(w.gate);
    case DoEnd(abort) => PreflightLines(w.gate, abort);
    case DoSubmit(kind, now, outcome) => SubmitLines(w.gate, Command(kind, w.submitted), now, outcome);
    case DoCancelArms(reason) =>
      RefusalsEndAll(w.gate.deferred, reason);
      ArmLinesEndNoEnable(RefuseAll(w.gate.deferred, reason));
    case DoBeginEnable(operator, targets, _) => SingleLine(WaitingForEnable(operator, targets), RefusesSweep);
    case _ =>
  }

  lemma {:induction false} SweepAppends(cases: seq<SweepCase>, c: SweepCase)
    ensures SweepLines(cases + [c]) == SweepLines(cases) + LineOf(c)
    ensures Refusals(cases + [c]) == Refusals(cases) + RefusalOf(c)
  {
    assert (cases + [c])[..|cases|] == cases;
  }

  lemma {:induction false} LastSweep(cases: seq<SweepCase>, c: SweepCase)
    requires cases != [] && cases[|cases| - 1].fate.Sweeping?
    ensures SweepLines(cases[|cases| - 1 := c]) == SweepLines(cases) + LineOf(c)
    ensures Refusals(cases[|cases| - 1 := c]) == Refusals(cases) + RefusalOf(c)
  {
    var front, last := cases[..|cases| - 1], cases[|cases| - 1];
    assert cases == front + [last] && cases[|cases| - 1 := c] == front + [c];
    SweepAppends(front, last);
    SweepAppends(front, c);
  }

  lemma {:induction false} SweepIsEnded(cases: seq<SweepCase>, c: SweepCase)
    requires SweepsSettled(cases, Some(c.waiter)) && Settled(c)
    ensures cases != [] && cases[|cases| - 1] == c.(fate := Sweeping)
    ensures SweepsSettled(cases[|cases| - 1 := c], None)
    ensures SweepLines(cases[|cases| - 1 := c]) == SweepLines(cases) + LineOf(c)
    ensures Refusals(cases[|cases| - 1 := c]) == Refusals(cases) + RefusalOf(c)
  {
    LastSweep(cases, c);
  }

  lemma {:induction false} SweepIsBegun(cases: seq<SweepCase>, waiter: PreflightFor)
    requires SweepsSettled(cases, None)
    ensures var next := cases + [SweepCase(waiter, Sweeping)];
            SweepsSettled(next, Some(waiter)) && SweepLines(next) == SweepLines(cases) && Refusals(next) == Refusals(cases)
  {
    SweepAppends(cases, SweepCase(waiter, Sweeping));
  }

  lemma {:induction false} NextSweepsSettled(cases: seq<SweepCase>, w: World, step: Step, pending: Option<PreflightFor>)
    requires SweepsSettled(cases, w.gate.preflight)
    requires pending == if EndsSweep(w.gate, step) then None
                        else if step.DoBeginPreflight? && w.gate.preflight.None? then Some(step.waiter) else w.gate.preflight
    ensures var next, ends := NextSweeps(cases, w, step), EndsSweep(w.gate, step);
            && SweepsSettled(next, pending)
            && SweepLines(next) == SweepLines(cases) + (if ends then LineOf(EndOfSweep(w.gate, step)) else [])
            && Refusals(next) == Refusals(cases) + if ends then RefusalOf(EndOfSweep(w.gate, step)) else []
  {
    if EndsSweep(w.gate, step) {
      SweepIsEnded(cases, EndOfSweep(w.gate, step));
    } else if step.DoBeginPreflight? && w.gate.preflight.None? {
      SweepIsBegun(cases, step.waiter);
    }
  }

  /**
    In every run each request that waits behind a sweep of its own ends exactly
    once: it passes, or is refused with exactly one line (stdin) or one refusal
    for publication (any other), in order, none lost and none twice.
   */
  lemma {:induction false} SweepsEndOnce(steps: seq<Step>)
    requires Run(steps).Some?
    ensures SweepsTold(HistoryOf(steps), Run(steps).value.gate)
  {
    if steps != [] {
      var front, step := steps[..|steps| - 1], steps[|steps| - 1];
      SweepsEndOnce(front);
      var past, w := HistoryOf(front), Run(front).value;
      var gate := Next(w, step).value.gate;
      SweepStep(w, step);
      SweepPrinted(w, step);
      NextSweepsSettled(past.sweeps, w, step, gate.preflight);
      OnlyAppends(past.lines, Printed(w, step), RefusesSweep);
      Regroup(past.taken, Taken(w.gate, step), gate.unreported, w.gate.unreported,
              if EndsSweep(w.gate, step) then RefusalOf(EndOfSweep(w.gate, step)) else []);
    }
  }

  lemma {:induction false} Regroup<T>(taken: seq<T>, now: seq<T>, after: seq<T>, before: seq<T>, more: seq<T>)
    requires now + after == before + more
    ensures taken + now + after == taken + before + more
  {
    assert taken + now + after == taken + (now + after);
    assert taken + before + more == taken + (before + more);
  }

  // ----- Discarded commands are counted

  function DiscardedIn(lines: seq<Line>): nat {
    if lines == [] then 0
    else DiscardedIn(lines[..|lines| - 1]) + if lines[|lines| - 1].Discarded? then lines[|lines| - 1].count else 0
  }

  function DroppedIn(ends: seq<HeldEnd<Command>>): nat {
    if ends == [] then 0 else DroppedIn(ends[..|ends| - 1]) + if ends[|ends| - 1].Dropped? then 1 else 0
  }

  lemma {:induction false} DiscardedAppends(xs: seq<Line>, ys: seq<Line>)
    ensures DiscardedIn(xs + ys) == DiscardedIn(xs) + DiscardedIn(ys)
  {
    if ys == [] {
      assert xs + ys == xs;
    } else {
      assert (xs + ys)[..|xs + ys| - 1] == xs + ys[..|ys| - 1];
      DiscardedAppends(xs, ys[..|ys| - 1]);
    }
  }

  lemma {:induction false} DroppedAppends(xs: seq<HeldEnd<Command>>, ys: seq<HeldEnd<Command>>)
    ensures DroppedIn(xs + ys) == DroppedIn(xs) + DroppedIn(ys)
  {
    if ys == [] {
      assert xs + ys == xs;
    } else {
      assert (xs + ys)[..|xs + ys| - 1] == xs + ys[..|ys| - 1];
      DroppedAppends(xs, ys[..|ys| - 1]);
    }
  }

  lemma {:induction false} AllDroppedCounted(held: seq<Command>)
    ensures DroppedIn(AllDropped(held)) == |held|
  {
    if held != [] {
      assert AllDropped(held)[..|held| - 1] == AllDropped(held[..|held| - 1]);
      AllDroppedCounted(held[..|held| - 1]);
    }
  }

  lemma {:induction false} NoneDiscarded(lines: seq<Line>)
    requires forall line | line in lines :: !line.Discarded?
    ensures DiscardedIn(lines) == 0
  {
    if lines != [] {
      assert lines[|lines| - 1] in lines && forall line | line in lines[..|lines| - 1] :: line in lines;
      NoneDiscarded(lines[..|lines| - 1]);
    }
  }

  lemma {:induction false} PreflightDiscards(g: Gate, abort: Option<Abort>)
    ensures DiscardedIn(EndPreflight(g, abort).1) == if g.preflight.Some? then |g.heldStdin| else 0
  {
    if g.preflight.Some? {
      var head := if g.preflight.value.StdinEnable? then [EnableRefused(abort)] else [];
      var tail := if g.heldStdin == [] then [] else [Discarded(|g.heldStdin|)];
      DiscardedAppends(head, tail);
      NoneDiscarded(head);
      assert tail != [] ==> tail[..0] == [];
    }
  }

  lemma {:induction false} ArmsDiscardNothing(lines: seq<Line>)
    requires AllEndArms(lines)
    ensures DiscardedIn(lines) == 0
  {
    NoneDiscarded(lines);
  }

  lemma {:induction false} PollDiscardsNothing(g: Gate, now: int, answers: Answers)
    ensures DiscardedIn(PollEffect(g, now, answers).lines) == 0
  {
    RetryEndsPrefix(g.deferred, now, answers.attempt, 0);
    RefusalsEndAll(g.deferred, ENABLE_DID_NOT_COMPLETE);
    NoneDiscarded(PollEffect(g, now, answers).lines);
  }

  lemma {:induction false} CancelDiscards(g: Gate)
    ensures DiscardedIn(CancelEffect(g).1) == if g.preflight.Some? then |g.heldStdin| else 0
  {
    var swept := EndPreflight(g, Some(Disabled)).1;
    var note := if g.enable.Some? then [EnableCancelled] else [];
    PreflightDiscards(g, Some(Disabled));
    NoneDiscarded(note);
    DiscardedAppends(swept, note);
    RefusalsEndAll(g.deferred, DISABLED_FIRST);
    ArmsDiscardNothing(RefuseAll(g.deferred, DISABLED_FIRST));
    DiscardedAppends(swept + note, RefuseAll(g.deferred, DISABLED_FIRST));
  }

  lemma {:induction false} CallDiscards(w: World, step: Step)
    requires Next(w, step).Some?
    ensures DroppedIn(Next(w, step).value.stdinEnded) == DroppedIn(w.stdinEnded) + DiscardedIn(Printed(w, step))
  {
    AllDroppedCounted(w.gate.heldStdin);
    DroppedAppends(w.stdinEnded, AllDropped(w.gate.heldStdin));
    match step
    case DoPoll(now, answers) => PollDiscardsNothing(w.gate, now, answers);
    case DoCancel => CancelDiscards(w.gate);
    case DoEnd(abort) => PreflightDiscards(w.gate, abort);
    case DoSubmit(kind, now, outcome) => NoneDiscarded(Printed(w, step));
    case DoCancelArms(reason) =>
      RefusalsEndAll(w.gate.deferred, reason);
      ArmsDiscardNothing(RefuseAll(w.gate.deferred, reason));
    case DoTakeStdin =>
      if w.gate.preflight.None? && w.gate.heldStdin != [] {
        DroppedAppends(w.stdinEnded, [Ran(w.gate.heldStdin[0])]);
        assert [Ran(w.gate.heldStdin[0])][..0] == [];
      }
    case DoBeginEnable(_, _, _) => NoneDiscarded(Printed(w, step));
    case _ =>
  }

  /** In every run the discarded stdin commands that are announced are exactly those that were dropped. */
  lemma {:induction false} DiscardsAreTold(steps: seq<Step>)
    requires Run(steps).Some?
    ensures DiscardedIn(HistoryOf(steps).lines) == DroppedIn(Run(steps).value.stdinEnded)
  {
    if steps != [] {
      var front, step := steps[..|steps| - 1], steps[|steps| - 1];
      DiscardsAreTold(front);
      CallDiscards(Run(front).value, step);
      DiscardedAppends(HistoryOf(front).lines, Printed(Run(front).value, step));
    }
  }
}
