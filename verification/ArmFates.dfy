/**
  How each Position-mode arm ended, against how its attempts went and which call
  ended it, over every sequence of calls on the gate.
 */
module ArmFates {
  import opened Basics
  import opened EnableGate

  /** An attempt at the arm with this arrival number, and when it was made. */
  datatype Try = Try(arrival: nat, outcome: ArmOutcome, at: int)

  /** The call that ended an arm, and the Enable that was pending when it was made. */
  datatype Ender = Ender(call: Step, enable: Option<PendingEnable>)

  /** What happened to the arms so far: all attempts, what ended the ended ones, and when each was submitted. */
  datatype Record = Record(tries: seq<Try>, enders: seq<Ender>, submitted: seq<int>)

  /** The attempts one call makes. */
  function AttemptsOf(w: World, step: Step): seq<Attempt> {
    match step
    case DoSubmit(kind, now, outcome) => SubmitEffect(w.gate, Command(kind, w.submitted), now, outcome).attempts
    case DoPoll(now, answers) => PollEffect(w.gate, now, answers).attempts
    case _ => []
  }

  function TimeOf(step: Step): int {
    match step
    case DoSubmit(_, now, _) => now
    case DoPoll(now, _) => now
    case DoBeginEnable(_, _, now) => now
    case _ => 0
  }

  function TriesAt(attempts: seq<Attempt>, now: int): seq<Try> {
    seq(|attempts|, i requires 0 <= i < |attempts| => Try(attempts[i].cmd.arrival, attempts[i].outcome, now))
  }

  function Repeated(ender: Ender, n: nat): seq<Ender> {
    seq(n, i => ender)
  }

  function Extend(r: Record, w: World, step: Step): Record
    requires Next(w, step).Some?
  {
    var ended := |Next(w, step).value.ended|;
    Record(r.tries + TriesAt(AttemptsOf(w, step), TimeOf(step)),
           r.enders + Repeated(Ender(step, w.gate.enable), if ended < |w.ended| then 0 else ended - |w.ended|),
           r.submitted + if step.DoSubmit? then [step.now] else [])
  }

  function RecordOf(steps: seq<Step>): Record
    requires Run(steps).Some?
  {
    if steps == [] then Record([], [], [])
    else
      var front := steps[..|steps| - 1];
      Extend(RecordOf(front), Run(front).value, steps[|steps| - 1])
  }

  /** The last attempt at an arm. */
  function LastTry(tries: seq<Try>, arrival: nat): (last: Option<Try>)
    ensures last.Some? ==> last.value in tries && last.value.arrival == arrival
    ensures last.None? ==> forall t | t in tries :: t.arrival != arrival
  {
    if tries == [] then None
    else if tries[|tries| - 1].arrival == arrival then Some(tries[|tries| - 1])
    else LastTry(tries[..|tries| - 1], arrival)
  }

  // ----- What an ended or a waiting arm must show

  /** The line agrees with the attempt that ended the arm, made at `at`. */
  predicate AttemptTells(line: Line, outcome: ArmOutcome, at: int, submitted: int) {
    match outcome
    case Armed => line.ArmDone?
    case Failed(error) => line.ArmFailed? && line.why == ArmError(error)
    case EnableIncomplete => line.ArmFailed? && line.why == NoCompletionInTime && at >= submitted + 2000
  }

  /** The call refuses every waiting arm for `reason`: a Disable, a cancel of the arms, or a poll whose Enable failed. */
  predicate Refuses(ender: Ender, reason: string) {
    match ender.call
    case DoCancel => reason == "disabled before enable completed"
    case DoCancelArms(why) => reason == why
    case DoPoll(now, answers) =>
      && reason == "enable did not complete" && ender.enable.Some? && !answers.completed
      && (answers.lost || ender.enable.value.deadline <= now)
    case _ => false
  }

  /** An arm that has only ever been told to wait, and not past its time. */
  predicate OnlyWaited(last: Option<Try>, submitted: int) {
    last.Some? ==> last.value.outcome == EnableIncomplete && last.value.at < submitted + 2000
  }

  /** How an arm ended: by its last attempt, in the call that made it, or refused while it waited. */
  predicate EndTells(line: Line, last: Option<Try>, ender: Ender, submitted: int) {
    if line.ArmFailed? && line.why.Cancelled? then
      OnlyWaited(last, submitted) && Refuses(ender, line.why.reason)
    else
      && last.Some? && AttemptTells(line, last.value.outcome, last.value.at, submitted)
      && (ender.call.DoPoll? || ender.call.DoSubmit?) && TimeOf(ender.call) == last.value.at
      && (ender.enable.Some? ==> ender.call.DoPoll? && ender.call.answers.completed)
  }

  /** The k-th ended arm tells how it ended. */
  ghost predicate EndedTells(ended: seq<Line>, r: Record, k: int) {
    && 0 <= k < |ended| && k < |r.enders| && k < |r.submitted|
    && EndTells(ended[k], LastTry(r.tries, k), r.enders[k], r.submitted[k])
  }

  /** The j-th waiting arm, `first + j` by arrival, has its deadline and was at most told to wait. */
  ghost predicate WaitingTells(deferred: seq<DeferredArm>, r: Record, first: nat, j: int) {
    && 0 <= j < |deferred| && first + j < |r.submitted|
    && deferred[j].cmd.arrival == first + j && deferred[j].deadline == r.submitted[first + j] + 2000
    && OnlyWaited(LastTry(r.tries, first + j), r.submitted[first + j])
  }

  ghost predicate Told(w: World, r: Record) {
    && |w.ended| + |w.gate.deferred| == w.submitted
    && |r.submitted| == w.submitted && |r.enders| == |w.ended|
    && (forall t | t in r.tries :: t.arrival < w.submitted)
    && (forall k | 0 <= k < |w.ended| :: EndedTells(w.ended, r, k))
    && forall j | 0 <= j < |w.gate.deferred| :: WaitingTells(w.gate.deferred, r, |w.ended|, j)
  }

  // ----- Attempts appended in order

  lemma {:induction false} LastTryAppends(tries: seq<Try>, more: seq<Try>, arrival: nat)
    ensures LastTry(tries + more, arrival)
            == if LastTry(more, arrival).Some? then LastTry(more, arrival) else LastTry(tries, arrival)
  {
    if more == [] {
      assert tries + more == tries;
    } else {
      assert (tries + more)[..|tries + more| - 1] == tries + more[..|more| - 1];
      LastTryAppends(tries, more[..|more| - 1], arrival);
    }
  }

  /** Attempts at consecutive arms from `first` on: one each. */
  lemma {:induction false} LastOfConsecutive(more: seq<Try>, first: nat, arrival: nat)
    requires forall i | 0 <= i < |more| :: more[i].arrival == first + i
    ensures LastTry(more, arrival)
            == if first <= arrival < first + |more| then Some(more[arrival - first]) else None
  {
    if more != [] {
      LastOfConsecutive(more[..|more| - 1], first, arrival);
    }
  }

  // ----- One retry

  /** The i-th line of a retry tells how the i-th attempt went. */
  ghost predicate RetryLine(deferred: seq<DeferredArm>, now: int, r: Retried, i: int) {
    && 0 <= i < |r.lines| && i < |r.attempts| && i < |deferred|
    && EndsArm(r.lines[i]) && !(r.lines[i].ArmFailed? && r.lines[i].why.Cancelled?)
    && AttemptTells(r.lines[i], r.attempts[i].outcome, now, deferred[i].deadline - 2000)
  }

  ghost predicate RetryTry(deferred: seq<DeferredArm>, now: int, r: Retried, i: int) {
    && 0 <= i < |r.attempts| && i < |deferred| && r.attempts[i].cmd == deferred[i].cmd
    && (i >= |r.lines| ==> r.attempts[i].outcome == EnableIncomplete && now < deferred[i].deadline)
  }

  /** Attempts go to the front arms in order; each but a last one that must wait ends its arm with a line that tells how it went. */
  lemma {:induction false} RetryTells(deferred: seq<DeferredArm>, now: int, attempt: nat -> ArmOutcome, n: nat)
    ensures var r := Retry(deferred, now, attempt, n);
            && |r.lines| <= |r.attempts| <= |deferred| && r.left == deferred[|r.lines|..]
            && (forall i | 0 <= i < |r.attempts| :: RetryTry(deferred, now, r, i))
            && (forall i | 0 <= i < |r.lines| :: RetryLine(deferred, now, r, i))
  {
    var r := Retry(deferred, now, attempt, n);
    if deferred != [] && EndLine(deferred[0], now, attempt(n)).Some? {
      RetryTells(deferred[1..], now, attempt, n + 1);
      var rest := Retry(deferred[1..], now, attempt, n + 1);
      assert deferred[1..][|rest.lines|..] == deferred[|r.lines|..];
      forall i | 0 <= i < |r.attempts| ensures RetryTry(deferred, now, r, i) {
        assert i > 0 ==> RetryTry(deferred[1..], now, rest, i - 1);
      }
      forall i | 0 <= i < |r.lines| ensures RetryLine(deferred, now, r, i) {
        assert i > 0 ==> RetryLine(deferred[1..], now, rest, i - 1);
      }
    }
  }

  // ----- One call

  /** The i-th line of a call ends the i-th waiting arm: refused, or by the call's attempt at it. */
  ghost predicate LineTells(g: Gate, step: Step, attempts: seq<Attempt>, lines: seq<Line>, i: int) {
    && 0 <= i < |lines| <= |g.deferred|
    && if lines[i].ArmFailed? && lines[i].why.Cancelled? then
         attempts == [] && Refuses(Ender(step, g.enable), lines[i].why.reason)
       else
         && i < |attempts| && AttemptTells(lines[i], attempts[i].outcome, TimeOf(step), g.deferred[i].deadline - 2000)
         && step.DoPoll? && (g.enable.Some? ==> step.answers.completed)
  }

  /** The i-th attempt of a call is at the i-th waiting arm; one that ends no arm was told to wait. */
  ghost predicate TryTells(g: Gate, step: Step, attempts: seq<Attempt>, ended: nat, i: int) {
    && 0 <= i < |attempts| <= |g.deferred| && attempts[i].cmd == g.deferred[i].cmd
    && (i >= ended ==> attempts[i].outcome == EnableIncomplete && TimeOf(step) < g.deferred[i].deadline)
  }

  /** What one call does to the arms: attempts at the front ones, and the front ones end. */
  ghost predicate CallTells(w: World, w': World, step: Step, attempts: seq<Attempt>, lines: seq<Line>) {
    var deferred := w.gate.deferred;
    && w'.submitted == w.submitted && w'.ended == w.ended + lines
    && |lines| <= |deferred| && w'.gate.deferred == deferred[|lines|..] && |attempts| <= |deferred|
    && (forall i | 0 <= i < |attempts| :: TryTells(w.gate, step, attempts, |lines|, i))
    && forall i | 0 <= i < |lines| :: LineTells(w.gate, step, attempts, lines, i)
  }

  /** A call that refuses every waiting arm. */
  lemma {:induction false} RefusalTells(w: World, w': World, step: Step, reason: string)
    requires w'.submitted == w.submitted && w'.ended == w.ended + RefuseAll(w.gate.deferred, reason) && w'.gate.deferred == []
    requires Refuses(Ender(step, w.gate.enable), reason)
    ensures CallTells(w, w', step, [], RefuseAll(w.gate.deferred, reason))
  {
  }

  /** A call that leaves every arm alone. */
  lemma {:induction false} QuietTells(w: World, w': World, step: Step)
    requires w'.submitted == w.submitted && w'.ended == w.ended && w'.gate.deferred == w.gate.deferred
    ensures CallTells(w, w', step, [], [])
  {
    assert w.ended + [] == w.ended && w.gate.deferred[0..] == w.gate.deferred;
  }

  lemma {:induction false} PollPart(w: World, step: Step)
    requires step.DoPoll? && Next(w, step).Some?
    ensures var w', e := Next(w, step).value, PollEffect(w.gate, step.now, step.answers);
            && w'.submitted == w.submitted && w'.ended == w.ended + Endings(e.lines) && w'.gate == e.gate
            && AttemptsOf(w, step) == e.attempts
  {
  }

  lemma {:induction false} FailedPollEndings(g: Gate, now: int, answers: Answers)
    requires EnableFails(g, now, answers)
    ensures Endings(PollEffect(g, now, answers).lines) == RefuseAll(g.deferred, ENABLE_DID_NOT_COMPLETE)
  {
    var head := [EnableFailed(answers.lost, answers.stopDelivered)];
    RefusalsEndAll(g.deferred, ENABLE_DID_NOT_COMPLETE);
    EndingsAppend(head, RefuseAll(g.deferred, ENABLE_DID_NOT_COMPLETE));
    NoEndings(head);
  }

  lemma {:induction false} FailedPollTells(w: World, step: Step)
    requires step.DoPoll? && Next(w, step).Some? && EnableFails(w.gate, step.now, step.answers)
    ensures CallTells(w, Next(w, step).value, step, AttemptsOf(w, step), RefuseAll(w.gate.deferred, ENABLE_DID_NOT_COMPLETE))
  {
    PollPart(w, step);
    FailedPollEndings(w.gate, step.now, step.answers);
    RefusalTells(w, Next(w, step).value, step, ENABLE_DID_NOT_COMPLETE);
  }

  lemma {:induction false} RetryLinesOnly(g: Gate, now: int, answers: Answers)
    requires !EnableWaits(g, now, answers) && !EnableFails(g, now, answers)
    ensures Endings(PollEffect(g, now, answers).lines) == Retry(g.deferred, now, answers.attempt, 0).lines
  {
    var report := if g.enable.Some? then [Enabled(g.enable.value.operator, g.enable.value.targets)] else [];
    var lines := Retry(g.deferred, now, answers.attempt, 0).lines;
    RetryEndsPrefix(g.deferred, now, answers.attempt, 0);
    EndingsOfEndings(lines);
    EndingsAppend(report, lines);
    NoEndings(report);
  }

  lemma {:induction false} RetryingPollTells(w: World, step: Step)
    requires step.DoPoll? && Next(w, step).Some?
    requires !EnableWaits(w.gate, step.now, step.answers) && !EnableFails(w.gate, step.now, step.answers)
    ensures CallTells(w, Next(w, step).value, step, AttemptsOf(w, step),
                      Retry(w.gate.deferred, step.now, step.answers.attempt, 0).lines)
  {
    PollPart(w, step);
    RetryLinesOnly(w.gate, step.now, step.answers);
    RetryTells(w.gate.deferred, step.now, step.answers.attempt, 0);
    var r := Retry(w.gate.deferred, step.now, step.answers.attempt, 0);
    forall i | 0 <= i < |r.attempts| ensures TryTells(w.gate, step, r.attempts, |r.lines|, i) {
      assert RetryTry(w.gate.deferred, step.now, r, i);
    }
    forall i | 0 <= i < |r.lines| ensures LineTells(w.gate, step, r.attempts, r.lines, i) {
      assert RetryLine(w.gate.deferred, step.now, r, i);
    }
  }

  lemma {:induction false} PollTells(w: World, step: Step)
    requires step.DoPoll? && Next(w, step).Some?
    ensures exists lines :: CallTells(w, Next(w, step).value, step, AttemptsOf(w, step), lines)
  {
    if EnableWaits(w.gate, step.now, step.answers) {
      PollPart(w, step);
      QuietTells(w, Next(w, step).value, step);
    } else if EnableFails(w.gate, step.now, step.answers) {
      FailedPollTells(w, step);
    } else {
      RetryingPollTells(w, step);
    }
  }

  lemma {:induction false} CancelEndings(g: Gate)
    ensures Endings(CancelEffect(g).1) == RefuseAll(g.deferred, DISABLED_FIRST)
  {
    var refused := RefuseAll(g.deferred, DISABLED_FIRST);
    var head := EndPreflight(g, Some(Disabled)).1;
    var note := if g.enable.Some? then [EnableCancelled] else [];
    RefusalsEndAll(g.deferred, DISABLED_FIRST);
    EndPreflightEndsNoArm(g, Some(Disabled));
    EndingsAppend(head, note);
    EndingsAppend(head + note, refused);
    NoEndings(note);
  }

  lemma {:induction false} CancelTells(w: World)
    ensures Next(w, DoCancel).Some?
    ensures CallTells(w, Next(w, DoCancel).value, DoCancel, [], RefuseAll(w.gate.deferred, DISABLED_FIRST))
  {
    CancelEndings(w.gate);
    CancelPart(w);
    RefusalTells(w, Next(w, DoCancel).value, DoCancel, DISABLED_FIRST);
  }

  lemma {:induction false} CancelPart(w: World)
    ensures Next(w, DoCancel).Some?
    ensures var w', e := Next(w, DoCancel).value, CancelEffect(w.gate);
            w'.submitted == w.submitted && w'.ended == w.ended + Endings(e.1) && w'.gate.deferred == []
  {
  }

  lemma {:induction false} CancelArmsTells(w: World, reason: string)
    ensures Next(w, DoCancelArms(reason)).Some?
    ensures CallTells(w, Next(w, DoCancelArms(reason)).value, DoCancelArms(reason), [], RefuseAll(w.gate.deferred, reason))
  {
    RefusalsEndAll(w.gate.deferred, reason);
    RefusalTells(w, Next(w, DoCancelArms(reason)).value, DoCancelArms(reason), reason);
  }

  lemma {:induction false} OtherPart(w: World, step: Step)
    requires !step.DoPoll? && !step.DoCancel? && !step.DoCancelArms? && !step.DoSubmit? && Next(w, step).Some?
    ensures var w' := Next(w, step).value;
            && w'.submitted == w.submitted && w'.ended == w.ended && w'.gate.deferred == w.gate.deferred
            && AttemptsOf(w, step) == []
  {
    if step.DoEnd? {
      EndPreflightEndsNoArm(w.gate, step.abort);
      assert w.ended + [] == w.ended;
    }
  }

  lemma {:induction false} OtherTells(w: World, step: Step)
    requires !step.DoPoll? && !step.DoCancel? && !step.DoCancelArms? && !step.DoSubmit? && Next(w, step).Some?
    ensures CallTells(w, Next(w, step).value, step, AttemptsOf(w, step), [])
  {
    OtherPart(w, step);
    QuietTells(w, Next(w, step).value, step);
  }

  // ----- What the record says after one more call

  /** The attempts of one call, at arms that were waiting. */
  lemma {:induction false} TriesAreConsecutive(w: World, r: Record, w': World, step: Step, attempts: seq<Attempt>, lines: seq<Line>,
      k: nat)
    requires Told(w, r) && CallTells(w, w', step, attempts, lines)
    ensures LastTry(r.tries + TriesAt(attempts, TimeOf(step)), k)
            == if |w.ended| <= k < |w.ended| + |attempts| then Some(Try(k, attempts[k - |w.ended|].outcome, TimeOf(step)))
               else LastTry(r.tries, k)
  {
    var more := TriesAt(attempts, TimeOf(step));
    forall i | 0 <= i < |more| ensures more[i].arrival == |w.ended| + i {
      assert TryTells(w.gate, step, attempts, |lines|, i) && WaitingTells(w.gate.deferred, r, |w.ended|, i);
    }
    LastOfConsecutive(more, |w.ended|, k);
    LastTryAppends(r.tries, more, k);
  }

  /** The record after the call. */
  function Noted(r: Record, step: Step, enable: Option<PendingEnable>, attempts: seq<Attempt>, n: nat): Record {
    Record(r.tries + TriesAt(attempts, TimeOf(step)), r.enders + Repeated(Ender(step, enable), n), r.submitted)
  }

  lemma {:induction false} CallKeepsEnded(w: World, r: Record, w': World, step: Step, attempts: seq<Attempt>, lines: seq<Line>, k: nat)
    requires Told(w, r) && CallTells(w, w', step, attempts, lines) && k < |w'.ended|
    ensures EndedTells(w'.ended, Noted(r, step, w.gate.enable, attempts, |lines|), k)
  {
    TriesAreConsecutive(w, r, w', step, attempts, lines, k);
    if k < |w.ended| {
      assert EndedTells(w.ended, r, k);
    } else {
      var i := k - |w.ended|;
      assert WaitingTells(w.gate.deferred, r, |w.ended|, i) && LineTells(w.gate, step, attempts, lines, i);
    }
  }

  lemma {:induction false} CallKeepsWaiting(w: World, r: Record, w': World, step: Step, attempts: seq<Attempt>, lines: seq<Line>, j: nat)
    requires Told(w, r) && CallTells(w, w', step, attempts, lines) && j < |w'.gate.deferred|
    ensures WaitingTells(w'.gate.deferred, Noted(r, step, w.gate.enable, attempts, |lines|), |w'.ended|, j)
  {
    var i := |lines| + j;
    assert WaitingTells(w.gate.deferred, r, |w.ended|, i);
    TriesAreConsecutive(w, r, w', step, attempts, lines, |w.ended| + i);
    if i < |attempts| {
      assert TryTells(w.gate, step, attempts, |lines|, i);
    }
  }

  lemma {:induction false} CallIsNoted(w: World, r: Record, w': World, step: Step, attempts: seq<Attempt>, lines: seq<Line>)
    requires Told(w, r) && CallTells(w, w', step, attempts, lines)
    ensures Told(w', Noted(r, step, w.gate.enable, attempts, |lines|))
  {
    var r' := Noted(r, step, w.gate.enable, attempts, |lines|);
    forall k | 0 <= k < |w'.ended| ensures EndedTells(w'.ended, r', k) {
      CallKeepsEnded(w, r, w', step, attempts, lines, k);
    }
    forall j | 0 <= j < |w'.gate.deferred| ensures WaitingTells(w'.gate.deferred, r', |w'.ended|, j) {
      CallKeepsWaiting(w, r, w', step, attempts, lines, j);
    }
    forall t | t in r'.tries ensures t.arrival < w'.submitted {
      if t !in r.tries {
        var i :| 0 <= i < |attempts| && t == TriesAt(attempts, TimeOf(step))[i];
        assert TryTells(w.gate, step, attempts, |lines|, i) && WaitingTells(w.gate.deferred, r, |w.ended|, i);
      }
    }
  }

  lemma {:induction false} CallKeepsTold(w: World, r: Record, step: Step)
    requires Told(w, r) && Next(w, step).Some? && !step.DoSubmit?
    ensures Told(Next(w, step).value, Extend(r, w, step))
  {
    var w', r', attempts := Next(w, step).value, Extend(r, w, step), AttemptsOf(w, step);
    if step.DoPoll? {
      PollTells(w, step);
    } else if step.DoCancel? {
      CancelTells(w);
    } else if step.DoCancelArms? {
      CancelArmsTells(w, step.reason);
    } else {
      OtherTells(w, step);
    }
    var lines :| CallTells(w, w', step, attempts, lines);
    CallIsNoted(w, r, w', step, attempts, lines);
    assert r' == Noted(r, step, w.gate.enable, attempts, |lines|);
  }

  // ----- A submitted arm

  /** A submitted arm is attempted at once, and then ends or waits, or joins those that wait. */
  lemma {:induction false} SubmitTells(w: World, step: Step)
    requires step.DoSubmit? && Next(w, step).Some?
    ensures var w', cmd, attempts := Next(w, step).value, Command(step.kind, w.submitted), AttemptsOf(w, step);
            && w'.submitted == w.submitted + 1
            && (w.gate.enable.Some? || w.gate.deferred != [] <==> attempts == [])
            && (attempts != [] ==> attempts == [Attempt(cmd, step.outcome)])
            && if attempts != [] && step.outcome != EnableIncomplete then
                 && w'.gate.deferred == w.gate.deferred && |w'.ended| == |w.ended| + 1 && w'.ended[..|w.ended|] == w.ended
                 && AttemptTells(w'.ended[|w.ended|], step.outcome, step.now, step.now)
                 && !(w'.ended[|w.ended|].ArmFailed? && w'.ended[|w.ended|].why.Cancelled?)
               else w'.ended == w.ended && w'.gate.deferred == w.gate.deferred + [DeferredArm(cmd, step.now + 2000)]
  {
    var cmd := Command(step.kind, w.submitted);
    var e := SubmitEffect(w.gate, cmd, step.now, step.outcome);
    if e.gate.deferred == w.gate.deferred {
      EndingsOfEndings(e.lines);
    } else {
      NoEndings(e.lines);
    }
  }

  /** The new arm's attempt, if any, is the last at it; the others' are as before. */
  lemma {:induction false} SubmitTries(w: World, r: Record, step: Step, m: nat)
    requires Told(w, r) && step.DoSubmit? && Next(w, step).Some?
    ensures LastTry(Extend(r, w, step).tries, m)
            == if m != w.submitted then LastTry(r.tries, m)
               else if AttemptsOf(w, step) == [] then None else Some(Try(m, step.outcome, step.now))
  {
    SubmitTells(w, step);
    var more := TriesAt(AttemptsOf(w, step), step.now);
    LastOfConsecutive(more, w.submitted, m);
    LastTryAppends(r.tries, more, m);
  }

  lemma {:induction false} SubmitKeepsEnded(w: World, r: Record, step: Step, k: nat)
    requires Told(w, r) && step.DoSubmit? && Next(w, step).Some? && k < |Next(w, step).value.ended|
    ensures EndedTells(Next(w, step).value.ended, Extend(r, w, step), k)
  {
    SubmitTells(w, step);
    SubmitTries(w, r, step, k);
    var w', r' := Next(w, step).value, Extend(r, w, step);
    if k < |w.ended| {
      assert EndedTells(w.ended, r, k);
      assert w'.ended[..|w.ended|] == w.ended && r'.enders[k] == r.enders[k] && r'.submitted[k] == r.submitted[k];
    } else {
      assert w.gate.deferred == [] && r'.enders[k] == Ender(step, w.gate.enable);
    }
  }

  lemma {:induction false} SubmitKeepsWaiting(w: World, r: Record, step: Step, j: nat)
    requires Told(w, r) && step.DoSubmit? && Next(w, step).Some? && j < |Next(w, step).value.gate.deferred|
    ensures WaitingTells(Next(w, step).value.gate.deferred, Extend(r, w, step), |Next(w, step).value.ended|, j)
  {
    SubmitTells(w, step);
    if j < |w.gate.deferred| {
      OldWaits(w, r, step, j);
    } else {
      NewWaits(w, r, step);
    }
  }

  lemma {:induction false} SubmitBehind(w: World, r: Record, step: Step)
    requires step.DoSubmit? && Next(w, step).Some? && w.gate.deferred != []
    ensures Next(w, step).value.ended == w.ended && w.gate.deferred <= Next(w, step).value.gate.deferred
    ensures r.submitted <= Extend(r, w, step).submitted
  {
    SubmitTells(w, step);
  }

  lemma {:induction false} OldWaits(w: World, r: Record, step: Step, j: nat)
    requires Told(w, r) && step.DoSubmit? && Next(w, step).Some? && j < |w.gate.deferred|
    ensures WaitingTells(Next(w, step).value.gate.deferred, Extend(r, w, step), |Next(w, step).value.ended|, j)
  {
    SubmitBehind(w, r, step);
    assert WaitingTells(w.gate.deferred, r, |w.ended|, j);
    SubmitTries(w, r, step, |w.ended| + j);
    StillWaits(w.gate.deferred, Next(w, step).value.gate.deferred, r, Extend(r, w, step), |w.ended|, j);
  }

  lemma {:induction false} StillWaits(deferred: seq<DeferredArm>, deferred': seq<DeferredArm>, r: Record, r': Record, first: nat, j: nat)
    requires WaitingTells(deferred, r, first, j) && deferred <= deferred' && r.submitted <= r'.submitted
    requires LastTry(r'.tries, first + j) == LastTry(r.tries, first + j)
    ensures WaitingTells(deferred', r', first, j)
  {
  }

  lemma {:induction false} NewWaits(w: World, r: Record, step: Step)
    requires Told(w, r) && step.DoSubmit? && Next(w, step).Some?
    requires |Next(w, step).value.gate.deferred| > |w.gate.deferred|
    ensures WaitingTells(Next(w, step).value.gate.deferred, Extend(r, w, step), |Next(w, step).value.ended|, |w.gate.deferred|)
  {
    SubmitTells(w, step);
    SubmitTries(w, r, step, w.submitted);
    assert Extend(r, w, step).submitted[w.submitted] == step.now;
  }

  lemma {:induction false} SubmitKeepsTold(w: World, r: Record, step: Step)
    requires Told(w, r) && step.DoSubmit? && Next(w, step).Some?
    ensures Told(Next(w, step).value, Extend(r, w, step))
  {
    SubmitTells(w, step);
    var w', r' := Next(w, step).value, Extend(r, w, step);
    forall k | 0 <= k < |w'.ended| ensures EndedTells(w'.ended, r', k) {
      SubmitKeepsEnded(w, r, step, k);
    }
    forall j | 0 <= j < |w'.gate.deferred| ensures WaitingTells(w'.gate.deferred, r', |w'.ended|, j) {
      SubmitKeepsWaiting(w, r, step, j);
    }
  }

  // ----- All runs

  lemma {:induction false} EveryRunTells(steps: seq<Step>)
    requires Run(steps).Some?
    ensures Told(Run(steps).value, RecordOf(steps))
  {
    if steps != [] {
      var front, step := steps[..|steps| - 1], steps[|steps| - 1];
      EveryRunTells(front);
      if step.DoSubmit? {
        SubmitKeepsTold(Run(front).value, RecordOf(front), step);
      } else {
        CallKeepsTold(Run(front).value, RecordOf(front), step);
      }
    }
  }

  /**
    In every run each ended arm's line tells how its last attempt went: done if
    and only if that was armed, an error if and only if it failed with that error,
    no completion in time if and only if the Enable was still incomplete 2000 ms
    or more after the submission; and an arm is cancelled only by a Disable, a
    cancel of the arms, or a poll whose pending Enable was lost or overdue. An arm
    that still waits was at most told to wait.
   */
  lemma {:induction false} ArmsEndAsAttempted(steps: seq<Step>, k: nat)
    requires Run(steps).Some? && k < Run(steps).value.submitted
    ensures var w, r := Run(steps).value, RecordOf(steps);
            && |r.enders| == |w.ended| && |r.submitted| == w.submitted
            && var last := LastTry(r.tries, k);
               && (last.Some? && last.value.outcome == Armed <==> k < |w.ended| && w.ended[k].ArmDone?)
               && (forall error :: last.Some? && last.value.outcome == Failed(error) <==>
                                   k < |w.ended| && w.ended[k].ArmFailed? && w.ended[k].why == ArmError(error))
               && (last.Some? && last.value.outcome == EnableIncomplete && last.value.at >= r.submitted[k] + 2000 <==>
                   k < |w.ended| && w.ended[k].ArmFailed? && w.ended[k].why == NoCompletionInTime)
               && (k < |w.ended| && w.ended[k].ArmFailed? && w.ended[k].why.Cancelled? ==>
                     Refuses(r.enders[k], w.ended[k].why.reason))
  {
    EveryRunTells(steps);
    EveryRunIsOrderly(steps);
    ArmTold(Run(steps).value, RecordOf(steps), k);
  }

  lemma {:induction false} ArmTold(w: World, r: Record, k: nat)
    requires Told(w, r) && AllEndArms(w.ended) && k < w.submitted
    ensures var last := LastTry(r.tries, k);
            && (last.Some? && last.value.outcome == Armed <==> k < |w.ended| && w.ended[k].ArmDone?)
            && (forall error :: last.Some? && last.value.outcome == Failed(error) <==>
                                k < |w.ended| && w.ended[k].ArmFailed? && w.ended[k].why == ArmError(error))
            && (last.Some? && last.value.outcome == EnableIncomplete && last.value.at >= r.submitted[k] + 2000 <==>
                k < |w.ended| && w.ended[k].ArmFailed? && w.ended[k].why == NoCompletionInTime)
            && (k < |w.ended| && w.ended[k].ArmFailed? && w.ended[k].why.Cancelled? ==>
                  Refuses(r.enders[k], w.ended[k].why.reason))
  {
    if k < |w.ended| {
      assert EndedTells(w.ended, r, k);
    } else {
      assert WaitingTells(w.gate.deferred, r, |w.ended|, k - |w.ended|);
    }
  }

  // ----- How far a poll goes

  /** The i-th attempt takes the loop's i-th answer. */
  ghost predicate TakesAnswer(attempts: seq<Attempt>, attempt: nat -> ArmOutcome, n: nat, i: nat) {
    i < |attempts| && attempts[i].outcome == attempt(n + i)
  }

  lemma {:induction false} RetryTakesAnswers(deferred: seq<DeferredArm>, now: int, attempt: nat -> ArmOutcome, n: nat, i: nat)
    requires i < |Retry(deferred, now, attempt, n).attempts|
    ensures TakesAnswer(Retry(deferred, now, attempt, n).attempts, attempt, n, i)
  {
    if i > 0 {
      RetryTakesAnswers(deferred[1..], now, attempt, n + 1, i - 1);
    }
  }

  lemma {:induction false} RetryGoesOn(deferred: seq<DeferredArm>, now: int, attempt: nat -> ArmOutcome, n: nat)
    ensures var r := Retry(deferred, now, attempt, n); r.left != [] ==> |r.attempts| == |r.lines| + 1
  {
    if deferred != [] && EndLine(deferred[0], now, attempt(n)).Some? {
      RetryGoesOn(deferred[1..], now, attempt, n + 1);
    }
  }

  /** The last attempt was at the first arm that still waits, found the Enable incomplete, and left it time. */
  ghost predicate StoppedToWait(left: seq<DeferredArm>, attempts: seq<Attempt>, now: int) {
    && left != [] && attempts != [] && attempts[|attempts| - 1].cmd == left[0].cmd
    && attempts[|attempts| - 1].outcome == EnableIncomplete && now < left[0].deadline
  }

  lemma {:induction false} RetryStops(deferred: seq<DeferredArm>, now: int, r: Retried)
    requires |r.lines| <= |r.attempts| <= |deferred| && r.left == deferred[|r.lines|..]
    requires r.left != [] && |r.attempts| == |r.lines| + 1 && RetryTry(deferred, now, r, |r.lines|)
    ensures StoppedToWait(r.left, r.attempts, now)
  {
  }

  /**
    A poll attempts no arm while the Enable is pending and incomplete. Otherwise
    it attempts the waiting arms one after another, taking the loop's answers in
    order, and stops only at an arm that is told to wait: if any arm still waits
    afterwards, the first of them was attempted in this very poll, found the
    Enable incomplete, and has time left.
   */
  lemma {:induction false} PollGoesOnUntilToldToWait(g: Gate, now: int, answers: Answers)
    ensures var e := PollEffect(g, now, answers);
            if g.enable.Some? && !answers.completed then e.attempts == []
            else
              && (forall i: nat | i < |e.attempts| ::
                    i < |g.deferred| && e.attempts[i].cmd == g.deferred[i].cmd && TakesAnswer(e.attempts, answers.attempt, 0, i))
              && (e.gate.deferred == [] || StoppedToWait(e.gate.deferred, e.attempts, now))
  {
    if !(g.enable.Some? && !answers.completed) {
      var r := Retry(g.deferred, now, answers.attempt, 0);
      RetryTells(g.deferred, now, answers.attempt, 0);
      forall i: nat | i < |r.attempts|
        ensures i < |g.deferred| && r.attempts[i].cmd == g.deferred[i].cmd && TakesAnswer(r.attempts, answers.attempt, 0, i)
      {
        RetryTakesAnswers(g.deferred, now, answers.attempt, 0, i);
        assert RetryTry(g.deferred, now, r, i);
      }
      RetryGoesOn(g.deferred, now, answers.attempt, 0);
      if r.left != [] {
        RetryStops(g.deferred, now, r);
      }
    }
  }
}
