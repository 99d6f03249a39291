/**
  Where each accepted limit patch is, who it is, and what the counters mean: three
  of the invariants that every step of the persist queue keeps.
 */
module PersistOutcomes {
  import opened PersistQueue
  import opened PersistRuns

  // ----- Where each accepted limit patch is

  /** How often `session` occurs in `sessions`. */
  function Times(sessions: seq<string>, session: string): nat {
    if sessions == [] then 0
    else Times(sessions[..|sessions| - 1], session) + Count(sessions[|sessions| - 1] == session)
  }

  lemma {:induction false} TimesAppend(xs: seq<string>, ys: seq<string>, session: string)
    ensures Times(xs + ys, session) == Times(xs, session) + Times(ys, session)
  {
    if ys == [] {
      assert xs + ys == xs;
    } else {
      var front := ys[..|ys| - 1];
      assert (xs + ys)[..|xs + ys| - 1] == xs + front;
      TimesAppend(xs, front, session);
    }
  }

  /** Limit patches accepted for `session`. */
  function AcceptedTimes(accepted: seq<Request>, session: string): nat {
    if accepted == [] then 0
    else
      var last := accepted[|accepted| - 1];
      AcceptedTimes(accepted[..|accepted| - 1], session) + Count(IsPatch(last) && last.session == session)
  }

  predicate CompletesSession(attempt: Attempt, session: string) {
    attempt.event.action == PATCH_PERSIST && attempt.event.session == session
  }

  /** Limit-patch completions attempted for `session`. */
  function CompletedTimes(attempts: seq<Attempt>, session: string): nat {
    if attempts == [] then 0
    else
      CompletedTimes(attempts[..|attempts| - 1], session)
      + Count(CompletesSession(attempts[|attempts| - 1], session))
  }

  function WaitingTimes(slot: Slot, session: string): nat {
    Times(Sessions(slot.carried), session)
    + Count(slot.request.Some? && IsPatch(slot.request.value) && slot.request.value.session == session)
  }

  /** An accepted limit patch is waiting, in the worker's hands, completed, or lost to an unwinding worker. */
  ghost predicate Placement(s: System, session: string) {
    AcceptedTimes(s.accepted, session)
    == WaitingTimes(s.slot, session) + Times(Hands(s.worker), session)
       + CompletedTimes(s.attempts, session) + Times(s.lost, session)
  }

  lemma {:induction false} SessionsAppend(xs: seq<Carried>, ys: seq<Carried>)
    ensures Sessions(xs + ys) == Sessions(xs) + Sessions(ys)
  {
  }

  /** The pending patch moves to `carried`; the latest request keeps its own identity. */
  lemma {:induction false} CoalesceMovesSession(pending: Request, latest: Request)
    requires Coalesce(pending, latest).Ok?
    ensures Sessions(Coalesce(pending, latest).value.carried) == OwnSession(pending)
    ensures Coalesce(pending, latest).value.request.param == latest.param
    ensures Coalesce(pending, latest).value.request.session == latest.session
  {
  }

  lemma {:induction false} InstallKeepsSessions(slot: Slot, latest: Request, session: string)
    requires Install(slot, latest).Ok?
    ensures WaitingTimes(Install(slot, latest).value, session)
            == WaitingTimes(slot, session) + Count(IsPatch(latest) && latest.session == session)
  {
    if slot.request.Some? {
      var pending := slot.request.value;
      var merged := Coalesce(pending, latest).value;
      CoalesceMovesSession(pending, latest);
      SessionsAppend(slot.carried, merged.carried);
      TimesAppend(Sessions(slot.carried), OwnSession(pending), session);
    }
  }

  lemma {:induction false} PublishMovesSession(w: Worker, delivered: bool, session: string)
    requires w.AtPublish? && w.sent <= |w.carried|
    ensures Times(Hands(w), session)
            == Times(Hands(w.(sent := w.sent + 1, published := w.published && delivered)), session)
               + Count(CompletesSession(
                         Attempt(EventAt(w.request, w.carried, w.writeOk, w.revision, w.sent), delivered), session))
  {
    if w.sent < |w.carried| {
      var next := Hands(w.(sent := w.sent + 1, published := w.published && delivered));
      HandsSplit(w, next);
      TimesAppend([w.carried[w.sent].session], next, session);
    }
  }

  lemma {:induction false} HandsSplit(w: Worker, next: seq<string>)
    requires w.AtPublish? && w.sent < |w.carried|
    requires next == Hands(w.(sent := w.sent + 1)) || next == Hands(w.(sent := w.sent + 1, published := false))
    ensures Hands(w) == [w.carried[w.sent].session] + next
  {
    var tail := w.carried[w.sent + 1..];
    assert w.carried[w.sent..] == [w.carried[w.sent]] + tail;
    SessionsAppend([w.carried[w.sent]], tail);
    assert Sessions([w.carried[w.sent]]) == [w.carried[w.sent].session];
    assert next == Sessions(tail) + OwnSession(w.request);
  }

  lemma {:induction false} PlaceKeepsPlacement(s: System, session: string)
    requires Placement(s, session) && s.admitting.Some?
    ensures Placement(Placed(s), session)
  {
    if Install(s.slot, s.admitting.value).Ok? {
      InstallKeepsSessions(s.slot, s.admitting.value, session);
      assert Placed(s).accepted[..|s.accepted|] == s.accepted;
    }
  }

  /** Steps that touch neither the pending request nor the worker's hands nor what has happened. */
  predicate Quiet(step: Step) {
    !step.Place? && !IsWorkStep(step)
  }

  /** The worker unwound. */
  predicate CutShort(worker: Worker) {
    Exited(worker) && !worker.normally
  }

  predicate SameWork(s: System, s': System) {
    && s'.slot.request == s.slot.request && s'.slot.carried == s.slot.carried
    && s'.slot.failedWrites == s.slot.failedWrites
    && s'.slot.publicationFailures == s.slot.publicationFailures
    && (s'.worker == s.worker || (!Working(s.worker) && !Working(s'.worker)))
    && CutShort(s'.worker) == CutShort(s.worker)
    && s'.disk == s.disk && s'.intact == s.intact
    && s'.accepted == s.accepted && s'.taken == s.taken && s'.writes == s.writes
    && s'.attempts == s.attempts && s'.origins == s.origins && s'.lost == s.lost
  }

  lemma {:induction false} QuietStepIsQuiet(s: System, step: Step)
    requires Apply(s, step).Some? && Quiet(step)
    ensures SameWork(s, Apply(s, step).value)
  {
    if IsClientStep(step) {
      ClientStepIsQuiet(s, step);
    } else if step.Guard? {
      GuardIsQuiet(s);
    } else if step.Finish? {
      FinishIsQuiet(s);
    } else {
      IdleStepIsQuiet(s, step);
    }
  }

  lemma {:induction false} GuardIsQuiet(s: System)
    requires Apply(s, Guard).Some?
    ensures SameWork(s, Apply(s, Guard).value)
  {
  }

  lemma {:induction false} FinishIsQuiet(s: System)
    requires Apply(s, Finish).Some?
    ensures SameWork(s, Apply(s, Finish).value)
  {
  }

  lemma {:induction false} IdleStepIsQuiet(s: System, step: Step)
    requires Apply(s, step).Some? && Quiet(step) && !IsClientStep(step) && !step.Guard? && !step.Finish?
    ensures SameWork(s, Apply(s, step).value)
  {
  }

  lemma {:induction false} ClientStepIsQuiet(s: System, step: Step)
    requires Apply(s, step).Some? && IsClientStep(step)
    ensures SameWork(s, Apply(s, step).value)
  {
  }

  lemma {:induction false} SameWorkKeepsPlacement(s: System, s': System, session: string)
    requires Placement(s, session) && SameWork(s, s')
    ensures Placement(s', session)
  {
    assert WaitingTimes(s'.slot, session) == WaitingTimes(s.slot, session);
    assert Hands(s'.worker) == Hands(s.worker);
  }

  lemma {:induction false} TakeKeepsPlacement(s: System, session: string)
    requires Placement(s, session) && Apply(s, TakeWork).Some?
    ensures Placement(Apply(s, TakeWork).value, session)
  {
    if s.slot.request.Some? {
      TimesAppend(Sessions(s.slot.carried), OwnSession(s.slot.request.value), session);
      assert Sessions([]) == [];
      assert Times(Hands(s.worker), session) == 0;
    }
  }

  lemma {:induction false} WriteKeepsPlacement(s: System, step: Step, session: string)
    requires step.WriteWork? && Placement(s, session) && Apply(s, step).Some?
    ensures Placement(Apply(s, step).value, session)
  {
    HandsAfterWrite(s, step);
  }

  lemma {:induction false} HandsAfterWrite(s: System, step: Step)
    requires step.WriteWork? && Apply(s, step).Some?
    ensures Hands(Apply(s, step).value.worker) == Hands(s.worker)
  {
    assert s.worker.carried[0..] == s.worker.carried;
    assert s.worker.carried == [] ==> Hands(s.worker) == OwnSession(s.worker.request);
  }

  lemma {:induction false} PublishKeepsPlacement(s: System, delivered: bool, session: string)
    requires Placement(s, session) && Apply(s, Publish(delivered)).Some?
    ensures Placement(Apply(s, Publish(delivered)).value, session)
  {
    PublishPart(s, delivered);
    PublishedKeepsPlacement(s, Apply(s, Publish(delivered)).value, delivered, session);
  }

  /** What a publication attempt changes. */
  ghost predicate Publishes(s: System, s': System, delivered: bool) {
    var w := s.worker;
    && w.AtPublish? && w.sent <= |w.carried|
    && s'.worker == w.(sent := w.sent + 1, published := w.published && delivered)
    && s'.slot == s.slot && s'.accepted == s.accepted && s'.writes == s.writes && s'.lost == s.lost
    && s'.attempts == s.attempts + [Attempt(EventAt(w.request, w.carried, w.writeOk, w.revision, w.sent), delivered)]
    && s'.origins == s.origins + [Origin(|s.writes| - 1, w.sent)]
  }

  lemma {:induction false} PublishPart(s: System, delivered: bool)
    requires Apply(s, Publish(delivered)).Some?
    ensures Publishes(s, Apply(s, Publish(delivered)).value, delivered)
  {
  }

  lemma {:induction false} PublishedKeepsPlacement(s: System, s': System, delivered: bool, session: string)
    requires Placement(s, session) && Publishes(s, s', delivered)
    ensures Placement(s', session)
  {
    PublishMovesSession(s.worker, delivered, session);
    assert s'.attempts[..|s.attempts|] == s.attempts;
  }

  /** Finalising or unwinding empties the worker's hands; what they still held is lost. */
  ghost predicate Ends(s: System, s': System) {
    && s'.slot.request == s.slot.request && s'.slot.carried == s.slot.carried
    && s'.accepted == s.accepted && s'.attempts == s.attempts
    && Hands(s'.worker) == [] && s'.lost == s.lost + Hands(s.worker)
  }

  lemma {:induction false} FinaliseEnds(s: System)
    requires Apply(s, FinaliseWork).Some?
    ensures Ends(s, Apply(s, FinaliseWork).value)
  {
    assert Hands(s.worker) == [];
    assert s.lost + [] == s.lost;
  }

  lemma {:induction false} UnwindEnds(s: System)
    requires Apply(s, Unwind).Some?
    ensures Ends(s, Apply(s, Unwind).value)
  {
  }

  lemma {:induction false} EndKeepsPlacement(s: System, s': System, session: string)
    requires Placement(s, session) && Ends(s, s')
    ensures Placement(s', session)
  {
    TimesAppend(s.lost, Hands(s.worker), session);
    assert WaitingTimes(s'.slot, session) == WaitingTimes(s.slot, session);
  }

  lemma {:induction false} StepKeepsPlacement(s: System, step: Step, session: string)
    requires Placement(s, session) && Apply(s, step).Some?
    ensures Placement(Apply(s, step).value, session)
  {
    match step
    case Place => PlaceKeepsPlacement(s, session);
    case TakeWork => TakeKeepsPlacement(s, session);
    case WriteWork(_, _, _) => WriteKeepsPlacement(s, step, session);
    case Publish(delivered) => PublishKeepsPlacement(s, delivered, session);
    case FinaliseWork =>
      FinaliseEnds(s);
      EndKeepsPlacement(s, Apply(s, step).value, session);
    case Unwind =>
      UnwindEnds(s);
      EndKeepsPlacement(s, Apply(s, step).value, session);
    case _ =>
      QuietStepIsQuiet(s, step);
      SameWorkKeepsPlacement(s, Apply(s, step).value, session);
  }

  /** Accepted limit patches have distinct sessions and complete snapshots. */
  ghost predicate Identified(s: System) {
    && (forall i | 0 <= i < |s.accepted| :: IsPatch(s.accepted[i]) ==> CompletePatch(s.accepted[i]))
    && (forall i, j | 0 <= i < j < |s.accepted| ::
          IsPatch(s.accepted[i]) && IsPatch(s.accepted[j]) ==> s.accepted[i].session != s.accepted[j].session)
    && (s.admitting.Some? && IsPatch(s.admitting.value) ==>
          CompletePatch(s.admitting.value) && !IsPatchSession(s.accepted, s.admitting.value.session))
  }

  lemma {:induction false} PlaceKeepsIdentified(s: System)
    requires Identified(s) && s.admitting.Some?
    ensures Identified(Placed(s))
  {
    var accepted := Placed(s).accepted;
    forall i, j | 0 <= i < j < |accepted| && IsPatch(accepted[i]) && IsPatch(accepted[j])
      ensures accepted[i].session != accepted[j].session
    {
      if j == |s.accepted| {
        assert accepted[i] == s.accepted[i];
      }
    }
  }

  lemma {:induction false} StepKeepsIdentified(s: System, step: Step)
    requires Identified(s) && Apply(s, step).Some?
    ensures Identified(Apply(s, step).value)
  {
    if step.Place? {
      PlaceKeepsIdentified(s);
    } else if !step.Admit? {
      var s' := Apply(s, step).value;
      assert s'.accepted == s.accepted && s'.admitting == s.admitting;
    }
  }

  lemma {:induction false} AcceptedAtMostOnce(accepted: seq<Request>, session: string)
    requires forall i, j | 0 <= i < j < |accepted| ::
               IsPatch(accepted[i]) && IsPatch(accepted[j]) ==> accepted[i].session != accepted[j].session
    ensures AcceptedTimes(accepted, session) == Count(IsPatchSession(accepted, session))
  {
    if accepted != [] {
      var front, last := accepted[..|accepted| - 1], accepted[|accepted| - 1];
      AcceptedAtMostOnce(front, session);
      assert forall i | 0 <= i < |front| :: accepted[i] == front[i];
      assert last == accepted[|accepted| - 1];
    }
  }

  // ----- Publications and write results behind the counters

  ghost predicate AllDelivered(attempts: seq<Attempt>) {
    forall a | 0 <= a < |attempts| :: attempts[a].delivered
  }

  ghost predicate AllWritten(writes: seq<Write>) {
    forall w | 0 <= w < |writes| :: writes[w].ok
  }

  lemma {:induction false} OneMoreDelivered(attempts: seq<Attempt>, attempt: Attempt)
    ensures AllDelivered(attempts + [attempt]) <==> AllDelivered(attempts) && attempt.delivered
  {
    var more := attempts + [attempt];
    assert more[|attempts|] == attempt && forall a | 0 <= a < |attempts| :: more[a] == attempts[a];
  }

  lemma {:induction false} OneMoreWritten(writes: seq<Write>, write: Write)
    ensures AllWritten(writes + [write]) <==> AllWritten(writes) && write.ok
  {
    var more := writes + [write];
    assert more[|writes|] == write && forall w | 0 <= w < |writes| :: more[w] == writes[w];
  }

  /** The failure counters are zero exactly when nothing failed, unless the worker was cut short. */
  ghost predicate HonestCounters(s: System) {
    !CutShort(s.worker) ==>
      && (s.slot.publicationFailures == 0 && (s.worker.AtPublish? ==> s.worker.published) <==>
            AllDelivered(s.attempts))
      && (s.slot.failedWrites == 0 && (s.worker.AtPublish? ==> s.worker.writeOk) <==> AllWritten(s.writes))
      && (AllWritten(s.writes) <==> s.intact)
  }

  lemma {:induction false} SameWorkKeepsHonest(s: System, s': System)
    requires HonestCounters(s) && SameWork(s, s')
    ensures HonestCounters(s')
  {
  }

  lemma {:induction false} WriteKeepsHonest(s: System, step: Step)
    requires step.WriteWork? && HonestCounters(s) && Apply(s, step).Some?
    ensures HonestCounters(Apply(s, step).value)
  {
    OneMoreWritten(s.writes, Write(s.worker.request, step.ok, step.revision, s.taken, |s.worker.carried|));
  }

  lemma {:induction false} PublishKeepsHonest(s: System, step: Step)
    requires step.Publish? && HonestCounters(s) && Apply(s, step).Some?
    ensures HonestCounters(Apply(s, step).value)
  {
    var w := s.worker;
    OneMoreDelivered(s.attempts, Attempt(EventAt(w.request, w.carried, w.writeOk, w.revision, w.sent), step.delivered));
  }

  lemma {:induction false} OtherWorkKeepsHonest(s: System, step: Step)
    requires step.TakeWork? || step.FinaliseWork? || step.Unwind?
    requires HonestCounters(s) && Apply(s, step).Some?
    ensures HonestCounters(Apply(s, step).value)
  {
  }

  lemma {:induction false} WorkStepKeepsHonest(s: System, step: Step)
    requires HonestCounters(s) && Apply(s, step).Some? && IsWorkStep(step)
    ensures HonestCounters(Apply(s, step).value)
  {
    if step.WriteWork? {
      WriteKeepsHonest(s, step);
    } else if step.Publish? {
      PublishKeepsHonest(s, step);
    } else {
      OtherWorkKeepsHonest(s, step);
    }
  }

  lemma {:induction false} StepKeepsHonest(s: System, step: Step)
    requires HonestCounters(s) && Apply(s, step).Some?
    ensures HonestCounters(Apply(s, step).value)
  {
    if Quiet(step) {
      QuietStepIsQuiet(s, step);
      SameWorkKeepsHonest(s, Apply(s, step).value);
    } else if IsWorkStep(step) {
      WorkStepKeepsHonest(s, step);
    }
  }
}
