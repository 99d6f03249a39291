/** A run in which a limit patch is reported Durable although its directory was never written. */
module StrayDirectory {
  import opened Basics
  import opened PersistQueue
  import opened Coalescing
  import opened PersistRuns
  import opened PersistOutcomes
  import opened PersistGuarantees

  lemma {:induction false} RunOn(disk: Disk, steps: seq<Step>, step: Step)
    requires Run(disk, steps).Some?
    ensures Run(disk, steps + [step]) == Apply(Run(disk, steps).value, step)
  {
    assert (steps + [step])[..|steps|] == steps;
  }

  /** Three requests placed one after another on an idle queue, before the worker looks. */
  lemma {:induction false} ThreePlaced(disk: Disk, p: Request, q: Request, r: Request) returns (steps: seq<Step>)
    requires IsPatch(p) && CompletePatch(p) && !IsPatch(q) && !IsPatch(r) && CoalesceAll([p, q, r]).Ok?
    ensures Run(disk, steps).Some?
    ensures var s, merged := Run(disk, steps).value, CoalesceAll([p, q, r]).value;
            && s == Initial(disk).(slot := s.slot, wakeToken := true, accepted := [p, q, r])
            && s.slot.accepting && s.slot.request == Some(merged.request) && s.slot.carried == merged.carried
  {
    assert [p, q, r][..2] == [p, q] && [p, q][..1] == [p];
    assert CoalesceAll([p]) == Ok(Merged([], p));
    steps := [];
    steps := RunPlace(disk, steps, p);
    steps := RunPlace(disk, steps, q);
    steps := RunPlace(disk, steps, r);
    assert Run(disk, steps).value.accepted == [p, q, r];
  }

  lemma {:induction false} RunPlace(disk: Disk, steps: seq<Step>, request: Request) returns (more: seq<Step>)
    requires Run(disk, steps).Some?
    requires var s := Run(disk, steps).value;
             && s.admitting.None? && s.senderAlive && AdmissionOpen(s.slot) && s.worker.AtCheck?
             && (IsPatch(request) ==> CompletePatch(request) && !IsPatchSession(s.accepted, request.session))
             && Install(s.slot, request).Ok?
    ensures Run(disk, more).Some?
    ensures var s := Run(disk, steps).value;
            Run(disk, more).value
            == s.(slot := Install(s.slot, request).value, wakeToken := true, accepted := s.accepted + [request])
  {
    RunOn(disk, steps, Admit(request));
    RunOn(disk, steps + [Admit(request)], Place);
    more := steps + [Admit(request)] + [Place];
  }

  lemma {:induction false} OnlyPatchIsCarried(p: Request, q: Request, r: Request)
    requires IsPatch(p) && CompletePatch(p) && !IsPatch(q) && !IsPatch(r) && CoalesceAll([p, q, r]).Ok?
    ensures CoalesceAll([p, q, r]).value.carried == [CarriedOf(p)]
  {
    assert AllComplete([p, q, r]) && AllComplete([p, q]) && AllComplete([p]);
    CarriedAreThePatches([p, q, r]);
    assert [p, q, r][..2] == [p, q] && [p, q][..1] == [p] && [p][..0] == [];
    assert Completions([p]) == [CarriedOf(p)];
    assert Completions([p, q]) == Completions([p]);
  }

  /** The worker wakes up and takes the pending request. */
  lemma {:induction false} RunTake(disk: Disk, steps: seq<Step>) returns (more: seq<Step>)
    requires Run(disk, steps).Some?
    requires var s := Run(disk, steps).value;
             s.admitting.None? && s.worker.AtCheck? && s.wakeToken && s.slot.accepting && s.slot.request.Some?
    ensures Run(disk, more).Some?
    ensures var s := Run(disk, steps).value;
            Run(disk, more).value
            == s.(slot := Taken(s.slot), worker := AtWrite(s.slot.request.value, s.slot.carried),
                  wakeToken := false, taken := |s.accepted|)
  {
    RunOn(disk, steps, Check);
    more := steps + [Check];
    RunOn(disk, more, Receive);
    more := more + [Receive];
    RunOn(disk, more, DrainDone);
    more := more + [DrainDone];
    RunOn(disk, more, TakeWork);
    more := more + [TakeWork];
  }

  /** It writes, and delivers the first completion. */
  lemma {:induction false} RunWrite(disk: Disk, steps: seq<Step>) returns (more: seq<Step>)
    requires Run(disk, steps).Some?
    requires var s := Run(disk, steps).value; s.worker.AtWrite? && s.writes == [] && s.attempts == []
    ensures Run(disk, more).Some?
    ensures var s, s' := Run(disk, steps).value, Run(disk, more).value;
            var request := s.worker.request;
            && s'.worker.AtPublish? && s'.slot == s.slot && s'.intact == s.intact && s'.accepted == s.accepted
            && s'.disk == WriteTo(s.disk, request) && s'.writes == [Write(request, true, "", s.taken, |s.worker.carried|)]
            && s'.attempts == [Attempt(EventAt(request, s.worker.carried, true, "", 0), true)]
  {
    RunOn(disk, steps, WriteWork(true, "", disk));
    more := steps + [WriteWork(true, "", disk)];
    RunOn(disk, more, Publish(true));
    more := more + [Publish(true)];
  }

  /**
    The queue does not check directories when a control-only save replaces
    another: a run in which a patch is reported Durable, and delivered as such,
    although nothing was ever written into its directory.
   */
  lemma {:induction false} DurableElsewhere(disk: Disk) returns (steps: seq<Step>, patch: Request)
    ensures Run(disk, steps).Some? && Idle(Run(disk, steps).value) && CompletePatch(patch)
    ensures var s := Run(disk, steps).value;
            && patch in s.accepted && IsPatch(patch)
            && (exists a :: a in s.attempts && CompletesSession(a, patch.session) && a.delivered && a.event.status == Durable)
            && !BoundsOnDisk(s.writes, patch) && SameFiles(s.disk, disk, patch.configDir)
  {
    var save, stray;
    patch, save, stray := MotorsGoAstray();
    OnlyPatchIsCarried(patch, save, stray);
    steps := ThreePlaced(disk, patch, save, stray);
    steps := RunTake(disk, steps);
    steps := RunWrite(disk, steps);
    var s := Run(disk, steps).value;
    assert s.accepted[0] == patch;
    assert s.attempts[0] in s.attempts && CompletesSession(s.attempts[0], patch.session);
  }
}
