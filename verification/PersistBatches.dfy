/**
  Every write of every run is the coalescing of one stretch of the accepted
  requests, the stretches follow one another without gap or overlap, and every
  completion announces a patch of its own write's stretch.
 */
module PersistBatches {
  import opened Basics
  import opened PersistQueue
  import opened Coalescing
  import opened PersistRuns
  import opened PersistOutcomes

  // ----- The stretches

  /** Where the w-th write's share of the accepted requests begins. */
  function From(writes: seq<Write>, w: int): nat
    requires w <= |writes|
  {
    if w <= 0 then 0 else writes[w - 1].upTo
  }

  ghost predicate IsBatch(accepted: seq<Request>, from: nat, upTo: nat, merged: Merged) {
    from < upTo <= |accepted| && CoalesceAll(accepted[from..upTo]) == Ok(merged)
  }

  ghost predicate HasBatch(accepted: seq<Request>, writes: seq<Write>, w: int) {
    && 0 <= w < |writes|
    && From(writes, w) < writes[w].upTo <= |accepted|
    && CoalesceAll(accepted[From(writes, w)..writes[w].upTo]).Ok?
    && CoalesceAll(accepted[From(writes, w)..writes[w].upTo]).value.request == writes[w].request
    && |CoalesceAll(accepted[From(writes, w)..writes[w].upTo]).value.carried| == writes[w].riders
  }

  /** The accepted requests that the w-th write stands for. */
  ghost function BatchOf(accepted: seq<Request>, writes: seq<Write>, w: int): (batch: seq<Request>)
    requires HasBatch(accepted, writes, w)
    ensures batch != [] && CoalesceAll(batch).Ok? && CoalesceAll(batch).value.request == writes[w].request
  {
    accepted[From(writes, w)..writes[w].upTo]
  }

  ghost predicate SlotIsBatch(s: System) {
    if s.slot.request.None? then s.taken == |s.accepted| && s.slot.carried == []
    else IsBatch(s.accepted, s.taken, |s.accepted|, Merged(s.slot.carried, s.slot.request.value))
  }

  ghost predicate HandsAreBatch(s: System) {
    && s.taken <= |s.accepted|
    && (s.worker.AtWrite? ==>
          IsBatch(s.accepted, From(s.writes, |s.writes|), s.taken, Merged(s.worker.carried, s.worker.request)))
    && (s.worker.AtPublish? ==>
          var last := |s.writes| - 1;
          && last >= 0
          && s.writes[last] == Write(s.worker.request, s.worker.writeOk, s.worker.revision, s.taken, |s.worker.carried|)
          && IsBatch(s.accepted, From(s.writes, last), s.taken, Merged(s.worker.carried, s.worker.request)))
    && (!s.worker.AtWrite? && (s.intact || !CutShort(s.worker)) ==> From(s.writes, |s.writes|) == s.taken)
  }

  ghost predicate WritesAreBatches(accepted: seq<Request>, writes: seq<Write>) {
    forall w | 0 <= w < |writes| :: HasBatch(accepted, writes, w)
  }

  ghost predicate Batched(s: System) {
    SlotIsBatch(s) && HandsAreBatch(s) && WritesAreBatches(s.accepted, s.writes)
  }

  lemma {:induction false} BatchesGrow(accepted: seq<Request>, writes: seq<Write>, request: Request, w: int)
    requires HasBatch(accepted, writes, w)
    ensures HasBatch(accepted + [request], writes, w)
    ensures BatchOf(accepted + [request], writes, w) == BatchOf(accepted, writes, w)
  {
    var more, from, upTo := accepted + [request], From(writes, w), writes[w].upTo;
    assert more[from..upTo] == accepted[from..upTo];
  }

  lemma {:induction false} BatchesStay(accepted: seq<Request>, writes: seq<Write>, write: Write, w: int)
    requires HasBatch(accepted, writes, w)
    ensures HasBatch(accepted, writes + [write], w)
    ensures BatchOf(accepted, writes + [write], w) == BatchOf(accepted, writes, w)
  {
    assert From(writes + [write], w) == From(writes, w) && (writes + [write])[w] == writes[w];
  }

  lemma {:induction false} SliceAppends(requests: seq<Request>, request: Request, from: nat)
    requires from <= |requests|
    ensures (requests + [request])[from..|requests| + 1] == requests[from..|requests|] + [request]
  {
  }

  lemma {:induction false} PlaceKeepsSlotBatch(s: System)
    requires SlotIsBatch(s) && s.taken <= |s.accepted| && s.admitting.Some? && Install(s.slot, s.admitting.value).Ok?
    ensures SlotIsBatch(Placed(s))
  {
    var n, latest := |s.accepted|, s.admitting.value;
    var batch := s.accepted[s.taken..n];
    assert Placed(s).accepted == s.accepted + [latest];
    SliceAppends(s.accepted, latest, s.taken);
    if s.slot.request.None? {
      assert batch + [latest] == [latest];
    } else {
      CoalesceOneMore(batch, latest);
    }
  }

  lemma {:induction false} PlaceKeepsHands(s: System)
    requires HandsAreBatch(s) && s.admitting.Some? && Install(s.slot, s.admitting.value).Ok?
    ensures HandsAreBatch(Placed(s))
  {
    var more := Placed(s).accepted;
    var last := |s.writes| - 1;
    if s.worker.AtWrite? {
      var from := From(s.writes, |s.writes|);
      assert more[from..s.taken] == s.accepted[from..s.taken];
    } else if s.worker.AtPublish? {
      assert more[From(s.writes, last)..s.taken] == s.accepted[From(s.writes, last)..s.taken];
    }
  }

  lemma {:induction false} PlaceKeepsBatched(s: System)
    requires Batched(s) && s.admitting.Some?
    ensures Batched(Placed(s))
  {
    if Install(s.slot, s.admitting.value).Ok? {
      PlaceKeepsSlotBatch(s);
      PlaceKeepsHands(s);
      forall w | 0 <= w < |s.writes| ensures HasBatch(Placed(s).accepted, s.writes, w) {
        BatchesGrow(s.accepted, s.writes, s.admitting.value, w);
      }
    }
  }

  lemma {:induction false} TakeKeepsBatched(s: System)
    requires Control(s) && Batched(s) && Apply(s, TakeWork).Some?
    ensures Batched(Apply(s, TakeWork).value)
  {
  }

  lemma {:induction false} WriteKeepsBatched(s: System, step: Step)
    requires step.WriteWork? && Batched(s) && Apply(s, step).Some?
    ensures Batched(Apply(s, step).value)
  {
    var write := Write(s.worker.request, step.ok, step.revision, s.taken, |s.worker.carried|);
    var more := s.writes + [write];
    forall w | 0 <= w < |more| ensures HasBatch(s.accepted, more, w) {
      if w < |s.writes| {
        BatchesStay(s.accepted, s.writes, write, w);
      } else {
        assert From(more, w) == From(s.writes, |s.writes|);
      }
    }
    assert From(more, |more| - 1) == From(s.writes, |s.writes|);
  }

  lemma {:induction false} EndKeepsBatched(s: System, step: Step)
    requires step.Publish? || step.FinaliseWork? || step.Unwind?
    requires Batched(s) && Apply(s, step).Some?
    ensures Batched(Apply(s, step).value)
  {
  }

  lemma {:induction false} SameWorkKeepsBatched(s: System, s': System)
    requires Batched(s) && SameWork(s, s')
    ensures Batched(s')
  {
  }

  lemma {:induction false} WorkStepKeepsBatched(s: System, step: Step)
    requires IsWorkStep(step) && Control(s) && Batched(s) && Apply(s, step).Some?
    ensures Batched(Apply(s, step).value)
  {
    if step.TakeWork? {
      TakeKeepsBatched(s);
    } else if step.WriteWork? {
      WriteKeepsBatched(s, step);
    } else {
      EndKeepsBatched(s, step);
    }
  }

  lemma {:induction false} StepKeepsBatched(s: System, step: Step)
    requires Control(s) && Batched(s) && Apply(s, step).Some?
    ensures Batched(Apply(s, step).value)
  {
    if step.Place? {
      PlaceKeepsBatched(s);
    } else if IsWorkStep(step) {
      WorkStepKeepsBatched(s, step);
    } else {
      QuietStepIsQuiet(s, step);
      SameWorkKeepsBatched(s, Apply(s, step).value);
    }
  }

  // ----- What each completion announces

  ghost predicate Announces(accepted: seq<Request>, writes: seq<Write>, origin: Origin, event: Event) {
    && HasBatch(accepted, writes, origin.write)
    && var write := writes[origin.write];
       var carried := CoalesceAll(BatchOf(accepted, writes, origin.write)).value.carried;
       && origin.place <= |carried|
       && event == EventAt(write.request, carried, write.ok, write.revision, origin.place)
  }

  ghost predicate Announced(s: System) {
    && |s.origins| == |s.attempts|
    && forall a | 0 <= a < |s.attempts| :: Announces(s.accepted, s.writes, s.origins[a], s.attempts[a].event)
  }

  lemma {:induction false} PlaceKeepsAnnounced(s: System)
    requires Announced(s) && s.admitting.Some?
    ensures Announced(Placed(s))
  {
    if Install(s.slot, s.admitting.value).Ok? {
      forall a | 0 <= a < |s.attempts| ensures Announces(Placed(s).accepted, s.writes, s.origins[a], s.attempts[a].event) {
        BatchesGrow(s.accepted, s.writes, s.admitting.value, s.origins[a].write);
      }
    }
  }

  lemma {:induction false} WriteKeepsAnnounced(s: System, step: Step)
    requires step.WriteWork? && Announced(s) && Apply(s, step).Some?
    ensures Announced(Apply(s, step).value)
  {
    var write := Write(s.worker.request, step.ok, step.revision, s.taken, |s.worker.carried|);
    forall a | 0 <= a < |s.attempts|
      ensures Announces(s.accepted, s.writes + [write], s.origins[a], s.attempts[a].event)
    {
      BatchesStay(s.accepted, s.writes, write, s.origins[a].write);
    }
  }

  lemma {:induction false} NextIsAnnounced(s: System)
    requires Batched(s) && s.worker.AtPublish? && s.worker.sent <= |s.worker.carried|
    ensures var w := s.worker;
            Announces(s.accepted, s.writes, Origin(|s.writes| - 1, w.sent),
                      EventAt(w.request, w.carried, w.writeOk, w.revision, w.sent))
  {
    assert HasBatch(s.accepted, s.writes, |s.writes| - 1);
  }

  lemma {:induction false} PublishKeepsAnnounced(s: System, step: Step)
    requires step.Publish? && Batched(s) && Announced(s) && Apply(s, step).Some?
    ensures Announced(Apply(s, step).value)
  {
    PublishPart(s, step.delivered);
    NextIsAnnounced(s);
  }

  /** Taking, finalising and unwinding add nothing to what has happened. */
  lemma {:induction false} HistoryStays(s: System, step: Step)
    requires step.TakeWork? || step.FinaliseWork? || step.Unwind?
    requires Apply(s, step).Some?
    ensures var s' := Apply(s, step).value;
            && s'.accepted == s.accepted && s'.writes == s.writes && s'.attempts == s.attempts && s'.origins == s.origins
  {
  }

  lemma {:induction false} SameKeepsAnnounced(s: System, s': System)
    requires Announced(s)
    requires s'.accepted == s.accepted && s'.writes == s.writes && s'.attempts == s.attempts && s'.origins == s.origins
    ensures Announced(s')
  {
  }

  lemma {:induction false} StepKeepsAnnounced(s: System, step: Step)
    requires Batched(s) && Announced(s) && Apply(s, step).Some?
    ensures Announced(Apply(s, step).value)
  {
    if step.Place? {
      PlaceKeepsAnnounced(s);
    } else if step.WriteWork? {
      WriteKeepsAnnounced(s, step);
    } else if step.Publish? {
      PublishKeepsAnnounced(s, step);
    } else if IsWorkStep(step) {
      HistoryStays(s, step);
      SameKeepsAnnounced(s, Apply(s, step).value);
    } else {
      QuietStepIsQuiet(s, step);
    }
  }

  // ----- Every completion in its turn

  function PlacesOf(w: int, n: nat): seq<Origin> {
    seq(n, (i: nat) => Origin(w, i))
  }

  /** The completions that the writes call for: the carried ones of each write, then its own. */
  function Expected(writes: seq<Write>): seq<Origin> {
    if writes == [] then []
    else Expected(writes[..|writes| - 1]) + PlacesOf(|writes| - 1, writes[|writes| - 1].riders + 1)
  }

  /** Each completion of each write is attempted once and in order; an unwinding worker leaves out the last ones. */
  ghost predicate Sequenced(s: System) {
    var n := |s.writes|;
    if s.worker.AtPublish? then
      && n > 0 && s.worker.sent <= s.writes[n - 1].riders + 1 && s.writes[n - 1].riders == |s.worker.carried|
      && s.origins == Expected(s.writes[..n - 1]) + PlacesOf(n - 1, s.worker.sent)
    else if CutShort(s.worker) then s.origins <= Expected(s.writes)
    else s.origins == Expected(s.writes)
  }

  lemma {:induction false} WriteKeepsSequenced(s: System, step: Step)
    requires step.WriteWork? && Sequenced(s) && Apply(s, step).Some?
    ensures Sequenced(Apply(s, step).value)
  {
    var s' := Apply(s, step).value;
    assert s'.writes[..|s.writes|] == s.writes && PlacesOf(|s.writes|, 0) == [];
  }

  lemma {:induction false} PublishKeepsSequenced(s: System, step: Step)
    requires step.Publish? && Sequenced(s) && Apply(s, step).Some?
    ensures Sequenced(Apply(s, step).value)
  {
    var w, sent := |s.writes| - 1, s.worker.sent;
    assert PlacesOf(w, sent + 1) == PlacesOf(w, sent) + [Origin(w, sent)];
  }

  lemma {:induction false} EndKeepsSequenced(s: System, step: Step)
    requires step.FinaliseWork? || step.Unwind?
    requires Sequenced(s) && Apply(s, step).Some?
    ensures Sequenced(Apply(s, step).value)
  {
    if s.worker.AtPublish? {
      PlacesPrefix(|s.writes| - 1, s.worker.sent, s.writes[|s.writes| - 1].riders + 1);
    }
  }

  lemma {:induction false} PlacesPrefix(w: int, m: nat, n: nat)
    requires m <= n
    ensures PlacesOf(w, m) <= PlacesOf(w, n)
  {
  }

  lemma {:induction false} TakeKeepsSequenced(s: System)
    requires Sequenced(s) && Apply(s, TakeWork).Some?
    ensures Sequenced(Apply(s, TakeWork).value)
  {
  }

  lemma {:induction false} WorkStepKeepsSequenced(s: System, step: Step)
    requires IsWorkStep(step) && Sequenced(s) && Apply(s, step).Some?
    ensures Sequenced(Apply(s, step).value)
  {
    if step.WriteWork? {
      WriteKeepsSequenced(s, step);
    } else if step.Publish? {
      PublishKeepsSequenced(s, step);
    } else if step.TakeWork? {
      TakeKeepsSequenced(s);
    } else {
      EndKeepsSequenced(s, step);
    }
  }

  lemma {:induction false} PlaceKeepsSequenced(s: System)
    requires s.admitting.Some? && Sequenced(s)
    ensures Sequenced(Placed(s))
  {
    SameKeepsSequenced(s, Placed(s));
  }

  lemma {:induction false} StepKeepsSequenced(s: System, step: Step)
    requires Sequenced(s) && Apply(s, step).Some?
    ensures Sequenced(Apply(s, step).value)
  {
    if step.Place? {
      PlaceKeepsSequenced(s);
    } else if IsWorkStep(step) {
      WorkStepKeepsSequenced(s, step);
    } else {
      QuietStepIsQuiet(s, step);
      SameKeepsSequenced(s, Apply(s, step).value);
    }
  }

  lemma {:induction false} SameKeepsSequenced(s: System, s': System)
    requires Sequenced(s) && s'.writes == s.writes && s'.origins == s.origins && CutShort(s'.worker) == CutShort(s.worker)
    requires s'.worker == s.worker || (!Working(s.worker) && !Working(s'.worker))
    ensures Sequenced(s')
  {
  }

  // ----- Disk contents

  function Replay(disk: Disk, writes: seq<Write>): Disk {
    if writes == [] then disk
    else WriteTo(Replay(disk, writes[..|writes| - 1]), writes[|writes| - 1].request)
  }

  ghost predicate Replayed(disk: Disk, s: System) {
    s.intact ==> s.disk == Replay(disk, s.writes)
  }

  lemma {:induction false} StepKeepsReplayed(disk: Disk, s: System, step: Step)
    requires Replayed(disk, s) && Apply(s, step).Some?
    ensures Replayed(disk, Apply(s, step).value)
  {
    if step.WriteWork? {
      WriteKeepsReplayed(disk, s, step);
    } else if Quiet(step) {
      QuietStepIsQuiet(s, step);
    } else {
      var s' := Apply(s, step).value;
      assert s'.disk == s.disk && s'.writes == s.writes && (s'.intact ==> s.intact);
    }
  }

  lemma {:induction false} WriteKeepsReplayed(disk: Disk, s: System, step: Step)
    requires step.WriteWork? && Replayed(disk, s) && Apply(s, step).Some?
    ensures Replayed(disk, Apply(s, step).value)
  {
    var s' := Apply(s, step).value;
    assert s'.writes[..|s.writes|] == s.writes;
  }

  // ----- All runs

  ghost predicate Sound(disk: Disk, s: System) {
    && Control(s) && Conserved(s) && Identified(s) && HonestCounters(s)
    && Batched(s) && Announced(s) && Sequenced(s) && Replayed(disk, s)
  }

  lemma {:induction false} StepKeepsSound(disk: Disk, s: System, step: Step)
    requires Sound(disk, s) && Apply(s, step).Some?
    ensures Sound(disk, Apply(s, step).value)
  {
    StepKeepsControl(s, step);
    StepConserves(s, step);
    StepKeepsIdentified(s, step);
    StepKeepsHonest(s, step);
    StepKeepsBatched(s, step);
    StepKeepsAnnounced(s, step);
    StepKeepsSequenced(s, step);
    StepKeepsReplayed(disk, s, step);
  }

  lemma {:induction false} InitialIsSound(disk: Disk)
    ensures Sound(disk, Initial(disk))
  {
    InitialIsQuiet(disk);
    InitialIsBatched(disk);
  }

  lemma {:induction false} InitialIsQuiet(disk: Disk)
    ensures var s := Initial(disk); Control(s) && Conserved(s) && Identified(s) && HonestCounters(s)
  {
  }

  lemma {:induction false} InitialIsBatched(disk: Disk)
    ensures var s := Initial(disk); Batched(s) && Announced(s) && Sequenced(s) && Replayed(disk, s)
  {
  }

  lemma {:induction false} EveryRunIsSound(disk: Disk, steps: seq<Step>)
    requires Run(disk, steps).Some?
    ensures Sound(disk, Run(disk, steps).value)
  {
    if steps == [] {
      InitialIsSound(disk);
    } else {
      var front := steps[..|steps| - 1];
      EveryRunIsSound(disk, front);
      StepKeepsSound(disk, Run(disk, front).value, steps[|steps| - 1]);
    }
  }
}
