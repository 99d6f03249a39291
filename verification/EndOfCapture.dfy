/**
  The end of a capture: the analyzer takes the time of the last line, kernel error
  frames included, so a trailing error frame can still close windows.
 */
module EndOfCapture {
  import opened Basics
  import opened DriveTiming
  import opened DriveRuns
  import opened StatusMatching
  import opened ReplyHistory
  import opened DriveFiles
  import opened CaptureAnalyzer

  /** A request still in time at `end` is too old at `later`. */
  predicate Lapses(open: Option<real>, end: real, later: real, window: real) {
    open.Some? && end - open.value <= window < later - open.value
  }

  lemma {:induction false} EnableEnds(w: EnableWindow, end: real, later: real)
    requires end <= later
    ensures w.Expire(later).(open := None) == w.Expire(end).(open := None) <==> !Lapses(w.open, end, later, ENABLE_RUN_WINDOW)
  {
  }

  lemma {:induction false} IdentityEnds(w: IdentityWindow, end: real, later: real)
    requires end <= later
    ensures w.Expire(later).(open := None) == w.Expire(end).(open := None) <==> !Lapses(w.open, end, later, REPLY_TIMEOUT)
  {
  }

  // ----- MIT commands that wait

  predicate MitLapses(s: Solicit, end: real, later: real) {
    s.mit && Lapses(Some(s.at), end, later, STATUS_REPLY_WINDOW)
  }

  lemma {:induction false} SameLateIff(q: seq<Solicit>, end: real, later: real)
    requires end <= later
    ensures LateMits(q, end) <= LateMits(q, later)
    ensures LateMits(q, later) == LateMits(q, end) <==> forall s | s in q :: !MitLapses(s, end, later)
  {
    if q != [] {
      var before, last := q[..|q| - 1], q[|q| - 1];
      SameLateIff(before, end, later);
      assert forall s | s in q :: s == last || s in before;
      assert last in q && forall s | s in before :: s in q;
    }
  }

  // ----- The whole drive

  /** No Enable, identity request or MIT command that waits and is in time at `end` is too old at `later`. */
  predicate NothingLapses(d: DriveView, end: real, later: real) {
    && !Lapses(d.enable.open, end, later, ENABLE_RUN_WINDOW)
    && !Lapses(d.identity.open, end, later, REPLY_TIMEOUT)
    && forall s | s in d.status.pending :: !MitLapses(s, end, later)
  }

  lemma {:induction false} EndsAlike(d: DriveView, end: real, later: real)
    requires end <= later && Sorted(d.status.pending)
    ensures d.FinishFile(later).NewFile() == d.FinishFile(end).NewFile() <==> NothingLapses(d, end, later)
  {
    EnableEnds(d.enable, end, later);
    IdentityEnds(d.identity, end, later);
    ExpiryCountsLate(d.status, end);
    ExpiryCountsLate(d.status, later);
    SameLateIff(d.status.pending, end, later);
  }

  // ----- What waits, over the drive's own frames

  /** No later frame replies to, supersedes or cancels the request at frame `i`, in time at `end` and too old at `later`. */
  ghost predicate RequestLapses(h: seq<Timed>, kind: Kind, i: nat, end: real, later: real)
    requires i < |h|
  {
    && Opens(kind, h[i].wire) && (forall j: nat | i < j < |h| :: !Ends(h, kind, i, j))
    && end - h[i].t <= Window(kind) < later - h[i].t
  }

  /** No status answers the MIT command at frame `i`, in time at `end` and too old at `later`. */
  ghost predicate CommandLapses(h: seq<Timed>, i: nat, end: real, later: real)
    requires i < |h|
  {
    IsMit(h, i) && StillFree(h, i, |h|) && end - h[i].t <= STATUS_REPLY_WINDOW < later - h[i].t
  }

  /** No Enable, identity request or MIT command among the frames runs out of time between `end` and `later`. */
  ghost predicate NoneRunsOut(h: seq<Timed>, end: real, later: real) {
    forall i: nat | i < |h| ::
      !RequestLapses(h, ToRun, i, end, later) && !RequestLapses(h, ToIdentity, i, end, later) && !CommandLapses(h, i, end, later)
  }

  lemma {:induction false} LapsingIsLast(h: seq<Timed>, kind: Kind, i: nat, end: real, later: real)
    requires i < |h| && RequestLapses(h, kind, i, end, later)
    ensures LastRequest(h, kind, |h|) == Some(i) && OutcomeOf(h, kind, i, |h|, end).Waits?
  {
    NoneAfterLast(h, kind, |h|);
    FirstEndIsFirst(h, kind, i, |h|);
    var r := LastRequest(h, kind, |h|);
    if r.Some? && r.value > i {
      assert Ends(h, kind, i, r.value);
    }
  }

  /** The request an open window is waiting for lapses exactly if some request of the history does. */
  lemma {:induction false} OpenLapsesIff(h: seq<Timed>, kind: Kind, end: real, later: real)
    requires Ordered(h) && (h != [] ==> h[|h| - 1].t <= end) && end <= later
    ensures Lapses(OpenedAt(WaitTo(h, kind, |h|)), end, later, Window(kind))
       <==> exists i: nat | i < |h| :: RequestLapses(h, kind, i, end, later)
  {
    WaitMeansHistory(h, kind, |h|, end);
    var r := LastRequest(h, kind, |h|);
    if r.Some? {
      FirstEndIsFirst(h, kind, r.value, |h|);
    }
    if Lapses(OpenedAt(WaitTo(h, kind, |h|)), end, later, Window(kind)) {
      assert RequestLapses(h, kind, r.value, end, later);
    }
    if exists i: nat | i < |h| :: RequestLapses(h, kind, i, end, later) {
      var i: nat :| i < |h| && RequestLapses(h, kind, i, end, later);
      LapsingIsLast(h, kind, i, end, later);
    }
  }

  lemma {:induction false} SameLostIff(h: seq<Timed>, m: nat, end: real, later: real)
    requires m <= |h| && end <= later
    ensures LostMits(h, m, |h|, end) <= LostMits(h, m, |h|, later)
    ensures LostMits(h, m, |h|, end) == LostMits(h, m, |h|, later) <==> forall i: nat | i < m :: !CommandLapses(h, i, end, later)
  {
    if m > 0 {
      var last := m - 1;
      SameLostIff(h, last, end, later);
      assert (forall i: nat | i < m :: !CommandLapses(h, i, end, later))
             <==> (forall i: nat | i < last :: !CommandLapses(h, i, end, later)) && !CommandLapses(h, last, end, later);
    }
  }

  lemma {:induction false} PendingLapsesIff(h: seq<Timed>, end: real, later: real)
    requires Ordered(h) && (h != [] ==> h[|h| - 1].t <= end) && end <= later
    ensures (forall s | s in StatusTo(h, |h|).pending :: !MitLapses(s, end, later))
       <==> forall i: nat | i < |h| :: !CommandLapses(h, i, end, later)
  {
    QueueIsHeld(h, |h|);
    ExpiryCountsLate(StatusTo(h, |h|), end);
    ExpiryCountsLate(StatusTo(h, |h|), later);
    StatusCountsLost(h, |h|, end);
    StatusCountsLost(h, |h|, later);
    SameLateIff(StatusTo(h, |h|).pending, end, later);
    SameLostIff(h, |h|, end, later);
  }

  lemma {:induction false} NothingLapsesIff(h: seq<Timed>, end: real, later: real)
    requires Ordered(h) && (h != [] ==> h[|h| - 1].t <= end) && end <= later
    ensures NothingLapses(RunFrames(FRESH, h), end, later) <==> NoneRunsOut(h, end, later)
  {
    OpenLapsesIff(h, ToRun, end, later);
    OpenLapsesIff(h, ToIdentity, end, later);
    PendingLapsesIff(h, end, later);
    RunWaits(h, |h|);
    StatusIsOwn(h, |h|);
    RunToIsRun(h, |h|);
    assert h[..|h|] == h;
  }

  // ----- The capture

  lemma {:induction false} OwnFramesOrdered(frames: seq<CanFrame>, n: nat, key: Key)
    requires Captured(frames) && n <= |frames|
    ensures Ordered(FramesFor(frames, n, key))
    ensures forall e | e in FramesFor(frames, n, key) :: n > 0 && e.t <= frames[n - 1].t
  {
    if n > 0 {
      OwnFramesOrdered(frames, n - 1, key);
      var before := FramesFor(frames, n - 1, key);
      assert forall i | 0 <= i < |before| :: before[i] in before;
      if n > 1 {
        assert frames[n - 2].t <= frames[n - 1].t;
      }
    }
  }

  /** What waits at the end of a file is what would wait had nothing come before the file. */
  lemma {:induction false} WaitsAlike(samples: DriveView, own: seq<Timed>, end: real, later: real)
    requires Ordered(own) && end <= later
    ensures var d := RunFrames(samples.NewFile(), own);
            Sorted(d.status.pending) && (NothingLapses(d, end, later) <==> NothingLapses(RunFrames(FRESH, own), end, later))
  {
    NewFileIsAfter(samples);
    RunAdds(samples, FRESH, own);
    QueueIsHeld(own, |own|);
    StatusIsOwn(own, |own|);
    RunToIsRun(own, |own|);
    assert own[..|own|] == own;
  }

  /** The frames of a capture before a trailing kernel error frame, and that frame's time. */
  lemma {:induction false} ErrorAddsNoFrame(frames: seq<CanFrame>, error: CanFrame, key: Key)
    requires error.content.KernelError?
    ensures FramesFor(frames + [error], |frames| + 1, key) == FramesFor(frames, |frames|, key)
    ensures LastTime(frames + [error], |frames| + 1) == error.t
  {
    PrefixAlike(frames, error, |frames|, NonNeutral(0, None, None), 0.0, key, "");
  }

  /**
    A kernel error frame at the end of a capture leaves a drive's samples alone,
    whatever files came before, if and only if among the drive's own frames there
    is no Enable or identity request that nothing replies to, supersedes or
    cancels, and no MIT command that no status answers, in time at the frame
    before and too old at the error frame.
   */
  lemma {:induction false} TrailingErrorIff(samples: DriveView, frames: seq<CanFrame>, error: CanFrame, key: Key)
    requires Captured(frames + [error]) && error.content.KernelError?
    ensures FileSamples(samples, frames + [error], key).NewFile() == FileSamples(samples, frames, key).NewFile()
       <==> NoneRunsOut(FramesFor(frames, |frames|, key), LastTime(frames, |frames|), error.t)
  {
    var own, end := FramesFor(frames, |frames|, key), LastTime(frames, |frames|);
    var all := frames + [error];
    ErrorAddsNoFrame(frames, error, key);
    if own != [] {
      assert frames != [] && all[|frames| - 1] == frames[|frames| - 1] && all[|frames|] == error;
      assert Captured(frames) by {
        assert forall i | 0 <= i < |frames| :: all[i] == frames[i];
      }
      OwnFramesOrdered(frames, |frames|, key);
      assert own[|own| - 1] in own;
      WaitsAlike(samples, own, end, error.t);
      NothingLapsesIff(own, end, error.t);
      EndsAlike(RunFrames(samples.NewFile(), own), end, error.t);
    }
  }

  lemma {:induction false} EnablePart(d: DriveView, e: Timed, end: real)
    ensures Step(d, e).enable == d.enable.Expire(e.t).On(e.t, e.wire)
    ensures d.FinishFile(end).enable == d.enable.Expire(end)
  {
  }

  lemma {:induction false} LoneEnable(samples: DriveView, end: real)
    ensures RunFile(samples, [Timed(0.0, Host(Enable))], end).enable.neverRun
            == samples.enable.neverRun + One(end > ENABLE_RUN_WINDOW)
  {
    var own := [Timed(0.0, Host(Enable))];
    var d := samples.NewFile();
    assert own[..0] == [];
    assert RunFrames(d, own) == Step(d, own[0]);
    EnablePart(d, own[0], end);
    EnablePart(Step(d, own[0]), own[0], end);
  }

  /** An Enable, then a kernel error frame two seconds on: the Enable counts as never run, without it as still open. */
  lemma {:induction false} TrailingErrorCounts(samples: DriveView)
    ensures var enable := CanFrame(0.0, "can0", Wired(1, Host(Enable), true));
            var error := CanFrame(2.0, "can0", KernelError);
            && FileSamples(samples, [enable], Key("can0", 1)).enable.neverRun == samples.enable.neverRun
            && FileSamples(samples, [enable, error], Key("can0", 1)).enable.neverRun == samples.enable.neverRun + 1
  {
    var key := Key("can0", 1);
    var enable := CanFrame(0.0, "can0", Wired(1, Host(Enable), true));
    var error := CanFrame(2.0, "can0", KernelError);
    assert FramesFor([enable], 1, key) == [Timed(0.0, Host(Enable))];
    assert [enable] + [error] == [enable, error];
    ErrorAddsNoFrame([enable], error, key);
    LoneEnable(samples, 0.0);
    LoneEnable(samples, 2.0);
  }
}
