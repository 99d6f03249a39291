/**
  Report periods, reports after an Off, and MIT replies over the whole history of
  a drive's frames.
 */
module ReportHistory {
  import opened Basics
  import opened DriveTiming
  import opened DriveRuns
  import opened StatusMatching
  import opened DriveHistory
  import opened SilenceHistory

  // ----- MIT replies

  /** The solicit that status `k` answers. */
  ghost function MatchOf(h: seq<Timed>, k: nat): (i: nat)
    requires k < |h| && Answered(h, k)
    ensures i < k && Matched(h, i, k)
  {
    var i: nat :| i < k && Matched(h, i, k);
    i
  }

  /** The latency of the MIT command, if it is one, that frame `k` answers. */
  ghost function MitReply(h: seq<Timed>, k: nat): seq<real>
    requires k < |h|
  {
    if Answered(h, k) && IsMit(h, MatchOf(h, k)) then [(h[k].t - h[MatchOf(h, k)].t) * 1000.0] else []
  }

  /** The latencies of the MIT commands that statuses among the first `n` frames answer. */
  ghost function MitReplies(h: seq<Timed>, n: nat): seq<real>
    requires n <= |h|
  {
    if n == 0 then [] else MitReplies(h, n - 1) + MitReply(h, n - 1)
  }

  lemma {:induction false} ExpiryKeepsReplies(q: StatusQueue, now: real)
    ensures q.Expire(now).replies == q.replies
    decreases |q.pending|
  {
    if q.pending != [] && now - q.pending[0].at > STATUS_REPLY_WINDOW {
      ExpiryKeepsReplies(StatusQueue(q.pending[1..], q.replies, if q.pending[0].mit then q.unanswered + 1 else q.unanswered), now);
    }
  }

  lemma {:induction false} ReplyStep(h: seq<Timed>, k: nat, q: StatusQueue)
    requires k < |h| && q.pending == Waiting(h, k, h[k].t) && AllInTime(q.pending, h[k].t)
    ensures q.On(h[k].t, h[k].wire).replies == q.replies + MitReply(h, k)
  {
    if h[k].wire.Drive? {
      FrontIsAnswered(h, k, q);
    } else {
      assert !IsStatus(h, k);
    }
  }

  lemma {:induction false} ReplyNext(h: seq<Timed>, k: nat, q: StatusQueue)
    requires k < |h| && (k > 0 ==> h[k - 1].t <= h[k].t) && QueueHolds(h, k, q)
    ensures q.Expire(h[k].t).On(h[k].t, h[k].wire).replies == q.replies + MitReply(h, k)
  {
    QueueExpires(h, k, h[k].t, q);
    ExpiryKeepsReplies(q, h[k].t);
    ReplyStep(h, k, q.Expire(h[k].t));
  }

  lemma {:induction false} StatusReplies(h: seq<Timed>, n: nat)
    requires Ordered(h) && n <= |h|
    ensures StatusTo(h, n).replies == MitReplies(h, n)
  {
    if n > 0 {
      StatusReplies(h, n - 1);
      QueueIsHeld(h, n - 1);
      ReplyNext(h, n - 1, StatusTo(h, n - 1));
    }
  }

  /** The recorded MIT latencies are those of the matching, in the order of the statuses. */
  lemma {:induction false} MitRepliesAreMatched(h: seq<Timed>, n: nat)
    requires Ordered(h) && n <= |h|
    ensures RunTo(h, n).status.replies == MitReplies(h, n)
  {
    StatusIsOwn(h, n);
    StatusReplies(h, n);
  }

  // ----- Report periods

  function PrevReport(h: seq<Timed>, n: nat): (p: Option<nat>)
    requires n <= |h|
    ensures p.Some? ==> p.value < n
  {
    if n == 0 then None else if Reports(h, n - 1) then Some(n - 1) else PrevReport(h, n - 1)
  }

  /** A reporting write or a SetZero. */
  predicate Breaks(h: seq<Timed>, k: nat)
    requires k < |h|
  {
    Rewrites(h, k) || Zeroes(h, k)
  }

  /** There was a report, and nothing has broken the chain since. */
  ghost predicate Chained(h: seq<Timed>, n: nat)
    requires n <= |h|
  {
    PrevReport(h, n).Some? && forall j: nat | PrevReport(h, n).value < j < n :: !Breaks(h, j)
  }

  /** The previous report came within the window of the latest SetZero. */
  predicate AfterZero(h: seq<Timed>, k: nat)
    requires k < |h|
  {
    PrevReport(h, k).Some? && LastZero(h, k).Some? && h[PrevReport(h, k).value].t - h[LastZero(h, k).value].t <= 1.5
  }

  /** The intervals between consecutive reports that no break spans and that do not start after a SetZero. */
  ghost function Periods(h: seq<Timed>, n: nat): seq<real>
    requires n <= |h|
  {
    if n == 0 then []
    else if Reports(h, n - 1) && Chained(h, n - 1) && !AfterZero(h, n - 1)
    then Periods(h, n - 1) + [(h[n - 1].t - h[PrevReport(h, n - 1).value].t) * 1000.0]
    else Periods(h, n - 1)
  }

  function TimeAt(h: seq<Timed>, k: Option<nat>): Option<real>
    requires k.Some? ==> k.value < |h|
  {
    if k.None? then None else Some(h[k.value].t)
  }

  ghost predicate ChainMeans(h: seq<Timed>, n: nat, r: ReportWindow)
    requires n <= |h|
  {
    && r.last == TimeAt(h, PrevReport(h, n)) && r.lastSetZero == TimeAt(h, LastZero(h, n))
    && r.chained == Chained(h, n) && r.periods == Periods(h, n)
  }

  lemma {:induction false} ChainedNext(h: seq<Timed>, n: nat)
    requires n < |h|
    ensures Chained(h, n + 1) <==> Reports(h, n) || (Chained(h, n) && !Breaks(h, n))
  {
  }

  lemma {:induction false} ChainStep(h: seq<Timed>, n: nat, r: ReportWindow)
    requires n < |h| && ChainMeans(h, n, r)
    ensures ChainMeans(h, n + 1, r.Expire(h[n].t).On(h[n].t, h[n].wire))
  {
    ChainedNext(h, n);
    var x := r.Expire(h[n].t);
    assert (x.last, x.chained, x.lastSetZero, x.periods) == (r.last, r.chained, r.lastSetZero, r.periods);
    ChainFrame(h, n, x);
  }

  lemma {:induction false} ChainFrame(h: seq<Timed>, n: nat, r: ReportWindow)
    requires n < |h| && ChainMeans(h, n, r)
    ensures ChainMeans(h, n + 1, r.On(h[n].t, h[n].wire))
  {
    ChainedNext(h, n);
  }

  lemma {:induction false} PeriodsAreUnbroken(h: seq<Timed>, n: nat)
    requires n <= |h|
    ensures ChainMeans(h, n, RunTo(h, n).report)
  {
    if n > 0 {
      PeriodsAreUnbroken(h, n - 1);
      ChainStep(h, n - 1, RunTo(h, n - 1).report);
      ReportPart(RunTo(h, n - 1), h[n - 1]);
    }
  }

  lemma {:induction false} ReportPart(d: DriveView, e: Timed)
    ensures Step(d, e).report == d.report.Expire(e.t).On(e.t, e.wire)
  {
  }

  // ----- Reports after an Off

  /** An Off sent while the drive's stream was running. */
  predicate StopsStream(h: seq<Timed>, w: nat)
    requires w < |h|
  {
    TurnsOff(h, w) && LastReport(h, w).Some? && h[w].t - LastReport(h, w).value <= 0.030
  }

  /** The first reporting write after frame `w`, among the first `n` frames. */
  function NextWrite(h: seq<Timed>, w: nat, n: nat): (x: Option<nat>)
    requires w < |h| && n <= |h|
    ensures x.Some? ==> w < x.value < n && Rewrites(h, x.value)
  {
    if n <= w + 1 then None
    else
      var x := NextWrite(h, w, n - 1);
      if x.Some? then x else if Rewrites(h, n - 1) then Some(n - 1) else None
  }

  /** The reports after frame `w` and before frame `m` that come within its window. */
  function ReportsAfter(h: seq<Timed>, w: nat, m: nat): seq<real>
    requires w < |h| && m <= |h|
  {
    if m <= w + 1 then []
    else if Reports(h, m - 1) && h[m - 1].t - h[w].t <= 0.5 then ReportsAfter(h, w, m - 1) + [h[m - 1].t]
    else ReportsAfter(h, w, m - 1)
  }

  function LastOf(times: seq<real>): Option<real> {
    if times == [] then None else Some(times[|times| - 1])
  }

  function WithoutLast(times: seq<real>): seq<real> {
    if times == [] then [] else times[..|times| - 1]
  }

  /** Milliseconds from the Off at frame `w` to its last report, after `n` frames; a report just before the next write is that write's. */
  function OffValue(h: seq<Timed>, w: nat, n: nat): real
    requires w < |h| && n <= |h|
  {
    var x := NextWrite(h, w, n);
    var reports := ReportsAfter(h, w, if x.Some? then x.value else n);
    var last := LastOf(reports);
    var kept := if x.Some? && h[x.value].t - h[w].t <= 0.5 && last.Some? && h[x.value].t - last.value < 0.0005
                then LastOf(WithoutLast(reports)) else last;
    if kept.None? then 0.0 else (kept.value - h[w].t) * 1000.0
  }

  /** The values of all such Offs among the first `j` frames, in order. */
  function OffValues(h: seq<Timed>, j: nat, n: nat): seq<real>
    requires j <= |h| && n <= |h|
  {
    if j == 0 then []
    else if StopsStream(h, j - 1) then OffValues(h, j - 1, n) + [OffValue(h, j - 1, n)]
    else OffValues(h, j - 1, n)
  }

  function LastWrite(h: seq<Timed>, n: nat): (w: Option<nat>)
    requires n <= |h|
    ensures w.Some? ==> w.value < n && Rewrites(h, w.value)
  {
    if n == 0 then None else if Rewrites(h, n - 1) then Some(n - 1) else LastWrite(h, n - 1)
  }

  lemma {:induction false} NoWriteSince(h: seq<Timed>, n: nat)
    requires n <= |h|
    ensures forall k: nat | (if LastWrite(h, n).Some? then LastWrite(h, n).value + 1 else 0) <= k < n :: !Rewrites(h, k)
  {
    if n > 0 {
      NoWriteSince(h, n - 1);
    }
  }

  predicate OffOpen(h: seq<Timed>, n: nat, now: real)
    requires n <= |h|
  {
    var w := LastWrite(h, n);
    w.Some? && StopsStream(h, w.value) && now - h[w.value].t <= OFF_WINDOW
  }

  /** The window that is open at `now`, after `n` frames, and the values of the closed ones. */
  ghost predicate OffMeans(h: seq<Timed>, n: nat, now: real, r: ReportWindow)
    requires n <= |h|
  {
    if OffOpen(h, n, now) then
      var w := LastWrite(h, n).value;
      var reports := ReportsAfter(h, w, n);
      && r.off == Some(OffWindow(h[w].t, LastOf(reports), LastOf(WithoutLast(reports))))
      && r.offToLast == OffValues(h, w, n)
    else r.off.None? && r.offToLast == OffValues(h, n, n)
  }

  lemma {:induction false} NoWriteNoValue(h: seq<Timed>, i: nat, j: nat, n: nat)
    requires i <= j <= |h| && n <= |h| && forall k: nat | i <= k < j :: !Rewrites(h, k)
    ensures OffValues(h, j, n) == OffValues(h, i, n)
  {
    if i < j {
      NoWriteNoValue(h, i, j - 1, n);
      assert !Rewrites(h, j - 1);
    }
  }

  lemma {:induction false} NoNextWrite(h: seq<Timed>, w: nat, n: nat)
    requires w < n <= |h| && forall k: nat | w < k < n :: !Rewrites(h, k)
    ensures NextWrite(h, w, n) == None
  {
    if n > w + 1 {
      NoNextWrite(h, w, n - 1);
    }
  }

  /** Closing without a write records the open Off. */
  lemma {:induction false} CloseRecords(h: seq<Timed>, n: nat, now: real, r: ReportWindow)
    requires n <= |h| && OffMeans(h, n, now, r)
    ensures r.CloseOff(None).off.None? && r.CloseOff(None).offToLast == OffValues(h, n, n)
  {
    if OffOpen(h, n, now) {
      var w := LastWrite(h, n).value;
      NoWriteSince(h, n);
      NoNextWrite(h, w, n);
      NoWriteNoValue(h, w + 1, n, n);
    }
  }

  lemma {:induction false} ExpireOff(h: seq<Timed>, n: nat, now: real, later: real, r: ReportWindow)
    requires n <= |h| && now <= later && OffMeans(h, n, now, r)
    ensures OffMeans(h, n, later, r.Expire(later))
  {
    CloseRecords(h, n, now, r);
  }

  lemma {:induction false} HasNextWrite(h: seq<Timed>, w: nat, k: nat, n: nat)
    requires w < k < n <= |h| && Rewrites(h, k)
    ensures NextWrite(h, w, n).Some?
  {
    if k < n - 1 {
      HasNextWrite(h, w, k, n - 1);
    }
  }

  /** Frame `n` cannot change the value of the Off at frame `w`. */
  predicate Settled(h: seq<Timed>, w: nat, n: nat)
    requires w < n < |h|
  {
    NextWrite(h, w, n).Some? || h[n].t - h[w].t > OFF_WINDOW || (!Rewrites(h, n) && !Reports(h, n))
  }

  lemma {:induction false} ValuesStay(h: seq<Timed>, j: nat, n: nat)
    requires j <= n < |h| && forall w: nat | w < j && StopsStream(h, w) :: Settled(h, w, n)
    ensures OffValues(h, j, n + 1) == OffValues(h, j, n)
  {
    if j > 0 {
      ValuesStay(h, j - 1, n);
      if StopsStream(h, j - 1) {
        assert Settled(h, j - 1, n);
        assert OffValue(h, j - 1, n + 1) == OffValue(h, j - 1, n);
      }
    }
  }

  /** All Offs before the last write are settled. */
  lemma {:induction false} EarlierSettled(h: seq<Timed>, n: nat)
    requires n < |h| && LastWrite(h, n).Some?
    ensures OffValues(h, LastWrite(h, n).value, n + 1) == OffValues(h, LastWrite(h, n).value, n)
  {
    var last := LastWrite(h, n).value;
    forall w: nat | w < last && StopsStream(h, w) ensures Settled(h, w, n) {
      HasNextWrite(h, w, last, n);
    }
    ValuesStay(h, last, n);
  }

  lemma {:induction false} AllSettled(h: seq<Timed>, n: nat)
    requires n < |h| && (OffOpen(h, n, h[n].t) ==> !Rewrites(h, n) && !Reports(h, n))
    ensures OffValues(h, n, n + 1) == OffValues(h, n, n)
  {
    NoWriteSince(h, n);
    forall w: nat | w < n && StopsStream(h, w) ensures Settled(h, w, n) {
      assert Rewrites(h, w);
      if w < LastWrite(h, n).value {
        HasNextWrite(h, w, LastWrite(h, n).value, n);
      }
    }
    ValuesStay(h, n, n);
  }

  /** A write closes the open Off, and opens a new one when it stops a running stream. */
  lemma {:induction false} WriteMeans(h: seq<Timed>, n: nat, r: ReportWindow)
    requires n < |h| && Rewrites(h, n) && OffMeans(h, n, h[n].t, r)
    ensures r.CloseOff(Some(h[n].t)).off.None? && r.CloseOff(Some(h[n].t)).offToLast == OffValues(h, n, n + 1)
  {
    if OffOpen(h, n, h[n].t) {
      EarlierSettled(h, n);
      WrittenValue(h, n);
    } else {
      AllSettled(h, n);
    }
  }

  /** The value of the open Off that the write at frame `n` closes. */
  lemma {:induction false} WrittenValue(h: seq<Timed>, n: nat)
    requires n < |h| && Rewrites(h, n) && OffOpen(h, n, h[n].t)
    ensures var w := LastWrite(h, n).value;
            var reports := ReportsAfter(h, w, n);
            var last := LastOf(reports);
            var kept := if last.Some? && h[n].t - last.value < ECHO_LAG then LastOf(WithoutLast(reports)) else last;
            OffValues(h, n, n + 1) == OffValues(h, w, n + 1) + [if kept.None? then 0.0 else Ms(kept.value - h[w].t)]
  {
    WriteIsNext(h, n);
  }

  lemma {:induction false} WriteIsNext(h: seq<Timed>, n: nat)
    requires n < |h| && Rewrites(h, n) && LastWrite(h, n).Some?
    ensures NextWrite(h, LastWrite(h, n).value, n + 1) == Some(n)
    ensures OffValues(h, n, n + 1) == OffValues(h, LastWrite(h, n).value + 1, n + 1)
  {
    var w := LastWrite(h, n).value;
    NoWriteSince(h, n);
    NoNextWrite(h, w, n);
    NoWriteNoValue(h, w + 1, n, n + 1);
  }

  lemma {:induction false} OffFrame(h: seq<Timed>, n: nat, r: ReportWindow)
    requires n < |h| && OffMeans(h, n, h[n].t, r) && r.last == LastReport(h, n)
    ensures OffMeans(h, n + 1, h[n].t, r.On(h[n].t, h[n].wire))
  {
    if Rewrites(h, n) {
      WriteMeans(h, n, r);
      assert StopsStream(h, n) ==> ReportsAfter(h, n, n + 1) == [];
    } else if OffOpen(h, n, h[n].t) {
      EarlierSettled(h, n);
    } else {
      AllSettled(h, n);
    }
  }

  lemma {:induction false} OffsRun(h: seq<Timed>, n: nat, now: real)
    requires Ordered(h) && n <= |h| && (n > 0 ==> h[n - 1].t <= now)
    ensures OffMeans(h, n, now, RunTo(h, n).report.Expire(now))
  {
    if n > 0 {
      var t := h[n - 1].t;
      OffsRun(h, n - 1, t);
      LastReportIs(h, n - 1);
      var r := RunTo(h, n - 1).report.Expire(t);
      OffFrame(h, n - 1, r);
      ReportPart(RunTo(h, n - 1), h[n - 1]);
      ExpireOff(h, n, t, now, RunTo(h, n).report);
    }
  }

  /**
    After a file: the report periods are those of unbroken chains, each Off that
    stopped a running stream is credited with its last report, MIT latencies are
    those of the matching, and the unanswered count is the MIT commands that no
    status answered within their window.
   */
  lemma {:induction false} ReportsArePaired(h: seq<Timed>, end: real)
    requires InOrder(h, end)
    ensures var d := RunFile(FRESH, h, end);
            && d.report.periods == Periods(h, |h|)
            && d.report.offToLast == OffValues(h, |h|, |h|)
            && d.status.replies == MitReplies(h, |h|)
            && d.status.unanswered == LostMits(h, |h|, |h|, end)
  {
    var n := |h|;
    RunToIsRun(h, n);
    assert h[..n] == h;
    PeriodsAreUnbroken(h, n);
    MitRepliesAreMatched(h, n);
    UnansweredAreLost(h, n, end);
    OffsRun(h, n, end);
    ReportsEnd(h, RunTo(h, n), end);
  }

  lemma {:induction false} ReportsEnd(h: seq<Timed>, d: DriveView, end: real)
    requires OffMeans(h, |h|, end, d.report.Expire(end))
    ensures d.FinishFile(end).report.periods == d.report.periods
    ensures d.FinishFile(end).report.offToLast == OffValues(h, |h|, |h|)
    ensures d.FinishFile(end).status.replies == d.status.replies
    ensures d.FinishFile(end).status.unanswered == d.status.Expire(end).unanswered
  {
    CloseRecords(h, |h|, end, d.report.Expire(end));
    ExpiryKeepsReplies(d.status, end);
  }
}
