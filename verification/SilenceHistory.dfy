/**
  The silence after each SetZero: the longest observable gap of its window, over
  the whole history of the drive's frames.
 */
module SilenceHistory {
  import opened Basics
  import opened DriveTiming
  import opened DriveRuns
  import opened StatusMatching
  import opened DriveHistory

  // ----- Which gaps are observable silence

  /** Time of the latest report among the first `n` frames. */
  function LastReport(h: seq<Timed>, n: nat): Option<real>
    requires n <= |h|
  {
    if n == 0 then None else if Reports(h, n - 1) then Some(h[n - 1].t) else LastReport(h, n - 1)
  }

  lemma {:induction false} LastReportIs(h: seq<Timed>, n: nat)
    requires n <= |h|
    ensures RunTo(h, n).report.last == LastReport(h, n)
  {
    if n > 0 {
      LastReportIs(h, n - 1);
      StepReport(RunTo(h, n - 1), h[n - 1]);
    }
  }

  lemma {:induction false} StepReport(d: DriveView, e: Timed)
    ensures Step(d, e).report.last == if e.wire.Drive? && e.wire.frame.Report? then Some(e.t) else d.report.last
  {
  }

  /** Frame `k` ends a gap in the drive's frames. */
  predicate EndsGap(h: seq<Timed>, k: nat)
    requires k < |h|
  {
    h[k].wire.Drive? && PrevFrame(h, k).Some?
  }

  function GapAt(h: seq<Timed>, k: nat): Gap
    requires k < |h| && EndsGap(h, k)
  {
    Gap(h[PrevFrame(h, k).value].t, h[k].t)
  }

  /** A report ends the gap, reports were running up to its start, and no reporting write fell into it. */
  ghost predicate StreamOwes(h: seq<Timed>, k: nat)
    requires k < |h| && EndsGap(h, k)
  {
    && Reports(h, k) && Streaming(h, k) && !Rewritten(h, GapFrom(h, k), k)
    && LastReport(h, k).Some? && GapAt(h, k).start - LastReport(h, k).value <= 0.030
  }

  /**
    Both ends of the gap are statuses that answer a solicit, requests but no
    reporting write fell into it, and no two consecutive frames across it are
    more than the shortest silence apart.
   */
  ghost predicate RequestsOwe(h: seq<Timed>, k: nat)
    requires k < |h| && EndsGap(h, k)
  {
    var p := PrevFrame(h, k).value;
    && Answered(h, p) && Answered(h, k) && Requested(h, p + 1, k) && !Rewritten(h, p + 1, k)
    && forall j: nat | p < j <= k :: !Pauses(h, j)
  }

  /** The flags decide exactly what the history says about the gap. */
  lemma {:induction false} OwedIff(h: seq<Timed>, k: nat)
    requires Ordered(h) && k < |h| && EndsGap(h, k)
    ensures Since(h, k).StreamOwed(h[k].wire.frame, LastReport(h, k)) <==> StreamOwes(h, k)
    ensures Since(h, k).RequestsOwed(h[k].t, Answered(h, k)) <==> RequestsOwe(h, k)
  {
    StreamingMeansOn(h, k);
    var p := PrevFrame(h, k).value;
    assert (forall j: nat | p < j <= k :: !Pauses(h, j)) <==> !Sparse(h, p + 1, k) && !Pauses(h, k);
  }

  // ----- The gaps of one SetZero window

  predicate Zeroes(h: seq<Timed>, k: nat)
    requires k < |h|
  {
    h[k].wire == Host(SetZero)
  }

  /** Frame `k` ends an observable silence inside the window of the SetZero at frame `z`. */
  ghost predicate Qualifies(h: seq<Timed>, z: nat, k: nat)
    requires z < |h| && k < |h|
  {
    && z < k && EndsGap(h, k)
    && GapAt(h, k).start >= h[z].t && GapAt(h, k).end - GapAt(h, k).start >= 0.020
    && (StreamOwes(h, k) || RequestsOwe(h, k))
    && h[k].t - h[z].t <= 1.5
    && forall j: nat | z < j < k :: !Zeroes(h, j)
  }

  function Length(gap: Gap): real {
    gap.end - gap.start
  }

  /** The first longest gap of the SetZero at frame `z` among the first `n` frames. */
  ghost function BestOf(h: seq<Timed>, z: nat, n: nat): Option<Gap>
    requires z < |h| && n <= |h|
  {
    if n == 0 then None
    else
      var best := BestOf(h, z, n - 1);
      if Qualifies(h, z, n - 1) && (best.None? || Length(GapAt(h, n - 1)) > Length(best.value))
      then Some(GapAt(h, n - 1)) else best
  }

  /** It is one of the qualifying gaps and none is longer; there is none only when no gap qualifies. */
  lemma {:induction false} BestIsLongest(h: seq<Timed>, z: nat, n: nat)
    requires z < |h| && n <= |h|
    ensures BestOf(h, z, n).None? <==> forall k: nat | k < n :: !Qualifies(h, z, k)
    ensures BestOf(h, z, n).Some? ==>
              && (exists k: nat | k < n :: Qualifies(h, z, k) && GapAt(h, k) == BestOf(h, z, n).value)
              && forall k: nat | k < n && Qualifies(h, z, k) :: Length(GapAt(h, k)) <= Length(BestOf(h, z, n).value)
  {
    if n > 0 {
      BestIsLongest(h, z, n - 1);
    }
  }

  // ----- What the SetZeros are credited with

  datatype Credit = Credit(starts: seq<real>, silences: seq<real>, unobservable: nat) {
    /** One more SetZero, at `at`, whose longest silence is `best`. */
    function With(at: real, best: Option<Gap>): Credit {
      match best
      case None => this.(unobservable := unobservable + 1)
      case Some(gap) => this.(starts := starts + [(gap.start - at) * 1000.0], silences := silences + [Length(gap) * 1000.0])
    }
  }

  /** The credit of every SetZero among the first `j` frames, as seen after `n` frames. */
  ghost function Credits(h: seq<Timed>, n: nat, j: nat): Credit
    requires n <= |h| && j <= |h|
  {
    if j == 0 then Credit([], [], 0)
    else if Zeroes(h, j - 1) then Credits(h, n, j - 1).With(h[j - 1].t, BestOf(h, j - 1, n))
    else Credits(h, n, j - 1)
  }

  function Recorded(s: SilenceWindow): Credit {
    Credit(s.starts, s.silences, s.unobservable)
  }

  function LastZero(h: seq<Timed>, n: nat): (z: Option<nat>)
    requires n <= |h|
    ensures z.Some? ==> z.value < n && Zeroes(h, z.value)
  {
    if n == 0 then None else if Zeroes(h, n - 1) then Some(n - 1) else LastZero(h, n - 1)
  }

  lemma {:induction false} NoneAfterLast(h: seq<Timed>, n: nat)
    requires n <= |h|
    ensures forall k: nat | (if LastZero(h, n).Some? then LastZero(h, n).value + 1 else 0) <= k < n :: !Zeroes(h, k)
  {
    if n > 0 {
      NoneAfterLast(h, n - 1);
    }
  }

  lemma {:induction false} CreditsPastLast(h: seq<Timed>, m: nat, n: nat, j: nat)
    requires m <= |h| && n <= j <= |h| && forall k: nat | n <= k < j :: !Zeroes(h, k)
    ensures Credits(h, m, j) == Credits(h, m, n)
  {
    if n < j {
      CreditsPastLast(h, m, n, j - 1);
    }
  }

  /** A frame that no earlier SetZero can use leaves their credit alone. */
  lemma {:induction false} CreditsSettled(h: seq<Timed>, n: nat, j: nat)
    requires n < |h| && j <= |h| && forall z: nat | z < j && Zeroes(h, z) :: !Qualifies(h, z, n)
    ensures Credits(h, n + 1, j) == Credits(h, n, j)
  {
    if j > 0 {
      CreditsSettled(h, n, j - 1);
    }
  }

  /** What the silence window holds at `now`, after the first `n` frames. */
  ghost predicate Holds(h: seq<Timed>, n: nat, now: real, s: SilenceWindow)
    requires n <= |h|
  {
    var z := LastZero(h, n);
    if z.Some? && now - h[z.value].t <= SET_ZERO_WINDOW
    then s.window == Some(SetZeroWindow(h[z.value].t, BestOf(h, z.value, n))) && Recorded(s) == Credits(h, n, z.value)
    else s.window.None? && Recorded(s) == Credits(h, n, n)
  }

  /** A closed window has credited every SetZero. */
  lemma {:induction false} CloseCredits(h: seq<Timed>, n: nat, now: real, s: SilenceWindow)
    requires n <= |h| && Holds(h, n, now, s)
    ensures s.Close().window.None? && Recorded(s.Close()) == Credits(h, n, n)
  {
    var z := LastZero(h, n);
    if z.Some? {
      NoneAfterLast(h, n);
      CreditsPastLast(h, n, z.value + 1, n);
    }
  }

  lemma {:induction false} ExpireHolds(h: seq<Timed>, n: nat, now: real, later: real, s: SilenceWindow)
    requires n <= |h| && now <= later && Holds(h, n, now, s)
    ensures Holds(h, n, later, s.Expire(later)) && s.Expire(later).seen == s.seen
  {
    CloseCredits(h, n, now, s);
  }

  lemma {:induction false} NothingBefore(h: seq<Timed>, z: nat, n: nat)
    requires n <= z + 1 <= |h|
    ensures BestOf(h, z, n) == None
  {
    if n > 0 {
      NothingBefore(h, z, n - 1);
    }
  }

  lemma {:induction false} HostHolds(h: seq<Timed>, n: nat, s: SilenceWindow)
    requires n < |h| && h[n].wire.Host? && Holds(h, n, h[n].t, s)
    ensures Holds(h, n + 1, h[n].t, s.OnHost(h[n].t, h[n].wire.command))
  {
    var z := LastZero(h, n);
    CreditsSettled(h, n, n);
    if Zeroes(h, n) {
      CloseCredits(h, n, h[n].t, s);
      NothingBefore(h, n, n + 1);
    } else if z.Some? {
      CreditsSettled(h, n, z.value);
    }
  }

  /** Only the latest SetZero can use the gap that frame `n` ends, and only while its window is open. */
  lemma {:induction false} OnlyLatestQualifies(h: seq<Timed>, n: nat, z: nat)
    requires n < |h| && z < n && Zeroes(h, z)
    requires LastZero(h, n) != Some(z) || h[n].t - h[z].t > SET_ZERO_WINDOW
    ensures !Qualifies(h, z, n)
  {
    if LastZero(h, n) != Some(z) {
      NoneAfterLast(h, n);
      assert Zeroes(h, LastZero(h, n).value);
    }
  }

  /** The window improves exactly on the gaps that qualify and are longer. */
  lemma {:induction false} ImprovesIff(h: seq<Timed>, n: nat, z: nat, s: SilenceWindow)
    requires Ordered(h) && n < |h| && h[n].wire.Drive? && s.seen == Since(h, n)
    requires LastZero(h, n) == Some(z) && h[n].t - h[z].t <= SET_ZERO_WINDOW
    requires s.window == Some(SetZeroWindow(h[z].t, BestOf(h, z, n)))
    ensures s.Improves(h[n].t, h[n].wire.frame, Answered(h, n), LastReport(h, n))
       <==> Qualifies(h, z, n) && (BestOf(h, z, n).None? || Length(GapAt(h, n)) > Length(BestOf(h, z, n).value))
  {
    NoneAfterLast(h, n);
    if EndsGap(h, n) {
      OwedIff(h, n);
    }
  }

  lemma {:induction false} DriveHolds(h: seq<Timed>, n: nat, s: SilenceWindow)
    requires Ordered(h) && n < |h| && h[n].wire.Drive? && s.seen == Since(h, n) && Holds(h, n, h[n].t, s)
    ensures Holds(h, n + 1, h[n].t, s.OnDrive(h[n].t, h[n].wire.frame, Answered(h, n), LastReport(h, n)))
  {
    var z := LastZero(h, n);
    var open := z.Some? && h[n].t - h[z.value].t <= SET_ZERO_WINDOW;
    var j := if open then z.value else n;
    forall i: nat | i < j && Zeroes(h, i) ensures !Qualifies(h, i, n) {
      OnlyLatestQualifies(h, n, i);
    }
    CreditsSettled(h, n, j);
    if open {
      ImprovesIff(h, n, z.value, s);
    }
  }

  lemma {:induction false} StepSilence(d: DriveView, e: Timed)
    ensures Step(d, e).silence
         == match e.wire
            case Host(command) => d.silence.Expire(e.t).OnHost(e.t, command)
            case Drive(frame) => d.silence.Expire(e.t).OnDrive(e.t, frame, d.Expire(e.t).status.Answers(e.t, frame), d.report.last)
  {
  }

  /** Frame `n` of the run: the window before it, and the window after. */
  lemma {:induction false} HoldsNext(h: seq<Timed>, n: nat, now: real, d: DriveView)
    requires Ordered(h) && n < |h| && now <= h[n].t && d == RunTo(h, n) && Holds(h, n, now, d.silence)
    ensures Holds(h, n + 1, h[n].t, RunTo(h, n + 1).silence)
  {
    StepSilence(d, h[n]);
    ExpireHolds(h, n, now, h[n].t, d.silence);
    if h[n].wire.Host? {
      HostHolds(h, n, d.silence.Expire(h[n].t));
    } else {
      FlagsMeanHistory(h, n);
      AnsweredIff(h, n);
      LastReportIs(h, n);
      DriveHolds(h, n, d.silence.Expire(h[n].t));
    }
  }

  lemma {:induction false} RunHolds(h: seq<Timed>, n: nat)
    requires Ordered(h) && n <= |h|
    ensures Holds(h, n, if n == 0 then 0.0 else h[n - 1].t, RunTo(h, n).silence)
  {
    if n > 0 {
      if n == 1 {
        assert Holds(h, 0, h[0].t, FRESH.silence);
        HoldsNext(h, 0, h[0].t, FRESH);
      } else {
        RunHolds(h, n - 1);
        HoldsNext(h, n - 1, h[n - 2].t, RunTo(h, n - 1));
      }
    }
  }

  /**
    After the end of a file every SetZero of the file is credited, in order, with
    the longest observable silence of its window, or counted as unobservable when
    no gap of its window is.
   */
  lemma {:induction false} SilencesAreLongest(h: seq<Timed>, end: real)
    requires InOrder(h, end)
    ensures Recorded(RunFile(FRESH, h, end).silence) == Credits(h, |h|, |h|)
  {
    var n := |h|;
    RunToIsRun(h, n);
    assert h[..n] == h;
    RunHolds(h, n);
    var now := if n == 0 then 0.0 else h[n - 1].t;
    if n == 0 {
      assert Holds(h, 0, end, FRESH.silence);
      CloseCredits(h, 0, end, FRESH.silence);
    } else {
      ExpireHolds(h, n, now, end, RunTo(h, n).silence);
      CloseCredits(h, n, end, RunTo(h, n).silence.Expire(end));
    }
  }
}
