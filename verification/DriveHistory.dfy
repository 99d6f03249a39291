/** What the incremental silence evidence says about the history of a drive's frames. */
module DriveHistory {
  import opened Basics
  import opened DriveTiming
  import opened DriveRuns
  import opened StatusMatching

  /** The latest of the first `n` frames that the drive sent. */
  function PrevFrame(h: seq<Timed>, n: nat): (p: Option<nat>)
    requires n <= |h|
    ensures p.Some? ==> p.value < n && h[p.value].wire.Drive?
  {
    if n == 0 then None else if h[n - 1].wire.Drive? then Some(n - 1) else PrevFrame(h, n - 1)
  }

  /** The first frame after the drive's last one. */
  function GapFrom(h: seq<Timed>, n: nat): (from: nat)
    requires n <= |h|
    ensures from <= n
  {
    var p := PrevFrame(h, n);
    if p.None? then 0 else p.value + 1
  }

  predicate Requests(h: seq<Timed>, k: nat)
    requires k < |h|
  {
    h[k].wire.Host?
  }

  predicate Rewrites(h: seq<Timed>, k: nat)
    requires k < |h|
  {
    h[k].wire.Host? && h[k].wire.command.ActiveReporting?
  }

  predicate TurnsOff(h: seq<Timed>, k: nat)
    requires k < |h|
  {
    h[k].wire == Host(ActiveReporting(false))
  }

  predicate Reports(h: seq<Timed>, k: nat)
    requires k < |h|
  {
    h[k].wire.Drive? && h[k].wire.frame.Report?
  }

  /** More than the shortest silence passed before frame `k`. */
  predicate Pauses(h: seq<Timed>, k: nat)
    requires k < |h|
  {
    k > 0 && h[k].t - h[k - 1].t > 0.020
  }

  /** The last reporting write before frame `n` turned reporting off. */
  ghost predicate ReportingOff(h: seq<Timed>, n: nat)
    requires n <= |h|
  {
    exists w: nat | w < n :: TurnsOff(h, w) && forall k: nat | w < k < n :: !Rewrites(h, k)
  }

  /** A report came in while reporting was not off, and no Off since. */
  ghost predicate Streaming(h: seq<Timed>, n: nat)
    requires n <= |h|
  {
    exists r: nat | r < n :: Reports(h, r) && !ReportingOff(h, r) && forall k: nat | r < k < n :: !TurnsOff(h, k)
  }

  ghost function Since(h: seq<Timed>, n: nat): Evidence
    requires n <= |h|
  {
    var p, from := PrevFrame(h, n), GapFrom(h, n);
    Evidence(
      if p.None? then None else Some(h[p.value].t),
      Streaming(h, n),
      ReportingOff(h, n),
      p.Some? && Answered(h, p.value),
      if n == 0 then None else Some(h[n - 1].t),
      Requested(h, from, n), Rewritten(h, from, n), Sparse(h, from, n))
  }

  ghost predicate Requested(h: seq<Timed>, from: nat, n: nat)
    requires n <= |h|
  {
    exists k: nat | from <= k < n :: Requests(h, k)
  }

  ghost predicate Rewritten(h: seq<Timed>, from: nat, n: nat)
    requires n <= |h|
  {
    exists k: nat | from <= k < n :: Rewrites(h, k)
  }

  ghost predicate Sparse(h: seq<Timed>, from: nat, n: nat)
    requires n <= |h|
  {
    exists k: nat | from <= k < n :: Pauses(h, k)
  }

  lemma {:induction false} OneMoreFrame(h: seq<Timed>, from: nat, n: nat)
    requires from <= n < |h|
    ensures Requested(h, from, n + 1) <==> Requested(h, from, n) || Requests(h, n)
    ensures Rewritten(h, from, n + 1) <==> Rewritten(h, from, n) || Rewrites(h, n)
    ensures Sparse(h, from, n + 1) <==> Sparse(h, from, n) || Pauses(h, n)
  {
  }

  lemma {:induction false} ReportingOffNext(h: seq<Timed>, n: nat)
    requires n < |h|
    ensures ReportingOff(h, n + 1) <==> if Rewrites(h, n) then TurnsOff(h, n) else ReportingOff(h, n)
  {
    if Rewrites(h, n) {
      if TurnsOff(h, n) {
        assert n < n + 1;
      }
    } else if ReportingOff(h, n) {
      var w: nat :| w < n && TurnsOff(h, w) && forall k: nat | w < k < n :: !Rewrites(h, k);
      assert w < n + 1 && forall k: nat | w < k < n + 1 :: !Rewrites(h, k);
    }
  }

  lemma {:induction false} StreamingNext(h: seq<Timed>, n: nat)
    requires n < |h|
    ensures Streaming(h, n + 1) <==> if Reports(h, n) then Streaming(h, n) || !ReportingOff(h, n) else Streaming(h, n) && !TurnsOff(h, n)
  {
    if Streaming(h, n) && !TurnsOff(h, n) {
      var r: nat :| r < n && Reports(h, r) && !ReportingOff(h, r) && forall k: nat | r < k < n :: !TurnsOff(h, k);
      assert r < n + 1 && forall k: nat | r < k < n + 1 :: !TurnsOff(h, k);
    }
  }

  /** Streaming evidence never outlives an Off. */
  lemma {:induction false} StreamingMeansOn(h: seq<Timed>, n: nat)
    requires n <= |h|
    ensures Streaming(h, n) ==> !ReportingOff(h, n)
  {
    if n > 0 {
      StreamingMeansOn(h, n - 1);
      StreamingNext(h, n - 1);
      ReportingOffNext(h, n - 1);
    }
  }

  lemma {:induction false} SinceHost(h: seq<Timed>, n: nat)
    requires n < |h| && h[n].wire.Host?
    ensures Since(h, n + 1) == Since(h, n).OnHost(h[n].t, h[n].wire.command)
  {
    ReportingOffNext(h, n);
    StreamingNext(h, n);
    OneMoreFrame(h, GapFrom(h, n), n);
  }

  lemma {:induction false} SinceDrive(h: seq<Timed>, n: nat)
    requires n < |h| && h[n].wire.Drive?
    ensures Since(h, n + 1) == Since(h, n).OnDrive(h[n].t, h[n].wire.frame, Answered(h, n))
  {
    ReportingOffNext(h, n);
    StreamingNext(h, n);
    StreamingMeansOn(h, n);
  }

  lemma {:induction false} StepSeen(d: DriveView, e: Timed)
    ensures Step(d, e).silence.seen
         == match e.wire
            case Host(command) => d.silence.seen.OnHost(e.t, command)
            case Drive(frame) => d.silence.seen.OnDrive(e.t, frame, d.Expire(e.t).status.Answers(e.t, frame))
  {
  }

  lemma {:induction false} SeenAfter(h: seq<Timed>, n: nat, d: DriveView)
    requires Ordered(h) && n < |h| && d == RunTo(h, n) && d.silence.seen == Since(h, n)
    ensures Step(d, h[n]).silence.seen == Since(h, n + 1)
  {
    StepSeen(d, h[n]);
    if h[n].wire.Host? {
      SinceHost(h, n);
    } else {
      AnsweredIff(h, n);
      SinceDrive(h, n);
    }
  }

  /** The flags kept frame by frame are what the whole history says. */
  lemma {:induction false} FlagsMeanHistory(h: seq<Timed>, n: nat)
    requires Ordered(h) && n <= |h|
    ensures RunTo(h, n).silence.seen == Since(h, n)
  {
    if n == 0 {
      NothingSeen(h);
    } else {
      FlagsMeanHistory(h, n - 1);
      SeenNext(h, n - 1);
    }
  }

  lemma {:induction false} SeenNext(h: seq<Timed>, n: nat)
    requires Ordered(h) && n < |h| && RunTo(h, n).silence.seen == Since(h, n)
    ensures RunTo(h, n + 1).silence.seen == Since(h, n + 1)
  {
    SeenAfter(h, n, RunTo(h, n));
  }

  lemma {:induction false} NothingSeen(h: seq<Timed>)
    ensures Since(h, 0) == NO_EVIDENCE
  {
  }
}
