/**
  The four waits for a reply (Enable until Run, Disable until Reset, identity and
  parameter reads) over the whole history of a drive's frames: which request each
  recorded latency belongs to, and what became of the others.
 */
module ReplyHistory {
  import opened Basics
  import opened DriveTiming
  import opened DriveRuns
  import opened StatusMatching

  datatype Kind = ToRun | ToReset | ToIdentity | ToParam

  predicate Opens(kind: Kind, w: Wire) {
    match kind
    case ToRun => w == Host(Enable)
    case ToReset => w == Host(Disable)
    case ToIdentity => w == Host(GetDeviceId)
    case ToParam => w.Host? && w.command.ReadParameter?
  }

  /** A command that ends the wait without a reply. */
  predicate Cancels(kind: Kind, w: Wire) {
    match kind
    case ToRun => w == Host(Disable)
    case ToReset => w == Host(Enable)
    case _ => false
  }

  predicate InMode(w: Wire, mode: Mode) {
    w == Drive(Status(mode)) || w == Drive(Report(mode))
  }

  predicate Replies(kind: Kind, request: Wire, w: Wire)
    requires Opens(kind, request)
  {
    match kind
    case ToRun => InMode(w, Run)
    case ToReset => InMode(w, Reset)
    case ToIdentity => w == Drive(Identity)
    case ToParam => w == Drive(ParameterRead(request.command.index))
  }

  function Window(kind: Kind): real {
    if kind.ToRun? then 1.0 else 0.1
  }

  // ----- What the history says

  /** Frame `k` ends the wait of the request at frame `i`, one way or another. */
  predicate Ends(h: seq<Timed>, kind: Kind, i: nat, k: nat)
    requires i < |h| && k < |h| && Opens(kind, h[i].wire)
  {
    Opens(kind, h[k].wire) || Cancels(kind, h[k].wire) || Replies(kind, h[i].wire, h[k].wire)
  }

  /** The first frame after the request, among the first `n`, that ends its wait. */
  function FirstEnd(h: seq<Timed>, kind: Kind, i: nat, n: nat): (k: Option<nat>)
    requires i < |h| && n <= |h| && Opens(kind, h[i].wire)
    ensures k.Some? ==> i < k.value < n
  {
    if n <= i + 1 then None
    else
      var k := FirstEnd(h, kind, i, n - 1);
      if k.Some? then k else if Ends(h, kind, i, n - 1) then Some(n - 1) else None
  }

  lemma {:induction false} FirstEndIsFirst(h: seq<Timed>, kind: Kind, i: nat, n: nat)
    requires i < |h| && n <= |h| && Opens(kind, h[i].wire)
    ensures match FirstEnd(h, kind, i, n)
            case Some(k) => Ends(h, kind, i, k) && forall j: nat | i < j < k :: !Ends(h, kind, i, j)
            case None => forall j: nat | i < j < n :: !Ends(h, kind, i, j)
  {
    if n > i + 1 {
      FirstEndIsFirst(h, kind, i, n - 1);
    }
  }

  datatype Outcome = Replied(ms: real) | Missed | Waits

  /** What has become of the request at frame `i` by `now`, after `n` frames. */
  function OutcomeOf(h: seq<Timed>, kind: Kind, i: nat, n: nat, now: real): Outcome
    requires i < |h| && n <= |h| && Opens(kind, h[i].wire)
  {
    var k := FirstEnd(h, kind, i, n);
    if k.None? then (if now - h[i].t > Window(kind) then Missed else Waits)
    else if Opens(kind, h[k.value].wire) || Cancels(kind, h[k.value].wire) then Missed
    else if h[k.value].t - h[i].t > Window(kind) then Missed
    else Replied((h[k.value].t - h[i].t) * 1000.0)
  }

  datatype Tally = Tally(samples: seq<real>, missed: nat) {
    function With(o: Outcome): Tally {
      match o
      case Replied(ms) => Tally(samples + [ms], missed)
      case Missed => Tally(samples, missed + 1)
      case Waits => this
    }
  }

  /** The outcomes of all requests among the first `j` frames, in order. */
  function Outcomes(h: seq<Timed>, kind: Kind, j: nat, n: nat, now: real): Tally
    requires j <= |h| && n <= |h|
  {
    if j == 0 then Tally([], 0)
    else if Opens(kind, h[j - 1].wire) then Outcomes(h, kind, j - 1, n, now).With(OutcomeOf(h, kind, j - 1, n, now))
    else Outcomes(h, kind, j - 1, n, now)
  }

  function LastRequest(h: seq<Timed>, kind: Kind, n: nat): (r: Option<nat>)
    requires n <= |h|
    ensures r.Some? ==> r.value < n && Opens(kind, h[r.value].wire)
  {
    if n == 0 then None else if Opens(kind, h[n - 1].wire) then Some(n - 1) else LastRequest(h, kind, n - 1)
  }

  lemma {:induction false} NoneAfterLast(h: seq<Timed>, kind: Kind, n: nat)
    requires n <= |h|
    ensures forall j | (if LastRequest(h, kind, n).Some? then LastRequest(h, kind, n).value + 1 else 0) <= j < n :: !Opens(kind, h[j].wire)
  {
    if n > 0 {
      NoneAfterLast(h, kind, n - 1);
    }
  }

  // ----- One wait, frame by frame

  datatype Wait = Wait(open: Option<Timed>, tally: Tally) {
    function Expire(kind: Kind, now: real): Wait {
      if open.Some? && now - open.value.t > Window(kind) then Wait(None, tally.With(Missed)) else this
    }

    function On(kind: Kind, e: Timed): Wait
      requires open.Some? ==> Opens(kind, open.value.wire)
    {
      var dropped := if open.Some? then tally.With(Missed) else tally;
      if Opens(kind, e.wire) then Wait(Some(e), dropped)
      else if Cancels(kind, e.wire) then Wait(None, dropped)
      else if open.Some? && Replies(kind, open.value.wire, e.wire)
      then Wait(None, tally.With(Replied(Ms(e.t - open.value.t))))
      else this
    }
  }

  /** The request that still waits, and the outcomes of the others. */
  ghost predicate Means(h: seq<Timed>, kind: Kind, n: nat, now: real, w: Wait)
    requires n <= |h|
  {
    var r := LastRequest(h, kind, n);
    && w.tally == Outcomes(h, kind, n, n, now)
    && w.open == if r.Some? && OutcomeOf(h, kind, r.value, n, now).Waits? then Some(h[r.value]) else None
  }

  /** Requests before frame `j` are settled once a later request has been sent. */
  lemma {:induction false} OutcomesSettled(h: seq<Timed>, kind: Kind, j: nat, n: nat, now: real, m: nat, later: real)
    requires j < n <= m <= |h| && Opens(kind, h[j].wire)
    ensures Outcomes(h, kind, j, n, now) == Outcomes(h, kind, j, m, later)
  {
    OutcomesSettledTo(h, kind, j, j, n, now, m, later);
  }

  lemma {:induction false} OutcomesSettledTo(h: seq<Timed>, kind: Kind, i: nat, j: nat, n: nat, now: real, m: nat, later: real)
    requires i <= j < n <= m <= |h| && Opens(kind, h[j].wire)
    ensures Outcomes(h, kind, i, n, now) == Outcomes(h, kind, i, m, later)
  {
    if i > 0 {
      OutcomesSettledTo(h, kind, i - 1, j, n, now, m, later);
      if Opens(kind, h[i - 1].wire) {
        assert Ends(h, kind, i - 1, j);
        FirstEndIsFirst(h, kind, i - 1, n);
        FirstEndStays(h, kind, i - 1, n, m);
      }
    }
  }

  lemma {:induction false} FirstEndStays(h: seq<Timed>, kind: Kind, i: nat, n: nat, m: nat)
    requires i < |h| && n <= m <= |h| && Opens(kind, h[i].wire) && FirstEnd(h, kind, i, n).Some?
    ensures FirstEnd(h, kind, i, m) == FirstEnd(h, kind, i, n)
  {
    if n < m {
      FirstEndStays(h, kind, i, n, m - 1);
    }
  }

  lemma {:induction false} NoMoreRequests(h: seq<Timed>, kind: Kind, r: nat, j: nat, n: nat, now: real)
    requires r <= j <= |h| && n <= |h| && forall k | r <= k < j :: !Opens(kind, h[k].wire)
    ensures Outcomes(h, kind, j, n, now) == Outcomes(h, kind, r, n, now)
  {
    if r < j {
      NoMoreRequests(h, kind, r, j - 1, n, now);
    }
  }

  /** All outcomes are those before the last request, and its own. */
  lemma {:induction false} OutcomesSplit(h: seq<Timed>, kind: Kind, n: nat, now: real)
    requires n <= |h|
    ensures match LastRequest(h, kind, n)
            case None => Outcomes(h, kind, n, n, now) == Tally([], 0)
            case Some(r) => Outcomes(h, kind, n, n, now) == Outcomes(h, kind, r, n, now).With(OutcomeOf(h, kind, r, n, now))
  {
    var r := LastRequest(h, kind, n);
    NoneAfterLast(h, kind, n);
    if r.None? {
      NoMoreRequests(h, kind, 0, n, n, now);
    } else {
      NoMoreRequests(h, kind, r.value + 1, n, n, now);
    }
  }

  lemma {:induction false} ExpireMeans(h: seq<Timed>, kind: Kind, n: nat, now: real, later: real, w: Wait)
    requires n <= |h| && now <= later && Means(h, kind, n, now, w)
    ensures Means(h, kind, n, later, w.Expire(kind, later))
  {
    OutcomesSplit(h, kind, n, now);
    OutcomesSplit(h, kind, n, later);
    var r := LastRequest(h, kind, n);
    if r.Some? {
      OutcomesSettled(h, kind, r.value, n, now, n, later);
    }
  }

  lemma {:induction false} FrameMeans(h: seq<Timed>, kind: Kind, n: nat, w: Wait)
    requires n < |h| && Means(h, kind, n, h[n].t, w)
    ensures w.open.Some? ==> Opens(kind, w.open.value.wire)
    ensures Means(h, kind, n + 1, h[n].t, w.On(kind, h[n]))
  {
    if Opens(kind, h[n].wire) {
      RequestMeans(h, kind, n, w);
    } else {
      OtherMeans(h, kind, n, w);
    }
  }

  /** A new request: the one before it, if it still waited, is missed. */
  lemma {:induction false} RequestMeans(h: seq<Timed>, kind: Kind, n: nat, w: Wait)
    requires n < |h| && Means(h, kind, n, h[n].t, w) && Opens(kind, h[n].wire)
    ensures Means(h, kind, n + 1, h[n].t, w.On(kind, h[n]))
  {
    var r, t := LastRequest(h, kind, n), h[n].t;
    OutcomesSplit(h, kind, n, t);
    NoneAfterLast(h, kind, n);
    if r.None? {
      NoMoreRequests(h, kind, 0, n, n + 1, t);
    } else {
      NoMoreRequests(h, kind, r.value + 1, n, n + 1, t);
      OutcomesSettled(h, kind, r.value, n, t, n + 1, t);
      OneMoreEnd(h, kind, r.value, n);
    }
  }

  lemma {:induction false} OtherMeans(h: seq<Timed>, kind: Kind, n: nat, w: Wait)
    requires n < |h| && Means(h, kind, n, h[n].t, w) && !Opens(kind, h[n].wire)
    ensures w.open.Some? ==> Opens(kind, w.open.value.wire)
    ensures Means(h, kind, n + 1, h[n].t, w.On(kind, h[n]))
  {
    var r, t := LastRequest(h, kind, n), h[n].t;
    OutcomesSplit(h, kind, n, t);
    OutcomesSplit(h, kind, n + 1, t);
    if r.Some? {
      OutcomesSettled(h, kind, r.value, n, t, n + 1, t);
      OneMoreEnd(h, kind, r.value, n);
    }
  }

  lemma {:induction false} OneMoreEnd(h: seq<Timed>, kind: Kind, i: nat, n: nat)
    requires i < n < |h| && Opens(kind, h[i].wire)
    ensures FirstEnd(h, kind, i, n + 1)
         == if FirstEnd(h, kind, i, n).Some? then FirstEnd(h, kind, i, n) else if Ends(h, kind, i, n) then Some(n) else None
  {
  }

  // ----- The windows of the drive are such waits

  ghost function WaitTo(h: seq<Timed>, kind: Kind, n: nat): (w: Wait)
    requires n <= |h|
    ensures w.open.Some? ==> Opens(kind, w.open.value.wire)
  {
    if n == 0 then Wait(None, Tally([], 0)) else WaitTo(h, kind, n - 1).Expire(kind, h[n - 1].t).On(kind, h[n - 1])
  }

  lemma {:induction false} WaitMeansHistory(h: seq<Timed>, kind: Kind, n: nat, now: real)
    requires Ordered(h) && n <= |h| && (n > 0 ==> h[n - 1].t <= now)
    ensures Means(h, kind, n, now, WaitTo(h, kind, n).Expire(kind, now))
  {
    if n > 0 {
      WaitMeansHistory(h, kind, n - 1, h[n - 1].t);
      FrameMeans(h, kind, n - 1, WaitTo(h, kind, n - 1).Expire(kind, h[n - 1].t));
      ExpireMeans(h, kind, n, h[n - 1].t, now, WaitTo(h, kind, n));
    }
  }

  function OpenedAt(w: Wait): Option<real> {
    if w.open.None? then None else Some(w.open.value.t)
  }

  predicate IsRunWait(e: EnableWindow, w: Wait) {
    e.open == OpenedAt(w) && e.toRun == w.tally.samples && e.neverRun == w.tally.missed
  }

  predicate IsResetWait(d: DisableWindow, w: Wait) {
    d.open == OpenedAt(w) && d.toReset == w.tally.samples
  }

  predicate IsIdentityWait(i: IdentityWindow, w: Wait) {
    i.open == OpenedAt(w) && i.replies == w.tally.samples && i.unanswered == w.tally.missed
  }

  predicate IsParamWait(p: ParamWindow, w: Wait) {
    && p.replies == w.tally.samples
    && (p.open.Some? <==> w.open.Some?)
    && (p.open.Some? ==> w.open.value == Timed(p.open.value.at, Host(ReadParameter(p.open.value.index))))
  }

  lemma {:induction false} RunWaitSteps(x: EnableWindow, w: Wait, e: Timed)
    requires IsRunWait(x, w) && (w.open.Some? ==> Opens(ToRun, w.open.value.wire))
    ensures IsRunWait(x.Expire(e.t), w.Expire(ToRun, e.t))
    ensures IsRunWait(x.Expire(e.t).On(e.t, e.wire), w.Expire(ToRun, e.t).On(ToRun, e))
  {
  }

  lemma {:induction false} ResetWaitSteps(x: DisableWindow, w: Wait, e: Timed)
    requires IsResetWait(x, w) && (w.open.Some? ==> Opens(ToReset, w.open.value.wire))
    ensures IsResetWait(x.Expire(e.t), w.Expire(ToReset, e.t))
    ensures IsResetWait(x.Expire(e.t).On(e.t, e.wire), w.Expire(ToReset, e.t).On(ToReset, e))
  {
  }

  lemma {:induction false} IdentityWaitSteps(x: IdentityWindow, w: Wait, e: Timed)
    requires IsIdentityWait(x, w) && (w.open.Some? ==> Opens(ToIdentity, w.open.value.wire))
    ensures IsIdentityWait(x.Expire(e.t), w.Expire(ToIdentity, e.t))
    ensures IsIdentityWait(x.Expire(e.t).On(e.t, e.wire), w.Expire(ToIdentity, e.t).On(ToIdentity, e))
  {
  }

  lemma {:induction false} ParamWaitSteps(x: ParamWindow, w: Wait, e: Timed)
    requires IsParamWait(x, w) && (w.open.Some? ==> Opens(ToParam, w.open.value.wire))
    ensures IsParamWait(x.Expire(e.t), w.Expire(ToParam, e.t))
    ensures IsParamWait(x.Expire(e.t).On(e.t, e.wire), w.Expire(ToParam, e.t).On(ToParam, e))
  {
  }

  ghost predicate AllWait(h: seq<Timed>, n: nat, d: DriveView)
    requires n <= |h|
  {
    && IsRunWait(d.enable, WaitTo(h, ToRun, n)) && IsResetWait(d.disable, WaitTo(h, ToReset, n))
    && IsIdentityWait(d.identity, WaitTo(h, ToIdentity, n)) && IsParamWait(d.param, WaitTo(h, ToParam, n))
  }

  lemma {:induction false} RunWaits(h: seq<Timed>, n: nat)
    requires n <= |h|
    ensures AllWait(h, n, RunTo(h, n))
  {
    if n == 0 {
      NothingWaits(h);
    } else {
      RunWaits(h, n - 1);
      WaitsNext(h, n - 1);
    }
  }

  lemma {:induction false} NothingWaits(h: seq<Timed>)
    ensures AllWait(h, 0, FRESH)
  {
  }

  lemma {:induction false} WaitsNext(h: seq<Timed>, n: nat)
    requires n < |h| && AllWait(h, n, RunTo(h, n))
    ensures AllWait(h, n + 1, RunTo(h, n + 1))
  {
    StepWaits(h, n, RunTo(h, n));
  }

  lemma {:induction false} StepWaits(h: seq<Timed>, n: nat, d: DriveView)
    requires n < |h| && AllWait(h, n, d)
    ensures AllWait(h, n + 1, Step(d, h[n]))
  {
    RunWaitSteps(d.enable, WaitTo(h, ToRun, n), h[n]);
    ResetWaitSteps(d.disable, WaitTo(h, ToReset, n), h[n]);
    IdentityWaitSteps(d.identity, WaitTo(h, ToIdentity, n), h[n]);
    ParamWaitSteps(d.param, WaitTo(h, ToParam, n), h[n]);
  }

  /** An Enable still waits when frame `k` comes in. */
  predicate EnableWaits(h: seq<Timed>, k: nat)
    requires k < |h|
  {
    var r := LastRequest(h, ToRun, k);
    r.Some? && OutcomeOf(h, ToRun, r.value, k, h[k].t).Waits?
  }

  /** Reset frames that come in while an Enable waits. */
  function Resets(h: seq<Timed>, n: nat): nat
    requires n <= |h|
  {
    if n == 0 then 0 else Resets(h, n - 1) + One(InMode(h[n - 1].wire, Reset) && EnableWaits(h, n - 1))
  }

  lemma {:induction false} ResetsRun(h: seq<Timed>, n: nat)
    requires Ordered(h) && n <= |h|
    ensures RunTo(h, n).enable.resets == Resets(h, n)
  {
    if n > 0 {
      ResetsRun(h, n - 1);
      RunWaits(h, n - 1);
      WaitMeansHistory(h, ToRun, n - 1, h[n - 1].t);
      ResetsStep(h, n - 1, RunTo(h, n - 1));
    }
  }

  lemma {:induction false} ResetsStep(h: seq<Timed>, n: nat, d: DriveView)
    requires n < |h| && IsRunWait(d.enable, WaitTo(h, ToRun, n))
    requires Means(h, ToRun, n, h[n].t, WaitTo(h, ToRun, n).Expire(ToRun, h[n].t))
    ensures Step(d, h[n]).enable.resets == d.enable.resets + One(InMode(h[n].wire, Reset) && EnableWaits(h, n))
  {
    RunWaitSteps(d.enable, WaitTo(h, ToRun, n), h[n]);
  }

  lemma {:induction false} RunWaitEnds(h: seq<Timed>, x: EnableWindow, end: real)
    requires InOrder(h, end) && IsRunWait(x, WaitTo(h, ToRun, |h|))
    ensures Tally(x.Expire(end).toRun, x.Expire(end).neverRun) == Outcomes(h, ToRun, |h|, |h|, end)
  {
    WaitMeansHistory(h, ToRun, |h|, end);
    RunWaitSteps(x, WaitTo(h, ToRun, |h|), Timed(end, Host(Mit)));
  }

  lemma {:induction false} ResetWaitEnds(h: seq<Timed>, x: DisableWindow, end: real)
    requires InOrder(h, end) && IsResetWait(x, WaitTo(h, ToReset, |h|))
    ensures x.Expire(end).toReset == Outcomes(h, ToReset, |h|, |h|, end).samples
  {
    WaitMeansHistory(h, ToReset, |h|, end);
    ResetWaitSteps(x, WaitTo(h, ToReset, |h|), Timed(end, Host(Mit)));
  }

  lemma {:induction false} IdentityWaitEnds(h: seq<Timed>, x: IdentityWindow, end: real)
    requires InOrder(h, end) && IsIdentityWait(x, WaitTo(h, ToIdentity, |h|))
    ensures Tally(x.Expire(end).replies, x.Expire(end).unanswered) == Outcomes(h, ToIdentity, |h|, |h|, end)
  {
    WaitMeansHistory(h, ToIdentity, |h|, end);
    IdentityWaitSteps(x, WaitTo(h, ToIdentity, |h|), Timed(end, Host(Mit)));
  }

  lemma {:induction false} ParamWaitEnds(h: seq<Timed>, x: ParamWindow, end: real)
    requires InOrder(h, end) && IsParamWait(x, WaitTo(h, ToParam, |h|))
    ensures x.Expire(end).replies == Outcomes(h, ToParam, |h|, |h|, end).samples
  {
    WaitMeansHistory(h, ToParam, |h|, end);
    ParamWaitSteps(x, WaitTo(h, ToParam, |h|), Timed(end, Host(Mit)));
  }

  /** The samples are the outcomes of the requests in the history. */
  ghost predicate Paired(h: seq<Timed>, end: real, d: DriveView) {
    && Tally(d.enable.toRun, d.enable.neverRun) == Outcomes(h, ToRun, |h|, |h|, end)
    && Tally(d.identity.replies, d.identity.unanswered) == Outcomes(h, ToIdentity, |h|, |h|, end)
    && d.disable.toReset == Outcomes(h, ToReset, |h|, |h|, end).samples
    && d.param.replies == Outcomes(h, ToParam, |h|, |h|, end).samples
    && d.enable.resets == Resets(h, |h|)
  }

  lemma {:induction false} EndPairs(h: seq<Timed>, d: DriveView, end: real)
    requires InOrder(h, end) && AllWait(h, |h|, d) && d.enable.resets == Resets(h, |h|)
    ensures Paired(h, end, d.FinishFile(end))
  {
    RunWaitEnds(h, d.enable, end);
    ResetWaitEnds(h, d.disable, end);
    IdentityWaitEnds(h, d.identity, end);
    ParamWaitEnds(h, d.param, end);
  }

  /**
    After a file every request is paired as defined: an Enable, Disable, identity
    or parameter request is recorded, in order, with the time to its first reply
    if that comes within its window and before a command that supersedes or
    cancels it; Enables and identity requests for which it does not are counted.
   */
  lemma {:induction false} RepliesArePaired(h: seq<Timed>, end: real)
    requires InOrder(h, end)
    ensures Paired(h, end, RunFile(FRESH, h, end))
  {
    ResetsRun(h, |h|);
    RunToIsRun(h, |h|);
    assert h[..|h|] == h;
    RunWaits(h, |h|);
    EndPairs(h, RunTo(h, |h|), end);
  }
}
