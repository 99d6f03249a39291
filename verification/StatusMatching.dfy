/**
  Which status answers which request: a relation on the frames of a drive alone,
  and the queue of waiting solicits against it.
 */
module StatusMatching {
  import opened DriveTiming
  import opened DriveRuns

  predicate Ordered(h: seq<Timed>) {
    forall i, j | 0 <= i < j < |h| :: h[i].t <= h[j].t
  }

  /** The drive after the first `n` frames. */
  function RunTo(h: seq<Timed>, n: nat): DriveView
    requires n <= |h|
  {
    if n == 0 then FRESH else Step(RunTo(h, n - 1), h[n - 1])
  }

  lemma {:induction false} RunToIsRun(h: seq<Timed>, n: nat)
    requires n <= |h|
    ensures RunTo(h, n) == RunFrames(FRESH, h[..n])
  {
    if n > 0 {
      RunToIsRun(h, n - 1);
      assert h[..n][..n - 1] == h[..n - 1];
    }
  }

  // ----- The matching

  /** MIT, Enable, Disable, SetZero, parameter write and reporting write each solicit one status, and nothing else does. */
  predicate IsSolicit(h: seq<Timed>, i: nat)
    requires i < |h|
  {
    || h[i].wire == Host(Mit) || h[i].wire == Host(Enable) || h[i].wire == Host(Disable) || h[i].wire == Host(SetZero)
    || h[i].wire == Host(WriteParameter) || (h[i].wire.Host? && h[i].wire.command.ActiveReporting?)
  }

  predicate IsStatus(h: seq<Timed>, k: nat)
    requires k < |h|
  {
    h[k].wire.Drive? && h[k].wire.frame.Status?
  }

  /** No status before frame `n` answered solicit `i`. */
  ghost predicate StillFree(h: seq<Timed>, i: nat, n: nat)
    requires n <= |h|
    decreases n, 0
  {
    forall m: nat | i < m < n :: !Matched(h, i, m)
  }

  /** At frame `k`, solicit `i` is at most 5 ms old and no earlier status has answered it. */
  ghost predicate Eligible(h: seq<Timed>, i: nat, k: nat)
    requires k < |h|
    decreases k, 1
  {
    i < k && IsSolicit(h, i) && h[k].t - h[i].t <= 0.005 && StillFree(h, i, k)
  }

  /** Status `k` answers solicit `i`: the earliest one that is eligible. */
  ghost predicate Matched(h: seq<Timed>, i: nat, k: nat)
    requires k < |h|
    decreases k, 2
  {
    IsStatus(h, k) && Eligible(h, i, k) && forall j: nat | j < i :: !Eligible(h, j, k)
  }

  /** Frame `k` is a status that answers a solicit. */
  ghost predicate Answered(h: seq<Timed>, k: nat)
    requires k < |h|
  {
    exists i: nat | i < k :: Matched(h, i, k)
  }

  /** The matching pairs each solicit with at most one status and each status with at most one solicit, in order. */
  lemma {:induction false} MatchingIsOneToOneInOrder(h: seq<Timed>, i: nat, k: nat, j: nat, m: nat)
    requires Ordered(h) && k < |h| && m < |h| && Matched(h, i, k) && Matched(h, j, m)
    ensures i == j <==> k == m
    ensures i < j <==> k < m
  {
    if k < m {
      MatchedLater(h, i, k, j, m);
    } else if m < k {
      MatchedLater(h, j, m, i, k);
    } else {
      assert !(i < j) && !(j < i);
    }
  }

  lemma {:induction false} MatchedLater(h: seq<Timed>, i: nat, k: nat, j: nat, m: nat)
    requires Ordered(h) && k < m < |h| && Matched(h, i, k) && Matched(h, j, m)
    ensures i < j
  {
    assert StillFree(h, j, m) && h[k].t <= h[m].t;
    assert j != i;
    assert j < i ==> Eligible(h, j, k) by {
      assert StillFree(h, j, k);
    }
  }

  // ----- Solicits that still wait

  predicate IsMit(h: seq<Timed>, i: nat)
    requires i < |h|
  {
    h[i].wire == Host(Mit)
  }

  function SolicitAt(h: seq<Timed>, i: nat): Solicit
    requires i < |h|
  {
    Solicit(h[i].t, IsMit(h, i))
  }

  /** The solicits among the first `m` frames that are unanswered before frame `n` and in time at `now`. */
  ghost function WaitingOf(h: seq<Timed>, m: nat, n: nat, now: real): seq<Solicit>
    requires m <= n <= |h|
    decreases m
  {
    if m == 0 then []
    else
      var i := m - 1;
      WaitingOf(h, i, n, now)
      + if IsSolicit(h, i) && StillFree(h, i, n) && now - h[i].t <= 0.005 then [SolicitAt(h, i)] else []
  }

  ghost function Waiting(h: seq<Timed>, n: nat, now: real): seq<Solicit>
    requires n <= |h|
  {
    WaitingOf(h, n, n, now)
  }

  lemma {:induction false} FreeNext(h: seq<Timed>, i: nat, k: nat)
    requires i < k < |h|
    ensures StillFree(h, i, k + 1) <==> StillFree(h, i, k) && !Matched(h, i, k)
  {
  }

  /** The solicits at most one reply window old. */
  function InTime(q: seq<Solicit>, now: real): seq<Solicit> {
    if q == [] then []
    else
      var before, s := InTime(q[..|q| - 1], now), q[|q| - 1];
      if now - s.at <= STATUS_REPLY_WINDOW then before + [s] else before
  }

  lemma {:induction false} InTimeAppends(q: seq<Solicit>, s: Solicit, now: real)
    ensures InTime(q + [s], now) == if now - s.at <= STATUS_REPLY_WINDOW then InTime(q, now) + [s] else InTime(q, now)
  {
    assert (q + [s])[..|q|] == q;
  }

  lemma {:induction false} WaitingLater(h: seq<Timed>, m: nat, n: nat, t: real, now: real)
    requires m <= n <= |h| && t <= now
    ensures InTime(WaitingOf(h, m, n, t), now) == WaitingOf(h, m, n, now)
  {
    if m > 0 {
      var i := m - 1;
      WaitingLater(h, i, n, t, now);
      if IsSolicit(h, i) && StillFree(h, i, n) && t - h[i].t <= STATUS_REPLY_WINDOW {
        InTimeAppends(WaitingOf(h, i, n, t), SolicitAt(h, i), now);
      } else {
        assert WaitingOf(h, m, n, t) == WaitingOf(h, i, n, t);
      }
    }
  }

  /** A frame that is no status answers nothing. */
  lemma {:induction false} NoStatusNoMatch(h: seq<Timed>, m: nat, k: nat, now: real)
    requires m <= k < |h| && !IsStatus(h, k)
    ensures WaitingOf(h, m, k + 1, now) == WaitingOf(h, m, k, now)
  {
    if m > 0 {
      NoStatusNoMatch(h, m - 1, k, now);
      FreeNext(h, m - 1, k);
    }
  }

  /** The oldest waiting solicit, if any among the first `m`, is the one status `k` answers. */
  ghost predicate FrontIsMatched(h: seq<Timed>, m: nat, k: nat, waiting: seq<Solicit>)
    requires m <= k < |h|
  {
    if waiting == [] then forall i: nat | i < m :: !Eligible(h, i, k)
    else exists i: nat | i < m :: Matched(h, i, k) && waiting[0] == SolicitAt(h, i)
  }

  lemma {:induction false} FrontMatches(h: seq<Timed>, m: nat, k: nat)
    requires m <= k < |h| && IsStatus(h, k)
    ensures FrontIsMatched(h, m, k, WaitingOf(h, m, k, h[k].t))
  {
    if m > 0 {
      var i, before := m - 1, WaitingOf(h, m - 1, k, h[k].t);
      FrontMatches(h, i, k);
      if before == [] {
        assert Eligible(h, i, k) ==> Matched(h, i, k);
      } else {
        var j: nat :| j < i && Matched(h, j, k) && before[0] == SolicitAt(h, j);
        assert j < m;
      }
    }
  }

  lemma {:induction false} NoneLeft(h: seq<Timed>, m: nat, k: nat, now: real)
    requires m <= k < |h| && IsStatus(h, k) && h[k].t <= now && WaitingOf(h, m, k, h[k].t) == []
    ensures WaitingOf(h, m, k + 1, now) == []
  {
    if m > 0 {
      NoneLeft(h, m - 1, k, now);
      FreeNext(h, m - 1, k);
    }
  }

  /** A status removes exactly the oldest waiting solicit. */
  lemma {:induction false} StatusTakesFront(h: seq<Timed>, m: nat, k: nat, now: real)
    requires m <= k < |h| && IsStatus(h, k) && h[k].t <= now && WaitingOf(h, m, k, h[k].t) != []
    ensures InTime(WaitingOf(h, m, k, h[k].t)[1..], now) == WaitingOf(h, m, k + 1, now)
  {
    var i, t := m - 1, h[k].t;
    var before := WaitingOf(h, i, k, t);
    FreeNext(h, i, k);
    FrontMatches(h, i, k);
    if before == [] {
      NoneLeft(h, i, k, now);
      assert Eligible(h, i, k) && Matched(h, i, k);
      assert WaitingOf(h, m, k, t)[1..] == [];
    } else {
      StatusTakesFront(h, i, k, now);
      assert !Matched(h, i, k);
      if Eligible(h, i, k) {
        assert WaitingOf(h, m, k, t)[1..] == before[1..] + [SolicitAt(h, i)];
        InTimeAppends(before[1..], SolicitAt(h, i), now);
      } else {
        assert WaitingOf(h, m, k, t) == before;
      }
    }
  }

  // ----- The queue

  ghost predicate Sorted(q: seq<Solicit>) {
    forall i, j | 0 <= i < j < |q| :: q[i].at <= q[j].at
  }

  ghost predicate NoLater(q: seq<Solicit>, t: real) {
    forall s | s in q :: s.at <= t
  }

  ghost predicate AllInTime(q: seq<Solicit>, t: real) {
    forall s | s in q :: t - s.at <= STATUS_REPLY_WINDOW
  }

  lemma {:induction false} InTimeIsAll(q: seq<Solicit>, now: real)
    requires AllInTime(q, now)
    ensures InTime(q, now) == q
  {
    if q != [] {
      assert q[|q| - 1] in q && forall s | s in q[..|q| - 1] :: s in q;
      InTimeIsAll(q[..|q| - 1], now);
    }
  }

  lemma {:induction false} InTimeOfTail(q: seq<Solicit>, now: real)
    requires q != [] && now - q[0].at > STATUS_REPLY_WINDOW
    ensures InTime(q, now) == InTime(q[1..], now)
  {
    if |q| > 1 {
      assert q[1..][..|q| - 2] == q[..|q| - 1][1..];
      InTimeOfTail(q[..|q| - 1], now);
    } else {
      assert q[..0] == [];
    }
  }

  /** Dropping late solicits from the front of a sorted queue drops all of them. */
  lemma {:induction false} ExpireIsInTime(q: StatusQueue, now: real)
    requires Sorted(q.pending)
    ensures q.Expire(now).pending == InTime(q.pending, now) && Sorted(q.Expire(now).pending)
    ensures AllInTime(q.Expire(now).pending, now)
    ensures forall s | s in q.Expire(now).pending :: s in q.pending
    decreases |q.pending|
  {
    if q.pending == [] || now - q.pending[0].at <= STATUS_REPLY_WINDOW {
      assert forall i | 0 <= i < |q.pending| :: q.pending[0].at <= q.pending[i].at;
      InTimeIsAll(q.pending, now);
    } else {
      ExpireIsInTime(StatusQueue(q.pending[1..], q.replies, if q.pending[0].mit then q.unanswered + 1 else q.unanswered), now);
      InTimeOfTail(q.pending, now);
    }
  }

  /** The queue after `n` frames holds exactly the solicits that wait then. */
  ghost predicate QueueHolds(h: seq<Timed>, n: nat, q: StatusQueue)
    requires n <= |h|
  {
    && Sorted(q.pending)
    && if n == 0 then q.pending == [] else NoLater(q.pending, h[n - 1].t) && q.pending == Waiting(h, n, h[n - 1].t)
  }

  lemma {:induction false} SolicitQueued(h: seq<Timed>, k: nat, q: StatusQueue)
    requires k < |h|
    ensures q.On(h[k].t, h[k].wire).pending
            == if IsSolicit(h, k) then q.pending + [SolicitAt(h, k)]
               else if IsStatus(h, k) && q.pending != [] then q.pending[1..] else q.pending
  {
  }

  lemma {:induction false} WaitingNext(h: seq<Timed>, k: nat)
    requires k < |h|
    ensures Waiting(h, k + 1, h[k].t)
            == WaitingOf(h, k, k + 1, h[k].t) + if IsSolicit(h, k) then [SolicitAt(h, k)] else []
  {
    assert StillFree(h, k, k + 1);
  }

  lemma {:induction false} SolicitJoins(h: seq<Timed>, k: nat, q: StatusQueue)
    requires k < |h| && IsSolicit(h, k) && Sorted(q.pending) && NoLater(q.pending, h[k].t) && q.pending == Waiting(h, k, h[k].t)
    ensures QueueHolds(h, k + 1, q.On(h[k].t, h[k].wire))
  {
    assert !IsStatus(h, k);
    NoStatusNoMatch(h, k, k, h[k].t);
    WaitingNext(h, k);
    SolicitQueued(h, k, q);
    assert forall i | 0 <= i < |q.pending| :: q.pending[i] in q.pending;
  }

  lemma {:induction false} FrontTaken(h: seq<Timed>, k: nat, pending: seq<Solicit>)
    requires k < |h| && IsStatus(h, k) && pending == Waiting(h, k, h[k].t) && AllInTime(pending, h[k].t)
    ensures WaitingOf(h, k, k + 1, h[k].t) == if pending == [] then [] else pending[1..]
  {
    if pending == [] {
      NoneLeft(h, k, k, h[k].t);
    } else {
      StatusTakesFront(h, k, k, h[k].t);
      assert forall s | s in pending[1..] :: s in pending;
      InTimeIsAll(pending[1..], h[k].t);
    }
  }

  lemma {:induction false} StatusAnswers(h: seq<Timed>, k: nat, q: StatusQueue)
    requires k < |h| && IsStatus(h, k) && Sorted(q.pending) && NoLater(q.pending, h[k].t) && q.pending == Waiting(h, k, h[k].t)
    requires AllInTime(q.pending, h[k].t)
    ensures QueueHolds(h, k + 1, q.On(h[k].t, h[k].wire))
  {
    assert !IsSolicit(h, k);
    FrontTaken(h, k, q.pending);
    WaitingNext(h, k);
    SolicitQueued(h, k, q);
    if q.pending != [] {
      assert forall s | s in q.pending[1..] :: s in q.pending;
    }
  }

  lemma {:induction false} QueueNext(h: seq<Timed>, k: nat, q: StatusQueue)
    requires k < |h| && Sorted(q.pending) && NoLater(q.pending, h[k].t) && q.pending == Waiting(h, k, h[k].t)
    requires AllInTime(q.pending, h[k].t)
    ensures QueueHolds(h, k + 1, q.On(h[k].t, h[k].wire))
  {
    if IsSolicit(h, k) {
      SolicitJoins(h, k, q);
    } else if IsStatus(h, k) {
      StatusAnswers(h, k, q);
    } else {
      NoStatusNoMatch(h, k, k, h[k].t);
      assert q.On(h[k].t, h[k].wire) == q;
    }
  }

  /** The queue after `n` frames, which no other window touches. */
  function StatusTo(h: seq<Timed>, n: nat): StatusQueue
    requires n <= |h|
  {
    if n == 0 then FRESH.status else StatusTo(h, n - 1).Expire(h[n - 1].t).On(h[n - 1].t, h[n - 1].wire)
  }

  lemma {:induction false} StatusPart(d: DriveView, e: Timed)
    ensures Step(d, e).status == d.status.Expire(e.t).On(e.t, e.wire)
  {
  }

  lemma {:induction false} StatusIsOwn(h: seq<Timed>, n: nat)
    requires n <= |h|
    ensures RunTo(h, n).status == StatusTo(h, n)
  {
    if n > 0 {
      StatusIsOwn(h, n - 1);
      StatusPart(RunTo(h, n - 1), h[n - 1]);
    }
  }

  lemma {:induction false} QueueStep(h: seq<Timed>, k: nat, q: StatusQueue)
    requires Ordered(h) && k < |h| && QueueHolds(h, k, q)
    ensures QueueHolds(h, k + 1, q.Expire(h[k].t).On(h[k].t, h[k].wire))
  {
    QueueExpires(h, k, h[k].t, q);
    QueueNext(h, k, q.Expire(h[k].t));
  }

  lemma {:induction false} QueueIsHeld(h: seq<Timed>, n: nat)
    requires Ordered(h) && n <= |h|
    ensures QueueHolds(h, n, StatusTo(h, n))
  {
    if n > 0 {
      QueueIsHeld(h, n - 1);
      QueueStep(h, n - 1, StatusTo(h, n - 1));
    }
  }

  lemma {:induction false} QueueExpires(h: seq<Timed>, n: nat, now: real, q: StatusQueue)
    requires n <= |h| && (n > 0 ==> h[n - 1].t <= now) && QueueHolds(h, n, q)
    ensures var late := q.Expire(now);
            && Sorted(late.pending) && NoLater(late.pending, now) && AllInTime(late.pending, now)
            && late.pending == Waiting(h, n, now)
  {
    ExpireIsInTime(q, now);
    if n > 0 {
      WaitingLater(h, n, n, h[n - 1].t, now);
    }
  }

  /** At any instant after `n` frames, the queue holds exactly the solicits that are unanswered and in time, in order. */
  lemma {:induction false} QueueIsWaiting(h: seq<Timed>, n: nat, now: real)
    requires Ordered(h) && n <= |h| && (n > 0 ==> h[n - 1].t <= now)
    ensures var q := RunTo(h, n).status;
            Sorted(q.pending) && q.Expire(now).pending == Waiting(h, n, now)
  {
    QueueIsHeld(h, n);
    QueueExpires(h, n, now, StatusTo(h, n));
    StatusIsOwn(h, n);
  }

  /** The queue calls a status answered exactly when the matching pairs it, and then with the solicit at its front. */
  lemma {:induction false} AnsweredIff(h: seq<Timed>, k: nat)
    requires Ordered(h) && k < |h| && h[k].wire.Drive?
    ensures RunTo(h, k).Expire(h[k].t).status.Answers(h[k].t, h[k].wire.frame) <==> Answered(h, k)
    ensures forall i: nat | i < k && Matched(h, i, k) ::
              var pending := RunTo(h, k).status.Expire(h[k].t).pending;
              pending != [] && pending[0] == SolicitAt(h, i)
  {
    StatusIsOwn(h, k);
    QueueIsHeld(h, k);
    QueueExpires(h, k, h[k].t, StatusTo(h, k));
    FrontIsAnswered(h, k, StatusTo(h, k).Expire(h[k].t));
  }

  lemma {:induction false} FrontIsAnswered(h: seq<Timed>, k: nat, q: StatusQueue)
    requires k < |h| && h[k].wire.Drive? && q.pending == Waiting(h, k, h[k].t) && AllInTime(q.pending, h[k].t)
    ensures q.Answers(h[k].t, h[k].wire.frame) <==> Answered(h, k)
    ensures forall i: nat | i < k && Matched(h, i, k) :: q.pending != [] && q.pending[0] == SolicitAt(h, i)
  {
    if IsStatus(h, k) {
      FrontMatches(h, k, k);
      OnlyOneMatch(h, k);
      if q.pending != [] {
        var i: nat :| i < k && Matched(h, i, k) && q.pending[0] == SolicitAt(h, i);
        assert Answered(h, k);
        assert q.pending[0] in q.pending;
      } else {
        forall i: nat | i < k ensures !Matched(h, i, k) {
          assert !Eligible(h, i, k);
        }
      }
    }
  }

  lemma {:induction false} OnlyOneMatch(h: seq<Timed>, k: nat)
    requires k < |h|
    ensures forall i: nat, j: nat | Matched(h, i, k) && Matched(h, j, k) :: i == j
  {
    forall i: nat, j: nat | Matched(h, i, k) && Matched(h, j, k) ensures i == j {
      assert !(i < j) && !(j < i);
    }
  }

  // ----- Solicits that were never answered

  /** MIT commands among the first `m` frames that no status before frame `n` answered and that are too old at `now`. */
  ghost function LostMits(h: seq<Timed>, m: nat, n: nat, now: real): nat
    requires m <= n <= |h|
    decreases m
  {
    if m == 0 then 0
    else
      var i := m - 1;
      LostMits(h, i, n, now) + One(IsMit(h, i) && StillFree(h, i, n) && now - h[i].t > 0.005)
  }

  predicate LateMit(s: Solicit, now: real) {
    s.mit && now - s.at > STATUS_REPLY_WINDOW
  }

  function LateMits(q: seq<Solicit>, now: real): nat {
    if q == [] then 0 else LateMits(q[..|q| - 1], now) + One(LateMit(q[|q| - 1], now))
  }

  lemma {:induction false} LateMitsOfTail(q: seq<Solicit>, now: real)
    requires q != []
    ensures LateMits(q, now) == One(LateMit(q[0], now)) + LateMits(q[1..], now)
  {
    if |q| > 1 {
      assert q[1..][..|q| - 2] == q[..|q| - 1][1..];
      LateMitsOfTail(q[..|q| - 1], now);
    } else {
      assert q[..0] == [] && q[1..] == [];
    }
  }

  lemma {:induction false} NoneLate(q: seq<Solicit>, now: real)
    requires AllInTime(q, now)
    ensures LateMits(q, now) == 0
  {
    if q != [] {
      assert q[|q| - 1] in q && forall s | s in q[..|q| - 1] :: s in q;
      NoneLate(q[..|q| - 1], now);
    }
  }

  lemma {:induction false} ExpiryCountsLate(q: StatusQueue, now: real)
    requires Sorted(q.pending)
    ensures q.Expire(now).unanswered == q.unanswered + LateMits(q.pending, now) && q.Expire(now).replies == q.replies
    decreases |q.pending|
  {
    if q.pending == [] {
    } else if now - q.pending[0].at <= STATUS_REPLY_WINDOW {
      assert forall i | 0 <= i < |q.pending| :: q.pending[0].at <= q.pending[i].at;
      NoneLate(q.pending, now);
    } else {
      ExpiryCountsLate(StatusQueue(q.pending[1..], q.replies, if q.pending[0].mit then q.unanswered + 1 else q.unanswered), now);
      LateMitsOfTail(q.pending, now);
    }
  }

  lemma {:induction false} LateMitsAppend(q: seq<Solicit>, s: Solicit, now: real)
    ensures LateMits(q + [s], now) == LateMits(q, now) + One(LateMit(s, now))
  {
    assert (q + [s])[..|q|] == q;
  }

  ghost predicate IsLost(h: seq<Timed>, i: nat, n: nat, now: real)
    requires i < n <= |h|
  {
    IsMit(h, i) && StillFree(h, i, n) && now - h[i].t > 0.005
  }

  ghost predicate Waits(h: seq<Timed>, i: nat, n: nat, now: real)
    requires i < n <= |h|
  {
    IsSolicit(h, i) && StillFree(h, i, n) && now - h[i].t <= 0.005
  }

  lemma {:induction false} LostOrWaits(h: seq<Timed>, i: nat, n: nat, t: real, now: real)
    requires i < n <= |h| && t <= now
    ensures IsLost(h, i, n, now) <==> IsLost(h, i, n, t) || (Waits(h, i, n, t) && LateMit(SolicitAt(h, i), now))
    ensures !(IsLost(h, i, n, t) && Waits(h, i, n, t))
  {
  }

  /** A waiting MIT command is lost once its window has passed. */
  lemma {:induction false} LostLater(h: seq<Timed>, m: nat, n: nat, t: real, now: real)
    requires m <= n <= |h| && t <= now
    ensures LostMits(h, m, n, now) == LostMits(h, m, n, t) + LateMits(WaitingOf(h, m, n, t), now)
  {
    if m > 0 {
      var i := m - 1;
      LostLater(h, i, n, t, now);
      LostOrWaits(h, i, n, t, now);
      assert LostMits(h, m, n, now) == LostMits(h, i, n, now) + One(IsLost(h, i, n, now));
      assert LostMits(h, m, n, t) == LostMits(h, i, n, t) + One(IsLost(h, i, n, t));
      if Waits(h, i, n, t) {
        LateMitsAppend(WaitingOf(h, i, n, t), SolicitAt(h, i), now);
      } else {
        assert WaitingOf(h, m, n, t) == WaitingOf(h, i, n, t);
      }
    }
  }

  /** A frame answers no MIT command that is already too old. */
  lemma {:induction false} LostStay(h: seq<Timed>, m: nat, k: nat)
    requires m <= k < |h|
    ensures LostMits(h, m, k + 1, h[k].t) == LostMits(h, m, k, h[k].t)
  {
    if m > 0 {
      LostStay(h, m - 1, k);
      FreeNext(h, m - 1, k);
    }
  }

  lemma {:induction false} FrameKeepsUnanswered(q: StatusQueue, e: Timed)
    ensures q.On(e.t, e.wire).unanswered == q.unanswered
  {
  }

  lemma {:induction false} CountStep(h: seq<Timed>, k: nat, before: StatusQueue, q: StatusQueue, now: real)
    requires k < |h| && h[k].t <= now && before.unanswered == LostMits(h, k, k, h[k].t)
    requires q == before.On(h[k].t, h[k].wire) && QueueHolds(h, k + 1, q)
    ensures q.Expire(now).unanswered == LostMits(h, k + 1, k + 1, now)
  {
    FrameKeepsUnanswered(before, h[k]);
    ExpiryCountsLate(q, now);
    LostStay(h, k, k);
    LostLater(h, k + 1, k + 1, h[k].t, now);
  }

  lemma {:induction false} StatusCountsLost(h: seq<Timed>, n: nat, now: real)
    requires Ordered(h) && n <= |h| && (n > 0 ==> h[n - 1].t <= now)
    ensures StatusTo(h, n).Expire(now).unanswered == LostMits(h, n, n, now)
  {
    if n > 0 {
      var k := n - 1;
      StatusCountsLost(h, k, h[k].t);
      QueueIsHeld(h, n);
      CountStep(h, k, StatusTo(h, k).Expire(h[k].t), StatusTo(h, n), now);
    }
  }

  /** The unanswered count is the MIT commands that no status answered within their window. */
  lemma {:induction false} UnansweredAreLost(h: seq<Timed>, n: nat, now: real)
    requires Ordered(h) && n <= |h| && (n > 0 ==> h[n - 1].t <= now)
    ensures RunTo(h, n).status.Expire(now).unanswered == LostMits(h, n, n, now)
  {
    StatusIsOwn(h, n);
    StatusCountsLost(h, n, now);
  }
}
