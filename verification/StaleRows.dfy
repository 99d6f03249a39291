/**
  What the filled trace and its stale runs say about the rows that were traced:
  which row stands for a joint at a tick, and which ticks have none.
 */
module StaleRows {
  import opened Basics
  import opened Trace
  import opened ForwardFill

  ghost predicate HasRow(ticks: seq<Numbered>, joint: string, i: int) {
    0 <= i < |ticks| && joint in ticks[i].tick.rows
  }

  /** Tick `b` traces the joint next after tick `a`. */
  ghost predicate NextRow(ticks: seq<Numbered>, joint: string, a: int, b: int) {
    a < b && HasRow(ticks, joint, a) && HasRow(ticks, joint, b) && forall s | a < s < b :: !HasRow(ticks, joint, s)
  }

  /** The latest row before tick `i` is the one with no row after it. */
  lemma {:induction false} LastRowIff(ticks: seq<Numbered>, joint: string, at: nat, i: nat)
    requires i <= |ticks|
    ensures LastRow(ticks, joint, i) == Some(at) <==>
            at < i && HasRow(ticks, joint, at) && forall s | at < s < i :: !HasRow(ticks, joint, s)
  {
    forall s: nat | s < i ensures Traces(ticks, joint, s) <==> HasRow(ticks, joint, s) {
    }
    if LastRow(ticks, joint, i) == Some(at) {
      forall s | at < s < i ensures !HasRow(ticks, joint, s) {
        assert !Traces(ticks, joint, s);
      }
    }
  }

  // ----- The period

  /** Tick `b` traces the joint fewer than `x` ticks after its row before. */
  ghost predicate EndsShortGap(ticks: seq<Numbered>, joint: string, x: nat, b: nat) {
    x > 0 && exists a :: NextRow(ticks, joint, a, b) && ticks[b].no - ticks[a].no < x
  }

  /** How many of the first `i` ticks do. */
  ghost function ShortGaps(ticks: seq<Numbered>, joint: string, x: nat, i: nat): nat {
    if i == 0 then 0 else ShortGaps(ticks, joint, x, i - 1) + (if EndsShortGap(ticks, joint, x, i - 1) then 1 else 0)
  }

  /** At most half of the gaps between the joint's rows are shorter than `m`, and more than half are no longer. */
  ghost predicate IsMedianGap(ticks: seq<Numbered>, joint: string, m: nat) {
    && Rows(ticks, joint, |ticks|) >= 2
    && ShortGaps(ticks, joint, m, |ticks|) <= (Rows(ticks, joint, |ticks|) - 1) / 2 < ShortGaps(ticks, joint, m + 1, |ticks|)
  }

  /** The joint's trace period: its median gap, but at least one tick. */
  ghost predicate IsPeriod(ticks: seq<Numbered>, joint: string, p: nat) {
    exists m: nat :: IsMedianGap(ticks, joint, m) && p == if m == 0 then 1 else m
  }

  lemma {:induction false} CountAppends(s: seq<nat>, x: nat, y: nat)
    ensures CountBelow(s + [x], y) == CountBelow(s, y) + (if x < y then 1 else 0)
  {
    if s == [] {
      assert s + [x] == [x] && [x][1..] == [];
    } else {
      assert (s + [x])[1..] == s[1..] + [x];
      CountAppends(s[1..], x, y);
    }
  }

  lemma {:induction false} GapEndsHere(ticks: seq<Numbered>, joint: string, x: nat, b: nat)
    requires b < |ticks|
    ensures EndsShortGap(ticks, joint, x, b) <==>
            && Traces(ticks, joint, b) && LastRow(ticks, joint, b).Some?
            && Age(ticks[b].no, ticks[LastRow(ticks, joint, b).value].no) < x
  {
    var last := LastRow(ticks, joint, b);
    if Traces(ticks, joint, b) && last.Some? {
      LastRowIff(ticks, joint, last.value, b);
      assert NextRow(ticks, joint, last.value, b);
    }
    if EndsShortGap(ticks, joint, x, b) {
      var a :| NextRow(ticks, joint, a, b) && ticks[b].no - ticks[a].no < x;
      LastRowIff(ticks, joint, a, b);
    }
  }

  lemma {:induction false} GapsAreCounted(ticks: seq<Numbered>, joint: string, x: nat, i: nat)
    requires i <= |ticks|
    ensures CountBelow(Gaps(ticks, joint, i), x) == ShortGaps(ticks, joint, x, i)
  {
    if i > 0 {
      GapsAreCounted(ticks, joint, x, i - 1);
      GapEndsHere(ticks, joint, x, i - 1);
      var last := LastRow(ticks, joint, i - 1);
      if Traces(ticks, joint, i - 1) && last.Some? {
        CountAppends(Gaps(ticks, joint, i - 1), Age(ticks[i - 1].no, ticks[last.value].no), x);
      }
    }
  }

  lemma {:induction false} ShortGapsRise(ticks: seq<Numbered>, joint: string, x: nat, y: nat, i: nat)
    requires x <= y
    ensures ShortGaps(ticks, joint, x, i) <= ShortGaps(ticks, joint, y, i)
  {
    if i > 0 {
      ShortGapsRise(ticks, joint, x, y, i - 1);
      if EndsShortGap(ticks, joint, x, i - 1) {
        var a :| NextRow(ticks, joint, a, i - 1) && ticks[i - 1].no - ticks[a].no < x;
        assert ticks[i - 1].no - ticks[a].no < y;
      }
    }
  }

  lemma {:induction false} OneMedian(ticks: seq<Numbered>, joint: string, m: nat, n: nat)
    requires IsMedianGap(ticks, joint, m) && IsMedianGap(ticks, joint, n)
    ensures m == n
  {
    if m < n {
      ShortGapsRise(ticks, joint, m + 1, n, |ticks|);
    } else if n < m {
      ShortGapsRise(ticks, joint, n + 1, m, |ticks|);
    }
  }

  /** The period the fill uses is the median gap between the joint's rows, at least one; a joint traced once has none. */
  lemma {:induction false} PeriodIsMedian(ticks: seq<Numbered>, joint: string, p: nat)
    ensures Period(ticks, joint) == Some(p) <==> IsPeriod(ticks, joint, p)
  {
    GapsCountRows(ticks, joint, |ticks|);
    var gaps := Gaps(ticks, joint, |ticks|);
    if gaps != [] {
      var m := Median(gaps);
      MedianSplits(gaps);
      GapsAreCounted(ticks, joint, m, |ticks|);
      GapsAreCounted(ticks, joint, m + 1, |ticks|);
      assert IsMedianGap(ticks, joint, m);
      if IsPeriod(ticks, joint, p) {
        var n: nat :| IsMedianGap(ticks, joint, n) && p == if n == 0 then 1 else n;
        OneMedian(ticks, joint, m, n);
      }
    }
  }

  // ----- The fill

  /** Tick `at` is the latest up to tick `t` that traces the joint. */
  ghost predicate IsLatest(ticks: seq<Numbered>, joint: string, at: int, t: int) {
    at <= t && HasRow(ticks, joint, at) && forall s | at < s <= t :: !HasRow(ticks, joint, s)
  }

  /** At tick `t` the row of tick `at` is no older than two of the joint's periods. */
  ghost predicate IsFresh(ticks: seq<Numbered>, joint: string, at: int, t: int)
    requires 0 <= at < |ticks| && 0 <= t < |ticks|
  {
    ticks[t].no <= ticks[at].no || exists p: nat :: IsPeriod(ticks, joint, p) && ticks[t].no - ticks[at].no <= 2 * p
  }

  /** The joint's latest row, if that is the tick's own or fresh; otherwise there is none. */
  ghost predicate StandsFor(ticks: seq<Numbered>, joint: string, t: nat, row: Option<Row>)
    requires t < |ticks|
  {
    match row
    case Some(r) =>
      exists at :: IsLatest(ticks, joint, at, t) && ticks[at].tick.rows[joint] == r && (at == t || IsFresh(ticks, joint, at, t))
    case None =>
      forall at | IsLatest(ticks, joint, at, t) :: at < t && !IsFresh(ticks, joint, at, t)
  }

  lemma {:induction false} FreshIff(ticks: seq<Numbered>, joint: string, at: nat, t: nat)
    requires at < |ticks| && t < |ticks|
    ensures IsFresh(ticks, joint, at, t) <==> Age(ticks[t].no, ticks[at].no) <= MaxAge(ticks, joint)
  {
    match Period(ticks, joint)
    case Some(p) =>
      PeriodIsMedian(ticks, joint, p);
      if IsFresh(ticks, joint, at, t) && ticks[t].no > ticks[at].no {
        var q: nat :| IsPeriod(ticks, joint, q) && ticks[t].no - ticks[at].no <= 2 * q;
        PeriodIsMedian(ticks, joint, q);
      }
    case None =>
      forall p: nat ensures !IsPeriod(ticks, joint, p) {
        PeriodIsMedian(ticks, joint, p);
      }
  }

  lemma {:induction false} LatestIs(ticks: seq<Numbered>, joint: string, t: nat, at: int)
    requires t < |ticks| && IsLatest(ticks, joint, at, t)
    ensures at == t || (at < t && LastRow(ticks, joint, t) == Some(at) && !Traces(ticks, joint, t))
  {
    if at < t {
      assert !HasRow(ticks, joint, t);
      LastRowIff(ticks, joint, at, t);
    }
  }

  /** The filled trace has a joint at a tick exactly when its latest row is the tick's own or at most two periods old, and then that row. */
  lemma {:induction false} FilledStandsFor(ticks: seq<Numbered>, joint: string, t: nat)
    requires t < |ticks|
    ensures StandsFor(ticks, joint, t, Filled(ticks, joint, t))
  {
    var last := LastRow(ticks, joint, t);
    if Traces(ticks, joint, t) {
      assert IsLatest(ticks, joint, t, t);
    } else if last.Some? {
      LastRowIff(ticks, joint, last.value, t);
      assert !HasRow(ticks, joint, t) && IsLatest(ticks, joint, last.value, t);
      FreshIff(ticks, joint, last.value, t);
    }
    if Filled(ticks, joint, t).None? {
      forall at | IsLatest(ticks, joint, at, t) ensures at < t && !IsFresh(ticks, joint, at, t) {
        LatestIs(ticks, joint, t, at);
      }
    }
  }

  // ----- Stale runs

  /** How many of the ticks after `at` and before `to` find the row of tick `at` too old. */
  ghost function StaleTicks(ticks: seq<Numbered>, joint: string, at: nat, to: nat): nat
    requires at < |ticks| && to <= |ticks|
  {
    if to <= at + 1 then 0
    else StaleTicks(ticks, joint, at, to - 1) + (if IsFresh(ticks, joint, at, to - 1) then 0 else 1)
  }

  /** From the row of tick `at` to the next one at tick `to`, or to the end of the trace, some ticks find that row too old. */
  ghost predicate RunsFrom(ticks: seq<Numbered>, run: StaleRun, at: nat, to: nat) {
    && at < to <= |ticks| && HasRow(ticks, run.joint, at) && (forall s | at < s < to :: !HasRow(ticks, run.joint, s))
    && run.lastRowTick == ticks[at].no
    && run.ticks == StaleTicks(ticks, run.joint, at, to) > 0
    && if to < |ticks| then HasRow(ticks, run.joint, to) && run.resumed == Some(ticks[to].no) else run.resumed == None
  }

  lemma {:induction false} DroppedIsStale(ticks: seq<Numbered>, joint: string, at: nat, i: nat)
    requires i <= |ticks| && LastRow(ticks, joint, i) == Some(at)
    ensures DroppedSince(ticks, joint, i) == StaleTicks(ticks, joint, at, i)
  {
    if at + 1 < i {
      DroppedIsStale(ticks, joint, at, i - 1);
      FreshIff(ticks, joint, at, i - 1);
    }
  }

  lemma {:induction false} RunAtIff(ticks: seq<Numbered>, run: StaleRun, to: nat)
    requires to <= |ticks| && (to < |ticks| ==> Traces(ticks, run.joint, to))
    ensures (exists at: nat :: RunsFrom(ticks, run, at, to)) <==>
            RunAt(ticks, run.joint, to, if to < |ticks| then Some(ticks[to].no) else None) == Some(run)
  {
    if at: nat :| RunsFrom(ticks, run, at, to) {
      LastRowIff(ticks, run.joint, at, to);
      DroppedIsStale(ticks, run.joint, at, to);
    }
    var last := LastRow(ticks, run.joint, to);
    if last.Some? && RunAt(ticks, run.joint, to, if to < |ticks| then Some(ticks[to].no) else None) == Some(run) {
      DroppedIsStale(ticks, run.joint, last.value, to);
      LastRowIff(ticks, run.joint, last.value, to);
      assert RunsFrom(ticks, run, last.value, to);
    }
  }

  /**
    The reported runs are exactly those of the trace: for each row of a joint
    that is too old at some tick before the joint's next row, how many such ticks
    there are, and where the joint was traced again.
   */
  lemma {:induction false} ReportedIffStale(ticks: seq<Numbered>, run: StaleRun)
    ensures IsRun(ticks, run) <==> exists at: nat, to: nat :: RunsFrom(ticks, run, at, to)
  {
    RunAtIff(ticks, run, |ticks|);
    if at: nat, to: nat :| RunsFrom(ticks, run, at, to) {
      RunAtIff(ticks, run, to);
      assert to < |ticks| ==> EndsAt(ticks, to, run);
    }
    if Ended(ticks, |ticks|, run) {
      var q: nat :| q < |ticks| && EndsAt(ticks, q, run);
      RunAtIff(ticks, run, q);
    }
  }
}
