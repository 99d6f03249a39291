/**
  Measuring a hold: the settled run at its end, the last part of that run as the
  window, and the mean of every joint over the window.
 */
module SettledWindow {
  import opened Trace
  import opened Basics
  import FF = ForwardFill
  import opened StaleRows

  const SETTLED_DQ := 0.1
  const SETTLED_BAND := 0.05
  const MIN_WINDOW_MS := 1000

  datatype Field = Q | TauMeas | TauCmd

  datatype Measured =
    | Measurement(q: seq<real>, tau: seq<real>, tauCmd: seq<real>, samples: nat, windowMs: nat)
    | NeverSettled
    | TimeRegressed
    | TooShort(runMs: nat)
    | EmptyWindow

  function Get(row: Row, field: Field): real {
    match field
    case Q => row.q
    case TauMeas => row.tauMeas
    case TauCmd => row.tauCmd
  }

  /** The test of the scan: every joint is traced and slow, and the measured one is at its target. */
  predicate Settled(tick: Tick, joints: seq<string>, joint: string, target: real) {
    && (forall j | j in joints :: j in tick.rows && Abs(tick.rows[j].dq) <= SETTLED_DQ)
    && joint in tick.rows && Near(tick.rows[joint].q, target, SETTLED_BAND)
  }

  /** Every joint is traced at 0.1 rad/s or slower in either direction, and the measured one within 0.05 rad of its target. */
  ghost predicate AtRest(tick: Tick, joints: seq<string>, joint: string, target: real) {
    && (forall j | j in joints :: j in tick.rows && -0.1 <= tick.rows[j].dq <= 0.1)
    && joint in tick.rows && target - 0.05 <= tick.rows[joint].q <= target + 0.05
  }

  lemma {:induction false} SettledIff(tick: Tick, joints: seq<string>, joint: string, target: real)
    ensures Settled(tick, joints, joint, target) <==> AtRest(tick, joints, joint, target)
  {
    if Settled(tick, joints, joint, target) {
      assert forall j | j in joints :: j in tick.rows && Abs(tick.rows[j].dq) <= SETTLED_DQ;
    }
    if AtRest(tick, joints, joint, target) {
      assert forall j | j in joints :: j in tick.rows && -0.1 <= tick.rows[j].dq <= 0.1;
    }
  }

  /** `run` is where the longest settled run that reaches `end` begins. */
  ghost predicate RunBegins(ticks: seq<Tick>, start: nat, run: nat, end: nat, joints: seq<string>, joint: string, target: real)
    requires end <= |ticks|
  {
    && start <= run <= end && (forall t | run <= t < end :: AtRest(ticks[t], joints, joint, target))
    && (start < run ==> !AtRest(ticks[run - 1], joints, joint, target))
  }

  method SettledRun(ticks: seq<Tick>, start: nat, end: nat, joints: seq<string>, joint: string, target: real) returns (run: nat)
    requires start <= end <= |ticks|
    ensures RunBegins(ticks, start, run, end, joints, joint, target)
  {
    run := end;
    while start < run && Settled(ticks[run - 1], joints, joint, target)
      invariant start <= run <= end && forall t | run <= t < end :: AtRest(ticks[t], joints, joint, target)
    {
      SettledIff(ticks[run - 1], joints, joint, target);
      run := run - 1;
    }
    if start < run {
      SettledIff(ticks[run - 1], joints, joint, target);
    }
  }

  // ----- The window

  ghost predicate Increasing(list: seq<nat>) {
    forall x, y | 0 <= x < y < |list| :: list[x] < list[y]
  }

  /** `picked` lists, in order, the ticks of [from, to) at most `ms` before the last of them. */
  ghost predicate Picks(ticks: seq<Tick>, from: nat, to: nat, lastMs: nat, ms: nat, picked: seq<nat>)
    requires to <= |ticks|
  {
    && Increasing(picked)
    && forall k: nat :: k in picked <==> from <= k < to && lastMs - ticks[k].tMs <= ms
  }

  ghost predicate IsPicked(ticks: seq<Tick>, picked: seq<nat>, window: seq<Tick>) {
    |window| == |picked| && forall x | 0 <= x < |picked| :: picked[x] < |ticks| && window[x] == ticks[picked[x]]
  }

  /** The ticks of [from, to) no earlier than `fromMs`, in order. */
  method Recent(ticks: seq<Tick>, from: nat, to: nat, lastMs: nat, ms: nat) returns (window: seq<Tick>, ghost picked: seq<nat>)
    requires from <= to <= |ticks|
    ensures Picks(ticks, from, to, lastMs, ms, picked) && IsPicked(ticks, picked, window)
  {
    var fromMs := FromMs(lastMs, ms);
    window, picked := [], [];
    for k := from to to
      invariant Picks(ticks, from, k, lastMs, ms, picked) && IsPicked(ticks, picked, window)
    {
      if ticks[k].tMs >= fromMs {
        window, picked := window + [ticks[k]], picked + [k];
      }
    }
  }

  predicate Rising(ticks: seq<Tick>) {
    forall i, j | 0 <= i < j < |ticks| :: ticks[i].tMs <= ticks[j].tMs
  }

  /** An increasing list is determined by its members. */
  lemma {:induction false} SameList(a: seq<nat>, b: seq<nat>)
    requires Increasing(a) && Increasing(b) && forall k: nat :: k in a <==> k in b
    ensures a == b
  {
    assert |b| > 0 ==> b[0] in a;
    assert |a| > 0 ==> a[0] in b;
    if a != [] && b != [] {
      var x, y := a[|a| - 1], b[|b| - 1];
      assert x in b && y in a;
      var front, rest := a[..|a| - 1], b[..|b| - 1];
      forall k: nat ensures k in front <==> k in rest {
        assert k in front <==> k in a && k != x;
        assert k in rest <==> k in b && k != y;
      }
      SameList(front, rest);
      assert a == front + [x] && b == rest + [y];
    }
  }

  /** When the recent ticks are the last ones, the window is the end of the run. */
  lemma {:induction false} RecentIsSuffix(ticks: seq<Tick>, from: nat, first: nat, to: nat, lastMs: nat, ms: nat, picked: seq<nat>, window: seq<Tick>)
    requires from <= first <= to <= |ticks| && Picks(ticks, from, to, lastMs, ms, picked) && IsPicked(ticks, picked, window)
    requires forall i | from <= i < first :: lastMs - ticks[i].tMs > ms
    requires forall i | first <= i < to :: lastMs - ticks[i].tMs <= ms
    ensures window == ticks[first..to]
  {
    var all: seq<nat> := seq(to - first, (i: nat) => first + i);
    forall k: nat ensures k in picked <==> k in all {
      assert first <= k < to ==> all[k - first] == k;
    }
    SameList(picked, all);
  }

  // ----- Means

  /** Sum of a field over the rows the window has for the joint. */
  function SumRows(window: seq<Tick>, joint: string, field: Field): real {
    if window == [] then 0.0
    else
      var sum, tick := SumRows(window[..|window| - 1], joint, field), window[|window| - 1];
      if joint in tick.rows then sum + Get(tick.rows[joint], field) else sum
  }

  /** How many rows the window has for the joint. */
  function CountRows(window: seq<Tick>, joint: string): nat {
    if window == [] then 0
    else CountRows(window[..|window| - 1], joint) + (if joint in window[|window| - 1].rows then 1 else 0)
  }

  method Sum(window: seq<Tick>, joint: string, field: Field) returns (sum: real)
    ensures sum == SumRows(window, joint, field)
  {
    sum := 0.0;
    for i := 0 to |window|
      invariant sum == SumRows(window[..i], joint, field)
    {
      assert window[..i + 1][..i] == window[..i];
      if joint in window[i].rows {
        sum := sum + Get(window[i].rows[joint], field);
      }
    }
    assert window[..|window|] == window;
  }

  /** `mean` is the average over exactly the rows the window has for the joint. */
  ghost predicate IsMean(window: seq<Tick>, joint: string, field: Field, mean: real) {
    CountRows(window, joint) > 0 && Times(CountRows(window, joint), mean) == SumRows(window, joint, field)
  }

  lemma {:induction false} EveryTickCounts(window: seq<Tick>, joint: string)
    requires forall t | t in window :: joint in t.rows
    ensures CountRows(window, joint) == |window|
  {
    if window != [] {
      EveryTickCounts(window[..|window| - 1], joint);
    }
  }

  function Total(column: seq<real>): real {
    if column == [] then 0.0 else Total(column[..|column| - 1]) + column[|column| - 1]
  }

  /** So many times the mean is the sum of the column. */
  ghost predicate Averages(column: seq<real>, mean: real) {
    column != [] && |column| as real * mean == Total(column)
  }

  ghost predicate AllHave(window: seq<Tick>, joint: string) {
    forall k | 0 <= k < |window| :: joint in window[k].rows
  }

  ghost function Positions(window: seq<Tick>, joint: string): seq<real>
    requires AllHave(window, joint)
  {
    seq(|window|, k requires 0 <= k < |window| => window[k].rows[joint].q)
  }

  ghost function Torques(window: seq<Tick>, joint: string): seq<real>
    requires AllHave(window, joint)
  {
    seq(|window|, k requires 0 <= k < |window| => window[k].rows[joint].tauMeas)
  }

  ghost function Commands(window: seq<Tick>, joint: string): seq<real>
    requires AllHave(window, joint)
  {
    seq(|window|, k requires 0 <= k < |window| => window[k].rows[joint].tauCmd)
  }

  lemma {:induction false} SumsAreTotals(window: seq<Tick>, joint: string)
    requires AllHave(window, joint)
    ensures SumRows(window, joint, Q) == Total(Positions(window, joint))
    ensures SumRows(window, joint, TauMeas) == Total(Torques(window, joint))
    ensures SumRows(window, joint, TauCmd) == Total(Commands(window, joint))
  {
    if window != [] {
      var n := |window| - 1;
      SumsAreTotals(window[..n], joint);
      assert Positions(window, joint)[..n] == Positions(window[..n], joint);
      assert Torques(window, joint)[..n] == Torques(window[..n], joint);
      assert Commands(window, joint)[..n] == Commands(window[..n], joint);
    }
  }

  lemma {:induction false} MeansAverage(window: seq<Tick>, joint: string, q: real, tau: real, tauCmd: real)
    requires AllHave(window, joint)
    requires IsMean(window, joint, Q, q) && IsMean(window, joint, TauMeas, tau) && IsMean(window, joint, TauCmd, tauCmd)
    ensures Averages(Positions(window, joint), q) && Averages(Torques(window, joint), tau) && Averages(Commands(window, joint), tauCmd)
  {
    SumsAreTotals(window, joint);
    EveryTickCounts(window, joint);
  }

  /** The joints' means over a window in which every tick has a row for every joint. */
  method Means(window: seq<Tick>, joints: seq<string>, field: Field) returns (means: seq<real>)
    requires window != [] && forall t, j | t in window && j in joints :: j in t.rows
    ensures |means| == |joints| && forall i | 0 <= i < |joints| :: IsMean(window, joints[i], field, means[i])
  {
    means := [];
    for i := 0 to |joints|
      invariant |means| == i && forall k | 0 <= k < i :: IsMean(window, joints[k], field, means[k])
    {
      var sum := Sum(window, joints[i], field);
      assert joints[i] in joints;
      EveryTickCounts(window, joints[i]);
      means := means + [sum / |window| as real];
    }
  }

  function Times(n: nat, x: real): real {
    n as real * x
  }

  lemma {:induction false} TimesNext(n: nat, x: real)
    ensures Times(n + 1, x) == Times(n, x) + x
  {
  }

  lemma {:induction false} Cancel(n: nat, x: real, y: real)
    requires n > 0 && Times(n, x) <= Times(n, y)
    ensures x <= y
  {
  }

  // ----- The measurement

  /** Window length asked for, in milliseconds: at least one second. */
  function MeasureMs(measureSec: real): (ms: nat)
    ensures ms >= MIN_WINDOW_MS && IsWindowMs(measureSec, ms)
  {
    if measureSec < 1.0 then MIN_WINDOW_MS else (measureSec * 1000.0).Floor
  }

  /** The whole milliseconds in the time asked for, or in one second when that is longer. */
  ghost predicate IsWindowMs(measureSec: real, ms: nat) {
    if measureSec <= 1.0 then ms == 1000 else ms as real <= measureSec * 1000.0 < ms as real + 1.0
  }

  function FromMs(lastMs: nat, measureMs: nat): nat {
    if lastMs < measureMs then 0 else lastMs - measureMs
  }

  /** The measurement is the mean of every joint's position, torque and commanded torque over the settled ticks of the window. */
  ghost predicate Measures(window: seq<Tick>, joints: seq<string>, joint: string, target: real, m: Measured) {
    && m.Measurement? && m.samples == |window| > 0
    && (forall k | 0 <= k < |window| :: AtRest(window[k], joints, joint, target))
    && |m.q| == |m.tau| == |m.tauCmd| == |joints|
    && forall i: nat | i < |joints| :: MeasuresJoint(window, joints[i], m.q[i], m.tau[i], m.tauCmd[i])
  }

  ghost predicate MeasuresJoint(window: seq<Tick>, joint: string, q: real, tau: real, tauCmd: real) {
    && AllHave(window, joint) && Averages(Positions(window, joint), q) && Averages(Torques(window, joint), tau)
    && Averages(Commands(window, joint), tauCmd)
  }

  method MeasureWindow(window: seq<Tick>, joints: seq<string>, joint: string, target: real, lastMs: nat) returns (m: Measured)
    requires window != [] && forall k | 0 <= k < |window| :: AtRest(window[k], joints, joint, target)
    ensures Measures(window, joints, joint, target, m)
    ensures m.windowMs == if lastMs < window[0].tMs then 0 else lastMs - window[0].tMs
  {
    var q := Means(window, joints, Q);
    var tau := Means(window, joints, TauMeas);
    var tauCmd := Means(window, joints, TauCmd);
    forall i: nat | i < |joints| ensures MeasuresJoint(window, joints[i], q[i], tau[i], tauCmd[i]) {
      assert joints[i] in joints;
      MeansAverage(window, joints[i], q[i], tau[i], tauCmd[i]);
    }
    m := Measurement(q, tau, tauCmd, |window|, FromMs(lastMs, window[0].tMs));
  }

  /** The settled run from `run` on was measured over its ticks at most `ms` before its end. */
  ghost predicate MeasuredOver(ticks: seq<Tick>, run: nat, end: nat, joints: seq<string>, joint: string, target: real,
                               ms: nat, picked: seq<nat>, window: seq<Tick>, m: Measured)
    requires run < end <= |ticks|
  {
    var lastMs := ticks[end - 1].tMs;
    && Picks(ticks, run, end, lastMs, ms, picked) && IsPicked(ticks, picked, window)
    && Measures(window, joints, joint, target, m)
    && m.windowMs == if lastMs < window[0].tMs then 0 else lastMs - window[0].tMs
  }

  /** What the result says about the settled run that begins at `run`. */
  ghost predicate Explains(ticks: seq<Tick>, run: nat, end: nat, joints: seq<string>, joint: string, target: real,
                           measureSec: real, m: Measured)
    requires run <= end <= |ticks|
  {
    match m
    case NeverSettled => run == end
    case TimeRegressed => run < end && ticks[end - 1].tMs < ticks[run].tMs
    case TooShort(ms) => run < end && ms == ticks[end - 1].tMs - ticks[run].tMs && 0 <= ms < 1000
    case EmptyWindow => false
    case Measurement(_, _, _, _, _) =>
      && run < end && ticks[end - 1].tMs - ticks[run].tMs >= 1000
      && exists ms: nat, picked, window ::
           IsWindowMs(measureSec, ms) && MeasuredOver(ticks, run, end, joints, joint, target, ms, picked, window, m)
  }

  method MeasureHold(ticks: seq<Tick>, joints: seq<string>, joint: string, target: real, start: nat, end: nat, measureSec: real)
    returns (m: Measured, ghost run: nat)
    requires start <= end <= |ticks|
    ensures RunBegins(ticks, start, run, end, joints, joint, target)
    ensures Explains(ticks, run, end, joints, joint, target, measureSec, m)
  {
    var from := SettledRun(ticks, start, end, joints, joint, target);
    run := from;
    if from == end {
      return NeverSettled, run;
    }
    var lastMs := ticks[end - 1].tMs;
    if lastMs < ticks[from].tMs {
      return TimeRegressed, run;
    }
    var runMs := lastMs - ticks[from].tMs;
    if runMs < MIN_WINDOW_MS {
      return TooShort(runMs), run;
    }
    var window, picked := Recent(ticks, from, end, lastMs, MeasureMs(measureSec));
    assert end - 1 in picked;
    if window == [] {
      return EmptyWindow, run;
    }
    PickedAtRest(ticks, from, end, joints, joint, target, lastMs, MeasureMs(measureSec), picked, window);
    m := MeasureWindow(window, joints, joint, target, lastMs);
    assert MeasuredOver(ticks, run, end, joints, joint, target, MeasureMs(measureSec), picked, window, m);
  }

  lemma {:induction false} PickedAtRest(ticks: seq<Tick>, run: nat, end: nat, joints: seq<string>, joint: string, target: real,
                     lastMs: nat, ms: nat, picked: seq<nat>, window: seq<Tick>)
    requires run <= end <= |ticks| && Picks(ticks, run, end, lastMs, ms, picked) && IsPicked(ticks, picked, window)
    requires forall t | run <= t < end :: AtRest(ticks[t], joints, joint, target)
    ensures forall k | 0 <= k < |window| :: AtRest(window[k], joints, joint, target)
  {
    forall k | 0 <= k < |window| ensures AtRest(window[k], joints, joint, target) {
      assert picked[k] in picked;
    }
  }

  /**
    A trace whose time never runs backwards: each hold is measured, or it was not
    settled at its end, or not for a second; the window is the end of the settled
    run, from its first tick that is recent enough on.
   */
  lemma {:induction false} MeasuredFromSuffix(ticks: seq<Tick>, run: nat, end: nat, joints: seq<string>, joint: string, target: real,
                           measureSec: real, m: Measured) returns (first: nat, ms: nat)
    requires run <= end <= |ticks| && Rising(ticks) && Explains(ticks, run, end, joints, joint, target, measureSec, m)
    ensures !m.TimeRegressed? && !m.EmptyWindow?
    ensures m.Measurement? ==>
              run <= first < end && Measures(ticks[first..end], joints, joint, target, m)
              && m.windowMs == ticks[end - 1].tMs - ticks[first].tMs <= ms && IsWindowMs(measureSec, ms)
              && (first > run ==> ticks[end - 1].tMs - ticks[first - 1].tMs > ms)
  {
    first, ms := run, 0;
    if m.Measurement? {
      var asked: nat, picked, window :|
        IsWindowMs(measureSec, asked) && MeasuredOver(ticks, run, end, joints, joint, target, asked, picked, window, m);
      ms := asked;
      first := FirstRecent(ticks, run, end, ms);
      RecentIsSuffix(ticks, run, first, end, ticks[end - 1].tMs, ms, picked, window);
    }
  }

  lemma {:induction false} FirstRecent(ticks: seq<Tick>, run: nat, end: nat, ms: nat) returns (first: nat)
    requires run < end <= |ticks| && Rising(ticks)
    ensures run <= first < end
    ensures forall i | run <= i < first :: ticks[end - 1].tMs - ticks[i].tMs > ms
    ensures forall i | first <= i < end :: ticks[end - 1].tMs - ticks[i].tMs <= ms
  {
    first := run;
    while ticks[end - 1].tMs - ticks[first].tMs > ms
      invariant run <= first < end
      invariant forall i | run <= i < first :: ticks[end - 1].tMs - ticks[i].tMs > ms
      decreases end - first
    {
      first := first + 1;
    }
  }

  lemma {:induction false} TotalInBand(column: seq<real>, lo: real, hi: real)
    requires forall k | 0 <= k < |column| :: lo <= column[k] <= hi
    ensures Times(|column|, lo) <= Total(column) <= Times(|column|, hi)
  {
    if column != [] {
      TotalInBand(column[..|column| - 1], lo, hi);
      TimesNext(|column| - 1, lo);
      TimesNext(|column| - 1, hi);
    }
  }

  /** The measured joint's mean position is within the settling band of its target. */
  lemma {:induction false} MeasuredOnTarget(window: seq<Tick>, joints: seq<string>, joint: string, target: real, m: Measured, i: nat)
    requires Measures(window, joints, joint, target, m) && i < |joints| && joints[i] == joint
    ensures target - 0.05 <= m.q[i] <= target + 0.05
  {
    assert MeasuresJoint(window, joints[i], m.q[i], m.tau[i], m.tauCmd[i]);
    var column := Positions(window, joint);
    forall k | 0 <= k < |column| ensures target - 0.05 <= column[k] <= target + 0.05 {
      assert AtRest(window[k], joints, joint, target);
    }
    TotalInBand(column, target - 0.05, target + 0.05);
    Cancel(|column|, target - 0.05, m.q[i]);
    Cancel(|column|, m.q[i], target + 0.05);
  }

  /** No over-age row enters a mean: every row of a settled tick of the filled trace is the joint's latest, and fresh. */
  lemma {:induction false} MeasuredRowsAreRecent(trace: seq<FF.Numbered>, ticks: seq<Tick>, joints: seq<string>, joint: string,
                                                 target: real, t: nat, j: string)
    requires |ticks| == |trace| && (forall i: nat | i < |trace| :: FF.IsFilled(trace, i, ticks[i]))
    requires t < |ticks| && AtRest(ticks[t], joints, joint, target) && (j in joints || j == joint)
    ensures j in ticks[t].rows && StandsFor(trace, j, t, Some(ticks[t].rows[j]))
  {
    assert FF.IsFilled(trace, t, ticks[t]);
    assert FF.Lookup(ticks[t].rows, j) == FF.Filled(trace, j, t);
    FilledStandsFor(trace, j, t);
  }
}
