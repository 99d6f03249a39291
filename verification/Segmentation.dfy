/**
  Segmentation of a calibration session: which trace ticks belong to which plan
  step, for complete and aborted sessions alike.
 */
module Segmentation {
  import opened Basics
  import opened Trace

  datatype Step =
    | Hold(joint: string, target: real)
    | Fixed(joint: string, target: real)
    | Wave(joint: string, min: real, cycles: nat, halfPeriod: real)   // half period in seconds

  datatype Seg = Seg(planIndex: nat, start: nat, end: nat)

  datatype SkipReason = TargetNeverAppears | NoTicksBetween | EmptyRange

  datatype Skip = Skip(index: nat, reason: SkipReason)

  datatype Segmented = Segmented(holds: seq<Seg>, waves: seq<Seg>, skipped: seq<Skip>)

  predicate Shows(tick: Tick, step: Step)
    requires !step.Wave?
  {
    step.joint in tick.rows && Near(tick.rows[step.joint].target, step.target, TARGET_TOL)
  }

  /** The tick traces the step's joint at most 50 microradians from its target. */
  ghost predicate OnTarget(tick: Tick, step: Step)
    requires !step.Wave?
  {
    step.joint in tick.rows && -0.00005 <= tick.rows[step.joint].target - step.target <= 0.00005
  }

  /** The same joints are traced at both ticks, none with targets more than 50 microradians apart. */
  ghost predicate TargetsKept(a: Tick, b: Tick) {
    && (forall joint :: joint in a.rows <==> joint in b.rows)
    && forall joint | joint in a.rows && joint in b.rows :: -0.00005 <= a.rows[joint].target - b.rows[joint].target <= 0.00005
  }

  lemma {:induction false} KeptIff(a: Tick, b: Tick)
    ensures SameTargets(a, b) <==> TargetsKept(a, b)
  {
    if TargetsKept(a, b) {
      assert a.rows.Keys == b.rows.Keys;
    }
    if SameTargets(a, b) {
      assert forall joint :: joint in a.rows.Keys <==> joint in b.rows.Keys;
      assert forall joint | joint in a.rows :: Near(a.rows[joint].target, b.rows[joint].target, TARGET_TOL);
    }
  }

  // ----- Counting which steps are where

  function Occurrences(indices: seq<nat>, k: nat): nat {
    if indices == [] then 0
    else Occurrences(indices[..|indices| - 1], k) + (if indices[|indices| - 1] == k then 1 else 0)
  }

  lemma {:induction false} OccurrencesGrow(indices: seq<nat>, i: nat)
    ensures forall k: nat :: Occurrences(indices + [i], k) == Occurrences(indices, k) + (if i == k then 1 else 0)
  {
    assert (indices + [i])[..|indices|] == indices;
  }

  function SegIndices(segs: seq<Seg>): seq<nat> {
    seq(|segs|, i requires 0 <= i < |segs| => segs[i].planIndex)
  }

  function SkipIndices(skips: seq<Skip>): seq<nat> {
    seq(|skips|, i requires 0 <= i < |skips| => skips[i].index)
  }

  /** How often step `k` is placed. */
  function Placements(segs: seq<Seg>, skips: seq<Skip>, k: nat): nat {
    Occurrences(SegIndices(segs), k) + Occurrences(SkipIndices(skips), k)
  }

  lemma {:induction false} PlaceSeg(segs: seq<Seg>, skips: seq<Skip>, s: Seg)
    ensures forall k: nat :: Placements(segs + [s], skips, k) == Placements(segs, skips, k) + (if s.planIndex == k then 1 else 0)
  {
    assert SegIndices(segs + [s]) == SegIndices(segs) + [s.planIndex];
    OccurrencesGrow(SegIndices(segs), s.planIndex);
  }

  lemma {:induction false} PlaceSkip(segs: seq<Seg>, skips: seq<Skip>, s: Skip)
    ensures forall k: nat :: Placements(segs, skips + [s], k) == Placements(segs, skips, k) + (if s.index == k then 1 else 0)
  {
    assert SkipIndices(skips + [s]) == SkipIndices(skips) + [s.index];
    OccurrencesGrow(SkipIndices(skips), s.index);
  }

  // ----- Holds

  /** The segment starts at a tick that shows its step's target. */
  ghost predicate StartsOnTarget(steps: seq<Step>, ticks: seq<Tick>, s: Seg) {
    && s.planIndex < |steps| && !steps[s.planIndex].Wave?
    && s.start < |ticks| && OnTarget(ticks[s.start], steps[s.planIndex])
  }

  /** Found holds in plan order, each starting after the one before. */
  ghost predicate Starts(steps: seq<Step>, ticks: seq<Tick>, found: seq<Seg>) {
    && (forall i | 0 <= i < |found| :: StartsOnTarget(steps, ticks, found[i]))
    && forall i, j | 0 <= i < j < |found| :: found[i].planIndex < found[j].planIndex && found[i].start < found[j].start
  }

  /** No tick in [from, to) shows the step's target. */
  ghost predicate NotShown(ticks: seq<Tick>, step: Step, from: nat, to: nat)
    requires !step.Wave? && to <= |ticks|
  {
    forall t | from <= t < to :: !OnTarget(ticks[t], step)
  }

  /** Hold `i` starts at the first tick that shows its target once the previous hold has started. */
  ghost predicate StartsFirst(steps: seq<Step>, ticks: seq<Tick>, found: seq<Seg>, i: nat)
    requires i < |found|
  {
    && StartsOnTarget(steps, ticks, found[i])
    && NotShown(ticks, steps[found[i].planIndex], CursorAt(found, i), found[i].start)
  }

  ghost predicate Earliest(steps: seq<Step>, ticks: seq<Tick>, found: seq<Seg>) {
    forall i: nat | i < |found| :: StartsFirst(steps, ticks, found, i)
  }

  function CursorAt(found: seq<Seg>, i: nat): nat
    requires i <= |found|
  {
    if i == 0 then 0 else found[i - 1].start + 1
  }

  /** A skipped hold's target never shows again after the holds found before it. */
  ghost predicate TrulyAbsent(steps: seq<Step>, ticks: seq<Tick>, found: seq<Seg>, skip: Skip) {
    && skip.index < |steps| && !steps[skip.index].Wave?
    && exists i :: 0 <= i <= |found|
                   && (forall j | 0 <= j < i :: found[j].planIndex < skip.index)
                   && (forall j | i <= j < |found| :: skip.index < found[j].planIndex)
                   && NotShown(ticks, steps[skip.index], CursorAt(found, i), |ticks|)
  }

  method FirstShowing(ticks: seq<Tick>, step: Step, from: nat) returns (at: nat)
    requires !step.Wave? && from <= |ticks|
    ensures from <= at <= |ticks| && NotShown(ticks, step, from, at)
    ensures at < |ticks| ==> OnTarget(ticks[at], step)
  {
    at := from;
    while at < |ticks| && !Shows(ticks[at], step)
      invariant from <= at <= |ticks| && NotShown(ticks, step, from, at)
    {
      at := at + 1;
    }
  }

  /** What is known once the first `k` steps have been looked for. */
  ghost predicate SearchedTo(steps: seq<Step>, ticks: seq<Tick>, found: seq<Seg>, skipped: seq<Skip>, k: nat)
    requires k <= |steps|
  {
    && Starts(steps, ticks, found) && Earliest(steps, ticks, found) && CursorAt(found, |found|) <= |ticks|
    && (forall i | 0 <= i < |found| :: found[i].planIndex < k)
    && (forall s | s in skipped :: s.index < k && s.reason == TargetNeverAppears && TrulyAbsent(steps, ticks, found, s))
    && forall i: nat :: Placements(found, skipped, i) == if i < k && !steps[i].Wave? then 1 else 0
  }

  lemma {:induction false} FoundGrows(steps: seq<Step>, ticks: seq<Tick>, found: seq<Seg>, skipped: seq<Skip>, k: nat, at: nat)
    requires k < |steps| && !steps[k].Wave? && SearchedTo(steps, ticks, found, skipped, k)
    requires CursorAt(found, |found|) <= at < |ticks| && OnTarget(ticks[at], steps[k]) && NotShown(ticks, steps[k], CursorAt(found, |found|), at)
    ensures SearchedTo(steps, ticks, found + [Seg(k, at, |ticks|)], skipped, k + 1)
  {
    var seg := Seg(k, at, |ticks|);
    var more := found + [seg];
    PlaceSeg(found, skipped, seg);
    forall s | s in skipped ensures TrulyAbsent(steps, ticks, more, s) {
      AbsentStays(steps, ticks, found, seg, s);
    }
    StartsGrow(steps, ticks, found, seg);
  }

  lemma {:induction false} StartsGrow(steps: seq<Step>, ticks: seq<Tick>, found: seq<Seg>, seg: Seg)
    requires Starts(steps, ticks, found) && Earliest(steps, ticks, found)
    requires forall i | 0 <= i < |found| :: found[i].planIndex < seg.planIndex
    requires StartsOnTarget(steps, ticks, seg) && CursorAt(found, |found|) <= seg.start
    requires NotShown(ticks, steps[seg.planIndex], CursorAt(found, |found|), seg.start)
    ensures Starts(steps, ticks, found + [seg]) && Earliest(steps, ticks, found + [seg])
  {
    var more := found + [seg];
    forall i: nat | i < |more| ensures StartsFirst(steps, ticks, more, i) {
      assert CursorAt(more, i) == CursorAt(found, i);
      assert i < |found| ==> StartsFirst(steps, ticks, found, i);
    }
    assert forall i | 0 <= i < |found| :: found[i].start <= found[|found| - 1].start;
  }

  lemma {:induction false} SkippedGrows(steps: seq<Step>, ticks: seq<Tick>, found: seq<Seg>, skipped: seq<Skip>, k: nat)
    requires k < |steps| && !steps[k].Wave? && SearchedTo(steps, ticks, found, skipped, k)
    requires NotShown(ticks, steps[k], CursorAt(found, |found|), |ticks|)
    ensures SearchedTo(steps, ticks, found, skipped + [Skip(k, TargetNeverAppears)], k + 1)
  {
    var skip := Skip(k, TargetNeverAppears);
    PlaceSkip(found, skipped, skip);
    assert TrulyAbsent(steps, ticks, found, skip);
  }

  /** Hold and fixed steps in plan order; one whose target never appears is skipped without moving the cursor. */
  method FindHolds(steps: seq<Step>, ticks: seq<Tick>) returns (found: seq<Seg>, skipped: seq<Skip>)
    ensures SearchedTo(steps, ticks, found, skipped, |steps|)
  {
    found, skipped := [], [];
    var cursor := 0;
    for k := 0 to |steps|
      invariant SearchedTo(steps, ticks, found, skipped, k) && cursor == CursorAt(found, |found|)
    {
      if !steps[k].Wave? {
        var at := FirstShowing(ticks, steps[k], cursor);
        if at < |ticks| {
          FoundGrows(steps, ticks, found, skipped, k, at);
          found := found + [Seg(k, at, |ticks|)];
          cursor := at + 1;
        } else {
          SkippedGrows(steps, ticks, found, skipped, k);
          skipped := skipped + [Skip(k, TargetNeverAppears)];
        }
      }
    }
  }

  lemma {:induction false} AbsentStays(steps: seq<Step>, ticks: seq<Tick>, found: seq<Seg>, seg: Seg, skip: Skip)
    requires TrulyAbsent(steps, ticks, found, skip) && skip.index < seg.planIndex
    ensures TrulyAbsent(steps, ticks, found + [seg], skip)
  {
    var i :| 0 <= i <= |found|
             && (forall j | 0 <= j < i :: found[j].planIndex < skip.index)
             && (forall j | i <= j < |found| :: skip.index < found[j].planIndex)
             && NotShown(ticks, steps[skip.index], CursorAt(found, i), |ticks|);
    assert NotShown(ticks, steps[skip.index], CursorAt(found + [seg], i), |ticks|);
  }

  /** Where hold `i` must end at the latest: the next found start, or the end of the trace. */
  function Limit(found: seq<Seg>, i: nat, n: nat): nat
    requires i < |found|
  {
    if i + 1 < |found| then found[i + 1].start else n
  }

  /** A hold runs from its start while no joint's target changes. */
  ghost predicate RunsTo(ticks: seq<Tick>, seg: Seg, limit: nat) {
    && seg.start < seg.end <= limit <= |ticks|
    && (forall t | seg.start <= t < seg.end :: TargetsKept(ticks[t], ticks[seg.start]))
    && (seg.end < limit ==> !TargetsKept(ticks[seg.end], ticks[seg.start]))
  }

  /** Hold `i` keeps its start and runs until some joint's target changes, or the next hold starts. */
  ghost predicate HoldRuns(ticks: seq<Tick>, found: seq<Seg>, holds: seq<Seg>, i: nat)
    requires i < |holds| <= |found|
  {
    && holds[i] == found[i].(end := holds[i].end)
    && RunsTo(ticks, holds[i], Limit(found, i, |ticks|))
  }

  /** First tick of [start, limit) at which some joint's target is no longer what it is at `start`, or `limit`. */
  method TargetsChange(ticks: seq<Tick>, start: nat, limit: nat) returns (end: nat)
    requires start < limit <= |ticks|
    ensures start < end <= limit && forall t | start <= t < end :: TargetsKept(ticks[t], ticks[start])
    ensures end < limit ==> !TargetsKept(ticks[end], ticks[start])
  {
    assert TargetsKept(ticks[start], ticks[start]);
    end := start + 1;
    while end < limit && SameTargets(ticks[end], ticks[start])
      invariant start < end <= limit && forall t | start <= t < end :: TargetsKept(ticks[t], ticks[start])
    {
      KeptIff(ticks[end], ticks[start]);
      end := end + 1;
    }
    if end < limit {
      KeptIff(ticks[end], ticks[start]);
    }
  }

  method SetEnds(steps: seq<Step>, ticks: seq<Tick>, found: seq<Seg>) returns (holds: seq<Seg>)
    requires Starts(steps, ticks, found)
    ensures |holds| == |found| && forall i: nat | i < |holds| :: HoldRuns(ticks, found, holds, i)
  {
    holds := [];
    for i := 0 to |found|
      invariant |holds| == i && forall j: nat | j < |holds| :: HoldRuns(ticks, found, holds, j)
    {
      var limit := Limit(found, i, |ticks|);
      var start := found[i].start;
      assert i + 1 < |found| ==> start < found[i + 1].start;
      var end := TargetsChange(ticks, start, limit);
      ghost var before := holds;
      holds := holds + [found[i].(end := end)];
      assert forall j: nat | j < |before| :: HoldRuns(ticks, found, before, j) ==> HoldRuns(ticks, found, holds, j);
    }
  }

  lemma {:induction false} OnlyEndsChange(ticks: seq<Tick>, found: seq<Seg>, holds: seq<Seg>)
    requires |holds| == |found| && forall i: nat | i < |holds| :: HoldRuns(ticks, found, holds, i)
    ensures forall i | 0 <= i < |found| :: holds[i] == found[i].(end := holds[i].end)
  {
    forall i | 0 <= i < |found| ensures holds[i] == found[i].(end := holds[i].end) {
      assert HoldRuns(ticks, found, holds, i);
    }
  }

  lemma {:induction false} RunsStay(ticks: seq<Tick>, found: seq<Seg>, holds: seq<Seg>)
    requires |holds| == |found| && forall i: nat | i < |holds| :: HoldRuns(ticks, found, holds, i)
    ensures HoldsRun(ticks, holds)
  {
    OnlyEndsChange(ticks, found, holds);
    forall i: nat | i < |holds| ensures HoldRuns(ticks, holds, holds, i) {
      assert HoldRuns(ticks, found, holds, i);
    }
  }

  // ----- Gaps between holds

  /** Latest end of the holds before plan step `k`. */
  function GapStart(holds: seq<Seg>, k: nat): nat {
    if holds == [] then 0
    else
      var last, lo := holds[|holds| - 1], GapStart(holds[..|holds| - 1], k);
      if last.planIndex < k && lo < last.end then last.end else lo
  }

  /** Earliest start of the holds after plan step `k`, or the end of the trace. */
  function GapEnd(holds: seq<Seg>, k: nat, n: nat): (hi: nat)
    ensures hi <= n
  {
    if holds == [] then n
    else
      var last, hi := holds[|holds| - 1], GapEnd(holds[..|holds| - 1], k, n);
      if k < last.planIndex && last.start < hi then last.start else hi
  }

  /** The gap runs from `lo`, the latest end of an earlier hold, to `hi`, the earliest start of a later one. */
  ghost predicate IsGap(holds: seq<Seg>, k: nat, n: nat, lo: nat, hi: nat) {
    && (forall h | h in holds && h.planIndex < k :: h.end <= lo)
    && (lo == 0 || exists h :: h in holds && h.planIndex < k && h.end == lo)
    && (forall h | h in holds && k < h.planIndex :: hi <= h.start)
    && hi <= n && (hi == n || exists h :: h in holds && k < h.planIndex && h.start == hi)
  }

  lemma {:induction false} GapIsClear(holds: seq<Seg>, k: nat, n: nat)
    ensures IsGap(holds, k, n, GapStart(holds, k), GapEnd(holds, k, n))
  {
    if holds != [] {
      GapIsClear(holds[..|holds| - 1], k, n);
      assert forall h | h in holds :: h in holds[..|holds| - 1] || h == holds[|holds| - 1];
    }
  }

  /** Holds in plan order, non-empty, in bounds and disjoint. */
  ghost predicate Laid(holds: seq<Seg>, n: nat) {
    && (forall i | 0 <= i < |holds| :: holds[i].start < holds[i].end <= n)
    && forall i, j | 0 <= i < j < |holds| :: holds[i].planIndex < holds[j].planIndex && holds[i].end <= holds[j].start
  }

  lemma {:induction false} EndsLay(steps: seq<Step>, ticks: seq<Tick>, found: seq<Seg>, holds: seq<Seg>)
    requires Starts(steps, ticks, found) && |holds| == |found|
    requires forall i: nat | i < |found| :: HoldRuns(ticks, found, holds, i)
    ensures Laid(holds, |ticks|)
  {
    forall i | 0 <= i < |holds|
      ensures holds[i].start == found[i].start < holds[i].end <= |ticks| && holds[i].planIndex == found[i].planIndex
      ensures forall j | i < j < |holds| :: holds[i].end <= found[j].start
    {
      assert HoldRuns(ticks, found, holds, i);
    }
  }

  // ----- Waves

  /** The test of the search: the wave reference leaves its minimum at tick `t`. */
  predicate Departs(ticks: seq<Tick>, step: Step, t: nat)
    requires step.Wave? && 0 < t < |ticks|
  {
    && step.joint in ticks[t - 1].rows && step.joint in ticks[t].rows
    && Near(ticks[t - 1].rows[step.joint].target, step.min, TARGET_TOL)
    && ticks[t].rows[step.joint].target > step.min + TARGET_TOL
  }

  /** One tick earlier the reference is at most 50 microradians from the wave's minimum; at `t` it is more than that above. */
  ghost predicate Leaves(ticks: seq<Tick>, step: Step, t: nat)
    requires step.Wave?
  {
    && 0 < t < |ticks| && step.joint in ticks[t - 1].rows && step.joint in ticks[t].rows
    && -0.00005 <= ticks[t - 1].rows[step.joint].target - step.min <= 0.00005
    && ticks[t].rows[step.joint].target - step.min > 0.00005
  }

  /** First departure in [from, hi). */
  method FirstDeparture(ticks: seq<Tick>, step: Step, from: nat, hi: nat) returns (at: Option<nat>)
    requires step.Wave? && 0 < from && hi <= |ticks|
    ensures at.None? ==> forall t | from <= t < hi :: !Leaves(ticks, step, t)
    ensures at.Some? ==> from <= at.value < hi && Leaves(ticks, step, at.value)
                         && forall t | from <= t < at.value :: !Leaves(ticks, step, t)
  {
    var t := from;
    while t < hi
      invariant from <= t && forall i | from <= i < t && i < hi :: !Leaves(ticks, step, i)
    {
      if Departs(ticks, step, t) {
        return Some(t);
      }
      t := t + 1;
    }
    return None;
  }

  /** Two half periods per cycle, rounded to whole milliseconds; never negative. */
  function NominalMs(step: Step): nat
    requires step.Wave?
  {
    var ms := step.cycles as real * 2.0 * step.halfPeriod * 1000.0;
    if ms < 0.0 then 0 else (ms + 0.5).Floor
  }

  /** `ms` is the whole number of milliseconds nearest to the wave's duration, or 0 when that is negative. */
  ghost predicate IsNominal(step: Step, ms: nat)
    requires step.Wave?
  {
    var seconds := step.cycles as real * (step.halfPeriod + step.halfPeriod);
    && seconds * 1000.0 < ms as real + 0.5
    && (ms > 0 ==> ms as real - 0.5 <= seconds * 1000.0)
  }

  lemma {:induction false} NominalIsNearest(step: Step)
    requires step.Wave?
    ensures IsNominal(step, NominalMs(step))
  {
    var ms := step.cycles as real * 2.0 * step.halfPeriod * 1000.0;
    assert ms == step.cycles as real * (step.halfPeriod + step.halfPeriod) * 1000.0;
  }

  /** First tick in [from, hi) later than `untilMs`, or hi. */
  method FirstAfter(ticks: seq<Tick>, untilMs: nat, from: nat, hi: nat) returns (end: nat)
    requires from <= hi <= |ticks|
    ensures from <= end <= hi
    ensures forall t | from <= t < end :: ticks[t].tMs <= untilMs
    ensures end < hi ==> ticks[end].tMs > untilMs
  {
    end := from;
    while end < hi && ticks[end].tMs <= untilMs
      invariant from <= end <= hi && forall t | from <= t < end :: ticks[t].tMs <= untilMs
    {
      end := end + 1;
    }
  }

  /** Where the search for wave `m` begins: at the end of the share before, or at the first tick of the gap with one before it. */
  ghost function SearchFrom(segs: seq<Seg>, m: nat, lo: nat): nat
    requires m <= |segs|
  {
    if m > 0 then segs[m - 1].end else if lo == 0 then 1 else lo
  }

  /** From tick `start` for one nominal duration: to the first tick of the gap later than that, or to `hi`. */
  ghost predicate LastsNominally(ticks: seq<Tick>, step: Step, start: nat, end: nat, hi: nat)
    requires step.Wave?
  {
    exists ms: nat :: IsNominal(step, ms) && LastsMs(ticks, start, end, hi, ms)
  }

  ghost predicate LastsMs(ticks: seq<Tick>, start: nat, end: nat, hi: nat, ms: nat) {
    && start < end <= hi <= |ticks|
    && (forall t | start <= t < end :: ticks[t].tMs - ticks[start].tMs <= ms)
    && (end < hi ==> ticks[end].tMs - ticks[start].tMs > ms)
  }

  /** Share `m` starts where its wave's reference first leaves its minimum after the share before, and lasts its nominal duration. */
  ghost predicate ByDeparture(steps: seq<Step>, ticks: seq<Tick>, ks: seq<nat>, lo: nat, hi: nat, segs: seq<Seg>, m: nat)
    requires AreWaves(steps, ks)
  {
    && m < |segs| <= |ks|
    && var step, seg := steps[ks[m]], segs[m];
       && seg.planIndex == ks[m]
       && SearchFrom(segs, m, lo) <= seg.start && Leaves(ticks, step, seg.start)
       && (forall t | SearchFrom(segs, m, lo) <= t < seg.start :: !Leaves(ticks, step, t))
       && LastsNominally(ticks, step, seg.start, seg.end, hi)
  }

  ghost predicate AllByDeparture(steps: seq<Step>, ticks: seq<Tick>, ks: seq<nat>, lo: nat, hi: nat, segs: seq<Seg>)
    requires AreWaves(steps, ks)
  {
    |segs| <= |ks| && forall m: nat | m < |segs| :: ByDeparture(steps, ticks, ks, lo, hi, segs, m)
  }

  /** After the shares `segs` the next wave of the group has no departure left in the gap. */
  ghost predicate StuckAfter(steps: seq<Step>, ticks: seq<Tick>, ks: seq<nat>, lo: nat, hi: nat, segs: seq<Seg>)
    requires AreWaves(steps, ks)
  {
    && AllByDeparture(steps, ticks, ks, lo, hi, segs) && |segs| < |ks|
    && forall t | SearchFrom(segs, |segs|, lo) <= t < hi :: !Leaves(ticks, steps[ks[|segs|]], t)
  }

  predicate AreWaves(steps: seq<Step>, ks: seq<nat>) {
    forall m | 0 <= m < |ks| :: ks[m] < |steps| && steps[ks[m]].Wave?
  }

  /** One entry per wave of the group, in order, inside the gap, none overlapping. */
  ghost predicate Split(ks: seq<nat>, lo: nat, hi: nat, out: seq<Seg>) {
    && |out| <= |ks|
    && (forall m | 0 <= m < |out| :: out[m].planIndex == ks[m] && lo <= out[m].start <= out[m].end <= hi)
    && forall m, p | 0 <= m < p < |out| :: out[m].end <= out[p].start
  }

  lemma {:induction false} MulMonotone(x: int, y: int, n: nat)
    requires x <= y
    ensures x * n <= y * n
  {
    assert y * n == x * n + (y - x) * n;
  }

  lemma {:induction false} DivMonotone(x: nat, y: nat, n: nat)
    requires x <= y && n > 0
    ensures 0 <= x / n <= y / n
  {
    var a, b := x / n, y / n;
    assert a * n <= x && y < (b + 1) * n;
    if a > b {
      MulMonotone(b + 1, a, n);
      assert false;
    }
  }

  /** The m-th of the n+1 points that split a span evenly. */
  function EvenPoint(span: nat, m: nat, n: nat): (p: nat)
    requires m <= n && n > 0
    ensures p <= span
  {
    var p := m * span / n;
    assert p <= span by {
      MulMonotone(m, n, span);
      if p > span {
        MulMonotone(span + 1, p, n);
      }
    }
    p
  }

  lemma {:induction false} EvenPointsRise(span: nat, m: nat, n: nat)
    requires m < n
    ensures EvenPoint(span, m, n) <= EvenPoint(span, m + 1, n)
  {
    MulMonotone(m, m + 1, span);
    DivMonotone(m * span, (m + 1) * span, n);
  }

  function EvenShare(ks: seq<nat>, lo: nat, hi: nat, m: nat): Seg
    requires lo <= hi && m < |ks|
  {
    Seg(ks[m], lo + EvenPoint(hi - lo, m, |ks|), lo + EvenPoint(hi - lo, m + 1, |ks|))
  }

  /** `p` of the `span` ticks are the whole ticks in `m` of `n` equal parts. */
  ghost predicate WholeTicks(span: nat, m: nat, n: nat, p: int) {
    p * n <= m * span < (p + 1) * n
  }

  /** The gap in equal parts, one per wave, cut at whole ticks. */
  ghost predicate Evenly(ks: seq<nat>, lo: nat, hi: nat, out: seq<Seg>) {
    && lo <= hi && |out| == |ks|
    && forall m: nat | m < |out| :: EvenPart(ks, lo, hi, out, m)
  }

  ghost predicate EvenPart(ks: seq<nat>, lo: nat, hi: nat, out: seq<Seg>, m: nat)
    requires lo <= hi && |out| <= |ks|
  {
    && m < |out| && out[m].planIndex == ks[m]
    && WholeTicks(hi - lo, m, |ks|, out[m].start - lo) && WholeTicks(hi - lo, m + 1, |ks|, out[m].end - lo)
  }

  method EvenSplit(ks: seq<nat>, lo: nat, hi: nat) returns (out: seq<Seg>)
    requires lo <= hi
    ensures Split(ks, lo, hi, out) && Evenly(ks, lo, hi, out)
  {
    out := [];
    var n := |ks|;
    for m := 0 to n
      invariant |out| == m && Split(ks, lo, hi, out)
      invariant forall i: nat | i < m :: out[i] == EvenShare(ks, lo, hi, i)
    {
      EvenPointsRise(hi - lo, m, n);
      var seg := EvenShare(ks, lo, hi, m);
      assert m > 0 ==> out[m - 1] == EvenShare(ks, lo, hi, m - 1);
      SplitGrows(ks, lo, hi, out, seg);
      out := out + [seg];
    }
    forall i: nat | i < n ensures EvenPart(ks, lo, hi, out, i) {
      PointIsWhole(hi - lo, i, n);
      PointIsWhole(hi - lo, i + 1, n);
    }
  }

  lemma {:induction false} PointIsWhole(span: nat, m: nat, n: nat)
    requires m <= n && n > 0
    ensures WholeTicks(span, m, n, EvenPoint(span, m, n))
  {
    var x := m * span;
    assert x == x / n * n + x % n;
  }

  lemma {:induction false} SplitGrows(ks: seq<nat>, lo: nat, hi: nat, out: seq<Seg>, seg: Seg)
    requires Split(ks, lo, hi, out) && |out| < |ks| && seg.planIndex == ks[|out|]
    requires lo <= seg.start <= seg.end <= hi && (out != [] ==> out[|out| - 1].end <= seg.start)
    ensures Split(ks, lo, hi, out + [seg])
  {
    forall m, p | 0 <= m < p < |out| + 1 ensures (out + [seg])[m].end <= (out + [seg])[p].start {
      if p == |out| && m < |out| - 1 {
        assert out[m].end <= out[|out| - 1].start <= out[|out| - 1].end;
      }
    }
  }

  /** Shares by departure lie in the gap, in order. */
  lemma {:induction false} DeparturesSplit(steps: seq<Step>, ticks: seq<Tick>, ks: seq<nat>, lo: nat, hi: nat, segs: seq<Seg>)
    requires AreWaves(steps, ks) && AllByDeparture(steps, ticks, ks, lo, hi, segs)
    ensures Split(ks, lo, hi, segs)
  {
    if segs != [] {
      var m := |segs| - 1;
      var before := segs[..m];
      DeparturesStay(steps, ticks, ks, lo, hi, segs, m);
      DeparturesSplit(steps, ticks, ks, lo, hi, before);
      assert ByDeparture(steps, ticks, ks, lo, hi, segs, m) && segs == before + [segs[m]];
      SplitGrows(ks, lo, hi, before, segs[m]);
    }
  }

  /** The first shares do not depend on the later ones. */
  lemma {:induction false} DeparturesStay(steps: seq<Step>, ticks: seq<Tick>, ks: seq<nat>, lo: nat, hi: nat, segs: seq<Seg>, k: nat)
    requires AreWaves(steps, ks) && AllByDeparture(steps, ticks, ks, lo, hi, segs) && k <= |segs|
    ensures AllByDeparture(steps, ticks, ks, lo, hi, segs[..k])
  {
    forall m: nat | m < k ensures ByDeparture(steps, ticks, ks, lo, hi, segs[..k], m) {
      assert ByDeparture(steps, ticks, ks, lo, hi, segs, m);
      assert SearchFrom(segs[..k], m, lo) == SearchFrom(segs, m, lo);
    }
  }

  lemma {:induction false} DepartureAdded(steps: seq<Step>, ticks: seq<Tick>, ks: seq<nat>, lo: nat, hi: nat, segs: seq<Seg>, seg: Seg)
    requires AreWaves(steps, ks) && AllByDeparture(steps, ticks, ks, lo, hi, segs) && |segs| < |ks|
    requires ByDeparture(steps, ticks, ks, lo, hi, segs + [seg], |segs|)
    ensures AllByDeparture(steps, ticks, ks, lo, hi, segs + [seg])
  {
    var more := segs + [seg];
    forall m: nat | m < |more| ensures ByDeparture(steps, ticks, ks, lo, hi, more, m) {
      if m < |segs| {
        assert ByDeparture(steps, ticks, ks, lo, hi, segs, m);
        assert SearchFrom(more, m, lo) == SearchFrom(segs, m, lo);
      }
    }
  }

  /** There is one way to share by departure, as far as it goes. */
  lemma {:induction false} DeparturesAgree(steps: seq<Step>, ticks: seq<Tick>, ks: seq<nat>, lo: nat, hi: nat, a: seq<Seg>, b: seq<Seg>, k: nat)
    requires AreWaves(steps, ks) && k <= |a| && k <= |b|
    requires AllByDeparture(steps, ticks, ks, lo, hi, a) && AllByDeparture(steps, ticks, ks, lo, hi, b)
    ensures a[..k] == b[..k]
  {
    if k > 0 {
      var m := k - 1;
      DeparturesAgree(steps, ticks, ks, lo, hi, a, b, m);
      assert SearchFrom(a, m, lo) == SearchFrom(b, m, lo) by {
        assert m > 0 ==> a[m - 1] == a[..m][m - 1] == b[..m][m - 1] == b[m - 1];
      }
      assert ByDeparture(steps, ticks, ks, lo, hi, a, m) && ByDeparture(steps, ticks, ks, lo, hi, b, m);
      SameStart(ticks, steps[ks[m]], SearchFrom(a, m, lo), a[m].start, b[m].start);
      SameEnd(ticks, steps[ks[m]], a[m].start, a[m].end, b[m].end, hi);
      assert a[..k] == a[..m] + [a[m]] && b[..k] == b[..m] + [b[m]];
    }
  }

  lemma {:induction false} SameStart(ticks: seq<Tick>, step: Step, from: nat, s: nat, t: nat)
    requires step.Wave? && from <= s && from <= t && Leaves(ticks, step, s) && Leaves(ticks, step, t)
    requires forall i | from <= i < s :: !Leaves(ticks, step, i)
    requires forall i | from <= i < t :: !Leaves(ticks, step, i)
    ensures s == t
  {
  }

  lemma {:induction false} SameEnd(ticks: seq<Tick>, step: Step, start: nat, e: nat, f: nat, hi: nat)
    requires step.Wave? && LastsNominally(ticks, step, start, e, hi) && LastsNominally(ticks, step, start, f, hi)
    ensures e == f
  {
    var x: nat :| IsNominal(step, x) && LastsMs(ticks, start, e, hi, x);
    var y: nat :| IsNominal(step, y) && LastsMs(ticks, start, f, hi, y);
    assert x == y;
  }

  /** The departure search, wave by wave. */
  method SplitByDeparture(steps: seq<Step>, ticks: seq<Tick>, ks: seq<nat>, lo: nat, hi: nat)
    returns (out: Option<seq<Seg>>, ghost stuck: seq<Seg>)
    requires lo < hi <= |ticks| && AreWaves(steps, ks)
    ensures out.Some? ==> AllByDeparture(steps, ticks, ks, lo, hi, out.value) && |out.value| == |ks|
    ensures out.None? ==> StuckAfter(steps, ticks, ks, lo, hi, stuck)
  {
    var segs: seq<Seg> := [];
    var cursor := if lo < 1 then 1 else lo;
    for m := 0 to |ks|
      invariant |segs| == m && AllByDeparture(steps, ticks, ks, lo, hi, segs)
      invariant 0 < cursor == SearchFrom(segs, m, lo)
    {
      var step := steps[ks[m]];
      var start := FirstDeparture(ticks, step, cursor, hi);
      if start.None? {
        return None, segs;
      }
      NominalIsNearest(step);
      var end := FirstAfter(ticks, ticks[start.value].tMs + NominalMs(step), start.value, hi);
      var seg := Seg(ks[m], start.value, end);
      assert LastsMs(ticks, seg.start, seg.end, hi, NominalMs(step));
      assert SearchFrom(segs + [seg], m, lo) == cursor;
      DepartureAdded(steps, ticks, ks, lo, hi, segs, seg);
      segs := segs + [seg];
      cursor := end;   // past the start tick, which is no later than the end of its own duration
    }
    return Some(segs), segs;
  }

  /**
    The shares of the consecutive waves `ks` in the gap [lo, hi): by departure,
    unless some wave has no departure left after the shares before it; then evenly.
   */
  ghost predicate IsShared(steps: seq<Step>, ticks: seq<Tick>, ks: seq<nat>, lo: nat, hi: nat, out: seq<Seg>)
    requires AreWaves(steps, ks)
  {
    && |out| == |ks|
    && if exists segs :: StuckAfter(steps, ticks, ks, lo, hi, segs) then Evenly(ks, lo, hi, out)
       else AllByDeparture(steps, ticks, ks, lo, hi, out)
  }

  /** When every wave of the group departs, so does the one after any of its first shares. */
  lemma {:induction false} NextDeparts(steps: seq<Step>, ticks: seq<Tick>, ks: seq<nat>, lo: nat, hi: nat, out: seq<Seg>, segs: seq<Seg>)
    requires AreWaves(steps, ks) && AllByDeparture(steps, ticks, ks, lo, hi, out) && |out| == |ks|
    requires AllByDeparture(steps, ticks, ks, lo, hi, segs) && |segs| < |ks|
    ensures exists t :: SearchFrom(segs, |segs|, lo) <= t < hi && Leaves(ticks, steps[ks[|segs|]], t)
  {
    var m := |segs|;
    DeparturesAgree(steps, ticks, ks, lo, hi, out, segs, m);
    assert SearchFrom(out, m, lo) == SearchFrom(segs, m, lo) by {
      assert m > 0 ==> out[m - 1] == out[..m][m - 1] == segs[..m][m - 1] == segs[m - 1];
    }
    assert ByDeparture(steps, ticks, ks, lo, hi, out, m);
    assert SearchFrom(segs, m, lo) <= out[m].start < hi && Leaves(ticks, steps[ks[m]], out[m].start);
  }

  /** The shares are determined by the plan and the trace. */
  lemma {:induction false} SharesAreUnique(steps: seq<Step>, ticks: seq<Tick>, ks: seq<nat>, lo: nat, hi: nat, a: seq<Seg>, b: seq<Seg>)
    requires AreWaves(steps, ks)
    requires IsShared(steps, ticks, ks, lo, hi, a) && IsShared(steps, ticks, ks, lo, hi, b)
    ensures a == b
  {
    if exists segs :: StuckAfter(steps, ticks, ks, lo, hi, segs) {
      forall m: nat | m < |a| ensures a[m] == b[m] {
        assert EvenPart(ks, lo, hi, a, m) && EvenPart(ks, lo, hi, b, m);
        OneWhole(hi - lo, m, |ks|, a[m].start - lo, b[m].start - lo);
        OneWhole(hi - lo, m + 1, |ks|, a[m].end - lo, b[m].end - lo);
      }
    } else {
      DeparturesAgree(steps, ticks, ks, lo, hi, a, b, |a|);
      assert a == a[..|a|] && b == b[..|a|];
    }
  }

  lemma {:induction false} OneWhole(span: nat, m: nat, n: nat, p: int, q: int)
    requires WholeTicks(span, m, n, p) && WholeTicks(span, m, n, q)
    ensures p == q
  {
    if p < q {
      MulMonotone(p + 1, q, n);
    } else if q < p {
      MulMonotone(q + 1, p, n);
    }
  }

  method SplitWaves(steps: seq<Step>, ticks: seq<Tick>, ks: seq<nat>, lo: nat, hi: nat) returns (out: seq<Seg>)
    requires lo < hi <= |ticks| && AreWaves(steps, ks)
    ensures IsShared(steps, ticks, ks, lo, hi, out) && Split(ks, lo, hi, out)
  {
    var segs, stuck := SplitByDeparture(steps, ticks, ks, lo, hi);
    if segs.Some? {
      DeparturesSplit(steps, ticks, ks, lo, hi, segs.value);
      forall other ensures !StuckAfter(steps, ticks, ks, lo, hi, other) {
        if AllByDeparture(steps, ticks, ks, lo, hi, other) && |other| < |ks| {
          NextDeparts(steps, ticks, ks, lo, hi, segs.value, other);
        }
      }
      return segs.value;
    }
    out := EvenSplit(ks, lo, hi);
  }

  // ----- The whole plan

  predicate Listed(ks: seq<nat>, k: nat) {
    exists i :: 0 <= i < |ks| && ks[i] == k
  }

  /** Exactly the wave steps before plan index `k`, in order. */
  ghost predicate WavesBelow(steps: seq<Step>, ks: seq<nat>, k: nat) {
    && AreWaves(steps, ks) && (forall i | 0 <= i < |ks| :: ks[i] < k)
    && (forall i, j | 0 <= i < j < |ks| :: ks[i] < ks[j])
    && forall j: nat | j < k && j < |steps| && steps[j].Wave? :: Listed(ks, j)
  }

  ghost predicate EachWaveOnce(steps: seq<Step>, ks: seq<nat>, k: nat) {
    forall i: nat :: Occurrences(ks, i) == if i < k && i < |steps| && steps[i].Wave? then 1 else 0
  }

  lemma {:induction false} WaveListed(steps: seq<Step>, ks: seq<nat>, k: nat)
    requires WavesBelow(steps, ks, k) && EachWaveOnce(steps, ks, k) && k < |steps| && steps[k].Wave?
    ensures WavesBelow(steps, ks + [k], k + 1) && EachWaveOnce(steps, ks + [k], k + 1)
  {
    OccurrencesGrow(ks, k);
    var more := ks + [k];
    forall j: nat | j < k + 1 && steps[j].Wave? ensures Listed(more, j) {
      if j == k {
        assert more[|ks|] == k;
      } else {
        var i :| 0 <= i < |ks| && ks[i] == j;
        assert more[i] == j;
      }
    }
  }

  /** Plan indices of the wave steps, in order. */
  method WaveIndices(steps: seq<Step>) returns (ks: seq<nat>)
    ensures WavesBelow(steps, ks, |steps|) && EachWaveOnce(steps, ks, |steps|)
  {
    ks := [];
    for k := 0 to |steps|
      invariant WavesBelow(steps, ks, k) && EachWaveOnce(steps, ks, k)
    {
      if steps[k].Wave? {
        WaveListed(steps, ks, k);
        ks := ks + [k];
      }
    }
  }

  /** A wave segment is not empty and lies in the gap around its plan index. */
  ghost predicate InGap(holds: seq<Seg>, n: nat, w: Seg) {
    GapStart(holds, w.planIndex) <= w.start < w.end <= GapEnd(holds, w.planIndex, n)
  }

  ghost predicate WavesLaid(holds: seq<Seg>, n: nat, waves: seq<Seg>) {
    && (forall i | 0 <= i < |waves| :: InGap(holds, n, waves[i]))
    && forall i, j | 0 <= i < j < |waves| :: waves[i].planIndex < waves[j].planIndex && waves[i].end <= waves[j].start
  }

  /** Every segment of the session, holds and waves alike, lies before every segment of a later plan step. */
  ghost predicate InPlanOrder(holds: seq<Seg>, waves: seq<Seg>) {
    forall x, y | x in holds + waves && y in holds + waves && x.planIndex < y.planIndex :: x.end <= y.start
  }

  lemma {:induction false} LaidInPlanOrder(holds: seq<Seg>, waves: seq<Seg>, n: nat)
    requires Laid(holds, n) && WavesLaid(holds, n, waves)
    ensures InPlanOrder(holds, waves)
  {
    forall x, y | x in holds + waves && y in holds + waves && x.planIndex < y.planIndex ensures x.end <= y.start {
      if x in holds && y in holds {
        assert x.end <= y.start;
      } else if x in holds {
        assert InGap(holds, n, y);
        GapIsClear(holds, y.planIndex, n);
      } else if y in holds {
        assert InGap(holds, n, x);
        GapIsClear(holds, x.planIndex, n);
      }
    }
  }

  /** Two waves in different gaps have a whole hold between them. */
  lemma {:induction false} GapsAreApart(holds: seq<Seg>, n: nat, k: nat, l: nat)
    requires Laid(holds, n) && k < l
    requires (GapStart(holds, k), GapEnd(holds, k, n)) != (GapStart(holds, l), GapEnd(holds, l, n))
    requires forall i | 0 <= i < |holds| :: holds[i].planIndex != k && holds[i].planIndex != l
    ensures GapEnd(holds, k, n) <= GapStart(holds, l)
  {
    if exists i :: 0 <= i < |holds| && k < holds[i].planIndex < l {
      var i :| 0 <= i < |holds| && k < holds[i].planIndex < l;
      GapIsClear(holds, k, n);
      GapIsClear(holds, l, n);
      assert holds[i] in holds;
    } else {
      SameGap(holds, n, k, l);
      assert false;
    }
  }

  lemma {:induction false} SameGap(holds: seq<Seg>, n: nat, k: nat, l: nat)
    requires k < l && forall i | 0 <= i < |holds| :: !(k <= holds[i].planIndex <= l)
    ensures GapStart(holds, k) == GapStart(holds, l) && GapEnd(holds, k, n) == GapEnd(holds, l, n)
  {
    if holds != [] {
      SameGap(holds[..|holds| - 1], n, k, l);
    }
  }

  /** Waves placed so far stay clear of a later gap. */
  ghost predicate ClearOf(waves: seq<Seg>, k: nat, lo: nat) {
    forall w | w in waves :: w.planIndex < k && w.end <= lo
  }

  lemma {:induction false} WavesLaidGrow(holds: seq<Seg>, n: nat, waves: seq<Seg>, w: Seg)
    requires WavesLaid(holds, n, waves) && InGap(holds, n, w) && ClearOf(waves, w.planIndex, w.start)
    ensures WavesLaid(holds, n, waves + [w])
  {
    assert forall i | 0 <= i < |waves| :: waves[i] in waves;
  }

  /** A share is a wave segment, or a skipped wave when it has no tick. */
  predicate Recorded(waves: seq<Seg>, skipped: seq<Skip>, share: Seg) {
    if share.start < share.end then share in waves else Skip(share.planIndex, EmptyRange) in skipped
  }

  /** The shares of a group of waves: in order, each in the gap around its plan index, clear of the waves before. */
  ghost predicate Fits(holds: seq<Seg>, n: nat, out: seq<Seg>, waves: seq<Seg>) {
    && (forall i, j | 0 <= i < j < |out| :: out[i].planIndex < out[j].planIndex && out[i].end <= out[j].start)
    && forall i | 0 <= i < |out| ::
         && GapStart(holds, out[i].planIndex) <= out[i].start <= out[i].end <= GapEnd(holds, out[i].planIndex, n)
         && ClearOf(waves, out[i].planIndex, out[i].start)
  }

  /** What is known once the first `i` shares are recorded. */
  ghost predicate RecordedTo(holds: seq<Seg>, n: nat, out: seq<Seg>, waves: seq<Seg>, skipped: seq<Skip>,
                             waves': seq<Seg>, skipped': seq<Skip>, i: nat)
    requires i <= |out|
  {
    && WavesLaid(holds, n, waves')
    && (forall w | w in waves' :: w in waves || w in out[..i])
    && (forall j | 0 <= j < i :: Recorded(waves', skipped', out[j]))
    && (forall w | w in waves :: w in waves') && (forall s | s in skipped :: s in skipped')
    && (forall s | s in skipped' :: s in skipped || s.reason == EmptyRange)
    && forall k: nat ::
         Placements(waves', skipped', k) == Placements(waves, skipped, k) + Occurrences(SegIndices(out[..i]), k)
  }

  lemma {:induction false} WaveRecorded(holds: seq<Seg>, n: nat, out: seq<Seg>, waves: seq<Seg>, skipped: seq<Skip>,
                     waves': seq<Seg>, skipped': seq<Skip>, i: nat)
    requires i < |out| && Fits(holds, n, out, waves) && out[i].start < out[i].end
    requires RecordedTo(holds, n, out, waves, skipped, waves', skipped', i)
    ensures RecordedTo(holds, n, out, waves, skipped, waves' + [out[i]], skipped', i + 1)
  {
    var w := out[i];
    assert out[..i + 1] == out[..i] + [w];
    assert SegIndices(out[..i + 1]) == SegIndices(out[..i]) + [w.planIndex];
    OccurrencesGrow(SegIndices(out[..i]), w.planIndex);
    PlaceSeg(waves', skipped', w);
    assert ClearOf(out[..i], w.planIndex, w.start);
    WavesLaidGrow(holds, n, waves', w);
  }

  lemma {:induction false} EmptyRecorded(holds: seq<Seg>, n: nat, out: seq<Seg>, waves: seq<Seg>, skipped: seq<Skip>,
                      waves': seq<Seg>, skipped': seq<Skip>, i: nat)
    requires i < |out| && out[i].start >= out[i].end
    requires RecordedTo(holds, n, out, waves, skipped, waves', skipped', i)
    ensures RecordedTo(holds, n, out, waves, skipped, waves', skipped' + [Skip(out[i].planIndex, EmptyRange)], i + 1)
  {
    var w := out[i];
    assert out[..i + 1] == out[..i] + [w];
    assert SegIndices(out[..i + 1]) == SegIndices(out[..i]) + [w.planIndex];
    OccurrencesGrow(SegIndices(out[..i]), w.planIndex);
    PlaceSkip(waves', skipped', Skip(w.planIndex, EmptyRange));
  }

  /** Place or skip the waves of one group that share a gap. */
  method PlaceGroup(holds: seq<Seg>, n: nat, out: seq<Seg>, waves: seq<Seg>, skipped: seq<Skip>)
    returns (waves': seq<Seg>, skipped': seq<Skip>)
    requires WavesLaid(holds, n, waves) && Fits(holds, n, out, waves)
    ensures RecordedTo(holds, n, out, waves, skipped, waves', skipped', |out|)
  {
    waves', skipped' := waves, skipped;
    for i := 0 to |out|
      invariant RecordedTo(holds, n, out, waves, skipped, waves', skipped', i)
    {
      var w := out[i];
      if w.end > w.start {
        WaveRecorded(holds, n, out, waves, skipped, waves', skipped', i);
        waves' := waves' + [w];
      } else {
        EmptyRecorded(holds, n, out, waves, skipped, waves', skipped', i);
        skipped' := skipped' + [Skip(w.planIndex, EmptyRange)];
      }
    }
  }

  lemma {:induction false} OccurrencesAppend(xs: seq<nat>, ys: seq<nat>, k: nat)
    ensures Occurrences(xs + ys, k) == Occurrences(xs, k) + Occurrences(ys, k)
  {
    if ys == [] {
      assert xs + ys == xs;
    } else {
      assert (xs + ys)[..|xs + ys| - 1] == xs + ys[..|ys| - 1];
      OccurrencesAppend(xs, ys[..|ys| - 1], k);
    }
  }

  lemma {:induction false} GapStartRises(holds: seq<Seg>, k: nat, l: nat)
    requires k <= l
    ensures GapStart(holds, k) <= GapStart(holds, l)
  {
    if holds != [] {
      GapStartRises(holds[..|holds| - 1], k, l);
    }
  }

  /** Skip every wave of a gap without ticks. */
  method SkipGroup(group: seq<nat>, waves: seq<Seg>, skipped: seq<Skip>) returns (skipped': seq<Skip>)
    ensures forall s | s in skipped' :: s in skipped || (s.reason == NoTicksBetween && s.index in group)
    ensures (forall s | s in skipped :: s in skipped') && forall k | k in group :: Skip(k, NoTicksBetween) in skipped'
    ensures forall k: nat :: Placements(waves, skipped', k) == Placements(waves, skipped, k) + Occurrences(group, k)
  {
    skipped' := skipped;
    for i := 0 to |group|
      invariant forall s | s in skipped' :: s in skipped || (s.reason == NoTicksBetween && s.index in group)
      invariant (forall s | s in skipped :: s in skipped') && forall j | 0 <= j < i :: Skip(group[j], NoTicksBetween) in skipped'
      invariant forall k: nat :: Placements(waves, skipped', k) == Placements(waves, skipped, k) + Occurrences(group[..i], k)
    {
      assert group[..i + 1] == group[..i] + [group[i]];
      OccurrencesGrow(group[..i], group[i]);
      PlaceSkip(waves, skipped', Skip(group[i], NoTicksBetween));
      skipped' := skipped' + [Skip(group[i], NoTicksBetween)];
    }
    assert group[..|group|] == group;
  }

  predicate SharesGap(holds: seq<Seg>, n: nat, k: nat, l: nat) {
    GapStart(holds, k) == GapStart(holds, l) && GapEnd(holds, k, n) == GapEnd(holds, l, n)
  }

  /** The wave steps that share the gap of wave step `k`, in plan order. */
  ghost predicate IsGroup(steps: seq<Step>, holds: seq<Seg>, n: nat, group: seq<nat>, k: nat) {
    && (forall i, j | 0 <= i < j < |group| :: group[i] < group[j])
    && forall j: nat :: j in group <==> j < |steps| && steps[j].Wave? && SharesGap(holds, n, k, j)
  }

  /** Wave `m` of a group that shares a gap has exactly its share of that gap, if the gap has ticks at all. */
  ghost predicate HasShare(steps: seq<Step>, ticks: seq<Tick>, holds: seq<Seg>, waves: seq<Seg>, skipped: seq<Skip>,
                           group: seq<nat>, out: seq<Seg>, m: nat) {
    && m < |group| && AreWaves(steps, group) && IsGroup(steps, holds, |ticks|, group, group[m])
    && var lo, hi := GapStart(holds, group[m]), GapEnd(holds, group[m], |ticks|);
       if hi <= lo then Skip(group[m], NoTicksBetween) in skipped
       else IsShared(steps, ticks, group, lo, hi, out) && out[m].planIndex == group[m] && Recorded(waves, skipped, out[m])
  }

  ghost predicate WavePlaced(steps: seq<Step>, ticks: seq<Tick>, holds: seq<Seg>, waves: seq<Seg>, skipped: seq<Skip>, k: nat) {
    exists group, out, m :: HasShare(steps, ticks, holds, waves, skipped, group, out, m) && group[m] == k
  }

  lemma {:induction false} PlacedStays(steps: seq<Step>, ticks: seq<Tick>, holds: seq<Seg>, waves: seq<Seg>, skipped: seq<Skip>,
                    waves': seq<Seg>, skipped': seq<Skip>, k: nat)
    requires WavePlaced(steps, ticks, holds, waves, skipped, k)
    requires (forall w | w in waves :: w in waves') && forall s | s in skipped :: s in skipped'
    ensures WavePlaced(steps, ticks, holds, waves', skipped', k)
  {
    var group, out, m :| HasShare(steps, ticks, holds, waves, skipped, group, out, m) && group[m] == k;
    assert HasShare(steps, ticks, holds, waves', skipped', group, out, m);
  }

  lemma {:induction false} GapEndRises(holds: seq<Seg>, k: nat, l: nat, n: nat)
    requires k <= l
    ensures GapEnd(holds, k, n) <= GapEnd(holds, l, n)
  {
    if holds != [] {
      GapEndRises(holds[..|holds| - 1], k, l, n);
    }
  }

  lemma {:induction false} BetweenSharers(holds: seq<Seg>, n: nat, k: nat, l: nat, m: nat)
    requires k <= l <= m && SharesGap(holds, n, k, m)
    ensures SharesGap(holds, n, k, l) && SharesGap(holds, n, l, m)
  {
    GapStartRises(holds, k, l);
    GapStartRises(holds, l, m);
    GapEndRises(holds, k, l, n);
    GapEndRises(holds, l, m, n);
  }

  lemma {:induction false} SharerIsInRun(holds: seq<Seg>, n: nat, ks: seq<nat>, g: nat, h: nat, i: nat)
    requires RunOfSharers(holds, n, ks, g, h) && i < |ks| && SharesGap(holds, n, ks[g], ks[i])
    requires forall i, j | 0 <= i < j < |ks| :: ks[i] < ks[j]
    ensures g <= i < h
  {
    if i < g {
      assert ks[i] <= ks[g - 1] < ks[g];
      BetweenSharers(holds, n, ks[i], ks[g - 1], ks[g]);
    } else if i >= h {
      assert ks[g] < ks[h] <= ks[i];
      BetweenSharers(holds, n, ks[g], ks[h], ks[i]);
    }
  }

  /** Neighbouring wave steps with a gap change on both sides are all that share a gap. */
  lemma {:induction false} RunIsGroup(steps: seq<Step>, holds: seq<Seg>, n: nat, ks: seq<nat>, g: nat, h: nat, k: nat)
    requires WavesBelow(steps, ks, |steps|)
    requires RunOfSharers(holds, n, ks, g, h) && k in ks[g..h]
    ensures IsGroup(steps, holds, n, ks[g..h], k)
  {
    RunFacts(steps, holds, n, ks, g, h);
    forall j: nat | j < |steps| && steps[j].Wave? && SharesGap(holds, n, k, j) ensures j in ks[g..h] {
      assert Listed(ks, j);
      var i :| 0 <= i < |ks| && ks[i] == j;
      SharerIsInRun(holds, n, ks, g, h, i);
      assert ks[g..h][i - g] == j;
    }
  }

  lemma {:induction false} RunFacts(steps: seq<Step>, holds: seq<Seg>, n: nat, ks: seq<nat>, g: nat, h: nat)
    requires WavesBelow(steps, ks, |steps|) && RunOfSharers(holds, n, ks, g, h)
    ensures AreWaves(steps, ks[g..h]) && forall i, j | 0 <= i < j < h - g :: ks[g..h][i] < ks[g..h][j]
    ensures forall i | 0 <= i < h - g :: ks[g] <= ks[g..h][i] && SharesGap(holds, n, ks[g], ks[g..h][i])
  {
  }

  /** Where the waves of the first `g` wave steps ended up. */
  ghost predicate WavesTo(holds: seq<Seg>, n: nat, ks: seq<nat>, waves: seq<Seg>, skipped: seq<Skip>, g: nat)
    requires g <= |ks|
  {
    && WavesLaid(holds, n, waves)
    && (forall k: nat :: Placements(waves, skipped, k) == Occurrences(ks[..g], k))
    && (g < |ks| ==> ClearOf(waves, ks[g], GapStart(holds, ks[g])))
    && forall s | s in skipped :: s.reason == EmptyRange
         || (s.reason == NoTicksBetween && GapEnd(holds, s.index, n) <= GapStart(holds, s.index))
  }

  /** The first `g` wave steps have their shares, and a gap ends there. */
  ghost predicate SharedTo(steps: seq<Step>, ticks: seq<Tick>, holds: seq<Seg>, ks: seq<nat>,
                           waves: seq<Seg>, skipped: seq<Skip>, g: nat)
    requires g <= |ks|
  {
    && (forall i | 0 <= i < g :: WavePlaced(steps, ticks, holds, waves, skipped, ks[i]))
    && (0 < g < |ks| ==> !SharesGap(holds, |ticks|, ks[g - 1], ks[g]))
  }

  /** Wave steps `g` to `h` share a gap with each other and with no other. */
  ghost predicate RunOfSharers(holds: seq<Seg>, n: nat, ks: seq<nat>, g: nat, h: nat) {
    && g < h <= |ks|
    && (forall i | g <= i < h :: SharesGap(holds, n, ks[g], ks[i]))
    && (g > 0 ==> !SharesGap(holds, n, ks[g - 1], ks[g]))
    && (h < |ks| ==> !SharesGap(holds, n, ks[g], ks[h]))
  }

  /** The shares of wave steps `g` to `h` are recorded. */
  ghost predicate GroupRecorded(steps: seq<Step>, ticks: seq<Tick>, holds: seq<Seg>, group: seq<nat>,
                                waves: seq<Seg>, skipped: seq<Skip>, lo: nat, hi: nat, out: seq<Seg>) {
    if hi <= lo then forall k | k in group :: Skip(k, NoTicksBetween) in skipped
    else
      && AreWaves(steps, group) && IsShared(steps, ticks, group, lo, hi, out)
      && forall m | 0 <= m < |out| :: Recorded(waves, skipped, out[m]) && out[m].planIndex == group[m]
  }

  lemma {:induction false} GroupShared(steps: seq<Step>, ticks: seq<Tick>, holds: seq<Seg>, ks: seq<nat>,
                    waves: seq<Seg>, skipped: seq<Skip>, g: nat, h: nat, out: seq<Seg>, i: nat)
    requires WavesBelow(steps, ks, |steps|) && RunOfSharers(holds, |ticks|, ks, g, h) && g <= i < h
    requires GroupRecorded(steps, ticks, holds, ks[g..h], waves, skipped, GapStart(holds, ks[g]), GapEnd(holds, ks[g], |ticks|), out)
    ensures WavePlaced(steps, ticks, holds, waves, skipped, ks[i])
  {
    var group := ks[g..h];
    assert group[i - g] == ks[i];
    RunIsGroup(steps, holds, |ticks|, ks, g, h, ks[i]);
    assert HasShare(steps, ticks, holds, waves, skipped, group, out, i - g);
  }

  lemma {:induction false} SharedGrows(steps: seq<Step>, ticks: seq<Tick>, holds: seq<Seg>, ks: seq<nat>, waves: seq<Seg>, skipped: seq<Skip>,
                    waves': seq<Seg>, skipped': seq<Skip>, g: nat, h: nat, out: seq<Seg>)
    requires WavesBelow(steps, ks, |steps|) && RunOfSharers(holds, |ticks|, ks, g, h)
    requires SharedTo(steps, ticks, holds, ks, waves, skipped, g)
    requires (forall w | w in waves :: w in waves') && forall s | s in skipped :: s in skipped'
    requires GroupRecorded(steps, ticks, holds, ks[g..h], waves', skipped', GapStart(holds, ks[g]), GapEnd(holds, ks[g], |ticks|), out)
    ensures SharedTo(steps, ticks, holds, ks, waves', skipped', h)
  {
    forall i | 0 <= i < h ensures WavePlaced(steps, ticks, holds, waves', skipped', ks[i]) {
      if i < g {
        PlacedStays(steps, ticks, holds, waves, skipped, waves', skipped', ks[i]);
      } else {
        GroupShared(steps, ticks, holds, ks, waves', skipped', g, h, out, i);
      }
    }
    assert SharesGap(holds, |ticks|, ks[g], ks[h - 1]);
  }

  /** The wave step after the group: everything the group placed ends before its gap. */
  lemma {:induction false} NextGroupIsClear(holds: seq<Seg>, n: nat, ks: seq<nat>, waves: seq<Seg>, waves': seq<Seg>, g: nat, h: nat)
    requires Laid(holds, n) && g < h < |ks| && (forall i, j | 0 <= i < j < |ks| :: ks[i] < ks[j])
    requires forall i, j | 0 <= i < |holds| && 0 <= j < |ks| :: holds[i].planIndex != ks[j]
    requires ClearOf(waves, ks[g], GapStart(holds, ks[g])) && !SharesGap(holds, n, ks[g], ks[h])
    requires forall w | w in waves' :: w in waves || (w.planIndex < ks[h] && w.end <= GapEnd(holds, ks[g], n))
    ensures ClearOf(waves', ks[h], GapStart(holds, ks[h]))
  {
    GapsAreApart(holds, n, ks[g], ks[h]);
    GapStartRises(holds, ks[g], ks[h]);
  }

  /** Wave steps take the gap between their neighbouring found holds; consecutive waves in one gap share it. */
  method PlaceWaves(steps: seq<Step>, ticks: seq<Tick>, holds: seq<Seg>) returns (waves: seq<Seg>, skipped: seq<Skip>)
    requires Laid(holds, |ticks|)
    requires forall i | 0 <= i < |holds| :: holds[i].planIndex < |steps| && !steps[holds[i].planIndex].Wave?
    ensures WavesLaid(holds, |ticks|, waves)
    ensures forall k: nat | k < |steps| && steps[k].Wave? :: WavePlaced(steps, ticks, holds, waves, skipped, k)
    ensures forall k: nat :: Placements(waves, skipped, k) == if k < |steps| && steps[k].Wave? then 1 else 0
    ensures forall s | s in skipped :: s.reason == EmptyRange
              || (s.reason == NoTicksBetween && GapEnd(holds, s.index, |ticks|) <= GapStart(holds, s.index))
  {
    var ks := WaveIndices(steps);
    var n := |ticks|;
    waves, skipped := [], [];
    var g := 0;
    while g < |ks|
      invariant 0 <= g <= |ks| && WavesTo(holds, n, ks, waves, skipped, g)
      invariant SharedTo(steps, ticks, holds, ks, waves, skipped, g)
    {
      var h := SharersEnd(holds, n, ks, g);
      waves, skipped := PlaceOneGroup(steps, ticks, holds, ks, waves, skipped, g, h);
      g := h;
    }
    assert ks[..|ks|] == ks;
    AllShared(steps, ticks, holds, ks, waves, skipped);
  }

  lemma {:induction false} AllShared(steps: seq<Step>, ticks: seq<Tick>, holds: seq<Seg>, ks: seq<nat>, waves: seq<Seg>, skipped: seq<Skip>)
    requires WavesBelow(steps, ks, |steps|) && SharedTo(steps, ticks, holds, ks, waves, skipped, |ks|)
    ensures forall k: nat | k < |steps| && steps[k].Wave? :: WavePlaced(steps, ticks, holds, waves, skipped, k)
  {
    forall k: nat | k < |steps| && steps[k].Wave? ensures WavePlaced(steps, ticks, holds, waves, skipped, k) {
      assert Listed(ks, k);
    }
  }

  /** Where the run of wave steps that share a gap with wave step `g` ends. */
  method SharersEnd(holds: seq<Seg>, n: nat, ks: seq<nat>, g: nat) returns (h: nat)
    requires g < |ks| && (g > 0 ==> !SharesGap(holds, n, ks[g - 1], ks[g]))
    ensures RunOfSharers(holds, n, ks, g, h)
  {
    h := g + 1;
    while h < |ks| && SharesGap(holds, n, ks[g], ks[h])
      invariant g < h <= |ks| && forall i | g <= i < h :: SharesGap(holds, n, ks[g], ks[i])
    {
      h := h + 1;
    }
  }

  method PlaceOneGroup(steps: seq<Step>, ticks: seq<Tick>, holds: seq<Seg>, ks: seq<nat>,
                       waves: seq<Seg>, skipped: seq<Skip>, g: nat, h: nat)
    returns (waves': seq<Seg>, skipped': seq<Skip>)
    requires Laid(holds, |ticks|) && WavesBelow(steps, ks, |steps|)
    requires forall i | 0 <= i < |holds| :: holds[i].planIndex < |steps| && !steps[holds[i].planIndex].Wave?
    requires RunOfSharers(holds, |ticks|, ks, g, h)
    requires WavesTo(holds, |ticks|, ks, waves, skipped, g) && SharedTo(steps, ticks, holds, ks, waves, skipped, g)
    ensures WavesTo(holds, |ticks|, ks, waves', skipped', h)
    ensures SharedTo(steps, ticks, holds, ks, waves', skipped', h)
  {
    RunFacts(steps, holds, |ticks|, ks, g, h);
    ghost var out;
    waves', skipped', out := PlaceShares(steps, ticks, holds, ks[g..h], ks[g], waves, skipped);
    GroupDone(holds, |ticks|, ks, waves, skipped, waves', skipped', g, h);
    SharedGrows(steps, ticks, holds, ks, waves, skipped, waves', skipped', g, h, out);
  }

  method PlaceShares(steps: seq<Step>, ticks: seq<Tick>, holds: seq<Seg>, group: seq<nat>, first: nat,
                     waves: seq<Seg>, skipped: seq<Skip>)
    returns (waves': seq<Seg>, skipped': seq<Skip>, ghost out: seq<Seg>)
    requires AreWaves(steps, group) && forall i, j | 0 <= i < j < |group| :: group[i] < group[j]
    requires forall i | 0 <= i < |group| :: first <= group[i] && SharesGap(holds, |ticks|, first, group[i])
    requires WavesLaid(holds, |ticks|, waves) && ClearOf(waves, first, GapStart(holds, first))
    ensures WavesLaid(holds, |ticks|, waves')
    ensures (forall w | w in waves :: w in waves') && forall s | s in skipped :: s in skipped'
    ensures GroupRecorded(steps, ticks, holds, group, waves', skipped', GapStart(holds, first), GapEnd(holds, first, |ticks|), out)
    ensures forall k: nat :: Placements(waves', skipped', k) == Placements(waves, skipped, k) + Occurrences(group, k)
    ensures forall w | w in waves' :: w in waves || (w.planIndex in group && w.end <= GapEnd(holds, first, |ticks|))
    ensures forall s | s in skipped' :: s in skipped || s.reason == EmptyRange
              || (s.reason == NoTicksBetween && s.index in group && GapEnd(holds, first, |ticks|) <= GapStart(holds, first))
  {
    var n := |ticks|;
    var lo, hi := GapStart(holds, first), GapEnd(holds, first, n);
    if hi <= lo {
      waves', out := waves, [];
      skipped' := SkipGroup(group, waves, skipped);
    } else {
      var shares := SplitWaves(steps, ticks, group, lo, hi);
      out := shares;
      assert SegIndices(out) == group;
      GroupFits(holds, n, group, waves, out, first, lo, hi);
      waves', skipped' := PlaceGroup(holds, n, shares, waves, skipped);
      assert out[..|out|] == out;
      assert forall w | w in out :: w.end <= hi && w.planIndex in group;
    }
  }

  lemma {:induction false} GroupDone(holds: seq<Seg>, n: nat, ks: seq<nat>, waves: seq<Seg>, skipped: seq<Skip>,
                  waves': seq<Seg>, skipped': seq<Skip>, g: nat, h: nat)
    requires Laid(holds, n) && g < h <= |ks| && (forall i, j | 0 <= i < j < |ks| :: ks[i] < ks[j])
    requires forall i, j | 0 <= i < |holds| && 0 <= j < |ks| :: holds[i].planIndex != ks[j]
    requires WavesTo(holds, n, ks, waves, skipped, g) && WavesLaid(holds, n, waves')
    requires forall i | 0 <= i < h - g :: SharesGap(holds, n, ks[g], ks[g..h][i])
    requires h < |ks| ==> !SharesGap(holds, n, ks[g], ks[h])
    requires forall k: nat :: Placements(waves', skipped', k) == Placements(waves, skipped, k) + Occurrences(ks[g..h], k)
    requires forall w | w in waves' :: w in waves || (w.planIndex in ks[g..h] && w.end <= GapEnd(holds, ks[g], n))
    requires forall s | s in skipped' :: s in skipped || s.reason == EmptyRange
               || (s.reason == NoTicksBetween && s.index in ks[g..h] && GapEnd(holds, ks[g], n) <= GapStart(holds, ks[g]))
    ensures WavesTo(holds, n, ks, waves', skipped', h)
  {
    forall k: nat ensures Placements(waves', skipped', k) == Occurrences(ks[..h], k) {
      assert ks[..h] == ks[..g] + ks[g..h];
      OccurrencesAppend(ks[..g], ks[g..h], k);
    }
    if h < |ks| {
      assert forall k | k in ks[g..h] :: k < ks[h];
      NextGroupIsClear(holds, n, ks, waves, waves', g, h);
    }
  }

  lemma {:induction false} GroupFits(holds: seq<Seg>, n: nat, group: seq<nat>, waves: seq<Seg>, out: seq<Seg>, first: nat, lo: nat, hi: nat)
    requires Split(group, lo, hi, out) && |out| == |group|
    requires lo == GapStart(holds, first) && hi == GapEnd(holds, first, n)
    requires forall i | 0 <= i < |group| :: first <= group[i] && SharesGap(holds, n, first, group[i])
    requires forall i, j | 0 <= i < j < |group| :: group[i] < group[j]
    requires ClearOf(waves, first, lo)
    ensures Fits(holds, n, out, waves)
  {
    forall i | 0 <= i < |out|
      ensures GapStart(holds, out[i].planIndex) <= out[i].start <= out[i].end <= GapEnd(holds, out[i].planIndex, n)
      ensures ClearOf(waves, out[i].planIndex, out[i].start)
    {
      assert SharesGap(holds, n, first, group[i]);
    }
  }

  /** Each hold runs until some joint's target changes, or the next hold starts. */
  ghost predicate HoldsRun(ticks: seq<Tick>, holds: seq<Seg>) {
    forall i: nat | i < |holds| :: HoldRuns(ticks, holds, holds, i)
  }

  /** Why a step is left out. */
  ghost predicate Justified(steps: seq<Step>, ticks: seq<Tick>, holds: seq<Seg>, s: Skip) {
    match s.reason
    case TargetNeverAppears => TrulyAbsent(steps, ticks, holds, s)
    case NoTicksBetween => GapEnd(holds, s.index, |ticks|) <= GapStart(holds, s.index)
    case EmptyRange => s.index < |steps| ==> steps[s.index].Wave?
  }

  /** Each step index is in exactly one of the three lists. */
  ghost predicate EachOnce(steps: seq<Step>, r: Segmented) {
    forall k: nat ::
      Occurrences(SegIndices(r.holds), k) + Occurrences(SegIndices(r.waves), k) + Occurrences(SkipIndices(r.skipped), k)
      == if k < |steps| then 1 else 0
  }

  /**
    Every plan step ends up in exactly one of holds, waves and skipped; every
    segment is non-empty and in bounds and lies wholly before those of later
    steps; each hold begins where its target first shows and runs until a target
    changes; a hold is skipped only when its target never shows again; each wave
    has exactly its share of the gap it is in, and is skipped only when that gap
    or that share has no tick.
   */
  method SegmentPlan(steps: seq<Step>, ticks: seq<Tick>) returns (r: Segmented)
    ensures EachOnce(steps, r)
    ensures forall s | s in r.holds + r.waves :: s.start < s.end <= |ticks|
    ensures InPlanOrder(r.holds, r.waves)
    ensures Starts(steps, ticks, r.holds) && Earliest(steps, ticks, r.holds) && HoldsRun(ticks, r.holds)
    ensures forall k: nat | k < |steps| && steps[k].Wave? :: WavePlaced(steps, ticks, r.holds, r.waves, r.skipped, k)
    ensures forall s | s in r.skipped :: Justified(steps, ticks, r.holds, s)
  {
    var found, absent := FindHolds(steps, ticks);
    var holds := SetEnds(steps, ticks, found);
    OnlyEndsChange(ticks, found, holds);
    RunsStay(ticks, found, holds);
    EndsLay(steps, ticks, found, holds);
    SameStarts(steps, ticks, found, holds, absent);
    var waves, empty := PlaceWaves(steps, ticks, holds);
    r := Segmented(holds, waves, absent + empty);
    assert forall k: nat :: Placements(holds, absent, k) == Placements(found, absent, k);
    EachStepOnce(steps, holds, absent, waves, empty);
    SegmentsInOrder(holds, waves, |ticks|);
    SkipsJustified(steps, ticks, holds, absent, waves, empty);
    forall k: nat | k < |steps| && steps[k].Wave? ensures WavePlaced(steps, ticks, holds, waves, r.skipped, k) {
      PlacedStays(steps, ticks, holds, waves, empty, waves, r.skipped, k);
    }
  }

  lemma {:induction false} SegmentsInOrder(holds: seq<Seg>, waves: seq<Seg>, n: nat)
    requires Laid(holds, n) && WavesLaid(holds, n, waves)
    ensures forall s | s in holds + waves :: s.start < s.end <= n
    ensures InPlanOrder(holds, waves)
  {
    LaidInPlanOrder(holds, waves, n);
    assert forall s | s in waves :: InGap(holds, n, s);
  }

  lemma {:induction false} OccursIf(indices: seq<nat>, k: nat)
    requires k in indices
    ensures Occurrences(indices, k) >= 1
  {
    if indices[|indices| - 1] != k {
      OccursIf(indices[..|indices| - 1], k);
    }
  }

  lemma {:induction false} SkipsJustified(steps: seq<Step>, ticks: seq<Tick>, holds: seq<Seg>, absent: seq<Skip>, waves: seq<Seg>, empty: seq<Skip>)
    requires forall s | s in absent :: s.reason == TargetNeverAppears && TrulyAbsent(steps, ticks, holds, s)
    requires forall k: nat :: Placements(waves, empty, k) == if k < |steps| && steps[k].Wave? then 1 else 0
    requires forall s | s in empty :: s.reason == EmptyRange
               || (s.reason == NoTicksBetween && GapEnd(holds, s.index, |ticks|) <= GapStart(holds, s.index))
    ensures forall s | s in absent + empty :: Justified(steps, ticks, holds, s)
  {
    forall s | s in empty ensures s.index < |steps| && steps[s.index].Wave? {
      var i :| 0 <= i < |empty| && empty[i] == s;
      assert SkipIndices(empty)[i] == s.index;
      OccursIf(SkipIndices(empty), s.index);
      assert Placements(waves, empty, s.index) >= 1;
    }
  }

  lemma {:induction false} EachStepOnce(steps: seq<Step>, holds: seq<Seg>, absent: seq<Skip>, waves: seq<Seg>, empty: seq<Skip>)
    requires forall k: nat :: Placements(holds, absent, k) == if k < |steps| && !steps[k].Wave? then 1 else 0
    requires forall k: nat :: Placements(waves, empty, k) == if k < |steps| && steps[k].Wave? then 1 else 0
    ensures EachOnce(steps, Segmented(holds, waves, absent + empty))
  {
    assert SkipIndices(absent + empty) == SkipIndices(absent) + SkipIndices(empty);
    forall k: nat ensures
      Occurrences(SegIndices(holds), k) + Occurrences(SegIndices(waves), k) + Occurrences(SkipIndices(absent + empty), k)
      == if k < |steps| then 1 else 0
    {
      OccurrencesAppend(SkipIndices(absent), SkipIndices(empty), k);
      assert Placements(holds, absent, k) + Placements(waves, empty, k) == if k < |steps| then 1 else 0;
    }
  }

  /** Setting the ends changes nothing the search established. */
  lemma {:induction false} SameStarts(steps: seq<Step>, ticks: seq<Tick>, found: seq<Seg>, holds: seq<Seg>, absent: seq<Skip>)
    requires SearchedTo(steps, ticks, found, absent, |steps|) && |holds| == |found|
    requires forall i | 0 <= i < |found| :: holds[i] == found[i].(end := holds[i].end)
    ensures SegIndices(holds) == SegIndices(found)
    ensures Starts(steps, ticks, holds) && Earliest(steps, ticks, holds)
    ensures forall s | s in absent :: TrulyAbsent(steps, ticks, holds, s)
  {
    assert Starts(steps, ticks, holds);
    SameCursors(found, holds);
    forall i: nat | i < |holds| ensures StartsFirst(steps, ticks, holds, i) {
      assert StartsFirst(steps, ticks, found, i);
    }
    forall s | s in absent ensures TrulyAbsent(steps, ticks, holds, s) {
      StillAbsent(steps, ticks, found, holds, s);
    }
  }

  lemma {:induction false} SameCursors(found: seq<Seg>, holds: seq<Seg>)
    requires |holds| == |found| && forall i | 0 <= i < |found| :: holds[i] == found[i].(end := holds[i].end)
    ensures forall i | 0 <= i <= |found| :: CursorAt(holds, i) == CursorAt(found, i)
  {
  }

  lemma {:induction false} StillAbsent(steps: seq<Step>, ticks: seq<Tick>, found: seq<Seg>, holds: seq<Seg>, s: Skip)
    requires TrulyAbsent(steps, ticks, found, s) && |holds| == |found|
    requires forall i | 0 <= i < |found| :: holds[i] == found[i].(end := holds[i].end)
    ensures TrulyAbsent(steps, ticks, holds, s)
  {
    SameCursors(found, holds);
    var i :| 0 <= i <= |found|
             && (forall j | 0 <= j < i :: found[j].planIndex < s.index)
             && (forall j | i <= j < |found| :: s.index < found[j].planIndex)
             && NotShown(ticks, steps[s.index], CursorAt(found, i), |ticks|);
    assert NotShown(ticks, steps[s.index], CursorAt(holds, i), |ticks|);
  }
}
