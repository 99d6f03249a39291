/**
  Filling a position trace forward: the last row of a joint stands in for it
  until the row is older than two of the joint's own trace periods, and the
  ticks where it was too old are reported as stale runs.
 */
module ForwardFill {
  import opened Basics
  import opened Trace

  const STALE_FILL_PERIODS := 2

  /** A traced tick and its tick number. Numbers need not rise. */
  datatype Numbered = Numbered(no: nat, tick: Tick)

  datatype StaleRun = StaleRun(joint: string, lastRowTick: nat, ticks: nat, resumed: Option<nat>)

  function Lookup<V>(m: map<string, V>, joint: string): Option<V> {
    if joint in m then Some(m[joint]) else None
  }

  predicate Traces(ticks: seq<Numbered>, joint: string, i: nat)
    requires i < |ticks|
  {
    joint in ticks[i].tick.rows
  }

  /** Saturating difference of two tick numbers. */
  function Age(no: nat, since: nat): nat {
    if no < since then 0 else no - since
  }

  /** The latest of the first `i` ticks that traces the joint. */
  function LastRow(ticks: seq<Numbered>, joint: string, i: nat): (at: Option<nat>)
    requires i <= |ticks|
    ensures at.Some? ==> at.value < i && Traces(ticks, joint, at.value)
                         && forall t | at.value < t < i :: !Traces(ticks, joint, t)
    ensures at.None? ==> forall t | 0 <= t < i :: !Traces(ticks, joint, t)
  {
    if i == 0 then None else if Traces(ticks, joint, i - 1) then Some(i - 1) else LastRow(ticks, joint, i - 1)
  }

  // ----- Trace periods

  /** Gaps between consecutive rows of the joint in the first `i` ticks. */
  function Gaps(ticks: seq<Numbered>, joint: string, i: nat): seq<nat>
    requires i <= |ticks|
  {
    if i == 0 then []
    else
      var before := Gaps(ticks, joint, i - 1);
      var last := LastRow(ticks, joint, i - 1);
      if Traces(ticks, joint, i - 1) && last.Some? then before + [Age(ticks[i - 1].no, ticks[last.value].no)] else before
  }

  predicate IsSorted(s: seq<nat>) {
    forall i, j | 0 <= i < j < |s| :: s[i] <= s[j]
  }

  function CountBelow(s: seq<nat>, x: nat): (c: nat)
    ensures c <= |s|
  {
    if s == [] then 0 else CountBelow(s[1..], x) + (if s[0] < x then 1 else 0)
  }

  function Insert(x: nat, s: seq<nat>): seq<nat> {
    if s == [] || x <= s[0] then [x] + s else [s[0]] + Insert(x, s[1..])
  }

  function Sort(s: seq<nat>): seq<nat> {
    if s == [] then [] else Insert(s[0], Sort(s[1..]))
  }

  lemma {:induction false} InsertKeeps(x: nat, s: seq<nat>, y: nat)
    requires IsSorted(s)
    ensures |Insert(x, s)| == |s| + 1 && IsSorted(Insert(x, s))
    ensures forall z | z in Insert(x, s) :: z == x || z in s
    ensures CountBelow(Insert(x, s), y) == CountBelow(s, y) + (if x < y then 1 else 0)
  {
    if s == [] || x <= s[0] {
      assert ([x] + s)[1..] == s;
    } else {
      InsertKeeps(x, s[1..], y);
      var rest := Insert(x, s[1..]);
      assert ([s[0]] + rest)[1..] == rest;
      assert forall z | z in rest :: s[0] <= z;
    }
  }

  /** Sorting keeps the length and how many elements lie below any bound. */
  lemma {:induction false} SortKeeps(s: seq<nat>, y: nat)
    ensures |Sort(s)| == |s| && IsSorted(Sort(s)) && CountBelow(Sort(s), y) == CountBelow(s, y)
  {
    if s != [] {
      SortKeeps(s[1..], y);
      InsertKeeps(s[0], Sort(s[1..]), y);
    }
  }

  lemma {:induction false} SortedCount(s: seq<nat>, k: nat, y: nat)
    requires IsSorted(s) && k < |s|
    ensures y <= s[k] ==> CountBelow(s, y) <= k
    ensures s[k] < y ==> k < CountBelow(s, y)
  {
    if k > 0 {
      SortedCount(s[1..], k - 1, y);
    } else if y <= s[0] {
      NoneBelow(s, y);
    }
  }

  lemma {:induction false} NoneBelow(s: seq<nat>, y: nat)
    requires forall i | 0 <= i < |s| :: y <= s[i]
    ensures CountBelow(s, y) == 0
  {
    if s != [] {
      NoneBelow(s[1..], y);
    }
  }

  /** The upper median. */
  function Median(s: seq<nat>): nat
    requires s != []
  {
    SortKeeps(s, 0);
    Sort(s)[|s| / 2]
  }

  /** At most half of the elements lie below the median and more than half at or below it. */
  lemma {:induction false} MedianSplits(s: seq<nat>)
    requires s != []
    ensures CountBelow(s, Median(s)) <= |s| / 2 < CountBelow(s, Median(s) + 1)
  {
    var m := Median(s);
    SortKeeps(s, m);
    SortKeeps(s, m + 1);
    RankSplits(Sort(s), |s| / 2, m);
  }

  lemma {:induction false} RankSplits(s: seq<nat>, k: nat, m: nat)
    requires IsSorted(s) && k < |s| && s[k] == m
    ensures CountBelow(s, m) <= k < CountBelow(s, m + 1)
  {
    SortedCount(s, k, m);
    SortedCount(s, k, m + 1);
  }

  /** The joint's trace period: its median gap, at least one tick; none when it was traced fewer than twice. */
  function Period(ticks: seq<Numbered>, joint: string): Option<nat> {
    var gaps := Gaps(ticks, joint, |ticks|);
    if gaps == [] then None else Some(if Median(gaps) < 1 then 1 else Median(gaps))
  }

  lemma {:induction false} GapsCountRows(ticks: seq<Numbered>, joint: string, i: nat)
    requires i <= |ticks|
    ensures |Gaps(ticks, joint, i)| == if Rows(ticks, joint, i) == 0 then 0 else Rows(ticks, joint, i) - 1
    ensures Rows(ticks, joint, i) == 0 <==> LastRow(ticks, joint, i).None?
  {
    if i > 0 {
      GapsCountRows(ticks, joint, i - 1);
    }
  }

  /** How many of the first `i` ticks trace the joint. */
  function Rows(ticks: seq<Numbered>, joint: string, i: nat): nat
    requires i <= |ticks|
  {
    if i == 0 then 0 else Rows(ticks, joint, i - 1) + (if Traces(ticks, joint, i - 1) then 1 else 0)
  }

  /** A joint has a period exactly when it is traced twice or more. */
  lemma {:induction false} PeriodIff(ticks: seq<Numbered>, joint: string)
    ensures Period(ticks, joint).Some? <==> Rows(ticks, joint, |ticks|) >= 2
  {
    GapsCountRows(ticks, joint, |ticks|);
  }

  datatype Seen = Seen(last: nat, gaps: seq<nat>)

  /** What the first `i` ticks say about the joint. */
  ghost predicate Tracks(ticks: seq<Numbered>, joint: string, i: nat, seen: Option<Seen>)
    requires i <= |ticks|
  {
    match LastRow(ticks, joint, i)
    case None => seen.None? && Gaps(ticks, joint, i) == []
    case Some(at) => seen == Some(Seen(ticks[at].no, Gaps(ticks, joint, i)))
  }

  method TracePeriods(ticks: seq<Numbered>) returns (periods: map<string, nat>)
    ensures forall joint :: Lookup(periods, joint) == Period(ticks, joint)
  {
    var seen: map<string, Seen> := map[];
    for i := 0 to |ticks|
      invariant forall joint :: Tracks(ticks, joint, i, Lookup(seen, joint))
    {
      seen := SeeTick(ticks, i, seen);
    }
    periods := map[];
    var todo := seen.Keys;
    forall joint | joint !in seen ensures Period(ticks, joint).None? {
      assert Tracks(ticks, joint, |ticks|, Lookup(seen, joint));
    }
    while todo != {}
      invariant todo <= seen.Keys
      invariant forall joint :: Lookup(periods, joint) == if joint in todo then None else Period(ticks, joint)
    {
      var joint :| joint in todo;
      assert Tracks(ticks, joint, |ticks|, Lookup(seen, joint));
      var gaps := seen[joint].gaps;
      if gaps != [] {
        var median := Median(gaps);
        periods := periods[joint := if median < 1 then 1 else median];
      }
      todo := todo - {joint};
    }
  }

  method SeeTick(ticks: seq<Numbered>, i: nat, before: map<string, Seen>) returns (seen: map<string, Seen>)
    requires i < |ticks| && forall joint :: Tracks(ticks, joint, i, Lookup(before, joint))
    ensures forall joint :: Tracks(ticks, joint, i + 1, Lookup(seen, joint))
  {
    seen := before;
    var no := ticks[i].no;
    var todo := ticks[i].tick.rows.Keys;
    while todo != {}
      invariant todo <= ticks[i].tick.rows.Keys
      invariant forall joint :: Tracks(ticks, joint, if joint in todo then i else i + 1, Lookup(seen, joint))
    {
      var joint :| joint in todo;
      assert Tracks(ticks, joint, i, Lookup(seen, joint));
      if joint in seen {
        seen := seen[joint := Seen(no, seen[joint].gaps + [Age(no, seen[joint].last)])];
      } else {
        seen := seen[joint := Seen(no, [])];
      }
      todo := todo - {joint};
    }
  }

  // ----- Filling

  /** How old a row may be to stand in for its joint. */
  function MaxAge(ticks: seq<Numbered>, joint: string): nat {
    match Period(ticks, joint)
    case None => 0
    case Some(period) => period * STALE_FILL_PERIODS
  }

  /** The row that stands for the joint at tick `t`: its own, or its last one while that is recent enough. */
  function Filled(ticks: seq<Numbered>, joint: string, t: nat): Option<Row>
    requires t < |ticks|
  {
    if Traces(ticks, joint, t) then Some(ticks[t].tick.rows[joint])
    else
      match LastRow(ticks, joint, t)
      case None => None
      case Some(at) =>
        if Age(ticks[t].no, ticks[at].no) <= MaxAge(ticks, joint) then Some(ticks[at].tick.rows[joint]) else None
  }

  /** The joint was traced before tick `t` but has no row there. */
  predicate Dropped(ticks: seq<Numbered>, joint: string, t: nat)
    requires t < |ticks|
  {
    LastRow(ticks, joint, t).Some? && Filled(ticks, joint, t).None?
  }

  /** How many of the first `i` ticks drop the joint. */
  function DroppedTicks(ticks: seq<Numbered>, joint: string, i: nat): nat
    requires i <= |ticks|
  {
    if i == 0 then 0 else DroppedTicks(ticks, joint, i - 1) + (if Dropped(ticks, joint, i - 1) then 1 else 0)
  }

  /** How many ticks have dropped the joint since its last row before tick `i`. */
  function DroppedSince(ticks: seq<Numbered>, joint: string, i: nat): nat
    requires i <= |ticks|
  {
    if i == 0 || Traces(ticks, joint, i - 1) then 0
    else DroppedSince(ticks, joint, i - 1) + (if Dropped(ticks, joint, i - 1) then 1 else 0)
  }

  /** The joint's run of dropped ticks that reaches up to tick `i`, if any. */
  function RunAt(ticks: seq<Numbered>, joint: string, i: nat, resumed: Option<nat>): Option<StaleRun>
    requires i <= |ticks|
  {
    match LastRow(ticks, joint, i)
    case None => None
    case Some(at) =>
      var dropped := DroppedSince(ticks, joint, i);
      if dropped == 0 then None else Some(StaleRun(joint, ticks[at].no, dropped, resumed))
  }

  /** The run ended at one of the first `i` ticks, which traces the joint again. */
  ghost predicate Ended(ticks: seq<Numbered>, i: nat, run: StaleRun)
    requires i <= |ticks|
  {
    exists q: nat | q < i :: EndsAt(ticks, q, run)
  }

  predicate EndsAt(ticks: seq<Numbered>, q: nat, run: StaleRun)
    requires q < |ticks|
  {
    Traces(ticks, run.joint, q) && RunAt(ticks, run.joint, q, Some(ticks[q].no)) == Some(run)
  }

  function SumTicks(runs: seq<StaleRun>, joint: string): nat {
    if runs == [] then 0
    else SumTicks(runs[..|runs| - 1], joint) + (if runs[|runs| - 1].joint == joint then runs[|runs| - 1].ticks else 0)
  }

  function TicksOf(run: Option<StaleRun>): nat {
    if run.None? then 0 else run.value.ticks
  }

  datatype LastSeen = LastSeen(no: nat, row: Row)

  /** What `last` and `open` hold for one joint after the first `i` ticks. */
  ghost predicate Current(ticks: seq<Numbered>, joint: string, i: nat, last: Option<LastSeen>, run: Option<StaleRun>)
    requires i <= |ticks|
  {
    && run == RunAt(ticks, joint, i, None)
    && match LastRow(ticks, joint, i)
       case None => last.None?
       case Some(at) => last == Some(LastSeen(ticks[at].no, ticks[at].tick.rows[joint]))
  }

  /** The stale runs after the first `i` ticks: exactly the ended ones, every dropped tick counted once. */
  ghost predicate Reported(ticks: seq<Numbered>, i: nat, open: map<string, StaleRun>, stale: seq<StaleRun>)
    requires i <= |ticks|
  {
    && (forall run :: run in stale <==> Ended(ticks, i, run))
    && forall joint :: SumTicks(stale, joint) + TicksOf(Lookup(open, joint)) == DroppedTicks(ticks, joint, i)
  }

  lemma {:induction false} SumGrows(runs: seq<StaleRun>, run: StaleRun)
    ensures forall joint :: SumTicks(runs + [run], joint) == SumTicks(runs, joint) + (if run.joint == joint then run.ticks else 0)
  {
    assert (runs + [run])[..|runs|] == runs;
  }

  /** The state with the own rows of tick `i` recorded for the joint, before it is filled. */
  ghost predicate Recorded(ticks: seq<Numbered>, joint: string, i: nat, last: Option<LastSeen>, run: Option<StaleRun>)
    requires i < |ticks|
  {
    if Traces(ticks, joint, i) then last == Some(LastSeen(ticks[i].no, ticks[i].tick.rows[joint])) && run.None?
    else Current(ticks, joint, i, last, run)
  }

  /** The run ended before tick `i`, or at it for a joint that is not in `todo`. */
  ghost predicate EndedBut(ticks: seq<Numbered>, i: nat, run: StaleRun, todo: set<string>)
    requires i < |ticks|
  {
    Ended(ticks, i, run) || (run.joint !in todo && EndsAt(ticks, i, run))
  }

  /** The state with the own rows of tick `i` recorded except for the joints in `todo`. */
  ghost predicate RecordedBut(ticks: seq<Numbered>, i: nat, last: map<string, LastSeen>, open: map<string, StaleRun>, todo: set<string>)
    requires i < |ticks|
  {
    forall joint :: if joint in todo then Current(ticks, joint, i, Lookup(last, joint), Lookup(open, joint))
                    else Recorded(ticks, joint, i, Lookup(last, joint), Lookup(open, joint))
  }

  /** The stale runs when the joints in `todo` have not been looked at. */
  ghost predicate ReportedBut(ticks: seq<Numbered>, i: nat, open: map<string, StaleRun>, stale: seq<StaleRun>, todo: set<string>)
    requires i < |ticks|
  {
    && (forall run :: run in stale <==> EndedBut(ticks, i, run, todo))
    && forall joint :: SumTicks(stale, joint) + TicksOf(Lookup(open, joint)) == DroppedTicks(ticks, joint, i)
  }

  /** Record the tick's own rows; a joint that is traced again ends its run. */
  method RecordRows(ticks: seq<Numbered>, i: nat, last: map<string, LastSeen>, open: map<string, StaleRun>, stale: seq<StaleRun>)
    returns (last': map<string, LastSeen>, open': map<string, StaleRun>, stale': seq<StaleRun>)
    requires i < |ticks| && forall joint :: Current(ticks, joint, i, Lookup(last, joint), Lookup(open, joint))
    requires Reported(ticks, i, open, stale)
    ensures RecordedBut(ticks, i, last', open', {}) && ReportedBut(ticks, i, open', stale', {})
  {
    last', open', stale' := last, open, stale;
    var no, rows := ticks[i].no, ticks[i].tick.rows;
    var todo := rows.Keys;
    NothingRecorded(ticks, i, last, open, stale);
    while todo != {}
      invariant todo <= rows.Keys
      invariant RecordedBut(ticks, i, last', open', todo) && ReportedBut(ticks, i, open', stale', todo)
    {
      var joint :| joint in todo;
      RowRecorded(ticks, i, last', open', todo, joint);
      RunEnded(ticks, i, last', open', stale', todo, joint);
      last' := last'[joint := LastSeen(no, rows[joint])];
      if joint in open' {
        open', stale' := open' - {joint}, stale' + [open'[joint].(resumed := Some(no))];
      } else {
        assert open' - {joint} == open';
      }
      todo := todo - {joint};
    }
  }

  lemma {:induction false} NothingRecorded(ticks: seq<Numbered>, i: nat, last: map<string, LastSeen>, open: map<string, StaleRun>, stale: seq<StaleRun>)
    requires i < |ticks| && forall joint :: Current(ticks, joint, i, Lookup(last, joint), Lookup(open, joint))
    requires Reported(ticks, i, open, stale)
    ensures RecordedBut(ticks, i, last, open, ticks[i].tick.rows.Keys)
    ensures ReportedBut(ticks, i, open, stale, ticks[i].tick.rows.Keys)
  {
    forall run ensures EndedBut(ticks, i, run, ticks[i].tick.rows.Keys) <==> Ended(ticks, i, run) {
      assert EndsAt(ticks, i, run) ==> run.joint in ticks[i].tick.rows;
    }
  }

  lemma {:induction false} RowRecorded(ticks: seq<Numbered>, i: nat, last: map<string, LastSeen>, open: map<string, StaleRun>, todo: set<string>, joint: string)
    requires i < |ticks| && joint in ticks[i].tick.rows && RecordedBut(ticks, i, last, open, todo)
    ensures RecordedBut(ticks, i, last[joint := LastSeen(ticks[i].no, ticks[i].tick.rows[joint])], open - {joint}, todo - {joint})
  {
    var last', open' := last[joint := LastSeen(ticks[i].no, ticks[i].tick.rows[joint])], open - {joint};
    assert forall k | k != joint :: Lookup(last', k) == Lookup(last, k) && Lookup(open', k) == Lookup(open, k);
    assert Recorded(ticks, joint, i, Lookup(last', joint), Lookup(open', joint));
  }

  lemma {:induction false} RunEnded(ticks: seq<Numbered>, i: nat, last: map<string, LastSeen>, open: map<string, StaleRun>, stale: seq<StaleRun>,
                 todo: set<string>, joint: string)
    requires i < |ticks| && joint in todo && joint in ticks[i].tick.rows
    requires RecordedBut(ticks, i, last, open, todo) && ReportedBut(ticks, i, open, stale, todo)
    ensures joint !in open ==> ReportedBut(ticks, i, open, stale, todo - {joint})
    ensures joint in open ==>
              ReportedBut(ticks, i, open - {joint}, stale + [open[joint].(resumed := Some(ticks[i].no))], todo - {joint})
  {
    assert Current(ticks, joint, i, Lookup(last, joint), Lookup(open, joint));
    EndsNow(ticks, i, joint);
    if joint in open {
      var run := open[joint].(resumed := Some(ticks[i].no));
      SumGrows(stale, run);
      forall k ensures SumTicks(stale + [run], k) + TicksOf(Lookup(open - {joint}, k)) == DroppedTicks(ticks, k, i) {
        assert SumTicks(stale, k) + TicksOf(Lookup(open, k)) == DroppedTicks(ticks, k, i);
      }
    }
  }

  lemma {:induction false} EndsNow(ticks: seq<Numbered>, i: nat, joint: string)
    requires i < |ticks| && Traces(ticks, joint, i)
    ensures forall run: StaleRun | run.joint == joint :: EndsAt(ticks, i, run)
              <==> RunAt(ticks, joint, i, None).Some? && run == RunAt(ticks, joint, i, None).value.(resumed := Some(ticks[i].no))
  {
  }

  lemma {:induction false} EndedNext(ticks: seq<Numbered>, i: nat)
    requires i < |ticks|
    ensures forall run :: EndedBut(ticks, i, run, {}) <==> Ended(ticks, i + 1, run)
  {
    forall run ensures EndedBut(ticks, i, run, {}) <==> Ended(ticks, i + 1, run) {
      if Ended(ticks, i, run) {
        var q: nat :| q < i && EndsAt(ticks, q, run);
        assert q < i + 1;
      }
    }
  }

  /** What the filled tick holds for one joint, and its run afterwards. */
  ghost predicate FilledIn(ticks: seq<Numbered>, joint: string, i: nat, row: Option<Row>, run: Option<StaleRun>, run': Option<StaleRun>)
    requires i < |ticks|
  {
    && row == Filled(ticks, joint, i)
    && run' == RunAt(ticks, joint, i + 1, None)
    && TicksOf(run') == TicksOf(run) + (if Dropped(ticks, joint, i) then 1 else 0)
  }

  lemma {:induction false} FillOne(ticks: seq<Numbered>, joint: string, i: nat, last: Option<LastSeen>, run: Option<StaleRun>)
    requires i < |ticks| && Recorded(ticks, joint, i, last, run)
    ensures last.None? || Traces(ticks, joint, i) ==> FilledIn(ticks, joint, i, Lookup(ticks[i].tick.rows, joint), run, run)
    ensures last.Some? && !Traces(ticks, joint, i) ==>
              if Age(ticks[i].no, last.value.no) <= MaxAge(ticks, joint)
              then FilledIn(ticks, joint, i, Some(last.value.row), run, run)
              else var r := if run.Some? then run.value else StaleRun(joint, last.value.no, 0, None);
                   FilledIn(ticks, joint, i, None, run, Some(r.(ticks := r.ticks + 1)))
  {
  }

  /** The filled tick, and the runs it extends, except for the joints in `todo`. */
  ghost predicate FilledBut(ticks: seq<Numbered>, i: nat, rows: map<string, Row>, open: map<string, StaleRun>,
                            open': map<string, StaleRun>, todo: set<string>)
    requires i < |ticks|
  {
    forall joint ::
      if joint in todo then Lookup(rows, joint) == Lookup(ticks[i].tick.rows, joint) && Lookup(open', joint) == Lookup(open, joint)
      else FilledIn(ticks, joint, i, Lookup(rows, joint), Lookup(open, joint), Lookup(open', joint))
  }

  method FillTick(ticks: seq<Numbered>, i: nat, periods: map<string, nat>, last: map<string, LastSeen>, open: map<string, StaleRun>)
    returns (rows: map<string, Row>, open': map<string, StaleRun>)
    requires i < |ticks| && forall joint :: Lookup(periods, joint) == Period(ticks, joint)
    requires RecordedBut(ticks, i, last, open, {})
    ensures FilledBut(ticks, i, rows, open, open', {})
  {
    rows, open' := ticks[i].tick.rows, open;
    var todo := last.Keys;
    NothingFilled(ticks, i, last, open);
    while todo != {}
      invariant todo <= last.Keys && FilledBut(ticks, i, rows, open, open', todo)
    {
      var joint :| joint in todo;
      rows, open' := FillJoint(ticks, i, periods, last, open, rows, open', todo, joint);
      todo := todo - {joint};
    }
  }

  /** One joint of the tick: its own row, its last row while that is recent enough, or one more dropped tick. */
  method FillJoint(ticks: seq<Numbered>, i: nat, periods: map<string, nat>, last: map<string, LastSeen>,
                   ghost open: map<string, StaleRun>, rows: map<string, Row>, runs: map<string, StaleRun>,
                   ghost todo: set<string>, joint: string)
    returns (rows': map<string, Row>, runs': map<string, StaleRun>)
    requires i < |ticks| && joint in todo && joint in last && Lookup(periods, joint) == Period(ticks, joint)
    requires RecordedBut(ticks, i, last, open, {}) && FilledBut(ticks, i, rows, open, runs, todo)
    ensures FilledBut(ticks, i, rows', open, runs', todo - {joint})
  {
    rows', runs' := rows, runs;
    assert Recorded(ticks, joint, i, Lookup(last, joint), Lookup(open, joint));
    FillOne(ticks, joint, i, Lookup(last, joint), Lookup(open, joint));
    assert Lookup(rows, joint) == Lookup(ticks[i].tick.rows, joint) && Lookup(runs, joint) == Lookup(open, joint);
    if joint !in rows {
      var maxAge := if joint in periods then periods[joint] * STALE_FILL_PERIODS else 0;
      if Age(ticks[i].no, last[joint].no) <= maxAge {
        rows' := rows[joint := last[joint].row];
      } else {
        var run := if joint in runs then runs[joint] else StaleRun(joint, last[joint].no, 0, None);
        runs' := runs[joint := run.(ticks := run.ticks + 1)];
      }
    }
    OneMoreFilled(ticks, i, rows, rows', open, runs, runs', todo, joint);
  }

  lemma {:induction false} NothingFilled(ticks: seq<Numbered>, i: nat, last: map<string, LastSeen>, open: map<string, StaleRun>)
    requires i < |ticks| && RecordedBut(ticks, i, last, open, {})
    ensures FilledBut(ticks, i, ticks[i].tick.rows, open, open, last.Keys)
  {
    forall joint | joint !in last
      ensures FilledIn(ticks, joint, i, Lookup(ticks[i].tick.rows, joint), Lookup(open, joint), Lookup(open, joint))
    {
      assert Recorded(ticks, joint, i, Lookup(last, joint), Lookup(open, joint));
      FillOne(ticks, joint, i, Lookup(last, joint), Lookup(open, joint));
    }
  }

  lemma {:induction false} OneMoreFilled(ticks: seq<Numbered>, i: nat, rows: map<string, Row>, rows': map<string, Row>,
                      open: map<string, StaleRun>, open0: map<string, StaleRun>, open': map<string, StaleRun>,
                      todo: set<string>, joint: string)
    requires i < |ticks| && FilledBut(ticks, i, rows, open, open0, todo)
    requires forall k | k != joint :: Lookup(rows', k) == Lookup(rows, k) && Lookup(open', k) == Lookup(open0, k)
    requires FilledIn(ticks, joint, i, Lookup(rows', joint), Lookup(open, joint), Lookup(open', joint))
    ensures FilledBut(ticks, i, rows', open, open', todo - {joint})
  {
    assert forall k | k != joint :: k in todo - {joint} <==> k in todo;
  }

  /** The tick keeps its time and holds for each joint exactly the row that stands for it. */
  ghost predicate IsFilled(ticks: seq<Numbered>, t: nat, tick: Tick)
    requires t < |ticks|
  {
    tick.tMs == ticks[t].tick.tMs && forall joint :: Lookup(tick.rows, joint) == Filled(ticks, joint, t)
  }

  /** The run is one that ended, or one still open at the end of the trace. */
  ghost predicate IsRun(ticks: seq<Numbered>, run: StaleRun) {
    Ended(ticks, |ticks|, run) || RunAt(ticks, run.joint, |ticks|, None) == Some(run)
  }

  // ----- The order of the report

  /** Text order, character by character; a prefix comes first. */
  predicate TextAtMost(a: string, b: string) {
    a == [] || (b != [] && (a[0] < b[0] || (a[0] == b[0] && TextAtMost(a[1..], b[1..]))))
  }

  lemma {:induction false} TextOrdered(a: string, b: string, c: string)
    ensures TextAtMost(a, b) || TextAtMost(b, a)
    ensures TextAtMost(a, b) && TextAtMost(b, c) ==> TextAtMost(a, c)
  {
    if a != [] && b != [] {
      TextOrdered(a[1..], b[1..], if c == [] then [] else c[1..]);
    }
  }

  /** By the tick of the last row, then by joint. */
  predicate RunAtMost(a: StaleRun, b: StaleRun) {
    a.lastRowTick < b.lastRowTick || (a.lastRowTick == b.lastRowTick && TextAtMost(a.joint, b.joint))
  }

  ghost predicate Arranged(runs: seq<StaleRun>) {
    forall i, j | 0 <= i < j < |runs| :: RunAtMost(runs[i], runs[j])
  }

  /** `run` behind every run that does not come after it. */
  function InsertRun(runs: seq<StaleRun>, run: StaleRun): seq<StaleRun> {
    if runs == [] || RunAtMost(runs[|runs| - 1], run) then runs + [run]
    else InsertRun(runs[..|runs| - 1], run) + [runs[|runs| - 1]]
  }

  function Arrange(runs: seq<StaleRun>): seq<StaleRun> {
    if runs == [] then [] else InsertRun(Arrange(runs[..|runs| - 1]), runs[|runs| - 1])
  }

  lemma {:induction false} ArrangedAppends(runs: seq<StaleRun>, run: StaleRun)
    requires Arranged(runs) && forall r | r in runs :: RunAtMost(r, run)
    ensures Arranged(runs + [run])
  {
    assert forall i | 0 <= i < |runs| :: runs[i] in runs;
  }

  lemma {:induction false} InsertRunKeeps(runs: seq<StaleRun>, run: StaleRun)
    requires Arranged(runs)
    ensures Arranged(InsertRun(runs, run))
    ensures forall r :: r in InsertRun(runs, run) <==> r in runs || r == run
    ensures forall joint :: SumTicks(InsertRun(runs, run), joint) == SumTicks(runs, joint) + (if run.joint == joint then run.ticks else 0)
  {
    SumGrows(runs, run);
    if runs != [] {
      var front, last := runs[..|runs| - 1], runs[|runs| - 1];
      if RunAtMost(last, run) {
        forall r | r in runs ensures RunAtMost(r, run) {
          var i :| 0 <= i < |runs| && runs[i] == r;
          TextOrdered(r.joint, last.joint, run.joint);
        }
        ArrangedAppends(runs, run);
      } else {
        InsertRunKeeps(front, run);
        TextOrdered(last.joint, run.joint, run.joint);
        forall r | r in InsertRun(front, run) ensures RunAtMost(r, last) {
          assert r in front || r == run;
        }
        ArrangedAppends(InsertRun(front, run), last);
        SumGrows(InsertRun(front, run), last);
        assert runs == front + [last];
      }
    }
  }

  lemma {:induction false} ArrangeKeeps(runs: seq<StaleRun>)
    ensures Arranged(Arrange(runs))
    ensures forall r :: r in Arrange(runs) <==> r in runs
    ensures forall joint :: SumTicks(Arrange(runs), joint) == SumTicks(runs, joint)
  {
    if runs != [] {
      var front, last := runs[..|runs| - 1], runs[|runs| - 1];
      ArrangeKeeps(front);
      InsertRunKeeps(Arrange(front), last);
      assert runs == front + [last];
    }
  }

  // ----- The fill

  /**
    Every tick keeps its time and holds for each joint exactly the row that
    stands for it; the stale runs are exactly the runs of ticks that drop a joint
    between two of its rows, or after its last one, in order of last row and
    joint; and for every joint their lengths add up to the ticks that drop it.
   */
  method Fill(ticks: seq<Numbered>) returns (out: seq<Tick>, stale: seq<StaleRun>)
    ensures |out| == |ticks|
    ensures forall t: nat | t < |ticks| :: IsFilled(ticks, t, out[t])
    ensures forall run :: run in stale <==> IsRun(ticks, run)
    ensures forall joint :: SumTicks(stale, joint) == DroppedTicks(ticks, joint, |ticks|)
    ensures Arranged(stale)
  {
    var periods := TracePeriods(ticks);
    var last: map<string, LastSeen>, open: map<string, StaleRun> := map[], map[];
    out, stale := [], [];
    for i := 0 to |ticks|
      invariant |out| == i
      invariant forall joint :: Current(ticks, joint, i, Lookup(last, joint), Lookup(open, joint))
      invariant Reported(ticks, i, open, stale)
      invariant forall t: nat | t < i :: IsFilled(ticks, t, out[t])
    {
      last, open, stale := RecordRows(ticks, i, last, open, stale);
      ghost var before := open;
      var rows;
      rows, open := FillTick(ticks, i, periods, last, open);
      out := out + [Tick(ticks[i].tick.tMs, rows)];
      NextTick(ticks, i, last, before, rows, open, stale);
    }
    stale := CloseAll(ticks, open, stale);
    ArrangeKeeps(stale);
    stale := Arrange(stale);
  }

  lemma {:induction false} NextTick(ticks: seq<Numbered>, i: nat, last: map<string, LastSeen>, before: map<string, StaleRun>,
                 rows: map<string, Row>, open: map<string, StaleRun>, stale: seq<StaleRun>)
    requires i < |ticks| && RecordedBut(ticks, i, last, before, {})
    requires FilledBut(ticks, i, rows, before, open, {})
    requires ReportedBut(ticks, i, before, stale, {})
    ensures forall joint :: Current(ticks, joint, i + 1, Lookup(last, joint), Lookup(open, joint))
    ensures Reported(ticks, i + 1, open, stale)
    ensures IsFilled(ticks, i, Tick(ticks[i].tick.tMs, rows))
  {
    EndedNext(ticks, i);
    forall joint
      ensures Lookup(rows, joint) == Filled(ticks, joint, i)
      ensures Current(ticks, joint, i + 1, Lookup(last, joint), Lookup(open, joint))
      ensures SumTicks(stale, joint) + TicksOf(Lookup(open, joint)) == DroppedTicks(ticks, joint, i + 1)
    {
      assert Recorded(ticks, joint, i, Lookup(last, joint), Lookup(before, joint));
      assert FilledIn(ticks, joint, i, Lookup(rows, joint), Lookup(before, joint), Lookup(open, joint));
    }
  }

  /** Report the runs still open at the end of the trace. */
  method CloseAll(ticks: seq<Numbered>, open: map<string, StaleRun>, stale: seq<StaleRun>) returns (all: seq<StaleRun>)
    requires forall joint :: Lookup(open, joint) == RunAt(ticks, joint, |ticks|, None)
    requires Reported(ticks, |ticks|, open, stale)
    ensures forall run :: run in all <==> IsRun(ticks, run)
    ensures forall joint :: SumTicks(all, joint) == DroppedTicks(ticks, joint, |ticks|)
  {
    all := stale;
    var todo := open.Keys;
    while todo != {}
      invariant todo <= open.Keys
      invariant forall run :: run in all <==> run in stale || (run.joint !in todo && Lookup(open, run.joint) == Some(run))
      invariant forall joint ::
                  SumTicks(all, joint) == SumTicks(stale, joint) + (if joint in todo then 0 else TicksOf(Lookup(open, joint)))
    {
      var joint :| joint in todo;
      assert Lookup(open, joint) == RunAt(ticks, joint, |ticks|, None);
      SumGrows(all, open[joint]);
      all := all + [open[joint]];
      todo := todo - {joint};
    }
  }
}
