/**
  The unified diff that accompanies a proposed URDF or control.yaml: greedy
  alignment, hunks with three lines of context, and a strict reading of the
  POSIX "Diff -u or -U Output Format" that a hunk must satisfy to apply.
 */
module UnifiedDiff {
  import opened Basics

  const CONTEXT: nat := 3

  /** One aligned position: a line of the old text, of the new text, or of both. */
  datatype Op = Op(oldLine: Option<nat>, newLine: Option<nat>)

  /** One line of text with its terminator, if it has one. */
  datatype Line = Line(chars: string)

  datatype BodyLine = Kept(text: Line) | Removed(text: Line) | Added(text: Line)

  datatype Hunk = Hunk(oldStart: nat, oldLen: nat, newStart: nat, newLen: nat, body: seq<BodyLine>)

  // ----- How a patch applies

  function OldSide(body: seq<BodyLine>): seq<Line> {
    if body == [] then []
    else OldSide(body[..|body| - 1]) + (if body[|body| - 1].Added? then [] else [body[|body| - 1].text])
  }

  function NewSide(body: seq<BodyLine>): seq<Line> {
    if body == [] then []
    else NewSide(body[..|body| - 1]) + (if body[|body| - 1].Removed? then [] else [body[|body| - 1].text])
  }

  /** Lines before a range: its first line is 1-based, and an empty range names the line it follows. */
  function LinesBefore(start: nat, len: nat): int {
    if len == 0 then start else start - 1
  }

  /** Old lines consumed and new lines produced so far. */
  datatype Progress = Progress(consumed: nat, produced: seq<Line>)

  /** One hunk applies where its header says, after every earlier one, and to exactly the lines it shows. */
  function ApplyHunk(source: seq<Line>, at: Progress, h: Hunk): Option<Progress> {
    var before, newBefore := LinesBefore(h.oldStart, h.oldLen), LinesBefore(h.newStart, h.newLen);
    if at.consumed <= before && before + h.oldLen <= |source|
       && |OldSide(h.body)| == h.oldLen && |NewSide(h.body)| == h.newLen
       && newBefore == |at.produced| + (before - at.consumed)
       && OldSide(h.body) == source[before..before + h.oldLen] then
      Some(Progress(before + h.oldLen, at.produced + source[at.consumed..before] + NewSide(h.body)))
    else None
  }

  function ApplyHunks(source: seq<Line>, hunks: seq<Hunk>): Option<Progress> {
    if hunks == [] then Some(Progress(0, []))
    else
      match ApplyHunks(source, hunks[..|hunks| - 1])
      case None => None
      case Some(at) => ApplyHunk(source, at, hunks[|hunks| - 1])
  }

  function Patched(source: seq<Line>, hunks: seq<Hunk>): Option<seq<Line>> {
    match ApplyHunks(source, hunks)
    case None => None
    case Some(at) => if at.consumed <= |source| then Some(at.produced + source[at.consumed..]) else None
  }

  // ----- Alignment

  /** Old lines among the first `k` aligned positions. */
  function OldCount(ops: seq<Op>, k: nat): nat
    requires k <= |ops|
  {
    if k == 0 then 0 else OldCount(ops, k - 1) + (if ops[k - 1].oldLine.Some? then 1 else 0)
  }

  function NewCount(ops: seq<Op>, k: nat): nat
    requires k <= |ops|
  {
    if k == 0 then 0 else NewCount(ops, k - 1) + (if ops[k - 1].newLine.Some? then 1 else 0)
  }

  /** Position `k` holds the next line of each side it has. */
  predicate NextLines(ops: seq<Op>, k: nat)
    requires k < |ops|
  {
    && (ops[k].oldLine.Some? || ops[k].newLine.Some?)
    && (ops[k].oldLine.Some? ==> ops[k].oldLine.value == OldCount(ops, k))
    && (ops[k].newLine.Some? ==> ops[k].newLine.value == NewCount(ops, k))
  }

  /** Every line of both sides is passed over exactly once, in order. */
  ghost predicate Aligned(a: seq<Line>, b: seq<Line>, ops: seq<Op>) {
    && (forall k: nat | k < |ops| :: NextLines(ops, k))
    && OldCount(ops, |ops|) == |a| && NewCount(ops, |ops|) == |b|
  }

  predicate Same(a: seq<Line>, b: seq<Line>, op: Op) {
    && op.oldLine.Some? && op.newLine.Some? && op.oldLine.value < |a| && op.newLine.value < |b|
    && a[op.oldLine.value] == b[op.newLine.value]
  }

  /**
    Position `k` passes over no old line exactly when none is left, or the new
    line differs from it and the one after the new line does not: an insertion.
    It passes over no new line exactly when none is left.
   */
  ghost predicate Greedy(a: seq<Line>, b: seq<Line>, ops: seq<Op>, k: nat)
    requires k < |ops|
  {
    var i, j := OldCount(ops, k), NewCount(ops, k);
    && (ops[k].oldLine.None? <==>
          j < |b| && (i >= |a| || (a[i] != b[j] && j + 1 < |b| && b[j + 1] == a[i])))
    && (ops[k].newLine.None? <==> j >= |b|)
  }

  lemma {:induction false} CountsOfPrefix(ops: seq<Op>, op: Op, k: nat)
    requires k <= |ops|
    ensures OldCount(ops + [op], k) == OldCount(ops, k) && NewCount(ops + [op], k) == NewCount(ops, k)
  {
    if k > 0 {
      CountsOfPrefix(ops, op, k - 1);
    }
  }

  lemma {:induction false} CountsGrow(ops: seq<Op>, s: nat, e: nat)
    requires s <= e <= |ops|
    ensures OldCount(ops, s) <= OldCount(ops, e) && NewCount(ops, s) <= NewCount(ops, e)
  {
    if s < e {
      CountsGrow(ops, s, e - 1);
    }
  }

  lemma {:induction false} AlignedGrows(ops: seq<Op>, op: Op)
    requires forall k: nat | k < |ops| :: NextLines(ops, k)
    requires op.oldLine.Some? || op.newLine.Some?
    requires op.oldLine.Some? ==> op.oldLine.value == OldCount(ops, |ops|)
    requires op.newLine.Some? ==> op.newLine.value == NewCount(ops, |ops|)
    ensures forall k: nat | k < |ops + [op]| :: NextLines(ops + [op], k)
    ensures OldCount(ops + [op], |ops| + 1) == OldCount(ops, |ops|) + (if op.oldLine.Some? then 1 else 0)
    ensures NewCount(ops + [op], |ops| + 1) == NewCount(ops, |ops|) + (if op.newLine.Some? then 1 else 0)
  {
    forall k: nat | k < |ops + [op]| ensures NextLines(ops + [op], k) {
      CountsOfPrefix(ops, op, k);
      assert k < |ops| ==> NextLines(ops, k);
    }
    CountsOfPrefix(ops, op, |ops|);
  }

  lemma {:induction false} GreedyGrows(a: seq<Line>, b: seq<Line>, ops: seq<Op>, op: Op)
    requires forall k: nat | k < |ops| :: Greedy(a, b, ops, k)
    ensures forall k: nat | k < |ops| :: Greedy(a, b, ops + [op], k)
    ensures OldCount(ops + [op], |ops|) == OldCount(ops, |ops|) && NewCount(ops + [op], |ops|) == NewCount(ops, |ops|)
  {
    forall k: nat | k < |ops| ensures Greedy(a, b, ops + [op], k) {
      CountsOfPrefix(ops, op, k);
      assert Greedy(a, b, ops, k);
    }
    CountsOfPrefix(ops, op, |ops|);
  }

  /** Greedy alignment: a mismatch followed by the old line is an insertion, any other a replacement. */
  method Align(a: seq<Line>, b: seq<Line>) returns (ops: seq<Op>)
    ensures Aligned(a, b, ops) && forall k: nat | k < |ops| :: Greedy(a, b, ops, k)
    ensures a == b ==> forall k | 0 <= k < |ops| :: Same(a, b, ops[k])
  {
    ops := [];
    var i, j := 0, 0;
    while i < |a| || j < |b|
      invariant 0 <= i <= |a| && 0 <= j <= |b|
      invariant forall k: nat | k < |ops| :: NextLines(ops, k) && Greedy(a, b, ops, k)
      invariant OldCount(ops, |ops|) == i && NewCount(ops, |ops|) == j
      invariant a == b ==> i == j && forall k | 0 <= k < |ops| :: Same(a, b, ops[k])
      decreases |a| - i + |b| - j
    {
      var op :=
        if i < |a| && j < |b| then
          if a[i] == b[j] then Op(Some(i), Some(j))
          else if j + 1 < |b| && b[j + 1] == a[i] then Op(None, Some(j))
          else Op(Some(i), Some(j))
        else if j < |b| then Op(None, Some(j))
        else Op(Some(i), None);
      AlignedGrows(ops, op);
      GreedyGrows(a, b, ops, op);
      i := i + if op.oldLine.Some? then 1 else 0;
      j := j + if op.newLine.Some? then 1 else 0;
      ops := ops + [op];
    }
  }

  // ----- Hunks

  lemma {:induction false} SliceGrows(s: seq<Line>, from: nat, to: nat)
    requires from <= to < |s|
    ensures s[from..to + 1] == s[from..to] + [s[to]]
  {
  }

  /** Lines shown as common to both sides. */
  ghost function KeptIn(body: seq<BodyLine>): nat {
    if body == [] then 0 else KeptIn(body[..|body| - 1]) + (if body[|body| - 1].Kept? then 1 else 0)
  }

  lemma {:induction false} SideGrows(body: seq<BodyLine>, line: BodyLine)
    ensures OldSide(body + [line]) == OldSide(body) + (if line.Added? then [] else [line.text])
    ensures NewSide(body + [line]) == NewSide(body) + (if line.Removed? then [] else [line.text])
    ensures KeptIn(body + [line]) == KeptIn(body) + (if line.Kept? then 1 else 0)
  {
    assert (body + [line])[..|body|] == body;
  }

  /** The hunk shows exactly the old and the new lines of ops[s..e], numbered from one. */
  ghost predicate Shows(a: seq<Line>, b: seq<Line>, ops: seq<Op>, h: Hunk, s: nat, e: nat)
    requires s <= e <= |ops|
  {
    var oldAt, oldEnd, newAt, newEnd := OldCount(ops, s), OldCount(ops, e), NewCount(ops, s), NewCount(ops, e);
    && oldAt <= oldEnd <= |a| && newAt <= newEnd <= |b|
    && h.oldStart == oldAt + 1 && h.oldLen == oldEnd - oldAt && h.newStart == newAt + 1 && h.newLen == newEnd - newAt
    && OldSide(h.body) == a[oldAt..oldEnd] && NewSide(h.body) == b[newAt..newEnd]
  }

  /** Positions of [s, e) with the same line on both sides. */
  ghost function SameIn(a: seq<Line>, b: seq<Line>, ops: seq<Op>, s: nat, e: nat): nat
    requires e <= |ops|
  {
    if e <= s then 0 else SameIn(a, b, ops, s, e - 1) + (if Same(a, b, ops[e - 1]) then 1 else 0)
  }

  lemma {:induction false} KeptAppends(xs: seq<BodyLine>, ys: seq<BodyLine>)
    ensures KeptIn(xs + ys) == KeptIn(xs) + KeptIn(ys)
  {
    if ys == [] {
      assert xs + ys == xs;
    } else {
      KeptAppends(xs, ys[..|ys| - 1]);
      assert (xs + ys)[..|xs + ys| - 1] == xs + ys[..|ys| - 1];
    }
  }

  /** The lines printed for one aligned position. */
  method PrintOp(a: seq<Line>, b: seq<Line>, op: Op) returns (lines: seq<BodyLine>)
    requires op.oldLine.Some? ==> op.oldLine.value < |a|
    requires op.newLine.Some? ==> op.newLine.value < |b|
    ensures OldSide(lines) == if op.oldLine.Some? then [a[op.oldLine.value]] else []
    ensures NewSide(lines) == if op.newLine.Some? then [b[op.newLine.value]] else []
    ensures KeptIn(lines) == if Same(a, b, op) then 1 else 0
  {
    if Same(a, b, op) {
      SideGrows([], Kept(a[op.oldLine.value]));
      return [Kept(a[op.oldLine.value])];
    }
    lines := [];
    if op.oldLine.Some? {
      SideGrows(lines, Removed(a[op.oldLine.value]));
      lines := lines + [Removed(a[op.oldLine.value])];
    }
    if op.newLine.Some? {
      SideGrows(lines, Added(b[op.newLine.value]));
      lines := lines + [Added(b[op.newLine.value])];
    }
  }

  lemma {:induction false} SidesAppend(xs: seq<BodyLine>, ys: seq<BodyLine>)
    ensures OldSide(xs + ys) == OldSide(xs) + OldSide(ys)
    ensures NewSide(xs + ys) == NewSide(xs) + NewSide(ys)
  {
    if ys == [] {
      assert xs + ys == xs;
    } else {
      var front, last := ys[..|ys| - 1], ys[|ys| - 1];
      assert xs + ys == (xs + front) + [last];
      SidesAppend(xs, front);
      SideGrows(xs + front, last);
    }
  }

  /** The lines printed for ops[start..k]: those of both sides, as common where they are the same. */
  ghost predicate PrintedTo(a: seq<Line>, b: seq<Line>, ops: seq<Op>, start: nat, k: nat, body: seq<BodyLine>)
    requires start <= k <= |ops|
  {
    && OldCount(ops, start) <= OldCount(ops, k) <= |a| && NewCount(ops, start) <= NewCount(ops, k) <= |b|
    && KeptIn(body) == SameIn(a, b, ops, start, k)
    && OldSide(body) == a[OldCount(ops, start)..OldCount(ops, k)]
    && NewSide(body) == b[NewCount(ops, start)..NewCount(ops, k)]
  }

  /** A slice goes on with the next line, or stays when there is none to add. */
  lemma {:induction false} SliceGoesOn(s: seq<Line>, from: nat, to: nat, more: seq<Line>, next: nat)
    requires from <= to <= next <= |s|
    requires if next == to then more == [] else next == to + 1 && more == [s[to]]
    ensures s[from..to] + more == s[from..next]
  {
  }

  lemma {:induction false} BodyGrows(a: seq<Line>, b: seq<Line>, ops: seq<Op>, start: nat, k: nat, body: seq<BodyLine>, lines: seq<BodyLine>)
    requires start <= k < |ops| && PrintedTo(a, b, ops, start, k, body)
    requires OldCount(ops, k + 1) <= |a| && NewCount(ops, k + 1) <= |b|
    requires OldSide(lines) == if ops[k].oldLine.Some? then [a[OldCount(ops, k)]] else []
    requires NewSide(lines) == if ops[k].newLine.Some? then [b[NewCount(ops, k)]] else []
    requires KeptIn(lines) == if Same(a, b, ops[k]) then 1 else 0
    ensures PrintedTo(a, b, ops, start, k + 1, body + lines)
  {
    SliceGoesOn(a, OldCount(ops, start), OldCount(ops, k), OldSide(lines), OldCount(ops, k + 1));
    SliceGoesOn(b, NewCount(ops, start), NewCount(ops, k), NewSide(lines), NewCount(ops, k + 1));
    SidesAppend(body, lines);
    KeptAppends(body, lines);
  }

  method PrintNext(a: seq<Line>, b: seq<Line>, ops: seq<Op>, ghost start: nat, k: nat, body: seq<BodyLine>) returns (more: seq<BodyLine>)
    requires Aligned(a, b, ops) && start <= k < |ops| && PrintedTo(a, b, ops, start, k, body)
    ensures PrintedTo(a, b, ops, start, k + 1, more)
  {
    assert NextLines(ops, k);
    CountsGrow(ops, k + 1, |ops|);
    var lines := PrintOp(a, b, ops[k]);
    BodyGrows(a, b, ops, start, k, body, lines);
    more := body + lines;
  }

  /** The hunk printed for ops[start..end]. */
  method PrintHunk(a: seq<Line>, b: seq<Line>, ops: seq<Op>, start: nat, end: nat) returns (h: Hunk)
    requires Aligned(a, b, ops) && start <= end <= |ops|
    ensures Shows(a, b, ops, h, start, end) && KeptIn(h.body) == SameIn(a, b, ops, start, end)
  {
    var body := [];
    CountsGrow(ops, start, |ops|);
    NothingPrinted(a, b, ops, start);
    for k := start to end
      invariant PrintedTo(a, b, ops, start, k, body)
    {
      body := PrintNext(a, b, ops, start, k, body);
    }
    h := Hunk(OldCount(ops, start) + 1, OldCount(ops, end) - OldCount(ops, start),
              NewCount(ops, start) + 1, NewCount(ops, end) - NewCount(ops, start), body);
  }

  lemma {:induction false} NothingPrinted(a: seq<Line>, b: seq<Line>, ops: seq<Op>, start: nat)
    requires start <= |ops| && OldCount(ops, start) <= |a| && NewCount(ops, start) <= |b|
    ensures PrintedTo(a, b, ops, start, start, [])
  {
  }

  ghost predicate AllSame(a: seq<Line>, b: seq<Line>, ops: seq<Op>, from: nat, to: nat) {
    forall k | from <= k < to && k < |ops| :: Same(a, b, ops[k])
  }

  /** Where nothing changed, the old lines are the new lines. */
  lemma {:induction false} UnchangedStretch(a: seq<Line>, b: seq<Line>, ops: seq<Op>, s: nat, e: nat)
    requires Aligned(a, b, ops) && s <= e <= |ops| && AllSame(a, b, ops, s, e)
    ensures OldCount(ops, s) <= OldCount(ops, e) <= |a| && NewCount(ops, s) <= NewCount(ops, e) <= |b|
    ensures a[OldCount(ops, s)..OldCount(ops, e)] == b[NewCount(ops, s)..NewCount(ops, e)]
  {
    CountsGrow(ops, s, e);
    CountsGrow(ops, e, |ops|);
    if s < e {
      UnchangedStretch(a, b, ops, s, e - 1);
      assert NextLines(ops, e - 1) && Same(a, b, ops[e - 1]);
      SliceGrows(a, OldCount(ops, s), OldCount(ops, e - 1));
      SliceGrows(b, NewCount(ops, s), NewCount(ops, e - 1));
    }
  }

  /** The patch stands after ops[..end]. */
  ghost predicate StandsAt(a: seq<Line>, b: seq<Line>, ops: seq<Op>, hunks: seq<Hunk>, end: nat)
    requires end <= |ops|
  {
    NewCount(ops, end) <= |b|
    && ApplyHunks(a, hunks) == Some(Progress(OldCount(ops, end), b[..NewCount(ops, end)]))
  }

  /** One hunk with a line on both sides moves the patch on by the lines it shows. */
  lemma {:induction false} HunkApplies(a: seq<Line>, b: seq<Line>, h: Hunk,
                    oldFrom: nat, oldAt: nat, oldEnd: nat, newFrom: nat, newAt: nat, newEnd: nat)
    requires oldFrom <= oldAt < oldEnd <= |a| && newFrom <= newAt < newEnd <= |b|
    requires h.oldStart == oldAt + 1 && h.oldLen == oldEnd - oldAt && h.newStart == newAt + 1 && h.newLen == newEnd - newAt
    requires a[oldFrom..oldAt] == b[newFrom..newAt]
    requires OldSide(h.body) == a[oldAt..oldEnd] && NewSide(h.body) == b[newAt..newEnd]
    ensures ApplyHunk(a, Progress(oldFrom, b[..newFrom]), h) == Some(Progress(oldEnd, b[..newEnd]))
  {
    assert b[..newEnd] == b[..newFrom] + b[newFrom..newAt] + b[newAt..newEnd];
  }

  // ----- Grouping changes into hunks

  predicate Increasing(changed: seq<nat>, limit: nat) {
    && (forall x, y | 0 <= x < y < |changed| :: changed[x] < changed[y])
    && forall x | 0 <= x < |changed| :: changed[x] < limit
  }

  /** `changed` lists the aligned positions that differ, in order. */
  ghost predicate ListsChanges(a: seq<Line>, b: seq<Line>, ops: seq<Op>, changed: seq<nat>) {
    && Increasing(changed, |ops|)
    && forall k: nat | k < |ops| :: k in changed <==> !Same(a, b, ops[k])
  }

  method ChangedIndices(a: seq<Line>, b: seq<Line>, ops: seq<Op>) returns (changed: seq<nat>)
    ensures ListsChanges(a, b, ops, changed)
  {
    changed := [];
    for k := 0 to |ops|
      invariant Increasing(changed, k)
      invariant forall i: nat | i < k :: i in changed <==> !Same(a, b, ops[i])
    {
      if !Same(a, b, ops[k]) {
        changed := changed + [k];
      }
    }
  }

  /** The last change of the hunk that begins with change `c`: the next one is too far to share context. */
  method GroupEnd(changed: seq<nat>, c: nat) returns (last: nat)
    requires c < |changed|
    ensures c <= last < |changed|
    ensures last + 1 < |changed| ==> changed[last] + 7 < changed[last + 1]
    ensures forall x | c <= x < last :: changed[x + 1] <= changed[x] + 7
  {
    last := c;
    while last + 1 < |changed| && changed[last + 1] <= changed[last] + 2 * CONTEXT + 1
      invariant c <= last < |changed| && forall x | c <= x < last :: changed[x + 1] <= changed[x] + 7
    {
      last := last + 1;
    }
  }

  /** Nothing differs strictly between two consecutive changes. */
  lemma {:induction false} Quiet(a: seq<Line>, b: seq<Line>, ops: seq<Op>, changed: seq<nat>, c: nat, from: nat, to: nat)
    requires ListsChanges(a, b, ops, changed) && c <= |changed|
    requires (c > 0 ==> changed[c - 1] < from) && (c < |changed| ==> to <= changed[c])
    ensures AllSame(a, b, ops, from, to)
  {
    forall k: nat | from <= k < to && k < |ops| ensures Same(a, b, ops[k]) {
      assert k !in changed;
    }
  }

  /** Both texts are empty or neither is. */
  predicate BothOrNeitherEmpty(a: seq<Line>, b: seq<Line>) {
    a == [] <==> b == []
  }

  /** With context, a hunk shows a line of each side unless one whole text is empty. */
  lemma {:induction false} HunkShowsBothSides(a: seq<Line>, b: seq<Line>, ops: seq<Op>, start: nat, end: nat)
    requires Aligned(a, b, ops) && start < end <= |ops| && BothOrNeitherEmpty(a, b)
    requires start == 0 || Same(a, b, ops[start])
    requires end == |ops| || Same(a, b, ops[end - 1])
    ensures OldCount(ops, start) < OldCount(ops, end) && NewCount(ops, start) < NewCount(ops, end)
  {
    CountsGrow(ops, start, start + 1);
    CountsGrow(ops, start + 1, end);
    CountsGrow(ops, start, end - 1);
    CountsGrow(ops, end, |ops|);
    assert NextLines(ops, start);
  }

  /** Adding one hunk to a patch that stands at `from`. */
  lemma {:induction false} PatchGrows(a: seq<Line>, b: seq<Line>, ops: seq<Op>, hunks: seq<Hunk>, h: Hunk, from: nat, start: nat, stop: nat)
    requires Aligned(a, b, ops) && BothOrNeitherEmpty(a, b) && from <= start < stop <= |ops|
    requires AllSame(a, b, ops, from, start) && StandsAt(a, b, ops, hunks, from) && Shows(a, b, ops, h, start, stop)
    requires start == 0 || Same(a, b, ops[start])
    requires stop == |ops| || Same(a, b, ops[stop - 1])
    ensures StandsAt(a, b, ops, hunks + [h], stop)
  {
    HunkShowsBothSides(a, b, ops, start, stop);
    UnchangedStretch(a, b, ops, from, start);
    HunkApplies(a, b, h, OldCount(ops, from), OldCount(ops, start), OldCount(ops, stop),
                NewCount(ops, from), NewCount(ops, start), NewCount(ops, stop));
    OneMoreHunk(a, hunks, h);
  }

  lemma {:induction false} OneMoreHunk(a: seq<Line>, hunks: seq<Hunk>, h: Hunk)
    ensures ApplyHunks(a, hunks + [h])
            == if ApplyHunks(a, hunks).None? then None else ApplyHunk(a, ApplyHunks(a, hunks).value, h)
  {
    assert (hunks + [h])[..|hunks|] == hunks;
  }

  /** One group of changes, with its context, becomes one more hunk. */
  lemma {:induction false} GroupGrows(a: seq<Line>, b: seq<Line>, ops: seq<Op>, changed: seq<nat>, hunks: seq<Hunk>, h: Hunk,
                   c: nat, last: nat, from: nat, start: nat, stop: nat)
    requires Aligned(a, b, ops) && ListsChanges(a, b, ops, changed) && c <= last < |changed|
    requires start == (if changed[c] < CONTEXT then 0 else changed[c] - CONTEXT) && from <= start
    requires stop == (if changed[last] + CONTEXT + 1 < |ops| then changed[last] + CONTEXT + 1 else |ops|)
    requires last + 1 < |changed| ==> changed[last] + 2 * CONTEXT + 1 < changed[last + 1]
    requires c > 0 ==> changed[c - 1] < from
    requires start <= stop && Shows(a, b, ops, h, start, stop)
    requires BothOrNeitherEmpty(a, b) && StandsAt(a, b, ops, hunks, from)
    ensures StandsAt(a, b, ops, hunks + [h], stop)
  {
    assert changed[c] <= changed[last] < |ops|;
    Quiet(a, b, ops, changed, c, from, changed[c]);
    Quiet(a, b, ops, changed, last + 1, changed[last] + 1, stop);
    PatchGrows(a, b, ops, hunks, h, from, start, stop);
  }

  /** A hunk of a one-sided text does not apply: its empty range should name the line before it and names line 1. */
  lemma {:induction false} OneSidedHunkFails(a: seq<Line>, b: seq<Line>, ops: seq<Op>, h: Hunk, end: nat)
    requires Aligned(a, b, ops) && !BothOrNeitherEmpty(a, b) && 0 < end <= |ops| && Shows(a, b, ops, h, 0, end)
    ensures ApplyHunk(a, Progress(0, []), h) == None
  {
    CountsGrow(ops, 1, end);
    assert NextLines(ops, 0);
  }

  lemma {:induction false} PatchEnds(a: seq<Line>, b: seq<Line>, ops: seq<Op>, hunks: seq<Hunk>, end: nat)
    requires Aligned(a, b, ops) && end <= |ops|
    requires AllSame(a, b, ops, end, |ops|) && StandsAt(a, b, ops, hunks, end)
    ensures Patched(a, hunks) == Some(b)
  {
    UnchangedStretch(a, b, ops, end, |ops|);
    assert a[OldCount(ops, end)..] == a[OldCount(ops, end)..|a|];
    assert b == b[..NewCount(ops, end)] + b[NewCount(ops, end)..|b|];
  }

  /** When one text is empty every position differs, so the first change is the first position. */
  lemma {:induction false} OneSidedChangesAtOnce(a: seq<Line>, b: seq<Line>, ops: seq<Op>, changed: seq<nat>)
    requires Aligned(a, b, ops) && ListsChanges(a, b, ops, changed) && !BothOrNeitherEmpty(a, b)
    ensures changed != [] && changed[0] == 0
  {
    assert ops != [] && !Same(a, b, ops[0]);
    assert 0 in changed;
  }

  /** The first `c` changes are behind the hunks printed so far, which end at position `end`. */
  ghost predicate Printed(a: seq<Line>, b: seq<Line>, ops: seq<Op>, changed: seq<nat>, hunks: seq<Hunk>, c: nat, end: nat) {
    && c <= |changed| && end <= |ops|
    && (hunks == [] <==> c == 0) && (c == 0 ==> end == 0)
    && (c > 0 ==> changed[c - 1] < end <= changed[c - 1] + CONTEXT + 1)
    && (0 < c < |changed| ==> changed[c - 1] + 2 * CONTEXT + 1 < changed[c])
    && (BothOrNeitherEmpty(a, b) ==> StandsAt(a, b, ops, hunks, end))
    && (!BothOrNeitherEmpty(a, b) && c > 0 ==> ApplyHunks(a, hunks) == None)
  }

  lemma {:induction false} PrintedGrows(a: seq<Line>, b: seq<Line>, ops: seq<Op>, changed: seq<nat>, hunks: seq<Hunk>, h: Hunk,
                     c: nat, last: nat, end: nat, start: nat, stop: nat)
    requires Aligned(a, b, ops) && ListsChanges(a, b, ops, changed) && c <= last < |changed|
    requires start == (if changed[c] < CONTEXT then 0 else changed[c] - CONTEXT)
    requires stop == (if changed[last] + CONTEXT + 1 < |ops| then changed[last] + CONTEXT + 1 else |ops|)
    requires last + 1 < |changed| ==> changed[last] + 2 * CONTEXT + 1 < changed[last + 1]
    requires start <= stop && Shows(a, b, ops, h, start, stop)
    requires Printed(a, b, ops, changed, hunks, c, end)
    ensures Printed(a, b, ops, changed, hunks + [h], last + 1, stop)
  {
    if BothOrNeitherEmpty(a, b) {
      GroupGrows(a, b, ops, changed, hunks, h, c, last, end, start, stop);
    } else {
      OneSidedChangesAtOnce(a, b, ops, changed);
      OneMoreHunk(a, hunks, h);
      if c == 0 {
        OneSidedHunkFails(a, b, ops, h, stop);
      }
    }
  }

  lemma {:induction false} PrintedAll(a: seq<Line>, b: seq<Line>, ops: seq<Op>, changed: seq<nat>, hunks: seq<Hunk>, end: nat)
    requires Aligned(a, b, ops) && ListsChanges(a, b, ops, changed)
    requires Printed(a, b, ops, changed, hunks, |changed|, end)
    ensures Patched(a, hunks) == (if BothOrNeitherEmpty(a, b) then Some(b) else None)
    ensures hunks == [] ==> a == b
  {
    if BothOrNeitherEmpty(a, b) {
      Quiet(a, b, ops, changed, |changed|, end, |ops|);
      PatchEnds(a, b, ops, hunks, end);
      if hunks == [] {
        assert Patched(a, hunks) == Some(a);
      }
    } else {
      OneSidedChangesAtOnce(a, b, ops, changed);
    }
  }

  // ----- What the hunks show

  /** A stretch of aligned positions. */
  datatype Range = Range(from: nat, to: nat)

  ghost predicate InSome(ranges: seq<Range>, k: int) {
    exists n :: 0 <= n < |ranges| && ranges[n].from <= k < ranges[n].to
  }

  /** Some position at most three away differs. */
  ghost predicate NearChange(a: seq<Line>, b: seq<Line>, ops: seq<Op>, k: int) {
    exists c: nat :: c < |ops| && !Same(a, b, ops[c]) && k - 3 <= c <= k + 3
  }

  /** The hunk shows the stretch: its lines on both sides, as common exactly where they are the same. */
  ghost predicate ShowsRange(a: seq<Line>, b: seq<Line>, ops: seq<Op>, h: Hunk, range: Range) {
    && range.from < range.to <= |ops| && Shows(a, b, ops, h, range.from, range.to)
    && KeptIn(h.body) == SameIn(a, b, ops, range.from, range.to)
  }

  /** The hunks show the positions at most three from a change, and each is a longest stretch of them. */
  ghost predicate Hunked(a: seq<Line>, b: seq<Line>, ops: seq<Op>, hunks: seq<Hunk>, ranges: seq<Range>) {
    && Apart(a, b, ops, hunks, ranges)
    && forall k: nat | k < |ops| :: InSome(ranges, k) <==> NearChange(a, b, ops, k)
  }

  ghost predicate Apart(a: seq<Line>, b: seq<Line>, ops: seq<Op>, hunks: seq<Hunk>, ranges: seq<Range>) {
    && |ranges| == |hunks|
    && (forall n: nat | n < |hunks| :: ShowsRange(a, b, ops, hunks[n], ranges[n]))
    && forall n, m | 0 <= n < m < |ranges| :: ranges[n].to < ranges[m].from
  }

  /** One of the first `c` changes is at most three positions from `k`. */
  ghost predicate NearListed(changed: seq<nat>, c: nat, k: int) {
    exists x :: 0 <= x < c && x < |changed| && k - 3 <= changed[x] <= k + 3
  }

  lemma {:induction false} ListedIsNear(a: seq<Line>, b: seq<Line>, ops: seq<Op>, changed: seq<nat>, k: int)
    requires ListsChanges(a, b, ops, changed)
    ensures NearListed(changed, |changed|, k) <==> NearChange(a, b, ops, k)
  {
    if NearListed(changed, |changed|, k) {
      var x :| 0 <= x < |changed| && k - 3 <= changed[x] <= k + 3;
      assert changed[x] in changed && !Same(a, b, ops[changed[x]]);
    }
    if NearChange(a, b, ops, k) {
      var c: nat :| c < |ops| && !Same(a, b, ops[c]) && k - 3 <= c <= k + 3;
      assert c in changed;
      var x :| 0 <= x < |changed| && changed[x] == c;
    }
  }

  /** Changes at most seven apart leave no position between them more than three away. */
  lemma {:induction false} GroupIsNear(changed: seq<nat>, c: nat, last: nat, k: int)
    requires c <= last < |changed| && (forall x | c <= x < last :: changed[x + 1] <= changed[x] + 7)
    requires changed[c] - 3 <= k <= changed[last] + 3
    ensures exists x :: c <= x <= last && k - 3 <= changed[x] <= k + 3
  {
    if changed[last] <= k + 3 {
      assert k - 3 <= changed[last] <= k + 3;
    } else {
      GroupIsNear(changed, c, last - 1, k);
    }
  }

  /** The ranges so far cover what is near the first `c` changes; the next group adds what is near its own. */
  lemma {:induction false} CoverGrows(changed: seq<nat>, n: nat, ranges: seq<Range>, range: Range, c: nat, last: nat, k: nat)
    requires Increasing(changed, n) && c <= last < |changed| && k < n
    requires forall x | c <= x < last :: changed[x + 1] <= changed[x] + 7
    requires range.from == (if changed[c] < 3 then 0 else changed[c] - 3)
    requires range.to == (if changed[last] + 4 < n then changed[last] + 4 else n)
    requires InSome(ranges, k) <==> NearListed(changed, c, k)
    ensures InSome(ranges + [range], k) <==> NearListed(changed, last + 1, k)
  {
    var more := ranges + [range];
    if InSome(ranges, k) {
      var i :| 0 <= i < |ranges| && ranges[i].from <= k < ranges[i].to;
      assert more[i] == ranges[i];
    }
    if range.from <= k < range.to {
      assert more[|ranges|] == range;
      GroupIsNear(changed, c, last, k);
    }
    if NearListed(changed, last + 1, k) && !NearListed(changed, c, k) {
      var x :| 0 <= x < last + 1 && k - 3 <= changed[x] <= k + 3;
      assert changed[c] <= changed[x] <= changed[last];
    }
    if InSome(more, k) && !InSome(ranges, k) {
      var i :| 0 <= i < |more| && more[i].from <= k < more[i].to;
      assert i == |ranges|;
    }
  }

  lemma {:induction false} ApartGrows(a: seq<Line>, b: seq<Line>, ops: seq<Op>, hunks: seq<Hunk>, ranges: seq<Range>, h: Hunk, range: Range)
    requires Apart(a, b, ops, hunks, ranges) && ShowsRange(a, b, ops, h, range)
    requires ranges != [] ==> ranges[|ranges| - 1].to < range.from
    ensures Apart(a, b, ops, hunks + [h], ranges + [range])
  {
    forall n, m | 0 <= n < m < |ranges| + 1 ensures (ranges + [range])[n].to < (ranges + [range])[m].from {
      if m == |ranges| && n < m - 1 {
        assert ShowsRange(a, b, ops, hunks[m - 1], ranges[m - 1]);
        assert ranges[n].to < ranges[m - 1].from < ranges[m - 1].to;
      }
    }
  }

  /** The hunks of the first `c` changes, the last of which ends at position `end`. */
  ghost predicate HunkedTo(a: seq<Line>, b: seq<Line>, ops: seq<Op>, changed: seq<nat>, hunks: seq<Hunk>, ranges: seq<Range>, c: nat, end: nat) {
    && Apart(a, b, ops, hunks, ranges)
    && (ranges != [] ==> ranges[|ranges| - 1].to == end)
    && forall k: nat | k < |ops| :: InSome(ranges, k) <==> NearListed(changed, c, k)
  }

  /** The first `c` changes are behind hunks that apply and that show what they should. */
  ghost predicate DoneTo(a: seq<Line>, b: seq<Line>, ops: seq<Op>, changed: seq<nat>, hunks: seq<Hunk>, ranges: seq<Range>, c: nat, end: nat) {
    Printed(a, b, ops, changed, hunks, c, end) && HunkedTo(a, b, ops, changed, hunks, ranges, c, end)
  }

  lemma {:induction false} HunkedGrows(a: seq<Line>, b: seq<Line>, ops: seq<Op>, changed: seq<nat>, hunks: seq<Hunk>, ranges: seq<Range>,
                    h: Hunk, c: nat, last: nat, end: nat, start: nat, stop: nat)
    requires ListsChanges(a, b, ops, changed) && c <= last < |changed|
    requires start == (if changed[c] < 3 then 0 else changed[c] - 3)
    requires stop == (if changed[last] + 4 < |ops| then changed[last] + 4 else |ops|)
    requires forall x | c <= x < last :: changed[x + 1] <= changed[x] + 7
    requires ShowsRange(a, b, ops, h, Range(start, stop))
    requires c > 0 ==> end <= changed[c - 1] + 4 && changed[c - 1] + 7 < changed[c]
    requires c == 0 ==> ranges == []
    requires HunkedTo(a, b, ops, changed, hunks, ranges, c, end)
    ensures HunkedTo(a, b, ops, changed, hunks + [h], ranges + [Range(start, stop)], last + 1, stop)
  {
    ApartGrows(a, b, ops, hunks, ranges, h, Range(start, stop));
    forall k: nat | k < |ops| ensures InSome(ranges + [Range(start, stop)], k) <==> NearListed(changed, last + 1, k) {
      CoverGrows(changed, |ops|, ranges, Range(start, stop), c, last, k);
    }
  }

  /**
    The diff. Applied strictly to the old lines its hunks give exactly the new
    ones, precisely when both texts are empty or neither is; it is empty exactly
    when the texts are equal; and its hunks are the longest stretches of the greedy
    alignment that lie at most three positions from a change.
   */
  method Diff(a: seq<Line>, b: seq<Line>) returns (hunks: seq<Hunk>, ghost ops: seq<Op>, ghost ranges: seq<Range>)
    ensures Patched(a, hunks) == (if BothOrNeitherEmpty(a, b) then Some(b) else None)
    ensures hunks == [] <==> a == b
    ensures Aligned(a, b, ops) && (forall k: nat | k < |ops| :: Greedy(a, b, ops, k)) && Hunked(a, b, ops, hunks, ranges)
  {
    var aligned := Align(a, b);
    ops := aligned;
    var changed := ChangedIndices(a, b, aligned);
    hunks, ranges := [], [];
    var c := 0;
    ghost var end := 0;
    while c < |changed|
      invariant 0 <= c <= |changed| && 0 <= end && DoneTo(a, b, ops, changed, hunks, ranges, c, end)
    {
      hunks, c, ranges, end := PrintGroup(a, b, aligned, changed, hunks, c, ranges, end);
    }
    PrintedAll(a, b, ops, changed, hunks, end);
    forall k: nat | k < |ops| ensures InSome(ranges, k) <==> NearChange(a, b, ops, k) {
      ListedIsNear(a, b, ops, changed, k);
    }
    if changed != [] {
      assert changed[0] in changed;
    }
  }

  /** Changes `c` to `last`, with three positions around them, are a longest stretch near changes. */
  ghost predicate IsGroup(changed: seq<nat>, n: nat, c: nat, last: nat, start: nat, stop: nat) {
    && c <= last < |changed|
    && start == (if changed[c] < 3 then 0 else changed[c] - 3)
    && stop == (if changed[last] + 4 < n then changed[last] + 4 else n)
    && (forall x | c <= x < last :: changed[x + 1] <= changed[x] + 7)
    && (last + 1 < |changed| ==> changed[last] + 7 < changed[last + 1])
  }

  ghost predicate GroupShown(a: seq<Line>, b: seq<Line>, ops: seq<Op>, changed: seq<nat>, c: nat, last: nat, start: nat, stop: nat, h: Hunk) {
    && Aligned(a, b, ops) && ListsChanges(a, b, ops, changed)
    && IsGroup(changed, |ops|, c, last, start, stop) && ShowsRange(a, b, ops, h, Range(start, stop))
  }

  lemma {:induction false} GroupPrinted(a: seq<Line>, b: seq<Line>, ops: seq<Op>, changed: seq<nat>, hunks: seq<Hunk>, ranges: seq<Range>,
                     h: Hunk, c: nat, last: nat, end: nat, start: nat, stop: nat)
    requires GroupShown(a, b, ops, changed, c, last, start, stop, h)
    requires DoneTo(a, b, ops, changed, hunks, ranges, c, end)
    ensures DoneTo(a, b, ops, changed, hunks + [h], ranges + [Range(start, stop)], last + 1, stop)
  {
    PrintedGrows(a, b, ops, changed, hunks, h, c, last, end, start, stop);
    HunkedGrows(a, b, ops, changed, hunks, ranges, h, c, last, end, start, stop);
  }

  /** The hunk of the group of changes that begins with change `c`, and the stretch it shows. */
  method GroupHunk(a: seq<Line>, b: seq<Line>, ops: seq<Op>, changed: seq<nat>, c: nat)
    returns (hunk: Hunk, last: nat, start: nat, stop: nat)
    requires Aligned(a, b, ops) && ListsChanges(a, b, ops, changed) && c < |changed|
    ensures c <= last < |changed| && GroupShown(a, b, ops, changed, c, last, start, stop, hunk)
  {
    start := if changed[c] < CONTEXT then 0 else changed[c] - CONTEXT;
    last := GroupEnd(changed, c);
    stop := if changed[last] + CONTEXT + 1 < |ops| then changed[last] + CONTEXT + 1 else |ops|;
    assert changed[c] <= changed[last];
    hunk := PrintHunk(a, b, ops, start, stop);
  }

  /** One more hunk, for the group of changes that begins with change `c`. */
  method PrintGroup(a: seq<Line>, b: seq<Line>, ops: seq<Op>, changed: seq<nat>, hunks: seq<Hunk>, c: nat,
                    ghost ranges: seq<Range>, ghost end: nat)
    returns (hunks': seq<Hunk>, c': nat, ghost ranges': seq<Range>, ghost end': nat)
    requires Aligned(a, b, ops) && ListsChanges(a, b, ops, changed) && c < |changed|
    requires DoneTo(a, b, ops, changed, hunks, ranges, c, end)
    ensures c < c' <= |changed| && DoneTo(a, b, ops, changed, hunks', ranges', c', end')
  {
    var hunk, last, start, stop := GroupHunk(a, b, ops, changed, c);
    GroupPrinted(a, b, ops, changed, hunks, ranges, hunk, c, last, end, start, stop);
    hunks', ranges', c', end' := hunks + [hunk], ranges + [Range(start, stop)], last + 1, stop;
  }
}
