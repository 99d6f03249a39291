/**
  The analyzer over whole capture files: every drive on every interface, the MIT
  neutrality count and the bus load, in one pass over the frames.
 */
module CaptureAnalyzer {
  import opened Basics
  import opened DriveTiming
  import opened DriveRuns
  import opened BusLoad

  datatype Key = Key(iface: string, device: nat)

  /** A kernel error frame, a frame that is no drive's, or a frame to or from a drive. */
  datatype Content = KernelError | Unclassified | Wired(device: nat, wire: Wire, neutral: bool)

  datatype CanFrame = CanFrame(t: real, iface: string, content: Content)

  /** Frames in capture order. */
  predicate Captured(frames: seq<CanFrame>) {
    forall i, j | 0 <= i < j < |frames| :: frames[i].t <= frames[j].t
  }

  predicate IsFor(f: CanFrame, key: Key) {
    f.content.Wired? && Key(f.iface, f.content.device) == key
  }

  /** The frames of one drive among the first `n`. */
  function FramesFor(frames: seq<CanFrame>, n: nat, key: Key): seq<Timed>
    requires n <= |frames|
  {
    if n == 0 then []
    else
      var before, f := FramesFor(frames, n - 1, key), frames[n - 1];
      if IsFor(f, key) then before + [Timed(f.t, f.content.wire)] else before
  }

  predicate IsOn(f: CanFrame, iface: string) {
    !f.content.KernelError? && f.iface == iface
  }

  /** Times of the frames on one interface among the first `n`, kernel error frames aside. */
  function TimesOn(frames: seq<CanFrame>, n: nat, iface: string): seq<real>
    requires n <= |frames|
  {
    if n == 0 then []
    else
      var before, f := TimesOn(frames, n - 1, iface), frames[n - 1];
      if IsOn(f, iface) then before + [f.t] else before
  }

  /** Frame `k` comes more than 5 ms after the frame before it on its interface. */
  predicate IsGap(frames: seq<CanFrame>, k: nat)
    requires k < |frames|
  {
    var times := TimesOn(frames, k, frames[k].iface);
    !frames[k].content.KernelError? && times != [] && frames[k].t - times[|times| - 1] > 0.005
  }

  /** Such gaps among the first `n` frames, summed over interfaces. */
  function GapsIn(frames: seq<CanFrame>, n: nat): nat
    requires n <= |frames|
  {
    if n == 0 then 0 else GapsIn(frames, n - 1) + (if IsGap(frames, n - 1) then 1 else 0)
  }

  function LastTime(frames: seq<CanFrame>, n: nat): real
    requires n <= |frames|
  {
    if n == 0 then 0.0 else frames[n - 1].t
  }

  datatype NonNeutral = NonNeutral(count: nat, first: Option<real>, last: Option<real>) {
    function With(at: real): NonNeutral {
      NonNeutral(count + 1, if first.None? then Some(at) else first, Some(at))
    }
  }

  predicate IsNonNeutral(f: CanFrame) {
    f.content.Wired? && f.content.wire == Host(Mit) && !f.content.neutral
  }

  /** The non-neutral MIT commands of a file that starts at `offset` on the timeline, after those in `seen`. */
  function NonNeutralIn(seen: NonNeutral, offset: real, frames: seq<CanFrame>, n: nat): NonNeutral
    requires n <= |frames|
  {
    if n == 0 then seen
    else
      var before := NonNeutralIn(seen, offset, frames, n - 1);
      if IsNonNeutral(frames[n - 1]) then before.With(offset + frames[n - 1].t) else before
  }

  /** `picked` lists, in order, the frames among the first `n` that are MIT commands to a drive and not neutral. */
  ghost predicate PicksNonNeutral(frames: seq<CanFrame>, n: nat, picked: seq<nat>)
    requires n <= |frames|
  {
    && (forall x, y | 0 <= x < y < |picked| :: picked[x] < picked[y])
    && forall k: nat :: k in picked <==>
                        k < n && match frames[k].content
                                 case Wired(_, Host(Mit), neutral) => !neutral
                                 case _ => false
  }

  /** The count grows by the non-neutral commands; the first and the last of all files so far are kept on the timeline. */
  lemma {:induction false} NonNeutralMeans(seen: NonNeutral, offset: real, frames: seq<CanFrame>, n: nat) returns (picked: seq<nat>)
    requires n <= |frames|
    ensures PicksNonNeutral(frames, n, picked) && forall x | 0 <= x < |picked| :: picked[x] < n
    ensures var after := NonNeutralIn(seen, offset, frames, n);
            && after.count == seen.count + |picked|
            && after.first == (if seen.first.Some? || picked == [] then seen.first else Some(offset + frames[picked[0]].t))
            && after.last == if picked == [] then seen.last else Some(offset + frames[picked[|picked| - 1]].t)
  {
    picked := [];
    if n > 0 {
      picked := NonNeutralMeans(seen, offset, frames, n - 1);
      if IsNonNeutral(frames[n - 1]) {
        picked := picked + [n - 1];
      }
    }
  }

  /** The samples of one drive after the file: only its own frames and the end of the file matter. */
  function FileSamples(samples: DriveView, frames: seq<CanFrame>, key: Key): DriveView {
    var own := FramesFor(frames, |frames|, key);
    if own == [] then samples else RunFile(samples, own, LastTime(frames, |frames|))
  }

  lemma {:induction false} TimesAreOrdered(frames: seq<CanFrame>, n: nat, iface: string)
    requires Captured(frames) && n <= |frames|
    ensures Nondecreasing(TimesOn(frames, n, iface))
    ensures forall t | t in TimesOn(frames, n, iface) :: n > 0 && t <= frames[n - 1].t
  {
    if n > 0 {
      TimesAreOrdered(frames, n - 1, iface);
      var times := TimesOn(frames, n - 1, iface);
      assert forall i | 0 <= i < |times| :: times[i] in times;
      if n > 1 {
        assert frames[n - 2].t <= frames[n - 1].t;
      }
    }
  }

  // ----- The drives of one file

  function SamplesOf(samples: map<Key, DriveView>, key: Key): DriveView {
    if key in samples then samples[key] else FRESH
  }

  function DriveOf(drives: map<Key, DriveView>, key: Key): Option<DriveView> {
    if key in drives then Some(drives[key]) else None
  }

  function RunOf(samples: map<Key, DriveView>, frames: seq<CanFrame>, n: nat, key: Key): Option<DriveView>
    requires n <= |frames|
  {
    var own := FramesFor(frames, n, key);
    if own == [] then None else Some(RunFrames(SamplesOf(samples, key).NewFile(), own))
  }

  lemma {:induction false} RunOneMore(d: DriveView, frames: seq<Timed>, e: Timed)
    ensures RunFrames(d, frames + [e]) == Step(RunFrames(d, frames), e)
  {
    assert (frames + [e])[..|frames|] == frames;
  }

  // ----- The interfaces of one file

  function BusOf(buses: map<string, BusState>, iface: string): BusState {
    if iface in buses then buses[iface] else IDLE
  }

  /** The load at the k-th frame of the interface among the first `n`; none when there is no such frame. */
  function LoadOn(frames: seq<CanFrame>, n: nat, iface: string, k: nat): nat
    requires n <= |frames|
  {
    var times := TimesOn(frames, n, iface);
    if k < |times| then Load(times, k) else 0
  }

  lemma {:induction false} RecentOfPrefix(times: seq<real>, t: real, n: nat, now: real)
    requires n <= |times|
    ensures CountRecent(times + [t], n, now) == CountRecent(times, n, now)
  {
    if n > 0 {
      RecentOfPrefix(times, t, n - 1, now);
    }
  }

  lemma {:induction false} LoadNext(frames: seq<CanFrame>, n: nat, iface: string, k: nat)
    requires n < |frames|
    ensures k < |TimesOn(frames, n, iface)| || !IsOn(frames[n], iface) ==>
              LoadOn(frames, n + 1, iface, k) == LoadOn(frames, n, iface, k)
    ensures k > |TimesOn(frames, n, iface)| ==> LoadOn(frames, n + 1, iface, k) == 0
  {
    var times := TimesOn(frames, n, iface);
    if k < |times| {
      RecentOfPrefix(times, frames[n].t, k + 1, times[k]);
    }
  }

  /** `max` is the most frames in any 10 ms window of any interface, or what was reached before the file. */
  ghost predicate MaxWindow(frames: seq<CanFrame>, before: nat, max: nat) {
    && before <= max
    && (forall iface, x :: InWindow(frames, iface, x) <= max)
    && (max == before || exists iface, x :: InWindow(frames, iface, x) == max)
  }

  /** Frames of the interface in the 10 ms from `x` on. */
  function InWindow(frames: seq<CanFrame>, iface: string, x: real): nat {
    var times := TimesOn(frames, |frames|, iface);
    CountIn(times, |times|, x)
  }

  // ----- One pass over a file

  datatype FileState = FileState(drives: map<Key, DriveView>, bus: map<string, BusState>, lastT: real)

  const EMPTY := FileState(map[], map[], 0.0)

  /** The windows of the interfaces and the bus totals. */
  datatype BusTotals = BusTotals(bus: map<string, BusState>, maxFrames: nat, gaps: nat) {
    function On(f: CanFrame): BusTotals {
      var own := BusOf(bus, f.iface);
      var load := |Next(own, f.t).window|;
      if f.content.KernelError? then this
      else BusTotals(bus[f.iface := Next(own, f.t)], if maxFrames < load then load else maxFrames,
                     if EndsGap(own, f.t) then gaps + 1 else gaps)
    }
  }

  function BusTo(start: BusTotals, frames: seq<CanFrame>, n: nat): BusTotals
    requires n <= |frames|
  {
    if n == 0 then start else BusTo(start, frames, n - 1).On(frames[n - 1])
  }

  /** The drives of the file and the neutrality count. */
  datatype DriveTotals = DriveTotals(drives: map<Key, DriveView>, nonNeutral: NonNeutral) {
    function On(samples: map<Key, DriveView>, span: real, f: CanFrame): DriveTotals {
      if !f.content.Wired? then this
      else
        var key := Key(f.iface, f.content.device);
        var d := if key in drives then drives[key] else SamplesOf(samples, key).NewFile();
        DriveTotals(drives[key := Step(d, Timed(f.t, f.content.wire))],
                    if IsNonNeutral(f) then nonNeutral.With(span + f.t) else nonNeutral)
    }
  }

  function DrivesTo(samples: map<Key, DriveView>, span: real, start: DriveTotals, frames: seq<CanFrame>, n: nat): DriveTotals
    requires n <= |frames|
  {
    if n == 0 then start else DrivesTo(samples, span, start, frames, n - 1).On(samples, span, frames[n - 1])
  }

  /** Every drive runs on its own frames only. */
  lemma {:induction false} DriveIsRun(samples: map<Key, DriveView>, span: real, start: DriveTotals, frames: seq<CanFrame>, n: nat, key: Key)
    requires n <= |frames| && start.drives == map[]
    ensures DriveOf(DrivesTo(samples, span, start, frames, n).drives, key) == RunOf(samples, frames, n, key)
  {
    if n > 0 {
      DriveIsRun(samples, span, start, frames, n - 1, key);
      var f := frames[n - 1];
      if IsFor(f, key) {
        RunOneMore(SamplesOf(samples, key).NewFile(), FramesFor(frames, n - 1, key), Timed(f.t, f.content.wire));
      }
    }
  }

  lemma {:induction false} NonNeutralRun(samples: map<Key, DriveView>, span: real, start: DriveTotals, frames: seq<CanFrame>, n: nat)
    requires n <= |frames|
    ensures DrivesTo(samples, span, start, frames, n).nonNeutral == NonNeutralIn(start.nonNeutral, span, frames, n)
  {
    if n > 0 {
      NonNeutralRun(samples, span, start, frames, n - 1);
    }
  }

  /** The window of an interface holds the recent frames of that interface. */
  lemma {:induction false} BusRuns(start: BusTotals, frames: seq<CanFrame>, n: nat, iface: string)
    requires n <= |frames| && start.bus == map[] && Captured(frames)
    ensures Meters(TimesOn(frames, n, iface), BusOf(BusTo(start, frames, n).bus, iface))
  {
    if n > 0 {
      BusRuns(start, frames, n - 1, iface);
      BusNext(BusTo(start, frames, n - 1), frames, n - 1, iface);
    }
  }

  lemma {:induction false} BusNext(before: BusTotals, frames: seq<CanFrame>, n: nat, iface: string)
    requires n < |frames| && Captured(frames) && Meters(TimesOn(frames, n, iface), BusOf(before.bus, iface))
    ensures Meters(TimesOn(frames, n + 1, iface), BusOf(before.On(frames[n]).bus, iface))
  {
    if IsOn(frames[n], iface) {
      InterfaceIsOrdered(frames, n);
      NextMeters(TimesOn(frames, n, iface), BusOf(before.bus, iface), frames[n].t);
    }
  }

  lemma {:induction false} GapsRun(start: BusTotals, frames: seq<CanFrame>, n: nat)
    requires n <= |frames| && start.bus == map[] && Captured(frames)
    ensures BusTo(start, frames, n).gaps == start.gaps + GapsIn(frames, n)
  {
    if n > 0 {
      GapsRun(start, frames, n - 1);
      var f := frames[n - 1];
      if !f.content.KernelError? {
        BusRuns(start, frames, n - 1, f.iface);
        InterfaceIsOrdered(frames, n - 1);
        NextMeters(TimesOn(frames, n - 1, f.iface), BusOf(BusTo(start, frames, n - 1).bus, f.iface), f.t);
      }
    }
  }

  /** The window after a frame holds as many frames as the load at it. */
  lemma {:induction false} LoadAfter(start: BusTotals, frames: seq<CanFrame>, n: nat)
    requires n < |frames| && start.bus == map[] && Captured(frames) && !frames[n].content.KernelError?
    ensures var iface := frames[n].iface;
            |Next(BusOf(BusTo(start, frames, n).bus, iface), frames[n].t).window|
            == LoadOn(frames, n + 1, iface, |TimesOn(frames, n, iface)|)
  {
    var iface := frames[n].iface;
    BusRuns(start, frames, n + 1, iface);
    WindowIsLoad(TimesOn(frames, n + 1, iface), BusOf(BusTo(start, frames, n + 1).bus, iface));
  }

  lemma {:induction false} NoneIsBusier(start: BusTotals, frames: seq<CanFrame>, n: nat, iface: string, k: nat)
    requires n <= |frames| && start.bus == map[] && Captured(frames)
    ensures LoadOn(frames, n, iface, k) <= BusTo(start, frames, n).maxFrames
    ensures start.maxFrames <= BusTo(start, frames, n).maxFrames
  {
    if n > 0 {
      NoneIsBusier(start, frames, n - 1, iface, k);
      LoadNext(frames, n - 1, iface, k);
      if IsOn(frames[n - 1], iface) && k == |TimesOn(frames, n - 1, iface)| {
        LoadAfter(start, frames, n - 1);
      }
    }
  }

  /** Unless the maximum stems from an earlier file, some frame of this one has that load. */
  lemma {:induction false} BusiestFrame(start: BusTotals, frames: seq<CanFrame>, n: nat) returns (iface: string, k: nat)
    requires n <= |frames| && start.bus == map[] && Captured(frames)
    ensures BusTo(start, frames, n).maxFrames == start.maxFrames || LoadOn(frames, n, iface, k) == BusTo(start, frames, n).maxFrames
  {
    iface, k := "", 0;
    if n > 0 {
      iface, k := BusiestFrame(start, frames, n - 1);
      LoadNext(frames, n - 1, iface, k);
      if BusTo(start, frames, n).maxFrames != BusTo(start, frames, n - 1).maxFrames {
        LoadAfter(start, frames, n - 1);
        iface, k := frames[n - 1].iface, |TimesOn(frames, n - 1, frames[n - 1].iface)|;
      }
    }
  }

  /** The most frames in any 10 ms window, and the gaps. */
  lemma {:induction false} BusesMeasured(start: BusTotals, frames: seq<CanFrame>)
    requires start.bus == map[] && Captured(frames)
    ensures MaxWindow(frames, start.maxFrames, BusTo(start, frames, |frames|).maxFrames)
    ensures BusTo(start, frames, |frames|).gaps == start.gaps + GapsIn(frames, |frames|)
  {
    var n := |frames|;
    var max := BusTo(start, frames, n).maxFrames;
    GapsRun(start, frames, n);
    NoneIsBusier(start, frames, n, "", 0);
    forall iface, x ensures InWindow(frames, iface, x) <= max {
      var times := TimesOn(frames, n, iface);
      forall k: nat | k < |times| ensures Load(times, k) <= max {
        NoneIsBusier(start, frames, n, iface, k);
      }
      NoWindowIsBusier(times, |times|, x, max);
    }
    if max != start.maxFrames {
      BusiestWindow(start, frames, max);
    }
  }

  lemma {:induction false} BusiestWindow(start: BusTotals, frames: seq<CanFrame>, max: nat)
    requires start.bus == map[] && Captured(frames) && max == BusTo(start, frames, |frames|).maxFrames != start.maxFrames
    requires forall iface, x :: InWindow(frames, iface, x) <= max
    ensures exists iface, x :: InWindow(frames, iface, x) == max
  {
    NoneIsBusier(start, frames, |frames|, "", 0);
    var iface, k := BusiestFrame(start, frames, |frames|);
    TimesAreOrdered(frames, |frames|, iface);
    var x := LoadIsReached(TimesOn(frames, |frames|, iface), k);
    assert InWindow(frames, iface, x) == max;
  }

  // ----- The analyzer

  class Analyzer {
    var samples: map<Key, DriveView>
    var nonNeutral: NonNeutral
    var maxFramesPer10Ms: nat
    var gapsOver5Ms: nat
    var span: real

    constructor ()
      ensures samples == map[] && nonNeutral == NonNeutral(0, None, None)
      ensures maxFramesPer10Ms == gapsOver5Ms == 0 && span == 0.0
    {
      samples, nonNeutral, maxFramesPer10Ms, gapsOver5Ms, span := map[], NonNeutral(0, None, None), 0, 0, 0.0;
    }

    method OnBus(file: FileState, f: CanFrame) returns (file': FileState)
      requires !f.content.KernelError?
      modifies this`maxFramesPer10Ms, this`gapsOver5Ms
      ensures BusTotals(file'.bus, maxFramesPer10Ms, gapsOver5Ms) == old(BusTotals(file.bus, maxFramesPer10Ms, gapsOver5Ms)).On(f)
      ensures file' == file.(bus := file'.bus)
    {
      var bus, gap := BusLoad.OnBus(BusOf(file.bus, f.iface), f.t);
      if gap {
        gapsOver5Ms := gapsOver5Ms + 1;
      }
      if maxFramesPer10Ms < |bus.window| {
        maxFramesPer10Ms := |bus.window|;
      }
      file' := file.(bus := file.bus[f.iface := bus]);
    }

    /** A frame at its drive; windows whose deadline has passed close first. */
    method OnWire(file: FileState, f: CanFrame) returns (file': FileState)
      requires f.content.Wired?
      modifies this`nonNeutral
      ensures DriveTotals(file'.drives, nonNeutral) == old(DriveTotals(file.drives, nonNeutral)).On(samples, span, f)
      ensures file' == file.(drives := file'.drives)
    {
      var key := Key(f.iface, f.content.device);
      var d := if key in file.drives then file.drives[key] else SamplesOf(samples, key).NewFile();
      file' := file.(drives := file.drives[key := d.Expire(f.t).On(Timed(f.t, f.content.wire))]);
      if f.content.wire == Host(Mit) && !f.content.neutral {
        var at := span + f.t;
        nonNeutral := NonNeutral(nonNeutral.count + 1, if nonNeutral.first.None? then Some(at) else nonNeutral.first, Some(at));
      }
    }

    /** One frame. A kernel error frame only moves the time of the last frame. */
    method OnFrame(file: FileState, f: CanFrame) returns (file': FileState)
      modifies this`nonNeutral, this`maxFramesPer10Ms, this`gapsOver5Ms
      ensures BusTotals(file'.bus, maxFramesPer10Ms, gapsOver5Ms) == old(BusTotals(file.bus, maxFramesPer10Ms, gapsOver5Ms)).On(f)
      ensures DriveTotals(file'.drives, nonNeutral) == old(DriveTotals(file.drives, nonNeutral)).On(samples, span, f)
      ensures file'.lastT == f.t
    {
      file' := file.(lastT := f.t);
      if f.content.KernelError? {
        return;
      }
      file' := OnBus(file', f);
      if f.content.Wired? {
        file' := OnWire(file', f);
      }
    }

    /** End of a file: each drive with frames in it adds its samples. */
    method FinishFile(file: FileState, ghost frames: seq<CanFrame>)
      requires forall key :: DriveOf(file.drives, key) == RunOf(samples, frames, |frames|, key)
      requires file.lastT == LastTime(frames, |frames|)
      modifies this`samples
      ensures forall key :: SamplesOf(samples, key) == FileSamples(SamplesOf(old(samples), key), frames, key)
      ensures forall key :: key in samples <==> key in old(samples) || FramesFor(frames, |frames|, key) != []
    {
      var todo := file.drives.Keys;
      ghost var before := samples;
      while todo != {}
        invariant todo <= file.drives.Keys
        invariant forall key :: SamplesOf(samples, key) ==
                    if key in file.drives && key !in todo then file.drives[key].FinishFile(file.lastT) else SamplesOf(before, key)
        invariant forall key :: key in samples <==> key in before || (key in file.drives && key !in todo)
      {
        var key :| key in todo;
        samples := samples[key := file.drives[key].FinishFile(file.lastT)];
        todo := todo - {key};
      }
      forall key
        ensures SamplesOf(samples, key) == FileSamples(SamplesOf(before, key), frames, key)
        ensures key in file.drives <==> FramesFor(frames, |frames|, key) != []
      {
        assert DriveOf(file.drives, key) == RunOf(before, frames, |frames|, key);
      }
    }

    /**
      A whole file: each drive's samples depend only on its own frames and the
      time of the last frame; the load is the most frames in any 10 ms window of
      any interface.
     */
    method AddFile(frames: seq<CanFrame>, duration: real)
      requires Captured(frames)
      modifies this
      ensures forall key :: SamplesOf(samples, key) == FileSamples(SamplesOf(old(samples), key), frames, key)
      ensures forall key :: key in samples <==> key in old(samples) || FramesFor(frames, |frames|, key) != []
      ensures nonNeutral == NonNeutralIn(old(nonNeutral), old(span), frames, |frames|)
      ensures MaxWindow(frames, old(maxFramesPer10Ms), maxFramesPer10Ms)
      ensures gapsOver5Ms == old(gapsOver5Ms) + GapsIn(frames, |frames|)
      ensures span == old(span) + duration
    {
      var file := EMPTY;
      ghost var drives, bus := DriveTotals(map[], nonNeutral), BusTotals(map[], maxFramesPer10Ms, gapsOver5Ms);
      for n := 0 to |frames|
        invariant samples == old(samples) && span == old(span) && file.lastT == LastTime(frames, n)
        invariant DriveTotals(file.drives, nonNeutral) == DrivesTo(samples, span, drives, frames, n)
        invariant BusTotals(file.bus, maxFramesPer10Ms, gapsOver5Ms) == BusTo(bus, frames, n)
      {
        file := OnFrame(file, frames[n]);
      }
      forall key ensures DriveOf(file.drives, key) == RunOf(samples, frames, |frames|, key) {
        DriveIsRun(samples, span, drives, frames, |frames|, key);
      }
      NonNeutralRun(samples, span, drives, frames, |frames|);
      BusesMeasured(bus, frames);
      FinishFile(file, frames);
      span := span + duration;
    }
  }

  lemma {:induction false} InterfaceIsOrdered(frames: seq<CanFrame>, n: nat)
    requires Captured(frames) && n < |frames|
    ensures var times := TimesOn(frames, n, frames[n].iface);
            Nondecreasing(times) && (times != [] ==> times[|times| - 1] <= frames[n].t)
  {
    TimesAreOrdered(frames, n, frames[n].iface);
    var times := TimesOn(frames, n, frames[n].iface);
    if times != [] {
      assert times[|times| - 1] in times;
      assert frames[n - 1].t <= frames[n].t;
    }
  }

  // ----- Kernel error frames

  /** The first `n` frames without their kernel error frames. */
  function Ordinary(frames: seq<CanFrame>, n: nat): seq<CanFrame>
    requires n <= |frames|
  {
    if n == 0 then []
    else if frames[n - 1].content.KernelError? then Ordinary(frames, n - 1)
    else Ordinary(frames, n - 1) + [frames[n - 1]]
  }

  lemma {:induction false} PrefixAlike(frames: seq<CanFrame>, f: CanFrame, n: nat, seen: NonNeutral, offset: real, key: Key, iface: string)
    requires n <= |frames|
    ensures FramesFor(frames + [f], n, key) == FramesFor(frames, n, key)
    ensures TimesOn(frames + [f], n, iface) == TimesOn(frames, n, iface)
    ensures NonNeutralIn(seen, offset, frames + [f], n) == NonNeutralIn(seen, offset, frames, n)
  {
    if n > 0 {
      PrefixAlike(frames, f, n - 1, seen, offset, key, iface);
    }
  }

  lemma {:induction false} GapsAlike(frames: seq<CanFrame>, f: CanFrame, n: nat)
    requires n <= |frames|
    ensures GapsIn(frames + [f], n) == GapsIn(frames, n)
  {
    if n > 0 {
      GapsAlike(frames, f, n - 1);
      PrefixAlike(frames, f, n - 1, NonNeutral(0, None, None), 0.0, Key("", 0), frames[n - 1].iface);
    }
  }

  lemma {:induction false} OrdinaryIsEnough(frames: seq<CanFrame>, n: nat, seen: NonNeutral, offset: real, key: Key, iface: string)
    requires n <= |frames|
    ensures var kept := Ordinary(frames, n);
            && FramesFor(kept, |kept|, key) == FramesFor(frames, n, key)
            && TimesOn(kept, |kept|, iface) == TimesOn(frames, n, iface)
            && NonNeutralIn(seen, offset, kept, |kept|) == NonNeutralIn(seen, offset, frames, n)
  {
    if n > 0 {
      OrdinaryIsEnough(frames, n - 1, seen, offset, key, iface);
      if !frames[n - 1].content.KernelError? {
        var kept := Ordinary(frames, n - 1);
        PrefixAlike(kept, frames[n - 1], |kept|, seen, offset, key, iface);
      }
    }
  }

  lemma {:induction false} OrdinaryGaps(frames: seq<CanFrame>, n: nat)
    requires n <= |frames|
    ensures GapsIn(Ordinary(frames, n), |Ordinary(frames, n)|) == GapsIn(frames, n)
  {
    if n > 0 {
      OrdinaryGaps(frames, n - 1);
      var kept, f := Ordinary(frames, n - 1), frames[n - 1];
      if !f.content.KernelError? {
        var seen, key := NonNeutral(0, None, None), Key("", 0);
        GapsAlike(kept, f, |kept|);
        PrefixAlike(kept, f, |kept|, seen, 0.0, key, f.iface);
        OrdinaryIsEnough(frames, n - 1, seen, 0.0, key, f.iface);
      }
    }
  }

  /**
    Two captures that differ only in kernel error frames and end at the same time
    yield the same samples for every drive, the same neutrality count and the
    same bus load.
   */
  lemma {:induction false} ErrorsAreInvisible(a: seq<CanFrame>, b: seq<CanFrame>, seen: NonNeutral, offset: real)
    requires Ordinary(a, |a|) == Ordinary(b, |b|) && LastTime(a, |a|) == LastTime(b, |b|)
    ensures forall samples, key :: FileSamples(samples, a, key) == FileSamples(samples, b, key)
    ensures NonNeutralIn(seen, offset, a, |a|) == NonNeutralIn(seen, offset, b, |b|)
    ensures GapsIn(a, |a|) == GapsIn(b, |b|)
    ensures forall before, max :: MaxWindow(a, before, max) <==> MaxWindow(b, before, max)
  {
    OrdinaryGaps(a, |a|);
    OrdinaryGaps(b, |b|);
    assert NonNeutralIn(seen, offset, a, |a|) == NonNeutralIn(seen, offset, b, |b|) by {
      OrdinaryIsEnough(a, |a|, seen, offset, Key("", 0), "");
      OrdinaryIsEnough(b, |b|, seen, offset, Key("", 0), "");
    }
    forall samples, key ensures FileSamples(samples, a, key) == FileSamples(samples, b, key) {
      OrdinaryIsEnough(a, |a|, seen, offset, key, "");
      OrdinaryIsEnough(b, |b|, seen, offset, key, "");
    }
    forall iface, x ensures InWindow(a, iface, x) == InWindow(b, iface, x) {
      OrdinaryIsEnough(a, |a|, seen, offset, Key("", 0), iface);
      OrdinaryIsEnough(b, |b|, seen, offset, Key("", 0), iface);
    }
    SameWindows(a, b);
  }

  lemma {:induction false} SameWindows(a: seq<CanFrame>, b: seq<CanFrame>)
    requires forall iface, x :: InWindow(a, iface, x) == InWindow(b, iface, x)
    ensures forall before, max :: MaxWindow(a, before, max) <==> MaxWindow(b, before, max)
  {
  }
}
