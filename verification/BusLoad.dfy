/** Load of one CAN interface: the busiest 10 ms and the gaps over 5 ms, kept frame by frame. */
module BusLoad {
  import opened Basics

  const BUS_WINDOW := 0.010
  const BUS_GAP := 0.005

  datatype BusState = BusState(window: seq<real>, last: Option<real>)

  const IDLE := BusState([], None)

  predicate Nondecreasing(times: seq<real>) {
    forall i, j | 0 <= i < j < |times| :: times[i] <= times[j]
  }

  /** How many of the first `n` frames lie in the 10 ms from `x` on. */
  function CountIn(times: seq<real>, n: nat, x: real): nat
    requires n <= |times|
  {
    if n == 0 then 0
    else CountIn(times, n - 1, x) + (if x <= times[n - 1] < x + 0.010 then 1 else 0)
  }

  /** How many of the first `n` frames are less than a window older than `now`. */
  function CountRecent(times: seq<real>, n: nat, now: real): nat
    requires n <= |times|
  {
    if n == 0 then 0 else CountRecent(times, n - 1, now) + (if now - times[n - 1] < BUS_WINDOW then 1 else 0)
  }

  /** Frames in the window that ends with frame `i`. */
  function Load(times: seq<real>, i: nat): nat
    requires i < |times|
  {
    CountRecent(times, i + 1, times[i])
  }

  lemma {:induction false} InIsRecent(times: seq<real>, n: nat, x: real, now: real)
    requires n <= |times| && now < x + BUS_WINDOW
    ensures CountIn(times, n, x) <= CountRecent(times, n, now)
  {
    if n > 0 {
      InIsRecent(times, n - 1, x, now);
    }
  }

  /** No window anywhere holds more frames than the busiest of those that end with a frame. */
  lemma {:induction false} NoWindowIsBusier(times: seq<real>, n: nat, x: real, max: nat)
    requires n <= |times| && forall i: nat | i < n :: Load(times, i) <= max
    ensures CountIn(times, n, x) <= max
  {
    if n > 0 {
      if x <= times[n - 1] < x + BUS_WINDOW {
        InIsRecent(times, n, x, times[n - 1]);
        assert Load(times, n - 1) <= max;
      } else {
        NoWindowIsBusier(times, n - 1, x, max);
      }
    }
  }

  lemma {:induction false} CountInRises(times: seq<real>, m: nat, n: nat, x: real)
    requires m <= n <= |times|
    ensures CountIn(times, m, x) <= CountIn(times, n, x)
  {
    if m < n {
      CountInRises(times, m, n - 1, x);
    }
  }

  lemma {:induction false} RecentIsIn(times: seq<real>, n: nat, x: real, now: real)
    requires n <= |times| && now < x + BUS_WINDOW
    requires forall j | 0 <= j < n :: times[j] <= now && (now - times[j] < BUS_WINDOW ==> x <= times[j])
    ensures CountRecent(times, n, now) <= CountIn(times, n, x)
  {
    if n > 0 {
      RecentIsIn(times, n - 1, x, now);
    }
  }

  /** The load at a frame is reached by a real window. */
  lemma {:induction false} LoadIsReached(times: seq<real>, i: nat) returns (x: real)
    requires Nondecreasing(times) && i < |times|
    ensures Load(times, i) <= CountIn(times, |times|, x)
  {
    var a := i;
    while a > 0 && times[i] - times[a - 1] < BUS_WINDOW
      invariant 0 <= a <= i && times[i] - times[a] < BUS_WINDOW
      invariant forall j | a <= j <= i :: times[a] <= times[j]
    {
      a := a - 1;
    }
    x := times[a];
    RecentIsIn(times, i + 1, x, times[i]);
    CountInRises(times, i + 1, |times|, x);
  }

  // ----- The sliding window

  /** The state after frames at `times`: the last time, and the frames less than a window older. */
  ghost predicate Meters(times: seq<real>, bus: BusState) {
    if times == [] then bus == IDLE
    else
      var last, kept := times[|times| - 1], |bus.window|;
      bus.last == Some(last) && Splits(times, kept, last) && bus.window == times[|times| - kept..]
  }

  lemma {:induction false} SuffixCount(times: seq<real>, a: nat, n: nat, now: real)
    requires a <= n <= |times|
    requires forall j | 0 <= j < a :: now - times[j] >= BUS_WINDOW
    requires forall j | a <= j < n :: now - times[j] < BUS_WINDOW
    ensures CountRecent(times, n, now) == n - a
  {
    if a < n {
      SuffixCount(times, a, n - 1, now);
    } else if n > 0 {
      SuffixCount(times, a - 1, n - 1, now);
    }
  }

  /** The window holds as many frames as the load at the last frame. */
  lemma {:induction false} WindowIsLoad(times: seq<real>, bus: BusState)
    requires times != [] && Meters(times, bus)
    ensures |bus.window| == Load(times, |times| - 1)
  {
    SuffixCount(times, |times| - |bus.window|, |times|, times[|times| - 1]);
  }

  /** The last `kept` of the frames, exactly those less than a window older than `now`. */
  ghost predicate Splits(times: seq<real>, kept: nat, now: real) {
    && kept <= |times|
    && (forall j | 0 <= j < |times| - kept :: now - times[j] >= BUS_WINDOW)
    && forall j | |times| - kept <= j < |times| :: now - times[j] < BUS_WINDOW
  }

  lemma {:induction false} SplitsNext(times: seq<real>, kept: nat, t: real)
    requires Splits(times, kept, t)
    ensures Splits(times + [t], kept + 1, t)
  {
    var more := times + [t];
    assert forall j | 0 <= j < |times| :: more[j] == times[j];
  }

  /** The window without the frames at its front that are too old. */
  function Dropped(window: seq<real>, t: real): seq<real> {
    if window == [] || t - window[0] < BUS_WINDOW then window else Dropped(window[1..], t)
  }

  /** One frame: old frames leave the window at the front, the new one joins at the back. */
  function Next(bus: BusState, t: real): BusState {
    BusState(Dropped(bus.window, t) + [t], Some(t))
  }

  predicate EndsGap(bus: BusState, t: real) {
    bus.last.Some? && t - bus.last.value > BUS_GAP
  }

  lemma {:induction false} DroppedSplits(times: seq<real>, kept: nat, t: real)
    requires kept <= |times| && Nondecreasing(times)
    requires forall j | 0 <= j < |times| - kept :: t - times[j] >= BUS_WINDOW
    ensures var window := Dropped(times[|times| - kept..], t);
            |window| <= |times| && window == times[|times| - |window|..] && Splits(times, |window|, t)
    decreases kept
  {
    var window := times[|times| - kept..];
    if kept > 0 && t - window[0] >= BUS_WINDOW {
      assert window[1..] == times[|times| - (kept - 1)..];
      DroppedSplits(times, kept - 1, t);
    } else if kept > 0 {
      assert window[0] == times[|times| - kept];
    }
  }

  /** Sliding the window keeps exactly the frames less than a window older than the last one. */
  lemma {:induction false} NextMeters(times: seq<real>, bus: BusState, t: real)
    requires Meters(times, bus) && Nondecreasing(times) && (times != [] ==> times[|times| - 1] <= t)
    ensures Meters(times + [t], Next(bus, t))
    ensures EndsGap(bus, t) <==> times != [] && t - times[|times| - 1] > BUS_GAP
  {
    DroppedSplits(times, |bus.window|, t);
    SplitsNext(times, |Dropped(bus.window, t)|, t);
  }

  method OnBus(bus: BusState, t: real) returns (bus': BusState, gap: bool)
    ensures bus' == Next(bus, t) && gap == EndsGap(bus, t)
  {
    gap := bus.last.Some? && t - bus.last.value > BUS_GAP;
    var window := bus.window;
    while window != [] && t - window[0] >= BUS_WINDOW
      invariant Dropped(window, t) == Dropped(bus.window, t)
    {
      window := window[1..];
    }
    bus' := BusState(window + [t], Some(t));
  }
}
