/**
  Whole captures of one drive: expiring windows lazily is as good as timers, every
  request is accounted for, and every latency fits its window.
 */
module DriveRuns {
  import opened Basics
  import opened DriveTiming

  /** One frame: windows whose deadline has passed close first. */
  function Step(d: DriveView, e: Timed): DriveView {
    d.Expire(e.t).On(e)
  }

  function RunFrames(d: DriveView, frames: seq<Timed>): DriveView {
    if frames == [] then d else Step(RunFrames(d, frames[..|frames| - 1]), frames[|frames| - 1])
  }

  /** A capture file in the order it was taken, `end` the time of its last line. */
  predicate InOrder(frames: seq<Timed>, end: real) {
    && (forall i, j | 0 <= i < j < |frames| :: frames[i].t <= frames[j].t)
    && forall i | 0 <= i < |frames| :: 0.0 <= frames[i].t <= end
  }

  /** The samples after one more file. */
  function RunFile(samples: DriveView, frames: seq<Timed>, end: real): DriveView {
    RunFrames(samples.NewFile(), frames).FinishFile(end)
  }

  // ----- Lazy expiry is as good as timers

  /** A frame, or a timer that closes windows between frames. */
  datatype Input = Frame(e: Timed) | Timer(at: real)

  function TimeOf(input: Input): real {
    match input
    case Frame(e) => e.t
    case Timer(at) => at
  }

  function RunInputs(d: DriveView, inputs: seq<Input>): DriveView {
    if inputs == [] then d
    else
      var before := RunInputs(d, inputs[..|inputs| - 1]);
      match inputs[|inputs| - 1]
      case Frame(e) => Step(before, e)
      case Timer(at) => before.Expire(at)
  }

  function FramesOf(inputs: seq<Input>): seq<Timed> {
    if inputs == [] then []
    else
      var before := FramesOf(inputs[..|inputs| - 1]);
      match inputs[|inputs| - 1]
      case Frame(e) => before + [e]
      case Timer(_) => before
  }

  lemma {:induction false} QueueExpiresTwice(q: StatusQueue, t: real, u: real)
    requires t <= u
    ensures q.Expire(t).Expire(u) == q.Expire(u)
    decreases |q.pending|
  {
    if q.pending != [] && t - q.pending[0].at > STATUS_REPLY_WINDOW {
      var popped := StatusQueue(q.pending[1..], q.replies, if q.pending[0].mit then q.unanswered + 1 else q.unanswered);
      QueueExpiresTwice(popped, t, u);
    }
  }

  /** Expiring on the way to a later instant changes nothing there. */
  lemma {:induction false} ExpireTwice(d: DriveView, t: real, u: real)
    requires t <= u
    ensures d.Expire(t).Expire(u) == d.Expire(u)
  {
    QueueExpiresTwice(d.status, t, u);
  }

  /** Timers at any instants change nothing, seen from any later instant. */
  lemma {:induction false} TimersAreInvisible(d: DriveView, inputs: seq<Input>, now: real)
    requires forall i, j | 0 <= i < j < |inputs| :: TimeOf(inputs[i]) <= TimeOf(inputs[j])
    requires forall i | 0 <= i < |inputs| :: TimeOf(inputs[i]) <= now
    ensures RunInputs(d, inputs).Expire(now) == RunFrames(d, FramesOf(inputs)).Expire(now)
  {
    if inputs != [] {
      var before, last := inputs[..|inputs| - 1], inputs[|inputs| - 1];
      TimersAreInvisible(d, before, TimeOf(last));
      match last {
        case Frame(e) =>
          assert FramesOf(inputs)[..|FramesOf(before)|] == FramesOf(before);
        case Timer(at) =>
          TimersAreInvisible(d, before, now);
          ExpireTwice(RunInputs(d, before), at, now);
      }
    }
  }

  /** A file analyzed with any extra timers yields the samples it yields without them. */
  lemma {:induction false} LazyIsEager(samples: DriveView, inputs: seq<Input>, end: real)
    requires forall i, j | 0 <= i < j < |inputs| :: TimeOf(inputs[i]) <= TimeOf(inputs[j])
    requires forall i | 0 <= i < |inputs| :: TimeOf(inputs[i]) <= end
    ensures RunInputs(samples.NewFile(), inputs).FinishFile(end) == RunFile(samples, FramesOf(inputs), end)
  {
    TimersAreInvisible(samples.NewFile(), inputs, end);
  }

  // ----- Every request is accounted for

  /** How often the command was sent. */
  function Sent(frames: seq<Timed>, command: HostCommand): nat {
    if frames == [] then 0
    else Sent(frames[..|frames| - 1], command) + (if frames[|frames| - 1].wire == Host(command) then 1 else 0)
  }

  function One(open: bool): nat {
    if open then 1 else 0
  }

  function MitPending(pending: seq<Solicit>): nat {
    if pending == [] then 0 else MitPending(pending[1..]) + One(pending[0].mit)
  }

  ghost predicate Accounted(d: DriveView, enables: nat, mits: nat, identities: nat, setZeros: nat) {
    && enables == |d.enable.toRun| + d.enable.neverRun + One(d.enable.open.Some?)
    && mits == |d.status.replies| + d.status.unanswered + MitPending(d.status.pending)
    && identities == |d.identity.replies| + d.identity.unanswered + One(d.identity.open.Some?)
    && setZeros == |d.silence.silences| + d.silence.unobservable + One(d.silence.window.Some?)
    && |d.silence.starts| == |d.silence.silences|
  }

  lemma {:induction false} MitPendingAppend(pending: seq<Solicit>, s: Solicit)
    ensures MitPending(pending + [s]) == MitPending(pending) + One(s.mit)
  {
    if pending == [] {
      assert pending + [s] == [s];
    } else {
      assert (pending + [s])[1..] == pending[1..] + [s];
      MitPendingAppend(pending[1..], s);
    }
  }

  lemma {:induction false} QueueExpiryAccounted(q: StatusQueue, now: real)
    ensures var r := q.Expire(now);
            r.replies == q.replies && r.unanswered + MitPending(r.pending) == q.unanswered + MitPending(q.pending)
    decreases |q.pending|
  {
    if q.pending != [] && now - q.pending[0].at > STATUS_REPLY_WINDOW {
      var popped := StatusQueue(q.pending[1..], q.replies, if q.pending[0].mit then q.unanswered + 1 else q.unanswered);
      QueueExpiryAccounted(popped, now);
    }
  }

  lemma {:induction false} ExpiryAccounted(d: DriveView, now: real, enables: nat, mits: nat, identities: nat, setZeros: nat)
    requires Accounted(d, enables, mits, identities, setZeros)
    ensures Accounted(d.Expire(now), enables, mits, identities, setZeros)
  {
    QueueExpiryAccounted(d.status, now);
  }

  lemma {:induction false} FrameAccounted(d: DriveView, e: Timed, enables: nat, mits: nat, identities: nat, setZeros: nat)
    requires Accounted(d, enables, mits, identities, setZeros)
    ensures Accounted(d.On(e), enables + One(e.wire == Host(Enable)), mits + One(e.wire == Host(Mit)),
                      identities + One(e.wire == Host(GetDeviceId)), setZeros + One(e.wire == Host(SetZero)))
  {
    if e.wire.Host? && Solicits(e.wire.command).Some? {
      MitPendingAppend(d.status.pending, Solicit(e.t, Solicits(e.wire.command).value));
    }
  }

  lemma {:induction false} RunAccounted(frames: seq<Timed>)
    ensures Accounted(RunFrames(FRESH, frames), Sent(frames, Enable), Sent(frames, Mit), Sent(frames, GetDeviceId), Sent(frames, SetZero))
  {
    if frames != [] {
      var before, e := frames[..|frames| - 1], frames[|frames| - 1];
      var d := RunFrames(FRESH, before);
      RunAccounted(before);
      ExpiryAccounted(d, e.t, Sent(before, Enable), Sent(before, Mit), Sent(before, GetDeviceId), Sent(before, SetZero));
      FrameAccounted(d.Expire(e.t), e, Sent(before, Enable), Sent(before, Mit), Sent(before, GetDeviceId), Sent(before, SetZero));
    }
  }

  /**
    Enables = run + never run + open; MIT commands = replies + unanswered +
    pending; identity requests = replies + unanswered + open; and after the end of
    the file SetZeros = silences + unobservable.
   */
  lemma {:induction false} RequestsAreConserved(frames: seq<Timed>, end: real)
    ensures var d := RunFile(FRESH, frames, end);
            && Accounted(d, Sent(frames, Enable), Sent(frames, Mit), Sent(frames, GetDeviceId), Sent(frames, SetZero))
            && d.silence.window.None? && d.report.off.None?
  {
    RunAccounted(frames);
    ExpiryAccounted(RunFrames(FRESH, frames), end,
                    Sent(frames, Enable), Sent(frames, Mit), Sent(frames, GetDeviceId), Sent(frames, SetZero));
  }

  // ----- Every latency fits its window

  predicate Within(samples: seq<real>, limit: real) {
    forall i | 0 <= i < |samples| :: 0.0 <= samples[i] <= limit
  }

  predicate Opened(open: Option<real>, now: real) {
    open.Some? ==> open.value <= now
  }

  /** A silence starts and ends within its window and lasts at least two missed reports. */
  predicate Silent(starts: seq<real>, silences: seq<real>) {
    && |starts| == |silences|
    && forall i | 0 <= i < |starts| ::
         0.0 <= starts[i] && 20.0 <= silences[i] && starts[i] + silences[i] <= 1500.0
  }

  predicate EnableTimely(w: EnableWindow, now: real) {
    Within(w.toRun, 1000.0) && Opened(w.open, now)
  }

  lemma {:induction false} EnableStaysTimely(w: EnableWindow, before: real, t: real, wire: Wire)
    requires before <= t && EnableTimely(w, before)
    ensures EnableTimely(w.Expire(t), t) && EnableTimely(w.Expire(t).On(t, wire), t)
  {
  }

  predicate DisableTimely(w: DisableWindow, now: real) {
    Within(w.toReset, 100.0) && Opened(w.open, now)
  }

  lemma {:induction false} DisableStaysTimely(w: DisableWindow, before: real, t: real, wire: Wire)
    requires before <= t && DisableTimely(w, before)
    ensures DisableTimely(w.Expire(t), t) && DisableTimely(w.Expire(t).On(t, wire), t)
  {
  }

  predicate IdentityTimely(w: IdentityWindow, now: real) {
    Within(w.replies, 100.0) && Opened(w.open, now)
  }

  lemma {:induction false} IdentityStaysTimely(w: IdentityWindow, before: real, t: real, wire: Wire)
    requires before <= t && IdentityTimely(w, before)
    ensures IdentityTimely(w.Expire(t), t) && IdentityTimely(w.Expire(t).On(t, wire), t)
  {
  }

  predicate ParamTimely(w: ParamWindow, now: real) {
    Within(w.replies, 100.0) && (w.open.Some? ==> w.open.value.at <= now)
  }

  lemma {:induction false} ParamStaysTimely(w: ParamWindow, before: real, t: real, wire: Wire)
    requires before <= t && ParamTimely(w, before)
    ensures ParamTimely(w.Expire(t), t) && ParamTimely(w.Expire(t).On(t, wire), t)
  {
  }

  predicate QueueTimely(q: StatusQueue, now: real) {
    Within(q.replies, 5.0) && forall i | 0 <= i < |q.pending| :: q.pending[i].at <= now
  }

  lemma {:induction false} QueueExpiryTimely(q: StatusQueue, now: real)
    requires QueueTimely(q, now)
    ensures QueueTimely(q.Expire(now), now)
    ensures q.Expire(now).pending != [] ==> now - q.Expire(now).pending[0].at <= STATUS_REPLY_WINDOW
    decreases |q.pending|
  {
    if q.pending != [] && now - q.pending[0].at > STATUS_REPLY_WINDOW {
      var popped := StatusQueue(q.pending[1..], q.replies, if q.pending[0].mit then q.unanswered + 1 else q.unanswered);
      QueueExpiryTimely(popped, now);
    }
  }

  lemma {:induction false} QueueStaysTimely(q: StatusQueue, before: real, t: real, wire: Wire)
    requires before <= t && QueueTimely(q, before)
    ensures QueueTimely(q.Expire(t), t) && QueueTimely(q.Expire(t).On(t, wire), t)
  {
    QueueExpiryTimely(q, t);
  }

  predicate OffTimely(off: OffWindow, now: real) {
    && off.at <= now
    && (off.lastReport.Some? ==> off.at <= off.lastReport.value <= off.at + OFF_WINDOW)
    && (off.previousReport.Some? ==> off.at <= off.previousReport.value <= off.at + OFF_WINDOW)
  }

  predicate ReportTimely(w: ReportWindow, now: real) {
    && Within(w.offToLast, 500.0) && (w.off.Some? ==> OffTimely(w.off.value, now))
    && (forall i | 0 <= i < |w.periods| :: 0.0 <= w.periods[i])
    && Opened(w.last, now)
  }

  lemma {:induction false} OffCloses(w: ReportWindow, write: Option<real>, now: real)
    requires ReportTimely(w, now)
    ensures ReportTimely(w.CloseOff(write), now)
  {
  }

  lemma {:induction false} ReportExpiryTimely(w: ReportWindow, before: real, t: real)
    requires before <= t && ReportTimely(w, before)
    ensures ReportTimely(w.Expire(t), t)
    ensures w.Expire(t).off.Some? ==> t - w.Expire(t).off.value.at <= OFF_WINDOW
  {
    OffCloses(w, None, t);
  }

  lemma {:induction false} ReportOnTimely(w: ReportWindow, t: real, wire: Wire)
    requires ReportTimely(w, t) && (w.off.Some? ==> t - w.off.value.at <= OFF_WINDOW)
    ensures ReportTimely(w.On(t, wire), t)
  {
    OffCloses(w, Some(t), t);
  }

  lemma {:induction false} ReportStaysTimely(w: ReportWindow, before: real, t: real, wire: Wire)
    requires before <= t && ReportTimely(w, before)
    ensures ReportTimely(w.Expire(t), t) && ReportTimely(w.Expire(t).On(t, wire), t)
  {
    ReportExpiryTimely(w, before, t);
    ReportOnTimely(w.Expire(t), t, wire);
  }

  predicate GapTimely(window: SetZeroWindow, now: real) {
    && window.at <= now
    && (window.best.Some? ==>
          var gap := window.best.value;
          window.at <= gap.start && SILENCE_MIN <= gap.end - gap.start && gap.end <= window.at + SET_ZERO_WINDOW)
  }

  predicate SilenceTimely(w: SilenceWindow, now: real) {
    && Silent(w.starts, w.silences) && (w.window.Some? ==> GapTimely(w.window.value, now))
    && Opened(w.seen.lastFrame, now)
  }

  lemma {:induction false} SilenceCloses(w: SilenceWindow, now: real)
    requires SilenceTimely(w, now)
    ensures SilenceTimely(w.Close(), now)
  {
  }

  lemma {:induction false} SilenceStaysTimely(w: SilenceWindow, before: real, t: real)
    requires before <= t && SilenceTimely(w, before)
    ensures SilenceTimely(w.Expire(t), t)
    ensures forall command :: SilenceTimely(w.Expire(t).OnHost(t, command), t)
    ensures forall frame, answered, lastReport :: SilenceTimely(w.Expire(t).OnDrive(t, frame, answered, lastReport), t)
  {
    SilenceCloses(w, t);
    SilenceCloses(w.Expire(t), t);
  }

  /** Every recorded latency is non-negative and within the window it belongs to. */
  ghost predicate Timely(d: DriveView, now: real) {
    && EnableTimely(d.enable, now) && DisableTimely(d.disable, now) && IdentityTimely(d.identity, now)
    && ParamTimely(d.param, now) && QueueTimely(d.status, now) && ReportTimely(d.report, now) && SilenceTimely(d.silence, now)
  }

  lemma {:induction false} RepliesStayTimely(d: DriveView, before: real, t: real, wire: Wire)
    requires before <= t && Timely(d, before)
    ensures EnableTimely(d.enable.Expire(t), t) && EnableTimely(d.enable.Expire(t).On(t, wire), t)
    ensures DisableTimely(d.disable.Expire(t), t) && DisableTimely(d.disable.Expire(t).On(t, wire), t)
    ensures IdentityTimely(d.identity.Expire(t), t) && IdentityTimely(d.identity.Expire(t).On(t, wire), t)
    ensures ParamTimely(d.param.Expire(t), t) && ParamTimely(d.param.Expire(t).On(t, wire), t)
  {
    EnableStaysTimely(d.enable, before, t, wire);
    DisableStaysTimely(d.disable, before, t, wire);
    IdentityStaysTimely(d.identity, before, t, wire);
    ParamStaysTimely(d.param, before, t, wire);
  }

  lemma {:induction false} ExpireStaysTimely(d: DriveView, before: real, t: real)
    requires before <= t && Timely(d, before)
    ensures Timely(d.Expire(t), t)
  {
    RepliesStayTimely(d, before, t, Host(Mit));
    QueueStaysTimely(d.status, before, t, Host(Mit));
    ReportStaysTimely(d.report, before, t, Host(Mit));
    SilenceStaysTimely(d.silence, before, t);
  }

  lemma {:induction false} HostStaysTimely(d: DriveView, before: real, t: real, command: HostCommand)
    requires before <= t && Timely(d, before)
    ensures Timely(d.Expire(t).OnHost(t, command), t)
  {
    RepliesStayTimely(d, before, t, Host(command));
    QueueStaysTimely(d.status, before, t, Host(command));
    ReportStaysTimely(d.report, before, t, Host(command));
    SilenceStaysTimely(d.silence, before, t);
  }

  lemma {:induction false} DriveStaysTimely(d: DriveView, before: real, t: real, frame: DriveFrame)
    requires before <= t && Timely(d, before)
    ensures Timely(d.Expire(t).OnDrive(t, frame), t)
  {
    RepliesStayTimely(d, before, t, Drive(frame));
    QueueStaysTimely(d.status, before, t, Drive(frame));
    ReportStaysTimely(d.report, before, t, Drive(frame));
    SilenceStaysTimely(d.silence, before, t);
  }

  lemma {:induction false} StepStaysTimely(d: DriveView, before: real, e: Timed)
    requires before <= e.t && Timely(d, before)
    ensures Timely(d.Expire(e.t), e.t) && Timely(Step(d, e), e.t)
  {
    ExpireStaysTimely(d, before, e.t);
    match e.wire
    case Host(command) => HostStaysTimely(d, before, e.t, command);
    case Drive(frame) => DriveStaysTimely(d, before, e.t, frame);
  }

  lemma {:induction false} RunTimely(frames: seq<Timed>, now: real)
    requires InOrder(frames, now) && (frames != [] ==> frames[|frames| - 1].t == now)
    ensures Timely(RunFrames(FRESH, frames), now)
  {
    if frames != [] {
      var before, e := frames[..|frames| - 1], frames[|frames| - 1];
      var last := if before == [] then 0.0 else before[|before| - 1].t;
      RunTimely(before, last);
      StepStaysTimely(RunFrames(FRESH, before), last, e);
    }
  }

  lemma {:induction false} LatenciesAreBounded(frames: seq<Timed>, end: real)
    requires InOrder(frames, end)
    ensures Timely(RunFile(FRESH, frames, end), end)
  {
    var last := if frames == [] then end else frames[|frames| - 1].t;
    RunTimely(frames, last);
    var d := RunFrames(FRESH, frames);
    StepStaysTimely(d, last, Timed(end, Host(Mit)));
    FinishStaysTimely(d.Expire(end), end);
  }

  lemma {:induction false} FinishStaysTimely(d: DriveView, end: real)
    requires Timely(d, end)
    ensures Timely(d.(silence := d.silence.Close(), report := d.report.CloseOff(None)), end)
  {
    SilenceCloses(d.silence, end);
    OffCloses(d.report, None, end);
  }
}
