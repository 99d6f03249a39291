/**
  Pairing of one drive's frames in a CAN capture: what each frame, and the time
  at which it arrives, does to every open window and to the recorded samples.
  Times are seconds from the start of the file, samples are milliseconds.
 */
module DriveTiming {
  import opened Basics

  const ENABLE_RUN_WINDOW := 1.0
  const SET_ZERO_WINDOW := 1.5
  const SILENCE_MIN := 0.020
  const REPLY_TIMEOUT := 0.100
  const STATUS_REPLY_WINDOW := 0.005
  const STREAM_RUNNING := 0.030
  const OFF_WINDOW := 0.500
  const ECHO_LAG := 0.0005

  datatype Mode = Reset | Calibration | Run | Reserved

  datatype HostCommand =
    | GetDeviceId
    | ReadParameter(index: nat)
    | WriteParameter
    | Mit
    | Enable
    | Disable
    | SetZero
    | ActiveReporting(on: bool)

  datatype DriveFrame =
    | Status(mode: Mode)
    | Report(mode: Mode)
    | Identity
    | ParameterRead(index: nat)
    | FaultReport

  datatype Wire = Host(command: HostCommand) | Drive(frame: DriveFrame)

  /** A frame to or from one drive, and when it was captured. */
  datatype Timed = Timed(t: real, wire: Wire)

  function Ms(seconds: real): real {
    seconds * 1000.0
  }

  predicate Late(at: Option<real>, now: real, window: real) {
    at.Some? && now - at.value > window
  }

  // ----- Enable until the first Run frame

  datatype EnableWindow = EnableWindow(open: Option<real>, toRun: seq<real>, neverRun: nat, resets: nat) {
    function Close(): EnableWindow {
      if open.None? then this else this.(open := None, neverRun := neverRun + 1)
    }

    function Expire(now: real): EnableWindow {
      if Late(open, now, ENABLE_RUN_WINDOW) then Close() else this
    }

    function On(t: real, wire: Wire): EnableWindow {
      match wire
      case Host(Enable) => Close().(open := Some(t))
      case Host(Disable) => Close()
      case Host(_) => this
      case Drive(Status(mode)) => OnMode(t, mode)
      case Drive(Report(mode)) => OnMode(t, mode)
      case Drive(_) => this
    }

    function OnMode(t: real, mode: Mode): EnableWindow {
      if open.None? then this
      else if mode.Run? then this.(open := None, toRun := toRun + [Ms(t - open.value)])
      else if mode.Reset? then this.(resets := resets + 1)
      else this
    }
  }

  // ----- Disable until the first Reset frame

  datatype DisableWindow = DisableWindow(open: Option<real>, toReset: seq<real>) {
    function Expire(now: real): DisableWindow {
      if Late(open, now, REPLY_TIMEOUT) then this.(open := None) else this
    }

    function On(t: real, wire: Wire): DisableWindow {
      match wire
      case Host(Enable) => this.(open := None)
      case Host(Disable) => this.(open := Some(t))
      case Host(_) => this
      case Drive(Status(mode)) => OnMode(t, mode)
      case Drive(Report(mode)) => OnMode(t, mode)
      case Drive(_) => this
    }

    function OnMode(t: real, mode: Mode): DisableWindow {
      if mode.Reset? && open.Some? then this.(open := None, toReset := toReset + [Ms(t - open.value)]) else this
    }
  }

  // ----- Identity and parameter replies

  datatype IdentityWindow = IdentityWindow(open: Option<real>, replies: seq<real>, unanswered: nat) {
    function Expire(now: real): IdentityWindow {
      if Late(open, now, REPLY_TIMEOUT) then this.(open := None, unanswered := unanswered + 1) else this
    }

    function On(t: real, wire: Wire): IdentityWindow {
      match wire
      case Host(GetDeviceId) => this.(open := Some(t), unanswered := if open.Some? then unanswered + 1 else unanswered)
      case Drive(Identity) =>
        if open.Some? then this.(open := None, replies := replies + [Ms(t - open.value)]) else this
      case _ => this
    }
  }

  datatype ParamRead = ParamRead(index: nat, at: real)

  datatype ParamWindow = ParamWindow(open: Option<ParamRead>, replies: seq<real>) {
    function Expire(now: real): ParamWindow {
      if open.Some? && now - open.value.at > REPLY_TIMEOUT then this.(open := None) else this
    }

    function On(t: real, wire: Wire): ParamWindow {
      match wire
      case Host(ReadParameter(index)) => this.(open := Some(ParamRead(index, t)))
      case Drive(ParameterRead(index)) =>
        if open.Some? && open.value.index == index
        then this.(open := None, replies := replies + [Ms(t - open.value.at)]) else this
      case _ => this
    }
  }

  // ----- Status replies, matched first in first out

  datatype Solicit = Solicit(at: real, mit: bool)

  /** Whether the command solicits a status, and if so whether it is an MIT command. */
  function Solicits(command: HostCommand): Option<bool> {
    match command
    case GetDeviceId => None
    case ReadParameter(_) => None
    case Mit => Some(true)
    case _ => Some(false)
  }

  datatype StatusQueue = StatusQueue(pending: seq<Solicit>, replies: seq<real>, unanswered: nat) {
    function Expire(now: real): StatusQueue
      decreases |pending|
    {
      if pending == [] || now - pending[0].at <= STATUS_REPLY_WINDOW then this
      else StatusQueue(pending[1..], replies, if pending[0].mit then unanswered + 1 else unanswered).Expire(now)
    }

    function On(t: real, wire: Wire): StatusQueue {
      match wire
      case Host(command) =>
        var mit := Solicits(command);
        if mit.Some? then this.(pending := pending + [Solicit(t, mit.value)]) else this
      case Drive(Status(_)) =>
        if pending == [] then this
        else StatusQueue(pending[1..], if pending[0].mit then replies + [Ms(t - pending[0].at)] else replies, unanswered)
      case Drive(_) => this
    }

    /** The frame is a status that answers the oldest solicit still waiting. */
    predicate Answers(t: real, frame: DriveFrame) {
      frame.Status? && pending != [] && t - pending[0].at <= STATUS_REPLY_WINDOW
    }
  }

  // ----- Reports

  datatype OffWindow = OffWindow(at: real, lastReport: Option<real>, previousReport: Option<real>)

  datatype ReportWindow = ReportWindow(
    last: Option<real>, chained: bool, lastSetZero: Option<real>, off: Option<OffWindow>, periods: seq<real>, offToLast: seq<real>) {

    /** `write` is the reporting write that closes the window; a report just before its echo answers the write. */
    function CloseOff(write: Option<real>): ReportWindow {
      if off.None? then this
      else
        var last := off.value.lastReport;
        var kept := if last.Some? && write.Some? && write.value - last.value < ECHO_LAG then off.value.previousReport else last;
        this.(off := None, offToLast := offToLast + [if kept.None? then 0.0 else Ms(kept.value - off.value.at)])
    }

    function Expire(now: real): ReportWindow {
      if off.Some? && now - off.value.at > OFF_WINDOW then CloseOff(None) else this
    }

    function On(t: real, wire: Wire): ReportWindow {
      match wire
      case Host(SetZero) => this.(lastSetZero := Some(t), chained := false)
      case Host(ActiveReporting(on)) => OnWrite(t, on)
      case Drive(Report(_)) => OnReport(t)
      case _ => this
    }

    function OnWrite(t: real, on: bool): ReportWindow {
      var closed := CloseOff(Some(t)).(chained := false);
      if !on && last.Some? && t - last.value <= STREAM_RUNNING
      then closed.(off := Some(OffWindow(t, None, None))) else closed
    }

    function OnReport(t: real): ReportWindow {
      var afterSetZero := last.Some? && lastSetZero.Some? && last.value - lastSetZero.value <= SET_ZERO_WINDOW;
      this.(
        periods := if last.Some? && chained && !afterSetZero then periods + [Ms(t - last.value)] else periods,
        last := Some(t), chained := true,
        off := if off.None? then None else Some(OffWindow(off.value.at, Some(t), off.value.lastReport)))
    }
  }

  // ----- Silence after SetZero

  datatype Gap = Gap(start: real, end: real)

  datatype SetZeroWindow = SetZeroWindow(at: real, best: Option<Gap>)

  /** What has been seen of the drive since its last frame. */
  datatype Evidence = Evidence(
    lastFrame: Option<real>, streamOn: bool, reportingOff: bool, lastAnswered: bool,
    obligationAt: Option<real>, requested: bool, reportWrite: bool, sparse: bool) {

    function OnHost(t: real, command: HostCommand): Evidence {
      this.(
        sparse := sparse || (obligationAt.Some? && t - obligationAt.value > SILENCE_MIN),
        obligationAt := Some(t), requested := true,
        reportWrite := reportWrite || command.ActiveReporting?,
        reportingOff := if command.ActiveReporting? then !command.on else reportingOff,
        streamOn := streamOn && command != ActiveReporting(false))
    }

    function OnDrive(t: real, frame: DriveFrame, answered: bool): Evidence {
      Evidence(Some(t), if frame.Report? then !reportingOff else streamOn, reportingOff, answered, Some(t), false, false, false)
    }

    /** Reports were running up to the last frame and nothing stopped them. */
    predicate StreamOwed(frame: DriveFrame, lastReport: Option<real>) {
      && streamOn && !reportingOff && !reportWrite && frame.Report?
      && lastFrame.Some? && lastReport.Some? && lastFrame.value - lastReport.value <= STREAM_RUNNING
    }

    /** Both ends of the gap answer requests, and requests ran throughout it. */
    predicate RequestsOwed(t: real, answered: bool) {
      && lastAnswered && answered && requested && !reportWrite && !sparse
      && obligationAt.Some? && t - obligationAt.value <= SILENCE_MIN
    }
  }

  datatype SilenceWindow = SilenceWindow(
    window: Option<SetZeroWindow>, seen: Evidence, starts: seq<real>, silences: seq<real>, unobservable: nat) {

    function Close(): SilenceWindow {
      if window.None? then this
      else
        match window.value.best
        case None => this.(window := None, unobservable := unobservable + 1)
        case Some(gap) =>
          this.(window := None, starts := starts + [Ms(gap.start - window.value.at)], silences := silences + [Ms(gap.end - gap.start)])
    }

    function Expire(now: real): SilenceWindow {
      if window.Some? && now - window.value.at > SET_ZERO_WINDOW then Close() else this
    }

    function OnHost(t: real, command: HostCommand): SilenceWindow {
      var open := if command.SetZero? then Close().(window := Some(SetZeroWindow(t, None))) else this;
      open.(seen := seen.OnHost(t, command))
    }

    /** The gap this frame ends is observable and longer than any before it in the window. */
    predicate Improves(t: real, frame: DriveFrame, answered: bool, lastReport: Option<real>) {
      && window.Some? && seen.lastFrame.Some?
      && seen.lastFrame.value >= window.value.at
      && t - seen.lastFrame.value >= SILENCE_MIN
      && (seen.StreamOwed(frame, lastReport) || seen.RequestsOwed(t, answered))
      && (window.value.best.None? || t - seen.lastFrame.value > window.value.best.value.end - window.value.best.value.start)
    }

    function OnDrive(t: real, frame: DriveFrame, answered: bool, lastReport: Option<real>): SilenceWindow {
      var found := if Improves(t, frame, answered, lastReport)
                   then this.(window := Some(window.value.(best := Some(Gap(seen.lastFrame.value, t))))) else this;
      found.(seen := seen.OnDrive(t, frame, answered))
    }
  }

  // ----- The whole drive

  datatype DriveView = DriveView(
    enable: EnableWindow, disable: DisableWindow, identity: IdentityWindow, param: ParamWindow,
    status: StatusQueue, report: ReportWindow, silence: SilenceWindow) {

    function Expire(now: real): DriveView {
      DriveView(enable.Expire(now), disable.Expire(now), identity.Expire(now), param.Expire(now),
                status.Expire(now), report.Expire(now), silence.Expire(now))
    }

    function OnHost(t: real, command: HostCommand): DriveView {
      var wire := Host(command);
      DriveView(enable.On(t, wire), disable.On(t, wire), identity.On(t, wire), param.On(t, wire),
                status.On(t, wire), report.On(t, wire), silence.OnHost(t, command))
    }

    function OnDrive(t: real, frame: DriveFrame): DriveView {
      var wire := Drive(frame);
      DriveView(enable.On(t, wire), disable.On(t, wire), identity.On(t, wire), param.On(t, wire),
                status.On(t, wire), report.On(t, wire), silence.OnDrive(t, frame, status.Answers(t, frame), report.last))
    }

    function On(e: Timed): DriveView {
      match e.wire
      case Host(command) => OnHost(e.t, command)
      case Drive(frame) => OnDrive(e.t, frame)
    }

    /** The samples with nothing open. */
    function NewFile(): DriveView {
      DriveView(enable.(open := None), disable.(open := None), identity.(open := None), param.(open := None),
                status.(pending := []), ReportWindow(None, false, None, None, report.periods, report.offToLast),
                silence.(window := None, seen := NO_EVIDENCE))
    }

    function FinishFile(end: real): DriveView {
      var d := Expire(end);
      d.(silence := d.silence.Close(), report := d.report.CloseOff(None))
    }
  }

  const NO_EVIDENCE := Evidence(None, false, false, false, None, false, false, false)

  const FRESH := DriveView(
    EnableWindow(None, [], 0, 0), DisableWindow(None, []), IdentityWindow(None, [], 0), ParamWindow(None, []),
    StatusQueue([], [], 0), ReportWindow(None, false, None, None, [], []), SilenceWindow(None, NO_EVIDENCE, [], [], 0))

  // ----- The analyzer's object for one drive

  /** Each window of the drive with the samples it records, inside one file. */
  class DriveState {
    var enable: EnableWindow
    var disable: DisableWindow
    var identity: IdentityWindow
    var param: ParamWindow
    var status: StatusQueue
    var report: ReportWindow
    var silence: SilenceWindow

    ghost function View(): DriveView
      reads this
    {
      DriveView(enable, disable, identity, param, status, report, silence)
    }

    /** A new file: the samples so far, and nothing open. */
    constructor (samples: DriveView)
      ensures View() == samples.NewFile()
    {
      enable := samples.enable.(open := None);
      disable := samples.disable.(open := None);
      identity := samples.identity.(open := None);
      param := samples.param.(open := None);
      status := samples.status.(pending := []);
      report := ReportWindow(None, false, None, None, samples.report.periods, samples.report.offToLast);
      silence := samples.silence.(window := None, seen := NO_EVIDENCE);
    }

    method CloseEnableWithoutRun()
      modifies this`enable
      ensures enable == old(enable).Close()
    {
      if enable.open.Some? {
        enable := enable.(open := None, neverRun := enable.neverRun + 1);
      }
    }

    method CloseSetZero()
      modifies this`silence
      ensures silence == old(silence).Close()
    {
      if silence.window.Some? {
        var window := silence.window.value;
        silence := silence.(window := None);
        match window.best {
          case Some(gap) =>
            silence := silence.(
              starts := silence.starts + [Ms(gap.start - window.at)], silences := silence.silences + [Ms(gap.end - gap.start)]);
          case None =>
            silence := silence.(unobservable := silence.unobservable + 1);
        }
      }
    }

    method CloseOff(closingWrite: Option<real>)
      modifies this`report
      ensures report == old(report).CloseOff(closingWrite)
    {
      if report.off.Some? {
        var off := report.off.value;
        var last := off.lastReport;
        if last.Some? && closingWrite.Some? && closingWrite.value - last.value < ECHO_LAG {
          last := off.previousReport;
        }
        report := report.(
          off := None, offToLast := report.offToLast + [if last.None? then 0.0 else Ms(last.value - off.at)]);
      }
    }

    method DropUnanswered(now: real)
      modifies this`status
      ensures status == old(status).Expire(now)
    {
      while status.pending != [] && now - status.pending[0].at > STATUS_REPLY_WINDOW
        invariant status.Expire(now) == old(status).Expire(now)
        decreases |status.pending|
      {
        var mit := status.pending[0].mit;
        status := status.(pending := status.pending[1..]);
        if mit {
          status := status.(unanswered := status.unanswered + 1);
        }
      }
    }

    /** Close every window whose deadline has passed by `now`. */
    method Expire(now: real)
      modifies this
      ensures View() == old(View()).Expire(now)
    {
      if Late(enable.open, now, ENABLE_RUN_WINDOW) {
        CloseEnableWithoutRun();
      }
      if silence.window.Some? && now - silence.window.value.at > SET_ZERO_WINDOW {
        CloseSetZero();
      }
      if report.off.Some? && now - report.off.value.at > OFF_WINDOW {
        CloseOff(None);
      }
      TimeOutReplies(now);
      DropUnanswered(now);
    }

    method TimeOutReplies(now: real)
      modifies this`identity, this`param, this`disable
      ensures identity == old(identity).Expire(now) && param == old(param).Expire(now) && disable == old(disable).Expire(now)
    {
      if Late(identity.open, now, REPLY_TIMEOUT) {
        identity := identity.(open := None, unanswered := identity.unanswered + 1);
      }
      if param.open.Some? && now - param.open.value.at > REPLY_TIMEOUT {
        param := param.(open := None);
      }
      if Late(disable.open, now, REPLY_TIMEOUT) {
        disable := disable.(open := None);
      }
    }

    /** End of the capture: a window it cut short records what it observed, or nothing. */
    method FinishFile(end: real)
      modifies this
      ensures View() == old(View()).FinishFile(end)
    {
      Expire(end);
      CloseSetZero();
      CloseOff(None);
    }

    method NoteRequest(t: real, command: HostCommand)
      modifies this`silence
      ensures silence == old(silence).(seen := old(silence).seen.OnHost(t, command))
    {
      var seen := silence.seen;
      if seen.obligationAt.Some? {
        seen := seen.(sparse := seen.sparse || t - seen.obligationAt.value > SILENCE_MIN);
      }
      seen := seen.(obligationAt := Some(t), requested := true);
      if command.ActiveReporting? {
        seen := seen.(reportWrite := true, reportingOff := !command.on);
        if !command.on {
          seen := seen.(streamOn := false);
        }
      }
      silence := silence.(seen := seen);
    }

    method OnHost(t: real, command: HostCommand)
      modifies this
      ensures View() == old(View()).OnHost(t, command)
    {
      NoteRequest(t, command);
      match command {
        case GetDeviceId =>
          if identity.open.Some? {
            identity := identity.(unanswered := identity.unanswered + 1);
          }
          identity := identity.(open := Some(t));
        case ReadParameter(index) =>
          param := param.(open := Some(ParamRead(index, t)));
        case Mit =>
        case WriteParameter =>
        case Enable =>
          CloseEnableWithoutRun();
          enable := enable.(open := Some(t));
          disable := disable.(open := None);
        case Disable =>
          CloseEnableWithoutRun();
          disable := disable.(open := Some(t));
        case SetZero =>
          CloseSetZero();
          silence := silence.(window := Some(SetZeroWindow(t, None)));
          report := report.(lastSetZero := Some(t), chained := false);
        case ActiveReporting(on) =>
          CloseOff(Some(t));
          report := report.(chained := false);
          if !on && report.last.Some? && t - report.last.value <= STREAM_RUNNING {
            report := report.(off := Some(OffWindow(t, None, None)));
          }
      }
      var mit := Solicits(command);
      if mit.Some? {
        status := status.(pending := status.pending + [Solicit(t, mit.value)]);
      }
    }

    /** Keep the gap that the frame ends when it is observable silence and the longest so far. */
    method NoteGap(t: real, frame: DriveFrame, answered: bool)
      modifies this`silence
      ensures silence == old(silence).(window := old(silence).OnDrive(t, frame, answered, report.last).window)
    {
      var seen := silence.seen;
      if silence.window.Some? && seen.lastFrame.Some? {
        var window, previous := silence.window.value, seen.lastFrame.value;
        var gap := t - previous;
        var streamOwed :=
          && seen.streamOn && !seen.reportingOff && !seen.reportWrite
          && report.last.Some? && previous - report.last.value <= STREAM_RUNNING
          && frame.Report?;
        var requestsOwed :=
          && seen.lastAnswered && answered && seen.requested && !seen.reportWrite && !seen.sparse
          && seen.obligationAt.Some? && t - seen.obligationAt.value <= SILENCE_MIN;
        if && previous >= window.at && gap >= SILENCE_MIN && (streamOwed || requestsOwed)
           && (window.best.None? || gap > window.best.value.end - window.best.value.start)
        {
          silence := silence.(window := Some(SetZeroWindow(window.at, Some(Gap(previous, t)))));
        }
      }
    }

    method NoteMode(t: real, mode: Mode)
      modifies this`enable, this`disable
      ensures enable == old(enable).OnMode(t, mode) && disable == old(disable).OnMode(t, mode)
    {
      if enable.open.Some? {
        if mode.Run? {
          enable := enable.(toRun := enable.toRun + [Ms(t - enable.open.value)], open := None);
        } else if mode.Reset? {
          enable := enable.(resets := enable.resets + 1);
        }
      }
      if mode.Reset? && disable.open.Some? {
        disable := disable.(toReset := disable.toReset + [Ms(t - disable.open.value)], open := None);
      }
    }

    method NoteReport(t: real)
      modifies this`report
      ensures report == old(report).OnReport(t)
    {
      if report.last.Some? {
        var afterSetZero := report.lastSetZero.Some? && report.last.value - report.lastSetZero.value <= SET_ZERO_WINDOW;
        if report.chained && !afterSetZero {
          report := report.(periods := report.periods + [Ms(t - report.last.value)]);
        }
      }
      report := report.(last := Some(t), chained := true);
      if report.off.Some? {
        report := report.(off := Some(OffWindow(report.off.value.at, Some(t), report.off.value.lastReport)));
      }
    }

    method OnDrive(t: real, frame: DriveFrame)
      modifies this
      ensures View() == old(View()).OnDrive(t, frame)
    {
      var answered := frame.Status? && status.pending != [] && t - status.pending[0].at <= STATUS_REPLY_WINDOW;
      NoteGap(t, frame, answered);
      silence := silence.(
        seen := Evidence(Some(t), silence.seen.streamOn, silence.seen.reportingOff, answered, Some(t), false, false, false));
      match frame {
        case Status(mode) =>
          NoteMode(t, mode);
          if status.pending != [] {
            if status.pending[0].mit {
              status := status.(replies := status.replies + [Ms(t - status.pending[0].at)]);
            }
            status := status.(pending := status.pending[1..]);
          }
        case Report(mode) =>
          NoteMode(t, mode);
          NoteReport(t);
          silence := silence.(seen := silence.seen.(streamOn := !silence.seen.reportingOff));
        case Identity =>
          if identity.open.Some? {
            identity := identity.(replies := identity.replies + [Ms(t - identity.open.value)], open := None);
          }
        case ParameterRead(index) =>
          if param.open.Some? && param.open.value.index == index {
            param := param.(replies := param.replies + [Ms(t - param.open.value.at)], open := None);
          }
        case FaultReport =>
      }
    }
  }
}
