/**
  Captures of several files: no pairing crosses a file boundary, so the samples of
  a drive are those of its files side by side.
 */
module DriveFiles {
  import opened Basics
  import opened DriveTiming
  import opened DriveRuns

  // ----- The samples of one window put after earlier ones

  function AfterEnable(p: EnableWindow, w: EnableWindow): EnableWindow {
    EnableWindow(w.open, p.toRun + w.toRun, p.neverRun + w.neverRun, p.resets + w.resets)
  }

  function AfterDisable(p: DisableWindow, w: DisableWindow): DisableWindow {
    DisableWindow(w.open, p.toReset + w.toReset)
  }

  function AfterIdentity(p: IdentityWindow, w: IdentityWindow): IdentityWindow {
    IdentityWindow(w.open, p.replies + w.replies, p.unanswered + w.unanswered)
  }

  function AfterParam(p: ParamWindow, w: ParamWindow): ParamWindow {
    ParamWindow(w.open, p.replies + w.replies)
  }

  function AfterStatus(p: StatusQueue, q: StatusQueue): StatusQueue {
    StatusQueue(q.pending, p.replies + q.replies, p.unanswered + q.unanswered)
  }

  function AfterReport(p: ReportWindow, w: ReportWindow): ReportWindow {
    w.(periods := p.periods + w.periods, offToLast := p.offToLast + w.offToLast)
  }

  function AfterSilence(p: SilenceWindow, w: SilenceWindow): SilenceWindow {
    w.(starts := p.starts + w.starts, silences := p.silences + w.silences, unobservable := p.unobservable + w.unobservable)
  }

  function After(p: DriveView, d: DriveView): DriveView {
    DriveView(AfterEnable(p.enable, d.enable), AfterDisable(p.disable, d.disable), AfterIdentity(p.identity, d.identity),
              AfterParam(p.param, d.param), AfterStatus(p.status, d.status), AfterReport(p.report, d.report),
              AfterSilence(p.silence, d.silence))
  }

  // ----- Every step only adds samples

  lemma {:induction false} Append(p: seq<real>, s: seq<real>, x: real)
    ensures p + (s + [x]) == p + s + [x]
  {
  }

  lemma {:induction false} EnableAdds(p: EnableWindow, w: EnableWindow, t: real, wire: Wire)
    ensures AfterEnable(p, w).Expire(t) == AfterEnable(p, w.Expire(t))
    ensures AfterEnable(p, w).On(t, wire) == AfterEnable(p, w.On(t, wire))
  {
    if w.open.Some? {
      Append(p.toRun, w.toRun, Ms(t - w.open.value));
    }
  }

  lemma {:induction false} DisableAdds(p: DisableWindow, w: DisableWindow, t: real, wire: Wire)
    ensures AfterDisable(p, w).Expire(t) == AfterDisable(p, w.Expire(t))
    ensures AfterDisable(p, w).On(t, wire) == AfterDisable(p, w.On(t, wire))
  {
    if w.open.Some? {
      Append(p.toReset, w.toReset, Ms(t - w.open.value));
    }
  }

  lemma {:induction false} IdentityAdds(p: IdentityWindow, w: IdentityWindow, t: real, wire: Wire)
    ensures AfterIdentity(p, w).Expire(t) == AfterIdentity(p, w.Expire(t))
    ensures AfterIdentity(p, w).On(t, wire) == AfterIdentity(p, w.On(t, wire))
  {
    if w.open.Some? {
      Append(p.replies, w.replies, Ms(t - w.open.value));
    }
  }

  lemma {:induction false} ParamAdds(p: ParamWindow, w: ParamWindow, t: real, wire: Wire)
    ensures AfterParam(p, w).Expire(t) == AfterParam(p, w.Expire(t))
    ensures AfterParam(p, w).On(t, wire) == AfterParam(p, w.On(t, wire))
  {
    if w.open.Some? {
      Append(p.replies, w.replies, Ms(t - w.open.value.at));
    }
  }

  lemma {:induction false} QueueExpiryAdds(p: StatusQueue, q: StatusQueue, t: real)
    ensures AfterStatus(p, q).Expire(t) == AfterStatus(p, q.Expire(t))
    decreases |q.pending|
  {
    if q.pending != [] && t - q.pending[0].at > STATUS_REPLY_WINDOW {
      QueueExpiryAdds(p, StatusQueue(q.pending[1..], q.replies, if q.pending[0].mit then q.unanswered + 1 else q.unanswered), t);
    }
  }

  lemma {:induction false} QueueAdds(p: StatusQueue, q: StatusQueue, t: real, wire: Wire)
    ensures AfterStatus(p, q).On(t, wire) == AfterStatus(p, q.On(t, wire))
  {
    if q.pending != [] {
      Append(p.replies, q.replies, Ms(t - q.pending[0].at));
    }
  }

  lemma {:induction false} OffAdds(p: ReportWindow, w: ReportWindow, write: Option<real>)
    ensures AfterReport(p, w).CloseOff(write) == AfterReport(p, w.CloseOff(write))
  {
    if w.off.Some? {
      assert p.offToLast + w.CloseOff(write).offToLast == p.offToLast + w.offToLast + [w.CloseOff(write).offToLast[|w.offToLast|]];
    }
  }

  lemma {:induction false} ReportAdds(p: ReportWindow, w: ReportWindow, t: real, wire: Wire)
    ensures AfterReport(p, w).Expire(t) == AfterReport(p, w.Expire(t))
    ensures AfterReport(p, w).On(t, wire) == AfterReport(p, w.On(t, wire))
  {
    OffAdds(p, w, None);
    OffAdds(p, w, Some(t));
    if w.last.Some? {
      Append(p.periods, w.periods, Ms(t - w.last.value));
    }
  }

  lemma {:induction false} SilenceCloseAdds(p: SilenceWindow, w: SilenceWindow)
    ensures AfterSilence(p, w).Close() == AfterSilence(p, w.Close())
  {
    if w.window.Some? && w.window.value.best.Some? {
      var gap := w.window.value.best.value;
      Append(p.starts, w.starts, Ms(gap.start - w.window.value.at));
      Append(p.silences, w.silences, Ms(gap.end - gap.start));
    }
  }

  lemma {:induction false} ExpiryAdds(p: DriveView, d: DriveView, t: real)
    ensures After(p, d).Expire(t) == After(p, d.Expire(t))
  {
    EnableAdds(p.enable, d.enable, t, Host(Mit));
    DisableAdds(p.disable, d.disable, t, Host(Mit));
    IdentityAdds(p.identity, d.identity, t, Host(Mit));
    ParamAdds(p.param, d.param, t, Host(Mit));
    QueueExpiryAdds(p.status, d.status, t);
    ReportAdds(p.report, d.report, t, Host(Mit));
    SilenceCloseAdds(p.silence, d.silence);
  }

  lemma {:induction false} SilenceHostAdds(p: SilenceWindow, w: SilenceWindow, t: real, command: HostCommand)
    ensures AfterSilence(p, w).OnHost(t, command) == AfterSilence(p, w.OnHost(t, command))
  {
    SilenceCloseAdds(p, w);
  }

  lemma {:induction false} SilenceDriveAdds(p: SilenceWindow, w: SilenceWindow, t: real, frame: DriveFrame, answered: bool, last: Option<real>)
    ensures AfterSilence(p, w).OnDrive(t, frame, answered, last) == AfterSilence(p, w.OnDrive(t, frame, answered, last))
  {
  }

  lemma {:induction false} RepliesAdd(p: DriveView, d: DriveView, t: real, wire: Wire)
    ensures AfterEnable(p.enable, d.enable).On(t, wire) == AfterEnable(p.enable, d.enable.On(t, wire))
    ensures AfterDisable(p.disable, d.disable).On(t, wire) == AfterDisable(p.disable, d.disable.On(t, wire))
    ensures AfterIdentity(p.identity, d.identity).On(t, wire) == AfterIdentity(p.identity, d.identity.On(t, wire))
    ensures AfterParam(p.param, d.param).On(t, wire) == AfterParam(p.param, d.param.On(t, wire))
  {
    EnableAdds(p.enable, d.enable, t, wire);
    DisableAdds(p.disable, d.disable, t, wire);
    IdentityAdds(p.identity, d.identity, t, wire);
    ParamAdds(p.param, d.param, t, wire);
  }

  lemma {:induction false} HostAdds(p: DriveView, d: DriveView, t: real, command: HostCommand)
    ensures After(p, d).OnHost(t, command) == After(p, d.OnHost(t, command))
  {
    RepliesAdd(p, d, t, Host(command));
    QueueAdds(p.status, d.status, t, Host(command));
    ReportAdds(p.report, d.report, t, Host(command));
    SilenceHostAdds(p.silence, d.silence, t, command);
  }

  lemma {:induction false} DriveAdds(p: DriveView, d: DriveView, t: real, frame: DriveFrame)
    ensures After(p, d).OnDrive(t, frame) == After(p, d.OnDrive(t, frame))
  {
    RepliesAdd(p, d, t, Drive(frame));
    QueueAdds(p.status, d.status, t, Drive(frame));
    ReportAdds(p.report, d.report, t, Drive(frame));
    SilenceDriveAdds(p.silence, d.silence, t, frame, d.status.Answers(t, frame), d.report.last);
  }

  lemma {:induction false} FrameAdds(p: DriveView, d: DriveView, e: Timed)
    ensures After(p, d).On(e) == After(p, d.On(e))
  {
    match e.wire
    case Host(command) => HostAdds(p, d, e.t, command);
    case Drive(frame) => DriveAdds(p, d, e.t, frame);
  }

  lemma {:induction false} RunAdds(p: DriveView, d: DriveView, frames: seq<Timed>)
    ensures RunFrames(After(p, d), frames) == After(p, RunFrames(d, frames))
  {
    if frames != [] {
      var before, e := frames[..|frames| - 1], frames[|frames| - 1];
      RunAdds(p, d, before);
      ExpiryAdds(p, RunFrames(d, before), e.t);
      FrameAdds(p, RunFrames(d, before).Expire(e.t), e);
    }
  }

  /** A new file is the earlier samples with an untouched drive after them. */
  lemma {:induction false} NewFileIsAfter(samples: DriveView)
    ensures samples.NewFile() == After(samples, FRESH)
  {
    assert samples.enable.toRun + [] == samples.enable.toRun;
    assert samples.disable.toReset + [] == samples.disable.toReset;
    assert samples.identity.replies + [] == samples.identity.replies;
    assert samples.param.replies + [] == samples.param.replies;
    assert samples.status.replies + [] == samples.status.replies;
    assert samples.report.periods + [] == samples.report.periods;
    assert samples.report.offToLast + [] == samples.report.offToLast;
    assert samples.silence.starts + [] == samples.silence.starts;
    assert samples.silence.silences + [] == samples.silence.silences;
  }

  /** What a file adds does not depend on the files before it. */
  lemma {:induction false} FilesAreIndependent(samples: DriveView, frames: seq<Timed>, end: real)
    ensures RunFile(samples, frames, end) == After(samples, RunFile(FRESH, frames, end))
  {
    NewFileIsAfter(samples);
    NewFileIsAfter(FRESH);
    RunAdds(samples, FRESH, frames);
    RunAdds(FRESH, FRESH, frames);
    var d := RunFrames(FRESH, frames);
    ExpiryAdds(samples, d, end);
    SilenceCloseAdds(samples.silence, d.Expire(end).silence);
    OffAdds(samples.report, d.Expire(end).report, None);
  }
}
