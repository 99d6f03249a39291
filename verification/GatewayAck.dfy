/**
  The gateway's side of a limit patch: publish the command, wait for the live
  acknowledgement, then for the persist completion, over a broadcast stream that
  may lag, drop, interleave and close. The last section joins it to the persist
  queue on the robot.
 */
module GatewayAck {
  import opened Basics
  import opened LimitConfig
  import opened PersistQueue
  import opened Coalescing
  import opened PersistRuns
  import opened PersistBatches
  import opened PersistGuarantees
  import opened LiveConfig

  const AUDIT_TOPIC := "robot/audit/action"

  /** One broadcast delivery; `event` is absent when the bytes do not decode. */
  datatype Item = Frame(topic: string, event: Option<Event>) | Lagged | Closed

  predicate Matches(item: Item, session: string, action: string) {
    item.Frame? && item.topic == AUDIT_TOPIC && item.event.Some?
    && item.event.value.session == session && item.event.value.action == action
  }

  predicate Stops(item: Item, session: string, action: string) {
    item.Closed? || Matches(item, session, action)
  }

  function ChannelClosed(session: string, joint: string, operator: string, action: string): Event {
    Event(0, session, operator, joint, action, false, Elsewhere("audit channel closed"), Failed, "")
  }

  /** What the wait for (session, action) over these deliveries returns; `None` when its timer fires first. */
  function Acked(items: seq<Item>, session: string, joint: string, operator: string, action: string): Option<Event> {
    if items == [] then None
    else if Matches(items[0], session, action) then items[0].event
    else if items[0].Closed? then Some(ChannelClosed(session, joint, operator, action))
    else Acked(items[1..], session, joint, operator, action)
  }

  /** What is left buffered for the next wait. A closed channel stays closed. */
  function Unread(items: seq<Item>, session: string, action: string): seq<Item> {
    if items == [] then []
    else if Matches(items[0], session, action) then items[1..]
    else if items[0].Closed? then items
    else Unread(items[1..], session, action)
  }

  /** The subscription: deliveries not yet consumed. */
  class Receiver {
    var inbox: seq<Item>

    constructor ()
      ensures inbox == []
    {
      inbox := [];
    }

    /** Wait for an acknowledgement while `arrivals` come in before the timer. */
    method RecvActionAck(arrivals: seq<Item>, session: string, joint: string, operator: string, action: string)
      returns (ack: Option<Event>)
      modifies this
      ensures ack == Acked(old(inbox) + arrivals, session, joint, operator, action)
      ensures inbox == Unread(old(inbox) + arrivals, session, action)
    {
      inbox := inbox + arrivals;
      ghost var items := inbox;
      while inbox != []
        invariant Acked(inbox, session, joint, operator, action) == Acked(items, session, joint, operator, action)
        invariant Unread(inbox, session, action) == Unread(items, session, action)
        decreases |inbox|
      {
        var item := inbox[0];
        if item.Closed? {
          return Some(ChannelClosed(session, joint, operator, action));
        }
        inbox := inbox[1..];
        if item.Frame? && item.topic == AUDIT_TOPIC && item.event.Some? {
          var event := item.event.value;
          if event.session == session && event.action == action {
            return Some(event);
          }
        }
      }
      return None;
    }
  }

  /** A decoded audit event of this session and action. */
  predicate IsEventOf(item: Item, session: string, action: string) {
    && item.Frame? && item.topic == "robot/audit/action" && item.event.Some?
    && item.event.value.session == session && item.event.value.action == action
  }

  /** Delivery `i` is the first that is an event of this session and action, or the end of the channel. */
  predicate FirstStop(items: seq<Item>, i: nat, session: string, action: string) {
    && i < |items| && (items[i].Closed? || IsEventOf(items[i], session, action))
    && forall k | 0 <= k < i :: !items[k].Closed? && !IsEventOf(items[k], session, action)
  }

  predicate NoStop(items: seq<Item>, session: string, action: string) {
    forall k | 0 <= k < |items| :: !items[k].Closed? && !IsEventOf(items[k], session, action)
  }

  /** What a wait returns when delivery `i` ends it: that event, or a synthetic failure when the channel closed. */
  predicate IsAck(ack: Option<Event>, item: Item, session: string, joint: string, operator: string, action: string) {
    if IsEventOf(item, session, action) then ack == item.event
    else ack == Some(Event(0, session, operator, joint, action, false, Elsewhere("audit channel closed"), Failed, ""))
  }

  /** The wait ends at its first stop, returns what that is, and leaves what comes after it; without one it returns nothing. */
  lemma {:induction false} AckedIsFirstStop(items: seq<Item>, session: string, joint: string, operator: string, action: string)
    returns (i: nat)
    ensures var ack, left := Acked(items, session, joint, operator, action), Unread(items, session, action);
            if ack.None? then NoStop(items, session, action) && left == []
            else
              && FirstStop(items, i, session, action) && IsAck(ack, items[i], session, joint, operator, action)
              && left == if items[i].Closed? then items[i..] else items[i + 1..]
  {
    i := 0;
    if items != [] && !Stops(items[0], session, action) {
      i := AckedIsFirstStop(items[1..], session, joint, operator, action);
      assert forall k | 0 < k < |items| :: items[k] == items[1..][k - 1];
      i := i + 1;
    }
  }

  lemma {:induction false} UnreadIsSuffix(items: seq<Item>, session: string, action: string)
    ensures forall item | item in Unread(items, session, action) :: item in items
  {
    if items != [] && !Stops(items[0], session, action) {
      UnreadIsSuffix(items[1..], session, action);
    }
  }

  // ----- The two-phase call

  datatype GatewayStatus = GatewayDurable | GatewayPending | GatewayFailed

  datatype PatchResult = PatchResult(ok: bool, status: GatewayStatus)

  const REFUSED := PatchResult(false, GatewayFailed)

  datatype LimitPatchRequest = LimitPatchRequest(
    joint: string, operator: string, expectedRevision: string,
    positionLower: Option<real>, positionUpper: Option<real>, torqueLimit: Option<real>,
    softLower: Option<real>, softUpper: Option<real>, velocityMax: Option<real>)

  /** The full limits the command carries: the request's where given, the current ones elsewhere. */
  function MergeLimits(before: LimitPatch, request: LimitPatchRequest): LimitPatch {
    LimitPatch(before.joint,
               ValueOr(request.positionLower, before.positionLower),
               ValueOr(request.positionUpper, before.positionUpper),
               OrElse(request.torqueLimit, before.torqueLimit),
               OrElse(request.softLower, before.softLower),
               OrElse(request.softUpper, before.softUpper),
               OrElse(request.velocityMax, before.velocityMax))
  }

  /** The result of the persist wait: a timeout is Pending, a failure or rejection is Failed. */
  function PersistVerdict(ack: Option<Event>): PatchResult {
    match ack
    case None => PatchResult(false, GatewayPending)
    case Some(event) =>
      if event.status == Failed || !event.accepted then REFUSED
      else PatchResult(true, if event.status == Durable then GatewayDurable else GatewayPending)
  }

  /** Everything the call can observe before it waits. */
  datatype Lookup = Lookup(before: Option<LimitPatch>, currentRevision: Option<string>, published: bool)

  predicate Sendable(request: LimitPatchRequest, lookup: Lookup) {
    && !Blank(request.joint) && lookup.before.Some? && lookup.currentRevision.Some?
    && request.expectedRevision != "" && request.expectedRevision == lookup.currentRevision.value
    && lookup.published
  }

  /** The deliveries a call gets to see: buffered before it, during its live wait, and during its persist wait. */
  datatype Heard = Heard(inbox: seq<Item>, duringLive: seq<Item>, duringPersist: seq<Item>)

  /** What is left to the persist wait once the live wait is over. */
  function PersistItems(heard: Heard, session: string): seq<Item> {
    Unread(heard.inbox + heard.duringLive, session, LIMIT_PATCH) + heard.duringPersist
  }

  /** The call's result. */
  function Answer(request: LimitPatchRequest, lookup: Lookup, session: string, heard: Heard): PatchResult {
    var live := Acked(heard.inbox + heard.duringLive, session, request.joint, request.operator, LIMIT_PATCH);
    if !Sendable(request, lookup) || live.None? || !live.value.accepted then REFUSED
    else PersistVerdict(Acked(PersistItems(heard, session), session, request.joint, request.operator, PATCH_PERSIST))
  }

  // ----- The answer, over the deliveries

  /** The request names a joint that is configured, carries the current revision, and its command was published. */
  predicate InOrder(request: LimitPatchRequest, lookup: Lookup) {
    && (exists c | c in request.joint :: !IsSpace(c))
    && lookup.before.Some? && request.expectedRevision != ""
    && lookup.currentRevision == Some(request.expectedRevision) && lookup.published
  }

  /** The call gets to its persist wait: delivery `i` ends the live wait with an accepted event of this session. */
  predicate LiveAccepted(request: LimitPatchRequest, lookup: Lookup, session: string, heard: Heard, i: nat) {
    var items := heard.inbox + heard.duringLive;
    && InOrder(request, lookup) && FirstStop(items, i, session, "limit_patch")
    && IsEventOf(items[i], session, "limit_patch") && items[i].event.value.accepted
  }

  /** What the persist wait hears once delivery `i` has ended the live wait. */
  function LeftAfter(heard: Heard, i: nat): seq<Item>
    requires i < |heard.inbox + heard.duringLive|
  {
    (heard.inbox + heard.duringLive)[i + 1..] + heard.duringPersist
  }

  /** Delivery `k` of what is left ends the persist wait with an accepted event of this session. */
  predicate PersistAccepted(request: LimitPatchRequest, lookup: Lookup, session: string, heard: Heard, i: nat, k: nat) {
    && LiveAccepted(request, lookup, session, heard, i)
    && var left := LeftAfter(heard, i);
       && FirstStop(left, k, session, "limit_patch_persist")
       && IsEventOf(left[k], session, "limit_patch_persist") && left[k].event.value.accepted
  }

  ghost predicate SaysDurable(request: LimitPatchRequest, lookup: Lookup, session: string, heard: Heard) {
    exists i: nat, k: nat :: PersistAccepted(request, lookup, session, heard, i, k)
                             && LeftAfter(heard, i)[k].event.value.status == Durable
  }

  ghost predicate SaysUndecided(request: LimitPatchRequest, lookup: Lookup, session: string, heard: Heard) {
    exists i: nat, k: nat :: PersistAccepted(request, lookup, session, heard, i, k)
                             && LeftAfter(heard, i)[k].event.value.status != Durable
                             && LeftAfter(heard, i)[k].event.value.status != Failed
  }

  ghost predicate SaysNothing(request: LimitPatchRequest, lookup: Lookup, session: string, heard: Heard) {
    exists i: nat :: LiveAccepted(request, lookup, session, heard, i)
                     && NoStop(LeftAfter(heard, i), session, "limit_patch_persist")
  }

  /**
    The whole answer: ok and Durable exactly for an accepted Durable completion,
    ok and Pending exactly for an accepted one that is neither Durable nor Failed,
    not ok and Pending exactly when no completion comes, and a failure otherwise.
   */
  ghost predicate IsAnswer(result: PatchResult, request: LimitPatchRequest, lookup: Lookup, session: string, heard: Heard) {
    && (result == PatchResult(true, GatewayDurable) <==> SaysDurable(request, lookup, session, heard))
    && (result == PatchResult(true, GatewayPending) <==> SaysUndecided(request, lookup, session, heard))
    && (result == PatchResult(false, GatewayPending) <==> SaysNothing(request, lookup, session, heard))
    && (result == PatchResult(false, GatewayFailed) <==>
          && !SaysDurable(request, lookup, session, heard) && !SaysUndecided(request, lookup, session, heard)
          && !SaysNothing(request, lookup, session, heard))
  }

  lemma {:induction false} OneFirstStop(items: seq<Item>, i: nat, j: nat, session: string, action: string)
    requires FirstStop(items, i, session, action) && FirstStop(items, j, session, action)
    ensures i == j
  {
  }

  lemma {:induction false} SendableIff(request: LimitPatchRequest, lookup: Lookup)
    ensures Sendable(request, lookup) <==> InOrder(request, lookup)
  {
    if !Blank(request.joint) {
      var k :| 0 <= k < |request.joint| && !IsSpace(request.joint[k]);
      assert request.joint[k] in request.joint;
    }
  }

  /** The live wait decides whether the call goes on, and what it leaves to the persist wait. */
  lemma {:induction false} LiveWait(request: LimitPatchRequest, lookup: Lookup, session: string, heard: Heard) returns (i: nat)
    ensures var live := Acked(heard.inbox + heard.duringLive, session, request.joint, request.operator, LIMIT_PATCH);
            if Sendable(request, lookup) && live.Some? && live.value.accepted then
              LiveAccepted(request, lookup, session, heard, i) && PersistItems(heard, session) == LeftAfter(heard, i)
            else forall j: nat :: !LiveAccepted(request, lookup, session, heard, j)
  {
    var items := heard.inbox + heard.duringLive;
    SendableIff(request, lookup);
    i := AckedIsFirstStop(items, session, request.joint, request.operator, LIMIT_PATCH);
    forall j: nat | LiveAccepted(request, lookup, session, heard, j) && FirstStop(items, i, session, LIMIT_PATCH) ensures i == j {
      OneFirstStop(items, i, j, session, LIMIT_PATCH);
    }
  }

  /** Once the live wait has accepted at `i`, the verdict is that of the first stop left to the persist wait. */
  lemma {:induction false} VerdictIsAnswer(request: LimitPatchRequest, lookup: Lookup, session: string, heard: Heard, i: nat)
    requires LiveAccepted(request, lookup, session, heard, i)
    ensures IsAnswer(PersistVerdict(Acked(LeftAfter(heard, i), session, request.joint, request.operator, PATCH_PERSIST)),
                     request, lookup, session, heard)
  {
    var left := LeftAfter(heard, i);
    var ack := Acked(left, session, request.joint, request.operator, PATCH_PERSIST);
    var k := AckedIsFirstStop(left, session, request.joint, request.operator, PATCH_PERSIST);
    forall j: nat | LiveAccepted(request, lookup, session, heard, j) ensures j == i {
      OneFirstStop(heard.inbox + heard.duringLive, i, j, session, "limit_patch");
    }
    if ack.None? {
      assert SaysNothing(request, lookup, session, heard);
    } else {
      StopDecides(request, lookup, session, heard, i, k, ack.value);
    }
  }

  lemma {:induction false} StopDecides(request: LimitPatchRequest, lookup: Lookup, session: string, heard: Heard, i: nat, k: nat,
      event: Event)
    requires LiveAccepted(request, lookup, session, heard, i)
    requires forall j: nat | LiveAccepted(request, lookup, session, heard, j) :: j == i
    requires FirstStop(LeftAfter(heard, i), k, session, "limit_patch_persist")
    requires IsAck(Some(event), LeftAfter(heard, i)[k], session, request.joint, request.operator, "limit_patch_persist")
    ensures IsAnswer(PersistVerdict(Some(event)), request, lookup, session, heard)
  {
    var left := LeftAfter(heard, i);
    forall m: nat | FirstStop(left, m, session, "limit_patch_persist") ensures m == k {
      OneFirstStop(left, k, m, session, "limit_patch_persist");
    }
    assert !NoStop(left, session, "limit_patch_persist");
    assert IsEventOf(left[k], session, "limit_patch_persist") && event.accepted <==>
           PersistAccepted(request, lookup, session, heard, i, k);
  }

  /** What the call answers is decided by the deliveries alone, in every case. */
  lemma {:induction false} AnswerIsDecided(request: LimitPatchRequest, lookup: Lookup, session: string, heard: Heard)
    ensures IsAnswer(Answer(request, lookup, session, heard), request, lookup, session, heard)
  {
    var live := Acked(heard.inbox + heard.duringLive, session, request.joint, request.operator, LIMIT_PATCH);
    var i := LiveWait(request, lookup, session, heard);
    if Sendable(request, lookup) && live.Some? && live.value.accepted {
      VerdictIsAnswer(request, lookup, session, heard, i);
    }
  }

  method ApplyLimitPatch(rx: Receiver, request: LimitPatchRequest, lookup: Lookup, session: string,
                         duringLive: seq<Item>, duringPersist: seq<Item>)
    returns (result: PatchResult)
    modifies rx
    ensures result == Answer(request, lookup, session, Heard(old(rx.inbox), duringLive, duringPersist))
    ensures IsAnswer(result, request, lookup, session, Heard(old(rx.inbox), duringLive, duringPersist))
  {
    AnswerIsDecided(request, lookup, session, Heard(rx.inbox, duringLive, duringPersist));
    if Blank(request.joint) || lookup.before.None? || lookup.currentRevision.None? {
      return REFUSED;
    }
    if request.expectedRevision == "" || request.expectedRevision != lookup.currentRevision.value {
      return REFUSED;
    }
    if !lookup.published {
      return REFUSED;
    }
    var live := rx.RecvActionAck(duringLive, session, request.joint, request.operator, LIMIT_PATCH);
    if live.None? || !live.value.accepted {
      return REFUSED;
    }
    var persist := rx.RecvActionAck(duringPersist, session, request.joint, request.operator, PATCH_PERSIST);
    if persist.None? {
      return PatchResult(false, GatewayPending);
    }
    var event := persist.value;
    var status := match event.status
      case Durable => GatewayDurable
      case Failed => GatewayFailed
      case _ => GatewayPending;
    if status == GatewayFailed || !event.accepted {
      return REFUSED;
    }
    return PatchResult(true, status);
  }

  /** Durable is only ever answered for a delivered, accepted, Durable persist event of this very session. */
  lemma {:induction false} DurableNeedsEvent(items: seq<Item>, session: string, joint: string, operator: string)
    requires PersistVerdict(Acked(items, session, joint, operator, PATCH_PERSIST)).status == GatewayDurable
    ensures exists item :: item in items && Matches(item, session, PATCH_PERSIST)
                           && item.event.value.status == Durable && item.event.value.accepted
  {
    if Matches(items[0], session, PATCH_PERSIST) {
      assert items[0] in items;
    } else {
      DurableNeedsEvent(items[1..], session, joint, operator);
      var item :| item in items[1..] && Matches(item, session, PATCH_PERSIST)
                  && item.event.value.status == Durable && item.event.value.accepted;
      assert item in items;
    }
  }

  // ----- End to end

  /**
    What the gateway hears of the robot's completions: any subset, in any order,
    delayed and interleaved with anything else, but no completion the robot did
    not publish. No other publisher uses the write-behind action.
   */
  ghost predicate LossyView(items: seq<Item>, attempts: seq<Attempt>) {
    forall item | item in items && item.Frame? && item.event.Some? && item.event.value.action == PATCH_PERSIST ::
      exists a :: 0 <= a < |attempts| && attempts[a].delivered && attempts[a].event == item.event.value
  }

  /** The w-th write stands for `patch`, succeeded and held its bounds, in the directory its batch ended in. */
  ghost predicate DurableWrite(s: System, w: int, patch: Request) {
    && CompletePatch(patch) && HasBatch(s.accepted, s.writes, w)
    && var batch := BatchOf(s.accepted, s.writes, w);
       && patch in batch && s.writes[w].ok && WrittenBy(BoundsOf(patch), s.writes[w].request, patch.joint)
       && (WroteBounds(s.writes, w, patch) <==> batch[|batch| - 1].configDir == patch.configDir)
  }

  /**
    Durability soundness: in every run of the persist queue and for every lossy
    view of it, a call that answers Durable for a session had its patch accepted,
    and a successful write that stands for the patch held its bounds. They are in
    the patch's own directory unless the batch ended in another one.
   */
  lemma {:induction false} DurableAnswerIsOnDisk(disk: Disk, steps: seq<Step>, request: LimitPatchRequest,
                                                 lookup: Lookup, session: string, heard: Heard)
    requires Run(disk, steps).Some?
    requires LossyView(heard.inbox + heard.duringLive + heard.duringPersist, Run(disk, steps).value.attempts)
    requires Answer(request, lookup, session, heard).status == GatewayDurable
    ensures Sendable(request, lookup)
    ensures var s := Run(disk, steps).value;
            && IsPatchSession(s.accepted, session)
            && forall patch | patch in s.accepted && IsPatch(patch) && patch.session == session ::
                 exists w :: DurableWrite(s, w, patch)
  {
    UnreadIsSuffix(heard.inbox + heard.duringLive, session, LIMIT_PATCH);
    VerdictIsOnDisk(disk, steps, PersistItems(heard, session), session, request.joint, request.operator);
  }

  lemma {:induction false} VerdictIsOnDisk(disk: Disk, steps: seq<Step>, items: seq<Item>,
                                           session: string, joint: string, operator: string)
    requires Run(disk, steps).Some? && LossyView(items, Run(disk, steps).value.attempts)
    requires PersistVerdict(Acked(items, session, joint, operator, PATCH_PERSIST)).status == GatewayDurable
    ensures var s := Run(disk, steps).value;
            && IsPatchSession(s.accepted, session)
            && forall patch | patch in s.accepted && IsPatch(patch) && patch.session == session ::
                 exists w :: DurableWrite(s, w, patch)
  {
    var s := Run(disk, steps).value;
    DurableNeedsEvent(items, session, joint, operator);
    var item :| item in items && Matches(item, session, PATCH_PERSIST)
                && item.event.value.status == Durable && item.event.value.accepted;
    var a :| 0 <= a < |s.attempts| && s.attempts[a].delivered && s.attempts[a].event == item.event.value;
    NoInventedCompletion(disk, steps, a);
    forall patch | patch in s.accepted && IsPatch(patch) && patch.session == session
      ensures exists w :: DurableWrite(s, w, patch)
    {
      DurableIsBacked(disk, steps, a, patch);
      assert DurableWrite(s, s.origins[a].write, patch);
    }
  }

  /** What the persist wait hears is part of what the call heard. */
  lemma {:induction false} LeftIsHeard(heard: Heard, i: nat, k: nat)
    requires i < |heard.inbox + heard.duringLive| && k < |LeftAfter(heard, i)|
    ensures LeftAfter(heard, i)[k] in heard.inbox + heard.duringLive + heard.duringPersist
  {
  }

  /** A completion the persist wait stops at is one the robot attempted, and reports its own write truthfully. */
  lemma {:induction false} HeardIsCompletion(disk: Disk, steps: seq<Step>, heard: Heard, session: string, i: nat, k: nat)
    returns (a: nat, patch: Request)
    requires Run(disk, steps).Some?
    requires LossyView(heard.inbox + heard.duringLive + heard.duringPersist, Run(disk, steps).value.attempts)
    requires i < |heard.inbox + heard.duringLive| && k < |LeftAfter(heard, i)|
    requires IsEventOf(LeftAfter(heard, i)[k], session, "limit_patch_persist")
    ensures var s := Run(disk, steps).value;
            && a < |s.attempts| == |s.origins| && patch in s.accepted && IsPatch(patch) && patch.session == session
            && LeftAfter(heard, i)[k].event == Some(s.attempts[a].event)
            && CompletedBy(s.accepted, s.writes, s.origins[a].write, patch, s.attempts[a].event)
  {
    var s := Run(disk, steps).value;
    LeftIsHeard(heard, i, k);
    var event := LeftAfter(heard, i)[k].event.value;
    a :| 0 <= a < |s.attempts| && s.attempts[a].delivered && s.attempts[a].event == event;
    EveryRunIsSound(disk, steps);
    patch := AttemptIsCompletion(s, a);
  }

  /** The robot publishes only Durable and Failed completions, so a call that answers ok answers Durable. */
  lemma {:induction false} OkMeansDurable(disk: Disk, steps: seq<Step>, request: LimitPatchRequest,
                                          lookup: Lookup, session: string, heard: Heard)
    requires Run(disk, steps).Some?
    requires LossyView(heard.inbox + heard.duringLive + heard.duringPersist, Run(disk, steps).value.attempts)
    ensures Answer(request, lookup, session, heard).ok <==> Answer(request, lookup, session, heard).status == GatewayDurable
  {
    AnswerIsDecided(request, lookup, session, heard);
    if SaysUndecided(request, lookup, session, heard) {
      var i: nat, k: nat :| PersistAccepted(request, lookup, session, heard, i, k)
                            && LeftAfter(heard, i)[k].event.value.status != Durable
                            && LeftAfter(heard, i)[k].event.value.status != Failed;
      var a, patch := HeardIsCompletion(disk, steps, heard, session, i, k);
    }
  }

  /** A call whose persist wait stops at a superseded or failed completion answers a failure. */
  lemma {:induction false} HeardFailureIsRefused(disk: Disk, steps: seq<Step>, request: LimitPatchRequest,
                                                 lookup: Lookup, session: string, heard: Heard, i: nat, k: nat)
    requires Run(disk, steps).Some?
    requires LossyView(heard.inbox + heard.duringLive + heard.duringPersist, Run(disk, steps).value.attempts)
    requires LiveAccepted(request, lookup, session, heard, i)
    requires FirstStop(LeftAfter(heard, i), k, session, "limit_patch_persist")
    requires var item := LeftAfter(heard, i)[k];
             item.Frame? && item.event.Some? && (item.event.value.reason.Superseded? || item.event.value.reason.WriteFailed?)
    ensures Answer(request, lookup, session, heard) == PatchResult(false, GatewayFailed)
  {
    var a, patch := HeardIsCompletion(disk, steps, heard, session, i, k);
    AnswerIsDecided(request, lookup, session, heard);
    OnlyThisStop(request, lookup, session, heard, i, k);
  }

  lemma {:induction false} OnlyThisStop(request: LimitPatchRequest, lookup: Lookup, session: string, heard: Heard, i: nat, k: nat)
    requires LiveAccepted(request, lookup, session, heard, i)
    requires FirstStop(LeftAfter(heard, i), k, session, "limit_patch_persist")
    ensures !SaysNothing(request, lookup, session, heard)
    ensures forall j: nat, m: nat | PersistAccepted(request, lookup, session, heard, j, m) :: j == i && m == k
  {
    forall j: nat | LiveAccepted(request, lookup, session, heard, j) ensures j == i {
      OneFirstStop(heard.inbox + heard.duringLive, i, j, session, "limit_patch");
    }
    forall m: nat | FirstStop(LeftAfter(heard, i), m, session, "limit_patch_persist") ensures m == k {
      OneFirstStop(LeftAfter(heard, i), k, m, session, "limit_patch_persist");
    }
  }
}
