/** The worker's straight-line work on one request, between two looks at the slot. */
module PersistWorker {
  import opened PersistQueue
  import opened PersistRuns
  import opened PersistOutcomes
  import opened PersistGuarantees

  /** The request's own completion reports whether its write succeeded. */
  predicate TellsOwn(event: Event, request: Request, writeOk: bool, revision: string) {
    && Reports(event, request.timestampMs, request.session, request.operator, request.joint,
               if request.param == "limit_patch" then "limit_patch_persist" else "config_persist", writeOk, revision)
    && event.reason == if writeOk then DiskWriteCompleted else WriteFailed
  }

  /** A coalesced patch's completion reports whether the write succeeded with its bounds. */
  predicate TellsCarried(event: Event, carried: Carried, request: Request, writeOk: bool, revision: string) {
    var held := WrittenBy(carried.bounds, request, carried.joint);
    && Reports(event, carried.timestampMs, carried.session, carried.operator, carried.joint, "limit_patch_persist",
               writeOk && held, revision)
    && event.reason == if !writeOk then WriteFailed else if held then DiskWriteCompleted else Superseded(carried.joint)
  }

  /** Attempt every completion of one write: a failed publication neither stops nor skips a later one. */
  method PublishCompletions(request: Request, carried: seq<Carried>, writeOk: bool, revision: string,
                            deliveries: seq<bool>)
    returns (attempts: seq<Attempt>, published: bool)
    requires |deliveries| == |carried| + 1
    ensures |attempts| == |carried| + 1
    ensures forall i | 0 <= i < |attempts| ::
              attempts[i] == Attempt(EventAt(request, carried, writeOk, revision, i), deliveries[i])
    ensures published <==> AllDelivered(attempts)
    ensures forall i | 0 <= i < |carried| :: TellsCarried(attempts[i].event, carried[i], request, writeOk, revision)
    ensures TellsOwn(attempts[|carried|].event, request, writeOk, revision)
  {
    attempts, published := [], true;
    var main := MainEvent(request, writeOk, revision);
    for i := 0 to |carried|
      invariant |attempts| == i
      invariant forall k | 0 <= k < i ::
                  attempts[k] == Attempt(EventAt(request, carried, writeOk, revision, k), deliveries[k])
      invariant published <==> AllDelivered(attempts)
    {
      var completion := carried[i];
      var written := WrittenBy(completion.bounds, request, completion.joint);
      var event := main.(timestampMs := completion.timestampMs, session := completion.session,
                         operator := completion.operator, joint := completion.joint,
                         action := AuditAction(LIMIT_PATCH));
      if !written && main.accepted {
        event := event.(accepted := false, reason := Superseded(event.joint), status := Failed, configRevision := "");
      }
      attempts := attempts + [Attempt(event, deliveries[i])];
      published := published && deliveries[i];
    }
    attempts := attempts + [Attempt(main, deliveries[|carried|])];
    published := published && deliveries[|carried|];
  }

  /** One turn of the worker's inner loop with nobody else at the lock: take, write, publish, finalise. */
  method ServeOne(queue: ConfigPersistQueue, writeOk: bool, revision: string, deliveries: seq<bool>)
    returns (attempts: seq<Attempt>, idle: bool)
    requires |deliveries| == |queue.carried| + 1
    modifies queue
    ensures idle <==> old(queue.request).None?
    ensures idle ==> attempts == [] && queue.View() == old(queue.View())
    ensures !idle ==>
              && queue.View() == Finalised(Taken(old(queue.View())), writeOk, AllDelivered(attempts))
              && |attempts| == old(|queue.carried|) + 1
              && (forall i | 0 <= i < old(|queue.carried|) ::
                    TellsCarried(attempts[i].event, old(queue.carried)[i], old(queue.request).value, writeOk, revision))
              && TellsOwn(attempts[|attempts| - 1].event, old(queue.request).value, writeOk, revision)
  {
    attempts := [];
    var work := queue.Take();
    if work.None? {
      return attempts, true;
    }
    var (request, carried) := work.value;
    var published;
    attempts, published := PublishCompletions(request, carried, writeOk, revision, deliveries);
    queue.Finalise(writeOk, published);
    idle := false;
  }
}
