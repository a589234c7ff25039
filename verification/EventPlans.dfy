/** Event submission and resolution, checkpoint requests, and the decision each one commits. */
module EventPlans {
  import opened Finite
  import opened CoordinationTypes
  import opened LeaseLiveness
  import opened CoordinationState
  import opened LeasePlans

  const BROKER_ACTOR := Controller(0, 0)

  // ---- what a submission looks up ------------------------------------------------------------

  function OpenOf(events: map<EventId, StoredEvent>, w: SubjectId): set<EventId> {
    set id | id in events && events[id].event.workerId == w && events[id].state.Open?
  }

  function OpenProgressOf(events: map<EventId, StoredEvent>, w: SubjectId): set<EventId> {
    set id | id in events && events[id].event.workerId == w && events[id].state.Open? && events[id].event.kind.PROGRESS?
  }

  function EvictableOf(events: map<EventId, StoredEvent>, w: SubjectId): set<EventId> {
    set id | id in events && events[id].event.workerId == w && events[id].state.Open? && !IsPinned(events[id])
  }

  /** Events of `w` received after `floor`; the source subtracts, so the floor may lie before time 0. */
  function ReceivedAfter(events: map<EventId, StoredEvent>, w: SubjectId, floor: int): set<EventId> {
    set id | id in events && events[id].event.workerId == w && events[id].receivedAt > floor
  }

  ghost predicate IsLatest(events: map<EventId, StoredEvent>, ids: set<EventId>, id: EventId) {
    && ids <= events.Keys && id in ids
    && forall j :: j in ids ==> events[j].event.sequence <= events[id].event.sequence
  }

  ghost predicate IsOldest(events: map<EventId, StoredEvent>, ids: set<EventId>, id: EventId) {
    && ids <= events.Keys && id in ids
    && forall j :: j in ids ==> events[id].ordinal <= events[j].ordinal
  }

  /** The open progress report with the highest sequence. */
  ghost function LatestProgress(events: map<EventId, StoredEvent>, w: SubjectId): (r: Option<EventId>)
    ensures r.Some? ==> IsLatest(events, OpenProgressOf(events, w), r.value)
  {
    if exists id :: IsLatest(events, OpenProgressOf(events, w), id)
    then var id :| IsLatest(events, OpenProgressOf(events, w), id); Some(id)
    else None
  }

  /** The unpinned open event with the lowest ordinal. */
  ghost function OldestEvictable(events: map<EventId, StoredEvent>, w: SubjectId): (r: Option<EventId>)
    ensures r.Some? ==> IsOldest(events, EvictableOf(events, w), r.value)
  {
    if exists id :: IsOldest(events, EvictableOf(events, w), id)
    then var id :| IsOldest(events, EvictableOf(events, w), id); Some(id)
    else None
  }

  /** The highest sequence among `ids`, 0 when there are none. */
  ghost function MaxSequence(events: map<EventId, StoredEvent>, ids: set<EventId>): (top: nat)
    requires ids <= events.Keys
    ensures forall id :: id in ids ==> events[id].event.sequence <= top
    ensures ids == {} ==> top == 0
    ensures ids != {} ==> exists id :: id in ids && events[id].event.sequence == top
  {
    if ids == {} then 0
    else
      var id :| id in ids;
      var rest := MaxSequence(events, ids - {id});
      if events[id].event.sequence >= rest then events[id].event.sequence else rest
  }

  ghost function LastSequence(events: map<EventId, StoredEvent>, w: SubjectId): (top: nat)
    ensures forall id :: id in EventsOf(events, w) ==> events[id].event.sequence <= top
    ensures EventsOf(events, w) == {} ==> top == 0
    ensures EventsOf(events, w) != {} ==> exists id :: id in EventsOf(events, w) && events[id].event.sequence == top
  {
    MaxSequence(events, EventsOf(events, w))
  }

  // ---- submitEvent ---------------------------------------------------------------------------

  function Reject(id: MutationId, operation: Operation, eventId: EventId, reason: Rejection, tx: Transaction, ordinals: nat)
    : Plan
  {
    Receipted(id, operation, Unkeyed, EventResult(Rejected(eventId, reason)), tx, ordinals)
  }

  /** A refused authentication also persists the projected lease, when the projection built one. */
  function ProjectionTx(cfg: Config, m: Memory, x: SubjectId, now: Time): Transaction
    requires x in m.subjects
  {
    var s := m.subjects[x];
    if IsCopied(s.lease, ControllerLiveness(s.lease, m.liveness), now, cfg.grace)
    then NO_CHANGES.(subjects := map[x := ExpiredCopy(cfg, m, s, now)])
    else NO_CHANGES
  }

  function SupersededCopy(previous: StoredEvent, ordinal: nat, successor: EventId, now: Time): StoredEvent {
    previous.(ordinal := ordinal, state := Superseded, supersededBy := Some(successor), resolvedAt := Some(now))
  }

  function EvictedCopy(victim: StoredEvent, ordinal: nat, now: Time): StoredEvent {
    victim.(ordinal := ordinal, state := Closed, resolvedAt := Some(now), resolvedBy := Some(BROKER_ACTOR))
  }

  /** What queueing `e` does to the stored events. */
  datatype Queueing = Queueing(
    superseded: Option<EventId>,  // the progress report `e` replaces
    over: bool,                   // the queue would exceed its limit
    evicted: Option<EventId>)     // what makes room, when something can

  ghost function QueueingOf(cfg: Config, events: map<EventId, StoredEvent>, e: WorkerEvent): (q: Queueing)
    ensures q.superseded.Some? ==> q.superseded.value in OpenProgressOf(events, e.workerId)
    ensures q.evicted.Some? ==> q.over && q.evicted.value in EvictableOf(events, e.workerId)
  {
    var superseded := if e.kind.PROGRESS? then LatestProgress(events, e.workerId) else None;
    var growth := if superseded.Some? then 0 else 1;
    var over := |OpenOf(events, e.workerId)| + growth > cfg.maxQueued;
    Queueing(superseded, over, if over then OldestEvictable(events, e.workerId) else None)
  }

  function OrdinalsDrawn(q: Queueing): nat {
    (if q.superseded.Some? then 1 else 0) + (if q.over && q.evicted.Some? then 1 else 0)
  }

  function ClosedEvents(events: map<EventId, StoredEvent>, q: Queueing, e: WorkerEvent, next: nat, now: Time): seq<StoredEvent>
    requires q.superseded.Some? ==> q.superseded.value in events
    requires q.evicted.Some? ==> q.evicted.value in events
  {
    (if q.superseded.Some? then [SupersededCopy(events[q.superseded.value], next, e.eventId, now)] else [])
    + (if q.evicted.Some?
       then [EvictedCopy(events[q.evicted.value], next + (if q.superseded.Some? then 1 else 0), now)] else [])
  }

  function StoredOf(events: map<EventId, StoredEvent>, q: Queueing, e: WorkerEvent, next: nat, now: Time): StoredEvent
    requires q.superseded.Some? ==> q.superseded.value in events
  {
    var material := if q.superseded.Some?
      then e.(payload := Merged(events[q.superseded.value].event.payload, e.payload)) else e;
    StoredEvent(material, next + OrdinalsDrawn(q), now, e, Open, None, None, None)
  }

  predicate AnswersPending(m: Memory, e: WorkerEvent)
    requires e.correlation.Some?
  {
    var key := CheckpointKey(e.workerId, e.correlation.value);
    e.kind.CHECKPOINT? && key in m.checkpoints && m.checkpoints[key].state.Pending?
  }

  function AnsweredCheckpoints(m: Memory, e: WorkerEvent, now: Time): map<CheckpointKey, Checkpoint>
    requires e.correlation.Some? ==> AnswersPending(m, e)
  {
    if e.correlation.None? then map[]
    else
      var key := CheckpointKey(e.workerId, e.correlation.value);
      map[key := m.checkpoints[key].(state := AnsweredBy(e.eventId, now))]
  }

  function Ungated(m: Memory, e: WorkerEvent, s: Subject): Subject
    requires e.correlation.Some? ==> AnswersPending(m, e)
  {
    if e.correlation.Some?
      && m.checkpoints[CheckpointKey(e.workerId, e.correlation.value)].mode.BlockingGate?
      && s.gate.Gated? && s.gate.correlationId == e.correlation.value
    then s.(gate := NoGate)
    else s
  }

  /** The tail of `submitEvent`: authenticated, within rate, and not behind the expected sequence. */
  ghost function PlanAccept(cfg: Config, m: Memory, id: MutationId, c: Controller, e: WorkerEvent, now: Time): Plan
    requires e.workerId in m.subjects
  {
    var expected := LastSequence(m.events, e.workerId) + 1;
    var q := QueueingOf(cfg, m.events, e);
    if q.over && q.evicted.None? then
      Reject(id, OpSubmit, e.eventId, QueueLimitExceeded, NO_CHANGES, OrdinalsDrawn(q))
    else if e.correlation.Some? && !AnswersPending(m, e) then
      Reject(id, OpSubmit, e.eventId, CorrelationInvalid, NO_CHANGES, OrdinalsDrawn(q) + 1)
    else
      var s := Renewed(cfg, ExpiredCopy(cfg, m, m.subjects[e.workerId], now), now);
      Receipted(id, OpSubmit, Unkeyed,
        EventResult(Accepted(e.eventId, e.sequence, if e.sequence > expected then Some(expected) else None, q.superseded)),
        NO_CHANGES.(subjects := map[e.workerId := Ungated(m, e, s)],
                    events := ClosedEvents(m.events, q, e, m.nextOrdinal, now)
                              + [StoredOf(m.events, q, e, m.nextOrdinal, now)],
                    checkpoints := AnsweredCheckpoints(m, e, now),
                    liveness := ConnectedObservation(m, c, now)),
        OrdinalsDrawn(q) + 1)
  }

  ghost function PlanSubmit(cfg: Config, m: Memory, id: MutationId, c: Controller, token: Token, e: WorkerEvent, now: Time)
    : Plan
  {
    if id in m.receipts then ReplayPlain(m, id, OpSubmit)
    else if e.eventId in m.events then
      Receipted(id, OpSubmit, Unkeyed,
        EventResult(if m.events[e.eventId].submission == e then Duplicate(e.eventId, e.sequence)
                    else Rejected(e.eventId, EventIdCollision)), NO_CHANGES, 0)
    else if e.workerId !in m.subjects then Reject(id, OpSubmit, e.eventId, SubjectUnknown, NO_CHANGES, 0)
    else if e.taskId != m.subjects[e.workerId].origin.taskId || e.waveId != m.subjects[e.workerId].origin.waveId then
      Reject(id, OpSubmit, e.eventId, TaskIdentityMismatch, NO_CHANGES, 0)
    else
      var auth := AuthCodeOf(cfg, m, ExpiredCopy(cfg, m, m.subjects[e.workerId], now), c, token, Some(e.leaseVersion), now);
      if auth.Some? then
        Reject(id, OpSubmit, e.eventId, NotAuthorized(auth.value), ProjectionTx(cfg, m, e.workerId, now), 0)
      else if |ReceivedAfter(m.events, e.workerId, now - cfg.rateWindow)| >= cfg.rateLimit then
        Reject(id, OpSubmit, e.eventId, RateLimited, NO_CHANGES, 0)
      else
        var expected := LastSequence(m.events, e.workerId) + 1;
        if e.sequence < expected then
          if e.kind.PROGRESS? then
            Receipted(id, OpSubmit, Unkeyed, EventResult(Stale(e.eventId, e.sequence, expected)), NO_CHANGES, 0)
          else Reject(id, OpSubmit, e.eventId, SequenceOutOfOrder, NO_CHANGES, 0)
        else PlanAccept(cfg, m, id, c, e, now)
  }

  // ---- resolveEvent --------------------------------------------------------------------------

  datatype Resolution = Acknowledge | Answer | Supersede | Close

  function StateAfter(r: Resolution): EventState {
    match r
    case Acknowledge => Acknowledged
    case Answer => Answered
    case Supersede => Superseded
    case Close => Closed
  }

  function PlanResolve(cfg: Config, m: Memory, id: MutationId, c: Controller, token: Token, eventId: EventId, r: Resolution,
                       now: Time): Plan
  {
    if id in m.receipts then ReplayPlain(m, id, OpResolve)
    else if eventId !in m.events then Refuse(EventNotFound)
    else
      var e := m.events[eventId];
      var w := e.event.workerId;
      if w !in m.subjects then Refuse(SubjectNotFound)
      else
        var s := ExpiredCopy(cfg, m, m.subjects[w], now);
        var auth := AuthCodeOf(cfg, m, s, c, token, Some(s.lease.version), now);
        if auth.Some? then Reject(id, OpResolve, eventId, NotAuthorized(auth.value), ProjectionTx(cfg, m, w, now), 0)
        else
          Receipted(id, OpResolve, Unkeyed, EventResult(Accepted(eventId, e.event.sequence, None, None)),
            NO_CHANGES.(subjects := map[w := Renewed(cfg, s, now)],
                        events := [e.(ordinal := m.nextOrdinal, state := StateAfter(r), resolvedAt := Some(now),
                                      resolvedBy := Some(c))],
                        liveness := ConnectedObservation(m, c, now)), 1)
  }

  // ---- requestCheckpoint ---------------------------------------------------------------------

  datatype CheckpointRequest = CheckpointRequest(key: CheckpointKey, content: nat, mode: CheckpointMode)

  predicate SameRequest(prior: Checkpoint, c: Controller, r: CheckpointRequest) {
    prior.key == r.key && prior.requestedBy == c && prior.content == r.content && prior.mode == r.mode
  }

  function PlanCheckpoint(cfg: Config, m: Memory, id: MutationId, c: Controller, token: Token, r: CheckpointRequest, now: Time)
    : Plan
  {
    var w := r.key.workerId;
    if id in m.receipts then
      var receipt := m.receipts[id];
      if receipt.operation != OpCheckpoint || !receipt.result.CheckpointResult? then Refuse(MutationIdCollision)
      else if !SameRequest(receipt.result.checkpoint, c, r) then Refuse(CheckpointIdentityCollision)
      else Plan(None, 0, Returned(receipt.result, true))
    else if w !in m.subjects then Refuse(SubjectNotFound)
    else
      var s := ExpiredCopy(cfg, m, m.subjects[w], now);
      var auth := AuthCodeOf(cfg, m, s, c, token, Some(s.lease.version), now);
      if auth.Some? then
        var tx := ProjectionTx(cfg, m, w, now);
        Plan(if tx == NO_CHANGES then None else Some(tx), 0, Thrown(AuthenticationFailed(auth.value)))
      else if r.key in m.checkpoints then
        if !SameRequest(m.checkpoints[r.key], c, r) then Refuse(CheckpointIdentityCollision)
        else
          Receipted(id, OpCheckpoint, Unkeyed, CheckpointResult(m.checkpoints[r.key]),
            NO_CHANGES.(subjects := map[w := Renewed(cfg, s, now)], liveness := ConnectedObservation(m, c, now)), 0)
      else
        var checkpoint := Checkpoint(r.key, m.subjects[w].lease.version, c, r.content, r.mode, Pending, now);
        var renewed := Renewed(cfg, s, now);
        Receipted(id, OpCheckpoint, Unkeyed, CheckpointResult(checkpoint),
          NO_CHANGES.(subjects := map[w := if r.mode.BlockingGate?
                                           then renewed.(gate := Gated(r.key.correlationId, now)) else renewed],
                      checkpoints := map[r.key := checkpoint],
                      liveness := ConnectedObservation(m, c, now)), 0)
  }
}
