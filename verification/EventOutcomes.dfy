/** What the event calls achieve and answer: when an event is taken in and as what, what is closed to make room for it, why one
    is turned away, when one is resolved, and when a request is opened. */
module EventOutcomes {
  import opened Finite
  import opened CoordinationTypes
  import opened LeaseRules
  import opened CoordinationState
  import opened LeasePlans
  import opened EventPlans
  import opened CoordinationMachine
  import opened EventQueue
  import opened EventRuns
  import opened CallOutcomes

  // ---- what a submission meets ---------------------------------------------------------------

  ghost predicate IsQueued(events: Events, w: SubjectId, id: EventId) {
    id in events && events[id].event.workerId == w && events[id].state == Open
  }

  /** An open progress report of `w`, which the next one replaces. */
  ghost predicate IsStanding(events: Events, w: SubjectId, id: EventId) {
    IsQueued(events, w, id) && events[id].event.kind == PROGRESS
  }

  /** A queued event that nobody has to look at. */
  ghost predicate IsDispensable(events: Events, w: SubjectId, id: EventId) {
    && IsQueued(events, w, id)
    && events[id].event.kind != EXCEPTION && events[id].event.kind != DECISION_REQUEST && !events[id].event.interventionRequired
  }

  /** What makes room: the dispensable event recorded longest ago. */
  ghost predicate IsNextToGo(events: Events, w: SubjectId, id: EventId) {
    IsDispensable(events, w, id) && forall j :: IsDispensable(events, w, j) ==> events[id].ordinal <= events[j].ordinal
  }

  ghost function QueueLength(events: Events, w: SubjectId): nat { |set id | id in events && IsQueued(events, w, id)| }

  /** How many events of `w` arrived in the rate window that ends now. */
  ghost function RecentCount(cfg: Config, events: Events, w: SubjectId, now: Time): nat {
    |set id | id in events && events[id].event.workerId == w && now < events[id].receivedAt + cfg.rateWindow|
  }

  ghost predicate Replaces(events: Events, e: WorkerEvent) { e.kind == PROGRESS && exists id :: IsStanding(events, e.workerId, id) }

  /** A progress report replaces the open one; everything else needs a place, or something that may go. */
  ghost predicate HasRoom(cfg: Config, events: Events, e: WorkerEvent) {
    || QueueLength(events, e.workerId) + (if Replaces(events, e) then 0 else 1) <= cfg.maxQueued
    || exists id :: IsDispensable(events, e.workerId, id)
  }

  /** The event names a pending request of its worker, or none. */
  ghost predicate IsAnswerTo(m: Memory, e: WorkerEvent) {
    e.correlation != None ==>
      && e.kind == CHECKPOINT && CheckpointKey(e.workerId, e.correlation.value) in m.checkpoints
      && m.checkpoints[CheckpointKey(e.workerId, e.correlation.value)].state == Pending
  }

  ghost predicate SameTask(s: Subject, e: WorkerEvent) { s.origin.taskId == e.taskId && s.origin.waveId == e.waveId }

  /** Why a new event of worker `e.workerId` is turned away; None takes it in. */
  ghost function Complaint(cfg: Config, m: Memory, c: Controller, token: Token, e: WorkerEvent, now: Time): Option<Ack>
    requires e.workerId in m.subjects
  {
    var auth := AuthAnswer(cfg, m, m.subjects[e.workerId], c, token, Some(e.leaseVersion), now);
    if !SameTask(m.subjects[e.workerId], e) then Some(Rejected(e.eventId, TaskIdentityMismatch))
    else if auth != None then Some(Rejected(e.eventId, NotAuthorized(auth.value)))
    else if RecentCount(cfg, m.events, e.workerId, now) >= cfg.rateLimit then Some(Rejected(e.eventId, RateLimited))
    else if e.sequence <= LastSequence(m.events, e.workerId) then
      Some(if e.kind == PROGRESS then Stale(e.eventId, e.sequence, LastSequence(m.events, e.workerId) + 1)
           else Rejected(e.eventId, SequenceOutOfOrder))
    else if !HasRoom(cfg, m.events, e) then Some(Rejected(e.eventId, QueueLimitExceeded))
    else if !IsAnswerTo(m, e) then Some(Rejected(e.eventId, CorrelationInvalid))
    else None
  }

  ghost predicate IsAcceptable(cfg: Config, m: Memory, c: Controller, token: Token, e: WorkerEvent, now: Time) {
    e.eventId !in m.events && e.workerId in m.subjects && Complaint(cfg, m, c, token, e, now) == None
  }

  lemma QueueIsOpen(events: Events, w: SubjectId)
    ensures QueueLength(events, w) == |OpenOf(events, w)|
    ensures forall id :: IsStanding(events, w, id) <==> id in OpenProgressOf(events, w)
    ensures forall id :: IsDispensable(events, w, id) <==> id in EvictableOf(events, w)
  {
    assert OpenOf(events, w) == set id | id in events && IsQueued(events, w, id);
  }

  lemma RecentIsCounted(cfg: Config, events: Events, w: SubjectId, now: Time)
    ensures RecentCount(cfg, events, w, now) == |ReceivedAfter(events, w, now - cfg.rateWindow)|
  {
    assert ReceivedAfter(events, w, now - cfg.rateWindow) ==
      set id | id in events && events[id].event.workerId == w && now < events[id].receivedAt + cfg.rateWindow;
  }

  lemma EvictableIffOldest(events: Events, w: SubjectId)
    ensures OldestEvictable(events, w).Some? <==> EvictableOf(events, w) != {}
  {
    if EvictableOf(events, w) != {} { OldestExists(events, EvictableOf(events, w)); }
  }

  /** What the queue decision amounts to in these terms. */
  lemma QueueingMeans(cfg: Config, events: Events, e: WorkerEvent)
    requires OneProgress(events)
    ensures var q := QueueingOf(cfg, events, e);
      && (q.superseded.Some? <==> Replaces(events, e))
      && (q.superseded.Some? ==> IsStanding(events, e.workerId, q.superseded.value))
      && (q.over <==> QueueLength(events, e.workerId) + (if Replaces(events, e) then 0 else 1) > cfg.maxQueued)
      && (q.evicted.Some? <==> q.over && exists id :: IsDispensable(events, e.workerId, id))
      && (q.evicted.Some? ==> IsNextToGo(events, e.workerId, q.evicted.value))
  {
    hide OpenOf, OpenProgressOf, LatestProgress, OneProgress, EvictableOf, IsStanding, IsDispensable, QueueLength;
    QueueIsOpen(events, e.workerId);
    LoneProgressIsLatest(events, e.workerId);
    EvictableIffOldest(events, e.workerId);
  }

  // ---- what a submission is answered ---------------------------------------------------------

  /** An acceptance names the event and its sequence, the expected sequence exactly when that was skipped, and the progress
      report it replaces exactly when there is one. */
  ghost predicate AcksInFull(m: Memory, e: WorkerEvent, ack: Ack) {
    var expected := LastSequence(m.events, e.workerId) + 1;
    && ack.Accepted? && ack.eventId == e.eventId && ack.sequence == e.sequence
    && ack.gap == (if e.sequence > expected then Some(expected) else None)
    && (ack.superseded == None <==> !Replaces(m.events, e))
    && (ack.superseded.Some? ==> IsStanding(m.events, e.workerId, ack.superseded.value))
  }

  lemma PendingIsAnswered(m: Memory, e: WorkerEvent)
    ensures IsAnswerTo(m, e) <==> (e.correlation.Some? ==> AnswersPending(m, e))
  {}

  lemma AcceptAnswers(cfg: Config, m: Memory, id: MutationId, c: Controller, e: WorkerEvent, now: Time)
    requires OneProgress(m.events) && e.workerId in m.subjects
    ensures var plan := PlanAccept(cfg, m, id, c, e, now);
      && plan.tx.Some? && plan.response.Returned? && !plan.response.replay && plan.response.result.EventResult?
      && var ack := plan.response.result.ack;
      if !HasRoom(cfg, m.events, e) then ack == Rejected(e.eventId, QueueLimitExceeded)
      else if !IsAnswerTo(m, e) then ack == Rejected(e.eventId, CorrelationInvalid)
      else AcksInFull(m, e, ack)
  {
    hide QueueingOf, OneProgress, ExpiredCopy, LastSequence, AnswersPending, IsAnswerTo, Ungated, AnsweredCheckpoints,
      ClosedEvents, StoredOf, IsStanding, QueueLength, IsDispensable, Replaces;
    QueueingMeans(cfg, m.events, e);
    PendingIsAnswered(m, e);
  }

  /** What a submission is answered, in full: a known event id is a duplicate or a collision; a new event is accepted if and
      only if there is no complaint, and else gets the first one, in the order the service raises them. */
  lemma SubmitAnswers(cfg: Config, m: Memory, id: MutationId, c: Controller, token: Token, e: WorkerEvent, now: Time)
    requires id !in m.receipts && OneProgress(m.events)
    ensures var plan := PlanSubmit(cfg, m, id, c, token, e, now);
      && plan.tx.Some? && plan.response.Returned? && !plan.response.replay && plan.response.result.EventResult?
      && var ack := plan.response.result.ack;
      if e.eventId in m.events then
        ack == if m.events[e.eventId].submission == e then Duplicate(e.eventId, e.sequence) else Rejected(e.eventId, EventIdCollision)
      else if e.workerId !in m.subjects then ack == Rejected(e.eventId, SubjectUnknown)
      else match Complaint(cfg, m, c, token, e, now)
        case Some(complaint) => ack == complaint
        case None => AcksInFull(m, e, ack)
  {
    hide PlanAccept, AuthCodeOf, ExpiredCopy, LastSequence, ReceivedAfter, RecentCount, HasRoom, IsAnswerTo, AuthAnswer,
      ProjectionTx, OneProgress, AcksInFull;
    if e.workerId in m.subjects {
      AuthIsAnswered(cfg, m, m.subjects[e.workerId], c, token, Some(e.leaseVersion), now);
      RecentIsCounted(cfg, m.events, e.workerId, now);
      AcceptAnswers(cfg, m, id, c, e, now);
    }
  }

  // ---- what a submission stores --------------------------------------------------------------

  /** `e` as it is stored: as submitted, or merged into the report it replaces; open, received now. */
  ghost predicate IsTakenIn(stored: StoredEvent, e: WorkerEvent, payload: Payload, ordinal: nat, now: Time) {
    stored == StoredEvent(e.(payload := payload), ordinal, now, e, Open, None, None, None)
  }

  /** The stored events after `e` was taken in. It replaced the standing progress report of its worker, which now points to it;
      or pushed out what was next to go, which is closed; or there was a place. Nothing else changed. */
  ghost predicate TakesIn(cfg: Config, m: Memory, m': Memory, e: WorkerEvent, now: Time) {
    var w, next := e.workerId, m.nextOrdinal;
    && e.eventId in m'.events
    && if Replaces(m.events, e) then
         exists p :: IsStanding(m.events, w, p)
           && IsTakenIn(m'.events[e.eventId], e, Merged(m.events[p].event.payload, e.payload), next + 1, now)
           && m'.events == m.events[p := m.events[p].(ordinal := next, state := Superseded, supersededBy := Some(e.eventId),
                                                      resolvedAt := Some(now))][e.eventId := m'.events[e.eventId]]
           && m'.nextOrdinal == next + 2
       else if QueueLength(m.events, w) < cfg.maxQueued then
         && IsTakenIn(m'.events[e.eventId], e, e.payload, next, now)
         && m'.events == m.events[e.eventId := m'.events[e.eventId]]
         && m'.nextOrdinal == next + 1
       else
         exists v :: IsNextToGo(m.events, w, v)
           && IsTakenIn(m'.events[e.eventId], e, e.payload, next + 1, now)
           && m'.events == m.events[v := m.events[v].(ordinal := next, state := Closed, resolvedAt := Some(now),
                                                      resolvedBy := Some(Controller(0, 0)))][e.eventId := m'.events[e.eventId]]
           && m'.nextOrdinal == next + 2
  }

  ghost predicate QueueSound(cfg: Config, events: Events) { Keyed(events) && OneProgress(events) && Bounded(cfg, events) }

  /** The accepted plan, event by event. */
  lemma AcceptStores(cfg: Config, m: Memory, id: MutationId, c: Controller, e: WorkerEvent, now: Time, m': Memory)
    requires QueueSound(cfg, m.events) && e.workerId in m.subjects && e.eventId !in m.events
    requires HasRoom(cfg, m.events, e) && IsAnswerTo(m, e)
    requires var plan := PlanAccept(cfg, m, id, c, e, now);
      plan.tx.Some? && m'.events == StoreAll(m.events, plan.tx.value.events) && m'.nextOrdinal == m.nextOrdinal + plan.ordinals
    ensures TakesIn(cfg, m, m', e, now)
  {
    hide QueueingOf, OneProgress, ExpiredCopy, LastSequence, AnswersPending, IsAnswerTo, Ungated, AnsweredCheckpoints, IsStanding,
      QueueLength, IsNextToGo, IsDispensable, StoreAll, Bounded;
    var q, next := QueueingOf(cfg, m.events, e), m.nextOrdinal;
    QueueingMeans(cfg, m.events, e);
    QueueingIsSingle(cfg, m.events, e);
    PendingIsAnswered(m, e);
    QueueIsOpen(m.events, e.workerId);
    var closed := ClosedEvents(m.events, q, e, next, now);
    var stored := StoredOf(m.events, q, e, next, now);
    if q.superseded.Some? || q.evicted.Some? {
      assert closed == [closed[0]] && closed + [stored] == [closed[0], stored];
      StoreTwo(m.events, closed[0], stored);
    } else {
      assert closed == [] && closed + [stored] == [stored];
      StoreOne(m.events, stored);
    }
  }

  lemma AcceptableReachesAccept(cfg: Config, m: Memory, id: MutationId, c: Controller, token: Token, e: WorkerEvent, now: Time)
    requires id !in m.receipts && IsAcceptable(cfg, m, c, token, e, now)
    ensures PlanSubmit(cfg, m, id, c, token, e, now) == PlanAccept(cfg, m, id, c, e, now)
    ensures HasRoom(cfg, m.events, e) && IsAnswerTo(m, e)
  {
    hide PlanAccept, AuthCodeOf, ExpiredCopy, LastSequence, ReceivedAfter, RecentCount, HasRoom, IsAnswerTo, AuthAnswer, ProjectionTx;
    AuthIsAnswered(cfg, m, m.subjects[e.workerId], c, token, Some(e.leaseVersion), now);
    RecentIsCounted(cfg, m.events, e.workerId, now);
  }

  lemma UnacceptedStoresNothing(cfg: Config, m: Memory, id: MutationId, c: Controller, token: Token, e: WorkerEvent, now: Time)
    requires id !in m.receipts
    requires var plan := PlanSubmit(cfg, m, id, c, token, e, now);
      plan.response.Returned? && plan.response.result.EventResult? && !plan.response.result.ack.Accepted?
    ensures var plan := PlanSubmit(cfg, m, id, c, token, e, now);
      && plan.tx.Some? && plan.tx.value.events == [] && plan.tx.value.liveness == map[] && plan.tx.value.checkpoints == map[]
      && plan.tx.value.handoffs == map[]
      && (if plan.response.result.ack.Rejected? && plan.response.result.ack.reason.NotAuthorized?
          then e.workerId in m.subjects && plan.tx.value.subjects == ProjectionTx(cfg, m, e.workerId, now).subjects
          else plan.tx.value.subjects == map[])
  {
    hide AuthCodeOf, ExpiredCopy, LastSequence, ReceivedAfter, QueueingOf, ClosedEvents, StoredOf, Ungated, AnsweredCheckpoints,
      AnswersPending, Renewed, ConnectedObservation, OrdinalsDrawn;
    if e.workerId in m.subjects { ProjectionIsSubjects(cfg, m, e.workerId, now); }
  }

  lemma ComplaintsRefuse(cfg: Config, m: Memory, c: Controller, token: Token, e: WorkerEvent, now: Time)
    requires e.workerId in m.subjects && Complaint(cfg, m, c, token, e, now) != None
    ensures !Complaint(cfg, m, c, token, e, now).value.Accepted?
  {
    hide AuthAnswer, RecentCount, LastSequence, HasRoom, IsAnswerTo;
  }

  lemma ProjectionShows(cfg: Config, m: Memory, x: SubjectId, now: Time)
    requires x in m.subjects
    ensures var post := m.subjects + ProjectionTx(cfg, m, x, now).subjects;
      && post.Keys == m.subjects.Keys && IsShown(cfg, m, m.subjects[x], post[x], now)
      && forall y :: y in m.subjects && y != x ==> post[y] == m.subjects[y]
  {
    CopyIsShown(cfg, m, m.subjects[x], now);
  }

  /** Submission in full, on the states: an acceptable event is taken in as described, and nothing is stored of any other; its
      worker's lease is renewed, or left as it stands when the caller was turned away; and only an accepted event is a sign of
      life of the caller. */
  lemma SubmitTakesInIff(cfg: Config, s: System, id: MutationId, c: Controller, token: Token, e: WorkerEvent, now: Time)
    requires id !in s.memory.receipts && QueueSound(cfg, s.memory.events)
    ensures var plan := PlanSubmit(cfg, s.memory, id, c, token, e, now);
      var m, m' := s.memory, After(s, plan, now);
      && plan.response.Returned? && plan.response.result.EventResult?
      && m'.subjects.Keys == m.subjects.Keys && m'.handoffs == m.handoffs
      && (forall x :: x in m.subjects && x != e.workerId ==> m'.subjects[x] == m.subjects[x])
      && (if IsAcceptable(cfg, m, c, token, e, now) then
            && e.workerId in m.subjects && TakesIn(cfg, m, m', e, now) && IsHeard(m, m', c, now)
            && IsRenewed(cfg, m.subjects[e.workerId].(gate := m'.subjects[e.workerId].gate), m'.subjects[e.workerId], now)
          else
            && m'.events == m.events && m'.checkpoints == m.checkpoints && m'.liveness == m.liveness
            && (e.workerId in m.subjects ==>
                  if plan.response.result.ack.Rejected? && plan.response.result.ack.reason.NotAuthorized?
                  then IsShown(cfg, m, m.subjects[e.workerId], m'.subjects[e.workerId], now)
                  else m'.subjects[e.workerId] == m.subjects[e.workerId]))
  {
    hide After, PlanSubmit, PlanAccept, IsAcceptable, TakesIn, IsHeard, IsRenewed, StoreAll, IsShown, OneProgress, Bounded, AcksInFull;
    var m := s.memory;
    var plan := PlanSubmit(cfg, m, id, c, token, e, now);
    UnacceptableIsRefused(cfg, m, id, c, token, e, now);
    if IsAcceptable(cfg, m, c, token, e, now) {
      AfterIs(s, plan, now);
      AcceptableReachesAccept(cfg, m, id, c, token, e, now);
      AcceptableIsNew(cfg, m, c, token, e, now);
      AcceptStores(cfg, m, id, c, e, now, After(s, plan, now));
      AcceptRenews(cfg, m, id, c, e, now, After(s, plan, now));
    } else {
      UnacceptedLeaves(cfg, s, id, c, token, e, now);
    }
  }

  lemma UnacceptableIsRefused(cfg: Config, m: Memory, id: MutationId, c: Controller, token: Token, e: WorkerEvent, now: Time)
    requires id !in m.receipts && OneProgress(m.events)
    ensures var plan := PlanSubmit(cfg, m, id, c, token, e, now);
      && plan.tx.Some? && plan.response.Returned? && plan.response.result.EventResult?
      && (IsAcceptable(cfg, m, c, token, e, now) <==> plan.response.result.ack.Accepted?)
  {
    hide PlanSubmit, Complaint, OneProgress;
    SubmitAnswers(cfg, m, id, c, token, e, now);
    if e.workerId in m.subjects && Complaint(cfg, m, c, token, e, now) != None { ComplaintsRefuse(cfg, m, c, token, e, now); }
  }

  lemma UnacceptedLeaves(cfg: Config, s: System, id: MutationId, c: Controller, token: Token, e: WorkerEvent, now: Time)
    requires id !in s.memory.receipts
    requires var plan := PlanSubmit(cfg, s.memory, id, c, token, e, now);
      plan.response.Returned? && plan.response.result.EventResult? && !plan.response.result.ack.Accepted?
    ensures var plan := PlanSubmit(cfg, s.memory, id, c, token, e, now);
      var m, m' := s.memory, After(s, plan, now);
      && m'.subjects.Keys == m.subjects.Keys && m'.handoffs == m.handoffs
      && m'.events == m.events && m'.checkpoints == m.checkpoints && m'.liveness == m.liveness
      && (forall x :: x in m.subjects && x != e.workerId ==> m'.subjects[x] == m.subjects[x])
      && (e.workerId in m.subjects ==>
            if plan.response.result.ack.Rejected? && plan.response.result.ack.reason.NotAuthorized?
            then IsShown(cfg, m, m.subjects[e.workerId], m'.subjects[e.workerId], now)
            else m'.subjects[e.workerId] == m.subjects[e.workerId])
  {
    hide After, PlanSubmit, StoreAll, IsShown, ProjectionTx;
    var m := s.memory;
    AfterIs(s, PlanSubmit(cfg, m, id, c, token, e, now), now);
    UnacceptedStoresNothing(cfg, m, id, c, token, e, now);
    if e.workerId in m.subjects { ProjectionShows(cfg, m, e.workerId, now); }
  }

  lemma AcceptableIsNew(cfg: Config, m: Memory, c: Controller, token: Token, e: WorkerEvent, now: Time)
    requires IsAcceptable(cfg, m, c, token, e, now)
    ensures e.eventId !in m.events && e.workerId in m.subjects
    ensures IsHeld(cfg, m, m.subjects[e.workerId], now)
  {
    hide LastSequence, RecentCount, HasRoom, IsAnswerTo;
  }

  /** The gate of a worker after an answer: lifted if it waited for this very request, as it was otherwise. */
  ghost function GateAfter(m: Memory, e: WorkerEvent): DecisionGate
    requires e.workerId in m.subjects && IsAnswerTo(m, e)
  {
    var gate := m.subjects[e.workerId].gate;
    if e.correlation.Some? && gate.Gated? && gate.correlationId == e.correlation.value
      && m.checkpoints[CheckpointKey(e.workerId, e.correlation.value)].mode == BlockingGate
    then NoGate else gate
  }

  /** The requests after an answer: exactly its own one answered. */
  ghost function RequestsAfter(m: Memory, e: WorkerEvent, now: Time): map<CheckpointKey, Checkpoint>
    requires IsAnswerTo(m, e)
  {
    if e.correlation.None? then m.checkpoints
    else
      var key := CheckpointKey(e.workerId, e.correlation.value);
      m.checkpoints[key := m.checkpoints[key].(state := AnsweredBy(e.eventId, now))]
  }

  /** What an accepted event does to everything but the events. */
  lemma AcceptSettles(cfg: Config, m: Memory, id: MutationId, c: Controller, e: WorkerEvent, now: Time)
    requires OneProgress(m.events) && e.workerId in m.subjects && HasRoom(cfg, m.events, e) && IsAnswerTo(m, e)
    ensures var plan := PlanAccept(cfg, m, id, c, e, now);
      && plan.tx.Some? && plan.tx.value.subjects.Keys == {e.workerId} && plan.tx.value.handoffs == map[]
      && plan.tx.value.subjects[e.workerId] ==
           Renewed(cfg, ExpiredCopy(cfg, m, m.subjects[e.workerId], now), now).(gate := GateAfter(m, e))
      && m.checkpoints + plan.tx.value.checkpoints == RequestsAfter(m, e, now)
      && plan.tx.value.liveness == ConnectedObservation(m, c, now)
  {
    hide QueueingOf, OneProgress, LastSequence, ClosedEvents, StoredOf, ConnectedObservation, QueueLength, IsDispensable, Replaces,
      IsStanding;
    QueueingMeans(cfg, m.events, e);
    PendingIsAnswered(m, e);
  }

  lemma AcceptRenews(cfg: Config, m: Memory, id: MutationId, c: Controller, e: WorkerEvent, now: Time, m': Memory)
    requires OneProgress(m.events) && e.workerId in m.subjects && HasRoom(cfg, m.events, e) && IsAnswerTo(m, e)
    requires IsHeld(cfg, m, m.subjects[e.workerId], now)
    requires var plan := PlanAccept(cfg, m, id, c, e, now);
      && plan.tx.Some? && m'.subjects == m.subjects + plan.tx.value.subjects && m'.liveness == m.liveness + plan.tx.value.liveness
      && m'.handoffs == m.handoffs + plan.tx.value.handoffs
    ensures m'.subjects.Keys == m.subjects.Keys && m'.handoffs == m.handoffs && IsHeard(m, m', c, now)
    ensures forall x :: x in m.subjects && x != e.workerId ==> m'.subjects[x] == m.subjects[x]
    ensures IsRenewed(cfg, m.subjects[e.workerId].(gate := m'.subjects[e.workerId].gate), m'.subjects[e.workerId], now)
  {
    hide PlanAccept, OneProgress, HasRoom, IsAnswerTo, GateAfter, RequestsAfter, ConnectedObservation, ExpiredCopy;
    AcceptSettles(cfg, m, id, c, e, now);
    HeartbeatIsHeard(m, m', c, now);
    CopyIsShown(cfg, m, m.subjects[e.workerId], now);
  }

  /** Answering works: an acceptable new event with a correlation turns exactly its own pending request into one
      answered by the event, now, and lifts the worker's gate if that gate waited for it; without a correlation no
      request and no gate changes. */
  lemma AnswerSettlesRequest(cfg: Config, s: System, id: MutationId, c: Controller, token: Token, e: WorkerEvent, now: Time)
    requires id !in s.memory.receipts && OneProgress(s.memory.events) && IsAcceptable(cfg, s.memory, c, token, e, now)
    ensures var m, m' := s.memory, After(s, PlanSubmit(cfg, s.memory, id, c, token, e, now), now);
      && e.workerId in m.subjects && IsAnswerTo(m, e)
      && e.workerId in m'.subjects && m'.subjects[e.workerId].gate == GateAfter(m, e)
      && m'.checkpoints == RequestsAfter(m, e, now)
  {
    hide After, PlanSubmit, PlanAccept, IsAcceptable, HasRoom, GateAfter, RequestsAfter, OneProgress, IsAnswerTo, StoreAll, ExpiredCopy, Renewed;
    var m := s.memory;
    AcceptableIsNew(cfg, m, c, token, e, now);
    AcceptableReachesAccept(cfg, m, id, c, token, e, now);
    AcceptSettles(cfg, m, id, c, e, now);
    AfterIs(s, PlanSubmit(cfg, m, id, c, token, e, now), now);
  }

  // ---- resolving -----------------------------------------------------------------------------

  /** The state a resolution names. */
  ghost predicate Ends(r: Resolution, state: EventState) {
    || (r == Acknowledge && state == Acknowledged) || (r == Answer && state == Answered)
    || (r == Supersede && state == Superseded) || (r == Close && state == Closed)
  }

  /** A turned-away caller leaves the lease as it stands and nothing else. */
  ghost predicate IsTurnedAway(cfg: Config, m: Memory, m': Memory, w: SubjectId, now: Time) {
    && w in m.subjects && m'.subjects.Keys == m.subjects.Keys && m'.liveness == m.liveness && OnlyLeases(m, m')
    && IsShown(cfg, m, m.subjects[w], m'.subjects[w], now)
    && forall x :: x in m.subjects && x != w ==> m'.subjects[x] == m.subjects[x]
  }

  lemma TurnedAway(cfg: Config, s: System, plan: Plan, w: SubjectId, now: Time)
    requires w in s.memory.subjects && plan.ordinals == 0
    requires plan.tx.Some? ==>
      && plan.tx.value.subjects == ProjectionTx(cfg, s.memory, w, now).subjects && plan.tx.value.events == []
      && plan.tx.value.liveness == map[] && plan.tx.value.checkpoints == map[] && plan.tx.value.handoffs == map[]
    requires plan.tx.None? ==> ProjectionTx(cfg, s.memory, w, now) == NO_CHANGES
    ensures IsTurnedAway(cfg, s.memory, After(s, plan, now), w, now)
  {
    hide After, IsShown, StoreAll;
    AfterIs(s, plan, now);
    hide ProjectionTx;
    ProjectionShows(cfg, s.memory, w, now);
    assert plan.tx.None? ==> s.memory.subjects + map[] == s.memory.subjects;
  }

  lemma ResolvePlan(cfg: Config, m: Memory, id: MutationId, c: Controller, token: Token, eventId: EventId, r: Resolution, now: Time)
    requires id !in m.receipts && eventId in m.events && m.events[eventId].event.workerId in m.subjects
    ensures var w := m.events[eventId].event.workerId;
      var plan := PlanResolve(cfg, m, id, c, token, eventId, r, now);
      && plan.tx.Some? && plan.response.Returned? && !plan.response.replay
      && plan.tx.value.checkpoints == map[] && plan.tx.value.handoffs == map[]
      && match AuthAnswer(cfg, m, m.subjects[w], c, token, None, now)
         case None =>
           && plan.response.result == EventResult(Accepted(eventId, m.events[eventId].event.sequence, None, None))
           && plan.ordinals == 1 && plan.tx.value.liveness == ConnectedObservation(m, c, now)
           && plan.tx.value.subjects == map[w := Renewed(cfg, ExpiredCopy(cfg, m, m.subjects[w], now), now)]
           && |plan.tx.value.events| == 1 && Ends(r, plan.tx.value.events[0].state)
           && plan.tx.value.events[0] == m.events[eventId].(ordinal := m.nextOrdinal, state := plan.tx.value.events[0].state,
                                                            resolvedAt := Some(now), resolvedBy := Some(c))
         case Some(auth) =>
           && plan.response.result == EventResult(Rejected(eventId, NotAuthorized(auth)))
           && plan.ordinals == 0 && plan.tx.value.liveness == map[] && plan.tx.value.events == []
           && plan.tx.value.subjects == ProjectionTx(cfg, m, w, now).subjects
  {
    hide ExpiredCopy, AuthCodeOf, AuthAnswer, Renewed, ConnectedObservation;
    AuthIsAnswered(cfg, m, m.subjects[m.events[eventId].event.workerId], c, token, None, now);
  }

  /** A stored event of a registered worker is resolved as asked, under a fresh ordinal, and its worker's lease renewed, if and
      only if the stored lease lets the caller in; else the answer says why not and only the lease as it stands is written. */
  lemma ResolveActsIff(cfg: Config, s: System, id: MutationId, c: Controller, token: Token, eventId: EventId,
                       r: Resolution, now: Time)
    requires id !in s.memory.receipts && eventId in s.memory.events && Keyed(s.memory.events)
    requires s.memory.events[eventId].event.workerId in s.memory.subjects
    ensures var plan := PlanResolve(cfg, s.memory, id, c, token, eventId, r, now);
      var m, m' := s.memory, After(s, plan, now);
      var w := m.events[eventId].event.workerId;
      && plan.response.Returned? && !plan.response.replay
      && match AuthAnswer(cfg, m, m.subjects[w], c, token, None, now)
         case None =>
           && plan.response.result == EventResult(Accepted(eventId, m.events[eventId].event.sequence, None, None))
           && eventId in m'.events && m'.events == m.events[eventId := m'.events[eventId]] && Ends(r, m'.events[eventId].state)
           && m'.events[eventId] == m.events[eventId].(ordinal := m.nextOrdinal, state := m'.events[eventId].state,
                                                       resolvedAt := Some(now), resolvedBy := Some(c))
           && m'.nextOrdinal == m.nextOrdinal + 1 && m'.checkpoints == m.checkpoints && m'.handoffs == m.handoffs
           && w in m'.subjects && m'.subjects == m.subjects[w := m'.subjects[w]]
           && IsRenewed(cfg, m.subjects[w], m'.subjects[w], now) && IsHeard(m, m', c, now)
         case Some(auth) =>
           && plan.response.result == EventResult(Rejected(eventId, NotAuthorized(auth)))
           && IsTurnedAway(cfg, m, m', w, now)
  {
    hide After, PlanResolve, AuthAnswer, IsTurnedAway, ProjectionTx, IsHeard, IsRenewed, StoreAll, ConnectedObservation, Renewed, ExpiredCopy;
    var m := s.memory;
    var w := m.events[eventId].event.workerId;
    var plan := PlanResolve(cfg, m, id, c, token, eventId, r, now);
    AfterIs(s, plan, now);
    ResolvePlan(cfg, m, id, c, token, eventId, r, now);
    if AuthAnswer(cfg, m, m.subjects[w], c, token, None, now) == None {
      assert plan.tx.value.events == [plan.tx.value.events[0]];
      StoreOne(m.events, plan.tx.value.events[0]);
      LetInIsRenewed(cfg, m, m.subjects[w], c, token, now);
      HeartbeatIsHeard(m, After(s, plan, now), c, now);
    } else {
      TurnedAway(cfg, s, plan, w, now);
    }
  }

  lemma LetInIsRenewed(cfg: Config, m: Memory, s: Subject, c: Controller, token: Token, now: Time)
    requires AuthAnswer(cfg, m, s, c, token, None, now) == None
    ensures IsRenewed(cfg, s, Renewed(cfg, ExpiredCopy(cfg, m, s, now), now), now)
  {
    hide ExpiredCopy;
    CopyIsShown(cfg, m, s, now);
  }

  /** Resolving what is not stored, or what belongs to nobody registered, is refused. */
  lemma ResolveNeedsEvent(cfg: Config, m: Memory, id: MutationId, c: Controller, token: Token, eventId: EventId, r: Resolution,
                          now: Time)
    requires id !in m.receipts
    ensures var plan := PlanResolve(cfg, m, id, c, token, eventId, r, now);
      && (eventId !in m.events ==> plan == Plan(None, 0, Thrown(EventNotFound)))
      && (eventId in m.events && m.events[eventId].event.workerId !in m.subjects ==> plan == Plan(None, 0, Thrown(SubjectNotFound)))
  {}

  // ---- requesting a checkpoint ---------------------------------------------------------------

  /** The stored request is the one asked for again. */
  ghost predicate AsksAgain(prior: Checkpoint, c: Controller, r: CheckpointRequest) {
    && prior.key.workerId == r.key.workerId && prior.key.correlationId == r.key.correlationId
    && prior.requestedBy == c && prior.content == r.content && prior.mode == r.mode
  }

  lemma RequestPlan(cfg: Config, m: Memory, id: MutationId, c: Controller, token: Token, r: CheckpointRequest, now: Time)
    requires id !in m.receipts && r.key.workerId in m.subjects
    ensures var plan := PlanCheckpoint(cfg, m, id, c, token, r, now);
      var w := r.key.workerId;
      && plan.ordinals == 0
      && (plan.tx.Some? ==> plan.tx.value.events == [] && plan.tx.value.handoffs == map[])
      && match AuthAnswer(cfg, m, m.subjects[w], c, token, None, now)
         case Some(auth) =>
           && plan.response == Thrown(AuthenticationFailed(auth))
           && plan.tx == (if ProjectionTx(cfg, m, w, now) == NO_CHANGES then None else Some(ProjectionTx(cfg, m, w, now)))
         case None =>
           var renewed := Renewed(cfg, ExpiredCopy(cfg, m, m.subjects[w], now), now);
           if r.key in m.checkpoints && !AsksAgain(m.checkpoints[r.key], c, r) then plan == Plan(None, 0, Thrown(CheckpointIdentityCollision))
           else
             var request := if r.key in m.checkpoints then m.checkpoints[r.key]
               else Checkpoint(r.key, m.subjects[w].lease.version, c, r.content, r.mode, Pending, now);
             && plan.tx.Some? && plan.response == Returned(CheckpointResult(request), false)
             && plan.tx.value.liveness == ConnectedObservation(m, c, now)
             && plan.tx.value.checkpoints == (if r.key in m.checkpoints then map[] else map[r.key := request])
             && plan.tx.value.subjects == map[w := if r.key !in m.checkpoints && r.mode == BlockingGate
                                                   then renewed.(gate := Gated(r.key.correlationId, now)) else renewed]
  {
    hide ExpiredCopy, Renewed, AuthCodeOf, AuthAnswer, ConnectedObservation, ProjectionTx;
    AuthIsAnswered(cfg, m, m.subjects[r.key.workerId], c, token, None, now);
    ProjectionIsSubjects(cfg, m, r.key.workerId, now);
  }

  /** A checkpoint request, in full. If the stored lease lets the caller in, a new request is opened as asked and pending, and a
      decision gate pauses the worker on its correlation; asking again returns the stored request, whatever became of it, and a
      different request under its name is refused. A caller who is not let in is told why. */
  lemma RequestOpensIff(cfg: Config, s: System, id: MutationId, c: Controller, token: Token, r: CheckpointRequest, now: Time)
    requires id !in s.memory.receipts && r.key.workerId in s.memory.subjects
    ensures var plan := PlanCheckpoint(cfg, s.memory, id, c, token, r, now);
      RequestLeaves(cfg, s.memory, After(s, plan, now), c, token, r, now, plan.response)
  {
    hide After, PlanCheckpoint, AuthAnswer, IsTurnedAway, ProjectionTx, IsHeard, IsRenewed, StoreAll, ConnectedObservation, Renewed,
      ExpiredCopy, AsksAgain;
    var m, w := s.memory, r.key.workerId;
    var plan := PlanCheckpoint(cfg, m, id, c, token, r, now);
    AfterIs(s, plan, now);
    RequestPlan(cfg, m, id, c, token, r, now);
    if AuthAnswer(cfg, m, m.subjects[w], c, token, None, now) != None {
      ProjectionIsSubjects(cfg, m, w, now);
      TurnedAway(cfg, s, plan, w, now);
    } else if plan.tx.Some? {
      LetInIsRenewed(cfg, m, m.subjects[w], c, token, now);
      HeartbeatIsHeard(m, After(s, plan, now), c, now);
      GateIsAside(cfg, m, m.subjects[w], Gated(r.key.correlationId, now), now);
    }
  }

  lemma ProjectionIsSubjects(cfg: Config, m: Memory, x: SubjectId, now: Time)
    requires x in m.subjects
    ensures var tx := ProjectionTx(cfg, m, x, now);
      tx.events == [] && tx.liveness == map[] && tx.checkpoints == map[] && tx.handoffs == map[]
  {}

  lemma GateIsAside(cfg: Config, m: Memory, s: Subject, gate: DecisionGate, now: Time)
    ensures forall t :: IsRenewed(cfg, s, t, now) ==> t.gate == s.gate && IsRenewed(cfg, s.(gate := gate), t.(gate := gate), now)
  {}

  ghost predicate RequestLeaves(cfg: Config, m: Memory, m': Memory, c: Controller, token: Token, r: CheckpointRequest, now: Time,
                                response: Response)
    requires r.key.workerId in m.subjects
  {
    var w, known := r.key.workerId, r.key in m.checkpoints;
    match AuthAnswer(cfg, m, m.subjects[w], c, token, None, now)
    case Some(auth) => response == Thrown(AuthenticationFailed(auth)) && IsTurnedAway(cfg, m, m', w, now)
    case None =>
      if known && !AsksAgain(m.checkpoints[r.key], c, r) then
        response == Thrown(CheckpointIdentityCollision) && m' == m.(summaries := m'.summaries, receipts := m'.receipts)
      else
        && r.key in m'.checkpoints && response == Returned(CheckpointResult(m'.checkpoints[r.key]), false)
        && m'.checkpoints == m.checkpoints[r.key := m'.checkpoints[r.key]]
        && m'.checkpoints[r.key] == (if known then m.checkpoints[r.key]
             else Checkpoint(r.key, m.subjects[w].lease.version, c, r.content, r.mode, Pending, now))
        && w in m'.subjects && m'.subjects == m.subjects[w := m'.subjects[w]] && IsHeard(m, m', c, now)
        && m'.subjects[w].gate == (if !known && r.mode == BlockingGate then Gated(r.key.correlationId, now) else m.subjects[w].gate)
        && IsRenewed(cfg, m.subjects[w].(gate := m'.subjects[w].gate), m'.subjects[w], now)
        && m'.events == m.events && m'.handoffs == m.handoffs && m'.nextOrdinal == m.nextOrdinal
  }
}
