/** Safety of the bounded event queues: what every stored event obeys, and why every call keeps it so. */
module EventQueue {
  import opened Finite
  import opened CoordinationTypes
  import opened CoordinationState
  import opened LeasePlans
  import opened BatchPlans
  import opened EventPlans
  import opened CoordinationMachine

  type Events = map<EventId, StoredEvent>

  ghost predicate Keyed(events: Events) { forall id :: id in events ==> events[id].event.eventId == id }

  /** Ordinals are positive, below the next one to draw, and never shared. */
  ghost predicate OrdinalsSound(events: Events, next: nat) {
    && next > 0
    && (forall id :: id in events ==> 0 < events[id].ordinal < next)
    && (forall i, j :: i in events && j in events && i != j ==> events[i].ordinal != events[j].ordinal)
  }

  /** Per worker, sequences are distinct and grow in the order of arrival. */
  ghost predicate SequencesSound(events: Events) {
    forall i, j :: i in events && j in events && i != j && events[i].event.workerId == events[j].event.workerId ==>
      && events[i].event.sequence != events[j].event.sequence
      && (events[i].event.sequence < events[j].event.sequence ==> events[i].receivedAt <= events[j].receivedAt)
  }

  ghost predicate OneProgress(events: Events) {
    forall w, i, j :: i in OpenProgressOf(events, w) && j in OpenProgressOf(events, w) ==> i == j
  }

  ghost predicate Bounded(cfg: Config, events: Events) { forall w :: |OpenOf(events, w)| <= cfg.maxQueued }

  ghost predicate ReceivedBy(events: Events, now: Time) { forall id :: id in events ==> events[id].receivedAt <= now }

  /** Events of `w` received in the half-open window (from, from + length]. */
  ghost function ReceivedWithin(events: Events, w: SubjectId, from: int, length: nat): set<EventId> {
    set id | id in events && events[id].event.workerId == w && from < events[id].receivedAt <= from + length
  }

  /** No window of the configured length holds more than the limit, wherever it is placed. */
  ghost predicate RateRespected(cfg: Config, events: Events) {
    forall w, from: int :: |ReceivedWithin(events, w, from, cfg.rateWindow)| <= cfg.rateLimit
  }

  ghost predicate EventsSound(cfg: Config, events: Events, next: nat, now: Time) {
    && Keyed(events) && OrdinalsSound(events, next) && SequencesSound(events) && OneProgress(events)
    && Bounded(cfg, events) && ReceivedBy(events, now) && RateRespected(cfg, events)
  }

  // ---- the two ways stored events change -----------------------------------------------------

  /** `e` re-records a stored event, no longer open, under a fresh ordinal. */
  ghost predicate IsClosing(events: Events, e: StoredEvent, next: nat) {
    var id := e.event.eventId;
    && id in events && !e.state.Open? && e.ordinal == next
    && e.event == events[id].event && e.receivedAt == events[id].receivedAt && e.submission == events[id].submission
  }

  /** `e` is a new event that the queue has room, rate and order for. */
  ghost predicate IsArrival(cfg: Config, events: Events, e: StoredEvent, next: nat, now: Time) {
    var w := e.event.workerId;
    && e.event.eventId !in events && e.state.Open? && e.ordinal == next && e.receivedAt == now
    && |OpenOf(events, w)| < cfg.maxQueued
    && (e.event.kind.PROGRESS? ==> OpenProgressOf(events, w) == {})
    && |ReceivedAfter(events, w, now - cfg.rateWindow)| < cfg.rateLimit
    && forall id :: id in EventsOf(events, w) ==> events[id].event.sequence < e.event.sequence
  }

  lemma ClosingKeepsCounts(cfg: Config, events: Events, e: StoredEvent, next: nat)
    requires IsClosing(events, e, next) && Keyed(events) && Bounded(cfg, events) && OneProgress(events)
    ensures Bounded(cfg, events[e.event.eventId := e]) && OneProgress(events[e.event.eventId := e])
  {
    var after := events[e.event.eventId := e];
    forall w ensures |OpenOf(after, w)| <= cfg.maxQueued {
      assert OpenOf(after, w) == OpenOf(events, w) - {e.event.eventId};
    }
    forall w, i | i in OpenProgressOf(after, w) ensures i in OpenProgressOf(events, w) {}
  }

  lemma ClosingKeepsRate(cfg: Config, events: Events, e: StoredEvent, next: nat)
    requires IsClosing(events, e, next) && RateRespected(cfg, events)
    ensures RateRespected(cfg, events[e.event.eventId := e])
  {
    var after := events[e.event.eventId := e];
    forall w, from: int ensures |ReceivedWithin(after, w, from, cfg.rateWindow)| <= cfg.rateLimit {
      assert ReceivedWithin(after, w, from, cfg.rateWindow) == ReceivedWithin(events, w, from, cfg.rateWindow);
    }
  }

  lemma ClosingKeeps(cfg: Config, events: Events, e: StoredEvent, next: nat, now: Time)
    requires EventsSound(cfg, events, next, now) && IsClosing(events, e, next)
    ensures EventsSound(cfg, events[e.event.eventId := e], next + 1, now)
  {
    hide Bounded, RateRespected, OneProgress;
    ClosingKeepsCounts(cfg, events, e, next);
    ClosingKeepsRate(cfg, events, e, next);
  }

  lemma ArrivalOpens(events: Events, e: StoredEvent, w: SubjectId)
    requires e.event.eventId !in events && e.state.Open?
    ensures OpenOf(events[e.event.eventId := e], w) ==
      if w == e.event.workerId then OpenOf(events, w) + {e.event.eventId} else OpenOf(events, w)
  {
    var after := events[e.event.eventId := e];
    assert forall id :: id in events ==> id != e.event.eventId && after[id] == events[id];
  }

  lemma ArrivalProgress(events: Events, e: StoredEvent, w: SubjectId)
    requires e.event.eventId !in events && e.state.Open?
    ensures OpenProgressOf(events[e.event.eventId := e], w) ==
      if w == e.event.workerId && e.event.kind.PROGRESS? then OpenProgressOf(events, w) + {e.event.eventId}
      else OpenProgressOf(events, w)
  {
    var after := events[e.event.eventId := e];
    assert forall id :: id in events ==> id != e.event.eventId && after[id] == events[id];
  }

  lemma ArrivalKeepsCounts(cfg: Config, events: Events, e: StoredEvent, next: nat, now: Time)
    requires IsArrival(cfg, events, e, next, now) && Bounded(cfg, events) && OneProgress(events)
    ensures Bounded(cfg, events[e.event.eventId := e]) && OneProgress(events[e.event.eventId := e])
  {
    hide OpenOf, OpenProgressOf;
    var after := events[e.event.eventId := e];
    forall w ensures |OpenOf(after, w)| <= cfg.maxQueued { ArrivalOpens(events, e, w); }
    forall w, i, j | i in OpenProgressOf(after, w) && j in OpenProgressOf(after, w) ensures i == j {
      ArrivalProgress(events, e, w);
    }
  }

  lemma ArrivalKeepsWindow(cfg: Config, events: Events, e: StoredEvent, next: nat, now: Time, w: SubjectId, from: int)
    requires IsArrival(cfg, events, e, next, now)
    requires |ReceivedWithin(events, w, from, cfg.rateWindow)| <= cfg.rateLimit
    ensures |ReceivedWithin(events[e.event.eventId := e], w, from, cfg.rateWindow)| <= cfg.rateLimit
  {
    var was := ReceivedWithin(events, w, from, cfg.rateWindow);
    var held := ReceivedWithin(events[e.event.eventId := e], w, from, cfg.rateWindow);
    if w == e.event.workerId && from < now <= from + cfg.rateWindow {
      assert held == was + {e.event.eventId};
      assert was <= ReceivedAfter(events, w, now - cfg.rateWindow);
      SubsetSize(was, ReceivedAfter(events, w, now - cfg.rateWindow));
    } else {
      assert held == was;
    }
  }

  lemma ArrivalKeepsRate(cfg: Config, events: Events, e: StoredEvent, next: nat, now: Time)
    requires IsArrival(cfg, events, e, next, now) && RateRespected(cfg, events)
    ensures RateRespected(cfg, events[e.event.eventId := e])
  {
    hide ReceivedWithin, IsArrival;
    var after := events[e.event.eventId := e];
    forall w, from: int ensures |ReceivedWithin(after, w, from, cfg.rateWindow)| <= cfg.rateLimit {
      ArrivalKeepsWindow(cfg, events, e, next, now, w, from);
    }
  }

  lemma ArrivalKeepsSequences(cfg: Config, events: Events, e: StoredEvent, next: nat, now: Time)
    requires IsArrival(cfg, events, e, next, now) && SequencesSound(events) && ReceivedBy(events, now)
    ensures SequencesSound(events[e.event.eventId := e])
  {
    var after := events[e.event.eventId := e];
    forall i, j | i in after && j in after && i != j && after[i].event.workerId == after[j].event.workerId
      ensures after[i].event.sequence != after[j].event.sequence
      ensures after[i].event.sequence < after[j].event.sequence ==> after[i].receivedAt <= after[j].receivedAt
    {
      var w := after[i].event.workerId;
      assert i != e.event.eventId ==> i in EventsOf(events, w);
      assert j != e.event.eventId ==> j in EventsOf(events, w);
    }
  }

  lemma ArrivalKeeps(cfg: Config, events: Events, e: StoredEvent, next: nat, now: Time)
    requires EventsSound(cfg, events, next, now) && IsArrival(cfg, events, e, next, now)
    ensures EventsSound(cfg, events[e.event.eventId := e], next + 1, now)
  {
    hide Bounded, RateRespected, OneProgress, SequencesSound;
    ArrivalKeepsCounts(cfg, events, e, next, now);
    ArrivalKeepsRate(cfg, events, e, next, now);
    ArrivalKeepsSequences(cfg, events, e, next, now);
  }

  /** Every change a plan makes to events: nothing, one closing, one arrival, or a closing and an arrival. */
  ghost predicate EventChange(cfg: Config, events: Events, changes: seq<StoredEvent>, next: nat, now: Time) {
    || changes == []
    || (|changes| == 1 && (IsClosing(events, changes[0], next) || IsArrival(cfg, events, changes[0], next, now)))
    || (|changes| == 2 && IsClosing(events, changes[0], next)
        && IsArrival(cfg, events[changes[0].event.eventId := changes[0]], changes[1], next + 1, now))
  }

  lemma StoreOne(events: Events, e: StoredEvent)
    ensures StoreAll(events, [e]) == events[e.event.eventId := e]
  {
    assert [e][1..] == [];
  }

  lemma StoreTwo(events: Events, e: StoredEvent, f: StoredEvent)
    ensures StoreAll(events, [e, f]) == events[e.event.eventId := e][f.event.eventId := f]
  {
    assert [e, f][1..] == [f];
    StoreOne(events[e.event.eventId := e], f);
  }

  lemma OrdinalsRelax(cfg: Config, events: Events, next: nat, next': nat, now: Time, now': Time)
    requires EventsSound(cfg, events, next, now) && next <= next' && now <= now'
    ensures EventsSound(cfg, events, next', now')
  {
    hide Bounded, RateRespected, OneProgress, SequencesSound;
  }

  lemma ChangesKeepEvents(cfg: Config, events: Events, changes: seq<StoredEvent>, next: nat, now: Time)
    requires EventsSound(cfg, events, next, now) && EventChange(cfg, events, changes, next, now)
    ensures EventsSound(cfg, StoreAll(events, changes), next + |changes|, now)
  {
    hide EventsSound, IsArrival, IsClosing;
    if |changes| == 1 {
      assert changes == [changes[0]];
      StoreOne(events, changes[0]);
      if IsClosing(events, changes[0], next) { ClosingKeeps(cfg, events, changes[0], next, now); }
      else { ArrivalKeeps(cfg, events, changes[0], next, now); }
    } else if |changes| == 2 {
      assert changes == [changes[0], changes[1]];
      StoreTwo(events, changes[0], changes[1]);
      ClosingKeeps(cfg, events, changes[0], next, now);
      ArrivalKeeps(cfg, events[changes[0].event.eventId := changes[0]], changes[1], next + 1, now);
    }
  }

  // ---- every call makes such a change --------------------------------------------------------

  ghost predicate PlanChange(cfg: Config, m: Memory, plan: Plan, now: Time) {
    plan.tx.Some? ==>
      |plan.tx.value.events| <= plan.ordinals && EventChange(cfg, m.events, plan.tx.value.events, m.nextOrdinal, now)
  }

  /** Superseding never evicts, and evicting never supersedes, as long as the queue is within its limit. */
  lemma QueueingIsSingle(cfg: Config, events: Events, e: WorkerEvent)
    requires Bounded(cfg, events)
    ensures QueueingOf(cfg, events, e).superseded.Some? ==> !QueueingOf(cfg, events, e).over
  {}

  lemma ClosedIsClosing(cfg: Config, events: Events, e: WorkerEvent, next: nat, now: Time)
    requires Keyed(events) && Bounded(cfg, events)
    requires !(QueueingOf(cfg, events, e).over && QueueingOf(cfg, events, e).evicted.None?)
    ensures var q := QueueingOf(cfg, events, e);
      var closed := ClosedEvents(events, q, e, next, now);
      && |closed| == OrdinalsDrawn(q) <= 1
      && (|closed| == 1 ==> IsClosing(events, closed[0], next) && closed[0].event.eventId in OpenOf(events, e.workerId))
      && (q.superseded.Some? ==> |closed| == 1 && closed[0].event.eventId == q.superseded.value)
      && (q.over ==> |closed| == 1)
  {
    QueueingIsSingle(cfg, events, e);
  }

  lemma ClosingLeavesOpen(events: Events, e: StoredEvent, next: nat, w: SubjectId)
    requires IsClosing(events, e, next)
    ensures OpenOf(events[e.event.eventId := e], w) == OpenOf(events, w) - {e.event.eventId}
    ensures OpenProgressOf(events[e.event.eventId := e], w) == OpenProgressOf(events, w) - {e.event.eventId}
  {}

  lemma LoneProgressIsLatest(events: Events, w: SubjectId)
    requires OneProgress(events)
    ensures LatestProgress(events, w).None? <==> OpenProgressOf(events, w) == {}
    ensures LatestProgress(events, w).Some? ==> OpenProgressOf(events, w) == {LatestProgress(events, w).value}
  {
    if OpenProgressOf(events, w) != {} {
      var id :| id in OpenProgressOf(events, w);
      assert OpenProgressOf(events, w) == {id};
      assert IsLatest(events, OpenProgressOf(events, w), id);
    }
  }

  /** What is left open once room was made. */
  lemma RoomWasMade(cfg: Config, events: Events, e: WorkerEvent, now: Time, next: nat)
    requires Keyed(events) && Bounded(cfg, events) && OneProgress(events)
    requires !(QueueingOf(cfg, events, e).over && QueueingOf(cfg, events, e).evicted.None?)
    ensures var q := QueueingOf(cfg, events, e);
      var after := StoreAll(events, ClosedEvents(events, q, e, next, now));
      && |OpenOf(after, e.workerId)| < cfg.maxQueued
      && (e.kind.PROGRESS? ==> OpenProgressOf(after, e.workerId) == {})
  {
    hide OpenOf, OpenProgressOf, LatestProgress, OldestEvictable, IsClosing, ClosedEvents, OneProgress, Keyed;
    var q := QueueingOf(cfg, events, e);
    var closed := ClosedEvents(events, q, e, next, now);
    ClosedIsClosing(cfg, events, e, next, now);
    LoneProgressIsLatest(events, e.workerId);
    if |closed| == 1 {
      assert closed == [closed[0]];
      StoreOne(events, closed[0]);
      ClosingLeavesOpen(events, closed[0], next, e.workerId);
    } else {
      assert closed == [];
    }
  }

  /** What `submitEvent` leaves to `PlanAccept` is exactly an arrival, once room was made. */
  lemma AcceptArrives(cfg: Config, m: Memory, e: WorkerEvent, now: Time)
    requires EventsSound(cfg, m.events, m.nextOrdinal, now)
    requires e.eventId !in m.events && e.sequence > LastSequence(m.events, e.workerId)
    requires |ReceivedAfter(m.events, e.workerId, now - cfg.rateWindow)| < cfg.rateLimit
    requires !(QueueingOf(cfg, m.events, e).over && QueueingOf(cfg, m.events, e).evicted.None?)
    ensures var q := QueueingOf(cfg, m.events, e);
      EventChange(cfg, m.events, ClosedEvents(m.events, q, e, m.nextOrdinal, now)
                                 + [StoredOf(m.events, q, e, m.nextOrdinal, now)], m.nextOrdinal, now)
  {
    hide QueueingOf, ClosedEvents, Bounded, OneProgress, RateRespected, SequencesSound, OpenOf, LastSequence;
    var q := QueueingOf(cfg, m.events, e);
    var closed := ClosedEvents(m.events, q, e, m.nextOrdinal, now);
    var stored := StoredOf(m.events, q, e, m.nextOrdinal, now);
    ClosedIsClosing(cfg, m.events, e, m.nextOrdinal, now);
    RoomWasMade(cfg, m.events, e, now, m.nextOrdinal);
    if |closed| == 1 {
      assert closed == [closed[0]] && closed + [stored] == [closed[0], stored];
      StoreOne(m.events, closed[0]);
      var after := m.events[closed[0].event.eventId := closed[0]];
      ClosingLeavesEvents(m.events, closed[0], m.nextOrdinal, e.workerId, now - cfg.rateWindow);
      ClosingLeavesSequences(m.events, closed[0], m.nextOrdinal, e.workerId, e.sequence);
    } else {
      assert closed == [] && closed + [stored] == [stored];
    }
  }

  lemma ClosingLeavesEvents(events: Events, e: StoredEvent, next: nat, w: SubjectId, floor: int)
    requires IsClosing(events, e, next)
    ensures EventsOf(events[e.event.eventId := e], w) == EventsOf(events, w)
    ensures ReceivedAfter(events[e.event.eventId := e], w, floor) == ReceivedAfter(events, w, floor)
  {}

  lemma ClosingLeavesSequences(events: Events, e: StoredEvent, next: nat, w: SubjectId, sequence: nat)
    requires IsClosing(events, e, next)
    requires forall id :: id in EventsOf(events, w) ==> events[id].event.sequence < sequence
    ensures var after := events[e.event.eventId := e];
      forall id :: id in EventsOf(after, w) ==> after[id].event.sequence < sequence
  {}

  lemma SubmitChanges(cfg: Config, m: Memory, id: MutationId, c: Controller, token: Token, e: WorkerEvent, now: Time)
    requires EventsSound(cfg, m.events, m.nextOrdinal, now)
    ensures PlanChange(cfg, m, PlanSubmit(cfg, m, id, c, token, e, now), now)
  {
    hide EventsSound, QueueingOf, ClosedEvents, StoredOf, EventChange, AuthCodeOf, ExpiredCopy, LastSequence, ReceivedAfter,
      OrdinalsDrawn, ProjectionTx, Ungated, AnsweredCheckpoints, AnswersPending;
    NothingChanges(cfg, m.events, m.nextOrdinal, now);
    if e.eventId !in m.events && e.sequence > LastSequence(m.events, e.workerId)
      && |ReceivedAfter(m.events, e.workerId, now - cfg.rateWindow)| < cfg.rateLimit
      && !(QueueingOf(cfg, m.events, e).over && QueueingOf(cfg, m.events, e).evicted.None?)
    {
      AcceptArrives(cfg, m, e, now);
      SoundIsKeyed(cfg, m.events, m.nextOrdinal, now);
      ClosedIsClosing(cfg, m.events, e, m.nextOrdinal, now);
    }
    if e.workerId in m.subjects { ProjectionHasNoEvents(cfg, m, e.workerId, now); }
  }

  lemma NothingChanges(cfg: Config, events: Events, next: nat, now: Time)
    ensures EventChange(cfg, events, [], next, now)
  {}

  lemma SoundIsKeyed(cfg: Config, events: Events, next: nat, now: Time)
    requires EventsSound(cfg, events, next, now)
    ensures Keyed(events) && Bounded(cfg, events)
  {}

  lemma ProjectionHasNoEvents(cfg: Config, m: Memory, x: SubjectId, now: Time)
    requires x in m.subjects
    ensures ProjectionTx(cfg, m, x, now).events == []
  {}

  lemma ResolveChanges(cfg: Config, m: Memory, id: MutationId, c: Controller, token: Token, e: EventId, r: Resolution,
                       now: Time)
    requires Keyed(m.events)
    ensures PlanChange(cfg, m, PlanResolve(cfg, m, id, c, token, e, r, now), now)
  {
    hide AuthCodeOf, ExpiredCopy;
  }

  lemma EveryCallChangesEvents(cfg: Config, m: Memory, op: Call, now: Time, call: nat)
    requires EventsSound(cfg, m.events, m.nextOrdinal, now)
    ensures PlanChange(cfg, m, PlanOf(cfg, m, op, now, call), now)
  {
    hide EventsSound, PlanSubmit, PlanResolve, PlanChange;
    if op.SubmitEvent? {
      SubmitChanges(cfg, m, op.id, op.controller, op.token, op.event, now);
    } else if op.ResolveEvent? {
      SoundIsKeyed(cfg, m.events, m.nextOrdinal, now);
      ResolveChanges(cfg, m, op.id, op.controller, op.token, op.eventId, op.resolution, now);
    } else {
      OtherCallsLeaveEvents(cfg, m, op, now, call);
    }
  }

  lemma OtherCallsLeaveEvents(cfg: Config, m: Memory, op: Call, now: Time, call: nat)
    requires !op.SubmitEvent? && !op.ResolveEvent?
    ensures PlanChange(cfg, m, PlanOf(cfg, m, op, now, call), now)
  {
    hide PlanSubmit, PlanResolve, ExpiredCopy, AuthCodeOf, TakeAll, UseAll, AdoptGranted, HandoffGranted, AdoptAborted,
      HandoffAborted, Selected, OrphanAll, ManifestOf;
  }
}
