/** The event queues, the index and the checkpoint state over whole runs, restarts included. */
module EventRuns {
  import opened CoordinationTypes
  import opened CoordinationState
  import opened LeasePlans
  import opened BatchPlans
  import opened EventPlans
  import opened CoordinationMachine
  import opened LogRefinement
  import opened EventQueue

  ghost predicate QueuesSound(cfg: Config, s: System) {
    && LogAgrees(s)
    && EventsSound(cfg, s.memory.events, s.memory.nextOrdinal, s.clock)
    && SummariesExact(s.memory.events, s.memory.summaries)
  }

  /** Stored events are never lost or reopened, keep what they report, and change only under an ordinal
      above every ordinal stored before. */
  ghost predicate Advances(events: Events, events': Events) {
    && (forall id :: id in events ==>
          && id in events'
          && events'[id].event == events[id].event && events'[id].receivedAt == events[id].receivedAt
          && events'[id].submission == events[id].submission
          && (events'[id].state.Open? ==> events[id].state.Open?))
    && (forall id, j :: id in events' && j in events && !(id in events && events'[id] == events[id]) ==>
          events'[id].ordinal > events[j].ordinal)
  }

  lemma AdvancesComposes(events: Events, events': Events, events'': Events)
    requires Advances(events, events') && Advances(events', events'')
    ensures Advances(events, events'')
  {
    forall id, j | id in events'' && j in events && !(id in events && events''[id] == events[id])
      ensures events''[id].ordinal > events[j].ordinal
    {
      if id in events' && events''[id] == events'[id] {
      } else if events'[j] == events[j] {
      } else {
        assert events'[j].ordinal > events[j].ordinal;
      }
    }
  }

  lemma ChangeAdvances(cfg: Config, events: Events, e: StoredEvent, next: nat, now: Time)
    requires Keyed(events) && OrdinalsSound(events, next)
    requires IsClosing(events, e, next) || IsArrival(cfg, events, e, next, now)
    ensures Advances(events, events[e.event.eventId := e])
  {}

  lemma ChangeIndexes(cfg: Config, events: Events, summaries: map<SubjectId, Summary>, e: StoredEvent, next: nat, now: Time)
    requires Keyed(events) && OrdinalsSound(events, next) && SummariesExact(events, summaries)
    requires IsClosing(events, e, next) || IsArrival(cfg, events, e, next, now)
    ensures SummariesExact(events[e.event.eventId := e], RecordSummaries(events, summaries, e))
  {
    hide SummariesExact, RecordSummaries;
    RecordKeepsIndex(events, summaries, e);
  }

  lemma IndexOne(events: Events, summaries: map<SubjectId, Summary>, e: StoredEvent)
    ensures IndexAll(events, summaries, [e]) == RecordSummaries(events, summaries, e)
  {
    hide RecordSummaries;
    assert [e][1..] == [];
  }

  lemma IndexTwo(events: Events, summaries: map<SubjectId, Summary>, e: StoredEvent, f: StoredEvent)
    ensures IndexAll(events, summaries, [e, f]) ==
      RecordSummaries(events[e.event.eventId := e], RecordSummaries(events, summaries, e), f)
  {
    hide RecordSummaries;
    assert [e, f][1..] == [f];
    IndexOne(events[e.event.eventId := e], RecordSummaries(events, summaries, e), f);
  }

  lemma ChangesAdvance(cfg: Config, events: Events, summaries: map<SubjectId, Summary>, changes: seq<StoredEvent>, next: nat,
                       now: Time)
    requires EventsSound(cfg, events, next, now) && EventChange(cfg, events, changes, next, now)
    requires SummariesExact(events, summaries)
    ensures Advances(events, StoreAll(events, changes))
    ensures SummariesExact(StoreAll(events, changes), IndexAll(events, summaries, changes))
  {
    hide SummariesExact, RecordSummaries, IsArrival, IsClosing, Bounded, OneProgress, RateRespected, SequencesSound, Advances;
    if |changes| == 0 {
      AdvancesReflexive(events);
    } else if |changes| == 1 {
      assert changes == [changes[0]];
      StoreOne(events, changes[0]);
      IndexOne(events, summaries, changes[0]);
      ChangeAdvances(cfg, events, changes[0], next, now);
      ChangeIndexes(cfg, events, summaries, changes[0], next, now);
    } else {
      var e, f := changes[0], changes[1];
      var middle := events[e.event.eventId := e];
      assert changes == [e, f];
      StoreTwo(events, e, f);
      IndexTwo(events, summaries, e, f);
      ClosingKeeps(cfg, events, e, next, now);
      ChangeAdvances(cfg, events, e, next, now);
      ChangeAdvances(cfg, middle, f, next + 1, now);
      AdvancesComposes(events, middle, middle[f.event.eventId := f]);
      ChangeIndexes(cfg, events, summaries, e, next, now);
      ChangeIndexes(cfg, middle, RecordSummaries(events, summaries, e), f, next + 1, now);
    }
  }

  lemma AdvancesReflexive(events: Events)
    ensures Advances(events, events)
  {}

  lemma ExecuteKeepsQueues(cfg: Config, s: System, plan: Plan, now: Time, stored: bool)
    requires QueuesSound(cfg, s) && s.clock <= now && PlanChange(cfg, s.memory, plan, now)
    ensures QueuesSound(cfg, Execute(s, plan, now, stored))
    ensures Advances(s.memory.events, Execute(s, plan, now, stored).memory.events)
  {
    hide LogAgrees, EventsSound, SummariesExact, StoreAll, IndexAll, Advances, EventChange;
    ExecuteKeepsLog(s, plan, now, stored);
    var m := s.memory;
    OrdinalsRelax(cfg, m.events, m.nextOrdinal, m.nextOrdinal, s.clock, now);
    if plan.tx.Some? && stored {
      var changes := plan.tx.value.events;
      ChangesKeepEvents(cfg, m.events, changes, m.nextOrdinal, now);
      ChangesAdvance(cfg, m.events, m.summaries, changes, m.nextOrdinal, now);
      OrdinalsRelax(cfg, StoreAll(m.events, changes), m.nextOrdinal + |changes|, m.nextOrdinal + plan.ordinals, now, now);
    } else {
      AdvancesReflexive(m.events);
      OrdinalsRelax(cfg, m.events, m.nextOrdinal, m.nextOrdinal + plan.ordinals, now, now);
    }
  }

  /** What a restart recomputes: an exact index, and a counter above every stored ordinal. */
  lemma RecoveryIsSound(cfg: Config, d: Durable, next: nat, now: Time)
    requires EventsSound(cfg, d.events, next, now)
    ensures EventsSound(cfg, d.events, Recover(d).nextOrdinal, now)
    ensures SummariesExact(d.events, Recover(d).summaries)
    ensures Recover(d).nextOrdinal <= next
  {
    hide Bounded, OneProgress, RateRespected, SequencesSound;
    forall w ensures SummaryOf(Recover(d).summaries, w) == Recount(d.events, w) {
      if w !in Recover(d).summaries {
        assert EventsOf(d.events, w) == {};
        assert UnresolvedOf(d.events, w) == {};
      }
    }
  }

  lemma StepKeepsQueues(cfg: Config, s: System, a: Action)
    requires QueuesSound(cfg, s)
    ensures QueuesSound(cfg, Step(cfg, s, a))
    ensures Advances(s.memory.events, Step(cfg, s, a).memory.events)
  {
    hide PlanOf, Execute, Recover, LogAgrees, EventsSound, SummariesExact, Advances, PlanChange;
    StepKeepsLog(cfg, s, a);
    if a.Invoke? {
      OrdinalsRelax(cfg, s.memory.events, s.memory.nextOrdinal, s.memory.nextOrdinal, s.clock, s.clock + a.elapsed);
      EveryCallChangesEvents(cfg, s.memory, a.op, s.clock + a.elapsed, s.calls);
      ExecuteKeepsQueues(cfg, s, PlanAt(cfg, s, a.op, a.elapsed), s.clock + a.elapsed, a.stored);
    } else {
      RestartKeepsDurable(cfg, s);
      LogIsEvents(s);
      RecoveryIsSound(cfg, Replay(s.log), s.memory.nextOrdinal, s.clock);
      AdvancesReflexive(s.memory.events);
    }
  }

  lemma LogIsEvents(s: System)
    requires LogAgrees(s)
    ensures Replay(s.log).events == s.memory.events
  {
    hide Replay;
  }

  /** Event queue safety and index exactness over every run. */
  lemma {:induction false} QueuesStaySound(cfg: Config, s: System, actions: seq<Action>)
    requires QueuesSound(cfg, s)
    ensures QueuesSound(cfg, Run(cfg, s, actions))
    ensures Advances(s.memory.events, Run(cfg, s, actions).memory.events)
    decreases |actions|
  {
    hide Step, QueuesSound, Advances;
    if actions != [] {
      var s' := Step(cfg, s, actions[0]);
      StepKeepsQueues(cfg, s, actions[0]);
      QueuesStaySound(cfg, s', actions[1..]);
      AdvancesComposes(s.memory.events, s'.memory.events, Run(cfg, s', actions[1..]).memory.events);
    } else {
      AdvancesReflexive(s.memory.events);
    }
  }

  lemma InitialQueues(cfg: Config)
    ensures QueuesSound(cfg, INITIAL)
  {
    var none: Events := map[];
    forall w ensures OpenOf(none, w) == {} && OpenProgressOf(none, w) == {} && UnresolvedOf(none, w) == {} && EventsOf(none, w) == {} {}
    forall w, from: int ensures |ReceivedWithin(none, w, from, cfg.rateWindow)| <= cfg.rateLimit {
      assert ReceivedWithin(none, w, from, cfg.rateWindow) == {};
    }
  }

  /** Every state reached from an empty log: bounded queues, one open progress report per worker, arrival
      order equal to sequence order, no rate window over its limit, distinct ordinals below the counter,
      and an index equal to the recount. */
  lemma ReachableQueues(cfg: Config, actions: seq<Action>)
    ensures QueuesSound(cfg, Run(cfg, INITIAL, actions))
  {
    hide Run, Step, QueuesSound;
    InitialQueues(cfg);
    QueuesStaySound(cfg, INITIAL, actions);
  }

  /** A restart is invisible: the recovered memory answers every lookup as before. Only the ordinal counter
      may drop back, over ordinals that rejected calls drew and no event carries. */
  lemma RestartIsInvisible(cfg: Config, actions: seq<Action>)
    ensures var s := Run(cfg, INITIAL, actions);
      var m := Recover(Replay(s.log));
      && DurableOf(m) == DurableOf(s.memory)
      && (forall w :: SummaryOf(m.summaries, w) == SummaryOf(s.memory.summaries, w))
      && m.nextOrdinal <= s.memory.nextOrdinal
      && (forall id :: id in m.events ==> m.events[id].ordinal < m.nextOrdinal)
  {
    hide Run, Step, Recover, Bounded, OneProgress, RateRespected, SequencesSound, Recount;
    var s := Run(cfg, INITIAL, actions);
    ReachableQueues(cfg, actions);
    RecoveryIsSound(cfg, Replay(s.log), s.memory.nextOrdinal, s.clock);
    RecoveredIsDurable(Replay(s.log));
  }

  lemma RecoveredIsDurable(d: Durable)
    ensures DurableOf(Recover(d)) == d
  {}

  // ---- eviction ------------------------------------------------------------------------------

  ghost predicate Spares(changes: seq<StoredEvent>, x: EventId) {
    forall i :: 0 <= i < |changes| ==> changes[i].event.eventId != x
  }

  lemma QueueingSparesPinned(cfg: Config, events: Events, e: WorkerEvent, next: nat, now: Time, x: EventId)
    requires Keyed(events) && x in events && IsPinned(events[x]) && e.eventId !in events
    requires !(e.kind.PROGRESS? && events[x].event.kind.PROGRESS? && events[x].event.workerId == e.workerId)
    ensures var q := QueueingOf(cfg, events, e);
      Spares(ClosedEvents(events, q, e, next, now) + [StoredOf(events, q, e, next, now)], x)
  {
    hide LatestProgress, OldestEvictable, OpenOf;
  }

  /** A submission re-records a pinned event only to supersede one progress report with the next. */
  lemma SubmitSparesPinned(cfg: Config, m: Memory, id: MutationId, c: Controller, token: Token, e: WorkerEvent, now: Time,
                           x: EventId)
    requires EventsSound(cfg, m.events, m.nextOrdinal, now) && x in m.events && IsPinned(m.events[x])
    requires !(e.kind.PROGRESS? && m.events[x].event.kind.PROGRESS? && m.events[x].event.workerId == e.workerId)
    ensures var plan := PlanSubmit(cfg, m, id, c, token, e, now);
      plan.tx.Some? ==> Spares(plan.tx.value.events, x)
  {
    hide EventsSound, QueueingOf, ClosedEvents, StoredOf, AuthCodeOf, ExpiredCopy, LastSequence, ReceivedAfter, OrdinalsDrawn,
      ProjectionTx, Ungated, AnsweredCheckpoints, AnswersPending;
    SoundIsKeyed(cfg, m.events, m.nextOrdinal, now);
    if e.eventId !in m.events { QueueingSparesPinned(cfg, m.events, e, m.nextOrdinal, now, x); }
    if e.workerId in m.subjects { ProjectionHasNoEvents(cfg, m, e.workerId, now); }
  }

  lemma {:induction false} UntouchedByStore(events: Events, changes: seq<StoredEvent>, x: EventId)
    requires x in events && Spares(changes, x)
    ensures x in StoreAll(events, changes) && StoreAll(events, changes)[x] == events[x]
    decreases |changes|
  {
    if changes != [] { UntouchedByStore(events[changes[0].event.eventId := changes[0]], changes[1..], x); }
  }

  /** No pinned event is closed by eviction: it leaves the queue only through its own resolution, or, for a
      progress report, through the next progress report of the same worker. */
  lemma PinnedOutlivesEviction(cfg: Config, s: System, a: Action, x: EventId)
    requires QueuesSound(cfg, s) && x in s.memory.events && IsPinned(s.memory.events[x])
    requires a.Invoke? && a.op.ResolveEvent? ==> a.op.eventId != x
    requires a.Invoke? && a.op.SubmitEvent? && a.op.event.kind.PROGRESS? ==>
      !s.memory.events[x].event.kind.PROGRESS? || s.memory.events[x].event.workerId != a.op.event.workerId
    ensures x in Step(cfg, s, a).memory.events && Step(cfg, s, a).memory.events[x] == s.memory.events[x]
  {
    hide PlanSubmit, PlanResolve, PlanRegister, PlanTake, PlanUse, PlanAdoptBatch, PlanHandoff, PlanObserve, PlanExpire,
      PlanCheckpoint, PlanAcknowledge, PlanReconcile, Execute, Recover, LogAgrees, EventsSound, SummariesExact, IsPinned;
    if a.Invoke? {
      var now := s.clock + a.elapsed;
      var plan := PlanAt(cfg, s, a.op, a.elapsed);
      OrdinalsRelax(cfg, s.memory.events, s.memory.nextOrdinal, s.memory.nextOrdinal, s.clock, now);
      if a.op.SubmitEvent? {
        SubmitSparesPinned(cfg, s.memory, a.op.id, a.op.controller, a.op.token, a.op.event, now, x);
      } else if a.op.ResolveEvent? {
        SoundIsKeyed(cfg, s.memory.events, s.memory.nextOrdinal, now);
        ResolveTouchesOne(cfg, s.memory, a.op.id, a.op.controller, a.op.token, a.op.eventId, a.op.resolution, now);
      } else {
        OtherCallsHaveNoEvents(cfg, s.memory, a.op, now, s.calls);
      }
      ExecuteLeavesEvent(s, plan, now, a.stored, x);
    } else {
      RestartKeepsDurable(cfg, s);
    }
  }

  lemma ExecuteLeavesEvent(s: System, plan: Plan, now: Time, stored: bool, x: EventId)
    requires x in s.memory.events
    requires plan.tx.Some? ==> Spares(plan.tx.value.events, x)
    ensures x in Execute(s, plan, now, stored).memory.events
    ensures Execute(s, plan, now, stored).memory.events[x] == s.memory.events[x]
  {
    hide StoreAll, IndexAll;
    if plan.tx.Some? { UntouchedByStore(s.memory.events, plan.tx.value.events, x); }
  }

  lemma ResolveTouchesOne(cfg: Config, m: Memory, id: MutationId, c: Controller, token: Token, e: EventId, r: Resolution,
                          now: Time)
    requires Keyed(m.events)
    ensures var plan := PlanResolve(cfg, m, id, c, token, e, r, now);
      plan.tx.Some? ==> forall i :: 0 <= i < |plan.tx.value.events| ==> plan.tx.value.events[i].event.eventId == e
  {
    hide AuthCodeOf, ExpiredCopy;
  }

  lemma OtherCallsHaveNoEvents(cfg: Config, m: Memory, op: Call, now: Time, call: nat)
    requires !op.SubmitEvent? && !op.ResolveEvent?
    ensures PlanOf(cfg, m, op, now, call).tx.Some? ==> PlanOf(cfg, m, op, now, call).tx.value.events == []
  {
    hide PlanSubmit, PlanResolve, ExpiredCopy, AuthCodeOf, TakeAll, UseAll, Selected, OrphanAll;
  }

  lemma {:induction false} OldestExists(events: Events, ids: set<EventId>)
    requires ids != {} && ids <= events.Keys
    ensures exists id :: IsOldest(events, ids, id)
  {
    var x :| x in ids;
    if ids == {x} {
      assert IsOldest(events, ids, x);
    } else {
      var rest := ids - {x};
      OldestExists(events, rest);
      var y :| IsOldest(events, rest, y);
      assert IsOldest(events, ids, if events[x].ordinal <= events[y].ordinal then x else y);
    }
  }

  /** The queue refuses an event only when pinned events alone fill it. */
  lemma RefusedOnlyByPinned(cfg: Config, events: Events, e: WorkerEvent)
    requires QueueingOf(cfg, events, e).over && QueueingOf(cfg, events, e).evicted.None?
    ensures forall id :: id in OpenOf(events, e.workerId) ==> IsPinned(events[id])
    ensures |OpenOf(events, e.workerId)| >= cfg.maxQueued
  {
    if EvictableOf(events, e.workerId) != {} { OldestExists(events, EvictableOf(events, e.workerId)); }
    forall id | id in OpenOf(events, e.workerId) ensures IsPinned(events[id]) {
      assert id !in EvictableOf(events, e.workerId);
    }
  }
}
