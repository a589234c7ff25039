/** The service object: maps updated in place, loops over batches and events, one append per mutation.
    Every method is proved against the decision functions that the run theorems are about. */
module CoordinationService {
  import opened Finite
  import opened CoordinationTypes
  import opened CoordinationState
  import opened LeasePlans
  import opened BatchPlans
  import opened EventPlans
  import opened BudgetPlans
  import opened CoordinationMachine
  import opened EventQueue
  import opened CoordinationLoops

  function WorkersOf(events: Events): set<SubjectId> { set id | id in events :: events[id].event.workerId }

  class WorkerCoordinationService {
    const cfg: Config
    var subjects: map<SubjectId, Subject>
    var events: map<EventId, StoredEvent>
    var summaries: map<SubjectId, Summary>
    var checkpoints: map<CheckpointKey, Checkpoint>
    var liveness: map<ControllerId, Liveness>
    var handoffs: map<HandoffId, Handoff>
    var receipts: map<MutationId, Receipt>
    var nextOrdinal: nat
    /** The durable store: the transactions appended so far. */
    var journal: seq<Transaction>
    /** The environment: how many calls were made, and the clock at the last one. */
    var calls: nat
    var clock: Time

    function Snapshot(): Memory
      reads this
    {
      Memory(subjects, events, summaries, checkpoints, liveness, handoffs, receipts, nextOrdinal)
    }

    function Sys(): System
      reads this
    {
      System(Snapshot(), journal, calls, clock)
    }

    constructor (cfg: Config)
      ensures this.cfg == cfg && Sys() == INITIAL
    {
      this.cfg := cfg;
      subjects, events, summaries, checkpoints := map[], map[], map[], map[];
      liveness, handoffs, receipts, nextOrdinal := map[], map[], map[], 1;
      journal, calls, clock := [], 0, 0;
    }

    // ---- events and their index --------------------------------------------------------------

    method RebuildEventSummary(w: SubjectId)
      modifies this`summaries
      ensures summaries == old(summaries)[w := Recount(events, w)]
    {
      hide MaxOrdinal, UnresolvedOf, EventsOf;
      var all := events;
      var unresolvedCount := 0;
      var lastOrdinal: nat := 0;
      var todo := all.Keys;
      assert EventsOf(all, w) <= all.Keys && UnresolvedOf(all, w) - todo == {} by { OwnEventsAreStored(all, w); }
      while todo != {}
        modifies {}
        invariant todo <= all.Keys
        invariant unresolvedCount == |UnresolvedOf(all, w) - todo|
        invariant forall id :: id in EventsOf(all, w) && id !in todo ==> id in all && all[id].ordinal <= lastOrdinal
        invariant lastOrdinal > 0 ==> exists id :: id in EventsOf(all, w) && id in all && all[id].ordinal == lastOrdinal
        decreases todo
      {
        var id :| id in todo;
        CountOne(all, w, todo, id);
        if all[id].event.workerId == w {
          if IsUnresolved(all[id]) { unresolvedCount := unresolvedCount + 1; }
          lastOrdinal := if lastOrdinal >= all[id].ordinal then lastOrdinal else all[id].ordinal;
        }
        todo := todo - {id};
      }
      assert UnresolvedOf(all, w) - todo == UnresolvedOf(all, w);
      var rebuilt := Summary(unresolvedCount, lastOrdinal);
      assert ExactFor(all, w, rebuilt);
      ExactIsRecount(all, w, rebuilt);
      summaries := summaries[w := rebuilt];
    }

    method RecordEvent(e: StoredEvent)
      modifies this`events, this`summaries
      ensures events == old(events)[e.event.eventId := e]
      ensures summaries == RecordSummaries(old(events), old(summaries), e)
    {
      var previous := Previous(events, e);
      events := events[e.event.eventId := e];
      if previous.Some? && previous.value.event.workerId != e.event.workerId {
        RebuildEventSummary(previous.value.event.workerId);
      }
      summaries := summaries[e.event.workerId := Indexed(SummaryOf(summaries, e.event.workerId), previous, e)];
    }

    method RecordEvents(changes: seq<StoredEvent>)
      modifies this`events, this`summaries
      ensures events == StoreAll(old(events), changes)
      ensures summaries == IndexAll(old(events), old(summaries), changes)
    {
      hide RecordSummaries, Recount;
      assert changes[0..] == changes;
      for i := 0 to |changes|
        invariant StoreAll(events, changes[i..]) == StoreAll(old(events), changes)
        invariant IndexAll(events, summaries, changes[i..]) == IndexAll(old(events), old(summaries), changes)
      {
        var rest := changes[i..];
        assert rest[0] == changes[i] && rest[1..] == changes[i + 1..];
        RecordEvent(changes[i]);
      }
      assert changes[|changes|..] == [];
    }

    /** Memory changes only here, and only after the append. */
    method Commit(tx: Transaction)
      modifies this`subjects, this`events, this`summaries, this`checkpoints, this`liveness, this`handoffs, this`receipts,
        this`journal
      ensures Snapshot() == Apply(old(Snapshot()), tx) && journal == old(journal) + [tx]
    {
      hide StoreAll, IndexAll;
      journal := journal + [tx];
      subjects := subjects + tx.subjects;
      RecordEvents(tx.events);
      checkpoints := checkpoints + tx.checkpoints;
      liveness := liveness + tx.liveness;
      handoffs := handoffs + tx.handoffs;
      receipts := receipts + tx.receipts;
    }

    /** The end of every exclusive section: draw the ordinals, append, and answer. */
    method Settle(plan: Plan, now: Time, stored: bool) returns (r: Response)
      modifies this
      ensures Sys() == Execute(old(Sys()), plan, now, stored) && r == AnswerTo(plan, stored)
      ensures r == if plan.tx != None && !stored then Thrown(AppendFailed) else plan.response
    {
      hide IndexAll, StoreAll;
      nextOrdinal := nextOrdinal + plan.ordinals;
      if plan.tx.Some? && stored { Commit(plan.tx.value); }
      calls, clock := calls + 1, now;
      r := AnswerTo(plan, stored);
    }

    /** Rebuild memory from the store after a restart. */
    method Initialize()
      modifies this
      ensures Sys() == old(Sys()).(memory := Recover(Replay(old(journal))))
    {
      hide Absorb, Replay, MaxOrdinal, Recount, Keyed, EventsOf, UnresolvedOf;
      var state := Load(journal);
      ReplayIsKeyed(journal);
      subjects, checkpoints, liveness := state.subjects, state.checkpoints, state.liveness;
      handoffs, receipts := state.handoffs, state.receipts;
      IndexRecovered(state.events);
    }

    /** The store's `load`. */
    method Load(log: seq<Transaction>) returns (state: Durable)
      ensures state == Replay(log)
    {
      hide Absorb;
      state := NOTHING_DURABLE;
      for i := 0 to |log|
        invariant state == Replay(log[..i])
      {
        assert log[..i + 1][..i] == log[..i];
        state := Absorb(state, log[i]);
      }
      assert log[..|log|] == log;
    }

    /** The event half of `initialize`: record every stored event and find the next ordinal. */
    method IndexRecovered(stored: Events)
      requires Keyed(stored)
      modifies this`events, this`summaries, this`nextOrdinal
      ensures events == stored && nextOrdinal == MaxOrdinal(stored, stored.Keys) + 1
      ensures summaries == map w | w in (set id | id in stored :: stored[id].event.workerId) :: Recount(stored, w)
    {
      hide MaxOrdinal, Recount, RecordSummaries, SummariesExact, WorkersOf;
      events, summaries, nextOrdinal := map[], map[], 1;
      var todo := stored.Keys;
      NothingRecovered(stored);
      while todo != {}
        invariant todo <= stored.Keys && events == Recovered(stored, todo)
        invariant SummariesExact(events, summaries) && summaries.Keys == WorkersOf(events)
        invariant IsNextOrdinal(events, nextOrdinal)
        decreases todo
      {
        var id :| id in todo;
        RecoverOne(stored, todo, id, summaries, nextOrdinal);
        RecordEvent(stored[id]);
        todo := todo - {id};
        nextOrdinal := if nextOrdinal >= stored[id].ordinal + 1 then nextOrdinal else stored[id].ordinal + 1;
      }
      AllRecovered(stored, summaries, nextOrdinal);
    }

    // ---- ownership ---------------------------------------------------------------------------

    method Register(id: MutationId, x: SubjectId, registration: Registration, c: Option<Controller>, budget: Option<nat>,
                    elapsed: nat, stored: bool) returns (r: Response)
      modifies this
      ensures var plan := PlanRegister(cfg, old(Snapshot()), id, x, registration, c, budget, old(clock) + elapsed, old(calls));
        Sys() == Execute(old(Sys()), plan, old(clock) + elapsed, stored) && r == AnswerTo(plan, stored)
    {
      hide ReplayKeyed, NewSubject, GrantOutcome, OutcomeOf, ConnectedObservation, PlanAgain, Execute;
      var m, now := Snapshot(), clock + elapsed;
      var plan;
      if budget.Some? && !registration.kind.Worker? { plan := Refuse(BudgetUnsupportedSubject); }
      else if id in receipts { plan := ReplayKeyed(m, id, OpRegister, RegisterKey(x, budget)); }
      else if x in subjects { plan := RegisterAgain(id, x, registration, c, budget, now); }
      else {
        var subject := NewSubject(cfg, registration, x, c, budget, now, calls);
        var outcome := if c.Some? then GrantOutcome(subject, ACQUIRED, x, calls) else OutcomeOf(subject, ORPHANED);
        var heard := if c.Some? then ConnectedObservation(m, c.value, now) else map[];
        plan := Receipted(id, OpRegister, RegisterKey(x, budget), Ownership(map[x := outcome]),
                          NO_CHANGES.(subjects := map[x := subject], liveness := heard), 0);
      }
      r := Settle(plan, now, stored);
    }

    method RegisterAgain(id: MutationId, x: SubjectId, registration: Registration, c: Option<Controller>,
                         budget: Option<nat>, now: Time)
      returns (plan: Plan)
      requires x in subjects
      ensures plan == PlanAgain(id, x, subjects[x], registration, c, budget, now)
    {
      hide OutcomeOf, Declared;
      var existing := subjects[x];
      if existing.origin != registration.origin { return Refuse(ImmutableOriginMismatch); }
      if budget.Some? && !existing.kind.Worker? { return Refuse(BudgetUnsupportedSubject); }
      if budget.Some? && existing.budget.Some? && existing.budget.value.declaration != budget.value { return Refuse(BudgetAlreadyDeclared); }
      var same := if existing.lease.controller.Some?
        then c.Some? && c.value.controllerId == existing.lease.controller.value.controllerId else c.None?;
      var changes := NO_CHANGES;
      if budget.Some? && existing.budget.None? {
        changes := changes.(subjects := map[x := existing.(budget := Declared(budget), updatedAt := now)]);
      }
      var outcome := OutcomeOf(existing, if same then ALREADY_CONTROLLED else NOT_ELIGIBLE);
      plan := Receipted(id, OpRegister, RegisterKey(x, budget), Ownership(map[x := outcome]), changes, 0);
    }

    /** `declareBudget`, `observeBudget`, `adjustBudget` and `advanceBudgetEnforcement`. */
    method MutateBudget(id: MutationId, x: SubjectId, request: BudgetRequest, verdict: BudgetVerdict, elapsed: nat,
                        stored: bool)
      returns (r: Response)
      modifies this
      ensures var plan := PlanBudget(old(Snapshot()), id, x, request, verdict, old(clock) + elapsed);
        Sys() == Execute(old(Sys()), plan, old(clock) + elapsed, stored) && r == AnswerTo(plan, stored)
    {
      hide ReplayKeyed, OperationOfBudget, NextBudget, ExpectedRevision, Execute;
      var m, now := Snapshot(), clock + elapsed;
      var operation, key := OperationOfBudget(request), BudgetKey(x, request);
      var plan;
      if id in receipts { plan := ReplayKeyed(m, id, operation, key); }
      else if x !in subjects { plan := Refuse(SubjectNotFound); }
      else if !subjects[x].kind.Worker? { plan := Refuse(BudgetUnsupportedSubject); }
      else if request.DeclareBudget? && subjects[x].budget.None? {
        var declared := Budget(request.declaration, 1, 0);
        plan := Receipted(id, operation, key, BudgetResult(x, declared, true),
                          NO_CHANGES.(subjects := map[x := subjects[x].(budget := Some(declared), updatedAt := now)]), 0);
      } else if request.DeclareBudget? {
        var current := subjects[x].budget.value;
        plan := if current.declaration != request.declaration then Refuse(BudgetAlreadyDeclared)
          else Receipted(id, operation, key, BudgetResult(x, current, false), NO_CHANGES, 0);
      } else if subjects[x].budget.None? { plan := Refuse(BudgetNotDeclared); }
      else {
        var current := subjects[x].budget.value;
        if ExpectedRevision(request).Some? && ExpectedRevision(request).value != current.revision { plan := Refuse(BudgetRevisionConflict); }
        else if verdict.Invalid? { plan := Refuse(BudgetRejected); }
        else if verdict.Unchanged? { plan := Receipted(id, operation, key, BudgetResult(x, current, false), NO_CHANGES, 0); }
        else {
          var next := NextBudget(request, current, verdict);
          plan := Receipted(id, operation, key, BudgetResult(x, next, true),
                            NO_CHANGES.(subjects := map[x := subjects[x].(budget := Some(next), updatedAt := now)]), 0);
        }
      }
      r := Settle(plan, now, stored);
    }

    /** `acquire` and `adopt`. */
    method Take(id: MutationId, taking: Taking, actor: Controller, sel: Selector, c: Controller, elapsed: nat, stored: bool)
      returns (r: Response)
      modifies this
      ensures var plan := PlanTake(cfg, old(Snapshot()), id, taking, actor, sel, c, old(clock) + elapsed, old(calls));
        Sys() == Execute(old(Sys()), plan, old(clock) + elapsed, stored) && r == AnswerTo(plan, stored)
    {
      hide TakeAll, Selects, PlanMutated, ReplayPlain, Granted, Execute;
      var m, now := Snapshot(), clock + elapsed;
      var plan;
      if id in receipts { plan := ReplayPlain(m, id, OperationOfTaking(taking)); }
      else if SelectorMissing(m, sel) { plan := Refuse(SubjectNotFound); }
      else {
        var mutated, granted := TakeSelected(cfg, m, taking, actor, c, Selected(cfg, m, sel, now), now, calls);
        plan := PlanMutated(m, id, OperationOfTaking(taking), mutated, granted, c, now);
      }
      r := Settle(plan, now, stored);
    }

    /** `renew`, `release`, `transfer` and `updateLifecycle`. */
    method Use(id: MutationId, using: Using, sel: Selector, cr: Credential, elapsed: nat, stored: bool) returns (r: Response)
      modifies this
      ensures var plan := PlanUse(cfg, old(Snapshot()), id, using, sel, cr, old(clock) + elapsed, old(calls));
        Sys() == Execute(old(Sys()), plan, old(clock) + elapsed, stored) && r == AnswerTo(plan, stored)
    {
      hide UseAll, Selects, PlanMutated, ReplayPlain, SomeAuthenticated, Execute;
      var m, now := Snapshot(), clock + elapsed;
      var plan;
      if id in receipts { plan := ReplayPlain(m, id, OperationOfUsing(using)); }
      else if SelectorMissing(m, sel) { plan := Refuse(SubjectNotFound); }
      else {
        var mutated, heard := UseSelected(cfg, m, using, cr, Selected(cfg, m, sel, now), now, calls);
        plan := PlanMutated(m, id, OperationOfUsing(using), mutated, heard, cr.controller, now);
      }
      r := Settle(plan, now, stored);
    }

    method AdoptBatch(id: MutationId, c: Controller, members: seq<AdoptMember>, elapsed: nat, stored: bool)
      returns (r: Response)
      modifies this
      ensures var plan := PlanAdoptBatch(cfg, old(Snapshot()), id, c, members, old(clock) + elapsed, old(calls));
        Sys() == Execute(old(Sys()), plan, old(clock) + elapsed, stored) && r == AnswerTo(plan, stored)
    {
      hide ReplayAdoptBatch, AdoptFault, AdoptGranted, AdoptAborted, Execute;
      var m, now := Snapshot(), clock + elapsed;
      var plan;
      if id in receipts { plan := ReplayAdoptBatch(m, id); }
      else { plan := AdoptMembers(cfg, m, id, c, members, now, calls); }
      r := Settle(plan, now, stored);
    }

    method HandoffBatch(id: MutationId, request: HandoffRequest, elapsed: nat, stored: bool) returns (r: Response)
      modifies this
      ensures var plan := PlanHandoff(cfg, old(Snapshot()), id, request, old(clock) + elapsed, old(calls));
        Sys() == Execute(old(Sys()), plan, old(clock) + elapsed, stored) && r == AnswerTo(plan, stored)
    {
      hide ReplayKeyed, KeyOf, HandoffFault, HandoffGranted, HandoffAborted, HandoffOf, Execute;
      var m, now := Snapshot(), clock + elapsed;
      var plan;
      if id in receipts { plan := ReplayKeyed(m, id, OpHandoff, KeyOf(request)); }
      else { plan := HandoffMembers(cfg, m, id, request, now, calls); }
      r := Settle(plan, now, stored);
    }

    method ObserveControllerLiveness(id: MutationId, c: Controller, state: Connection, session: Option<Session>, elapsed: nat,
                                     stored: bool) returns (r: Response)
      modifies this
      ensures var plan := PlanObserve(cfg, old(Snapshot()), id, c, state, session, old(clock) + elapsed);
        Sys() == Execute(old(Sys()), plan, old(clock) + elapsed, stored) && r == AnswerTo(plan, stored)
    {
      hide ReplayPlain, Judged, ObserveOutcomes, OrphanedAmong, Execute;
      var m, now := Snapshot(), clock + elapsed;
      var plan;
      if id in receipts { plan := ReplayPlain(m, id, OpLiveness); }
      else {
        var entry := Liveness(c, state, now, session);
        var outcomes, orphaned := ObserveHeld(cfg, m, c, entry, session, now);
        plan := Receipted(id, OpLiveness, Unkeyed, Ownership(outcomes),
                          NO_CHANGES.(subjects := orphaned, liveness := map[c.controllerId := entry]), 0);
      }
      r := Settle(plan, now, stored);
    }

    method AcknowledgeHandoffs(c: ControllerId, ids: set<HandoffId>, elapsed: nat, stored: bool) returns (r: Response)
      modifies this
      ensures var plan := PlanAcknowledge(old(Snapshot()), c, ids, old(clock) + elapsed);
        Sys() == Execute(old(Sys()), plan, old(clock) + elapsed, stored) && r == AnswerTo(plan, stored)
    {
      hide PlanAcknowledge, Execute;
      var now := clock + elapsed;
      var plan := AcknowledgeNamed(Snapshot(), c, ids, now);
      r := Settle(plan, now, stored);
    }

    method ReconcileLifecycle(x: SubjectId, l: Lifecycle, elapsed: nat, stored: bool) returns (r: Response)
      modifies this
      ensures var plan := PlanReconcile(cfg, old(Snapshot()), x, l, old(clock) + elapsed);
        Sys() == Execute(old(Sys()), plan, old(clock) + elapsed, stored) && r == AnswerTo(plan, stored)
    {
      hide ExpiredCopy, Execute;
      var m, now := Snapshot(), clock + elapsed;
      var plan;
      if x !in subjects { plan := Refuse(SubjectNotFound); }
      else if subjects[x].lifecycle == l { plan := Plan(None, 0, Projected(ExpiredCopy(cfg, m, subjects[x], now))); }
      else {
        var updated := subjects[x].(lifecycle := l, updatedAt := now);
        plan := Plan(Some(NO_CHANGES.(subjects := map[x := updated])), 0, Projected(ExpiredCopy(cfg, m, updated, now)));
      }
      r := Settle(plan, now, stored);
    }

    method ExpireLeases(id: MutationId, elapsed: nat, stored: bool) returns (r: Response)
      modifies this
      ensures var plan := PlanExpire(cfg, old(Snapshot()), id, old(clock) + elapsed);
        Sys() == Execute(old(Sys()), plan, old(clock) + elapsed, stored) && r == AnswerTo(plan, stored)
    {
      hide ReplayPlain, OrphanAll, Execute;
      var m, now := Snapshot(), clock + elapsed;
      var plan;
      if id in receipts { plan := ReplayPlain(m, id, OpExpire); }
      else {
        var orphaned := ExpireAll(cfg, m, now);
        plan := Receipted(id, OpExpire, Unkeyed, Ownership(OutcomesOf(orphaned)),
                          NO_CHANGES.(subjects := SubjectsOf(orphaned)), 0);
      }
      r := Settle(plan, now, stored);
    }

    // ---- events ------------------------------------------------------------------------------

    method SubmitEvent(id: MutationId, c: Controller, token: Token, e: WorkerEvent, elapsed: nat, stored: bool)
      returns (r: Response)
      requires EventsSound(cfg, events, nextOrdinal, clock)
      modifies this
      ensures var plan := PlanSubmit(cfg, old(Snapshot()), id, c, token, e, old(clock) + elapsed);
        Sys() == Execute(old(Sys()), plan, old(clock) + elapsed, stored) && r == AnswerTo(plan, stored)
    {
      hide Execute, EventsSound, ReplayPlain, AuthCodeOf, ExpiredCopy, PlanAccept, LastSequence, ReceivedAfter, ProjectionTx;
      var m, now := Snapshot(), clock + elapsed;
      var plan;
      if id in receipts { plan := ReplayPlain(m, id, OpSubmit); }
      else if e.eventId in events {
        var ack := if events[e.eventId].submission == e then Duplicate(e.eventId, e.sequence)
          else Rejected(e.eventId, EventIdCollision);
        plan := Receipted(id, OpSubmit, Unkeyed, EventResult(ack), NO_CHANGES, 0);
      } else if e.workerId !in subjects { plan := Reject(id, OpSubmit, e.eventId, SubjectUnknown, NO_CHANGES, 0); }
      else if e.taskId != subjects[e.workerId].origin.taskId || e.waveId != subjects[e.workerId].origin.waveId {
        plan := Reject(id, OpSubmit, e.eventId, TaskIdentityMismatch, NO_CHANGES, 0);
      } else {
        var auth := AuthCodeOf(cfg, m, ExpiredCopy(cfg, m, subjects[e.workerId], now), c, token, Some(e.leaseVersion), now);
        var last := HighestSequence(events, e.workerId);
        if auth.Some? {
          plan := Reject(id, OpSubmit, e.eventId, NotAuthorized(auth.value), ProjectionTx(cfg, m, e.workerId, now), 0);
        } else if |ReceivedAfter(events, e.workerId, now - cfg.rateWindow)| >= cfg.rateLimit {
          plan := Reject(id, OpSubmit, e.eventId, RateLimited, NO_CHANGES, 0);
        } else if e.sequence < last + 1 {
          plan := if e.kind.PROGRESS?
            then Receipted(id, OpSubmit, Unkeyed, EventResult(Stale(e.eventId, e.sequence, last + 1)), NO_CHANGES, 0)
            else Reject(id, OpSubmit, e.eventId, SequenceOutOfOrder, NO_CHANGES, 0);
        } else {
          plan := AcceptEvent(cfg, m, id, c, e, last + 1, now, clock);
        }
      }
      r := Settle(plan, now, stored);
    }

    method ResolveEvent(id: MutationId, c: Controller, token: Token, eventId: EventId, resolution: Resolution, elapsed: nat,
                        stored: bool) returns (r: Response)
      modifies this
      ensures var plan := PlanResolve(cfg, old(Snapshot()), id, c, token, eventId, resolution, old(clock) + elapsed);
        Sys() == Execute(old(Sys()), plan, old(clock) + elapsed, stored) && r == AnswerTo(plan, stored)
    {
      hide ReplayPlain, AuthCodeOf, ExpiredCopy, Renewed, ProjectionTx, ConnectedObservation, Execute;
      var m, now := Snapshot(), clock + elapsed;
      var plan;
      if id in receipts { plan := ReplayPlain(m, id, OpResolve); }
      else if eventId !in events { plan := Refuse(EventNotFound); }
      else {
        var e := events[eventId];
        var w := e.event.workerId;
        if w !in subjects { plan := Refuse(SubjectNotFound); }
        else {
          var s := ExpiredCopy(cfg, m, subjects[w], now);
          var auth := AuthCodeOf(cfg, m, s, c, token, Some(s.lease.version), now);
          if auth.Some? {
            plan := Reject(id, OpResolve, eventId, NotAuthorized(auth.value), ProjectionTx(cfg, m, w, now), 0);
          } else {
            var resolved := e.(ordinal := nextOrdinal, state := StateAfter(resolution), resolvedAt := Some(now), resolvedBy := Some(c));
            plan := Receipted(id, OpResolve, Unkeyed, EventResult(Accepted(eventId, e.event.sequence, None, None)),
              NO_CHANGES.(subjects := map[w := Renewed(cfg, s, now)], events := [resolved],
                          liveness := ConnectedObservation(m, c, now)), 1);
          }
        }
      }
      r := Settle(plan, now, stored);
    }

    method RequestCheckpoint(id: MutationId, c: Controller, token: Token, request: CheckpointRequest, elapsed: nat,
                             stored: bool)
      returns (r: Response)
      modifies this
      ensures var plan := PlanCheckpoint(cfg, old(Snapshot()), id, c, token, request, old(clock) + elapsed);
        Sys() == Execute(old(Sys()), plan, old(clock) + elapsed, stored) && r == AnswerTo(plan, stored)
    {
      hide AuthCodeOf, ExpiredCopy, Renewed, ProjectionTx, ConnectedObservation, SameRequest, Execute;
      var m, now := Snapshot(), clock + elapsed;
      var w := request.key.workerId;
      var plan;
      if id in receipts {
        var receipt := receipts[id];
        plan := if receipt.operation != OpCheckpoint || !receipt.result.CheckpointResult? then Refuse(MutationIdCollision)
          else if !SameRequest(receipt.result.checkpoint, c, request) then Refuse(CheckpointIdentityCollision)
          else Plan(None, 0, Returned(receipt.result, true));
      } else if w !in subjects { plan := Refuse(SubjectNotFound); }
      else {
        var s := ExpiredCopy(cfg, m, subjects[w], now);
        var auth := AuthCodeOf(cfg, m, s, c, token, Some(s.lease.version), now);
        if auth.Some? {
          var tx := ProjectionTx(cfg, m, w, now);
          plan := Plan(if tx == NO_CHANGES then None else Some(tx), 0, Thrown(AuthenticationFailed(auth.value)));
        } else {
          plan := OpenRequest(m, id, c, request, w, Renewed(cfg, s, now), now);
        }
      }
      r := Settle(plan, now, stored);
    }
  }

  /** The end of `requestCheckpoint`, once the caller authenticated: the request as it stands, or a new one. */
  function OpenRequest(m: Memory, id: MutationId, c: Controller, r: CheckpointRequest, w: SubjectId, renewed: Subject, now: Time): Plan
    requires w in m.subjects
  {
    if r.key in m.checkpoints && !SameRequest(m.checkpoints[r.key], c, r) then Refuse(CheckpointIdentityCollision)
    else if r.key in m.checkpoints then
      Receipted(id, OpCheckpoint, Unkeyed, CheckpointResult(m.checkpoints[r.key]),
        NO_CHANGES.(subjects := map[w := renewed], liveness := ConnectedObservation(m, c, now)), 0)
    else
      var checkpoint := Checkpoint(r.key, m.subjects[w].lease.version, c, r.content, r.mode, Pending, now);
      var paused := if r.mode.BlockingGate? then renewed.(gate := Gated(r.key.correlationId, now)) else renewed;
      Receipted(id, OpCheckpoint, Unkeyed, CheckpointResult(checkpoint),
        NO_CHANGES.(subjects := map[w := paused], checkpoints := map[r.key := checkpoint],
                    liveness := ConnectedObservation(m, c, now)), 0)
  }

  // ---- facts the loops above rest on ---------------------------------------------------------

  lemma OwnEventsAreStored(events: Events, w: SubjectId)
    ensures EventsOf(events, w) <= events.Keys && UnresolvedOf(events, w) <= events.Keys
  {}

  lemma CountOne(events: Events, w: SubjectId, todo: set<EventId>, id: EventId)
    requires id in todo && todo <= events.Keys
    ensures id in EventsOf(events, w) <==> events[id].event.workerId == w
    ensures |UnresolvedOf(events, w) - (todo - {id})| == |UnresolvedOf(events, w) - todo|
      + (if events[id].event.workerId == w && IsUnresolved(events[id]) then 1 else 0)
  {
    var before := UnresolvedOf(events, w) - todo;
    assert UnresolvedOf(events, w) - (todo - {id}) == if id in UnresolvedOf(events, w) then before + {id} else before;
  }

  lemma {:induction false} StoreKeepsKeys(events: Events, changes: seq<StoredEvent>)
    requires Keyed(events)
    ensures Keyed(StoreAll(events, changes))
    decreases |changes|
  {
    if changes != [] { StoreKeepsKeys(events[changes[0].event.eventId := changes[0]], changes[1..]); }
  }

  lemma {:induction false} ReplayIsKeyed(log: seq<Transaction>)
    ensures Keyed(Replay(log).events)
  {
    if log != [] {
      ReplayIsKeyed(log[..|log| - 1]);
      StoreKeepsKeys(Replay(log[..|log| - 1]).events, log[|log| - 1].events);
    }
  }

  /** The events recorded so far, while `todo` is still to come. */
  function Recovered(stored: Events, todo: set<EventId>): Events { map id | id in stored && id !in todo :: stored[id] }

  ghost predicate IsNextOrdinal(events: Events, next: nat) {
    && next >= 1 && (forall id :: id in events ==> events[id].ordinal < next)
    && (next > 1 ==> exists id :: id in events && events[id].ordinal + 1 == next)
  }

  lemma NothingRecovered(stored: Events)
    ensures Recovered(stored, stored.Keys) == map[] && WorkersOf(map[]) == {}
    ensures SummariesExact(map[], map[]) && IsNextOrdinal(map[], 1)
  {
    var none: Events := map[];
    forall w ensures SummaryOf(map[], w) == Recount(none, w) {
      assert EventsOf(none, w) == {} && UnresolvedOf(none, w) == {};
    }
  }

  lemma RecoverOne(stored: Events, todo: set<EventId>, id: EventId, summaries: map<SubjectId, Summary>, next: nat)
    requires Keyed(stored) && id in todo && todo <= stored.Keys
    requires SummariesExact(Recovered(stored, todo), summaries) && summaries.Keys == WorkersOf(Recovered(stored, todo))
    requires IsNextOrdinal(Recovered(stored, todo), next)
    ensures var before, after, e := Recovered(stored, todo), Recovered(stored, todo - {id}), stored[id];
      && after == before[id := e] && e.event.eventId == id
      && SummariesExact(after, RecordSummaries(before, summaries, e))
      && RecordSummaries(before, summaries, e).Keys == WorkersOf(after)
      && IsNextOrdinal(after, if next >= e.ordinal + 1 then next else e.ordinal + 1)
  {
    hide SummariesExact, Recount, MaxOrdinal, Indexed;
    var before, e := Recovered(stored, todo), stored[id];
    var after := Recovered(stored, todo - {id});
    assert after == before[id := e];
    RecordKeepsIndex(before, summaries, e);
    assert WorkersOf(after) == WorkersOf(before) + {e.event.workerId} by {
      assert forall j :: j in before ==> j in after && after[j] == before[j];
      assert id in after && after[id] == e;
      assert forall j :: j in after ==> j == id || j in before;
    }
    assert Previous(before, e) == None;
    var next' := if next >= e.ordinal + 1 then next else e.ordinal + 1;
    if next >= e.ordinal + 1 && next > 1 {
      var j :| j in before && before[j].ordinal + 1 == next;
      assert after[j].ordinal + 1 == next';
    } else {
      assert after[id].ordinal + 1 == next' || next' == 1;
    }
  }

  lemma AllRecovered(stored: Events, summaries: map<SubjectId, Summary>, next: nat)
    requires SummariesExact(Recovered(stored, {}), summaries) && summaries.Keys == WorkersOf(Recovered(stored, {}))
    requires IsNextOrdinal(Recovered(stored, {}), next)
    ensures Recovered(stored, {}) == stored && next == MaxOrdinal(stored, stored.Keys) + 1
    ensures summaries == map w | w in (set id | id in stored :: stored[id].event.workerId) :: Recount(stored, w)
  {
    hide Recount, MaxOrdinal, IsNextOrdinal, SummariesExact, WorkersOf;
    assert Recovered(stored, {}) == stored;
    NextIsMax(stored, next);
    IndexIsRecount(stored, summaries);
  }

  lemma NextIsMax(stored: Events, next: nat)
    requires IsNextOrdinal(stored, next)
    ensures next == MaxOrdinal(stored, stored.Keys) + 1
  {
    hide MaxOrdinal;
    var top := MaxOrdinal(stored, stored.Keys);
    if next > 1 {
      var j :| j in stored && stored[j].ordinal + 1 == next;
      assert j in stored.Keys;
    }
  }

  lemma IndexIsRecount(stored: Events, summaries: map<SubjectId, Summary>)
    requires SummariesExact(stored, summaries) && summaries.Keys == WorkersOf(stored)
    ensures summaries == map w | w in (set id | id in stored :: stored[id].event.workerId) :: Recount(stored, w)
  {
    hide Recount;
    assert forall w :: w in summaries ==> SummaryOf(summaries, w) == Recount(stored, w);
  }
}
