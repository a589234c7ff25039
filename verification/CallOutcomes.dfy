/** What a call achieves, stated on the states before and after it, and the calls that concern neither a lease nor an event:
    registration, budgets, repairs, acknowledgements. The service object's methods end in these states. */
module CallOutcomes {
  import opened Finite
  import opened CoordinationTypes
  import opened LeaseRules
  import opened CoordinationState
  import opened LeasePlans
  import opened BatchPlans
  import opened EventPlans
  import opened BudgetPlans
  import opened CoordinationMachine
  import opened BatchAtomicity

  /** Memory after a plan was executed and its append, if any, was stored. */
  ghost function After(s: System, plan: Plan, now: Time): Memory { Execute(s, plan, now, true).memory }

  lemma AfterIs(s: System, plan: Plan, now: Time)
    ensures var m' := After(s, plan, now);
      if plan.tx.Some?
      then
        && m'.subjects == s.memory.subjects + plan.tx.value.subjects
        && m'.liveness == s.memory.liveness + plan.tx.value.liveness
        && m'.checkpoints == s.memory.checkpoints + plan.tx.value.checkpoints
        && m'.handoffs == s.memory.handoffs + plan.tx.value.handoffs
        && m'.events == StoreAll(s.memory.events, plan.tx.value.events)
      else
        && m'.subjects == s.memory.subjects && m'.liveness == s.memory.liveness
        && m'.checkpoints == s.memory.checkpoints && m'.events == s.memory.events && m'.handoffs == s.memory.handoffs
    ensures After(s, plan, now).nextOrdinal == s.memory.nextOrdinal + plan.ordinals
    ensures plan.tx.Some? && plan.tx.value.events == [] ==> After(s, plan, now).events == s.memory.events
  {
    hide StoreAll, IndexAll;
    StoreNothing(s.memory.events);
  }

  lemma StoreNothing(events: map<EventId, StoredEvent>)
    ensures StoreAll(events, []) == events
  {}

  /** Nothing but subjects and signs of life changed. */
  ghost predicate OnlyLeases(m: Memory, m': Memory) {
    m'.events == m.events && m'.checkpoints == m.checkpoints && m'.handoffs == m.handoffs && m'.nextOrdinal == m.nextOrdinal
  }

  /** A receipt that comes with leases and signs of life only. */
  lemma AfterLeases(s: System, id: MutationId, operation: Operation, result: Result, subjects: map<SubjectId, Subject>,
                    liveness: map<ControllerId, Liveness>, now: Time)
    ensures var plan := Receipted(id, operation, Unkeyed, result, NO_CHANGES.(subjects := subjects, liveness := liveness), 0);
      var m, m' := s.memory, After(s, plan, now);
      && plan.tx.Some? && plan.response == Returned(result, false)
      && OnlyLeases(m, m') && m'.subjects == m.subjects + subjects && m'.liveness == m.liveness + liveness
  {
    hide After, StoreAll;
    AfterIs(s, Receipted(id, operation, Unkeyed, result, NO_CHANGES.(subjects := subjects, liveness := liveness), 0), now);
  }

  // ---- registering ---------------------------------------------------------------------------

  /** The subject a first registration describes. */
  ghost predicate IsRegistered(cfg: Config, m': Memory, x: SubjectId, r: Registration, c: Option<Controller>, budget: Option<nat>,
                               now: Time, call: nat)
  {
    && x in m'.subjects && m'.subjects[x].origin == r.origin && m'.subjects[x].kind == r.kind
    && m'.subjects[x].lifecycle == r.lifecycle && m'.subjects[x].resources == r.resources
    && m'.subjects[x].gate == NoGate && m'.subjects[x].updatedAt == now
    && m'.subjects[x].budget == (if budget == None then None else Some(Budget(budget.value, 1, 0)))
    && m'.subjects[x].lease ==
         (if c == None then Lease(1, Orphaned, None, None, now, now, now, Some(now), None, None)
          else Lease(1, Active, c, Some(Sha256(Issued(call, x))), now, now, now + cfg.leaseDuration, None, None, None))
  }

  /** A budget is attached to a subject that exists exactly when it is a worker of the same origin without one. */
  ghost predicate Attaches(s: Subject, r: Registration, budget: Option<nat>) {
    budget.Some? && s.origin == r.origin && s.kind.Worker? && s.budget.None?
  }

  lemma RegisterPlan(cfg: Config, m: Memory, id: MutationId, x: SubjectId, r: Registration, c: Option<Controller>,
                     budget: Option<nat>, now: Time, call: nat)
    requires id !in m.receipts && (budget.Some? ==> r.kind.Worker?)
    ensures var plan := PlanRegister(cfg, m, id, x, r, c, budget, now, call);
      if x !in m.subjects then plan.tx.Some? && plan.tx.value.subjects == map[x := NewSubject(cfg, r, x, c, budget, now, call)]
      else if Attaches(m.subjects[x], r, budget) then
        plan.tx.Some? && plan.tx.value.subjects == map[x := m.subjects[x].(budget := Declared(budget), updatedAt := now)]
      else plan.tx.Some? ==> plan.tx.value.subjects == map[]
  {}

  /** A first registration creates exactly the described subject, held by the given controller or by nobody; a later one
      changes at most the budget, by attaching one to a worker that has none. */
  lemma RegisterCreatesOnce(cfg: Config, s: System, id: MutationId, x: SubjectId, r: Registration, c: Option<Controller>,
                            budget: Option<nat>, now: Time)
    requires id !in s.memory.receipts && (budget.Some? ==> r.kind.Worker?)
    ensures var m, m' := s.memory, After(s, PlanRegister(cfg, s.memory, id, x, r, c, budget, now, s.calls), now);
      && OnlyChanges(m, m', {x})
      && (x !in m.subjects ==> IsRegistered(cfg, m', x, r, c, budget, now, s.calls))
      && (x in m.subjects ==>
            && x in m'.subjects
            && m'.subjects[x] == (if Attaches(m.subjects[x], r, budget)
                                  then m.subjects[x].(budget := Declared(budget), updatedAt := now) else m.subjects[x]))
  {
    hide After, PlanRegister, Attaches, IsRegistered, NewSubject, Declared;
    RegisterPlan(cfg, s.memory, id, x, r, c, budget, now, s.calls);
    SubjectsAfter(s, PlanRegister(cfg, s.memory, id, x, r, c, budget, now, s.calls), now);
    var m' := After(s, PlanRegister(cfg, s.memory, id, x, r, c, budget, now, s.calls), now);
    if x !in s.memory.subjects { NewIsRegistered(cfg, s.memory, m', x, r, c, budget, now, s.calls); }
  }

  lemma NewIsRegistered(cfg: Config, m: Memory, m': Memory, x: SubjectId, r: Registration, c: Option<Controller>,
                        budget: Option<nat>,
                        now: Time, call: nat)
    requires x !in m.subjects && x in m'.subjects && m'.subjects[x] == NewSubject(cfg, r, x, c, budget, now, call)
    ensures IsRegistered(cfg, m', x, r, c, budget, now, call)
  {}

  /** Why registering again is refused: another origin, or a budget the subject cannot have. */
  ghost function RegisterRefusal(s: Subject, r: Registration, budget: Option<nat>): Option<Fault> {
    if s.origin != r.origin then Some(ImmutableOriginMismatch)
    else if budget == None then None
    else if s.kind != Worker then Some(BudgetUnsupportedSubject)
    else if s.budget != None && s.budget.value.declaration != budget.value then Some(BudgetAlreadyDeclared)
    else None
  }

  /** What a registration is answered: a new subject is its controller's or an orphan; for a known one the answer says whether
      the caller named the recorded controller, or its absence. Only a first registration is a sign of life. */
  lemma RegisterAnswers(cfg: Config, s: System, id: MutationId, x: SubjectId, r: Registration, c: Option<Controller>,
                        budget: Option<nat>, now: Time)
    requires id !in s.memory.receipts && (budget.Some? ==> r.kind.Worker?)
    ensures var plan := PlanRegister(cfg, s.memory, id, x, r, c, budget, now, s.calls);
      var m, m' := s.memory, After(s, plan, now);
      && OnlyLeases(m, m')
      && (if x !in m.subjects then IsWelcomed(m, m', x, c, plan.response, now, s.calls)
          else m'.liveness == m.liveness && IsRecognised(m.subjects[x], x, r, c, budget, plan))
  {
    hide After, StoreAll, IsRecognised, IsWelcomed;
    if x !in s.memory.subjects {
      WelcomedOnce(cfg, s, id, x, r, c, budget, now);
    } else {
      var plan := PlanRegister(cfg, s.memory, id, x, r, c, budget, now, s.calls);
      AfterIs(s, plan, now);
      RecognisedLater(cfg, s.memory, id, x, r, c, budget, now, s.calls);
    }
  }

  /** The answer of a first registration. */
  ghost predicate IsWelcomed(m: Memory, m': Memory, x: SubjectId, c: Option<Controller>, answer: Response, now: Time, call: nat) {
    && answer.Returned? && !answer.replay && answer.result.Ownership? && answer.result.outcomes.Keys == {x} && x in m'.subjects
    && Tells(answer.result.outcomes[x], if c == None then ORPHANED else ACQUIRED, m'.subjects[x],
             if c == None then None else Some(Issued(call, x)))
    && (if c == None then m'.liveness == m.liveness else IsHeard(m, m', c.value, now))
  }

  /** The answer of a later one. */
  ghost predicate IsRecognised(s: Subject, x: SubjectId, r: Registration, c: Option<Controller>, budget: Option<nat>, plan: Plan) {
    match RegisterRefusal(s, r, budget)
    case Some(fault) => plan == Plan(None, 0, Thrown(fault))
    case None =>
      && plan.response.Returned? && !plan.response.replay && plan.response.result.Ownership?
      && plan.response.result.outcomes.Keys == {x}
      && Tells(plan.response.result.outcomes[x],
               if SameController(s.lease.controller, c) then ALREADY_CONTROLLED else NOT_ELIGIBLE, s, None)
  }

  lemma WelcomedOnce(cfg: Config, s: System, id: MutationId, x: SubjectId, r: Registration, c: Option<Controller>,
                     budget: Option<nat>, now: Time)
    requires id !in s.memory.receipts && (budget.Some? ==> r.kind.Worker?) && x !in s.memory.subjects
    ensures var plan := PlanRegister(cfg, s.memory, id, x, r, c, budget, now, s.calls);
      var m, m' := s.memory, After(s, plan, now);
      OnlyLeases(m, m') && IsWelcomed(m, m', x, c, plan.response, now, s.calls)
  {
    hide After, StoreAll, ConnectedObservation, IsHeard;
    var plan := PlanRegister(cfg, s.memory, id, x, r, c, budget, now, s.calls);
    AfterIs(s, plan, now);
    if c.Some? { HeartbeatIsHeard(s.memory, After(s, plan, now), c.value, now); }
  }

  lemma RecognisedLater(cfg: Config, m: Memory, id: MutationId, x: SubjectId, r: Registration, c: Option<Controller>,
                        budget: Option<nat>, now: Time, call: nat)
    requires id !in m.receipts && (budget.Some? ==> r.kind.Worker?) && x in m.subjects
    ensures IsRecognised(m.subjects[x], x, r, c, budget, PlanRegister(cfg, m, id, x, r, c, budget, now, call))
  {}

  /** Both name the same controller id, or none. */
  ghost predicate SameController(a: Option<Controller>, b: Option<Controller>) {
    || (a == None && b == None)
    || (a != None && b != None && a.value.controllerId == b.value.controllerId)
  }

  lemma SubjectsAfter(s: System, plan: Plan, now: Time)
    ensures After(s, plan, now).subjects == if plan.tx.Some? then s.memory.subjects + plan.tx.value.subjects else s.memory.subjects
  {
    hide After, StoreAll;
    AfterIs(s, plan, now);
  }

  /** A registration that declares a budget for anything but a worker is refused and changes nothing. */
  lemma NoBudgetForOthers(cfg: Config, s: System, id: MutationId, x: SubjectId, r: Registration, c: Option<Controller>,
                          budget: Option<nat>, now: Time)
    requires budget.Some? && !r.kind.Worker?
    ensures var plan := PlanRegister(cfg, s.memory, id, x, r, c, budget, now, s.calls);
      plan.tx.None? && plan.response == Thrown(BudgetUnsupportedSubject)
  {}

  /** When a budget mutation writes: a first declaration, or an accepted change of a declared budget under the revision the
      request insists on. */
  ghost predicate BudgetWrites(s: Subject, request: BudgetRequest, verdict: BudgetVerdict) {
    BudgetRefusal(s, request, verdict) == None && if request.DeclareBudget? then s.budget == None else verdict.Changes?
  }

  /** Why a budget mutation is refused: it is for workers, a declaration is final, anything else needs one, and an adjustment or
      enforcement insists on the revision it was made against. */
  ghost function BudgetRefusal(s: Subject, request: BudgetRequest, verdict: BudgetVerdict): Option<Fault> {
    if s.kind != Worker then Some(BudgetUnsupportedSubject)
    else match request
      case DeclareBudget(d, _) => if s.budget != None && s.budget.value.declaration != d then Some(BudgetAlreadyDeclared) else None
      case ObserveUsage(_) => if s.budget == None then Some(BudgetNotDeclared) else if verdict == Invalid then Some(BudgetRejected) else None
      case AdjustBudget(revision, _) => RevisionRefusal(s, revision, verdict)
      case EnforceBudget(revision, _) => RevisionRefusal(s, revision, verdict)
  }

  ghost function RevisionRefusal(s: Subject, revision: nat, verdict: BudgetVerdict): Option<Fault> {
    if s.budget == None then Some(BudgetNotDeclared)
    else if s.budget.value.revision != revision then Some(BudgetRevisionConflict)
    else if verdict == Invalid then Some(BudgetRejected)
    else None
  }

  /** The budget a mutation leaves: as first declared; adjusted, which starts the next revision; or with new content only. */
  ghost predicate IsNextBudget(was: Option<Budget>, request: BudgetRequest, verdict: BudgetVerdict, b: Budget) {
    if request.DeclareBudget? then b == Budget(request.declaration, 1, 0)
    else
      && was != None && verdict.Changes? && b.content == verdict.content
      && b.revision == was.value.revision + (if request.AdjustBudget? then 1 else 0)
      && b.declaration == if request.AdjustBudget? then verdict.declaration else was.value.declaration
  }

  /** A budget mutation writes nothing but the budget of its subject, exactly when it may, and the revision moves by one
      with an adjustment and with nothing else: of two adjustments made against one revision the second is refused. The answer
      is the budget as it then stands and whether this call changed it, or the reason of the refusal. */
  lemma BudgetWritesIff(s: System, id: MutationId, x: SubjectId, request: BudgetRequest, verdict: BudgetVerdict, now: Time)
    requires id !in s.memory.receipts && x in s.memory.subjects
    ensures var plan := PlanBudget(s.memory, id, x, request, verdict, now);
      var m, m' := s.memory, After(s, plan, now);
      && OnlyChanges(m, m', {x}) && OnlyLeases(m, m') && m'.liveness == m.liveness
      && (if BudgetWrites(m.subjects[x], request, verdict) then
            && m'.subjects[x] == m.subjects[x].(budget := m'.subjects[x].budget, updatedAt := now) && m'.subjects[x].budget.Some?
            && IsNextBudget(m.subjects[x].budget, request, verdict, m'.subjects[x].budget.value)
          else m'.subjects == m.subjects)
      && match BudgetRefusal(m.subjects[x], request, verdict)
         case Some(fault) => plan == Plan(None, 0, Thrown(fault))
         case None =>
           && m'.subjects[x].budget.Some?
           && plan.response == Returned(BudgetResult(x, m'.subjects[x].budget.value, BudgetWrites(m.subjects[x], request, verdict)), false)
  {
    hide After, StoreAll, PlanBudget, BudgetRefusal, BudgetWrites, IsNextBudget;
    AfterIs(s, PlanBudget(s.memory, id, x, request, verdict, now), now);
    BudgetPlan(s.memory, id, x, request, verdict, now);
  }

  lemma BudgetPlan(m: Memory, id: MutationId, x: SubjectId, request: BudgetRequest, verdict: BudgetVerdict, now: Time)
    requires id !in m.receipts && x in m.subjects
    ensures var plan, s := PlanBudget(m, id, x, request, verdict, now), m.subjects[x];
      match BudgetRefusal(s, request, verdict)
      case Some(fault) => plan == Plan(None, 0, Thrown(fault)) && !BudgetWrites(s, request, verdict)
      case None =>
        && plan.tx.Some? && plan.tx.value == NO_CHANGES.(subjects := plan.tx.value.subjects, receipts := plan.tx.value.receipts)
        && plan.ordinals == 0 && plan.response.Returned? && plan.response.result.BudgetResult?
        && plan.response == Returned(BudgetResult(x, plan.response.result.budget, BudgetWrites(s, request, verdict)), false)
        && if BudgetWrites(s, request, verdict) then
             && IsNextBudget(s.budget, request, verdict, plan.response.result.budget)
             && plan.tx.value.subjects == map[x := s.(budget := Some(plan.response.result.budget), updatedAt := now)]
           else plan.tx.value.subjects == map[] && s.budget == Some(plan.response.result.budget)
  {}

  /** A repair sets the observed lifecycle of a registered subject, touches nothing else, and returns the subject as
      it stands then, projected. */
  lemma RepairSetsLifecycle(cfg: Config, s: System, x: SubjectId, l: Lifecycle, now: Time)
    ensures var plan := PlanReconcile(cfg, s.memory, x, l, now);
      var m' := After(s, plan, now);
      && OnlyChanges(s.memory, m', {x}) && m'.subjects.Keys == s.memory.subjects.Keys
      && (x in s.memory.subjects ==>
            && m'.subjects[x] == (if s.memory.subjects[x].lifecycle == l then s.memory.subjects[x]
                                  else s.memory.subjects[x].(lifecycle := l, updatedAt := now))
            && plan.response == Projected(ExpiredCopy(cfg, m', m'.subjects[x], now)))
      && (x !in s.memory.subjects ==> plan.response == Thrown(SubjectNotFound))
      && OnlyLeases(s.memory, m') && m'.liveness == s.memory.liveness
  {
    hide After;
    AfterIs(s, PlanReconcile(cfg, s.memory, x, l, now), now);
  }

  /** Every one of the handoffs is on record and addressed to `c`. */
  ghost predicate AreAddressedTo(m: Memory, c: ControllerId, ids: set<HandoffId>) {
    forall h :: h in ids ==> h in m.handoffs && m.handoffs[h].recipient.controllerId == c
  }

  /** All the named handoffs are acknowledged, each at its first acknowledgement, if they are all addressed to the recipient;
      else none is. */
  lemma AcknowledgeIsAllOrNothing(s: System, c: ControllerId, ids: set<HandoffId>, now: Time)
    ensures var plan := PlanAcknowledge(s.memory, c, ids, now);
      var m' := After(s, plan, now);
      && (if AreAddressedTo(s.memory, c, ids)
          then plan.response.Records? && plan.response.handoffs.Keys == ids && ids <= m'.handoffs.Keys
               && (forall h :: h in ids ==> plan.response.handoffs[h] == m'.handoffs[h] && m'.handoffs[h].acknowledgedAt.Some?)
          else plan.response == Thrown(HandoffNotFound))
      && m'.handoffs.Keys == s.memory.handoffs.Keys
      && forall h :: h in s.memory.handoffs ==>
        m'.handoffs[h] ==
          if AreAddressedTo(s.memory, c, ids) && h in ids && s.memory.handoffs[h].acknowledgedAt.None?
          then s.memory.handoffs[h].(acknowledgedAt := Some(now))
          else s.memory.handoffs[h]
  {
    hide After;
    var m := s.memory;
    AfterIs(s, PlanAcknowledge(m, c, ids, now), now);
    if CanAcknowledge(m, c, ids) {
      var changed := map h | h in ids && m.handoffs[h].acknowledgedAt.None? :: m.handoffs[h].(acknowledgedAt := Some(now));
      assert forall h :: h in changed <==> h in ids && m.handoffs[h].acknowledgedAt.None?;
      assert PlanAcknowledge(m, c, ids, now).tx == if changed == map[] then None else Some(NO_CHANGES.(handoffs := changed));
    }
  }
}
