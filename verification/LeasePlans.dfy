/** What each ownership operation decides to append and to answer, from memory, the clock and the call. */
module LeasePlans {
  import opened Finite
  import opened CoordinationTypes
  import opened LeaseLiveness
  import opened CoordinationState

  /** One decision: the append (if any), the ordinals drawn while deciding, and the answer. */
  datatype Plan = Plan(tx: Option<Transaction>, ordinals: nat, response: Response)

  function Refuse(fault: Fault): Plan { Plan(None, 0, Thrown(fault)) }

  function Receipted(id: MutationId, operation: Operation, key: RequestKey, result: Result, tx: Transaction, ordinals: nat)
    : Plan
  {
    Plan(Some(tx.(receipts := map[id := Receipt(operation, key, result)])), ordinals, Returned(result, false))
  }

  // ---- shared record builders ----------------------------------------------------------------

  function ExpiredCopy(cfg: Config, m: Memory, s: Subject, now: Time): Subject {
    ObservedLeaseCopy(s, ControllerLiveness(s.lease, m.liveness), now, cfg.leaseDuration, cfg.grace)
  }

  predicate IsExpired(cfg: Config, m: Memory, s: Subject, now: Time) {
    LeaseHasExpired(s.lease, ControllerLiveness(s.lease, m.liveness), now, cfg.grace)
  }

  function Observation(m: Memory, id: ControllerId): Option<Liveness> {
    if id in m.liveness then Some(m.liveness[id]) else None
  }

  function ConnectedObservation(m: Memory, c: Controller, now: Time): map<ControllerId, Liveness> {
    map[c.controllerId := HeartbeatObservation(c, Observation(m, c.controllerId), now)]
  }

  function OutcomeOf(s: Subject, code: OutcomeCode): Outcome {
    Outcome(code, s.lease.version, None, s.lease.controller, s.lease.expiresAt)
  }

  /** `authCode`: None is success. `s` is the lease as projected at `now`. */
  function AuthCodeOf(cfg: Config, m: Memory, s: Subject, c: Controller, token: Token, version: Option<nat>, now: Time)
    : Option<AuthCode>
  {
    if IsExpired(cfg, m, s, now) || s.lease.state.Orphaned? then Some(AuthLeaseExpired)
    else if !IsControlled(s.lease)
      || s.lease.controller.value.controllerId != c.controllerId
      || (version.Some? && s.lease.version != version.value) then Some(AuthOwnershipLost)
    else if s.lease.tokenHash != Some(Sha256(token)) then Some(AuthTokenInvalid)
    else None
  }

  function Renewed(cfg: Config, s: Subject, now: Time): Subject {
    s.(lease := s.lease.(state := Active, renewedAt := now, expiresAt := now + cfg.leaseDuration, contestedBy := None),
       updatedAt := now)
  }

  /** The next lease generation: a higher version and a token drawn by this call. */
  function WithNewController(cfg: Config, s: Subject, x: SubjectId, c: Controller, now: Time, call: nat): Subject {
    s.(lease := Lease(s.lease.version + 1, Active, Some(c), Some(Sha256(Issued(call, x))), now, now,
                      now + cfg.leaseDuration, None, None, None),
       updatedAt := now)
  }

  function GrantOutcome(s: Subject, code: OutcomeCode, x: SubjectId, call: nat): Outcome {
    OutcomeOf(s, code).(leaseToken := Some(Issued(call, x)))
  }

  function ContestedBy(s: Subject, actor: Controller, now: Time): Subject {
    s.(lease := s.lease.(state := Contested, contestedBy := Some(actor)), updatedAt := now)
  }

  // ---- receipts ------------------------------------------------------------------------------

  function AsOwnership(r: Result): Result { if r.Batch? then Ownership(r.outcomes) else r }

  /** `replayOwnership` and `replayAck`: the recorded answer, or a collision with another operation. */
  function ReplayPlain(m: Memory, id: MutationId, operation: Operation): Plan
    requires id in m.receipts
  {
    if m.receipts[id].operation != operation then Refuse(MutationIdCollision)
    else Plan(None, 0, Returned(AsOwnership(m.receipts[id].result), true))
  }

  /** `replayRegistration` and `replayHandoffBatch` also compare the stored request. */
  function ReplayKeyed(m: Memory, id: MutationId, operation: Operation, key: RequestKey): Plan
    requires id in m.receipts
  {
    if m.receipts[id].operation != operation || m.receipts[id].requestKey != key then Refuse(MutationIdCollision)
    else Plan(None, 0, Returned(m.receipts[id].result, true))
  }

  function ReplayAdoptBatch(m: Memory, id: MutationId): Plan
    requires id in m.receipts
  {
    if m.receipts[id].operation != OpAdopt || !m.receipts[id].result.Batch? then Refuse(MutationIdCollision)
    else Plan(None, 0, Returned(m.receipts[id].result, true))
  }

  // ---- register ------------------------------------------------------------------------------

  datatype Registration = Registration(kind: SubjectKind, origin: Origin, lifecycle: Lifecycle, resources: Resources)

  /** The budget a declaration starts with. */
  function Declared(declaration: Option<nat>): Option<Budget> {
    if declaration.Some? then Some(Budget(declaration.value, 1, 0)) else None
  }

  function NewSubject(cfg: Config, r: Registration, x: SubjectId, c: Option<Controller>, budget: Option<nat>, now: Time, call: nat): Subject {
    Subject(r.kind, r.origin, r.lifecycle, r.resources,
      if c.Some?
      then Lease(1, Active, c, Some(Sha256(Issued(call, x))), now, now, now + cfg.leaseDuration, None, None, None)
      else Lease(1, Orphaned, None, None, now, now, now, Some(now), None, None),
      NoGate, now, Declared(budget))
  }

  /** Registering a subject that exists: its budget may be attached, nothing else changes. */
  function PlanAgain(id: MutationId, x: SubjectId, existing: Subject, r: Registration, c: Option<Controller>,
                     budget: Option<nat>,
                     now: Time): Plan
  {
    if existing.origin != r.origin then Refuse(ImmutableOriginMismatch)
    else if budget.Some? && !existing.kind.Worker? then Refuse(BudgetUnsupportedSubject)
    else if budget.Some? && existing.budget.Some? && existing.budget.value.declaration != budget.value then Refuse(BudgetAlreadyDeclared)
    else
      var same := if existing.lease.controller.Some?
        then c.Some? && c.value.controllerId == existing.lease.controller.value.controllerId else c.None?;
      var outcome := OutcomeOf(existing, if same then ALREADY_CONTROLLED else NOT_ELIGIBLE);
      Receipted(id, OpRegister, RegisterKey(x, budget), Ownership(map[x := outcome]),
        if budget.Some? && existing.budget.None?
        then NO_CHANGES.(subjects := map[x := existing.(budget := Declared(budget), updatedAt := now)]) else NO_CHANGES, 0)
  }

  function PlanRegister(cfg: Config, m: Memory, id: MutationId, x: SubjectId, r: Registration, c: Option<Controller>,
                        budget: Option<nat>, now: Time, call: nat): Plan
  {
    if budget.Some? && !r.kind.Worker? then Refuse(BudgetUnsupportedSubject)
    else if id in m.receipts then ReplayKeyed(m, id, OpRegister, RegisterKey(x, budget))
    else if x in m.subjects then PlanAgain(id, x, m.subjects[x], r, c, budget, now)
    else
      var s := NewSubject(cfg, r, x, c, budget, now, call);
      var outcome := if c.Some? then GrantOutcome(s, ACQUIRED, x, call) else OutcomeOf(s, ORPHANED);
      Receipted(id, OpRegister, RegisterKey(x, budget), Ownership(map[x := outcome]),
        NO_CHANGES.(subjects := map[x := s],
                    liveness := if c.Some? then ConnectedObservation(m, c.value, now) else map[]), 0)
  }

  // ---- acquire and adopt ---------------------------------------------------------------------

  datatype Selector =
    | Single(subjectId: SubjectId)
    | Group(taskId: Option<nat>, waveId: Option<nat>)
    | InactiveController(controllerId: ControllerId)

  predicate Selects(cfg: Config, m: Memory, sel: Selector, now: Time, x: SubjectId)
    requires x in m.subjects
  {
    var s := m.subjects[x];
    match sel
    case Single(y) => x == y
    case Group(task, wave) =>
      && (task.Some? ==> s.origin.taskId == task.value)
      && (wave.Some? ==> s.origin.waveId == wave)
    case InactiveController(c) =>
      && s.lease.controller.Some? && s.lease.controller.value.controllerId == c
      && (PastGrace(Observation(m, c), now, cfg.grace)
          || ((s.lease.state.Orphaned? || s.lease.state.Expired?) && now >= s.lease.expiresAt))
  }

  function Selected(cfg: Config, m: Memory, sel: Selector, now: Time): set<SubjectId> {
    set x | x in m.subjects && Selects(cfg, m, sel, now, x)
  }

  predicate SelectorMissing(m: Memory, sel: Selector) { sel.Single? && sel.subjectId !in m.subjects }

  datatype Mutated = Mutated(subject: Subject, outcome: Outcome)

  datatype Taking = Acquiring | Adopting

  /** The body `acquire` and `adopt` run on one projected subject. */
  function TakeOne(cfg: Config, taking: Taking, actor: Controller, c: Controller, x: SubjectId, s: Subject, now: Time,
                   call: nat): Mutated
  {
    if IsTerminal(s.lifecycle) then Mutated(s, OutcomeOf(s, WORKER_TERMINAL))
    else if IsControlled(s.lease) then
      if taking.Acquiring? && s.lease.controller.value.controllerId == c.controllerId then
        var next := WithNewController(cfg, s, x, c, now, call);
        Mutated(next, GrantOutcome(next, ALREADY_CONTROLLED, x, call))
      else
        var contested := ContestedBy(s, actor, now);
        Mutated(contested, OutcomeOf(contested, LEASE_CONFLICT))
    else if taking.Acquiring? == (s.lease.state.Orphaned? || s.lease.state.Expired?) then
      Mutated(s, OutcomeOf(s, NOT_ELIGIBLE))
    else
      var next := WithNewController(cfg, s, x, c, now, call);
      Mutated(next, GrantOutcome(next, ACQUIRED, x, call))
  }

  function TakeAll(cfg: Config, m: Memory, taking: Taking, actor: Controller, c: Controller, xs: set<SubjectId>, now: Time,
                   call: nat): map<SubjectId, Mutated>
    requires xs <= m.subjects.Keys
  {
    map x | x in xs :: TakeOne(cfg, taking, actor, c, x, ExpiredCopy(cfg, m, m.subjects[x], now), now, call)
  }

  function SubjectsOf(mutated: map<SubjectId, Mutated>): map<SubjectId, Subject> {
    map x | x in mutated :: mutated[x].subject
  }

  function OutcomesOf(mutated: map<SubjectId, Mutated>): map<SubjectId, Outcome> {
    map x | x in mutated :: mutated[x].outcome
  }

  function OperationOfTaking(taking: Taking): Operation { if taking.Acquiring? then OpAcquire else OpAdopt }

  /** What the loops over the selected subjects leave to commit. */
  function PlanMutated(m: Memory, id: MutationId, operation: Operation, mutated: map<SubjectId, Mutated>, heard: bool,
                       c: Controller, now: Time): Plan
  {
    Receipted(id, operation, Unkeyed, Ownership(OutcomesOf(mutated)),
      NO_CHANGES.(subjects := SubjectsOf(mutated),
                  liveness := if heard then ConnectedObservation(m, c, now) else map[]), 0)
  }

  predicate Granted(mutated: map<SubjectId, Mutated>) {
    exists x :: x in mutated && (mutated[x].outcome.code.ACQUIRED? || mutated[x].outcome.code.ALREADY_CONTROLLED?)
  }

  function PlanTake(cfg: Config, m: Memory, id: MutationId, taking: Taking, actor: Controller, sel: Selector, c: Controller,
                    now: Time, call: nat): Plan
  {
    if id in m.receipts then ReplayPlain(m, id, OperationOfTaking(taking))
    else if SelectorMissing(m, sel) then Refuse(SubjectNotFound)
    else
      var mutated := TakeAll(cfg, m, taking, actor, c, Selected(cfg, m, sel, now), now, call);
      PlanMutated(m, id, OperationOfTaking(taking), mutated, Granted(mutated), c, now)
  }

  // ---- renew, release, transfer, lifecycle ---------------------------------------------------

  datatype Using = Renewing | Releasing | Transferring(newController: Controller) | Reporting(lifecycle: Lifecycle)

  /** The caller's proof: per-subject tokens, one fallback token, and the version it believes in. */
  datatype Credential = Credential(controller: Controller, tokens: map<SubjectId, Token>, token: Option<Token>,
                                   version: Option<nat>)

  function TokenFor(cr: Credential, x: SubjectId): Token {
    if x in cr.tokens then cr.tokens[x] else if cr.token.Some? then cr.token.value else EMPTY_TOKEN
  }

  function Authorized(cfg: Config, using: Using, x: SubjectId, s: Subject, now: Time, call: nat): Mutated {
    match using
    case Renewing =>
      var next := Renewed(cfg, s, now);
      Mutated(next, OutcomeOf(next, ALREADY_CONTROLLED))
    case Releasing =>
      var next := s.(lease := s.lease.(state := Released, tokenHash := None, releasedAt := Some(now), contestedBy := None),
                     updatedAt := now);
      Mutated(next, OutcomeOf(next, RELEASED))
    case Transferring(c) =>
      var next := WithNewController(cfg, s, x, c, now, call);
      Mutated(next, GrantOutcome(next, TRANSFERRED, x, call))
    case Reporting(l) =>
      var next := s.(lifecycle := l, updatedAt := now);
      Mutated(next, OutcomeOf(next, ALREADY_CONTROLLED))
  }

  function UseOne(cfg: Config, m: Memory, using: Using, cr: Credential, x: SubjectId, s: Subject, now: Time, call: nat)
    : Mutated
  {
    var auth := AuthCodeOf(cfg, m, s, cr.controller, TokenFor(cr, x), cr.version, now);
    if auth.Some? then Mutated(s, OutcomeOf(s, if auth.value.AuthLeaseExpired? then ORPHANED else OWNERSHIP_LOST))
    else Authorized(cfg, using, x, s, now, call)
  }

  function UseAll(cfg: Config, m: Memory, using: Using, cr: Credential, xs: set<SubjectId>, now: Time, call: nat)
    : map<SubjectId, Mutated>
    requires xs <= m.subjects.Keys
  {
    map x | x in xs :: UseOne(cfg, m, using, cr, x, ExpiredCopy(cfg, m, m.subjects[x], now), now, call)
  }

  function OperationOfUsing(using: Using): Operation {
    match using
    case Renewing => OpRenew
    case Releasing => OpRelease
    case Transferring(_) => OpTransfer
    case Reporting(_) => OpLifecycle
  }

  predicate SomeAuthenticated(mutated: map<SubjectId, Mutated>) {
    exists x :: x in mutated && !mutated[x].outcome.code.OWNERSHIP_LOST? && !mutated[x].outcome.code.ORPHANED?
  }

  function PlanUse(cfg: Config, m: Memory, id: MutationId, using: Using, sel: Selector, cr: Credential, now: Time, call: nat)
    : Plan
  {
    if id in m.receipts then ReplayPlain(m, id, OperationOfUsing(using))
    else if SelectorMissing(m, sel) then Refuse(SubjectNotFound)
    else
      var mutated := UseAll(cfg, m, using, cr, Selected(cfg, m, sel, now), now, call);
      PlanMutated(m, id, OperationOfUsing(using), mutated, SomeAuthenticated(mutated), cr.controller, now)
  }

  // ---- liveness, expiry, reconciliation ------------------------------------------------------

  function HeldBy(m: Memory, c: ControllerId): set<SubjectId> {
    set x | x in m.subjects && m.subjects[x].lease.controller.Some? && m.subjects[x].lease.controller.value.controllerId == c
  }

  /** The outgoing observation is judged before it is replaced, unless a first session takes over. */
  function BeforeObservation(cfg: Config, m: Memory, s: Subject, session: Option<Session>, now: Time): Subject {
    if session.Some? && !IsSession(ControllerLiveness(s.lease, m.liveness)) then s else ExpiredCopy(cfg, m, s, now)
  }

  function ObserveOutcome(cfg: Config, entry: Liveness, s: Subject, now: Time): Outcome {
    var projected := ObservedLeaseCopy(s, Some(entry), now, cfg.leaseDuration, cfg.grace);
    OutcomeOf(projected, if IsControlled(projected.lease) then ALREADY_CONTROLLED else ORPHANED)
  }

  /** Every subject the controller holds, as the outgoing observation leaves it. */
  function Judged(cfg: Config, m: Memory, c: Controller, session: Option<Session>, now: Time): map<SubjectId, Subject> {
    map x | x in HeldBy(m, c.controllerId) :: BeforeObservation(cfg, m, m.subjects[x], session, now)
  }

  function ObserveOutcomes(cfg: Config, entry: Liveness, judged: map<SubjectId, Subject>, now: Time): map<SubjectId, Outcome> {
    map x | x in judged :: ObserveOutcome(cfg, entry, judged[x], now)
  }

  function OrphanedAmong(judged: map<SubjectId, Subject>): map<SubjectId, Subject> {
    map x | x in judged && judged[x].lease.state.Orphaned? :: judged[x]
  }

  function PlanObserve(cfg: Config, m: Memory, id: MutationId, c: Controller, state: Connection, session: Option<Session>,
                       now: Time): Plan
  {
    if id in m.receipts then ReplayPlain(m, id, OpLiveness)
    else
      var entry := Liveness(c, state, now, session);
      var judged := Judged(cfg, m, c, session, now);
      Receipted(id, OpLiveness, Unkeyed, Ownership(ObserveOutcomes(cfg, entry, judged, now)),
        NO_CHANGES.(subjects := OrphanedAmong(judged), liveness := map[c.controllerId := entry]), 0)
  }

  function Orphan(s: Subject, now: Time): Subject {
    s.(lease := s.lease.(state := Orphaned, tokenHash := None, orphanedAt := Some(now), contestedBy := None), updatedAt := now)
  }

  function OrphanAll(cfg: Config, m: Memory, xs: set<SubjectId>, now: Time): map<SubjectId, Mutated>
    requires xs <= m.subjects.Keys
  {
    map x | x in xs && IsExpired(cfg, m, m.subjects[x], now) ::
      Mutated(Orphan(m.subjects[x], now), OutcomeOf(Orphan(m.subjects[x], now), ORPHANED))
  }

  function PlanExpire(cfg: Config, m: Memory, id: MutationId, now: Time): Plan {
    if id in m.receipts then ReplayPlain(m, id, OpExpire)
    else
      var orphaned := OrphanAll(cfg, m, m.subjects.Keys, now);
      Receipted(id, OpExpire, Unkeyed, Ownership(OutcomesOf(orphaned)), NO_CHANGES.(subjects := SubjectsOf(orphaned)), 0)
  }

  /** Repairs bookkeeping from observed process state; it leaves no receipt. */
  function PlanReconcile(cfg: Config, m: Memory, x: SubjectId, l: Lifecycle, now: Time): Plan {
    if x !in m.subjects then Refuse(SubjectNotFound)
    else if m.subjects[x].lifecycle == l then Plan(None, 0, Projected(ExpiredCopy(cfg, m, m.subjects[x], now)))
    else
      var updated := m.subjects[x].(lifecycle := l, updatedAt := now);
      Plan(Some(NO_CHANGES.(subjects := map[x := updated])), 0, Projected(ExpiredCopy(cfg, m, updated, now)))
  }
}
