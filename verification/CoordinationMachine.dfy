/** The service as a transition system: client calls, failing appends and broker restarts. */
module CoordinationMachine {
  import opened Finite
  import opened CoordinationTypes
  import opened CoordinationState
  import opened LeasePlans
  import opened BatchPlans
  import opened EventPlans
  import opened BudgetPlans

  datatype Call =
    | Register(id: MutationId, subject: SubjectId, registration: Registration, owner: Option<Controller>, budget: Option<nat>)
    | Take(id: MutationId, taking: Taking, actor: Controller, selector: Selector, controller: Controller)
    | Use(id: MutationId, using: Using, selector: Selector, credential: Credential)
    | AdoptBatch(id: MutationId, controller: Controller, adoptions: seq<AdoptMember>)
    | HandoffBatch(id: MutationId, request: HandoffRequest)
    | AcknowledgeHandoffs(recipient: ControllerId, handoffs: set<HandoffId>)
    | ObserveLiveness(id: MutationId, controller: Controller, state: Connection, session: Option<Session>)
    | ExpireLeases(id: MutationId)
    | ReconcileLifecycle(subject: SubjectId, lifecycle: Lifecycle)
    | SubmitEvent(id: MutationId, controller: Controller, token: Token, event: WorkerEvent)
    | ResolveEvent(id: MutationId, controller: Controller, token: Token, eventId: EventId, resolution: Resolution)
    | RequestCheckpoint(id: MutationId, controller: Controller, token: Token, checkpoint: CheckpointRequest)
    | MutateBudget(id: MutationId, subject: SubjectId, change: BudgetRequest, verdict: BudgetVerdict)

  ghost function PlanOf(cfg: Config, m: Memory, op: Call, now: Time, call: nat): Plan {
    match op
    case Register(id, x, r, c, budget) => PlanRegister(cfg, m, id, x, r, c, budget, now, call)
    case Take(id, taking, actor, sel, c) => PlanTake(cfg, m, id, taking, actor, sel, c, now, call)
    case Use(id, using, sel, cr) => PlanUse(cfg, m, id, using, sel, cr, now, call)
    case AdoptBatch(id, c, members) => PlanAdoptBatch(cfg, m, id, c, members, now, call)
    case HandoffBatch(id, r) => PlanHandoff(cfg, m, id, r, now, call)
    case AcknowledgeHandoffs(c, hs) => PlanAcknowledge(m, c, hs, now)
    case ObserveLiveness(id, c, state, session) => PlanObserve(cfg, m, id, c, state, session, now)
    case ExpireLeases(id) => PlanExpire(cfg, m, id, now)
    case ReconcileLifecycle(x, l) => PlanReconcile(cfg, m, x, l, now)
    case SubmitEvent(id, c, token, e) => PlanSubmit(cfg, m, id, c, token, e, now)
    case ResolveEvent(id, c, token, e, r) => PlanResolve(cfg, m, id, c, token, e, r, now)
    case RequestCheckpoint(id, c, token, r) => PlanCheckpoint(cfg, m, id, c, token, r, now)
    case MutateBudget(id, x, request, verdict) => PlanBudget(m, id, x, request, verdict, now)
  }

  /** Memory, the log it came from, the calls made so far and the clock of the last one. */
  datatype System = System(memory: Memory, log: seq<Transaction>, calls: nat, clock: Time)

  const INITIAL := System(EMPTY_MEMORY, [], 0, 0)

  /** A call happens `elapsed` after the previous one, so the clock never runs backwards; `stored`
      says whether the store accepted the append, when the call makes one. */
  datatype Action = Invoke(op: Call, elapsed: nat, stored: bool) | Restart

  ghost function Execute(s: System, plan: Plan, now: Time, stored: bool): System {
    var drawn := s.memory.(nextOrdinal := s.memory.nextOrdinal + plan.ordinals);
    if plan.tx.Some? && stored
    then System(Apply(drawn, plan.tx.value), s.log + [plan.tx.value], s.calls + 1, now)
    else System(drawn, s.log, s.calls + 1, now)
  }

  function AnswerTo(plan: Plan, stored: bool): Response {
    if plan.tx.Some? && !stored then Thrown(AppendFailed) else plan.response
  }

  ghost function PlanAt(cfg: Config, s: System, op: Call, elapsed: nat): Plan {
    PlanOf(cfg, s.memory, op, s.clock + elapsed, s.calls)
  }

  ghost function Step(cfg: Config, s: System, a: Action): System {
    match a
    case Invoke(op, elapsed, stored) => Execute(s, PlanAt(cfg, s, op, elapsed), s.clock + elapsed, stored)
    case Restart => s.(memory := Recover(Replay(s.log)))
  }

  ghost function Run(cfg: Config, s: System, actions: seq<Action>): System
    decreases |actions|
  {
    if actions == [] then s else Run(cfg, Step(cfg, s, actions[0]), actions[1..])
  }
}
