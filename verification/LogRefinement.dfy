/** Memory is the fold of the log, receipts are written once, and a repeated request is answered from its receipt. */
module LogRefinement {
  import opened Finite
  import opened CoordinationTypes
  import opened CoordinationState
  import opened LeasePlans
  import opened BatchPlans
  import opened EventPlans
  import opened BudgetPlans
  import opened CoordinationMachine

  /** Memory holds exactly what a replay of the log reconstructs. */
  ghost predicate LogAgrees(s: System) { DurableOf(s.memory) == Replay(s.log) }

  lemma ExecuteKeepsLog(s: System, plan: Plan, now: Time, stored: bool)
    requires LogAgrees(s)
    ensures LogAgrees(Execute(s, plan, now, stored))
  {
    if plan.tx.Some? {
      var log := s.log + [plan.tx.value];
      assert log[..|log| - 1] == s.log && log[|log| - 1] == plan.tx.value;
    }
  }

  lemma StepKeepsLog(cfg: Config, s: System, a: Action)
    requires LogAgrees(s)
    ensures LogAgrees(Step(cfg, s, a))
  {
    hide PlanAt;
    if a.Invoke? { ExecuteKeepsLog(s, PlanAt(cfg, s, a.op, a.elapsed), s.clock + a.elapsed, a.stored); }
  }

  /** A restart loses nothing durable. */
  lemma RestartKeepsDurable(cfg: Config, s: System)
    requires LogAgrees(s)
    ensures DurableOf(Step(cfg, s, Restart).memory) == DurableOf(s.memory)
    ensures Step(cfg, s, Restart).calls == s.calls && Step(cfg, s, Restart).clock == s.clock
  {
    hide PlanOf, Replay, MaxOrdinal;
  }

  /** At every point of every run, failed appends and restarts included, memory equals the log. */
  lemma {:induction false} MemoryIsReplay(cfg: Config, s: System, actions: seq<Action>)
    requires LogAgrees(s)
    ensures LogAgrees(Run(cfg, s, actions))
    decreases |actions|
  {
    hide Step;
    if actions != [] {
      StepKeepsLog(cfg, s, actions[0]);
      MemoryIsReplay(cfg, Step(cfg, s, actions[0]), actions[1..]);
    }
  }

  // ---- receipts ------------------------------------------------------------------------------

  function MutationOf(op: Call): Option<MutationId> {
    if op.AcknowledgeHandoffs? || op.ReconcileLifecycle? then None else Some(op.id)
  }

  /** The receipts a plan writes: none, or one under a mutation id that had none. */
  ghost predicate WritesOnce(m: Memory, plan: Plan, id: Option<MutationId>) {
    plan.tx.Some? ==> forall i :: i in plan.tx.value.receipts ==> i !in m.receipts && id == Some(i)
  }

  /** What a call answers when its mutation id already has a receipt. */
  function ReplayOf(m: Memory, op: Call): Plan
    requires MutationOf(op).Some? && op.id in m.receipts
  {
    match op
    case Register(id, x, r, _, budget) =>
      if budget.Some? && !r.kind.Worker? then Refuse(BudgetUnsupportedSubject)
      else ReplayKeyed(m, id, OpRegister, RegisterKey(x, budget))
    case Take(id, taking, _, _, _) => ReplayPlain(m, id, OperationOfTaking(taking))
    case Use(id, using, _, _) => ReplayPlain(m, id, OperationOfUsing(using))
    case AdoptBatch(id, _, _) => ReplayAdoptBatch(m, id)
    case HandoffBatch(id, r) => ReplayKeyed(m, id, OpHandoff, KeyOf(r))
    case ObserveLiveness(id, _, _, _) => ReplayPlain(m, id, OpLiveness)
    case ExpireLeases(id) => ReplayPlain(m, id, OpExpire)
    case SubmitEvent(id, _, _, _) => ReplayPlain(m, id, OpSubmit)
    case ResolveEvent(id, _, _, _, _) => ReplayPlain(m, id, OpResolve)
    case MutateBudget(id, x, r, _) => ReplayKeyed(m, id, OperationOfBudget(r), BudgetKey(x, r))
    case RequestCheckpoint(id, c, _, r) =>
      if m.receipts[id].operation != OpCheckpoint || !m.receipts[id].result.CheckpointResult? then Refuse(MutationIdCollision)
      else if !SameRequest(m.receipts[id].result.checkpoint, c, r) then Refuse(CheckpointIdentityCollision)
      else Plan(None, 0, Returned(m.receipts[id].result, true))
  }

  /** The receipt a call leaves when it succeeds: its own operation and request, and a result of its own kind. */
  ghost predicate ReceiptFits(op: Call, r: Receipt) {
    match op
    case Register(_, x, q, _, budget) =>
      r.operation == OpRegister && r.requestKey == RegisterKey(x, budget) && (budget.Some? ==> q.kind.Worker?)
    case MutateBudget(_, x, q, _) => r.operation == OperationOfBudget(q) && r.requestKey == BudgetKey(x, q)
    case Take(_, taking, _, _, _) => r.operation == OperationOfTaking(taking) && r.result.Ownership?
    case Use(_, using, _, _) => r.operation == OperationOfUsing(using) && r.result.Ownership?
    case AdoptBatch(_, _, _) => r.operation == OpAdopt && r.result.Batch?
    case HandoffBatch(_, q) => r.operation == OpHandoff && r.requestKey == KeyOf(q)
    case ObserveLiveness(_, _, _, _) => r.operation == OpLiveness && r.result.Ownership?
    case ExpireLeases(_) => r.operation == OpExpire && r.result.Ownership?
    case SubmitEvent(_, _, _, _) => r.operation == OpSubmit && r.result.EventResult?
    case ResolveEvent(_, _, _, _, _) => r.operation == OpResolve && r.result.EventResult?
    case RequestCheckpoint(_, c, _, q) =>
      r.operation == OpCheckpoint && r.result.CheckpointResult? && SameRequest(r.result.checkpoint, c, q)
    case _ => false
  }

  lemma UsedIdReplays(cfg: Config, m: Memory, op: Call, now: Time, call: nat)
    requires MutationOf(op).Some? && op.id in m.receipts
    ensures PlanOf(cfg, m, op, now, call) == ReplayOf(m, op)
  {
    hide ExpiredCopy, AuthCodeOf, TakeAll, UseAll, AdoptGranted, HandoffGranted, AdoptAborted, HandoffAborted,
      Selected, OrphanAll, ManifestOf, PlanAccept, LastSequence, ReceivedAfter;
  }

  lemma FittingReceiptReplays(m: Memory, op: Call)
    requires MutationOf(op).Some? && op.id in m.receipts && ReceiptFits(op, m.receipts[op.id])
    ensures ReplayOf(m, op) == Plan(None, 0, Returned(m.receipts[op.id].result, true))
  {}

  /** A plan's receipt carries what the plan returns; a plan that returns nothing leaves none. */
  ghost predicate ReceiptMatches(op: Call, plan: Plan) {
    plan.tx.Some? ==>
      if plan.response.Returned? then
        && MutationOf(op).Some? && op.id in plan.tx.value.receipts
        && ReceiptFits(op, plan.tx.value.receipts[op.id])
        && plan.tx.value.receipts[op.id].result == plan.response.result
      else plan.tx.value.receipts == map[]
  }

  lemma AcceptReceipt(cfg: Config, m: Memory, id: MutationId, c: Controller, e: WorkerEvent, now: Time)
    requires e.workerId in m.subjects
    ensures var plan := PlanAccept(cfg, m, id, c, e, now);
      && plan.tx.Some? && plan.response.Returned? && plan.response.result.EventResult?
      && plan.tx.value.receipts == map[id := Receipt(OpSubmit, Unkeyed, plan.response.result)]
  {
    hide QueueingOf, ClosedEvents, StoredOf, ExpiredCopy, Ungated, AnsweredCheckpoints, AnswersPending, LastSequence;
  }

  lemma SubmitReceipt(cfg: Config, m: Memory, id: MutationId, c: Controller, token: Token, e: WorkerEvent, now: Time)
    requires id !in m.receipts
    ensures var plan := PlanSubmit(cfg, m, id, c, token, e, now);
      && plan.tx.Some? && plan.response.Returned? && plan.response.result.EventResult?
      && plan.tx.value.receipts == map[id := Receipt(OpSubmit, Unkeyed, plan.response.result)]
  {
    hide PlanAccept, AuthCodeOf, ExpiredCopy, ReceivedAfter, ProjectionTx, LastSequence;
    if e.workerId in m.subjects { AcceptReceipt(cfg, m, id, c, e, now); }
  }

  lemma SubmitMatches(cfg: Config, m: Memory, op: Call, now: Time, call: nat)
    requires op.SubmitEvent?
    ensures ReceiptMatches(op, PlanOf(cfg, m, op, now, call)) && WritesOnce(m, PlanOf(cfg, m, op, now, call), MutationOf(op))
  {
    hide PlanSubmit;
    if op.id in m.receipts { UsedIdReplays(cfg, m, op, now, call); }
    else { SubmitReceipt(cfg, m, op.id, op.controller, op.token, op.event, now); }
  }

  lemma ResolveReceiptMatches(cfg: Config, m: Memory, op: Call, now: Time, call: nat)
    requires op.ResolveEvent?
    ensures ReceiptMatches(op, PlanOf(cfg, m, op, now, call)) && WritesOnce(m, PlanOf(cfg, m, op, now, call), MutationOf(op))
  {
    hide PlanRegister, PlanTake, PlanUse, PlanAdoptBatch, PlanHandoff, PlanObserve, PlanExpire, PlanSubmit, PlanCheckpoint,
      ExpiredCopy, AuthCodeOf, Renewed;
  }

  lemma CheckpointReceiptMatches(cfg: Config, m: Memory, op: Call, now: Time, call: nat)
    requires op.RequestCheckpoint?
    ensures ReceiptMatches(op, PlanOf(cfg, m, op, now, call)) && WritesOnce(m, PlanOf(cfg, m, op, now, call), MutationOf(op))
  {
    hide PlanRegister, PlanTake, PlanUse, PlanAdoptBatch, PlanHandoff, PlanObserve, PlanExpire, PlanSubmit, PlanResolve,
      ExpiredCopy, AuthCodeOf, Renewed;
  }

  lemma BatchReceiptMatches(cfg: Config, m: Memory, op: Call, now: Time, call: nat)
    requires op.AdoptBatch? || op.HandoffBatch?
    ensures ReceiptMatches(op, PlanOf(cfg, m, op, now, call)) && WritesOnce(m, PlanOf(cfg, m, op, now, call), MutationOf(op))
  {
    hide PlanRegister, PlanTake, PlanUse, PlanObserve, PlanExpire, PlanSubmit, PlanResolve, PlanCheckpoint, ExpiredCopy,
      AdoptGranted, HandoffGranted, AdoptAborted, HandoffAborted, ManifestOf;
  }

  lemma LeaseReceiptMatches(cfg: Config, m: Memory, op: Call, now: Time, call: nat)
    requires op.Take? || op.Use?
    ensures ReceiptMatches(op, PlanOf(cfg, m, op, now, call)) && WritesOnce(m, PlanOf(cfg, m, op, now, call), MutationOf(op))
  {
    hide PlanAdoptBatch, PlanHandoff, PlanSubmit, PlanResolve, PlanCheckpoint, PlanRegister, PlanObserve, PlanExpire,
      PlanReconcile, PlanAcknowledge, TakeAll, UseAll, Selected, ConnectedObservation;
  }

  lemma RegisterReceiptMatches(cfg: Config, m: Memory, op: Call, now: Time, call: nat)
    requires op.Register?
    ensures ReceiptMatches(op, PlanOf(cfg, m, op, now, call)) && WritesOnce(m, PlanOf(cfg, m, op, now, call), MutationOf(op))
  {
    hide PlanAdoptBatch, PlanHandoff, PlanSubmit, PlanResolve, PlanCheckpoint, PlanTake, PlanUse, PlanObserve, PlanExpire,
      PlanBudget, PlanReconcile, PlanAcknowledge, NewSubject, Declared, OutcomeOf, GrantOutcome, ConnectedObservation;
  }

  lemma BudgetReceiptMatches(cfg: Config, m: Memory, op: Call, now: Time, call: nat)
    requires op.MutateBudget?
    ensures ReceiptMatches(op, PlanOf(cfg, m, op, now, call)) && WritesOnce(m, PlanOf(cfg, m, op, now, call), MutationOf(op))
  {
    hide PlanAdoptBatch, PlanHandoff, PlanSubmit, PlanResolve, PlanCheckpoint, PlanTake, PlanUse, PlanObserve, PlanExpire,
      PlanRegister, PlanReconcile, PlanAcknowledge, NextBudget, ExpectedRevision, OperationOfBudget;
  }

  lemma RecordReceiptMatches(cfg: Config, m: Memory, op: Call, now: Time, call: nat)
    requires op.ObserveLiveness? || op.ExpireLeases? || MutationOf(op).None?
    ensures ReceiptMatches(op, PlanOf(cfg, m, op, now, call)) && WritesOnce(m, PlanOf(cfg, m, op, now, call), MutationOf(op))
  {
    hide PlanAdoptBatch, PlanHandoff, PlanSubmit, PlanResolve, PlanCheckpoint, PlanTake, PlanUse, PlanRegister, PlanBudget,
      ExpiredCopy, OrphanAll, Judged, ObserveOutcomes, OrphanedAmong, ConnectedObservation;
  }

  /** Every call leaves at most one receipt, under its own unused mutation id, and it carries the answer given. */
  lemma EveryCallWritesOnce(cfg: Config, m: Memory, op: Call, now: Time, call: nat)
    ensures ReceiptMatches(op, PlanOf(cfg, m, op, now, call))
    ensures WritesOnce(m, PlanOf(cfg, m, op, now, call), MutationOf(op))
  {
    hide PlanOf, ReceiptMatches, WritesOnce;
    if op.SubmitEvent? {
      SubmitMatches(cfg, m, op, now, call);
    } else if op.ResolveEvent? {
      ResolveReceiptMatches(cfg, m, op, now, call);
    } else if op.RequestCheckpoint? {
      CheckpointReceiptMatches(cfg, m, op, now, call);
    } else if op.AdoptBatch? || op.HandoffBatch? {
      BatchReceiptMatches(cfg, m, op, now, call);
    } else if op.Take? || op.Use? {
      LeaseReceiptMatches(cfg, m, op, now, call);
    } else if op.Register? {
      RegisterReceiptMatches(cfg, m, op, now, call);
    } else if op.MutateBudget? {
      BudgetReceiptMatches(cfg, m, op, now, call);
    } else {
      RecordReceiptMatches(cfg, m, op, now, call);
    }
  }

  lemma ExecuteKeepsReceipt(s: System, plan: Plan, now: Time, stored: bool, op: Option<MutationId>, id: MutationId)
    requires id in s.memory.receipts && WritesOnce(s.memory, plan, op)
    ensures var m := Execute(s, plan, now, stored).memory; id in m.receipts && m.receipts[id] == s.memory.receipts[id]
  {
    hide IndexAll, StoreAll;
  }

  lemma StepKeepsReceipt(cfg: Config, s: System, a: Action, id: MutationId)
    requires LogAgrees(s) && id in s.memory.receipts
    ensures id in Step(cfg, s, a).memory.receipts && Step(cfg, s, a).memory.receipts[id] == s.memory.receipts[id]
  {
    hide PlanOf, Execute, Recover, Replay;
    if a.Invoke? {
      EveryCallWritesOnce(cfg, s.memory, a.op, s.clock + a.elapsed, s.calls);
      ExecuteKeepsReceipt(s, PlanAt(cfg, s, a.op, a.elapsed), s.clock + a.elapsed, a.stored, MutationOf(a.op), id);
    } else {
      RestartKeepsDurable(cfg, s);
    }
  }

  /** A receipt, once written, is there unchanged after any run. */
  lemma {:induction false} ReceiptsAreForever(cfg: Config, s: System, actions: seq<Action>, id: MutationId)
    requires LogAgrees(s) && id in s.memory.receipts
    ensures id in Run(cfg, s, actions).memory.receipts
    ensures Run(cfg, s, actions).memory.receipts[id] == s.memory.receipts[id]
    decreases |actions|
  {
    hide Step;
    if actions != [] {
      StepKeepsReceipt(cfg, s, actions[0], id);
      StepKeepsLog(cfg, s, actions[0]);
      ReceiptsAreForever(cfg, Step(cfg, s, actions[0]), actions[1..], id);
    }
  }

  /** A call whose append fails is told so and leaves nothing behind but the ordinals it drew, which are skipped; so does one that
      has nothing to append, and that one gets its answer. */
  lemma FailedAppendLeavesNothing(cfg: Config, s: System, op: Call, elapsed: nat)
    ensures var plan, s' := PlanAt(cfg, s, op, elapsed), Step(cfg, s, Invoke(op, elapsed, false));
      && s'.log == s.log && DurableOf(s'.memory) == DurableOf(s.memory) && s'.memory.summaries == s.memory.summaries
      && s'.memory.nextOrdinal >= s.memory.nextOrdinal
      && AnswerTo(plan, false) == (if plan.tx == None then plan.response else Thrown(AppendFailed))
      && AnswerTo(plan, true) == plan.response
  {
    hide PlanOf;
  }

  // ---- at-most-once effect -------------------------------------------------------------------

  /** At most once: a call that succeeded, repeated after any run whatever (restarts included), returns
      the recorded result marked as a replay and changes neither memory nor log. */
  lemma RetryReplays(cfg: Config, s: System, op: Call, elapsed: nat, between: seq<Action>, elapsed': nat, stored': bool)
    requires LogAgrees(s)
    requires PlanAt(cfg, s, op, elapsed).tx.Some?
    requires PlanAt(cfg, s, op, elapsed).response.Returned? && !PlanAt(cfg, s, op, elapsed).response.replay
    ensures var s' := Run(cfg, Step(cfg, s, Invoke(op, elapsed, true)), between);
      && AnswerTo(PlanAt(cfg, s', op, elapsed'), stored') ==
         Returned(PlanAt(cfg, s, op, elapsed).response.result, true)
      && Step(cfg, s', Invoke(op, elapsed', stored')) == s'.(calls := s'.calls + 1, clock := s'.clock + elapsed')
  {
    hide PlanOf, Run, ReceiptFits, ReplayOf, IndexAll, StoreAll;
    var a := Invoke(op, elapsed, true);
    var s1 := Step(cfg, s, a);
    var s' := Run(cfg, s1, between);
    EveryCallWritesOnce(cfg, s.memory, op, s.clock + elapsed, s.calls);
    StepKeepsLog(cfg, s, a);
    ReceiptsAreForever(cfg, s1, between, op.id);
    UsedIdReplays(cfg, s'.memory, op, s'.clock + elapsed', s'.calls);
    FittingReceiptReplays(s'.memory, op);
  }

  /** A receipt is taken for that of a call when it names the operation and, where the service compares requests, the request. */
  ghost predicate Recognises(op: Call, r: Receipt) {
    match op
    case Register(_, x, _, _, budget) => r.operation == OpRegister && r.requestKey == RegisterKey(x, budget)
    case Take(_, taking, _, _, _) => r.operation == if taking == Acquiring then OpAcquire else OpAdopt
    case Use(_, using, _, _) =>
      || (using == Renewing && r.operation == OpRenew) || (using == Releasing && r.operation == OpRelease)
      || (using.Transferring? && r.operation == OpTransfer) || (using.Reporting? && r.operation == OpLifecycle)
    case AdoptBatch(_, _, _) => r.operation == OpAdopt && r.result.Batch?
    case HandoffBatch(_, q) =>
      && r.operation == OpHandoff && r.requestKey.HandoffKey?
      && r.requestKey.actor == q.actor && r.requestKey.recipient == q.recipient && r.requestKey.session == q.session
      && r.requestKey.directive == q.directive && r.requestKey.handoffId == q.handoffId
      && |r.requestKey.members| == |q.members|
      && forall i :: 0 <= i < |q.members| ==> r.requestKey.members[i] == q.members[i].subjectId
    case ObserveLiveness(_, _, _, _) => r.operation == OpLiveness
    case ExpireLeases(_) => r.operation == OpExpire
    case SubmitEvent(_, _, _, _) => r.operation == OpSubmit
    case ResolveEvent(_, _, _, _, _) => r.operation == OpResolve
    case RequestCheckpoint(_, _, _, _) => r.operation == OpCheckpoint && r.result.CheckpointResult?
    case MutateBudget(_, x, q, _) =>
      && r.requestKey == BudgetKey(x, q)
      && (|| (q.DeclareBudget? && r.operation == OpBudgetDeclare) || (q.ObserveUsage? && r.operation == OpBudgetObserve)
          || (q.AdjustBudget? && r.operation == OpBudgetAdjust) || (q.EnforceBudget? && r.operation == OpBudgetEnforce))
    case _ => false
  }

  /** A recorded batch told as an ownership result leaves out the handoff. */
  ghost predicate IsRetold(op: Call, recorded: Result, told: Result) {
    if recorded.Batch? && (op.Take? || op.Use? || op.ObserveLiveness? || op.ExpireLeases? || op.SubmitEvent? || op.ResolveEvent?)
    then told == Ownership(recorded.outcomes) else told == recorded
  }

  /** What a call under a used mutation id is answered: the recorded result if the receipt is taken for its own, and else that
      the id collides; a checkpoint request is held to what it asks for as well. Registering a budget for anything but a worker
      is refused before receipts are looked at. */
  lemma UsedIdAnswers(cfg: Config, m: Memory, op: Call, now: Time, call: nat)
    requires MutationOf(op).Some? && op.id in m.receipts
    ensures var plan, r := PlanOf(cfg, m, op, now, call), m.receipts[op.id];
      && plan.tx == None && plan.ordinals == 0
      && if op.Register? && op.budget != None && op.registration.kind != Worker then plan.response == Thrown(BudgetUnsupportedSubject)
         else if !Recognises(op, r) then plan.response == Thrown(MutationIdCollision)
         else if op.RequestCheckpoint?
           && !(var k, q := r.result.checkpoint, op.checkpoint;
                k.key == q.key && k.requestedBy == op.controller && k.content == q.content && k.mode == q.mode)
         then plan.response == Thrown(CheckpointIdentityCollision)
         else plan.response.Returned? && plan.response.replay && IsRetold(op, r.result, plan.response.result)
  {
    hide PlanOf;
    UsedIdReplays(cfg, m, op, now, call);
  }

  /** A mutation id that already has a receipt never changes anything again, whatever the request. */
  lemma UsedIdChangesNothing(cfg: Config, s: System, op: Call, elapsed: nat, stored: bool)
    requires MutationOf(op).Some? && MutationOf(op).value in s.memory.receipts
    ensures Step(cfg, s, Invoke(op, elapsed, stored)) == s.(calls := s.calls + 1, clock := s.clock + elapsed)
  {
    hide PlanOf;
    UsedIdReplays(cfg, s.memory, op, s.clock + elapsed, s.calls);
  }
}
