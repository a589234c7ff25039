/** The scoped usage budget of a worker inside its coordination record: declaration, observation, adjustment and
    enforcement. What a measurement or a threshold amounts to is decided elsewhere; here it is a verdict. */
module BudgetPlans {
  import opened Finite
  import opened CoordinationTypes
  import opened CoordinationState
  import opened LeasePlans

  function OperationOfBudget(request: BudgetRequest): Operation {
    match request
    case DeclareBudget(_, _) => OpBudgetDeclare
    case ObserveUsage(_) => OpBudgetObserve
    case AdjustBudget(_, _) => OpBudgetAdjust
    case EnforceBudget(_, _) => OpBudgetEnforce
  }

  /** The record an accepted change leaves: only an adjustment starts a new revision and moves the declaration. */
  function NextBudget(request: BudgetRequest, current: Budget, change: BudgetVerdict): Budget
    requires change.Changes?
  {
    if request.AdjustBudget? then Budget(change.declaration, current.revision + 1, change.content)
    else current.(content := change.content)
  }

  /** The revision a request insists on, if any. */
  function ExpectedRevision(request: BudgetRequest): Option<nat> {
    match request
    case AdjustBudget(revision, _) => Some(revision)
    case EnforceBudget(revision, _) => Some(revision)
    case _ => None
  }

  /** One mutation of the budget of a registered worker `s`. */
  function PlanBudgetOf(id: MutationId, x: SubjectId, s: Subject, request: BudgetRequest, verdict: BudgetVerdict, now: Time): Plan {
    var operation, key := OperationOfBudget(request), BudgetKey(x, request);
    if request.DeclareBudget? then
      if s.budget.None? then
        var declared := Budget(request.declaration, 1, 0);
        Receipted(id, operation, key, BudgetResult(x, declared, true),
          NO_CHANGES.(subjects := map[x := s.(budget := Some(declared), updatedAt := now)]), 0)
      else if s.budget.value.declaration != request.declaration then Refuse(BudgetAlreadyDeclared)
      else Receipted(id, operation, key, BudgetResult(x, s.budget.value, false), NO_CHANGES, 0)
    else if s.budget.None? then Refuse(BudgetNotDeclared)
    else if ExpectedRevision(request).Some? && ExpectedRevision(request).value != s.budget.value.revision then
      Refuse(BudgetRevisionConflict)
    else
      match verdict
      case Invalid => Refuse(BudgetRejected)
      case Unchanged => Receipted(id, operation, key, BudgetResult(x, s.budget.value, false), NO_CHANGES, 0)
      case Changes(_, _) =>
        var next := NextBudget(request, s.budget.value, verdict);
        Receipted(id, operation, key, BudgetResult(x, next, true),
          NO_CHANGES.(subjects := map[x := s.(budget := Some(next), updatedAt := now)]), 0)
  }

  function PlanBudget(m: Memory, id: MutationId, x: SubjectId, request: BudgetRequest, verdict: BudgetVerdict, now: Time): Plan {
    if id in m.receipts then ReplayKeyed(m, id, OperationOfBudget(request), BudgetKey(x, request))
    else if x !in m.subjects then Refuse(SubjectNotFound)
    else if !m.subjects[x].kind.Worker? then Refuse(BudgetUnsupportedSubject)
    else PlanBudgetOf(id, x, m.subjects[x], request, verdict, now)
  }
}
