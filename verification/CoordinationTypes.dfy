/** The records of the worker coordination service.
    Identifiers are opaque numbers: the service only ever compares them for equality. Times are
    milliseconds. Free text that no branch reads (reasons, messages, audit records) is not modelled. */
module CoordinationTypes {
  import opened Finite

  type Time = nat
  type SubjectId = nat
  type ControllerId = nat
  type EventId = nat
  type CorrelationId = nat
  type MutationId = nat

  /** A lease token. The broker draws at most one per subject and call, so an issued token is named
      by the call that drew it; whatever else a client may present is some other text. */
  datatype Token = Issued(call: nat, subject: SubjectId) | Presented(text: nat)

  /** What `tokenFor` falls back to when the caller supplied no token. */
  const EMPTY_TOKEN := Presented(0)

  /** SHA-256 taken as injective. */
  datatype TokenHash = Sha256(token: Token)

  datatype Controller = Controller(controllerId: ControllerId, familyId: nat)

  datatype SubjectKind = Worker | Orchestrator
  datatype Lifecycle = Queued | Launching | Working | Waiting | Completed | Failed | Stopped

  predicate IsTerminal(l: Lifecycle) { l.Completed? || l.Failed? || l.Stopped? }

  datatype LeaseState = Active | Expired | Released | Orphaned | Contested
  datatype Lease = Lease(
    version: nat,
    state: LeaseState,
    controller: Option<Controller>,
    tokenHash: Option<TokenHash>,
    issuedAt: Time,
    renewedAt: Time,
    expiresAt: Time,
    orphanedAt: Option<Time>,
    releasedAt: Option<Time>,
    contestedBy: Option<Controller>)

  datatype Origin = Origin(creator: ControllerId, taskId: nat, waveId: Option<nat>)
  datatype Resources = Resources(worktreePath: Option<nat>, eventStream: nat)
  datatype DecisionGate = NoGate | Gated(correlationId: CorrelationId, pausedAt: Time)
  /** A worker's usage budget. `content` stands for its measurement, remaining quota and enforcement state. */
  datatype Budget = Budget(declaration: nat, revision: nat, content: nat)
  datatype BudgetRequest =
    | DeclareBudget(declaration: nat, reason: nat)
    | ObserveUsage(observation: nat)
    | AdjustBudget(expectedRevision: nat, change: nat)
    | EnforceBudget(expectedRevision: nat, target: nat)

  /** What the measurement and threshold rules make of a request. */
  datatype BudgetVerdict = Invalid | Unchanged | Changes(declaration: nat, content: nat)

  datatype Subject = Subject(
    kind: SubjectKind,
    origin: Origin,
    lifecycle: Lifecycle,
    resources: Resources,
    lease: Lease,
    gate: DecisionGate,
    updatedAt: Time,
    budget: Option<Budget>)

  datatype Connection = Connected | Disconnected
  datatype Session = Session(sessionId: nat, generation: nat)
  datatype Liveness = Liveness(controller: Controller, state: Connection, observedAt: Time, session: Option<Session>)

  datatype EventKind = EXCEPTION | PROGRESS | CHECKPOINT | RISK | DECISION_REQUEST

  /** Report content. `Merged` stands for what `mergeProgress` builds from two progress reports. */
  datatype Payload = Report(text: nat) | Merged(previous: Payload, latest: Payload)
  datatype WorkerEvent = WorkerEvent(
    eventId: EventId,
    sequence: nat,
    workerId: SubjectId,
    taskId: nat,
    waveId: Option<nat>,
    leaseVersion: nat,
    kind: EventKind,
    severity: nat,
    interventionRequired: bool,
    payload: Payload,
    correlation: Option<CorrelationId>)

  datatype EventState = Open | Superseded | Acknowledged | Answered | Closed

  /** `submission` is the event as submitted: it stands for the stored hash of it, taken as injective. */
  datatype StoredEvent = StoredEvent(
    event: WorkerEvent,
    ordinal: nat,
    receivedAt: Time,
    submission: WorkerEvent,
    state: EventState,
    supersededBy: Option<EventId>,
    resolvedAt: Option<Time>,
    resolvedBy: Option<Controller>)

  predicate IsPinned(e: StoredEvent) {
    e.event.kind.EXCEPTION? || e.event.kind.DECISION_REQUEST? || e.event.interventionRequired
  }

  predicate IsUnresolved(e: StoredEvent) { IsPinned(e) && e.state.Open? }

  datatype Summary = Summary(unresolvedCount: int, lastOrdinal: nat)

  datatype CheckpointMode = NonBlocking | BlockingGate
  datatype CheckpointKey = CheckpointKey(workerId: SubjectId, correlationId: CorrelationId)
  datatype CheckpointState = Pending | AnsweredBy(eventId: EventId, answeredAt: Time)

  /** `requestedBy`, `content` and `mode` are exactly what the stored request hash covers. */
  datatype Checkpoint = Checkpoint(
    key: CheckpointKey,
    leaseVersion: nat,
    requestedBy: Controller,
    content: nat,
    mode: CheckpointMode,
    state: CheckpointState,
    requestedAt: Time)

  datatype HandoffId = Chosen(id: nat) | Generated(call: nat)
  datatype ManifestEntry = ManifestEntry(
    workerId: SubjectId,
    taskId: nat,
    waveId: Option<nat>,
    name: Option<nat>,
    worktreePath: Option<nat>,
    lifecycle: Lifecycle,
    priorController: Option<ControllerId>)

  /** `acknowledgedAt` is present exactly for a handoff that is no longer pending. */
  datatype Handoff = Handoff(
    recipient: Controller,
    recipientSession: nat,
    issuedBy: Controller,
    directive: nat,
    manifest: seq<ManifestEntry>,
    issuedAt: Time,
    acknowledgedAt: Option<Time>)

  datatype OutcomeCode =
    | ACQUIRED | ALREADY_CONTROLLED | LEASE_CONFLICT | ORPHANED | NOT_ELIGIBLE
    | WORKER_TERMINAL | OWNERSHIP_LOST | RELEASED | TRANSFERRED
  datatype Outcome = Outcome(
    code: OutcomeCode,
    leaseVersion: nat,
    leaseToken: Option<Token>,
    currentController: Option<Controller>,
    leaseExpiresAt: Time)

  datatype AuthCode = AuthOwnershipLost | AuthTokenInvalid | AuthLeaseExpired
  datatype Rejection =
    | EventIdCollision | SubjectUnknown | TaskIdentityMismatch | NotAuthorized(auth: AuthCode)
    | RateLimited | SequenceOutOfOrder | QueueLimitExceeded | CorrelationInvalid

  /** An accepted event's `gap` is the expected sequence when the submitted one jumped past it. */
  datatype Ack =
    | Accepted(eventId: EventId, sequence: nat, gap: Option<nat>, superseded: Option<EventId>)
    | Duplicate(eventId: EventId, sequence: nat)
    | Stale(eventId: EventId, sequence: nat, expected: nat)
    | Rejected(eventId: EventId, reason: Rejection)

  datatype Result =
    | Ownership(outcomes: map<SubjectId, Outcome>)
    | Batch(committed: bool, outcomes: map<SubjectId, Outcome>, handoff: Option<(HandoffId, Handoff)>)
    | EventResult(ack: Ack)
    | CheckpointResult(checkpoint: Checkpoint)
    | BudgetResult(subjectId: SubjectId, budget: Budget, changed: bool)

  datatype Operation =
    | OpRegister | OpAcquire | OpRenew | OpRelease | OpTransfer | OpAdopt | OpHandoff | OpExpire
    | OpLifecycle | OpLiveness | OpSubmit | OpResolve | OpCheckpoint
    | OpBudgetDeclare | OpBudgetObserve | OpBudgetAdjust | OpBudgetEnforce

  /** The request hash stored with a receipt; most operations store none. */
  datatype RequestKey =
    | Unkeyed
    | RegisterKey(subjectId: SubjectId, budget: Option<nat>)
    | BudgetKey(subjectId: SubjectId, request: BudgetRequest)
    | HandoffKey(actor: Controller, recipient: Controller, session: nat, directive: nat,
                 members: seq<SubjectId>, handoffId: Option<nat>)
  datatype Receipt = Receipt(operation: Operation, requestKey: RequestKey, result: Result)

  datatype Fault =
    | SubjectNotFound | MutationIdCollision | ImmutableOriginMismatch | DuplicateMember
    | InvalidHandoff | HandoffNotFound | EventNotFound | CheckpointIdentityCollision
    | AuthenticationFailed(auth: AuthCode) | AppendFailed
    | BudgetUnsupportedSubject | BudgetAlreadyDeclared | BudgetNotDeclared | BudgetRevisionConflict | BudgetRejected

  /** Most calls return a result, recorded with their receipt; a repair returns the subject as projected, an
      acknowledgement the named records. */
  datatype Response =
    | Thrown(fault: Fault)
    | Returned(result: Result, replay: bool)
    | Projected(subject: Subject)
    | Records(handoffs: map<HandoffId, Handoff>)

  /** Service options. */
  datatype Config = Config(
    leaseDuration: nat,
    grace: nat,
    rateLimit: nat,
    rateWindow: nat,
    maxQueued: nat,
    maxPage: nat)
}
