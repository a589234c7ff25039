/** Decision gates and checkpoints: a gate always waits for a pending request, and an answer is final. */
module DecisionGates {
  import opened Finite
  import opened CoordinationTypes
  import opened LeaseLiveness
  import opened CoordinationState
  import opened LeasePlans
  import opened BatchPlans
  import opened EventPlans
  import opened BudgetPlans
  import opened CoordinationMachine
  import opened LogRefinement
  import opened EventQueue
  import opened EventRuns

  ghost predicate PendingGate(checkpoints: map<CheckpointKey, Checkpoint>, k: CheckpointKey) {
    k in checkpoints && checkpoints[k].state.Pending? && checkpoints[k].mode.BlockingGate?
  }

  /** A subject gated on a correlation has a pending decision-gate request under it. */
  ghost predicate GateFits(x: SubjectId, gate: DecisionGate, checkpoints: map<CheckpointKey, Checkpoint>) {
    gate.Gated? ==> PendingGate(checkpoints, CheckpointKey(x, gate.correlationId))
  }

  /** An answered request names a stored CHECKPOINT event of that worker carrying that correlation. */
  ghost predicate AnswerFits(k: CheckpointKey, c: Checkpoint, events: Events) {
    && c.key == k
    && (c.state.AnsweredBy? ==>
          && c.state.eventId in events
          && events[c.state.eventId].event.kind.CHECKPOINT?
          && events[c.state.eventId].event.workerId == k.workerId
          && events[c.state.eventId].event.correlation == Some(k.correlationId))
  }

  ghost predicate GatesSound(m: Memory) {
    && (forall x :: x in m.subjects ==> GateFits(x, m.subjects[x].gate, m.checkpoints))
    && (forall k :: k in m.checkpoints ==> AnswerFits(k, m.checkpoints[k], m.events))
  }

  /** What one transaction may do to gates and requests, given memory before it. */
  ghost predicate SubjectGate(m: Memory, tx: Transaction, x: SubjectId, post: Subject) {
    || post.gate == NoGate
    || (x in m.subjects && post.gate == m.subjects[x].gate
        && CheckpointKey(x, post.gate.correlationId) !in tx.checkpoints)
    || (post.gate.Gated? && PendingGate(tx.checkpoints, CheckpointKey(x, post.gate.correlationId)))
  }

  ghost predicate CheckpointStep(m: Memory, tx: Transaction, k: CheckpointKey, post: Checkpoint) {
    if k !in m.checkpoints then post.state.Pending? && post.key == k
    else
      && m.checkpoints[k].state.Pending? && post.state.AnsweredBy?
      && post == m.checkpoints[k].(state := post.state)
      && k.workerId in tx.subjects
      && AnswerFits(k, post, StoreAll(m.events, tx.events))
  }

  ghost predicate GateStep(m: Memory, tx: Transaction) {
    && (forall x :: x in tx.subjects ==> SubjectGate(m, tx, x, tx.subjects[x]))
    && (forall k :: k in tx.checkpoints ==> CheckpointStep(m, tx, k, tx.checkpoints[k]))
  }

  ghost predicate PlanGates(m: Memory, plan: Plan) { plan.tx.Some? ==> GateStep(m, plan.tx.value) }

  // ---- operations that leave gates alone -----------------------------------------------------

  ghost predicate KeepsGate(m: Memory, x: SubjectId, post: Subject) {
    if x in m.subjects then post.gate == m.subjects[x].gate else post.gate == NoGate
  }

  ghost predicate KeepsGates(m: Memory, changes: map<SubjectId, Subject>) {
    forall x :: x in changes ==> KeepsGate(m, x, changes[x])
  }

  lemma KeptGatesStep(m: Memory, tx: Transaction)
    requires KeepsGates(m, tx.subjects) && tx.checkpoints == map[]
    ensures GateStep(m, tx)
  {
    forall x | x in tx.subjects ensures SubjectGate(m, tx, x, tx.subjects[x]) { assert KeepsGate(m, x, tx.subjects[x]); }
  }

  lemma {:induction false} AdoptKeepsGates(cfg: Config, m: Memory, members: seq<AdoptMember>, c: Controller, now: Time,
                                           call: nat,
                                           n: nat)
    requires n <= |members| && AllKnown(m, members)
    ensures KeepsGates(m, SubjectsOf(AdoptGranted(cfg, m, members, c, now, call, n)))
  {
    if n > 0 {
      AdoptKeepsGates(cfg, m, members, c, now, call, n - 1);
      var x := members[n - 1].subjectId;
      var granted := AdoptGranted(cfg, m, members, c, now, call, n);
      assert SubjectsOf(granted) == SubjectsOf(AdoptGranted(cfg, m, members, c, now, call, n - 1))[x := granted[x].subject];
    }
  }

  lemma {:induction false} HandoffKeepsGates(cfg: Config, m: Memory, r: HandoffRequest, now: Time, call: nat, n: nat)
    requires n <= |r.members| && AllPresentable(m, r.members)
    ensures KeepsGates(m, SubjectsOf(HandoffGranted(cfg, m, r, now, call, n)))
  {
    if n > 0 {
      HandoffKeepsGates(cfg, m, r, now, call, n - 1);
      var x := r.members[n - 1].subjectId;
      assert IsPresentable(m, r.members[n - 1]);
      var granted := HandoffGranted(cfg, m, r, now, call, n);
      assert SubjectsOf(granted) == SubjectsOf(HandoffGranted(cfg, m, r, now, call, n - 1))[x := granted[x].subject];
    }
  }

  ghost predicate PlanKeepsGates(m: Memory, plan: Plan) {
    plan.tx.Some? ==> KeepsGates(m, plan.tx.value.subjects) && plan.tx.value.checkpoints == map[]
  }

  lemma BatchesKeepGates(cfg: Config, m: Memory, op: Call, now: Time, call: nat)
    requires op.AdoptBatch? || op.HandoffBatch?
    ensures PlanKeepsGates(m, PlanOf(cfg, m, op, now, call))
  {
    hide KeepsGates, AdoptGranted, HandoffGranted, AdoptAborted, HandoffAborted, ManifestOf, PlanRegister, PlanTake, PlanUse,
      PlanObserve, PlanExpire, PlanSubmit, PlanResolve, PlanCheckpoint;
    assert KeepsGates(m, map[]) by { NoneKeepsGates(m); }
    match op
    case AdoptBatch(id, c, members) =>
      if AdoptFault(m, members, 0).None? {
        NoAdoptFaultMeansKnown(m, members, 0);
        AdoptKeepsGates(cfg, m, members, c, now, call, |members|);
      }
    case HandoffBatch(id, r) =>
      if HandoffFault(m, r.members, 0).None? {
        NoHandoffFaultMeansPresentable(m, r.members, 0);
        HandoffKeepsGates(cfg, m, r, now, call, |r.members|);
      }
  }

  lemma NoneKeepsGates(m: Memory)
    ensures KeepsGates(m, map[])
  {}

  lemma SelectionsKeepGates(cfg: Config, m: Memory, op: Call, now: Time, call: nat)
    requires op.Take? || op.Use?
    ensures PlanKeepsGates(m, PlanOf(cfg, m, op, now, call))
  {
    hide PlanAdoptBatch, PlanHandoff, PlanSubmit, PlanCheckpoint, PlanRegister, PlanResolve, PlanAcknowledge, PlanReconcile,
      PlanObserve, PlanExpire, AuthCodeOf;
  }

  lemma RecordsKeepGates(cfg: Config, m: Memory, op: Call, now: Time, call: nat)
    requires op.Register? || op.ResolveEvent? || op.AcknowledgeHandoffs? || op.ReconcileLifecycle? || op.MutateBudget?
    ensures PlanKeepsGates(m, PlanOf(cfg, m, op, now, call))
  {
    hide PlanAdoptBatch, PlanHandoff, PlanSubmit, PlanCheckpoint, PlanTake, PlanUse, PlanObserve, PlanExpire, AuthCodeOf;
  }

  lemma ObservationsKeepGates(cfg: Config, m: Memory, op: Call, now: Time, call: nat)
    requires op.ObserveLiveness? || op.ExpireLeases?
    ensures PlanKeepsGates(m, PlanOf(cfg, m, op, now, call))
  {
    hide PlanAdoptBatch, PlanHandoff, PlanSubmit, PlanCheckpoint, PlanRegister, PlanTake, PlanUse, PlanResolve,
      PlanAcknowledge, PlanReconcile;
  }

  lemma CopiesKeepGate(cfg: Config, m: Memory, s: Subject, now: Time)
    ensures ExpiredCopy(cfg, m, s, now).gate == s.gate
    ensures Renewed(cfg, ExpiredCopy(cfg, m, s, now), now).gate == s.gate
  {}

  // ---- submissions and requests --------------------------------------------------------------

  /** What a submission commits: nothing about subjects, the projected lease, or an accepted event. */
  lemma SubmitCommits(cfg: Config, m: Memory, id: MutationId, c: Controller, token: Token, e: WorkerEvent, now: Time)
    ensures var plan := PlanSubmit(cfg, m, id, c, token, e, now);
      plan.tx.Some? ==>
        || (plan.tx.value.checkpoints == map[] && plan.tx.value.subjects == map[])
        || (e.workerId in m.subjects && plan.tx.value.checkpoints == map[]
            && plan.tx.value.subjects == map[e.workerId := ExpiredCopy(cfg, m, m.subjects[e.workerId], now)])
        || (e.workerId in m.subjects && plan == PlanAccept(cfg, m, id, c, e, now))
  {
    hide PlanAccept, AuthCodeOf, ExpiredCopy, LastSequence, ReceivedAfter, IsCopied;
  }

  lemma SubmitGates(cfg: Config, m: Memory, id: MutationId, c: Controller, token: Token, e: WorkerEvent, now: Time)
    requires GatesSound(m)
    ensures PlanGates(m, PlanSubmit(cfg, m, id, c, token, e, now))
  {
    hide PlanSubmit, PlanAccept, ExpiredCopy, GatesSound, GateStep;
    var plan := PlanSubmit(cfg, m, id, c, token, e, now);
    SubmitCommits(cfg, m, id, c, token, e, now);
    if e.workerId in m.subjects { CopiesKeepGate(cfg, m, m.subjects[e.workerId], now); }
    if plan.tx.Some? {
      if plan.tx.value.checkpoints == map[] && KeepsGates(m, plan.tx.value.subjects) {
        KeptGatesStep(m, plan.tx.value);
      } else {
        AcceptGates(cfg, m, id, c, e, now);
      }
    }
  }

  lemma AcceptGates(cfg: Config, m: Memory, id: MutationId, c: Controller, e: WorkerEvent, now: Time)
    requires GatesSound(m) && e.workerId in m.subjects
    ensures PlanGates(m, PlanAccept(cfg, m, id, c, e, now))
  {
    hide QueueingOf, ClosedEvents, StoredOf, LastSequence, ExpiredCopy, Renewed, GatesSound, GateStep;
    CopiesKeepGate(cfg, m, m.subjects[e.workerId], now);
    var plan := PlanAccept(cfg, m, id, c, e, now);
    if plan.tx.Some? {
      if e.correlation.None? || !AnswersPending(m, e) {
        KeptGatesStep(m, plan.tx.value);
      } else {
        AnswerGates(cfg, m, id, c, e, now);
      }
    }
  }

  lemma AnswerGates(cfg: Config, m: Memory, id: MutationId, c: Controller, e: WorkerEvent, now: Time)
    requires GatesSound(m) && e.workerId in m.subjects && e.correlation.Some? && AnswersPending(m, e)
    ensures PlanGates(m, PlanAccept(cfg, m, id, c, e, now))
  {
    hide QueueingOf, ClosedEvents, LastSequence, StoreAll, ExpiredCopy, Renewed;
    CopiesKeepGate(cfg, m, m.subjects[e.workerId], now);
    var key := CheckpointKey(e.workerId, e.correlation.value);
    var q := QueueingOf(cfg, m.events, e);
    LastStored(m.events, ClosedEvents(m.events, q, e, m.nextOrdinal, now), StoredOf(m.events, q, e, m.nextOrdinal, now));
    assert GateFits(e.workerId, m.subjects[e.workerId].gate, m.checkpoints);
    assert AnswerFits(key, m.checkpoints[key], m.events);
  }

  lemma {:induction false} LastStored(events: Events, changes: seq<StoredEvent>, last: StoredEvent)
    ensures last.event.eventId in StoreAll(events, changes + [last])
    ensures StoreAll(events, changes + [last])[last.event.eventId] == last
    decreases |changes|
  {
    if changes == [] {
      assert changes + [last] == [last];
      StoreOne(events, last);
    } else {
      assert (changes + [last])[1..] == changes[1..] + [last];
      LastStored(events[changes[0].event.eventId := changes[0]], changes[1..], last);
    }
  }

  /** A new request leaves the gate as it was or, if it is a decision gate, pauses the worker on it. */
  lemma OpenedGates(m: Memory, tx: Transaction, w: SubjectId, post: Subject, asked: Checkpoint)
    requires GatesSound(m) && w in m.subjects && asked.key !in m.checkpoints && asked.key.workerId == w && asked.state.Pending?
    requires tx.subjects == map[w := post] && tx.checkpoints == map[asked.key := asked]
    requires post.gate == m.subjects[w].gate || (asked.mode.BlockingGate? && post.gate.Gated? && post.gate.correlationId == asked.key.correlationId)
    ensures GateStep(m, tx)
  {
    hide StoreAll, AnswerFits;
    assert GateFits(w, m.subjects[w].gate, m.checkpoints);
  }

  lemma CheckpointGates(cfg: Config, m: Memory, id: MutationId, c: Controller, token: Token, r: CheckpointRequest, now: Time)
    requires GatesSound(m)
    ensures PlanGates(m, PlanCheckpoint(cfg, m, id, c, token, r, now))
  {
    hide AuthCodeOf, ExpiredCopy, Renewed, GatesSound, GateStep, ConnectedObservation;
    var w := r.key.workerId;
    var plan := PlanCheckpoint(cfg, m, id, c, token, r, now);
    if plan.tx.Some? {
      CopiesKeepGate(cfg, m, m.subjects[w], now);
      if r.key !in plan.tx.value.checkpoints {
        KeptGatesStep(m, plan.tx.value);
      } else {
        OpenedGates(m, plan.tx.value, w, plan.tx.value.subjects[w], plan.tx.value.checkpoints[r.key]);
      }
    }
  }

  lemma EveryCallGates(cfg: Config, m: Memory, op: Call, now: Time, call: nat)
    requires GatesSound(m)
    ensures PlanGates(m, PlanOf(cfg, m, op, now, call))
  {
    hide GatesSound, GateStep, KeepsGates, PlanRegister, PlanTake, PlanUse, PlanAdoptBatch, PlanHandoff, PlanObserve,
      PlanExpire,
      PlanSubmit, PlanResolve, PlanCheckpoint, PlanBudget, PlanAcknowledge, PlanReconcile;
    var plan := PlanOf(cfg, m, op, now, call);
    if op.SubmitEvent? {
      SubmitGates(cfg, m, op.id, op.controller, op.token, op.event, now);
    } else if op.RequestCheckpoint? {
      CheckpointGates(cfg, m, op.id, op.controller, op.token, op.checkpoint, now);
    } else {
      if op.AdoptBatch? || op.HandoffBatch? { BatchesKeepGates(cfg, m, op, now, call); }
      else if op.Take? || op.Use? { SelectionsKeepGates(cfg, m, op, now, call); }
      else if op.ObserveLiveness? || op.ExpireLeases? { ObservationsKeepGates(cfg, m, op, now, call); }
      else { RecordsKeepGates(cfg, m, op, now, call); }
      if plan.tx.Some? { KeptGatesStep(m, plan.tx.value); }
    }
  }

  // ---- runs ----------------------------------------------------------------------------------

  /** An answered request is frozen: it stays as it is for good. A pending one may only be answered. */
  ghost predicate AnswersFinal(m: Memory, m': Memory) {
    forall k :: k in m.checkpoints ==>
      && k in m'.checkpoints
      && (m.checkpoints[k].state.AnsweredBy? ==> m'.checkpoints[k] == m.checkpoints[k])
      && m'.checkpoints[k] == m.checkpoints[k].(state := m'.checkpoints[k].state)
  }

  ghost predicate SystemGates(cfg: Config, s: System) { QueuesSound(cfg, s) && GatesSound(s.memory) }

  /** Memory after `tx`, as far as gates are concerned. */
  ghost predicate Committed(m: Memory, tx: Transaction, m': Memory) {
    && m'.subjects == m.subjects + tx.subjects && m'.checkpoints == m.checkpoints + tx.checkpoints
    && m'.events == StoreAll(m.events, tx.events)
  }

  lemma AnswersHold(m: Memory, tx: Transaction, m': Memory)
    requires GatesSound(m) && GateStep(m, tx) && Advances(m.events, m'.events) && Committed(m, tx, m')
    ensures forall k :: k in m'.checkpoints ==> AnswerFits(k, m'.checkpoints[k], m'.events)
    ensures AnswersFinal(m, m')
  {
    hide StoreAll, SubjectGate, GateFits;
    forall k | k in m'.checkpoints ensures AnswerFits(k, m'.checkpoints[k], m'.events) {
      if k in tx.checkpoints { assert CheckpointStep(m, tx, k, tx.checkpoints[k]); }
      else { assert AnswerFits(k, m.checkpoints[k], m.events); }
    }
  }

  lemma GateHolds(m: Memory, tx: Transaction, m': Memory, x: SubjectId)
    requires GatesSound(m) && GateStep(m, tx) && Committed(m, tx, m')
    requires x in m'.subjects
    ensures GateFits(x, m'.subjects[x].gate, m'.checkpoints)
  {
    hide StoreAll, AnswerFits;
    var gate := m'.subjects[x].gate;
    if gate.Gated? {
      var k := CheckpointKey(x, gate.correlationId);
      if x in m.subjects { assert GateFits(x, m.subjects[x].gate, m.checkpoints); }
      if x in tx.subjects { assert SubjectGate(m, tx, x, tx.subjects[x]); }
    }
  }

  lemma TransactionKeepsGates(m: Memory, tx: Transaction, m': Memory)
    requires GatesSound(m) && GateStep(m, tx) && Advances(m.events, m'.events) && Committed(m, tx, m')
    ensures GatesSound(m') && AnswersFinal(m, m')
  {
    hide StoreAll, GateStep, GateFits, AnswerFits, Advances, Committed;
    AnswersHold(m, tx, m');
    forall x | x in m'.subjects ensures GateFits(x, m'.subjects[x].gate, m'.checkpoints) { GateHolds(m, tx, m', x); }
  }

  lemma ExecuteKeepsGates(cfg: Config, s: System, plan: Plan, now: Time, stored: bool)
    requires SystemGates(cfg, s) && s.clock <= now && PlanChange(cfg, s.memory, plan, now) && PlanGates(s.memory, plan)
    ensures SystemGates(cfg, Execute(s, plan, now, stored))
    ensures AnswersFinal(s.memory, Execute(s, plan, now, stored).memory)
  {
    hide QueuesSound, StoreAll, IndexAll, PlanChange, GateStep, Advances, GateFits, AnswerFits;
    ExecuteKeepsQueues(cfg, s, plan, now, stored);
    if plan.tx.Some? && stored {
      TransactionKeepsGates(s.memory, plan.tx.value, Execute(s, plan, now, stored).memory);
    }
  }

  lemma StepKeepsGates(cfg: Config, s: System, a: Action)
    requires SystemGates(cfg, s)
    ensures SystemGates(cfg, Step(cfg, s, a)) && AnswersFinal(s.memory, Step(cfg, s, a).memory)
  {
    hide PlanOf, Execute, Recover, LogAgrees, EventsSound, SummariesExact, GateFits, AnswerFits, PlanChange;
    StepKeepsQueues(cfg, s, a);
    if a.Invoke? {
      OrdinalsRelax(cfg, s.memory.events, s.memory.nextOrdinal, s.memory.nextOrdinal, s.clock, s.clock + a.elapsed);
      EveryCallChangesEvents(cfg, s.memory, a.op, s.clock + a.elapsed, s.calls);
      EveryCallGates(cfg, s.memory, a.op, s.clock + a.elapsed, s.calls);
      ExecuteKeepsGates(cfg, s, PlanAt(cfg, s, a.op, a.elapsed), s.clock + a.elapsed, a.stored);
    } else {
      RestartKeepsDurable(cfg, s);
    }
  }

  lemma AnswersFinalComposes(m: Memory, m': Memory, m'': Memory)
    requires AnswersFinal(m, m') && AnswersFinal(m', m'')
    ensures AnswersFinal(m, m'')
  {}

  /** Decision-gate consistency over every run: gates wait for pending requests, each request is answered at
      most once and by a stored CHECKPOINT event of its worker, and an answer is never taken back. */
  lemma {:induction false} GatesStaySound(cfg: Config, s: System, actions: seq<Action>)
    requires SystemGates(cfg, s)
    ensures SystemGates(cfg, Run(cfg, s, actions)) && AnswersFinal(s.memory, Run(cfg, s, actions).memory)
    decreases |actions|
  {
    hide Step, SystemGates, AnswersFinal;
    if actions != [] {
      var s' := Step(cfg, s, actions[0]);
      StepKeepsGates(cfg, s, actions[0]);
      GatesStaySound(cfg, s', actions[1..]);
      AnswersFinalComposes(s.memory, s'.memory, Run(cfg, s', actions[1..]).memory);
    } else {
      NothingAnswered(s.memory);
    }
  }

  lemma NothingAnswered(m: Memory)
    ensures AnswersFinal(m, m)
  {}

  /** The same from an empty log, with whatever was answered by then still answered the same way later on. */
  lemma ReachableGates(cfg: Config, actions: seq<Action>, later: seq<Action>)
    ensures var s := Run(cfg, INITIAL, actions);
      var s' := Run(cfg, s, later);
      GatesSound(s.memory) && GatesSound(s'.memory) && AnswersFinal(s.memory, s'.memory)
  {
    hide Run, Step, QueuesSound, GatesSound, AnswersFinal;
    InitialGates(cfg);
    GatesStaySound(cfg, INITIAL, actions);
    GatesStaySound(cfg, Run(cfg, INITIAL, actions), later);
  }

  lemma InitialGates(cfg: Config)
    ensures SystemGates(cfg, INITIAL)
  {
    hide QueuesSound;
    InitialQueues(cfg);
  }
}
