/** Fencing: what every call may do to a lease, and what that means for a token over whole runs. */
module Fencing {
  import opened Finite
  import opened CoordinationTypes
  import opened CoordinationState
  import opened LeasePlans
  import opened BatchPlans
  import opened EventPlans
  import opened BudgetPlans
  import opened CoordinationMachine

  /** A token hash is stored exactly while someone controls the lease. */
  ghost predicate LeaseWellFormed(l: Lease) {
    && l.version >= 1
    && (l.tokenHash.Some? <==> l.state.Active? || l.state.Contested?)
    && (l.tokenHash.Some? ==> l.controller.Some?)
  }

  /** The same lease generation: nothing about authority changes, except that it may end. */
  ghost predicate Keeps(pre: Lease, post: Lease) {
    && LeaseWellFormed(post)
    && post.version == pre.version && post.controller == pre.controller
    && (post.tokenHash == None || post.tokenHash == pre.tokenHash)
  }

  /** The next lease generation, under a token drawn by this very call. */
  ghost predicate Grants(pre: Lease, post: Lease, drawn: Token) {
    && LeaseWellFormed(post)
    && post.version == pre.version + 1
    && post.tokenHash == Some(Sha256(drawn))
  }

  ghost predicate SubjectStep(m: Memory, x: SubjectId, post: Subject, call: nat) {
    if x in m.subjects then
      var pre := m.subjects[x];
      && post.kind == pre.kind && post.origin == pre.origin && post.resources == pre.resources
      && (Keeps(pre.lease, post.lease) || Grants(pre.lease, post.lease, Issued(call, x)))
    else
      && LeaseWellFormed(post.lease)
      && (post.lease.tokenHash == None || post.lease.tokenHash == Some(Sha256(Issued(call, x))))
  }

  ghost predicate Fenced(m: Memory, changes: map<SubjectId, Subject>, call: nat) {
    forall x :: x in changes ==> SubjectStep(m, x, changes[x], call)
  }

  ghost predicate PlanFenced(m: Memory, plan: Plan, call: nat) {
    plan.tx.Some? ==> Fenced(m, plan.tx.value.subjects, call)
  }

  ghost predicate LeasesWellFormed(m: Memory) {
    forall x :: x in m.subjects ==> LeaseWellFormed(m.subjects[x].lease)
  }

  // ---- every operation is fenced -------------------------------------------------------------

  lemma ProjectionKeeps(cfg: Config, m: Memory, s: Subject, now: Time)
    requires LeaseWellFormed(s.lease)
    ensures Keeps(s.lease, ExpiredCopy(cfg, m, s, now).lease)
  {}

  lemma TakeOneSteps(cfg: Config, m: Memory, taking: Taking, actor: Controller, c: Controller, x: SubjectId, now: Time,
                     call: nat)
    requires x in m.subjects && LeaseWellFormed(m.subjects[x].lease)
    ensures SubjectStep(m, x, TakeOne(cfg, taking, actor, c, x, ExpiredCopy(cfg, m, m.subjects[x], now), now, call).subject, call)
  {
    ProjectionKeeps(cfg, m, m.subjects[x], now);
  }

  lemma TakeFenced(cfg: Config, m: Memory, id: MutationId, taking: Taking, actor: Controller, sel: Selector, c: Controller,
                   now: Time, call: nat)
    requires LeasesWellFormed(m)
    ensures PlanFenced(m, PlanTake(cfg, m, id, taking, actor, sel, c, now, call), call)
  {
    forall x | x in Selected(cfg, m, sel, now) { TakeOneSteps(cfg, m, taking, actor, c, x, now, call); }
  }

  lemma UseOneSteps(cfg: Config, m: Memory, using: Using, cr: Credential, x: SubjectId, now: Time, call: nat)
    requires x in m.subjects && LeaseWellFormed(m.subjects[x].lease)
    ensures SubjectStep(m, x, UseOne(cfg, m, using, cr, x, ExpiredCopy(cfg, m, m.subjects[x], now), now, call).subject, call)
  {
    ProjectionKeeps(cfg, m, m.subjects[x], now);
  }

  lemma UseFenced(cfg: Config, m: Memory, id: MutationId, using: Using, sel: Selector, cr: Credential, now: Time, call: nat)
    requires LeasesWellFormed(m)
    ensures PlanFenced(m, PlanUse(cfg, m, id, using, sel, cr, now, call), call)
  {
    forall x | x in Selected(cfg, m, sel, now) { UseOneSteps(cfg, m, using, cr, x, now, call); }
  }

  lemma AdoptOneSteps(cfg: Config, m: Memory, x: SubjectId, c: Controller, now: Time, call: nat)
    requires LeasesWellFormed(m) && x in m.subjects
    ensures SubjectStep(m, x, WithNewController(cfg, ExpiredCopy(cfg, m, m.subjects[x], now), x, c, now, call), call)
  {
    ProjectionKeeps(cfg, m, m.subjects[x], now);
  }

  lemma {:induction false} AdoptGrantedFenced(cfg: Config, m: Memory, members: seq<AdoptMember>, c: Controller, now: Time,
                                              call: nat, n: nat)
    requires LeasesWellFormed(m) && n <= |members| && AllKnown(m, members)
    ensures Fenced(m, SubjectsOf(AdoptGranted(cfg, m, members, c, now, call, n)), call)
  {
    hide WithNewController, ExpiredCopy, SubjectStep, LeasesWellFormed;
    if n > 0 {
      AdoptGrantedFenced(cfg, m, members, c, now, call, n - 1);
      var x := members[n - 1].subjectId;
      AdoptOneSteps(cfg, m, x, c, now, call);
      var granted := AdoptGranted(cfg, m, members, c, now, call, n);
      assert SubjectsOf(granted) == SubjectsOf(AdoptGranted(cfg, m, members, c, now, call, n - 1))[x := granted[x].subject];
    }
  }

  lemma AdoptBatchFenced(cfg: Config, m: Memory, id: MutationId, c: Controller, members: seq<AdoptMember>, now: Time, call: nat)
    requires LeasesWellFormed(m)
    ensures PlanFenced(m, PlanAdoptBatch(cfg, m, id, c, members, now, call), call)
  {
    if AdoptFault(m, members, 0).None? {
      NoAdoptFaultMeansKnown(m, members, 0);
      AdoptGrantedFenced(cfg, m, members, c, now, call, |members|);
    }
  }

  lemma HandOverSteps(cfg: Config, m: Memory, r: HandoffRequest, i: nat, now: Time, call: nat)
    requires LeasesWellFormed(m) && i < |r.members| && IsPresentable(m, r.members[i])
    ensures SubjectStep(m, r.members[i].subjectId, HandOver(cfg, m, r, i, now, call).subject, call)
  {
    var x := r.members[i].subjectId;
    if x in m.subjects { ProjectionKeeps(cfg, m, m.subjects[x], now); }
  }

  lemma {:induction false} HandoffGrantedFenced(cfg: Config, m: Memory, r: HandoffRequest, now: Time, call: nat, n: nat)
    requires LeasesWellFormed(m) && n <= |r.members| && AllPresentable(m, r.members)
    ensures Fenced(m, SubjectsOf(HandoffGranted(cfg, m, r, now, call, n)), call)
  {
    hide HandOver, SubjectStep, LeasesWellFormed;
    if n > 0 {
      HandoffGrantedFenced(cfg, m, r, now, call, n - 1);
      var x := r.members[n - 1].subjectId;
      HandOverSteps(cfg, m, r, n - 1, now, call);
      var granted := HandoffGranted(cfg, m, r, now, call, n);
      assert SubjectsOf(granted) == SubjectsOf(HandoffGranted(cfg, m, r, now, call, n - 1))[x := granted[x].subject];
    }
  }

  lemma HandoffFenced(cfg: Config, m: Memory, id: MutationId, r: HandoffRequest, now: Time, call: nat)
    requires LeasesWellFormed(m)
    ensures PlanFenced(m, PlanHandoff(cfg, m, id, r, now, call), call)
  {
    if HandoffFault(m, r.members, 0).None? {
      NoHandoffFaultMeansPresentable(m, r.members, 0);
      HandoffGrantedFenced(cfg, m, r, now, call, |r.members|);
    }
  }

  lemma ObserveFenced(cfg: Config, m: Memory, id: MutationId, c: Controller, state: Connection, session: Option<Session>,
                      now: Time, call: nat)
    requires LeasesWellFormed(m)
    ensures PlanFenced(m, PlanObserve(cfg, m, id, c, state, session, now), call)
  {
    forall x | x in HeldBy(m, c.controllerId)
      ensures SubjectStep(m, x, BeforeObservation(cfg, m, m.subjects[x], session, now), call)
    {
      ProjectionKeeps(cfg, m, m.subjects[x], now);
    }
  }

  lemma ExpireFenced(cfg: Config, m: Memory, id: MutationId, now: Time, call: nat)
    requires LeasesWellFormed(m)
    ensures PlanFenced(m, PlanExpire(cfg, m, id, now), call)
  {}

  /** A subject the caller authenticated for is renewed in the same generation. */
  lemma RenewalKeeps(cfg: Config, m: Memory, s: Subject, c: Controller, token: Token, version: Option<nat>, now: Time)
    requires LeaseWellFormed(s.lease)
    requires AuthCodeOf(cfg, m, ExpiredCopy(cfg, m, s, now), c, token, version, now).None?
    ensures Keeps(s.lease, Renewed(cfg, ExpiredCopy(cfg, m, s, now), now).lease)
  {
    ProjectionKeeps(cfg, m, s, now);
  }

  lemma SubmitFenced(cfg: Config, m: Memory, id: MutationId, c: Controller, token: Token, e: WorkerEvent, now: Time, call: nat)
    requires LeasesWellFormed(m)
    ensures PlanFenced(m, PlanSubmit(cfg, m, id, c, token, e, now), call)
  {
    if e.workerId in m.subjects {
      var s := m.subjects[e.workerId];
      ProjectionKeeps(cfg, m, s, now);
      if AuthCodeOf(cfg, m, ExpiredCopy(cfg, m, s, now), c, token, Some(e.leaseVersion), now).None? {
        RenewalKeeps(cfg, m, s, c, token, Some(e.leaseVersion), now);
      }
    }
  }

  lemma ResolveFenced(cfg: Config, m: Memory, id: MutationId, c: Controller, token: Token, e: EventId, r: Resolution, now: Time,
                      call: nat)
    requires LeasesWellFormed(m)
    ensures PlanFenced(m, PlanResolve(cfg, m, id, c, token, e, r, now), call)
  {
    if e in m.events && m.events[e].event.workerId in m.subjects {
      var s := m.subjects[m.events[e].event.workerId];
      var version := Some(ExpiredCopy(cfg, m, s, now).lease.version);
      ProjectionKeeps(cfg, m, s, now);
      if AuthCodeOf(cfg, m, ExpiredCopy(cfg, m, s, now), c, token, version, now).None? {
        RenewalKeeps(cfg, m, s, c, token, version, now);
      }
    }
  }

  lemma CheckpointFenced(cfg: Config, m: Memory, id: MutationId, c: Controller, token: Token, r: CheckpointRequest, now: Time,
                         call: nat)
    requires LeasesWellFormed(m)
    ensures PlanFenced(m, PlanCheckpoint(cfg, m, id, c, token, r, now), call)
  {
    if r.key.workerId in m.subjects {
      var s := m.subjects[r.key.workerId];
      var version := Some(ExpiredCopy(cfg, m, s, now).lease.version);
      ProjectionKeeps(cfg, m, s, now);
      if AuthCodeOf(cfg, m, ExpiredCopy(cfg, m, s, now), c, token, version, now).None? {
        RenewalKeeps(cfg, m, s, c, token, version, now);
      }
    }
  }

  lemma RegisterFenced(cfg: Config, m: Memory, id: MutationId, x: SubjectId, r: Registration, c: Option<Controller>,
                       budget: Option<nat>, now: Time, call: nat)
    requires LeasesWellFormed(m)
    ensures PlanFenced(m, PlanRegister(cfg, m, id, x, r, c, budget, now, call), call)
  {}

  lemma BudgetFenced(m: Memory, id: MutationId, x: SubjectId, request: BudgetRequest, verdict: BudgetVerdict, now: Time,
                     call: nat)
    requires LeasesWellFormed(m)
    ensures PlanFenced(m, PlanBudget(m, id, x, request, verdict, now), call)
  {}

  lemma ReconcileFenced(cfg: Config, m: Memory, x: SubjectId, l: Lifecycle, now: Time, call: nat)
    requires LeasesWellFormed(m)
    ensures PlanFenced(m, PlanReconcile(cfg, m, x, l, now), call)
  {}

  /** No operation changes a lease otherwise than by keeping its generation or granting the next. */
  lemma EveryCallIsFenced(cfg: Config, m: Memory, op: Call, now: Time, call: nat)
    requires LeasesWellFormed(m)
    ensures PlanFenced(m, PlanOf(cfg, m, op, now, call), call)
  {
    hide PlanRegister, PlanTake, PlanUse, PlanAdoptBatch, PlanHandoff, PlanObserve, PlanExpire, PlanSubmit, PlanResolve,
      PlanCheckpoint, PlanBudget, LeasesWellFormed, SubjectStep;
    match op
    case Register(id, x, r, c, budget) => RegisterFenced(cfg, m, id, x, r, c, budget, now, call);
    case Take(id, taking, actor, sel, c) => TakeFenced(cfg, m, id, taking, actor, sel, c, now, call);
    case Use(id, using, sel, cr) => UseFenced(cfg, m, id, using, sel, cr, now, call);
    case AdoptBatch(id, c, members) => AdoptBatchFenced(cfg, m, id, c, members, now, call);
    case HandoffBatch(id, r) => HandoffFenced(cfg, m, id, r, now, call);
    case AcknowledgeHandoffs(_, _) =>
    case ObserveLiveness(id, c, state, session) => ObserveFenced(cfg, m, id, c, state, session, now, call);
    case ExpireLeases(id) => ExpireFenced(cfg, m, id, now, call);
    case ReconcileLifecycle(x, l) => ReconcileFenced(cfg, m, x, l, now, call);
    case SubmitEvent(id, c, token, e) => SubmitFenced(cfg, m, id, c, token, e, now, call);
    case ResolveEvent(id, c, token, e, r) => ResolveFenced(cfg, m, id, c, token, e, r, now, call);
    case RequestCheckpoint(id, c, token, r) => CheckpointFenced(cfg, m, id, c, token, r, now, call);
    case MutateBudget(id, x, request, verdict) => BudgetFenced(m, id, x, request, verdict, now, call);
  }
}
