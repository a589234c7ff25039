/** What the lease calls achieve and answer, subject by subject and in full: who gets a lease and under what, who is turned
    away and why, what is written of a lease nobody got, and whose call counted as a sign of life. */
module LeaseOutcomes {
  import opened Finite
  import opened CoordinationTypes
  import opened CoordinationState
  import opened LeasePlans
  import opened LeaseRules
  import opened CoordinationMachine
  import opened FencingRuns
  import opened CallOutcomes

  /** The new record and the outcome of every selected subject, and nothing of any other. */
  ghost predicate Answers(plan: Plan, outcomes: map<SubjectId, Outcome>) {
    plan.tx.Some? && plan.response == Returned(Ownership(outcomes), false)
  }

  lemma MutatedAnswers(s: System, id: MutationId, operation: Operation, mutated: map<SubjectId, Mutated>, heard: bool,
                       c: Controller, now: Time)
    requires mutated.Keys <= s.memory.subjects.Keys
    ensures var plan := PlanMutated(s.memory, id, operation, mutated, heard, c, now);
      var m' := After(s, plan, now);
      && Answers(plan, OutcomesOf(mutated)) && OnlyLeases(s.memory, m') && m'.subjects.Keys == s.memory.subjects.Keys
      && (forall x :: x in mutated ==> m'.subjects[x] == mutated[x].subject)
      && (forall x :: x in s.memory.subjects && x !in mutated ==> m'.subjects[x] == s.memory.subjects[x])
      && (if heard then IsHeard(s.memory, m', c, now) else m'.liveness == s.memory.liveness)
  {
    hide After, ConnectedObservation, IsHeard, Receipted;
    var plan := PlanMutated(s.memory, id, operation, mutated, heard, c, now);
    AfterLeases(s, id, operation, Ownership(OutcomesOf(mutated)), SubjectsOf(mutated),
                if heard then ConnectedObservation(s.memory, c, now) else map[], now);
    if heard { HeartbeatIsHeard(s.memory, After(s, plan, now), c, now); }
  }

  // ---- taking a lease ------------------------------------------------------------------------

  /** What acquire or adopt answers for a lease. */
  ghost function TakeVerdict(cfg: Config, m: Memory, taking: Taking, c: Controller, s: Subject, now: Time): OutcomeCode {
    if !IsRunning(s.lifecycle) then WORKER_TERMINAL
    else if IsHeld(cfg, m, s, now) then
      if taking.Acquiring? && s.lease.controller.value.controllerId == c.controllerId then ALREADY_CONTROLLED else LEASE_CONFLICT
    else if taking.Adopting? <==> IsAbandoned(cfg, m, s, now) then ACQUIRED
    else NOT_ELIGIBLE
  }

  /** Acquiring refreshes one's own lease or takes a released one; adopting takes an abandoned one. */
  ghost predicate CanTake(cfg: Config, m: Memory, taking: Taking, c: Controller, s: Subject, now: Time) {
    && IsRunning(s.lifecycle)
    && if IsHeld(cfg, m, s, now) then taking.Acquiring? && s.lease.controller.value.controllerId == c.controllerId
       else taking.Adopting? <==> IsAbandoned(cfg, m, s, now)
  }

  /** What is left of a lease somebody tried to take: the next generation for the taker; a lease contested by the actor
      and otherwise as it was; or the lease as it stands. Only a grant tells a token. */
  ghost predicate TakeLeaves(cfg: Config, m: Memory, taking: Taking, actor: Controller, c: Controller, x: SubjectId, now: Time,
                             call: nat, post: Subject, o: Outcome)
    requires x in m.subjects
  {
    var was := m.subjects[x];
    var verdict := TakeVerdict(cfg, m, taking, c, was, now);
    && (verdict == ACQUIRED || verdict == ALREADY_CONTROLLED ==> IsHandedOver(cfg, was, post, c, Issued(call, x), now))
    && (verdict == LEASE_CONFLICT ==>
          post == was.(updatedAt := now, lease := was.lease.(state := Contested, contestedBy := Some(actor),
                                                             expiresAt := DeadlineShown(cfg, m, was, now))))
    && (verdict == WORKER_TERMINAL || verdict == NOT_ELIGIBLE ==> IsShown(cfg, m, was, post, now))
    && Tells(o, verdict, post, if verdict == ACQUIRED || verdict == ALREADY_CONTROLLED then Some(Issued(call, x)) else None)
  }

  lemma TakeOneLeaves(cfg: Config, m: Memory, taking: Taking, actor: Controller, c: Controller, x: SubjectId, now: Time, call: nat)
    requires x in m.subjects
    ensures var t := TakeOne(cfg, taking, actor, c, x, ExpiredCopy(cfg, m, m.subjects[x], now), now, call);
      TakeLeaves(cfg, m, taking, actor, c, x, now, call, t.subject, t.outcome)
  {
    hide ExpiredCopy;
    CopyIsShown(cfg, m, m.subjects[x], now);
  }

  lemma CanTakeIsGranted(cfg: Config, m: Memory, taking: Taking, c: Controller, s: Subject, now: Time)
    ensures var verdict := TakeVerdict(cfg, m, taking, c, s, now);
      CanTake(cfg, m, taking, c, s, now) <==> verdict == ACQUIRED || verdict == ALREADY_CONTROLLED
  {}

  /** Some named subject can be taken. */
  ghost predicate TakesSomething(cfg: Config, m: Memory, taking: Taking, sel: Selector, c: Controller, now: Time) {
    exists x :: x in m.subjects && IsNamed(cfg, m, sel, now, x) && CanTake(cfg, m, taking, c, m.subjects[x], now)
  }

  lemma TakeMutates(cfg: Config, m: Memory, taking: Taking, actor: Controller, sel: Selector, c: Controller, now: Time, call: nat)
    ensures var mutated := TakeAll(cfg, m, taking, actor, c, Selected(cfg, m, sel, now), now, call);
      && (forall x :: x in mutated <==> x in m.subjects && IsNamed(cfg, m, sel, now, x))
      && (forall x :: x in mutated ==>
            TakeLeaves(cfg, m, taking, actor, c, x, now, call, mutated[x].subject, mutated[x].outcome))
      && (Granted(mutated) <==> TakesSomething(cfg, m, taking, sel, c, now))
  {
    hide TakeOne, CanTake, ExpiredCopy, IsNamed, Selected, TakeVerdict, IsShown, IsHandedOver;
    SelectedAreNamed(cfg, m, sel, now);
    var mutated := TakeAll(cfg, m, taking, actor, c, Selected(cfg, m, sel, now), now, call);
    forall x | x in mutated
      ensures TakeLeaves(cfg, m, taking, actor, c, x, now, call, mutated[x].subject, mutated[x].outcome)
      ensures CanTake(cfg, m, taking, c, m.subjects[x], now)
        <==> mutated[x].outcome.code == ACQUIRED || mutated[x].outcome.code == ALREADY_CONTROLLED
    {
      TakeOneLeaves(cfg, m, taking, actor, c, x, now, call);
      CanTakeIsGranted(cfg, m, taking, c, m.subjects[x], now);
    }
  }

  /** Acquire and adopt in full: every named subject is answered and left as the stored lease demands, every other one is
      untouched, and the call counts as a sign of life of the taker exactly when something was granted. */
  lemma TakeAnswers(cfg: Config, s: System, id: MutationId, taking: Taking, actor: Controller, sel: Selector, c: Controller,
                    now: Time)
    requires id !in s.memory.receipts && (sel.Single? ==> sel.subjectId in s.memory.subjects)
    ensures var plan := PlanTake(cfg, s.memory, id, taking, actor, sel, c, now, s.calls);
      var m, m' := s.memory, After(s, plan, now);
      && plan.response.Returned? && !plan.response.replay && plan.response.result.Ownership?
      && OnlyLeases(m, m') && m'.subjects.Keys == m.subjects.Keys
      && var outcomes := plan.response.result.outcomes;
      && outcomes.Keys <= m.subjects.Keys
      && (forall x :: x in m.subjects ==>
            && (x in outcomes <==> IsNamed(cfg, m, sel, now, x))
            && if x in outcomes then TakeLeaves(cfg, m, taking, actor, c, x, now, s.calls, m'.subjects[x], outcomes[x])
               else m'.subjects[x] == m.subjects[x])
      && (if TakesSomething(cfg, m, taking, sel, c, now) then IsHeard(m, m', c, now) else m'.liveness == m.liveness)
  {
    hide After, TakeAll, Selected, Granted, TakesSomething, TakeLeaves, PlanMutated, IsHeard, IsNamed;
    var m := s.memory;
    SelectedAreNamed(cfg, m, sel, now);
    var mutated := TakeAll(cfg, m, taking, actor, c, Selected(cfg, m, sel, now), now, s.calls);
    TakeMutates(cfg, m, taking, actor, sel, c, now, s.calls);
    MutatedAnswers(s, id, OperationOfTaking(taking), mutated, Granted(mutated), c, now);
  }

  /** A selector that names one unknown subject is refused, by every call that takes one, and nothing changes. */
  lemma UnknownSubjectIsRefused(cfg: Config, m: Memory, id: MutationId, taking: Taking, using: Using, actor: Controller,
                                x: SubjectId, c: Controller, cr: Credential, now: Time, call: nat)
    requires id !in m.receipts && x !in m.subjects
    ensures PlanTake(cfg, m, id, taking, actor, Single(x), c, now, call) == Plan(None, 0, Thrown(SubjectNotFound))
    ensures PlanUse(cfg, m, id, using, Single(x), cr, now, call) == Plan(None, 0, Thrown(SubjectNotFound))
  {}

  /** A lease that `c` holds by a token of call `call`, issued at `now`. */
  ghost predicate IsFreshGrant(cfg: Config, m: Memory, x: SubjectId, c: Controller, call: nat, now: Time) {
    && x in m.subjects && m.subjects[x].lease.state.Active? && m.subjects[x].lease.controller == Some(c)
    && m.subjects[x].lease.tokenHash == Some(Sha256(Issued(call, x)))
    && m.subjects[x].lease.expiresAt == now + cfg.leaseDuration
    && c.controllerId in m.liveness && (IsManaged(m, c.controllerId) || m.liveness[c.controllerId].state == Connected)
  }

  /** A grant made at `since` lasts while the session of its controller is connected, or for the grace after it was seen to
      disconnect; without a session, for the lease duration. */
  ghost predicate GrantLasts(cfg: Config, m: Memory, c: Controller, since: Time, later: Time)
    requires c.controllerId in m.liveness
  {
    var seen := m.liveness[c.controllerId];
    if seen.session == None then later < since + cfg.leaseDuration
    else seen.state == Connected || later < seen.observedAt + cfg.grace
  }

  /** A fresh token works until its session is past grace, or without a session until the lease runs out. */
  lemma FreshGrantAuthenticatesIff(cfg: Config, m: Memory, x: SubjectId, c: Controller, call: nat, now: Time, later: Time)
    requires IsFreshGrant(cfg, m, x, c, call, now)
    ensures Authenticates(cfg, m, x, c, Issued(call, x), Some(m.subjects[x].lease.version), later)
      <==> GrantLasts(cfg, m, c, now, later)
  {
    hide Authenticates;
    AuthenticatesExactly(cfg, m, x, c, Issued(call, x), Some(m.subjects[x].lease.version), later);
  }

  /** What acquire or adopt hands out is usable: the token it issued authenticates from then on for exactly as long
      as the controller's session lives, or as the lease lasts when no session is observed. */
  lemma TakenLeaseIsUsable(cfg: Config, s: System, id: MutationId, taking: Taking, actor: Controller, sel: Selector,
                           c: Controller, now: Time, x: SubjectId, later: Time)
    requires id !in s.memory.receipts && x in s.memory.subjects && IsNamed(cfg, s.memory, sel, now, x)
    requires CanTake(cfg, s.memory, taking, c, s.memory.subjects[x], now)
    ensures var m' := After(s, PlanTake(cfg, s.memory, id, taking, actor, sel, c, now, s.calls), now);
      && x in m'.subjects && c.controllerId in m'.liveness
      && (Authenticates(cfg, m', x, c, Issued(s.calls, x), Some(m'.subjects[x].lease.version), later) <==> GrantLasts(cfg, m', c, now, later))
  {
    hide PlanTake, CanTake, After, Authenticates, GrantLasts, IsNamed, TakeVerdict, OnlyLeases;
    var m' := After(s, PlanTake(cfg, s.memory, id, taking, actor, sel, c, now, s.calls), now);
    NamedIsKnown(cfg, s.memory, sel, now, x);
    TakeAnswers(cfg, s, id, taking, actor, sel, c, now);
    CanTakeIsGranted(cfg, s.memory, taking, c, s.memory.subjects[x], now);
    FreshGrantAuthenticatesIff(cfg, m', x, c, s.calls, now, later);
  }

  lemma NamedIsKnown(cfg: Config, m: Memory, sel: Selector, now: Time, x: SubjectId)
    requires x in m.subjects && IsNamed(cfg, m, sel, now, x)
    ensures sel.Single? ==> sel.subjectId in m.subjects
  {}

  // ---- using a lease -------------------------------------------------------------------------

  /** What renew, release, transfer or a lifecycle report answers for a lease. */
  ghost function UseVerdict(using: Using, auth: Option<AuthCode>): OutcomeCode {
    if auth == Some(AuthLeaseExpired) then ORPHANED
    else if auth != None then OWNERSHIP_LOST
    else if using.Releasing? then RELEASED
    else if using.Transferring? then TRANSFERRED
    else ALREADY_CONTROLLED
  }

  /** The token a credential presents for `x`: the one kept for it, else the common one, else none worth the name. */
  ghost function TokenShown(cr: Credential, x: SubjectId): Token {
    if x in cr.tokens then cr.tokens[x]
    else match cr.token
      case Some(common) => common
      case None => Presented(0)
  }

  /** Whether, and if not why not, a credential is let in for `x`. */
  ghost function AuthFor(cfg: Config, m: Memory, cr: Credential, x: SubjectId, now: Time): Option<AuthCode>
    requires x in m.subjects
  {
    AuthAnswer(cfg, m, m.subjects[x], cr.controller, TokenShown(cr, x), cr.version, now)
  }

  /** What an authenticated call leaves of its subject. */
  ghost predicate Achieves(cfg: Config, m: Memory, using: Using, x: SubjectId, now: Time, call: nat, post: Subject)
    requires x in m.subjects
  {
    var was := m.subjects[x];
    var deadline := DeadlineShown(cfg, m, was, now);
    match using
    case Renewing => IsRenewed(cfg, was, post, now)
    case Releasing =>
      post == was.(updatedAt := now, lease := was.lease.(state := Released, tokenHash := None, releasedAt := Some(now),
                                                         contestedBy := None, expiresAt := deadline))
    case Transferring(d) => IsHandedOver(cfg, was, post, d, Issued(call, x), now)
    case Reporting(l) => post == was.(updatedAt := now, lifecycle := l, lease := was.lease.(expiresAt := deadline))
  }

  ghost predicate UseLeaves(cfg: Config, m: Memory, using: Using, cr: Credential, x: SubjectId, now: Time, call: nat,
                            post: Subject, o: Outcome)
    requires x in m.subjects
  {
    var auth := AuthFor(cfg, m, cr, x, now);
    && (if auth == None then Achieves(cfg, m, using, x, now, call, post) else IsShown(cfg, m, m.subjects[x], post, now))
    && Tells(o, UseVerdict(using, auth), post, if auth == None && using.Transferring? then Some(Issued(call, x)) else None)
  }

  lemma UseOneLeaves(cfg: Config, m: Memory, using: Using, cr: Credential, x: SubjectId, now: Time, call: nat)
    requires x in m.subjects
    ensures var u := UseOne(cfg, m, using, cr, x, ExpiredCopy(cfg, m, m.subjects[x], now), now, call);
      UseLeaves(cfg, m, using, cr, x, now, call, u.subject, u.outcome)
  {
    hide ExpiredCopy, AuthCodeOf;
    var s, token := m.subjects[x], TokenFor(cr, x);
    AuthIsAnswered(cfg, m, s, cr.controller, token, cr.version, now);
    CopyIsShown(cfg, m, s, now);
  }

  /** The credential acts on some named subject. */
  ghost predicate ActsOnSomething(cfg: Config, m: Memory, sel: Selector, cr: Credential, now: Time) {
    exists x :: x in m.subjects && IsNamed(cfg, m, sel, now, x) && AuthFor(cfg, m, cr, x, now) == None
  }

  lemma UseMutates(cfg: Config, m: Memory, using: Using, sel: Selector, cr: Credential, now: Time, call: nat)
    ensures var mutated := UseAll(cfg, m, using, cr, Selected(cfg, m, sel, now), now, call);
      && (forall x :: x in mutated <==> x in m.subjects && IsNamed(cfg, m, sel, now, x))
      && (forall x :: x in mutated ==> UseLeaves(cfg, m, using, cr, x, now, call, mutated[x].subject, mutated[x].outcome))
      && (SomeAuthenticated(mutated) <==> ActsOnSomething(cfg, m, sel, cr, now))
  {
    hide UseOne, ExpiredCopy, IsNamed, Selected, AuthFor, Achieves, IsShown;
    SelectedAreNamed(cfg, m, sel, now);
    var mutated := UseAll(cfg, m, using, cr, Selected(cfg, m, sel, now), now, call);
    forall x | x in mutated
      ensures UseLeaves(cfg, m, using, cr, x, now, call, mutated[x].subject, mutated[x].outcome)
    {
      UseOneLeaves(cfg, m, using, cr, x, now, call);
    }
  }

  /** Authenticated calls in full: a credential acts on a named subject if and only if the stored lease lets it in; else the
      subject is left as it stands and the answer says whether the lease ran out or is another's. Subjects not named are
      untouched, and the call counts as a sign of life exactly when it acted. */
  lemma UseAnswers(cfg: Config, s: System, id: MutationId, using: Using, sel: Selector, cr: Credential, now: Time)
    requires id !in s.memory.receipts && (sel.Single? ==> sel.subjectId in s.memory.subjects)
    ensures var plan := PlanUse(cfg, s.memory, id, using, sel, cr, now, s.calls);
      var m, m' := s.memory, After(s, plan, now);
      && plan.response.Returned? && !plan.response.replay && plan.response.result.Ownership?
      && OnlyLeases(m, m') && m'.subjects.Keys == m.subjects.Keys
      && var outcomes := plan.response.result.outcomes;
      && outcomes.Keys <= m.subjects.Keys
      && (forall x :: x in m.subjects ==>
            && (x in outcomes <==> IsNamed(cfg, m, sel, now, x))
            && if x in outcomes then UseLeaves(cfg, m, using, cr, x, now, s.calls, m'.subjects[x], outcomes[x])
               else m'.subjects[x] == m.subjects[x])
      && (if ActsOnSomething(cfg, m, sel, cr, now) then IsHeard(m, m', cr.controller, now) else m'.liveness == m.liveness)
  {
    hide After, UseAll, Selected, SomeAuthenticated, ActsOnSomething, UseLeaves, PlanMutated, IsHeard, IsNamed;
    var m := s.memory;
    SelectedAreNamed(cfg, m, sel, now);
    var mutated := UseAll(cfg, m, using, cr, Selected(cfg, m, sel, now), now, s.calls);
    UseMutates(cfg, m, using, sel, cr, now, s.calls);
    MutatedAnswers(s, id, OperationOfUsing(using), mutated, SomeAuthenticated(mutated), cr.controller, now);
  }

  // ---- sweeping and observing ----------------------------------------------------------------

  /** The sweep orphans exactly the leases that have run out, and afterwards none has; its answer names those and no others. */
  lemma SweepOrphansExactly(cfg: Config, s: System, id: MutationId, now: Time, x: SubjectId)
    requires id !in s.memory.receipts && x in s.memory.subjects
    ensures var plan := PlanExpire(cfg, s.memory, id, now);
      var m, m' := s.memory, After(s, plan, now);
      && m'.subjects.Keys == m.subjects.Keys && m'.liveness == m.liveness && !RunsOut(cfg, m', m'.subjects[x], now)
      && plan.response.Returned? && plan.response.result.Ownership?
      && var outcomes := plan.response.result.outcomes;
      && (x in outcomes <==> RunsOut(cfg, m, m.subjects[x], now))
      && (if RunsOut(cfg, m, m.subjects[x], now)
          then
            && m'.subjects[x] == m.subjects[x].(updatedAt := now, lease := m.subjects[x].lease.(
                 state := Orphaned, tokenHash := None, orphanedAt := Some(now), contestedBy := None))
            && Tells(outcomes[x], ORPHANED, m'.subjects[x], None)
          else m'.subjects[x] == m.subjects[x])
  {
    hide After, IsExpired, RunsOut;
    var m, m' := s.memory, After(s, PlanExpire(cfg, s.memory, id, now), now);
    AfterIs(s, PlanExpire(cfg, s.memory, id, now), now);
    ExpiredIsRunOut(cfg, m, m.subjects[x], now);
    RunningOutIsLocal(cfg, m, m', m.subjects[x], now);
    if RunsOut(cfg, m, m.subjects[x], now) { OrphansHaveNotRunOut(cfg, m', m'.subjects[x], now); }
  }

  lemma RunningOutIsLocal(cfg: Config, m: Memory, m': Memory, s: Subject, now: Time)
    requires m'.liveness == m.liveness
    ensures RunsOut(cfg, m', s, now) <==> RunsOut(cfg, m, s, now)
  {}

  lemma OrphansHaveNotRunOut(cfg: Config, m: Memory, s: Subject, now: Time)
    requires s.lease.state == Orphaned
    ensures !RunsOut(cfg, m, s, now)
  {}


  /** The subject as the outgoing observation of its holder leaves it: as it stands, unless this is the first session seen. */
  ghost predicate IsJudged(cfg: Config, m: Memory, c: ControllerId, session: Option<Session>, s: Subject, judged: Subject, now: Time) {
    if session != None && !IsManaged(m, c) then judged == s else IsShown(cfg, m, s, judged, now)
  }

  /** What an observation of `c` leaves of a subject of `c`: a lease judged to have run out is written down as such, any other
      stays as stored; the outcome tells how the judged subject stands under the new observation. */
  ghost predicate ObserveLeaves(cfg: Config, m: Memory, m': Memory, c: ControllerId, session: Option<Session>, x: SubjectId,
                                judged: Subject, shown: Subject, now: Time, o: Outcome)
    requires x in m.subjects && x in m'.subjects
  {
    && IsJudged(cfg, m, c, session, m.subjects[x], judged, now)
    && m'.subjects[x] == (if judged.lease.state == Orphaned then judged else m.subjects[x])
    && IsShown(cfg, m', judged, shown, now)
    && Tells(o, if HasHolder(shown.lease) then ALREADY_CONTROLLED else ORPHANED, shown, None)
  }

  ghost predicate IsObserved(cfg: Config, m: Memory, m': Memory, c: ControllerId, session: Option<Session>, x: SubjectId,
                             now: Time, o: Outcome)
    requires x in m.subjects && x in m'.subjects
  {
    exists judged, shown :: ObserveLeaves(cfg, m, m', c, session, x, judged, shown, now, o)
  }

  ghost predicate IsRecordedFor(s: Subject, c: ControllerId) { s.lease.controller != None && s.lease.controller.value.controllerId == c }

  /** An observation in full: it replaces what was seen of the controller, and every subject recorded for the controller is
      judged by the outgoing observation first. */
  lemma ObserveAnswers(cfg: Config, s: System, id: MutationId, c: Controller, state: Connection, session: Option<Session>, now: Time)
    requires id !in s.memory.receipts
    ensures var plan := PlanObserve(cfg, s.memory, id, c, state, session, now);
      var m, m' := s.memory, After(s, plan, now);
      && plan.response.Returned? && !plan.response.replay && plan.response.result.Ownership?
      && OnlyLeases(m, m') && m'.subjects.Keys == m.subjects.Keys
      && m'.liveness == m.liveness[c.controllerId := Liveness(c, state, now, session)]
      && var outcomes := plan.response.result.outcomes;
      && outcomes.Keys <= m.subjects.Keys
      && forall x :: x in m.subjects ==>
           && (x in outcomes <==> IsRecordedFor(m.subjects[x], c.controllerId))
           && if x !in outcomes then m'.subjects[x] == m.subjects[x]
              else IsObserved(cfg, m, m', c.controllerId, session, x, now, outcomes[x])
  {
    hide After, Receipted, Judged, ObserveOutcomes, OrphanedAmong, IsObserved, IsRecordedFor;
    var plan := PlanObserve(cfg, s.memory, id, c, state, session, now);
    var m, m' := s.memory, After(s, plan, now);
    var judged := Judged(cfg, m, c, session, now);
    var entry := Liveness(c, state, now, session);
    AfterLeases(s, id, OpLiveness, Ownership(ObserveOutcomes(cfg, entry, judged, now)), OrphanedAmong(judged),
                map[c.controllerId := entry], now);
    ObserveAllLeaves(cfg, m, m', c, state, session, now);
  }

  lemma ObserveAllLeaves(cfg: Config, m: Memory, m': Memory, c: Controller, state: Connection, session: Option<Session>, now: Time)
    requires m'.subjects == m.subjects + OrphanedAmong(Judged(cfg, m, c, session, now))
    requires m'.liveness == m.liveness[c.controllerId := Liveness(c, state, now, session)]
    ensures var outcomes := ObserveOutcomes(cfg, Liveness(c, state, now, session), Judged(cfg, m, c, session, now), now);
      && m'.subjects.Keys == m.subjects.Keys && outcomes.Keys <= m.subjects.Keys
      && forall x :: x in m.subjects ==>
           && (x in outcomes <==> IsRecordedFor(m.subjects[x], c.controllerId))
           && if x !in outcomes then m'.subjects[x] == m.subjects[x]
              else IsObserved(cfg, m, m', c.controllerId, session, x, now, outcomes[x])
  {
    hide BeforeObservation, ObserveOutcome, IsObserved;
    forall x | x in Judged(cfg, m, c, session, now)
      ensures IsObserved(cfg, m, m', c.controllerId, session, x, now,
                         ObserveOutcomes(cfg, Liveness(c, state, now, session), Judged(cfg, m, c, session, now), now)[x])
    {
      ObserveOneLeaves(cfg, m, m', c, state, session, now, x);
    }
  }

  lemma ObserveOneLeaves(cfg: Config, m: Memory, m': Memory, c: Controller, state: Connection, session: Option<Session>,
                         now: Time, x: SubjectId)
    requires x in m.subjects && x in m'.subjects && IsRecordedFor(m.subjects[x], c.controllerId)
    requires m'.liveness == m.liveness[c.controllerId := Liveness(c, state, now, session)]
    requires var judged := BeforeObservation(cfg, m, m.subjects[x], session, now);
      m'.subjects[x] == (if judged.lease.state == Orphaned then judged else m.subjects[x])
    ensures IsObserved(cfg, m, m', c.controllerId, session, x, now,
                       ObserveOutcome(cfg, Liveness(c, state, now, session),
                                      BeforeObservation(cfg, m, m.subjects[x], session, now), now))
  {
    var was := m.subjects[x];
    var judged := BeforeObservation(cfg, m, was, session, now);
    CopyIsShown(cfg, m, was, now);
    CopyIsShown(cfg, m', judged, now);
    assert ObserveLeaves(cfg, m, m', c.controllerId, session, x, judged, ExpiredCopy(cfg, m', judged, now), now,
                         ObserveOutcome(cfg, Liveness(c, state, now, session), judged, now));
  }
}
