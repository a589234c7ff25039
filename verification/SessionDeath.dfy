/** A broker-observed session death cannot be overridden by client calls, and a late reconnect revives nothing. */
module SessionDeath {
  import opened Finite
  import opened CoordinationTypes
  import opened LeaseLiveness
  import opened CoordinationState
  import opened LeasePlans
  import opened LeaseRules
  import opened BatchPlans
  import opened EventPlans
  import opened CoordinationMachine
  import opened LogRefinement
  import opened FencingRuns

  ghost predicate SessionObserved(m: Memory, c: ControllerId) { IsSession(Observation(m, c)) }

  ghost predicate ObservesController(a: Action, c: ControllerId) {
    a.Invoke? && a.op.ObserveLiveness? && a.op.controller.controllerId == c
  }

  /** Outside liveness observations of `c`, a plan leaves a session observation of `c` as it is. */
  ghost predicate LeavesObservation(m: Memory, plan: Plan, c: ControllerId) {
    plan.tx.Some? && c in plan.tx.value.liveness ==> c in m.liveness && plan.tx.value.liveness[c] == m.liveness[c]
  }

  lemma CallsLeaveSessions(cfg: Config, m: Memory, op: Call, now: Time, call: nat, c: ControllerId)
    requires SessionObserved(m, c)
    requires !(op.ObserveLiveness? && op.controller.controllerId == c)
    ensures LeavesObservation(m, PlanOf(cfg, m, op, now, call), c)
  {
    hide ExpiredCopy, AuthCodeOf, TakeAll, UseAll, AdoptGranted, HandoffGranted, AdoptAborted, HandoffAborted,
      Selected, OrphanAll, ManifestOf, QueueingOf, LastSequence, ReceivedAfter, ClosedEvents, StoredOf;
  }

  lemma ExecuteLeavesSessions(s: System, plan: Plan, now: Time, stored: bool, c: ControllerId)
    requires LeavesObservation(s.memory, plan, c)
    ensures Observation(Execute(s, plan, now, stored).memory, c) == Observation(s.memory, c)
  {
    hide StoreAll, IndexAll;
  }

  lemma StepLeavesSessions(cfg: Config, s: System, a: Action, c: ControllerId)
    requires LogAgrees(s) && SessionObserved(s.memory, c) && !ObservesController(a, c)
    ensures Observation(Step(cfg, s, a).memory, c) == Observation(s.memory, c)
  {
    hide PlanOf, Execute, Recover, Replay;
    if a.Invoke? {
      CallsLeaveSessions(cfg, s.memory, a.op, s.clock + a.elapsed, s.calls, c);
      ExecuteLeavesSessions(s, PlanAt(cfg, s, a.op, a.elapsed), s.clock + a.elapsed, a.stored, c);
    } else {
      RestartKeepsDurable(cfg, s);
    }
  }

  lemma {:induction false} SessionsOutliveCalls(cfg: Config, s: System, actions: seq<Action>, c: ControllerId)
    requires LogAgrees(s) && SessionObserved(s.memory, c)
    requires forall i :: 0 <= i < |actions| ==> !ObservesController(actions[i], c)
    ensures Observation(Run(cfg, s, actions).memory, c) == Observation(s.memory, c)
    decreases |actions|
  {
    hide Step;
    if actions != [] {
      StepLeavesSessions(cfg, s, actions[0], c);
      StepKeepsLog(cfg, s, actions[0]);
      SessionsOutliveCalls(cfg, Step(cfg, s, actions[0]), actions[1..], c);
    }
  }

  /** The broker saw the session of `c` disconnect at time `at`, and nothing of `c` since. */
  ghost predicate SessionLost(m: Memory, c: ControllerId, at: Time) {
    c in m.liveness && m.liveness[c].session != None && m.liveness[c].state == Disconnected && m.liveness[c].observedAt == at
  }

  /** Session death beats client calls: once the session of `c` is observed disconnected, no run of
      calls, acquisitions, handoffs, failed appends or restarts lets a call by `c` authenticate for any
      subject past the grace period, unless the broker observes `c` anew. */
  lemma SessionDeathBeatsCalls(cfg: Config, s: System, actions: seq<Action>, c: Controller, at: Time, x: SubjectId,
                               token: Token, version: Option<nat>, now: Time)
    requires LogAgrees(s) && SessionLost(s.memory, c.controllerId, at) && now >= at + cfg.grace
    requires forall i :: 0 <= i < |actions| ==> !ObservesController(actions[i], c.controllerId)
    ensures !Authenticates(cfg, Run(cfg, s, actions).memory, x, c, token, version, now)
  {
    hide Run, Step, Authenticates;
    SessionsOutliveCalls(cfg, s, actions, c.controllerId);
    AuthenticatesExactly(cfg, Run(cfg, s, actions).memory, x, c, token, version, now);
  }

  /** The other half: whoever then still holds a lease keeps acting with its stored token up to, and not including, the
      end of the grace period, whatever deadline the lease was stored with. */
  lemma GraceIsHonoured(cfg: Config, s: System, actions: seq<Action>, c: Controller, at: Time, x: SubjectId, token: Token,
                        now: Time)
    requires LogAgrees(s) && SessionLost(s.memory, c.controllerId, at)
    requires forall i :: 0 <= i < |actions| ==> !ObservesController(actions[i], c.controllerId)
    requires var m := Run(cfg, s, actions).memory;
      HoldsToken(m, x, token) && HasHolder(m.subjects[x].lease) && m.subjects[x].lease.controller.value.controllerId == c.controllerId
    ensures Authenticates(cfg, Run(cfg, s, actions).memory, x, c, token, None, now) <==> now < at + cfg.grace
  {
    hide Run, Step, Authenticates;
    SessionsOutliveCalls(cfg, s, actions, c.controllerId);
    AuthenticatesExactly(cfg, Run(cfg, s, actions).memory, x, c, token, None, now);
  }

  /** A session observed connected keeps its leases at any time, with no call in between. */
  lemma LivingSessionActs(cfg: Config, s: System, actions: seq<Action>, c: Controller, x: SubjectId, token: Token, now: Time)
    requires LogAgrees(s) && SessionObserved(s.memory, c.controllerId) && s.memory.liveness[c.controllerId].state == Connected
    requires forall i :: 0 <= i < |actions| ==> !ObservesController(actions[i], c.controllerId)
    requires var m := Run(cfg, s, actions).memory;
      HoldsToken(m, x, token) && HasHolder(m.subjects[x].lease) && m.subjects[x].lease.controller.value.controllerId == c.controllerId
    ensures Authenticates(cfg, Run(cfg, s, actions).memory, x, c, token, None, now)
  {
    hide Run, Step, Authenticates;
    SessionsOutliveCalls(cfg, s, actions, c.controllerId);
    AuthenticatesExactly(cfg, Run(cfg, s, actions).memory, x, c, token, None, now);
  }

  /** `c` is recorded as holding the lease of `x`. */
  ghost predicate IsHolder(m: Memory, c: ControllerId, x: SubjectId) {
    x in m.subjects && HasHolder(m.subjects[x].lease) && m.subjects[x].lease.controller.value.controllerId == c
  }

  ghost predicate IsOrphanedAt(m: Memory, x: SubjectId, version: nat) {
    && x in m.subjects && m.subjects[x].lease.version == version
    && m.subjects[x].lease.state.Orphaned? && m.subjects[x].lease.tokenHash == None
  }

  lemma LateObservationPlan(cfg: Config, m: Memory, id: MutationId, c: Controller, at: Time, state: Connection,
                            session: Option<Session>, now: Time, x: SubjectId)
    requires id !in m.receipts && SessionLost(m, c.controllerId, at) && now >= at + cfg.grace
    requires IsHolder(m, c.controllerId, x)
    ensures var plan := PlanObserve(cfg, m, id, c, state, session, now);
      && plan.tx.Some? && x in plan.tx.value.subjects
      && plan.tx.value.subjects[x].lease.state.Orphaned? && plan.tx.value.subjects[x].lease.tokenHash == None
      && plan.tx.value.subjects[x].lease.version == m.subjects[x].lease.version
  {}

  /** An observation of `c` made after the grace period (a reconnect included) persists every lease `c`
      still controlled as orphaned, without a token. */
  lemma LateObservationOrphans(cfg: Config, s: System, id: MutationId, c: Controller, at: Time, state: Connection,
                               session: Option<Session>, elapsed: nat, x: SubjectId)
    requires id !in s.memory.receipts && SessionLost(s.memory, c.controllerId, at) && s.clock + elapsed >= at + cfg.grace
    requires IsHolder(s.memory, c.controllerId, x)
    ensures IsOrphanedAt(Step(cfg, s, Invoke(ObserveLiveness(id, c, state, session), elapsed, true)).memory, x,
                         s.memory.subjects[x].lease.version)
  {
    hide StoreAll, IndexAll, PlanObserve;
    LateObservationPlan(cfg, s.memory, id, c, at, state, session, s.clock + elapsed, x);
  }

  /** So the token a dead session held at the late observation never authenticates again. */
  lemma LateReconnectRevivesNothing(cfg: Config, s: System, id: MutationId, c: Controller, at: Time, state: Connection,
                                    session: Option<Session>, elapsed: nat, later: seq<Action>, x: SubjectId, token: Token,
                                    d: Controller, version: Option<nat>, now: Time)
    requires LeasesSound(s) && id !in s.memory.receipts
    requires SessionLost(s.memory, c.controllerId, at) && s.clock + elapsed >= at + cfg.grace
    requires IsHolder(s.memory, c.controllerId, x) && HoldsToken(s.memory, x, token)
    ensures var s' := Step(cfg, s, Invoke(ObserveLiveness(id, c, state, session), elapsed, true));
      !Authenticates(cfg, Run(cfg, s', later).memory, x, d, token, version, now)
  {
    hide Run, Step, Authenticates;
    var a := Invoke(ObserveLiveness(id, c, state, session), elapsed, true);
    LateObservationOrphans(cfg, s, id, c, at, state, session, elapsed, x);
    StepKeepsLeases(cfg, s, a);
    RetiredTokenStaysRetired(cfg, Step(cfg, s, a), later, x, d, token, version, now);
  }

  /** What an observation leaves of a lease that had run out unwritten: nothing, unless it names the first session. */
  lemma ObservationLeaves(cfg: Config, m: Memory, id: MutationId, c: Controller, state: Connection, session: Option<Session>,
                          now: Time, x: SubjectId)
    requires id !in m.receipts && IsHolder(m, c.controllerId, x) && RunsOut(cfg, m, m.subjects[x], now)
    ensures var plan := PlanObserve(cfg, m, id, c, state, session, now);
      && plan.tx.Some? && plan.tx.value.liveness == map[c.controllerId := Liveness(c, state, now, session)]
      && (if session.Some? && !SessionObserved(m, c.controllerId) then x !in plan.tx.value.subjects
          else x in plan.tx.value.subjects && plan.tx.value.subjects[x].lease.state.Orphaned?)
  {}

  ghost predicate Observed(m: Memory, plan: Plan, m': Memory) {
    && plan.tx.Some? && m'.subjects == m.subjects + plan.tx.value.subjects && m'.liveness == m.liveness + plan.tx.value.liveness
  }

  lemma RevivalInMemory(cfg: Config, m: Memory, id: MutationId, c: Controller, state: Connection, session: Option<Session>,
                        now: Time, x: SubjectId, token: Token, m': Memory)
    requires id !in m.receipts && IsHolder(m, c.controllerId, x) && RunsOut(cfg, m, m.subjects[x], now)
    requires HoldsToken(m, x, token) && Observed(m, PlanObserve(cfg, m, id, c, state, session, now), m')
    ensures Authenticates(cfg, m', x, c, token, None, now)
      <==> session.Some? && !SessionObserved(m, c.controllerId) && (state.Connected? || cfg.grace > 0)
  {
    hide PlanObserve;
    ObservationLeaves(cfg, m, id, c, state, session, now, x);
  }

  /** Expiry that nobody wrote down can be undone, and exactly so: an observation of the controller revives a
      lease that had run out if and only if it brings the first session observation of that controller, and that
      observation is not itself past its grace. */
  lemma ObservationRevivesIff(cfg: Config, s: System, id: MutationId, c: Controller, state: Connection,
                              session: Option<Session>,
                              elapsed: nat, x: SubjectId, token: Token)
    requires id !in s.memory.receipts && IsHolder(s.memory, c.controllerId, x) && HoldsToken(s.memory, x, token)
    requires RunsOut(cfg, s.memory, s.memory.subjects[x], s.clock + elapsed)
    ensures var s' := Step(cfg, s, Invoke(ObserveLiveness(id, c, state, session), elapsed, true));
      var revives := session.Some? && !SessionObserved(s.memory, c.controllerId) && (state.Connected? || cfg.grace > 0);
      Authenticates(cfg, s'.memory, x, c, token, None, s.clock + elapsed) <==> revives
  {
    hide PlanObserve, StoreAll, IndexAll, Authenticates, RunsOut, IsHolder;
    var now := s.clock + elapsed;
    ObservationLeaves(cfg, s.memory, id, c, state, session, now, x);
    var s' := Step(cfg, s, Invoke(ObserveLiveness(id, c, state, session), elapsed, true));
    RevivalInMemory(cfg, s.memory, id, c, state, session, now, x, token, s'.memory);
  }
}
