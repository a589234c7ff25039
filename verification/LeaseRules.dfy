/** The lease rules in the times and tokens the service stores, apart from how the decisions compute them: who holds a
    lease, when it runs out, what a reader is shown, and which credential a call is let in with. */
module LeaseRules {
  import opened Finite
  import opened CoordinationTypes
  import opened CoordinationState
  import opened LeasePlans

  ghost predicate IsRunning(l: Lifecycle) { l == Queued || l == Launching || l == Working || l == Waiting }

  /** Somebody is recorded as holding the lease, whether or not it still counts. */
  ghost predicate HasHolder(l: Lease) { (l.state == Active || l.state == Contested) && l.controller != None }

  /** The broker saw the controller disconnect at least the grace period ago. */
  ghost predicate IsDead(cfg: Config, m: Memory, c: ControllerId, now: Time) {
    c in m.liveness && m.liveness[c].state == Disconnected && m.liveness[c].observedAt + cfg.grace <= now
  }

  /** The broker manages a session of the controller, which needs no calls to stay alive. */
  ghost predicate IsManaged(m: Memory, c: ControllerId) { c in m.liveness && m.liveness[c].session != None }

  /** A held lease runs out when its holder is dead or, unless the broker manages a session of the holder, at its deadline. */
  ghost predicate RunsOut(cfg: Config, m: Memory, s: Subject, now: Time) {
    HasHolder(s.lease) &&
    var c := s.lease.controller.value.controllerId;
    IsDead(cfg, m, c, now) || (!IsManaged(m, c) && s.lease.expiresAt <= now)
  }

  /** Somebody holds the lease and it has not run out. */
  ghost predicate IsHeld(cfg: Config, m: Memory, s: Subject, now: Time) { HasHolder(s.lease) && !RunsOut(cfg, m, s, now) }

  /** The lease ended without anyone giving it up. */
  ghost predicate IsAbandoned(cfg: Config, m: Memory, s: Subject, now: Time) {
    s.lease.state == Orphaned || s.lease.state == Expired || RunsOut(cfg, m, s, now)
  }

  lemma ExpiredIsRunOut(cfg: Config, m: Memory, s: Subject, now: Time)
    ensures IsExpired(cfg, m, s, now) <==> RunsOut(cfg, m, s, now)
  {}

  // ---- what a reader is shown ----------------------------------------------------------------

  /** A managed session has no deadline of its own: a living one always has the full duration ahead, a dead one the grace. */
  ghost function DeadlineShown(cfg: Config, m: Memory, s: Subject, now: Time): Time {
    if HasHolder(s.lease) && IsManaged(m, s.lease.controller.value.controllerId) then
      var seen := m.liveness[s.lease.controller.value.controllerId];
      if seen.state == Connected then now + cfg.leaseDuration else seen.observedAt + cfg.grace
    else s.lease.expiresAt
  }

  /** `p` is `s` as it stands at `now`: a lease that ran out is orphaned without a token, any other differs in the deadline only. */
  ghost predicate IsShown(cfg: Config, m: Memory, s: Subject, p: Subject, now: Time) {
    var deadline := DeadlineShown(cfg, m, s, now);
    if RunsOut(cfg, m, s, now)
    then p == s.(lease := s.lease.(state := Orphaned, tokenHash := None, orphanedAt := Some(now), contestedBy := None,
                                   expiresAt := deadline), updatedAt := now)
    else p == s.(lease := s.lease.(expiresAt := deadline))
  }

  lemma CopyIsShown(cfg: Config, m: Memory, s: Subject, now: Time)
    ensures IsShown(cfg, m, s, ExpiredCopy(cfg, m, s, now), now)
  {}

  /** Looking changes nothing: what is shown of a shown subject is the subject shown, at the same time. */
  lemma ShownIsSettled(cfg: Config, m: Memory, s: Subject, p: Subject, q: Subject, now: Time)
    requires IsShown(cfg, m, s, p, now) && IsShown(cfg, m, p, q, now)
    ensures p == q && !RunsOut(cfg, m, p, now) && (HasHolder(p.lease) <==> IsHeld(cfg, m, s, now))
  {}

  // ---- who is let in -------------------------------------------------------------------------

  /** Why a call is turned away, read off the stored subject; None lets it in. */
  ghost function AuthAnswer(cfg: Config, m: Memory, s: Subject, c: Controller, token: Token, version: Option<nat>, now: Time)
    : Option<AuthCode>
  {
    if RunsOut(cfg, m, s, now) || s.lease.state == Orphaned then Some(AuthLeaseExpired)
    else if !(HasHolder(s.lease) && s.lease.controller.value.controllerId == c.controllerId) then Some(AuthOwnershipLost)
    else if version != None && version != Some(s.lease.version) then Some(AuthOwnershipLost)
    else if s.lease.tokenHash != Some(Sha256(token)) then Some(AuthTokenInvalid)
    else None
  }

  lemma AuthIsAnswered(cfg: Config, m: Memory, s: Subject, c: Controller, token: Token, version: Option<nat>, now: Time)
    ensures AuthCodeOf(cfg, m, ExpiredCopy(cfg, m, s, now), c, token, version, now) == AuthAnswer(cfg, m, s, c, token, version, now)
    ensures AuthCodeOf(cfg, m, ExpiredCopy(cfg, m, s, now), c, token, Some(ExpiredCopy(cfg, m, s, now).lease.version), now)
      == AuthAnswer(cfg, m, s, c, token, None, now)
  {}

  // ---- what a call leaves of a lease ---------------------------------------------------------

  /** The next generation: one version up, held by `c` from now on for the full duration under `token`. */
  ghost predicate IsHandedOver(cfg: Config, was: Subject, post: Subject, c: Controller, token: Token, now: Time) {
    post == was.(updatedAt := now,
                 lease := Lease(was.lease.version + 1, Active, Some(c), Some(Sha256(token)), now, now, now + cfg.leaseDuration,
                                None, None, None))
  }

  /** The same generation for another full duration, uncontested. */
  ghost predicate IsRenewed(cfg: Config, was: Subject, post: Subject, now: Time) {
    post == was.(updatedAt := now,
                 lease := was.lease.(state := Active, renewedAt := now, expiresAt := now + cfg.leaseDuration, contestedBy := None))
  }

  /** A call by `c` was heard: it counts as a sign of life unless the broker manages a session of `c`. */
  ghost predicate IsHeard(m: Memory, m': Memory, c: Controller, now: Time) {
    m'.liveness == if IsManaged(m, c.controllerId) then m.liveness
                   else m.liveness[c.controllerId := Liveness(c, Connected, now, None)]
  }

  lemma HeartbeatIsHeard(m: Memory, m': Memory, c: Controller, now: Time)
    requires m'.liveness == m.liveness + ConnectedObservation(m, c, now)
    ensures IsHeard(m, m', c, now)
  {}

  /** An outcome tells how the subject stands. */
  ghost predicate Tells(o: Outcome, code: OutcomeCode, s: Subject, token: Option<Token>) {
    o == Outcome(code, s.lease.version, token, s.lease.controller, s.lease.expiresAt)
  }

  // ---- who is selected -----------------------------------------------------------------------

  /** A selector names one subject, the subjects of a task and a wave, or what an absent controller left behind. */
  ghost predicate IsNamed(cfg: Config, m: Memory, sel: Selector, now: Time, x: SubjectId)
    requires x in m.subjects
  {
    var s := m.subjects[x];
    match sel
    case Single(y) => y == x
    case Group(task, wave) => (task == None || task == Some(s.origin.taskId)) && (wave == None || wave == s.origin.waveId)
    case InactiveController(c) =>
      && s.lease.controller != None && s.lease.controller.value.controllerId == c
      && (IsDead(cfg, m, c, now) || ((s.lease.state == Orphaned || s.lease.state == Expired) && s.lease.expiresAt <= now))
  }

  lemma SelectedAreNamed(cfg: Config, m: Memory, sel: Selector, now: Time)
    ensures forall x :: x in Selected(cfg, m, sel, now) <==> x in m.subjects && IsNamed(cfg, m, sel, now, x)
  {}

  /** What is selected as an absent controller's is held by nobody any more: no credential is let in for it. */
  lemma AbsentOwnersHoldNothing(cfg: Config, m: Memory, c: ControllerId, now: Time, x: SubjectId, d: Controller, token: Token,
                                version: Option<nat>)
    requires x in Selected(cfg, m, InactiveController(c), now)
    ensures !IsHeld(cfg, m, m.subjects[x], now)
    ensures AuthCodeOf(cfg, m, ExpiredCopy(cfg, m, m.subjects[x], now), d, token, version, now).Some?
  {
    SelectedAreNamed(cfg, m, InactiveController(c), now);
    AuthIsAnswered(cfg, m, m.subjects[x], d, token, version, now);
  }
}
