/** What fencing adds up to over whole runs: versions only grow, and a retired token stays retired. */
module FencingRuns {
  import opened Finite
  import opened CoordinationTypes
  import opened CoordinationState
  import opened LeasePlans
  import opened LeaseRules
  import opened CoordinationMachine
  import opened LogRefinement
  import opened Fencing

  /** Every stored token was drawn for its own subject by an earlier call. */
  ghost predicate TokensDrawn(s: System) {
    forall x :: x in s.memory.subjects && s.memory.subjects[x].lease.tokenHash.Some? ==>
      var t := s.memory.subjects[x].lease.tokenHash.value.token;
      t.Issued? && t.subject == x && t.call < s.calls
  }

  ghost predicate LeasesSound(s: System) {
    LogAgrees(s) && LeasesWellFormed(s.memory) && TokensDrawn(s)
  }

  /** What may become of one lease while the calls numbered `calls` and later are made. */
  ghost predicate Descends(pre: Lease, post: Lease, calls: nat) {
    && pre.version <= post.version
    && (pre.version == post.version ==>
          post.controller == pre.controller && (post.tokenHash == None || post.tokenHash == pre.tokenHash))
    && (post.tokenHash != None && post.tokenHash != pre.tokenHash ==> IsDrawnFrom(post.tokenHash.value.token, calls))
  }

  ghost predicate IsDrawnFrom(t: Token, calls: nat) { t.Issued? && t.call >= calls }

  ghost predicate SystemDescends(s: System, s': System) {
    && s.calls <= s'.calls
    && (forall x :: x in s.memory.subjects ==>
          && x in s'.memory.subjects
          && s'.memory.subjects[x].origin == s.memory.subjects[x].origin
          && Descends(s.memory.subjects[x].lease, s'.memory.subjects[x].lease, s.calls))
    && (forall x :: x in s'.memory.subjects && x !in s.memory.subjects && s'.memory.subjects[x].lease.tokenHash != None ==>
          IsDrawnFrom(s'.memory.subjects[x].lease.tokenHash.value.token, s.calls))
  }

  /** One fenced change of one subject, made by call number `call`. */
  lemma StepDescends(m: Memory, x: SubjectId, post: Subject, call: nat)
    requires SubjectStep(m, x, post, call)
    requires x in m.subjects ==> LeaseWellFormed(m.subjects[x].lease)
    ensures LeaseWellFormed(post.lease)
    ensures x in m.subjects ==> post.origin == m.subjects[x].origin && Descends(m.subjects[x].lease, post.lease, call)
    ensures post.lease.tokenHash != None ==>
      || post.lease.tokenHash.value.token == Issued(call, x)
      || (x in m.subjects && post.lease.tokenHash == m.subjects[x].lease.tokenHash)
  {}

  lemma ChangesKeepLeases(s: System, changes: map<SubjectId, Subject>, s': System)
    requires LeasesWellFormed(s.memory) && TokensDrawn(s) && Fenced(s.memory, changes, s.calls)
    requires s'.memory.subjects == s.memory.subjects + changes && s'.calls == s.calls + 1
    ensures LeasesWellFormed(s'.memory) && TokensDrawn(s') && SystemDescends(s, s')
  {
    hide Keeps, Grants, SubjectStep, LeaseWellFormed, Descends;
    forall x | x in changes
      ensures LeaseWellFormed(changes[x].lease)
      ensures x in s.memory.subjects ==>
        changes[x].origin == s.memory.subjects[x].origin && Descends(s.memory.subjects[x].lease, changes[x].lease, s.calls)
      ensures changes[x].lease.tokenHash != None ==>
        || changes[x].lease.tokenHash.value.token == Issued(s.calls, x)
        || (x in s.memory.subjects && changes[x].lease.tokenHash == s.memory.subjects[x].lease.tokenHash)
    {
      StepDescends(s.memory, x, changes[x], s.calls);
    }
    forall x | x in s.memory.subjects && x !in changes
      ensures Descends(s.memory.subjects[x].lease, s'.memory.subjects[x].lease, s.calls)
    {
      SameDescends(s.memory.subjects[x].lease, s.calls);
    }
  }

  lemma SameDescends(l: Lease, calls: nat)
    ensures Descends(l, l, calls)
  {}

  lemma ExecuteKeepsLeases(s: System, plan: Plan, now: Time, stored: bool)
    requires LeasesSound(s) && PlanFenced(s.memory, plan, s.calls)
    ensures LeasesSound(Execute(s, plan, now, stored)) && SystemDescends(s, Execute(s, plan, now, stored))
  {
    hide StoreAll, IndexAll, LogAgrees, LeasesWellFormed, TokensDrawn, SystemDescends;
    ExecuteKeepsLog(s, plan, now, stored);
    var changes := if plan.tx.Some? && stored then plan.tx.value.subjects else map[];
    assert Execute(s, plan, now, stored).memory.subjects == s.memory.subjects + changes;
    ChangesKeepLeases(s, changes, Execute(s, plan, now, stored));
  }

  lemma StepKeepsLeases(cfg: Config, s: System, a: Action)
    requires LeasesSound(s)
    ensures LeasesSound(Step(cfg, s, a)) && SystemDescends(s, Step(cfg, s, a))
  {
    hide PlanOf, Execute, Recover, LogAgrees, LeaseWellFormed;
    StepKeepsLog(cfg, s, a);
    if a.Invoke? {
      EveryCallIsFenced(cfg, s.memory, a.op, s.clock + a.elapsed, s.calls);
      ExecuteKeepsLeases(s, PlanAt(cfg, s, a.op, a.elapsed), s.clock + a.elapsed, a.stored);
    } else {
      RestartKeepsDurable(cfg, s);
    }
  }

  lemma DescentComposes(s: System, s': System, s'': System)
    requires SystemDescends(s, s') && SystemDescends(s', s'')
    ensures SystemDescends(s, s'')
  {}

  /** Fencing over whole runs: every lease descends from what it was, and stays sound. */
  lemma {:induction false} LeasesDescend(cfg: Config, s: System, actions: seq<Action>)
    requires LeasesSound(s)
    ensures LeasesSound(Run(cfg, s, actions)) && SystemDescends(s, Run(cfg, s, actions))
    decreases |actions|
  {
    hide Step;
    if actions != [] {
      var s' := Step(cfg, s, actions[0]);
      StepKeepsLeases(cfg, s, actions[0]);
      LeasesDescend(cfg, s', actions[1..]);
      DescentComposes(s, s', Run(cfg, s', actions[1..]));
    }
  }

  /** A call by `c` presenting `token` for subject `x` passes authentication at `now`. */
  ghost predicate Authenticates(cfg: Config, m: Memory, x: SubjectId, c: Controller, token: Token, version: Option<nat>,
                                now: Time)
  {
    x in m.subjects && AuthCodeOf(cfg, m, ExpiredCopy(cfg, m, m.subjects[x], now), c, token, version, now).None?
  }

  ghost predicate HoldsToken(m: Memory, x: SubjectId, token: Token) {
    x in m.subjects && m.subjects[x].lease.tokenHash == Some(Sha256(token))
  }

  lemma OnlyTheStoredTokenAuthenticates(cfg: Config, m: Memory, x: SubjectId, c: Controller, token: Token, version: Option<nat>,
                                        now: Time)
    requires LeasesWellFormed(m) && Authenticates(cfg, m, x, c, token, version, now)
    ensures HoldsToken(m, x, token)
    ensures m.subjects[x].lease.controller.Some? && m.subjects[x].lease.controller.value.controllerId == c.controllerId
    ensures version.Some? ==> version.value == m.subjects[x].lease.version
  {
    ProjectionKeeps(cfg, m, m.subjects[x], now);
  }

  /** And whoever presents the stored token as its stored controller, under the stored version if it names one, is let in
      for exactly as long as the lease is held. */
  lemma AuthenticatesExactly(cfg: Config, m: Memory, x: SubjectId, c: Controller, token: Token, version: Option<nat>, now: Time)
    ensures Authenticates(cfg, m, x, c, token, version, now) <==>
      && HoldsToken(m, x, token) && IsHeld(cfg, m, m.subjects[x], now)
      && m.subjects[x].lease.controller.value.controllerId == c.controllerId
      && (version == None || version == Some(m.subjects[x].lease.version))
  {
    hide AuthCodeOf, ExpiredCopy;
    if x in m.subjects { AuthIsAnswered(cfg, m, m.subjects[x], c, token, version, now); }
  }

  /** In any reachable state one token opens at most one subject, and one subject at most one token. */
  lemma OneTokenPerSubject(cfg: Config, actions: seq<Action>, x: SubjectId, y: SubjectId, c: Controller, d: Controller,
                           t: Token, u: Token, v: Option<nat>, w: Option<nat>, now: Time, now': Time)
    requires var m := Run(cfg, INITIAL, actions).memory;
      Authenticates(cfg, m, x, c, t, v, now) && Authenticates(cfg, m, y, d, u, w, now')
    ensures x == y <==> t == u
  {
    hide Run, Step, AuthCodeOf, ExpiredCopy;
    LeasesDescend(cfg, INITIAL, actions);
    var m := Run(cfg, INITIAL, actions).memory;
    OnlyTheStoredTokenAuthenticates(cfg, m, x, c, t, v, now);
    OnlyTheStoredTokenAuthenticates(cfg, m, y, d, u, w, now');
  }

  /** A token that was drawn and is no longer the one stored (replaced by a handover, or cleared by a
      release or an expiry), or that the broker never drew at all, authenticates no later call. */
  lemma RetiredTokenStaysRetired(cfg: Config, s: System, actions: seq<Action>, x: SubjectId, c: Controller, token: Token,
                                 version: Option<nat>, now: Time)
    requires LeasesSound(s)
    requires token.Issued? ==> token.call < s.calls
    requires !HoldsToken(s.memory, x, token)
    ensures !Authenticates(cfg, Run(cfg, s, actions).memory, x, c, token, version, now)
  {
    hide Run, Step, AuthCodeOf, ExpiredCopy;
    LeasesDescend(cfg, s, actions);
    var m := Run(cfg, s, actions).memory;
    if Authenticates(cfg, m, x, c, token, version, now) {
      OnlyTheStoredTokenAuthenticates(cfg, m, x, c, token, version, now);
    }
  }

  /** A caller holding an old lease version is locked out for good once the version moved. */
  lemma StaleVersionStaysStale(cfg: Config, s: System, actions: seq<Action>, x: SubjectId, c: Controller, token: Token,
                               version: nat, now: Time)
    requires LeasesSound(s) && x in s.memory.subjects && version < s.memory.subjects[x].lease.version
    ensures !Authenticates(cfg, Run(cfg, s, actions).memory, x, c, token, Some(version), now)
  {
    hide Run, Step, AuthCodeOf, ExpiredCopy;
    LeasesDescend(cfg, s, actions);
    var m := Run(cfg, s, actions).memory;
    if Authenticates(cfg, m, x, c, token, Some(version), now) {
      OnlyTheStoredTokenAuthenticates(cfg, m, x, c, token, Some(version), now);
    }
  }
}
