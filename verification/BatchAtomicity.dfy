/** Both batches move every member to one controller or move nothing, and exactly when each does which. */
module BatchAtomicity {
  import opened Finite
  import opened CoordinationTypes
  import opened CoordinationState
  import opened LeasePlans
  import opened LeaseRules
  import opened BatchPlans
  import opened CoordinationMachine

  /** `x` is now held by `c`: a new lease generation whose token this very call drew. */
  ghost predicate HandedTo(m: Memory, m': Memory, x: SubjectId, c: Controller, call: nat) {
    && x in m'.subjects
    && m'.subjects[x].lease.state.Active? && m'.subjects[x].lease.controller == Some(c)
    && m'.subjects[x].lease.tokenHash == Some(Sha256(Issued(call, x)))
    && (x in m.subjects ==> m'.subjects[x].lease.version > m.subjects[x].lease.version)
  }

  ghost predicate OnlyChanges(m: Memory, m': Memory, xs: set<SubjectId>) {
    && m.subjects.Keys <= m'.subjects.Keys <= m.subjects.Keys + xs
    && forall x :: x in m.subjects && x !in xs ==> m'.subjects[x] == m.subjects[x]
  }

  /** What executing a plan does to subjects and handoff records. */
  lemma ExecuteMoves(s: System, plan: Plan, now: Time, stored: bool)
    ensures var m' := Execute(s, plan, now, stored).memory;
      if plan.tx.Some? && stored
      then m'.subjects == s.memory.subjects + plan.tx.value.subjects && m'.handoffs == s.memory.handoffs + plan.tx.value.handoffs
      else m'.subjects == s.memory.subjects && m'.handoffs == s.memory.handoffs
  {
    hide StoreAll, IndexAll;
  }

  // ---- adoptBatch ----------------------------------------------------------------------------

  function AdoptIds(members: seq<AdoptMember>): set<SubjectId> {
    set i | 0 <= i < |members| :: members[i].subjectId
  }

  ghost predicate AdoptDistinct(members: seq<AdoptMember>) {
    forall i, j :: 0 <= i < j < |members| ==> members[i].subjectId != members[j].subjectId
  }

  /** Eligibility read off the stored lease: nobody holds it now, in the way the mode asks for. */
  ghost predicate Adoptable(cfg: Config, m: Memory, member: AdoptMember, now: Time) {
    member.subjectId in m.subjects &&
    var s := m.subjects[member.subjectId];
    && IsRunning(s.lifecycle)
    && if member.mode.AdoptOrphaned? then IsAbandoned(cfg, m, s, now) else s.lease.state == Released
  }

  ghost predicate AdoptCommits(cfg: Config, m: Memory, id: MutationId, members: seq<AdoptMember>, now: Time) {
    && id !in m.receipts && AdoptDistinct(members)
    && forall i :: 0 <= i < |members| ==> Adoptable(cfg, m, members[i], now)
  }

  lemma AdoptableIsEligible(cfg: Config, m: Memory, member: AdoptMember, now: Time)
    requires member.subjectId in m.subjects
    ensures AdoptFailureAt(cfg, m, member, now).None? <==> Adoptable(cfg, m, member, now)
  {}

  lemma {:induction false} AdoptFaultless(m: Memory, members: seq<AdoptMember>, from: nat)
    requires from <= |members| && AllKnown(m, members) && AdoptDistinct(members)
    ensures AdoptFault(m, members, from).None?
    decreases |members| - from
  {
    if from < |members| { AdoptFaultless(m, members, from + 1); }
  }

  lemma {:induction false} AdoptGrantedContents(cfg: Config, m: Memory, members: seq<AdoptMember>, c: Controller, now: Time,
                                                call: nat, n: nat)
    requires n <= |members| && AllKnown(m, members)
    ensures AdoptGranted(cfg, m, members, c, now, call, n).Keys == AdoptIds(members[..n])
    ensures forall x :: x in AdoptGranted(cfg, m, members, c, now, call, n) ==>
      && x in m.subjects
      && AdoptGranted(cfg, m, members, c, now, call, n)[x].subject ==
           WithNewController(cfg, ExpiredCopy(cfg, m, m.subjects[x], now), x, c, now, call)
  {
    hide ExpiredCopy, WithNewController;
    if n > 0 {
      AdoptGrantedContents(cfg, m, members, c, now, call, n - 1);
      AdoptIdsGrow(members, n);
    }
  }

  lemma AdoptIdsGrow(members: seq<AdoptMember>, n: nat)
    requires 0 < n <= |members|
    ensures AdoptIds(members[..n]) == AdoptIds(members[..n - 1]) + {members[n - 1].subjectId}
  {
    forall i | 0 <= i < n ensures members[i].subjectId in AdoptIds(members[..n - 1]) + {members[n - 1].subjectId} {
      if i < n - 1 { assert members[..n - 1][i] == members[i]; }
    }
    forall x | x in AdoptIds(members[..n - 1]) ensures x in AdoptIds(members[..n]) {
      var i :| 0 <= i < n - 1 && members[..n - 1][i].subjectId == x;
      assert members[..n][i].subjectId == x;
    }
    assert members[..n][n - 1].subjectId in AdoptIds(members[..n]);
  }

  /** The decision alone: what a fresh adoption batch appends. */
  lemma AdoptDecision(cfg: Config, m: Memory, id: MutationId, c: Controller, members: seq<AdoptMember>, now: Time, call: nat)
    ensures var plan := PlanAdoptBatch(cfg, m, id, c, members, now, call);
      if AdoptCommits(cfg, m, id, members, now) then
        && plan.tx.Some? && plan.response.Returned? && plan.response.result.Batch? && plan.response.result.committed
        && plan.tx.value.subjects.Keys == AdoptIds(members)
        && (forall x :: x in plan.tx.value.subjects ==>
              && x in m.subjects
              && plan.tx.value.subjects[x] ==
                   WithNewController(cfg, ExpiredCopy(cfg, m, m.subjects[x], now), x, c, now, call))
      else
        && (plan.tx.Some? ==> plan.tx.value.subjects == map[])
        && (plan.response.Returned? && !plan.response.replay ==> plan.response.result.Batch? && !plan.response.result.committed)
  {
    hide ExpiredCopy, WithNewController, Adoptable, AdoptGranted, AdoptAborted;
    if id !in m.receipts {
      if AdoptFault(m, members, 0).None? {
        NoAdoptFaultMeansKnown(m, members, 0);
        assert AdoptDistinct(members);
        forall i | 0 <= i < |members|
          ensures AdoptFailureAt(cfg, m, members[i], now).None? <==> Adoptable(cfg, m, members[i], now)
        {
          AdoptableIsEligible(cfg, m, members[i], now);
        }
        AdoptGrantedContents(cfg, m, members, c, now, call, |members|);
        assert members[..|members|] == members;
      } else if AdoptCommits(cfg, m, id, members, now) {
        AdoptedAreKnown(cfg, m, members, now);
        AdoptFaultless(m, members, 0);
      }
    }
  }

  lemma AdoptedAreKnown(cfg: Config, m: Memory, members: seq<AdoptMember>, now: Time)
    requires forall i :: 0 <= i < |members| ==> Adoptable(cfg, m, members[i], now)
    ensures AllKnown(m, members)
  {}

  /** Batch atomicity of `adoptBatch`. */
  lemma AdoptBatchIsAtomic(cfg: Config, s: System, id: MutationId, c: Controller, members: seq<AdoptMember>, elapsed: nat,
                           stored: bool)
    ensures var s' := Step(cfg, s, Invoke(AdoptBatch(id, c, members), elapsed, stored));
      if stored && AdoptCommits(cfg, s.memory, id, members, s.clock + elapsed) then
        && OnlyChanges(s.memory, s'.memory, AdoptIds(members))
        && forall x :: x in AdoptIds(members) ==> HandedTo(s.memory, s'.memory, x, c, s.calls)
      else s'.memory.subjects == s.memory.subjects
  {
    hide PlanAdoptBatch, Execute, ExpiredCopy, AdoptCommits, AdoptIds;
    var now := s.clock + elapsed;
    ExecuteMoves(s, PlanAdoptBatch(cfg, s.memory, id, c, members, now, s.calls), now, stored);
    AdoptDecision(cfg, s.memory, id, c, members, now, s.calls);
    if stored && AdoptCommits(cfg, s.memory, id, members, now) {
      var tx := PlanAdoptBatch(cfg, s.memory, id, c, members, now, s.calls).tx.value;
      forall x | x in tx.subjects ensures tx.subjects[x].lease.version > s.memory.subjects[x].lease.version {
        VersionGrows(cfg, s.memory, x, c, now, s.calls);
      }
    }
  }

  lemma VersionGrows(cfg: Config, m: Memory, x: SubjectId, c: Controller, now: Time, call: nat)
    requires x in m.subjects
    ensures WithNewController(cfg, ExpiredCopy(cfg, m, m.subjects[x], now), x, c, now, call).lease.version
      == m.subjects[x].lease.version + 1
  {}

  // ---- handoffBatch --------------------------------------------------------------------------

  function HandoffIds(members: seq<HandoffMember>): set<SubjectId> {
    set i | 0 <= i < |members| :: members[i].subjectId
  }

  ghost predicate HandoffDistinct(members: seq<HandoffMember>) {
    forall i, j :: 0 <= i < j < |members| ==> members[i].subjectId != members[j].subjectId
  }

  /** A worker that is alive as far as its record and the process bookkeeping know. */
  ghost predicate Movable(m: Memory, r: HandoffRequest, i: nat)
    requires i < |r.members|
  {
    var x := r.members[i].subjectId;
    && (x in r.observed ==> IsRunning(r.observed[x]))
    && if x in m.subjects then m.subjects[x].kind == Worker && IsRunning(m.subjects[x].lifecycle)
       else r.members[i].register.Some? && IsRunning(r.members[i].register.value.lifecycle)
  }

  ghost predicate HandoffCommits(m: Memory, id: MutationId, r: HandoffRequest) {
    && id !in m.receipts && HandoffDistinct(r.members) && 1 <= |r.members| <= 64
    && forall i :: 0 <= i < |r.members| ==> Movable(m, r, i)
  }

  lemma MovableIsEligible(cfg: Config, m: Memory, r: HandoffRequest, i: nat, now: Time)
    requires i < |r.members| && IsPresentable(m, r.members[i])
    ensures HandoffFailureAt(cfg, m, r, i, now).None? <==> Movable(m, r, i)
  {}

  lemma {:induction false} HandoffFaultless(m: Memory, members: seq<HandoffMember>, from: nat)
    requires from <= |members| && AllPresentable(m, members) && HandoffDistinct(members)
    ensures HandoffFault(m, members, from).None?
    decreases |members| - from
  {
    if from < |members| {
      assert IsPresentable(m, members[from]);
      HandoffFaultless(m, members, from + 1);
    }
  }

  /** The version a member's lease had before the batch; 1 for the record built inside it. */
  function PriorVersion(m: Memory, x: SubjectId): nat { if x in m.subjects then m.subjects[x].lease.version else 1 }

  ghost predicate IsHandOver(m: Memory, r: HandoffRequest, x: SubjectId, post: Subject, call: nat) {
    && post.lease.state.Active? && post.lease.controller == Some(r.recipient)
    && post.lease.tokenHash == Some(Sha256(Issued(call, x)))
    && post.lease.version == PriorVersion(m, x) + 1
  }

  lemma {:induction false} HandoffGrantedContents(cfg: Config, m: Memory, r: HandoffRequest, now: Time, call: nat, n: nat)
    requires n <= |r.members| && AllPresentable(m, r.members)
    ensures HandoffGranted(cfg, m, r, now, call, n).Keys == HandoffIds(r.members[..n])
    ensures forall x :: x in HandoffGranted(cfg, m, r, now, call, n) ==>
      IsHandOver(m, r, x, HandoffGranted(cfg, m, r, now, call, n)[x].subject, call)
  {
    hide HandOver, IsHandOver;
    if n > 0 {
      var x := r.members[n - 1].subjectId;
      HandoffGrantedContents(cfg, m, r, now, call, n - 1);
      HandOverGrants(cfg, m, r, n - 1, now, call);
      HandoffIdsGrow(r.members, n);
    }
  }

  lemma HandOverGrants(cfg: Config, m: Memory, r: HandoffRequest, i: nat, now: Time, call: nat)
    requires i < |r.members| && IsPresentable(m, r.members[i])
    ensures IsHandOver(m, r, r.members[i].subjectId, HandOver(cfg, m, r, i, now, call).subject, call)
  {}

  lemma HandoffIdsGrow(members: seq<HandoffMember>, n: nat)
    requires 0 < n <= |members|
    ensures HandoffIds(members[..n]) == HandoffIds(members[..n - 1]) + {members[n - 1].subjectId}
  {
    forall i | 0 <= i < n ensures members[i].subjectId in HandoffIds(members[..n - 1]) + {members[n - 1].subjectId} {
      if i < n - 1 { assert members[..n - 1][i] == members[i]; }
    }
    forall x | x in HandoffIds(members[..n - 1]) ensures x in HandoffIds(members[..n]) {
      var i :| 0 <= i < n - 1 && members[..n - 1][i].subjectId == x;
      assert members[..n][i].subjectId == x;
    }
    assert members[..n][n - 1].subjectId in HandoffIds(members[..n]);
  }

  /** What the manifest says of member `i`: the facts of its record, or of its registration when it has none. */
  ghost predicate EntryFits(m: Memory, r: HandoffRequest, i: nat, entry: ManifestEntry)
    requires i < |r.members|
  {
    var x, name := r.members[i].subjectId, r.members[i].name;
    if x in m.subjects then
      var s := m.subjects[x];
      entry == ManifestEntry(x, s.origin.taskId, s.origin.waveId, name, s.resources.worktreePath, s.lifecycle,
        if s.lease.controller.Some? then Some(s.lease.controller.value.controllerId) else None)
    else
      && r.members[i].register.Some?
      && var g := r.members[i].register.value;
      entry == ManifestEntry(x, g.origin.taskId, g.origin.waveId, name, g.resources.worktreePath, g.lifecycle, None)
  }

  /** The record of a committed handoff: unacknowledged, issued now by the actor, the members in order with their task,
      wave, worktree and lifecycle, each with the controller it came from. */
  ghost predicate RecordsBatch(m: Memory, r: HandoffRequest, h: Handoff, now: Time) {
    && h.recipient == r.recipient && h.recipientSession == r.session && h.issuedBy == r.actor && h.directive == r.directive
    && h.issuedAt == now && h.acknowledgedAt == None
    && |h.manifest| == |r.members|
    && forall i :: 0 <= i < |r.members| ==> EntryFits(m, r, i, h.manifest[i])
  }

  lemma EntryIsFit(cfg: Config, m: Memory, r: HandoffRequest, i: nat, now: Time)
    requires i < |r.members| && IsPresentable(m, r.members[i])
    ensures EntryFits(m, r, i, EntryOf(cfg, m, r, i, now))
  {}

  lemma ManifestRecords(cfg: Config, m: Memory, r: HandoffRequest, now: Time)
    requires AllPresentable(m, r.members)
    ensures RecordsBatch(m, r, HandoffOf(cfg, m, r, now), now)
  {
    hide EntryOf, EntryFits;
    forall i | 0 <= i < |r.members| ensures EntryFits(m, r, i, HandoffOf(cfg, m, r, now).manifest[i]) {
      EntryIsFit(cfg, m, r, i, now);
    }
  }

  lemma HandoffDecision(cfg: Config, m: Memory, id: MutationId, r: HandoffRequest, now: Time, call: nat)
    ensures var plan := PlanHandoff(cfg, m, id, r, now, call);
      if HandoffCommits(m, id, r) then
        && plan.tx.Some? && plan.response.Returned? && plan.response.result.Batch? && plan.response.result.committed
        && plan.tx.value.subjects.Keys == HandoffIds(r.members)
        && (forall x :: x in plan.tx.value.subjects ==> IsHandOver(m, r, x, plan.tx.value.subjects[x], call))
        && plan.tx.value.handoffs.Keys == {HandoffIdOf(r, call)}
        && RecordsBatch(m, r, plan.tx.value.handoffs[HandoffIdOf(r, call)], now)
      else
        && (plan.tx.Some? ==> plan.tx.value.subjects == map[] && plan.tx.value.handoffs == map[])
        && (plan.response.Returned? && !plan.response.replay ==> plan.response.result.Batch? && !plan.response.result.committed)
  {
    hide HandoffGranted, HandoffAborted, HandoffOf, IsHandOver, RecordsBatch, Movable, HandoffFailureAt, KeyOf;
    if id !in m.receipts {
      if HandoffFault(m, r.members, 0).None? {
        NoHandoffFaultMeansPresentable(m, r.members, 0);
        assert HandoffDistinct(r.members);
        forall i | 0 <= i < |r.members| ensures HandoffFailureAt(cfg, m, r, i, now).None? <==> Movable(m, r, i) {
          MovableIsEligible(cfg, m, r, i, now);
        }
        HandoffGrantedContents(cfg, m, r, now, call, |r.members|);
        assert r.members[..|r.members|] == r.members;
        ManifestRecords(cfg, m, r, now);
      } else if HandoffCommits(m, id, r) {
        MovedArePresentable(m, r);
        HandoffFaultless(m, r.members, 0);
      }
    }
  }

  lemma MovedArePresentable(m: Memory, r: HandoffRequest)
    requires forall i :: 0 <= i < |r.members| ==> Movable(m, r, i)
    ensures AllPresentable(m, r.members)
  {
    forall i | 0 <= i < |r.members| ensures IsPresentable(m, r.members[i]) { assert Movable(m, r, i); }
  }

  /** Batch atomicity of `handoffBatch`: all members and one record, or no subject (not even an orphan for
      a never-registered member) and no record. */
  lemma HandoffBatchIsAtomic(cfg: Config, s: System, id: MutationId, r: HandoffRequest, elapsed: nat, stored: bool)
    ensures var s' := Step(cfg, s, Invoke(HandoffBatch(id, r), elapsed, stored));
      if stored && HandoffCommits(s.memory, id, r) then
        && OnlyChanges(s.memory, s'.memory, HandoffIds(r.members))
        && (forall x :: x in HandoffIds(r.members) ==> HandedTo(s.memory, s'.memory, x, r.recipient, s.calls))
        && HandoffIdOf(r, s.calls) in s'.memory.handoffs
        && RecordsBatch(s.memory, r, s'.memory.handoffs[HandoffIdOf(r, s.calls)], s.clock + elapsed)
        && s'.memory.handoffs - {HandoffIdOf(r, s.calls)} == s.memory.handoffs - {HandoffIdOf(r, s.calls)}
      else s'.memory.subjects == s.memory.subjects && s'.memory.handoffs == s.memory.handoffs
  {
    hide PlanHandoff, Execute, HandoffCommits, RecordsBatch, HandoffIds, HandedTo, OnlyChanges, IsHandOver;
    var now := s.clock + elapsed;
    var plan := PlanHandoff(cfg, s.memory, id, r, now, s.calls);
    ExecuteMoves(s, plan, now, stored);
    HandoffDecision(cfg, s.memory, id, r, now, s.calls);
    if stored && HandoffCommits(s.memory, id, r) {
      HandoverMoves(s.memory, Execute(s, plan, now, stored).memory, r, plan.tx.value.subjects, s.calls);
    }
  }

  /** What the granted records make of the subjects. */
  lemma HandoverMoves(m: Memory, m': Memory, r: HandoffRequest, granted: map<SubjectId, Subject>, call: nat)
    requires m'.subjects == m.subjects + granted && granted.Keys == HandoffIds(r.members)
    requires forall x :: x in granted ==> IsHandOver(m, r, x, granted[x], call)
    ensures OnlyChanges(m, m', HandoffIds(r.members))
    ensures forall x :: x in HandoffIds(r.members) ==> HandedTo(m, m', x, r.recipient, call)
  {
    hide HandoffIds;
  }
}
