/** What the two batches answer, member by member: why a batch is refused or aborted, what each member is told, and what a
    committed batch leaves of each. */
module BatchOutcomes {
  import opened Finite
  import opened CoordinationTypes
  import opened CoordinationState
  import opened LeasePlans
  import opened LeaseRules
  import opened BatchPlans
  import opened CoordinationMachine
  import opened BatchAtomicity
  import opened CallOutcomes

  // ---- adoptBatch ----------------------------------------------------------------------------

  /** Member `i` stops the batch: named before, or not registered. */
  ghost predicate IsRepeated(members: seq<AdoptMember>, i: nat)
    requires i < |members|
  {
    exists j :: 0 <= j < i && members[j].subjectId == members[i].subjectId
  }

  ghost predicate AdoptStops(m: Memory, members: seq<AdoptMember>, i: nat)
    requires i < |members|
  {
    IsRepeated(members, i) || members[i].subjectId !in m.subjects
  }

  /** `fault` is what the first stopping member is refused for. */
  ghost predicate AdoptRefusal(m: Memory, members: seq<AdoptMember>, i: nat, fault: Fault)
    requires i < |members|
  {
    && AdoptStops(m, members, i) && (forall j :: 0 <= j < i ==> !AdoptStops(m, members, j))
    && fault == if IsRepeated(members, i) then DuplicateMember else SubjectNotFound
  }

  lemma {:induction false} AdoptFaultIsFirst(m: Memory, members: seq<AdoptMember>, from: nat)
    requires from <= |members| && forall j :: 0 <= j < from ==> !AdoptStops(m, members, j)
    ensures var fault := AdoptFault(m, members, from);
      if fault == None then forall i :: 0 <= i < |members| ==> !AdoptStops(m, members, i)
      else exists i :: 0 <= i < |members| && AdoptRefusal(m, members, i, fault.value)
    decreases |members| - from
  {
    if from < |members| {
      if AdoptStops(m, members, from) {
        assert AdoptRefusal(m, members, from, AdoptFault(m, members, from).value);
      } else {
        AdoptFaultIsFirst(m, members, from + 1);
      }
    }
  }

  /** What a member of an aborted batch is told. */
  ghost function AbortVerdict(cfg: Config, m: Memory, s: Subject, now: Time): OutcomeCode {
    if !IsRunning(s.lifecycle) then WORKER_TERMINAL
    else if IsHeld(cfg, m, s, now) then LEASE_CONFLICT
    else NOT_ELIGIBLE
  }

  ghost predicate AbortTells(cfg: Config, m: Memory, x: SubjectId, now: Time, o: Outcome)
    requires x in m.subjects
  {
    exists shown :: IsShown(cfg, m, m.subjects[x], shown, now) && Tells(o, AbortVerdict(cfg, m, m.subjects[x], now), shown, None)
  }

  lemma AbortTellsOne(cfg: Config, m: Memory, member: AdoptMember, now: Time)
    requires member.subjectId in m.subjects
    ensures var shown := ExpiredCopy(cfg, m, m.subjects[member.subjectId], now);
      var failure := AdoptFailureAt(cfg, m, member, now);
      AbortTells(cfg, m, member.subjectId, now, OutcomeOf(shown, if failure.Some? then failure.value else NOT_ELIGIBLE))
  {
    var s := m.subjects[member.subjectId];
    var shown := ExpiredCopy(cfg, m, s, now);
    CopyIsShown(cfg, m, s, now);
    ShownIsSettled(cfg, m, s, shown, shown, now);
  }

  lemma {:induction false} AdoptAbortedTells(cfg: Config, m: Memory, members: seq<AdoptMember>, now: Time, n: nat)
    requires n <= |members| && AllKnown(m, members)
    ensures var told := AdoptAborted(cfg, m, members, now, n);
      told.Keys == AdoptIds(members[..n]) && forall x :: x in told ==> x in m.subjects && AbortTells(cfg, m, x, now, told[x])
  {
    hide AdoptFailureAt, AbortTells, ExpiredCopy;
    if n > 0 {
      AdoptAbortedTells(cfg, m, members, now, n - 1);
      AbortTellsOne(cfg, m, members[n - 1], now);
      AdoptIdsGrow(members, n);
    }
  }

  lemma {:induction false} AdoptGrantedTells(cfg: Config, m: Memory, members: seq<AdoptMember>, c: Controller, now: Time,
                                             call: nat, n: nat)
    requires n <= |members| && AllKnown(m, members)
    ensures var granted := AdoptGranted(cfg, m, members, c, now, call, n);
      && granted.Keys == AdoptIds(members[..n])
      && forall x :: x in granted ==>
           && x in m.subjects && IsHandedOver(cfg, m.subjects[x], granted[x].subject, c, Issued(call, x), now)
           && Tells(granted[x].outcome, ACQUIRED, granted[x].subject, Some(Issued(call, x)))
  {
    hide ExpiredCopy;
    if n > 0 {
      AdoptGrantedTells(cfg, m, members, c, now, call, n - 1);
      CopyIsShown(cfg, m, m.subjects[members[n - 1].subjectId], now);
      AdoptIdsGrow(members, n);
    }
  }

  /** The answer to a fresh adoption batch: refused for its first member named twice or unknown; else one outcome for each
      member, granting all of them or telling each how it stands. The batch counts as a sign of life of the new controller
      exactly when it granted something. */
  lemma AdoptBatchAnswers(cfg: Config, s: System, id: MutationId, c: Controller, members: seq<AdoptMember>, now: Time)
    requires id !in s.memory.receipts
    ensures var plan := PlanAdoptBatch(cfg, s.memory, id, c, members, now, s.calls);
      var m := s.memory;
      if plan.response.Thrown? then
        && plan.tx == None
        && exists i :: 0 <= i < |members| && AdoptRefusal(m, members, i, plan.response.fault)
      else
        && (forall i :: 0 <= i < |members| ==> !AdoptStops(m, members, i))
        && plan.response.Returned? && !plan.response.replay && plan.response.result.Batch? && plan.response.result.handoff == None
        && (plan.response.result.committed <==> AdoptCommits(cfg, m, id, members, now))
        && AdoptLeaves(cfg, m, After(s, plan, now), c, members, now, s.calls, plan.response.result.committed, plan.response.result.outcomes)
  {
    hide After, AdoptGranted, AdoptAborted, AdoptCommits, AdoptLeaves, SomeAdoptFails, AdoptFault, ConnectedObservation;
    var m := s.memory;
    AdoptFaultIsFirst(m, members, 0);
    if AdoptFault(m, members, 0).None? {
      NoAdoptFaultMeansKnown(m, members, 0);
      AdoptDecision(cfg, m, id, c, members, now, s.calls);
      if SomeAdoptFails(cfg, m, members, now) { AbortLeaves(cfg, s, id, c, members, now); }
      else { GrantLeaves(cfg, s, id, c, members, now); }
    }
  }

  /** What an adoption batch that was not refused leaves and tells. */
  ghost predicate AdoptLeaves(cfg: Config, m: Memory, m': Memory, c: Controller, members: seq<AdoptMember>, now: Time, call: nat,
                              committed: bool, outcomes: map<SubjectId, Outcome>)
  {
    && OnlyLeases(m, m') && outcomes.Keys == AdoptIds(members) && outcomes.Keys <= m.subjects.Keys == m'.subjects.Keys
    && (forall x :: x in outcomes ==>
          if committed
          then IsHandedOver(cfg, m.subjects[x], m'.subjects[x], c, Issued(call, x), now)
               && Tells(outcomes[x], ACQUIRED, m'.subjects[x], Some(Issued(call, x)))
          else AbortTells(cfg, m, x, now, outcomes[x]))
    && (if committed && members != [] then IsHeard(m, m', c, now) else m'.liveness == m.liveness)
  }

  lemma AbortLeaves(cfg: Config, s: System, id: MutationId, c: Controller, members: seq<AdoptMember>, now: Time)
    requires AllKnown(s.memory, members)
    ensures var told := AdoptAborted(cfg, s.memory, members, now, |members|);
      var plan := Receipted(id, OpAdopt, Unkeyed, Batch(false, told, None), NO_CHANGES, 0);
      AdoptLeaves(cfg, s.memory, After(s, plan, now), c, members, now, s.calls, false, told)
  {
    hide After, AdoptAborted, AbortTells, StoreAll, IsHandedOver, IsHeard;
    var told := AdoptAborted(cfg, s.memory, members, now, |members|);
    AdoptAbortedTells(cfg, s.memory, members, now, |members|);
    assert members[..|members|] == members;
    AfterIs(s, Receipted(id, OpAdopt, Unkeyed, Batch(false, told, None), NO_CHANGES, 0), now);
  }

  lemma GrantLeaves(cfg: Config, s: System, id: MutationId, c: Controller, members: seq<AdoptMember>, now: Time)
    requires AllKnown(s.memory, members)
    ensures var granted := AdoptGranted(cfg, s.memory, members, c, now, s.calls, |members|);
      var plan := Receipted(id, OpAdopt, Unkeyed, Batch(true, OutcomesOf(granted), None),
        NO_CHANGES.(subjects := SubjectsOf(granted),
                    liveness := if members == [] then map[] else ConnectedObservation(s.memory, c, now)), 0);
      AdoptLeaves(cfg, s.memory, After(s, plan, now), c, members, now, s.calls, true, OutcomesOf(granted))
  {
    hide After, AdoptGranted, AbortTells, IsHandedOver, IsHeard, ConnectedObservation, AdoptIds, Tells, Receipted;
    var m, granted := s.memory, AdoptGranted(cfg, s.memory, members, c, now, s.calls, |members|);
    var live := if members == [] then map[] else ConnectedObservation(m, c, now);
    var plan := Receipted(id, OpAdopt, Unkeyed, Batch(true, OutcomesOf(granted), None),
      NO_CHANGES.(subjects := SubjectsOf(granted), liveness := live), 0);
    AdoptGrantedTells(cfg, m, members, c, now, s.calls, |members|);
    assert members[..|members|] == members;
    AfterLeases(s, id, OpAdopt, Batch(true, OutcomesOf(granted), None), SubjectsOf(granted), live, now);
    if members != [] { HeartbeatIsHeard(m, After(s, plan, now), c, now); }
  }

  // ---- handoffBatch --------------------------------------------------------------------------

  ghost predicate IsNamedTwice(members: seq<HandoffMember>, i: nat)
    requires i < |members|
  {
    exists j :: 0 <= j < i && members[j].subjectId == members[i].subjectId
  }

  ghost predicate HandoffStops(m: Memory, members: seq<HandoffMember>, i: nat)
    requires i < |members|
  {
    IsNamedTwice(members, i) || (members[i].subjectId !in m.subjects && members[i].register == None)
  }

  ghost predicate HandoffRefusal(m: Memory, members: seq<HandoffMember>, i: nat, fault: Fault)
    requires i < |members|
  {
    && HandoffStops(m, members, i) && (forall j :: 0 <= j < i ==> !HandoffStops(m, members, j))
    && fault == if IsNamedTwice(members, i) then DuplicateMember else SubjectNotFound
  }

  lemma {:induction false} HandoffFaultIsFirst(m: Memory, members: seq<HandoffMember>, from: nat)
    requires from <= |members| && forall j :: 0 <= j < from ==> !HandoffStops(m, members, j)
    ensures var fault := HandoffFault(m, members, from);
      if fault == None then forall i :: 0 <= i < |members| ==> !HandoffStops(m, members, i)
      else exists i :: 0 <= i < |members| && HandoffRefusal(m, members, i, fault.value)
    decreases |members| - from
  {
    if from < |members| {
      if HandoffStops(m, members, from) {
        assert HandoffRefusal(m, members, from, HandoffFault(m, members, from).value);
      } else {
        HandoffFaultIsFirst(m, members, from + 1);
      }
    }
  }

  /** The record a never-registered member enters the batch with. */
  ghost predicate IsEntered(r: Registration, s: Subject, now: Time) {
    && s.kind == Worker && s.origin == r.origin && s.lifecycle == r.lifecycle && s.resources == r.resources
    && s.gate == NoGate && s.budget == None && s.updatedAt == now
    && s.lease == Lease(1, Orphaned, None, None, now, now, now, Some(now), None, None)
  }

  /** Member `i` as it stands when the batch is read. */
  ghost predicate IsPresented(cfg: Config, m: Memory, r: HandoffRequest, i: nat, s: Subject, now: Time)
    requires i < |r.members|
  {
    var x := r.members[i].subjectId;
    if x in m.subjects then IsShown(cfg, m, m.subjects[x], s, now)
    else r.members[i].register.Some? && IsEntered(r.members[i].register.value, s, now)
  }

  ghost predicate HandoffAbortTells(cfg: Config, m: Memory, r: HandoffRequest, i: nat, now: Time, o: Outcome)
    requires i < |r.members|
  {
    exists current :: IsPresented(cfg, m, r, i, current, now) &&
      var x := r.members[i].subjectId;
      Tells(o, if current.kind == Worker && (!IsRunning(current.lifecycle) || (x in r.observed && !IsRunning(r.observed[x])))
               then WORKER_TERMINAL else NOT_ELIGIBLE, current, None)
  }

  /** What a committed handoff leaves of member `i`, and what it is told: it is new to the broker, was the recipient's
      before, or comes from someone else. */
  ghost predicate HandoffLeaves(cfg: Config, m: Memory, r: HandoffRequest, i: nat, now: Time, call: nat, post: Subject, o: Outcome)
    requires i < |r.members|
  {
    exists current :: IsPresented(cfg, m, r, i, current, now) &&
      var x := r.members[i].subjectId;
      && IsHandedOver(cfg, current, post, r.recipient, Issued(call, x), now)
      && Tells(o, if x !in m.subjects then ACQUIRED
                  else if current.lease.controller != None && current.lease.controller.value.controllerId == r.recipient.controllerId
                  then ALREADY_CONTROLLED else TRANSFERRED, post, Some(Issued(call, x)))
  }

  lemma HandoffOneTells(cfg: Config, m: Memory, r: HandoffRequest, i: nat, now: Time, call: nat)
    requires i < |r.members| && IsPresentable(m, r.members[i])
    ensures var current := CurrentOf(cfg, m, r.members[i], now);
      var failure := HandoffFailureAt(cfg, m, r, i, now);
      HandoffAbortTells(cfg, m, r, i, now, OutcomeOf(current, if failure.Some? then failure.value else NOT_ELIGIBLE))
    ensures var over := HandOver(cfg, m, r, i, now, call);
      HandoffLeaves(cfg, m, r, i, now, call, over.subject, over.outcome)
  {
    var x := r.members[i].subjectId;
    var current := CurrentOf(cfg, m, r.members[i], now);
    if x in m.subjects { CopyIsShown(cfg, m, m.subjects[x], now); }
    assert IsPresented(cfg, m, r, i, current, now);
  }

  /** Somebody has the id of member `i`. */
  ghost predicate AllTold(cfg: Config, m: Memory, r: HandoffRequest, now: Time, n: nat, told: map<SubjectId, Outcome>)
    requires n <= |r.members|
  {
    && told.Keys == HandoffIds(r.members[..n])
    && forall i :: 0 <= i < n ==> r.members[i].subjectId in told && HandoffAbortTells(cfg, m, r, i, now, told[r.members[i].subjectId])
  }

  lemma {:induction false} HandoffAbortedTells(cfg: Config, m: Memory, r: HandoffRequest, now: Time, n: nat)
    requires n <= |r.members| && AllPresentable(m, r.members) && HandoffDistinct(r.members)
    ensures AllTold(cfg, m, r, now, n, HandoffAborted(cfg, m, r, now, n))
  {
    hide HandoffFailureAt, HandoffAbortTells, CurrentOf, HandOver, HandoffLeaves, OutcomeOf;
    if n > 0 {
      HandoffAbortedTells(cfg, m, r, now, n - 1);
      assert IsPresentable(m, r.members[n - 1]);
      HandoffOneTells(cfg, m, r, n - 1, now, 0);
      var failure := HandoffFailureAt(cfg, m, r, n - 1, now);
      hide AllTold;
      TellOneMore(cfg, m, r, now, n, HandoffAborted(cfg, m, r, now, n - 1),
                  OutcomeOf(CurrentOf(cfg, m, r.members[n - 1], now), if failure.Some? then failure.value else NOT_ELIGIBLE));
    }
  }

  lemma TellOneMore(cfg: Config, m: Memory, r: HandoffRequest, now: Time, n: nat, told: map<SubjectId, Outcome>, o: Outcome)
    requires 0 < n <= |r.members| && HandoffDistinct(r.members)
    requires AllTold(cfg, m, r, now, n - 1, told) && HandoffAbortTells(cfg, m, r, n - 1, now, o)
    ensures AllTold(cfg, m, r, now, n, told[r.members[n - 1].subjectId := o])
  {
    hide HandoffAbortTells;
    HandoffIdsGrow(r.members, n);
  }

  ghost predicate AllMoved(cfg: Config, m: Memory, r: HandoffRequest, now: Time, call: nat, n: nat, granted: map<SubjectId, Mutated>)
    requires n <= |r.members|
  {
    && granted.Keys == HandoffIds(r.members[..n])
    && forall i :: 0 <= i < n ==>
         var x := r.members[i].subjectId;
         x in granted && HandoffLeaves(cfg, m, r, i, now, call, granted[x].subject, granted[x].outcome)
  }

  lemma {:induction false} HandoffGrantedTells(cfg: Config, m: Memory, r: HandoffRequest, now: Time, call: nat, n: nat)
    requires n <= |r.members| && AllPresentable(m, r.members) && HandoffDistinct(r.members)
    ensures AllMoved(cfg, m, r, now, call, n, HandoffGranted(cfg, m, r, now, call, n))
  {
    hide HandoffFailureAt, HandoffAbortTells, CurrentOf, HandOver, HandoffLeaves, OutcomeOf;
    if n > 0 {
      HandoffGrantedTells(cfg, m, r, now, call, n - 1);
      assert IsPresentable(m, r.members[n - 1]);
      HandoffOneTells(cfg, m, r, n - 1, now, call);
      hide AllMoved;
      MoveOneMore(cfg, m, r, now, call, n, HandoffGranted(cfg, m, r, now, call, n - 1), HandOver(cfg, m, r, n - 1, now, call));
    }
  }

  lemma MoveOneMore(cfg: Config, m: Memory, r: HandoffRequest, now: Time, call: nat, n: nat, granted: map<SubjectId, Mutated>,
                    over: Mutated)
    requires 0 < n <= |r.members| && HandoffDistinct(r.members)
    requires AllMoved(cfg, m, r, now, call, n - 1, granted) && HandoffLeaves(cfg, m, r, n - 1, now, call, over.subject, over.outcome)
    ensures AllMoved(cfg, m, r, now, call, n, granted[r.members[n - 1].subjectId := over])
  {
    hide HandoffLeaves;
    HandoffIdsGrow(r.members, n);
  }


  /** The answer to a fresh handoff batch: refused for its first member named twice or neither registered nor described, or,
      when every member could move, for having none or more than 64; else one outcome for each member, moving all of them or
      telling each how it stands. A committed batch returns its record and counts as a sign of life of the recipient. */
  lemma HandoffBatchAnswers(cfg: Config, s: System, id: MutationId, r: HandoffRequest, now: Time)
    requires id !in s.memory.receipts
    ensures var plan := PlanHandoff(cfg, s.memory, id, r, now, s.calls);
      var m, m' := s.memory, After(s, plan, now);
      if plan.response.Thrown? then
        && plan.tx == None
        && (|| (exists i :: 0 <= i < |r.members| && HandoffRefusal(m, r.members, i, plan.response.fault))
            || (plan.response.fault == InvalidHandoff && (|r.members| == 0 || |r.members| > 64)
                && forall i :: 0 <= i < |r.members| ==> Movable(m, r, i)))
      else
        && (forall i :: 0 <= i < |r.members| ==> !HandoffStops(m, r.members, i))
        && plan.response.Returned? && !plan.response.replay && plan.response.result.Batch?
        && (plan.response.result.committed <==> HandoffCommits(m, id, r))
        && var outcomes := plan.response.result.outcomes;
        && outcomes.Keys == HandoffIds(r.members)
        && if plan.response.result.committed then
             && (forall i :: 0 <= i < |r.members| ==>
                   var x := r.members[i].subjectId;
                   && x in outcomes && x in m'.subjects
                   && HandoffLeaves(cfg, m, r, i, now, s.calls, m'.subjects[x], outcomes[x]))
             && var handoff := if r.handoffId == None then Generated(s.calls) else Chosen(r.handoffId.value);
             && handoff in m'.handoffs && plan.response.result.handoff == Some((handoff, m'.handoffs[handoff]))
             && IsHeard(m, m', r.recipient, now)
           else
             && (forall i :: 0 <= i < |r.members| ==>
                   r.members[i].subjectId in outcomes && HandoffAbortTells(cfg, m, r, i, now, outcomes[r.members[i].subjectId]))
             && plan.response.result.handoff == None && m'.liveness == m.liveness
  {
    hide After, StoreAll, HandoffGranted, HandoffAborted, HandoffAbortTells, HandoffLeaves, ConnectedObservation, IsHeard,
      SomeHandoffFails, HandoffFault, KeyOf, HandoffOf, Movable, RecordsBatch;
    var plan := PlanHandoff(cfg, s.memory, id, r, now, s.calls);
    var m, m' := s.memory, After(s, plan, now);
    AfterIs(s, plan, now);
    HandoffFaultIsFirst(m, r.members, 0);
    if HandoffFault(m, r.members, 0).None? {
      NoHandoffFaultMeansPresentable(m, r.members, 0);
      HandoffDecision(cfg, m, id, r, now, s.calls);
      SizeIsJudgedLast(cfg, m, r, now);
      HandoffAbortedTells(cfg, m, r, now, |r.members|);
      HandoffGrantedTells(cfg, m, r, now, s.calls, |r.members|);
      assert r.members[..|r.members|] == r.members;
      if plan.response.Returned? && plan.response.result.committed { HeartbeatIsHeard(m, m', r.recipient, now); }
    }
  }

  lemma SizeIsJudgedLast(cfg: Config, m: Memory, r: HandoffRequest, now: Time)
    requires AllPresentable(m, r.members)
    ensures SomeHandoffFails(cfg, m, r, now) <==> exists i :: 0 <= i < |r.members| && !Movable(m, r, i)
  {
    hide Movable, HandoffFailureAt;
    forall i | 0 <= i < |r.members| ensures HandoffFailureAt(cfg, m, r, i, now).None? <==> Movable(m, r, i) {
      MovableIsEligible(cfg, m, r, i, now);
    }
  }
}
