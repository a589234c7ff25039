/** The two all-or-nothing batches. Both read every member first and build changes only when none failed. */
module BatchPlans {
  import opened Finite
  import opened CoordinationTypes
  import opened LeaseLiveness
  import opened CoordinationState
  import opened LeasePlans

  const MANIFEST_ENTRIES := 64

  // ---- adoptBatch ----------------------------------------------------------------------------

  datatype AdoptMode = AcquireReleased | AdoptOrphaned
  datatype AdoptMember = AdoptMember(subjectId: SubjectId, mode: AdoptMode)

  /** The exception the member loop throws first, if any, among members `from..`. */
  function AdoptFault(m: Memory, members: seq<AdoptMember>, from: nat): Option<Fault>
    requires from <= |members|
    decreases |members| - from
  {
    if from == |members| then None
    else if exists j :: 0 <= j < from && members[j].subjectId == members[from].subjectId then Some(DuplicateMember)
    else if members[from].subjectId !in m.subjects then Some(SubjectNotFound)
    else AdoptFault(m, members, from + 1)
  }

  /** Why one member cannot be adopted; None when it can. */
  function AdoptFailure(mode: AdoptMode, current: Subject): Option<OutcomeCode> {
    if IsTerminal(current.lifecycle) then Some(WORKER_TERMINAL)
    else if IsControlled(current.lease) then Some(LEASE_CONFLICT)
    else if mode.AdoptOrphaned? && (current.lease.state.Orphaned? || current.lease.state.Expired?) then None
    else if mode.AcquireReleased? && current.lease.state.Released? then None
    else Some(NOT_ELIGIBLE)
  }

  function AdoptFailureAt(cfg: Config, m: Memory, member: AdoptMember, now: Time): Option<OutcomeCode>
    requires member.subjectId in m.subjects
  {
    AdoptFailure(member.mode, ExpiredCopy(cfg, m, m.subjects[member.subjectId], now))
  }

  predicate AllKnown(m: Memory, members: seq<AdoptMember>) {
    forall i :: 0 <= i < |members| ==> members[i].subjectId in m.subjects
  }

  predicate SomeAdoptFails(cfg: Config, m: Memory, members: seq<AdoptMember>, now: Time)
    requires AllKnown(m, members)
  {
    exists i :: 0 <= i < |members| && AdoptFailureAt(cfg, m, members[i], now).Some?
  }

  /** Outcomes of an aborted batch, for the first `n` members. */
  function AdoptAborted(cfg: Config, m: Memory, members: seq<AdoptMember>, now: Time, n: nat): map<SubjectId, Outcome>
    requires n <= |members| && AllKnown(m, members)
  {
    if n == 0 then map[]
    else
      var x := members[n - 1].subjectId;
      var failure := AdoptFailureAt(cfg, m, members[n - 1], now);
      AdoptAborted(cfg, m, members, now, n - 1)[x :=
        OutcomeOf(ExpiredCopy(cfg, m, m.subjects[x], now), if failure.Some? then failure.value else NOT_ELIGIBLE)]
  }

  /** What a committed batch does to the first `n` members. */
  function AdoptGranted(cfg: Config, m: Memory, members: seq<AdoptMember>, c: Controller, now: Time, call: nat, n: nat)
    : map<SubjectId, Mutated>
    requires n <= |members| && AllKnown(m, members)
  {
    if n == 0 then map[]
    else
      var x := members[n - 1].subjectId;
      var next := WithNewController(cfg, ExpiredCopy(cfg, m, m.subjects[x], now), x, c, now, call);
      AdoptGranted(cfg, m, members, c, now, call, n - 1)[x := Mutated(next, GrantOutcome(next, ACQUIRED, x, call))]
  }

  lemma NoAdoptFaultMeansKnown(m: Memory, members: seq<AdoptMember>, from: nat)
    requires from <= |members| && AdoptFault(m, members, from).None?
    ensures forall i :: from <= i < |members| ==> members[i].subjectId in m.subjects
    ensures forall i, j :: from <= i < |members| && 0 <= j < i ==> members[j].subjectId != members[i].subjectId
    decreases |members| - from
  {
    if from < |members| { NoAdoptFaultMeansKnown(m, members, from + 1); }
  }

  function PlanAdoptBatch(cfg: Config, m: Memory, id: MutationId, c: Controller, members: seq<AdoptMember>, now: Time,
                          call: nat): Plan
  {
    if id in m.receipts then ReplayAdoptBatch(m, id)
    else
      var fault := AdoptFault(m, members, 0);
      if fault.Some? then Refuse(fault.value)
      else
        NoAdoptFaultMeansKnown(m, members, 0);
        if SomeAdoptFails(cfg, m, members, now) then
          Receipted(id, OpAdopt, Unkeyed, Batch(false, AdoptAborted(cfg, m, members, now, |members|), None), NO_CHANGES, 0)
        else
          var granted := AdoptGranted(cfg, m, members, c, now, call, |members|);
          Receipted(id, OpAdopt, Unkeyed, Batch(true, OutcomesOf(granted), None),
            NO_CHANGES.(subjects := SubjectsOf(granted),
                        liveness := if members == [] then map[] else ConnectedObservation(m, c, now)), 0)
  }

  // ---- handoffBatch --------------------------------------------------------------------------

  datatype HandoffMember = HandoffMember(subjectId: SubjectId, name: Option<nat>, register: Option<Registration>)

  datatype HandoffRequest = HandoffRequest(
    actor: Controller,
    recipient: Controller,
    session: nat,
    directive: nat,
    members: seq<HandoffMember>,
    handoffId: Option<nat>,
    observed: map<SubjectId, Lifecycle>)

  function KeyOf(r: HandoffRequest): RequestKey {
    HandoffKey(r.actor, r.recipient, r.session, r.directive,
               seq(|r.members|, i requires 0 <= i < |r.members| => r.members[i].subjectId), r.handoffId)
  }

  function HandoffFault(m: Memory, members: seq<HandoffMember>, from: nat): Option<Fault>
    requires from <= |members|
    decreases |members| - from
  {
    if from == |members| then None
    else if exists j :: 0 <= j < from && members[j].subjectId == members[from].subjectId then Some(DuplicateMember)
    else if members[from].subjectId !in m.subjects && members[from].register.None? then Some(SubjectNotFound)
    else HandoffFault(m, members, from + 1)
  }

  predicate IsPresentable(m: Memory, member: HandoffMember) {
    member.subjectId in m.subjects || member.register.Some?
  }

  predicate AllPresentable(m: Memory, members: seq<HandoffMember>) {
    forall i :: 0 <= i < |members| ==> IsPresentable(m, members[i])
  }

  /** A never-registered worker as an unowned subject. It exists only inside the batch. */
  function UnownedSubject(r: Registration, now: Time): Subject {
    Subject(Worker, r.origin, r.lifecycle, r.resources,
            Lease(1, Orphaned, None, None, now, now, now, Some(now), None, None), NoGate, now, None)
  }

  function CurrentOf(cfg: Config, m: Memory, member: HandoffMember, now: Time): Subject
    requires IsPresentable(m, member)
  {
    if member.subjectId in m.subjects then ExpiredCopy(cfg, m, m.subjects[member.subjectId], now)
    else UnownedSubject(member.register.value, now)
  }

  function HandoffFailure(r: HandoffRequest, x: SubjectId, current: Subject): Option<OutcomeCode> {
    if !current.kind.Worker? then Some(NOT_ELIGIBLE)
    else if IsTerminal(current.lifecycle) || (x in r.observed && IsTerminal(r.observed[x])) then Some(WORKER_TERMINAL)
    else None
  }

  function HandoffFailureAt(cfg: Config, m: Memory, r: HandoffRequest, i: nat, now: Time): Option<OutcomeCode>
    requires i < |r.members| && IsPresentable(m, r.members[i])
  {
    HandoffFailure(r, r.members[i].subjectId, CurrentOf(cfg, m, r.members[i], now))
  }

  predicate SomeHandoffFails(cfg: Config, m: Memory, r: HandoffRequest, now: Time)
    requires AllPresentable(m, r.members)
  {
    exists i :: 0 <= i < |r.members| && HandoffFailureAt(cfg, m, r, i, now).Some?
  }

  function HandoffAborted(cfg: Config, m: Memory, r: HandoffRequest, now: Time, n: nat): map<SubjectId, Outcome>
    requires n <= |r.members| && AllPresentable(m, r.members)
  {
    if n == 0 then map[]
    else
      var failure := HandoffFailureAt(cfg, m, r, n - 1, now);
      HandoffAborted(cfg, m, r, now, n - 1)[r.members[n - 1].subjectId :=
        OutcomeOf(CurrentOf(cfg, m, r.members[n - 1], now), if failure.Some? then failure.value else NOT_ELIGIBLE)]
  }

  function HandoffCode(m: Memory, r: HandoffRequest, x: SubjectId, current: Subject): OutcomeCode {
    if x !in m.subjects then ACQUIRED
    else if current.lease.controller.Some? && current.lease.controller.value.controllerId == r.recipient.controllerId
    then ALREADY_CONTROLLED
    else TRANSFERRED
  }

  function HandOver(cfg: Config, m: Memory, r: HandoffRequest, i: nat, now: Time, call: nat): Mutated
    requires i < |r.members| && IsPresentable(m, r.members[i])
  {
    var x := r.members[i].subjectId;
    var current := CurrentOf(cfg, m, r.members[i], now);
    var next := WithNewController(cfg, current, x, r.recipient, now, call);
    Mutated(next, GrantOutcome(next, HandoffCode(m, r, x, current), x, call))
  }

  function HandoffGranted(cfg: Config, m: Memory, r: HandoffRequest, now: Time, call: nat, n: nat): map<SubjectId, Mutated>
    requires n <= |r.members| && AllPresentable(m, r.members)
  {
    if n == 0 then map[]
    else
      HandoffGranted(cfg, m, r, now, call, n - 1)[r.members[n - 1].subjectId := HandOver(cfg, m, r, n - 1, now, call)]
  }

  function EntryOf(cfg: Config, m: Memory, r: HandoffRequest, i: nat, now: Time): ManifestEntry
    requires i < |r.members| && IsPresentable(m, r.members[i])
  {
    var x := r.members[i].subjectId;
    var current := CurrentOf(cfg, m, r.members[i], now);
    ManifestEntry(x, current.origin.taskId, current.origin.waveId, r.members[i].name, current.resources.worktreePath,
      current.lifecycle,
      if x in m.subjects && m.subjects[x].lease.controller.Some?
      then Some(m.subjects[x].lease.controller.value.controllerId) else None)
  }

  function ManifestOf(cfg: Config, m: Memory, r: HandoffRequest, now: Time, n: nat): (manifest: seq<ManifestEntry>)
    requires n <= |r.members| && AllPresentable(m, r.members)
    ensures |manifest| == n
    ensures forall i :: 0 <= i < n ==> manifest[i] == EntryOf(cfg, m, r, i, now)
  {
    if n == 0 then [] else ManifestOf(cfg, m, r, now, n - 1) + [EntryOf(cfg, m, r, n - 1, now)]
  }

  lemma NoHandoffFaultMeansPresentable(m: Memory, members: seq<HandoffMember>, from: nat)
    requires from <= |members| && HandoffFault(m, members, from).None?
    ensures forall i :: from <= i < |members| ==> IsPresentable(m, members[i])
    ensures forall i, j :: from <= i < |members| && 0 <= j < i ==> members[j].subjectId != members[i].subjectId
    decreases |members| - from
  {
    if from < |members| { NoHandoffFaultMeansPresentable(m, members, from + 1); }
  }

  function HandoffIdOf(r: HandoffRequest, call: nat): HandoffId {
    if r.handoffId.Some? then Chosen(r.handoffId.value) else Generated(call)
  }

  function HandoffOf(cfg: Config, m: Memory, r: HandoffRequest, now: Time): Handoff
    requires AllPresentable(m, r.members)
  {
    Handoff(r.recipient, r.session, r.actor, r.directive, ManifestOf(cfg, m, r, now, |r.members|), now, None)
  }

  function PlanHandoff(cfg: Config, m: Memory, id: MutationId, r: HandoffRequest, now: Time, call: nat): Plan {
    if id in m.receipts then ReplayKeyed(m, id, OpHandoff, KeyOf(r))
    else
      var fault := HandoffFault(m, r.members, 0);
      if fault.Some? then Refuse(fault.value)
      else
        NoHandoffFaultMeansPresentable(m, r.members, 0);
        if SomeHandoffFails(cfg, m, r, now) then
          Receipted(id, OpHandoff, KeyOf(r), Batch(false, HandoffAborted(cfg, m, r, now, |r.members|), None), NO_CHANGES, 0)
        else if |r.members| == 0 || |r.members| > MANIFEST_ENTRIES then Refuse(InvalidHandoff)
        else
          var granted := HandoffGranted(cfg, m, r, now, call, |r.members|);
          var handoff := HandoffOf(cfg, m, r, now);
          Receipted(id, OpHandoff, KeyOf(r), Batch(true, OutcomesOf(granted), Some((HandoffIdOf(r, call), handoff))),
            NO_CHANGES.(subjects := SubjectsOf(granted), liveness := ConnectedObservation(m, r.recipient, now),
                        handoffs := map[HandoffIdOf(r, call) := handoff]), 0)
  }

  // ---- acknowledgement -----------------------------------------------------------------------

  predicate CanAcknowledge(m: Memory, c: ControllerId, ids: set<HandoffId>) {
    forall h :: h in ids ==> h in m.handoffs && m.handoffs[h].recipient.controllerId == c
  }

  function PlanAcknowledge(m: Memory, c: ControllerId, ids: set<HandoffId>, now: Time): Plan {
    if !CanAcknowledge(m, c, ids) then Refuse(HandoffNotFound)
    else
      var changed := map h | h in ids && m.handoffs[h].acknowledgedAt.None? ::
        m.handoffs[h].(acknowledgedAt := Some(now));
      Plan(if changed == map[] then None else Some(NO_CHANGES.(handoffs := changed)), 0,
        Records(map h | h in ids :: if h in changed then changed[h] else m.handoffs[h]))
  }
}
