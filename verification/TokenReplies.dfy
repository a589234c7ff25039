/** Which callers are told which tokens: a fresh answer carries exactly the tokens its call stored, a replayed one
    those that the original call stored. */
module TokenReplies {
  import opened Finite
  import opened CoordinationTypes
  import opened CoordinationState
  import opened LeasePlans
  import opened BatchPlans
  import opened EventPlans
  import opened BudgetPlans
  import opened CoordinationMachine
  import opened LogRefinement
  import opened FencingRuns

  function OutcomesIn(r: Result): map<SubjectId, Outcome> {
    if r.Ownership? || r.Batch? then r.outcomes else map[]
  }

  ghost predicate IsGranted(s: Subject, x: SubjectId, call: nat) { s.lease.tokenHash == Some(Sha256(Issued(call, x))) }

  /** An outcome carries a token if and only if this call granted the subject, and then that very token. */
  ghost predicate OutcomeTells(o: Outcome, s: Subject, x: SubjectId, call: nat) {
    o.leaseToken == if IsGranted(s, x, call) then Some(Issued(call, x)) else None
  }

  ghost predicate MutatedTells(mutated: map<SubjectId, Mutated>, call: nat) {
    forall x :: x in mutated ==> OutcomeTells(mutated[x].outcome, mutated[x].subject, x, call)
  }

  ghost predicate NoTokens(outcomes: map<SubjectId, Outcome>) { forall x :: x in outcomes ==> outcomes[x].leaseToken.None? }

  /** A fresh answer, one that comes with an append, carries exactly the tokens of that append. */
  ghost predicate PlanTells(plan: Plan, call: nat) {
    plan.tx.Some? && plan.response.Returned? ==>
      var outcomes := OutcomesIn(plan.response.result);
      && (forall x :: x in outcomes && x in plan.tx.value.subjects ==> OutcomeTells(outcomes[x], plan.tx.value.subjects[x], x, call))
      && (forall x :: x in outcomes && x !in plan.tx.value.subjects ==> outcomes[x].leaseToken.None?)
      && (forall x :: x in plan.tx.value.subjects && IsGranted(plan.tx.value.subjects[x], x, call) ==> x in outcomes)
  }

  /** No stored token carries the number of the call to come. */
  ghost predicate TokensOlder(m: Memory, call: nat) { forall x :: x in m.subjects ==> !IsGranted(m.subjects[x], x, call) }

  lemma ProjectionGrantsNothing(cfg: Config, m: Memory, x: SubjectId, now: Time, call: nat)
    requires TokensOlder(m, call) && x in m.subjects
    ensures !IsGranted(ExpiredCopy(cfg, m, m.subjects[x], now), x, call)
    ensures !IsGranted(Renewed(cfg, ExpiredCopy(cfg, m, m.subjects[x], now), now), x, call)
  {}

  lemma TakeOneTells(cfg: Config, taking: Taking, actor: Controller, c: Controller, x: SubjectId, s: Subject, now: Time,
                     call: nat)
    requires !IsGranted(s, x, call)
    ensures var t := TakeOne(cfg, taking, actor, c, x, s, now, call); OutcomeTells(t.outcome, t.subject, x, call)
  {}

  lemma UseOneTells(cfg: Config, m: Memory, using: Using, cr: Credential, x: SubjectId, s: Subject, now: Time, call: nat)
    requires !IsGranted(s, x, call)
    ensures var t := UseOne(cfg, m, using, cr, x, s, now, call); OutcomeTells(t.outcome, t.subject, x, call)
  {}

  lemma MutatedIsTold(m: Memory, id: MutationId, operation: Operation, mutated: map<SubjectId, Mutated>, heard: bool,
                      c: Controller,
                      now: Time, call: nat)
    requires MutatedTells(mutated, call)
    ensures PlanTells(PlanMutated(m, id, operation, mutated, heard, c, now), call)
  {}

  lemma TakeTells(cfg: Config, m: Memory, id: MutationId, taking: Taking, actor: Controller, sel: Selector, c: Controller,
                  now: Time,
                  call: nat)
    requires TokensOlder(m, call)
    ensures PlanTells(PlanTake(cfg, m, id, taking, actor, sel, c, now, call), call)
  {
    hide TakeOne, ExpiredCopy, OutcomeTells, PlanMutated, PlanTells, Granted, TokensOlder;
    NoReplyTells(call);
    var mutated := TakeAll(cfg, m, taking, actor, c, Selected(cfg, m, sel, now), now, call);
    forall x | x in mutated ensures OutcomeTells(mutated[x].outcome, mutated[x].subject, x, call) {
      ProjectionGrantsNothing(cfg, m, x, now, call);
      TakeOneTells(cfg, taking, actor, c, x, ExpiredCopy(cfg, m, m.subjects[x], now), now, call);
    }
    MutatedIsTold(m, id, OperationOfTaking(taking), mutated, Granted(mutated), c, now, call);
  }

  lemma UseTells(cfg: Config, m: Memory, id: MutationId, using: Using, sel: Selector, cr: Credential, now: Time, call: nat)
    requires TokensOlder(m, call)
    ensures PlanTells(PlanUse(cfg, m, id, using, sel, cr, now, call), call)
  {
    hide UseOne, ExpiredCopy, OutcomeTells, PlanMutated, PlanTells, SomeAuthenticated, TokensOlder;
    NoReplyTells(call);
    var mutated := UseAll(cfg, m, using, cr, Selected(cfg, m, sel, now), now, call);
    forall x | x in mutated ensures OutcomeTells(mutated[x].outcome, mutated[x].subject, x, call) {
      ProjectionGrantsNothing(cfg, m, x, now, call);
      UseOneTells(cfg, m, using, cr, x, ExpiredCopy(cfg, m, m.subjects[x], now), now, call);
    }
    MutatedIsTold(m, id, OperationOfUsing(using), mutated, SomeAuthenticated(mutated), cr.controller, now, call);
  }

  /** A plan that appends nothing is a refusal or a replay; replays are what `RepliesTellLoggedTokens` is about. */
  lemma NoReplyTells(call: nat)
    ensures forall plan: Plan :: plan.tx.None? ==> PlanTells(plan, call)
  {}

  lemma RegisterTells(cfg: Config, m: Memory, id: MutationId, x: SubjectId, r: Registration, c: Option<Controller>,
                      budget: Option<nat>, now: Time, call: nat)
    requires TokensOlder(m, call)
    ensures PlanTells(PlanRegister(cfg, m, id, x, r, c, budget, now, call), call)
  {
    hide PlanAgain, Declared;
    NoReplyTells(call);
    if x in m.subjects { AgainTells(m, id, x, r, c, budget, now, call); }
  }

  lemma AgainTells(m: Memory, id: MutationId, x: SubjectId, r: Registration, c: Option<Controller>, budget: Option<nat>,
                   now: Time,
                   call: nat)
    requires TokensOlder(m, call) && x in m.subjects
    ensures PlanTells(PlanAgain(id, x, m.subjects[x], r, c, budget, now), call)
  {
    hide Declared;
  }

  lemma BudgetTells(m: Memory, id: MutationId, x: SubjectId, request: BudgetRequest, verdict: BudgetVerdict, now: Time,
                    call: nat)
    requires TokensOlder(m, call)
    ensures PlanTells(PlanBudget(m, id, x, request, verdict, now), call)
  {}

  lemma {:induction false} AdoptGrantedTells(cfg: Config, m: Memory, members: seq<AdoptMember>, c: Controller, now: Time,
                                             call: nat, n: nat)
    requires n <= |members| && AllKnown(m, members)
    ensures MutatedTells(AdoptGranted(cfg, m, members, c, now, call, n), call)
  {
    if n > 0 { AdoptGrantedTells(cfg, m, members, c, now, call, n - 1); }
  }

  lemma {:induction false} AdoptAbortedTells(cfg: Config, m: Memory, members: seq<AdoptMember>, now: Time, n: nat)
    requires n <= |members| && AllKnown(m, members)
    ensures NoTokens(AdoptAborted(cfg, m, members, now, n))
  {
    hide ExpiredCopy;
    if n > 0 {
      AdoptAbortedTells(cfg, m, members, now, n - 1);
      var before, after := AdoptAborted(cfg, m, members, now, n - 1), AdoptAborted(cfg, m, members, now, n);
      assert forall x :: x in after ==> x == members[n - 1].subjectId || (x in before && after[x] == before[x]);
    }
  }

  lemma AdoptTells(cfg: Config, m: Memory, id: MutationId, c: Controller, members: seq<AdoptMember>, now: Time, call: nat)
    ensures PlanTells(PlanAdoptBatch(cfg, m, id, c, members, now, call), call)
  {
    hide AdoptGranted, AdoptAborted, AdoptFault, SomeAdoptFails, OutcomeTells;
    if AdoptFault(m, members, 0).None? {
      NoAdoptFaultMeansKnown(m, members, 0);
      AdoptGrantedTells(cfg, m, members, c, now, call, |members|);
      AdoptAbortedTells(cfg, m, members, now, |members|);
    }
  }

  lemma {:induction false} HandoffGrantedTells(cfg: Config, m: Memory, r: HandoffRequest, now: Time, call: nat, n: nat)
    requires n <= |r.members| && AllPresentable(m, r.members)
    ensures MutatedTells(HandoffGranted(cfg, m, r, now, call, n), call)
  {
    hide CurrentOf;
    if n > 0 { HandoffGrantedTells(cfg, m, r, now, call, n - 1); }
  }

  lemma {:induction false} HandoffAbortedTells(cfg: Config, m: Memory, r: HandoffRequest, now: Time, n: nat)
    requires n <= |r.members| && AllPresentable(m, r.members)
    ensures NoTokens(HandoffAborted(cfg, m, r, now, n))
  {
    hide CurrentOf;
    if n > 0 {
      HandoffAbortedTells(cfg, m, r, now, n - 1);
      var before, after := HandoffAborted(cfg, m, r, now, n - 1), HandoffAborted(cfg, m, r, now, n);
      assert forall x :: x in after ==> x == r.members[n - 1].subjectId || (x in before && after[x] == before[x]);
    }
  }

  lemma HandoffTells(cfg: Config, m: Memory, id: MutationId, r: HandoffRequest, now: Time, call: nat)
    ensures PlanTells(PlanHandoff(cfg, m, id, r, now, call), call)
  {
    hide HandoffGranted, HandoffAborted, HandoffFault, SomeHandoffFails, HandoffOf, KeyOf, OutcomeTells;
    if HandoffFault(m, r.members, 0).None? {
      NoHandoffFaultMeansPresentable(m, r.members, 0);
      HandoffGrantedTells(cfg, m, r, now, call, |r.members|);
      HandoffAbortedTells(cfg, m, r, now, |r.members|);
    }
  }

  lemma ObserveTells(cfg: Config, m: Memory, id: MutationId, c: Controller, state: Connection, session: Option<Session>,
                     now: Time,
                     call: nat)
    requires TokensOlder(m, call)
    ensures PlanTells(PlanObserve(cfg, m, id, c, state, session, now), call)
  {
    hide ExpiredCopy, TokensOlder;
    forall x | x in m.subjects ensures !IsGranted(ExpiredCopy(cfg, m, m.subjects[x], now), x, call) && !IsGranted(m.subjects[x], x, call) {
      ProjectionGrantsNothing(cfg, m, x, now, call);
      OlderIsNotGranted(m, x, call);
    }
  }

  lemma OlderIsNotGranted(m: Memory, x: SubjectId, call: nat)
    requires TokensOlder(m, call) && x in m.subjects
    ensures !IsGranted(m.subjects[x], x, call)
  {}

  lemma ExpireTells(cfg: Config, m: Memory, id: MutationId, now: Time, call: nat)
    ensures PlanTells(PlanExpire(cfg, m, id, now), call)
  {}

  lemma AcceptTells(cfg: Config, m: Memory, id: MutationId, c: Controller, e: WorkerEvent, now: Time, call: nat)
    requires TokensOlder(m, call) && e.workerId in m.subjects
    ensures PlanTells(PlanAccept(cfg, m, id, c, e, now), call)
  {
    hide QueueingOf, ClosedEvents, StoredOf, ExpiredCopy, Renewed, LastSequence, AnsweredCheckpoints, AnswersPending,
      TokensOlder;
    ProjectionGrantsNothing(cfg, m, e.workerId, now, call);
  }

  lemma SubmitTells(cfg: Config, m: Memory, id: MutationId, c: Controller, token: Token, e: WorkerEvent, now: Time, call: nat)
    requires TokensOlder(m, call)
    ensures PlanTells(PlanSubmit(cfg, m, id, c, token, e, now), call)
  {
    hide PlanAccept, AuthCodeOf, ExpiredCopy, LastSequence, ReceivedAfter, TokensOlder;
    if e.workerId in m.subjects {
      AcceptTells(cfg, m, id, c, e, now, call);
      ProjectionGrantsNothing(cfg, m, e.workerId, now, call);
    }
  }

  lemma ResolveTells(cfg: Config, m: Memory, id: MutationId, c: Controller, token: Token, e: EventId, r: Resolution,
                     now: Time, call: nat)
    requires TokensOlder(m, call)
    ensures PlanTells(PlanResolve(cfg, m, id, c, token, e, r, now), call)
  {
    hide AuthCodeOf, ExpiredCopy, Renewed, TokensOlder;
    if e in m.events && m.events[e].event.workerId in m.subjects {
      ProjectionGrantsNothing(cfg, m, m.events[e].event.workerId, now, call);
    }
  }

  lemma CheckpointTells(cfg: Config, m: Memory, id: MutationId, c: Controller, token: Token, r: CheckpointRequest,
                        now: Time, call: nat)
    requires TokensOlder(m, call)
    ensures PlanTells(PlanCheckpoint(cfg, m, id, c, token, r, now), call)
  {
    hide AuthCodeOf, ExpiredCopy, Renewed, TokensOlder;
    if r.key.workerId in m.subjects { ProjectionGrantsNothing(cfg, m, r.key.workerId, now, call); }
  }

  lemma EveryCallTells(cfg: Config, m: Memory, op: Call, now: Time, call: nat)
    requires TokensOlder(m, call)
    ensures PlanTells(PlanOf(cfg, m, op, now, call), call)
  {
    hide PlanRegister, PlanTake, PlanUse, PlanAdoptBatch, PlanHandoff, PlanObserve, PlanExpire, PlanSubmit, PlanResolve,
      PlanCheckpoint, PlanBudget, TokensOlder, OutcomeTells, IsGranted;
    match op
    case Register(id, x, r, c, budget) => RegisterTells(cfg, m, id, x, r, c, budget, now, call);
    case Take(id, taking, actor, sel, c) => TakeTells(cfg, m, id, taking, actor, sel, c, now, call);
    case Use(id, using, sel, cr) => UseTells(cfg, m, id, using, sel, cr, now, call);
    case AdoptBatch(id, c, members) => AdoptTells(cfg, m, id, c, members, now, call);
    case HandoffBatch(id, r) => HandoffTells(cfg, m, id, r, now, call);
    case AcknowledgeHandoffs(_, _) =>
    case ObserveLiveness(id, c, state, session) => ObserveTells(cfg, m, id, c, state, session, now, call);
    case ExpireLeases(id) => ExpireTells(cfg, m, id, now, call);
    case ReconcileLifecycle(_, _) =>
    case SubmitEvent(id, c, token, e) => SubmitTells(cfg, m, id, c, token, e, now, call);
    case ResolveEvent(id, c, token, e, r) => ResolveTells(cfg, m, id, c, token, e, r, now, call);
    case RequestCheckpoint(id, c, token, r) => CheckpointTells(cfg, m, id, c, token, r, now, call);
    case MutateBudget(id, x, request, verdict) => BudgetTells(m, id, x, request, verdict, now, call);
  }

  lemma DrawnAreOlder(s: System)
    requires TokensDrawn(s)
    ensures TokensOlder(s.memory, s.calls)
  {}

  /** In every reachable state, a fresh answer of any modelled call carries a token for a subject if and only if the
      call's append stores that token there, and every subject so granted has an outcome. */
  lemma FreshTokensAreStored(cfg: Config, actions: seq<Action>, op: Call, elapsed: nat)
    ensures var s := Run(cfg, INITIAL, actions); PlanTells(PlanAt(cfg, s, op, elapsed), s.calls)
  {
    hide Run, Step, PlanOf, PlanTells, LeasesSound;
    var s := Run(cfg, INITIAL, actions);
    StartIsSound();
    LeasesDescend(cfg, INITIAL, actions);
    SoundIsDrawn(s);
    DrawnAreOlder(s);
    EveryCallTells(cfg, s.memory, op, s.clock + elapsed, s.calls);
  }

  lemma StartIsSound()
    ensures LeasesSound(INITIAL)
  {}

  lemma SoundIsDrawn(s: System)
    requires LeasesSound(s)
    ensures TokensDrawn(s) && LogAgrees(s)
  {}

  // ---- replayed answers ----------------------------------------------------------------------

  /** A transaction that stores a receipt stores every token the receipt's result tells. */
  ghost predicate TxTells(tx: Transaction) {
    forall id, x :: id in tx.receipts && x in OutcomesIn(tx.receipts[id].result) && OutcomesIn(tx.receipts[id].result)[x].leaseToken.Some? ==>
      x in tx.subjects && tx.subjects[x].lease.tokenHash == Some(Sha256(OutcomesIn(tx.receipts[id].result)[x].leaseToken.value))
  }

  ghost predicate LogTells(log: seq<Transaction>) { forall i :: 0 <= i < |log| ==> TxTells(log[i]) }

  lemma PlanWritesTellingTx(cfg: Config, s: System, op: Call, elapsed: nat)
    requires LeasesSound(s)
    ensures var plan := PlanAt(cfg, s, op, elapsed); plan.tx.Some? ==> TxTells(plan.tx.value)
  {
    hide PlanOf, LeasesSound, TokensOlder, ReceiptFits;
    SoundIsDrawn(s);
    DrawnAreOlder(s);
    EveryCallTells(cfg, s.memory, op, s.clock + elapsed, s.calls);
    EveryCallWritesOnce(cfg, s.memory, op, s.clock + elapsed, s.calls);
  }

  lemma ExecuteKeepsTelling(s: System, plan: Plan, now: Time, stored: bool)
    requires LogTells(s.log) && (plan.tx.Some? ==> TxTells(plan.tx.value))
    ensures LogTells(Execute(s, plan, now, stored).log)
  {
    hide TxTells, Apply;
  }

  lemma {:induction false} LogKeepsTelling(cfg: Config, s: System, actions: seq<Action>)
    requires LeasesSound(s) && LogTells(s.log)
    ensures LeasesSound(Run(cfg, s, actions)) && LogTells(Run(cfg, s, actions).log)
    decreases |actions|
  {
    hide PlanAt, Execute, LeasesSound, LogTells, Recover, SystemDescends;
    if actions != [] {
      var a := actions[0];
      StepKeepsLeases(cfg, s, a);
      if a.Invoke? {
        PlanWritesTellingTx(cfg, s, a.op, a.elapsed);
        ExecuteKeepsTelling(s, PlanAt(cfg, s, a.op, a.elapsed), s.clock + a.elapsed, a.stored);
      }
      LogKeepsTelling(cfg, Step(cfg, s, a), actions[1..]);
    }
  }

  /** Some transaction of the log wrote the receipt of `id` and, with it, `token` as the token of `x`. */
  ghost predicate WasStored(log: seq<Transaction>, id: MutationId, x: SubjectId, token: Token) {
    exists i :: 0 <= i < |log| && StoresToken(log[i], id, x, token)
  }

  ghost predicate StoresToken(tx: Transaction, id: MutationId, x: SubjectId, token: Token) {
    id in tx.receipts && x in tx.subjects && tx.subjects[x].lease.tokenHash == Some(Sha256(token))
  }

  lemma {:induction false} ReceiptIsLogged(log: seq<Transaction>, id: MutationId) returns (i: nat)
    requires id in Replay(log).receipts
    ensures i < |log| && id in log[i].receipts && log[i].receipts[id] == Replay(log).receipts[id]
  {
    hide StoreAll;
    var n := |log| - 1;
    if id in log[n].receipts { i := n; } else { i := ReceiptIsLogged(log[..n], id); }
  }

  lemma ReplayTellsReceipt(m: Memory, op: Call)
    requires MutationOf(op).Some? && op.id in m.receipts && ReplayOf(m, op).response.Returned?
    ensures OutcomesIn(ReplayOf(m, op).response.result) == OutcomesIn(m.receipts[op.id].result)
  {}

  /** The log once a plan was executed and its append, if any, stored. */
  function LogAfter(s: System, plan: Plan): seq<Transaction> { if plan.tx.Some? then s.log + [plan.tx.value] else s.log }

  lemma FreshIsLogged(cfg: Config, s: System, op: Call, elapsed: nat, x: SubjectId)
    requires LeasesSound(s) && PlanAt(cfg, s, op, elapsed).tx.Some? && PlanAt(cfg, s, op, elapsed).response.Returned?
    requires var o := OutcomesIn(PlanAt(cfg, s, op, elapsed).response.result); x in o && o[x].leaseToken.Some?
    ensures MutationOf(op).Some?
    ensures var plan := PlanAt(cfg, s, op, elapsed);
      WasStored(LogAfter(s, plan), op.id, x, OutcomesIn(plan.response.result)[x].leaseToken.value)
  {
    hide PlanOf, LeasesSound, ReceiptFits;
    PlanWritesTellingTx(cfg, s, op, elapsed);
    EveryCallWritesOnce(cfg, s.memory, op, s.clock + elapsed, s.calls);
    var plan := PlanAt(cfg, s, op, elapsed);
    var log := LogAfter(s, plan);
    assert log[|s.log|] == plan.tx.value;
    assert StoresToken(log[|s.log|], op.id, x, OutcomesIn(plan.response.result)[x].leaseToken.value);
  }

  lemma ReplayIsLogged(cfg: Config, s: System, op: Call, elapsed: nat, x: SubjectId)
    requires LogAgrees(s) && LogTells(s.log) && MutationOf(op).Some? && op.id in s.memory.receipts
    requires ReplayOf(s.memory, op).response.Returned?
    requires var o := OutcomesIn(ReplayOf(s.memory, op).response.result); x in o && o[x].leaseToken.Some?
    ensures WasStored(s.log, op.id, x, OutcomesIn(ReplayOf(s.memory, op).response.result)[x].leaseToken.value)
  {
    hide ReplayOf;
    ReplayTellsReceipt(s.memory, op);
    assert s.memory.receipts == Replay(s.log).receipts;
    var i := ReceiptIsLogged(s.log, op.id);
    assert TxTells(s.log[i]);
    assert StoresToken(s.log[i], op.id, x, OutcomesIn(s.memory.receipts[op.id].result)[x].leaseToken.value);
  }

  /** In every reachable state and for every modelled call, fresh or replayed: a token told for a subject is one that the
      transaction with the call's receipt stored for that subject. A fresh answer's transaction is its own append, a
      replayed answer's is the append of the original call. */
  lemma RepliesTellLoggedTokens(cfg: Config, actions: seq<Action>, op: Call, elapsed: nat, x: SubjectId)
    requires PlanAt(cfg, Run(cfg, INITIAL, actions), op, elapsed).response.Returned?
    requires var o := OutcomesIn(PlanAt(cfg, Run(cfg, INITIAL, actions), op, elapsed).response.result); x in o && o[x].leaseToken.Some?
    ensures MutationOf(op).Some?
    ensures var s := Run(cfg, INITIAL, actions);
      var plan := PlanAt(cfg, s, op, elapsed);
      WasStored(LogAfter(s, plan), op.id, x, OutcomesIn(plan.response.result)[x].leaseToken.value)
  {
    hide PlanOf, Run, LeasesSound, ReplayOf, LogTells, LogAgrees, WasStored;
    var s := Run(cfg, INITIAL, actions);
    StartIsSound();
    EmptyLogTells();
    LogKeepsTelling(cfg, INITIAL, actions);
    SoundIsDrawn(s);
    if PlanAt(cfg, s, op, elapsed).tx.Some? {
      FreshIsLogged(cfg, s, op, elapsed, x);
    } else {
      AnswerWithoutAppendIsReplay(cfg, s.memory, op, s.clock + elapsed, s.calls);
      UsedIdReplays(cfg, s.memory, op, s.clock + elapsed, s.calls);
      ReplayIsLogged(cfg, s, op, elapsed, x);
    }
  }

  lemma EmptyLogTells()
    ensures LogTells(INITIAL.log)
  {}

  /** An answer that comes without an append is read off a receipt. */
  lemma AnswerWithoutAppendIsReplay(cfg: Config, m: Memory, op: Call, now: Time, call: nat)
    requires PlanOf(cfg, m, op, now, call).tx.None? && PlanOf(cfg, m, op, now, call).response.Returned?
    ensures MutationOf(op).Some? && op.id in m.receipts
  {
    hide PlanSubmit, ExpiredCopy, AuthCodeOf, TakeAll, UseAll, AdoptGranted, HandoffGranted, AdoptAborted, HandoffAborted,
      Selected, OrphanAll, ManifestOf;
    if op.SubmitEvent? && op.id !in m.receipts { SubmitReceipt(cfg, m, op.id, op.controller, op.token, op.event, now); }
  }

  /** A token told for a subject opens it only while it is still the stored one: once another token or none is stored,
      it authenticates for that subject in no later run, however often a replay repeats it. */
  lemma ToldTokenOpensWhileStored(cfg: Config, s: System, later: seq<Action>, x: SubjectId, c: Controller, token: Token,
                                  version: Option<nat>, now: Time)
    requires LeasesSound(s) && (token.Issued? ==> token.call < s.calls)
    ensures var s' := Run(cfg, s, later);
      Authenticates(cfg, s'.memory, x, c, token, version, now) ==> HoldsToken(s.memory, x, token) && HoldsToken(s'.memory, x, token)
  {
    hide Run, Step, Authenticates, HoldsToken;
    if HoldsToken(s.memory, x, token) {
      LeasesDescend(cfg, s, later);
      if Authenticates(cfg, Run(cfg, s, later).memory, x, c, token, version, now) {
        OnlyTheStoredTokenAuthenticates(cfg, Run(cfg, s, later).memory, x, c, token, version, now);
      }
    } else {
      RetiredTokenStaysRetired(cfg, s, later, x, c, token, version, now);
    }
  }
}
