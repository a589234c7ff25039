/** src/control-plane/budget-ledger.ts: budget accounting per job tree. */
module BudgetLedger {
  import opened Finite

  type Scope = nat
  type Job = nat
  type Time = int

  datatype Declaration = Declaration(
    maxJobs: Option<nat>,
    maxWallClock: Option<nat>,
    maxTotalTokens: Option<nat>,
    maxArtifactBytes: Option<nat>)

  datatype Usage = Usage(inputTokens: Option<nat>, outputTokens: Option<nat>, totalTokens: Option<nat>)
  datatype Debit = Debit(usage: Option<Usage>, artifactBytes: Option<nat>)

  datatype Account = Account(
    startedAt: Time,
    admitted: set<Job>,
    settled: set<Job>,
    totalTokens: Option<nat>,
    artifactBytes: nat,
    unknownUsage: nat)

  type Accounts = map<Scope, Account>

  datatype BlockReason = MaxJobs | MaxWallClock | MaxTotalTokens | MaxArtifactBytes | UnprovableTokenUsage

  function OrZero(n: Option<nat>): nat { if n.Some? then n.value else 0 }

  /** `totalTokensOf`: a reported total, else the reported parts, else unknown. */
  function TokensOf(usage: Option<Usage>): (r: Option<nat>)
    ensures r.None? <==> usage.None? || (usage.value.totalTokens.None? && usage.value.inputTokens.None? && usage.value.outputTokens.None?)
    ensures r.Some? && usage.value.totalTokens.Some? ==> r == usage.value.totalTokens
    ensures r.Some? && usage.value.totalTokens.None? ==>
      && (usage.value.inputTokens.Some? ==> r.value >= usage.value.inputTokens.value)
      && r.value - OrZero(usage.value.inputTokens) == OrZero(usage.value.outputTokens)
  {
    if usage.None? then None
    else if usage.value.totalTokens.Some? then usage.value.totalTokens
    else if usage.value.inputTokens.None? && usage.value.outputTokens.None? then None
    else Some(OrZero(usage.value.inputTokens) + OrZero(usage.value.outputTokens))
  }

  function BlockedBy(d: Declaration, a: Account, now: Time): Option<BlockReason> {
    if d.maxJobs.Some? && |a.admitted| >= d.maxJobs.value then Some(MaxJobs)
    else if d.maxWallClock.Some? && now - a.startedAt >= d.maxWallClock.value then Some(MaxWallClock)
    else if d.maxTotalTokens.Some? && OrZero(a.totalTokens) >= d.maxTotalTokens.value then Some(MaxTotalTokens)
    else if d.maxTotalTokens.Some? && a.unknownUsage > 0 then Some(UnprovableTokenUsage)
    else if d.maxArtifactBytes.Some? && a.artifactBytes >= d.maxArtifactBytes.value then Some(MaxArtifactBytes)
    else None
  }

  // ---- calls ---------------------------------------------------------------------------------

  datatype Call = Admit(scope: Scope, job: Job, at: Time) | Settle(scope: Scope, job: Job, debit: Debit, at: Time)

  function Opened(now: Time): Account { Account(now, {}, {}, None, 0, 0) }

  function Admitted(d: Declaration, accounts: Accounts, scope: Scope, job: Job, now: Time): Accounts {
    if scope !in accounts then accounts[scope := Opened(now).(admitted := {job})]
    else if job in accounts[scope].admitted || BlockedBy(d, accounts[scope], now).Some? then accounts
    else accounts[scope := accounts[scope].(admitted := accounts[scope].admitted + {job})]
  }

  function Debited(a: Account, job: Job, debit: Debit): Account {
    var tokens := TokensOf(debit.usage);
    Account(
      a.startedAt, a.admitted, a.settled + {job},
      if tokens.Some? then Some(OrZero(a.totalTokens) + tokens.value) else a.totalTokens,
      a.artifactBytes + OrZero(debit.artifactBytes),
      a.unknownUsage + (if tokens.None? then 1 else 0))
  }

  function Settled(accounts: Accounts, scope: Scope, job: Job, debit: Debit): Accounts {
    if scope !in accounts || job in accounts[scope].settled then accounts
    else accounts[scope := Debited(accounts[scope], job, debit)]
  }

  function Step(d: Declaration, accounts: Accounts, call: Call): Accounts {
    match call
    case Admit(scope, job, at) => Admitted(d, accounts, scope, job, at)
    case Settle(scope, job, debit, _) => Settled(accounts, scope, job, debit)
  }

  function Run(d: Declaration, calls: seq<Call>): Accounts {
    if calls == [] then map[] else Step(d, Run(d, calls[..|calls| - 1]), calls[|calls| - 1])
  }

  // ---- exactness -----------------------------------------------------------------------------

  predicate IsOpen(calls: seq<Call>, scope: Scope) { exists i :: 0 <= i < |calls| && calls[i].Admit? && calls[i].scope == scope }

  /** The first debit of every job settled in an open scope, read off the calls alone. */
  function FirstDebits(calls: seq<Call>, scope: Scope): map<Job, Debit> {
    if calls == [] then map[]
    else
      var n := |calls| - 1;
      var before := FirstDebits(calls[..n], scope);
      var c := calls[n];
      if c.Settle? && c.scope == scope && IsOpen(calls[..n], scope) && c.job !in before then before[c.job := c.debit] else before
  }

  function TokenDebits(debits: map<Job, Debit>): map<Job, nat> {
    map j | j in debits && TokensOf(debits[j].usage).Some? :: TokensOf(debits[j].usage).value
  }

  function ByteDebits(debits: map<Job, Debit>): map<Job, nat> { map j | j in debits :: OrZero(debits[j].artifactBytes) }

  function Unreported(debits: map<Job, Debit>): set<Job> { set j | j in debits && TokensOf(debits[j].usage).None? }

  /** The account of an open scope is the sum of the first debits. */
  ghost predicate Exact(a: Account, debits: map<Job, Debit>) {
    && a.settled == debits.Keys
    && OrZero(a.totalTokens) == SumOf(TokenDebits(debits))
    && (a.totalTokens.None? <==> TokenDebits(debits) == map[])
    && a.artifactBytes == SumOf(ByteDebits(debits))
    && a.unknownUsage == |Unreported(debits)|
  }

  lemma DebitTokens(debits: map<Job, Debit>, job: Job, debit: Debit)
    requires job !in debits
    ensures var after := TokenDebits(debits[job := debit]);
      var tokens := TokensOf(debit.usage);
      && SumOf(after) == SumOf(TokenDebits(debits)) + OrZero(tokens)
      && (after == map[] <==> TokenDebits(debits) == map[] && tokens.None?)
  {
    hide TokensOf;
    var was, after := TokenDebits(debits), TokenDebits(debits[job := debit]);
    var tokens := TokensOf(debit.usage);
    if tokens.Some? {
      assert after == was[job := tokens.value];
      SumChange(was, job, tokens.value);
      assert job in after;
    } else {
      assert after == was;
    }
  }

  lemma DebitBytes(debits: map<Job, Debit>, job: Job, debit: Debit)
    requires job !in debits
    ensures SumOf(ByteDebits(debits[job := debit])) == SumOf(ByteDebits(debits)) + OrZero(debit.artifactBytes)
  {
    assert ByteDebits(debits[job := debit]) == ByteDebits(debits)[job := OrZero(debit.artifactBytes)];
    SumChange(ByteDebits(debits), job, OrZero(debit.artifactBytes));
  }

  lemma DebitUnknown(debits: map<Job, Debit>, job: Job, debit: Debit)
    requires job !in debits
    ensures |Unreported(debits[job := debit])| == |Unreported(debits)| + (if TokensOf(debit.usage).None? then 1 else 0)
  {
    hide TokensOf;
    assert Unreported(debits[job := debit]) == Unreported(debits) + if TokensOf(debit.usage).None? then {job} else {};
  }

  lemma DebitKeepsExact(a: Account, debits: map<Job, Debit>, job: Job, debit: Debit)
    requires Exact(a, debits) && job !in debits
    ensures Exact(Debited(a, job, debit), debits[job := debit])
  {
    hide TokensOf, TokenDebits, ByteDebits, Unreported, SumOf;
    DebitTokens(debits, job, debit);
    DebitBytes(debits, job, debit);
    DebitUnknown(debits, job, debit);
  }

  lemma OpenedIsExact(now: Time, job: Job)
    ensures Exact(Opened(now).(admitted := {job}), map[])
  {
    assert TokenDebits(map[]) == map[] && ByteDebits(map[]) == map[] && Unreported(map[]) == {};
  }

  lemma AdmittingKeepsExact(a: Account, debits: map<Job, Debit>, jobs: set<Job>)
    requires Exact(a, debits)
    ensures Exact(a.(admitted := jobs), debits)
  {
    hide SumOf, TokenDebits, ByteDebits, Unreported;
  }

  lemma OpenAppend(calls: seq<Call>, scope: Scope)
    requires calls != []
    ensures var n := |calls| - 1;
      IsOpen(calls, scope) <==> IsOpen(calls[..n], scope) || (calls[n].Admit? && calls[n].scope == scope)
  {
    var n := |calls| - 1;
    var front := calls[..n];
    assert forall i :: 0 <= i < n ==> front[i] == calls[i];
    if IsOpen(front, scope) {
      var i :| 0 <= i < n && front[i].Admit? && front[i].scope == scope;
      assert calls[i].Admit? && calls[i].scope == scope;
    }
  }

  lemma NotOpenNoDebits(calls: seq<Call>, scope: Scope)
    requires !IsOpen(calls, scope)
    ensures FirstDebits(calls, scope) == map[]
    decreases |calls|
  {
    if calls != [] {
      OpenAppend(calls, scope);
      NotOpenNoDebits(calls[..|calls| - 1], scope);
    }
  }

  /** Ledger exactness: for every interleaving of repeated calls, a scope has an account exactly when something was
      admitted to it, and the account's totals are the sums of each distinct settled job's first debit. */
  lemma {:induction false} LedgerIsExact(d: Declaration, calls: seq<Call>, scope: Scope)
    ensures scope in Run(d, calls) <==> IsOpen(calls, scope)
    ensures scope in Run(d, calls) ==> Exact(Run(d, calls)[scope], FirstDebits(calls, scope))
    decreases |calls|
  {
    hide BlockedBy, Exact, IsOpen, Debited, Opened;
    if calls == [] {
      NothingIsOpen(scope);
    } else {
      var n := |calls| - 1;
      var front, c := calls[..n], calls[n];
      LedgerIsExact(d, front, scope);
      OpenAppend(calls, scope);
      var accounts := Run(d, front);
      if c.scope == scope {
        if c.Admit? {
          if scope !in accounts {
            NotOpenNoDebits(front, scope);
            OpenedIsExact(c.at, c.job);
          } else {
            AdmittingKeepsExact(accounts[scope], FirstDebits(front, scope), accounts[scope].admitted + {c.job});
          }
        } else if scope in accounts {
          ExactSettled(accounts[scope], FirstDebits(front, scope));
          if c.job !in accounts[scope].settled { DebitKeepsExact(accounts[scope], FirstDebits(front, scope), c.job, c.debit); }
        }
      }
    }
  }

  lemma NothingIsOpen(scope: Scope)
    ensures !IsOpen([], scope)
  {}

  lemma ExactSettled(a: Account, debits: map<Job, Debit>)
    requires Exact(a, debits)
    ensures a.settled == debits.Keys
  {}

  /** The call was an admission that was granted: to an unopened scope, to a job granted before, or with no limit reached. */
  ghost predicate IsGranted(d: Declaration, calls: seq<Call>, i: nat)
    requires i < |calls|
    decreases i, 2
  {
    calls[i].Admit? &&
    var before, scope := calls[..i], calls[i].scope;
    !IsOpen(before, scope) || calls[i].job in GrantedJobs(d, before, scope) || Refusal(d, before, scope, calls[i].at) == None
  }

  /** The jobs of a scope that were ever granted, read off the calls alone. */
  ghost function GrantedJobs(d: Declaration, calls: seq<Call>, scope: Scope): set<Job>
    decreases |calls|, 0
  {
    set i | 0 <= i < |calls| && IsGranted(d, calls, i) && calls[i].scope == scope :: calls[i].job
  }

  /** The limit that refuses a new job of an open scope at `now`, read off the calls alone: the jobs granted, the time since the
      scope was opened, the tokens of the first debits, a first debit of unknown size under a token limit, their bytes. */
  ghost function Refusal(d: Declaration, calls: seq<Call>, scope: Scope, now: Time): Option<BlockReason>
    decreases |calls|, 1
  {
    var debits := FirstDebits(calls, scope);
    if d.maxJobs != None && d.maxJobs.value <= |GrantedJobs(d, calls, scope)| then Some(MaxJobs)
    else if d.maxWallClock != None && OpenedAt(calls, scope) + d.maxWallClock.value <= now then Some(MaxWallClock)
    else if d.maxTotalTokens != None && d.maxTotalTokens.value <= SumOf(TokenDebits(debits)) then Some(MaxTotalTokens)
    else if d.maxTotalTokens != None && exists j :: j in debits && TokensOf(debits[j].usage) == None then Some(UnprovableTokenUsage)
    else if d.maxArtifactBytes != None && d.maxArtifactBytes.value <= SumOf(ByteDebits(debits)) then Some(MaxArtifactBytes)
    else None
  }

  /** When a scope was first named in an admission. */
  function OpenedAt(calls: seq<Call>, scope: Scope): Time {
    if calls == [] then 0
    else
      var n := |calls| - 1;
      if IsOpen(calls[..n], scope) then OpenedAt(calls[..n], scope) else calls[n].at
  }

  lemma GrantedAppend(d: Declaration, calls: seq<Call>, scope: Scope)
    requires calls != []
    ensures var n := |calls| - 1;
      GrantedJobs(d, calls, scope) ==
        GrantedJobs(d, calls[..n], scope) + (if IsGranted(d, calls, n) && calls[n].scope == scope then {calls[n].job} else {})
  {
    hide Refusal, IsOpen;
    var n := |calls| - 1;
    var front := calls[..n];
    forall i | 0 <= i < n ensures IsGranted(d, front, i) <==> IsGranted(d, calls, i) { assert front[..i] == calls[..i]; }
    hide IsGranted;
    forall j | j in GrantedJobs(d, front, scope) ensures j in GrantedJobs(d, calls, scope) {
      var i :| 0 <= i < n && IsGranted(d, front, i) && front[i].scope == scope && front[i].job == j;
      assert IsGranted(d, calls, i);
    }
    forall j | j in GrantedJobs(d, calls, scope) && !(IsGranted(d, calls, n) && calls[n].scope == scope && calls[n].job == j)
      ensures j in GrantedJobs(d, front, scope)
    {
      var i :| 0 <= i < |calls| && IsGranted(d, calls, i) && calls[i].scope == scope && calls[i].job == j;
      assert IsGranted(d, front, i);
    }
  }

  /** A scope's admitted jobs are exactly the ones ever granted, and it started with the first admission naming it. */
  lemma {:induction false} AdmittedAreGranted(d: Declaration, calls: seq<Call>, scope: Scope)
    ensures scope in Run(d, calls) <==> IsOpen(calls, scope)
    ensures scope in Run(d, calls) ==>
      Run(d, calls)[scope].admitted == GrantedJobs(d, calls, scope) && Run(d, calls)[scope].startedAt == OpenedAt(calls, scope)
    ensures scope !in Run(d, calls) ==> GrantedJobs(d, calls, scope) == {}
    decreases |calls|
  {
    hide BlockedBy, IsOpen, GrantedJobs, TokensOf, Refusal;
    if calls == [] {
      NothingIsOpen(scope);
      NothingGranted(d, scope);
    } else {
      var n := |calls| - 1;
      AdmittedAreGranted(d, calls[..n], scope);
      OpenAppend(calls, scope);
      GrantedAppend(d, calls, scope);
      if scope in Run(d, calls[..n]) { BlockedIsRefused(d, calls[..n], scope, calls[n].at); }
    }
  }

  lemma BlockedIsRefused(d: Declaration, calls: seq<Call>, scope: Scope, now: Time)
    requires scope in Run(d, calls) && Run(d, calls)[scope].admitted == GrantedJobs(d, calls, scope)
    requires Run(d, calls)[scope].startedAt == OpenedAt(calls, scope)
    ensures BlockedBy(d, Run(d, calls)[scope], now) == Refusal(d, calls, scope, now)
  {
    hide Run, GrantedJobs, SumOf, TokenDebits, ByteDebits, OpenedAt, FirstDebits, IsOpen, TokensOf;
    LedgerIsExact(d, calls, scope);
    UnreportedExists(FirstDebits(calls, scope));
  }

  lemma UnreportedExists(debits: map<Job, Debit>)
    ensures |Unreported(debits)| > 0 <==> exists j :: j in debits && TokensOf(debits[j].usage) == None
  {
    hide TokensOf;
    if j :| j in debits && TokensOf(debits[j].usage) == None { assert j in Unreported(debits); }
  }

  /** When an admission is refused, over every list of calls: if and only if its scope was opened before, the job was never granted
      there, and a limit is reached; the limit named is the first one reached. */
  lemma RefusedIff(d: Declaration, calls: seq<Call>, scope: Scope, job: Job, now: Time)
    ensures var before, after := Run(d, calls), Step(d, Run(d, calls), Admit(scope, job, now));
      && scope in after
      && (job !in after[scope].admitted <==>
            IsOpen(calls, scope) && job !in GrantedJobs(d, calls, scope) && Refusal(d, calls, scope, now) != None)
      && (IsOpen(calls, scope) ==> scope in before && BlockedBy(d, before[scope], now) == Refusal(d, calls, scope, now))
  {
    hide Run, BlockedBy, GrantedJobs, Refusal, IsOpen, OpenedAt;
    AdmittedAreGranted(d, calls, scope);
    if scope in Run(d, calls) { BlockedIsRefused(d, calls, scope, now); }
  }

  lemma NothingGranted(d: Declaration, scope: Scope)
    ensures GrantedJobs(d, [], scope) == {}
  {}

  // ---- the job ceiling -----------------------------------------------------------------------

  ghost predicate WithinJobs(d: Declaration, a: Account) {
    d.maxJobs.Some? ==> |a.admitted| <= (if d.maxJobs.value >= 1 then d.maxJobs.value else 1)
  }

  lemma StepKeepsJobs(d: Declaration, accounts: Accounts, call: Call)
    requires forall s :: s in accounts ==> WithinJobs(d, accounts[s])
    ensures forall s :: s in Step(d, accounts, call) ==> WithinJobs(d, Step(d, accounts, call)[s])
  {
    hide TokensOf;
  }

  /** Admitted jobs never exceed `maxJobs`, for a ceiling of at least one. */
  lemma {:induction false} JobsStayBounded(d: Declaration, calls: seq<Call>, scope: Scope)
    requires scope in Run(d, calls)
    ensures d.maxJobs.Some? && d.maxJobs.value >= 1 ==> |Run(d, calls)[scope].admitted| <= d.maxJobs.value
  {
    hide Run;
    EveryScopeIsBounded(d, calls);
  }

  lemma {:induction false} EveryScopeIsBounded(d: Declaration, calls: seq<Call>)
    ensures forall s :: s in Run(d, calls) ==> WithinJobs(d, Run(d, calls)[s])
    decreases |calls|
  {
    hide Step, WithinJobs;
    if calls != [] {
      EveryScopeIsBounded(d, calls[..|calls| - 1]);
      StepKeepsJobs(d, Run(d, calls[..|calls| - 1]), calls[|calls| - 1]);
    }
  }

  /** A ceiling of zero, which the declaration schema refuses, would admit one job all the same. */
  lemma ZeroCeilingAdmitsOne(scope: Scope, job: Job, now: Time)
    ensures Step(Declaration(Some(0), None, None, None), map[], Admit(scope, job, now)) == map[scope := Opened(now).(admitted := {job})]
  {}

  // ---- blocked for good ----------------------------------------------------------------------

  lemma StepKeepsBlocked(d: Declaration, accounts: Accounts, call: Call, scope: Scope, now: Time)
    requires scope in accounts && BlockedBy(d, accounts[scope], now).Some? && now <= call.at
    ensures var after := Step(d, accounts, call);
      && scope in after && BlockedBy(d, after[scope], call.at).Some?
      && after[scope].admitted == accounts[scope].admitted
  {
    hide TokensOf;
  }

  ghost predicate Nondecreasing(now: Time, calls: seq<Call>) {
    && (forall i :: 0 <= i < |calls| ==> now <= calls[i].at)
    && (forall i, j :: 0 <= i < j < |calls| ==> calls[i].at <= calls[j].at)
  }

  function RunFrom(d: Declaration, accounts: Accounts, calls: seq<Call>): Accounts
    decreases |calls|
  {
    if calls == [] then accounts else RunFrom(d, Step(d, accounts, calls[0]), calls[1..])
  }

  lemma {:induction false} StaysBlocked(d: Declaration, accounts: Accounts, calls: seq<Call>, scope: Scope, now: Time,
                                          later: Time)
    requires scope in accounts && BlockedBy(d, accounts[scope], now).Some? && Nondecreasing(now, calls)
    requires now <= later && forall i :: 0 <= i < |calls| ==> calls[i].at <= later
    ensures var after := RunFrom(d, accounts, calls);
      scope in after && after[scope].admitted == accounts[scope].admitted && BlockedBy(d, after[scope], later).Some?
    decreases |calls|
  {
    hide Step;
    if calls == [] {
      StillBlocked(d, accounts[scope], now, later);
    } else {
      var first, rest := calls[0], calls[1..];
      StepKeepsBlocked(d, accounts, first, scope, now);
      assert forall i :: 0 <= i < |rest| ==> rest[i] == calls[i + 1];
      StaysBlocked(d, Step(d, accounts, first), rest, scope, first.at, later);
    }
  }

  lemma StillBlocked(d: Declaration, a: Account, now: Time, later: Time)
    requires BlockedBy(d, a, now).Some? && now <= later
    ensures BlockedBy(d, a, later).Some?
  {}

  lemma {:induction false} RunContinues(d: Declaration, calls: seq<Call>, more: seq<Call>)
    ensures Run(d, calls + more) == RunFrom(d, Run(d, calls), more)
    decreases |more|
  {
    hide Step;
    if more == [] {
      assert calls + more == calls;
    } else {
      var next := calls + more[..1];
      assert next[..|next| - 1] == calls && next[|next| - 1] == more[0] && next + more[1..] == calls + more;
      RunContinues(d, next, more[1..]);
    }
  }

  /** Once a limit of a scope is reached, whichever it is, the scope grants no new job again while the clock does not run
      backwards, whatever else is admitted or settled. */
  lemma BlockedForGood(d: Declaration, calls: seq<Call>, more: seq<Call>, scope: Scope, now: Time, later: Time)
    requires IsOpen(calls, scope) && Refusal(d, calls, scope, now) != None && Nondecreasing(now, more)
    requires now <= later && forall i :: 0 <= i < |more| ==> more[i].at <= later
    ensures GrantedJobs(d, calls + more, scope) == GrantedJobs(d, calls, scope)
    ensures Refusal(d, calls + more, scope, later) != None
  {
    hide Run, RunFrom, BlockedBy, GrantedJobs, Refusal, IsOpen, OpenedAt, Step;
    AdmittedAreGranted(d, calls, scope);
    BlockedIsRefused(d, calls, scope, now);
    RunContinues(d, calls, more);
    StaysBlocked(d, Run(d, calls), more, scope, now, later);
    AdmittedAreGranted(d, calls + more, scope);
    BlockedIsRefused(d, calls + more, scope, later);
  }

  /** Fail closed: a declared token ceiling and one job settled without usage block the scope. */
  lemma UnknownUsageFailsClosed(d: Declaration, calls: seq<Call>, scope: Scope, job: Job, now: Time)
    requires d.maxTotalTokens.Some? && job in FirstDebits(calls, scope) && TokensOf(FirstDebits(calls, scope)[job].usage).None?
    ensures scope in Run(d, calls) && BlockedBy(d, Run(d, calls)[scope], now).Some?
  {
    hide TokensOf, Run, SumOf;
    LedgerIsExact(d, calls, scope);
    if !IsOpen(calls, scope) { NotOpenNoDebits(calls, scope); }
    UnreportedExists(FirstDebits(calls, scope));
  }

  // ---- the ledger object ---------------------------------------------------------------------

  datatype Decision = Granted | Exceeded(reason: BlockReason)

  datatype Report = Report(jobsStarted: nat, jobsSettled: nat, wallClock: nat, totalTokens: Option<nat>,
                           artifactBytes: nat, unknownUsage: nat)

  class BudgetLedger {
    const declaration: Declaration
    var scopes: Accounts

    constructor (declaration: Declaration)
      ensures this.declaration == declaration && scopes == Run(declaration, [])
    {
      this.declaration := declaration;
      scopes := map[];
    }

    /** A job already counted is granted again without being counted; a blocked scope refuses every other. */
    method Admit(scope: Scope, job: Job, now: Time) returns (decision: Decision)
      modifies this
      ensures scopes == Step(declaration, old(scopes), Call.Admit(scope, job, now))
      ensures decision.Granted? <==> scope in scopes && job in scopes[scope].admitted
      ensures decision.Exceeded? ==> scope in old(scopes) && BlockedBy(declaration, old(scopes)[scope], now) == Some(decision.reason)
      ensures forall calls :: old(scopes) == Run(declaration, calls) ==>
        if IsOpen(calls, scope) && job !in GrantedJobs(declaration, calls, scope) && Refusal(declaration, calls, scope, now) != None
        then decision == Exceeded(Refusal(declaration, calls, scope, now).value) else decision == Granted
    {
      hide Run, GrantedJobs, Refusal, IsOpen;
      ghost var was := scopes;
      forall calls | was == Run(declaration, calls)
        ensures scope in was <==> IsOpen(calls, scope)
        ensures scope in was ==> was[scope].admitted == GrantedJobs(declaration, calls, scope)
        ensures scope in was ==> BlockedBy(declaration, was[scope], now) == Refusal(declaration, calls, scope, now)
      {
        AdmittedAreGranted(declaration, calls, scope);
        RefusedIff(declaration, calls, scope, job, now);
      }
      if scope in scopes && job in scopes[scope].admitted { return Granted; }
      if scope in scopes {
        var blocked := BlockReasonOf(scopes[scope], now);
        if blocked.Some? { return Exceeded(blocked.value); }
      }
      var account := if scope in scopes then scopes[scope] else Opened(now);
      assert Opened(now).admitted + {job} == {job};
      account := account.(admitted := account.admitted + {job});
      scopes := scopes[scope := account];
      decision := Granted;
    }

    method Settle(scope: Scope, job: Job, debit: Debit, now: Time)
      modifies this
      ensures scopes == Step(declaration, old(scopes), Call.Settle(scope, job, debit, now))
    {
      if scope !in scopes || job in scopes[scope].settled { return; }
      var account := scopes[scope].(settled := scopes[scope].settled + {job});
      var tokens := TokensOf(debit.usage);
      if tokens.None? {
        account := account.(unknownUsage := account.unknownUsage + 1);
      } else {
        account := account.(totalTokens := Some(OrZero(account.totalTokens) + tokens.value));
      }
      if debit.artifactBytes.Some? { account := account.(artifactBytes := account.artifactBytes + debit.artifactBytes.value); }
      assert account == Debited(scopes[scope], job, debit);
      scopes := scopes[scope := account];
    }

    method BlockReasonOf(account: Account, now: Time) returns (reason: Option<BlockReason>)
      ensures reason == BlockedBy(declaration, account, now)
    {
      if declaration.maxJobs.Some? && |account.admitted| >= declaration.maxJobs.value { return Some(MaxJobs); }
      if declaration.maxWallClock.Some? && now - account.startedAt >= declaration.maxWallClock.value { return Some(MaxWallClock); }
      if declaration.maxTotalTokens.Some? {
        if OrZero(account.totalTokens) >= declaration.maxTotalTokens.value { return Some(MaxTotalTokens); }
        if account.unknownUsage > 0 { return Some(UnprovableTokenUsage); }
      }
      if declaration.maxArtifactBytes.Some? && account.artifactBytes >= declaration.maxArtifactBytes.value { return Some(MaxArtifactBytes); }
      reason := None;
    }

    /** `usage`, in terms of the calls that led to the ledger's state. */
    method UsageOf(scope: Scope, now: Time, ghost calls: seq<Call>) returns (report: Report)
      requires scopes == Run(declaration, calls)
      ensures report.jobsStarted == |GrantedJobs(declaration, calls, scope)|
      ensures report.wallClock == if IsOpen(calls, scope) && now > OpenedAt(calls, scope) then now - OpenedAt(calls, scope) else 0
      ensures var debits := FirstDebits(calls, scope);
        && report.jobsSettled == |debits|
        && OrZero(report.totalTokens) == SumOf(TokenDebits(debits)) && (report.totalTokens.None? <==> TokenDebits(debits) == map[])
        && report.artifactBytes == SumOf(ByteDebits(debits)) && report.unknownUsage == |Unreported(debits)|
    {
      hide Run, TokensOf;
      LedgerIsExact(declaration, calls, scope);
      AdmittedAreGranted(declaration, calls, scope);
      if scope !in scopes {
        NotOpenNoDebits(calls, scope);
        OpenedIsExact(0, 0);
        return Report(0, 0, 0, None, 0, 0);
      }
      var a := scopes[scope];
      var elapsed := now - a.startedAt;
      report := Report(|a.admitted|, |a.settled|, if elapsed >= 0 then elapsed else 0, a.totalTokens, a.artifactBytes, a.unknownUsage);
      assert |a.settled| == |FirstDebits(calls, scope).Keys|;
    }
  }
}
