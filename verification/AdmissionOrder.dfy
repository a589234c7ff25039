/** Who may be admitted ahead of whom (src/control-plane/admission-scheduler.ts), over one call and over whole runs. */
module AdmissionOrder {
  import opened Finite
  import opened AdmissionRules

  // ---- one admission -------------------------------------------------------------------------

  /** Enqueued earlier, or at the same time and arrived earlier. */
  predicate IsOlder(a: Entry, b: Entry) {
    || a.candidate.enqueuedAt < b.candidate.enqueuedAt
    || (a.candidate.enqueuedAt == b.candidate.enqueuedAt && a.sequence < b.sequence)
  }

  /** A waiting job is passed only when it is a Claude job without a model or one of its own two buckets is full, and no Claude job
      without a model is ever the one admitted. */
  lemma OvertakingRule(l: Limits, p: Pool, older: Job, j: Job)
    requires IsNext(l, p, j) && older in p.queue && IsOlder(p.queue[older], p.queue[j])
    ensures var c := p.queue[older].candidate;
      || (c.provider == "claude" && c.model == None)
      || Full(l, p.reserved, OfProvider(c.provider)) || Full(l, p.reserved, OfRepository(c.repository))
    ensures p.queue[j].candidate.provider == "claude" ==> p.queue[j].candidate.model != None
  {
    hide JobsFull, Full;
  }

  /** Job `i` went from the queue to a slot of its own provider and repository. */
  ghost function Moved(p: Pool, i: Job, at: int): Pool
    requires i in p.queue
  {
    var c := p.queue[i].candidate;
    Pool(map k | k in p.queue && k != i :: p.queue[k], p.reserved[i := Slot(i, c.provider, c.repository, at)], p.sequence, p.open)
  }

  /** Nothing is left waiting that could go: admission comes back empty-handed only when it is closed or everything waiting is held
      back, and what it does admit is the oldest that is not. */
  lemma AdmissionIsGreedy(l: Limits, p: Pool, call: Call, p': Pool, j: Job)
    requires Sound(l, p) && call.AdmitNext? && Step(l, p, call, p') && p.open
    requires j in p.queue && BlockedBy(l, p.reserved, p.queue[j].candidate) == None
    ensures exists i :: i in p.queue && i !in p'.queue && (i == j || IsOlder(p.queue[i], p.queue[j])) && p' == Moved(p, i, call.at)
  {
    hide BlockedBy, WithinLimits;
    var i :| IsNext(l, p, i) && p' == Admitted(p, i, call.at);
    assert p.queue[i].candidate.job == i;
    assert i in p.queue && i !in p'.queue && p' == Moved(p, i, call.at);
    if i != j { assert !Before(p.queue[j], p.queue[i]) && p.queue[i].sequence != p.queue[j].sequence; }
  }

  /** The bucket has a limit, and the limit can be reached before the global one is. */
  predicate Binds(l: Limits, b: Bucket) {
    LimitOf(l, b).Some? && (l.maxJobs.None? || l.maxJobs.value > LimitOf(l, b).value)
  }

  /** Every limit that can bind `e` alone counts `x` too, so `x` has no way past `e`. */
  predicate Covers(l: Limits, x: Candidate, e: Candidate) {
    && LaunchSafe(x) && LaunchSafe(e)
    && (Binds(l, OfProvider(e.provider)) ==> x.provider == e.provider)
    && (Binds(l, OfRepository(e.repository)) ==> x.repository == e.repository)
  }

  lemma HoldersAreReserved(reserved: map<Job, Slot>, b: Bucket)
    ensures |Holders(reserved, b)| <= |reserved|
  {
    SubsetSize(Holders(reserved, b), reserved.Keys);
  }

  lemma CoveredIsNotPassed(l: Limits, p: Pool, e: Job, x: Job)
    requires Sound(l, p) && IsNext(l, p, x) && e in p.queue && e != x && Covers(l, p.queue[x].candidate, p.queue[e].candidate)
    ensures Before(p.queue[x], p.queue[e])
  {
    hide WithinLimits, Holders;
    HoldersAreReserved(p.reserved, OfProvider(p.queue[e].candidate.provider));
    HoldersAreReserved(p.reserved, OfRepository(p.queue[e].candidate.repository));
  }

  lemma FifoStep(l: Limits, p: Pool, call: Call, p': Pool, first: Entry, second: Entry)
    requires Sound(l, p) && Step(l, p, call, p')
    requires Waiting(p, first) && Waiting(p, second) && Waiting(p', first)
    requires Before(first, second) && Covers(l, second.candidate, first.candidate) && call != Withdraw(second.candidate.job)
    ensures Waiting(p', second)
  {
    hide WithinLimits, BlockedBy, Covers;
    if call.AdmitNext? && p' != p {
      var j :| IsNext(l, p, j) && p' == Admitted(p, j, call.at);
      if j == second.candidate.job { CoveredIsNotPassed(l, p, first.candidate.job, j); }
    }
  }

  /** First in, first out: of two launch-safe jobs of one provider and repository, the later in scan order is not
      admitted in any run through which the earlier one waits. */
  lemma {:induction false} FifoWithinBuckets(l: Limits, pools: seq<Pool>, calls: seq<Call>, n: nat, first: Entry, second: Entry)
    requires IsRun(l, pools, calls) && Sound(l, pools[0]) && n < |pools|
    requires Waiting(pools[0], first) && Waiting(pools[0], second) && Before(first, second)
    requires Covers(l, second.candidate, first.candidate)
    requires Withdraw(second.candidate.job) !in calls
    ensures Waiting(pools[n], first) ==> Waiting(pools[n], second)
  {
    hide Sound, Step, Waiting, Before, Covers;
    if n > 0 && Waiting(pools[n], first) {
      ArrivedBefore(l, pools[0], first);
      WaitedThrough(l, pools, calls, n - 1, n, first);
      FifoWithinBuckets(l, pools, calls, n - 1, first, second);
      FifoStep(l, pools[n - 1], calls[n - 1], pools[n], first, second);
    }
  }

  // ---- counting admissions while a job waits -------------------------------------------------

  /** The jobs of a kind that wait ahead of `e`. */
  ghost function Ahead(p: Pool, e: Entry, rival: Candidate -> bool): set<Job> {
    set j | j in p.queue && Before(p.queue[j], e) && rival(p.queue[j].candidate)
  }

  ghost predicate Admits(p: Pool, p': Pool, j: Job) { j in p.queue && j in p'.reserved && j !in p.reserved }

  ghost predicate AdmitsRival(p: Pool, p': Pool, rival: Candidate -> bool) {
    exists j :: Admits(p, p', j) && rival(p.queue[j].candidate)
  }

  /** How many of the first `n` calls admitted a job of the kind. */
  ghost function Admissions(pools: seq<Pool>, n: nat, rival: Candidate -> bool): nat
    requires n < |pools|
  {
    if n == 0 then 0
    else Admissions(pools, n - 1, rival) + if AdmitsRival(pools[n - 1], pools[n], rival) then 1 else 0
  }

  ghost predicate EnqueuesInOrder(call: Call, e: Entry) {
    call.Enqueue? ==> call.candidate.enqueuedAt >= e.candidate.enqueuedAt
  }

  /** Whoever of the kind is admitted by this step was ahead of `e`. */
  ghost predicate OnlyFromAhead(p: Pool, p': Pool, e: Entry, rival: Candidate -> bool) {
    forall j :: Admits(p, p', j) && rival(p.queue[j].candidate) ==> Before(p.queue[j], e)
  }

  lemma AheadNeverGrows(l: Limits, p: Pool, call: Call, p': Pool, e: Entry, rival: Candidate -> bool)
    requires Sound(l, p) && Step(l, p, call, p') && Waiting(p, e) && Waiting(p', e) && EnqueuesInOrder(call, e)
    ensures Ahead(p', e, rival) <= Ahead(p, e, rival)
  {
    hide WithinLimits, BlockedBy, IsNext, NoneNext;
  }

  lemma AheadShrinks(l: Limits, p: Pool, call: Call, p': Pool, e: Entry, rival: Candidate -> bool)
    requires Sound(l, p) && Step(l, p, call, p') && Waiting(p, e) && Waiting(p', e) && EnqueuesInOrder(call, e)
    requires AdmitsRival(p, p', rival) && OnlyFromAhead(p, p', e, rival)
    ensures |Ahead(p', e, rival)| < |Ahead(p, e, rival)|
  {
    hide WithinLimits, BlockedBy, IsNext, NoneNext;
    var j :| Admits(p, p', j) && rival(p.queue[j].candidate);
    AheadNeverGrows(l, p, call, p', e, rival);
    assert j in Ahead(p, e, rival) && j !in Ahead(p', e, rival);
    SubsetSize(Ahead(p', e, rival), Ahead(p, e, rival) - {j});
  }

  /** A run, from a sound pool, through which `e` waits while nothing older than it is enqueued. */
  ghost predicate WaitsThrough(l: Limits, pools: seq<Pool>, calls: seq<Call>, e: Entry) {
    && IsRun(l, pools, calls) && Sound(l, pools[0])
    && Waiting(pools[0], e) && Waiting(pools[|calls|], e)
    && forall k :: 0 <= k < |calls| ==> EnqueuesInOrder(calls[k], e)
  }

  lemma WaitsAt(l: Limits, pools: seq<Pool>, calls: seq<Call>, e: Entry, k: nat)
    requires WaitsThrough(l, pools, calls, e) && k < |pools|
    ensures Sound(l, pools[k]) && Waiting(pools[k], e)
  {
    hide Sound, Step, Waiting;
    ArrivedBefore(l, pools[0], e);
    WaitedThrough(l, pools, calls, k, |calls|, e);
  }

  /** If a kind of job is only ever admitted from ahead of `e`, as many are admitted as leave the jobs ahead, at most. */
  lemma {:induction false} CountedAhead(l: Limits, pools: seq<Pool>, calls: seq<Call>, n: nat, e: Entry,
                                        rival: Candidate -> bool)
    requires WaitsThrough(l, pools, calls, e) && n < |pools|
    requires forall k :: 0 <= k < n ==> OnlyFromAhead(pools[k], pools[k + 1], e, rival)
    ensures Admissions(pools, n, rival) + |Ahead(pools[n], e, rival)| <= |Ahead(pools[0], e, rival)|
  {
    hide Sound, Step, Ahead, AdmitsRival, Waiting, EnqueuesInOrder, OnlyFromAhead;
    if n > 0 {
      WaitsAt(l, pools, calls, e, n - 1);
      WaitsAt(l, pools, calls, e, n);
      CountedAhead(l, pools, calls, n - 1, e, rival);
      assert OnlyFromAhead(pools[n - 1], pools[n - 1 + 1], e, rival);
      AheadNeverGrows(l, pools[n - 1], calls[n - 1], pools[n], e, rival);
      SubsetSize(Ahead(pools[n], e, rival), Ahead(pools[n - 1], e, rival));
      if AdmitsRival(pools[n - 1], pools[n], rival) { AheadShrinks(l, pools[n - 1], calls[n - 1], pools[n], e, rival); }
    }
  }

  // ---- bounded overtaking --------------------------------------------------------------------

  lemma AdmittedIsNext(l: Limits, p: Pool, call: Call, p': Pool, j: Job)
    requires Sound(l, p) && Step(l, p, call, p') && Admits(p, p', j)
    ensures call.AdmitNext? && IsNext(l, p, j) && p' == Admitted(p, j, call.at)
  {
    hide WithinLimits, BlockedBy, Before, NoneNext;
    if call.AdmitNext? {
      var i :| IsNext(l, p, i) && p' == Admitted(p, i, call.at);
    }
  }

  lemma CoveredOnlyFromAhead(l: Limits, p: Pool, call: Call, p': Pool, e: Entry, rival: Candidate -> bool)
    requires Sound(l, p) && Step(l, p, call, p') && Waiting(p, e) && Waiting(p', e)
    requires forall x :: rival(x) && LaunchSafe(x) ==> Covers(l, x, e.candidate)
    ensures OnlyFromAhead(p, p', e, rival)
  {
    hide WithinLimits, Covers, NoneNext;
    forall j | Admits(p, p', j) && rival(p.queue[j].candidate) ensures Before(p.queue[j], e) {
      AdmittedIsNext(l, p, call, p', j);
      CoveredIsNotPassed(l, p, e.candidate.job, j);
    }
  }

  lemma CoveredAreCounted(l: Limits, pools: seq<Pool>, calls: seq<Call>, e: Entry, rival: Candidate -> bool)
    requires WaitsThrough(l, pools, calls, e)
    requires forall x :: rival(x) && LaunchSafe(x) ==> Covers(l, x, e.candidate)
    ensures Admissions(pools, |calls|, rival) + |Ahead(pools[|calls|], e, rival)| <= |Ahead(pools[0], e, rival)|
  {
    hide Sound, Step, Waiting, Covers, OnlyFromAhead, Ahead, LaunchSafe;
    forall k | 0 <= k < |calls| ensures OnlyFromAhead(pools[k], pools[k + 1], e, rival) {
      WaitsAt(l, pools, calls, e, k);
      WaitsAt(l, pools, calls, e, k + 1);
      CoveredOnlyFromAhead(l, pools[k], calls[k], pools[k + 1], e, rival);
    }
    CountedAhead(l, pools, calls, |calls|, e, rival);
  }

  /** With nondecreasing enqueue times, a launch-safe job that still waits has been passed by at most as many jobs
      that cover its limits as were ahead of it at the start. */
  lemma BoundedOvertaking(l: Limits, pools: seq<Pool>, calls: seq<Call>, e: Entry)
    requires WaitsThrough(l, pools, calls, e)
    ensures var rival := x => Covers(l, x, e.candidate);
      Admissions(pools, |calls|, rival) + |Ahead(pools[|calls|], e, rival)| <= |Ahead(pools[0], e, rival)|
  {
    hide WaitsThrough, Covers;
    CoveredAreCounted(l, pools, calls, e, x => Covers(l, x, e.candidate));
  }

  // ---- progress ------------------------------------------------------------------------------

  /** `e` has room and the gate is open whenever admission is tried. */
  ghost predicate HasRoomWhenTried(l: Limits, p: Pool, call: Call, e: Entry) {
    call.AdmitNext? ==> p.open && BlockedBy(l, p.reserved, e.candidate).None?
  }

  ghost function Tries(calls: seq<Call>, n: nat): nat
    requires n <= |calls|
  {
    if n == 0 then 0 else Tries(calls, n - 1) + if calls[n - 1].AdmitNext? then 1 else 0
  }

  ghost function Anyone(): Candidate -> bool { x => true }

  lemma TryAdmitsFromAhead(l: Limits, p: Pool, call: Call, p': Pool, e: Entry)
    requires Sound(l, p) && Step(l, p, call, p') && Waiting(p, e) && Waiting(p', e) && HasRoomWhenTried(l, p, call, e)
    ensures OnlyFromAhead(p, p', e, Anyone())
    ensures call.AdmitNext? ==> AdmitsRival(p, p', Anyone())
  {
    hide WithinLimits, BlockedBy;
    forall j | Admits(p, p', j) ensures Before(p.queue[j], e) { AdmittedIsNext(l, p, call, p', j); }
    if call.AdmitNext? {
      assert !NoneNext(l, p);
      var j :| IsNext(l, p, j) && p' == Admitted(p, j, call.at);
      assert Admits(p, p', j);
    }
  }

  lemma {:induction false} TriesAreAdmissions(l: Limits, pools: seq<Pool>, calls: seq<Call>, e: Entry, n: nat)
    requires WaitsThrough(l, pools, calls, e) && n <= |calls|
    requires forall k :: 0 <= k < |calls| ==> HasRoomWhenTried(l, pools[k], calls[k], e)
    ensures Tries(calls, n) <= Admissions(pools, n, Anyone())
    ensures forall k :: 0 <= k < n ==> OnlyFromAhead(pools[k], pools[k + 1], e, Anyone())
  {
    hide Sound, Step, Waiting, OnlyFromAhead, AdmitsRival, BlockedBy;
    if n > 0 {
      TriesAreAdmissions(l, pools, calls, e, n - 1);
      WaitsAt(l, pools, calls, e, n - 1);
      WaitsAt(l, pools, calls, e, n);
      TryAdmitsFromAhead(l, pools[n - 1], calls[n - 1], pools[n], e);
    }
  }

  lemma StillWaitingHadFewTries(l: Limits, pools: seq<Pool>, calls: seq<Call>, e: Entry)
    requires WaitsThrough(l, pools, calls, e)
    requires forall k :: 0 <= k < |calls| ==> HasRoomWhenTried(l, pools[k], calls[k], e)
    ensures Tries(calls, |calls|) <= |Ahead(pools[0], e, Anyone())|
  {
    hide Sound, Step, Waiting, HasRoomWhenTried, OnlyFromAhead, Ahead;
    TriesAreAdmissions(l, pools, calls, e, |calls|);
    CountedAhead(l, pools, calls, |calls|, e, Anyone());
  }

  lemma {:induction false} FirstLeft(pools: seq<Pool>, e: Entry, n: nat) returns (k: nat)
    requires n < |pools| && Waiting(pools[0], e) && !Waiting(pools[n], e)
    ensures 0 < k <= n && Waiting(pools[k - 1], e) && !Waiting(pools[k], e)
  {
    if Waiting(pools[n - 1], e) { k := n; } else { k := FirstLeft(pools, e, n - 1); }
  }

  lemma LeftByAdmission(l: Limits, p: Pool, call: Call, p': Pool, e: Entry)
    requires Sound(l, p) && Step(l, p, call, p') && Waiting(p, e) && !Waiting(p', e) && call != Withdraw(e.candidate.job)
    ensures Admits(p, p', e.candidate.job)
  {
    hide WithinLimits, BlockedBy, Before, NoneNext;
  }

  /** Progress: with nondecreasing enqueue times, a job that has room whenever admission is tried while it waits, and
      is not withdrawn, is admitted within one try more than there were jobs, of any kind, ahead of it. */
  lemma AdmittedInTurn(l: Limits, pools: seq<Pool>, calls: seq<Call>, e: Entry)
    requires IsRun(l, pools, calls) && Sound(l, pools[0]) && Waiting(pools[0], e) && Withdraw(e.candidate.job) !in calls
    requires forall k :: 0 <= k < |calls| ==> EnqueuesInOrder(calls[k], e)
    requires forall k :: 0 <= k < |calls| && Waiting(pools[k], e) ==> HasRoomWhenTried(l, pools[k], calls[k], e)
    requires Tries(calls, |calls|) > |Ahead(pools[0], e, Anyone())|
    ensures exists k :: 0 <= k < |calls| && Admits(pools[k], pools[k + 1], e.candidate.job)
  {
    hide Sound, Step, Waiting, HasRoomWhenTried, Ahead, Admits;
    if Waiting(pools[|calls|], e) {
      forall k | 0 <= k < |calls| ensures HasRoomWhenTried(l, pools[k], calls[k], e) { WaitsAt(l, pools, calls, e, k); }
      StillWaitingHadFewTries(l, pools, calls, e);
    } else {
      var k := FirstLeft(pools, e, |calls|);
      SoundFrom(l, pools, calls, k - 1);
      assert calls[k - 1] in calls;
      LeftByAdmission(l, pools[k - 1], calls[k - 1], pools[k - 1 + 1], e);
    }
  }
}
