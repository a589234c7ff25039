/** The claim that no job is passed over indefinitely (src/control-plane/admission-scheduler.ts:71-76): exactly which
    declared limits make it true for a job, and the runs that refute it for the others. */
module AdmissionStarvation {
  import opened Finite
  import opened AdmissionRules
  import opened AdmissionOrder

  /** What the declaration schema demands. */
  predicate Positive(l: Limits) {
    && (l.maxJobs.Some? ==> l.maxJobs.value >= 1)
    && (forall v :: v in l.perProvider ==> l.perProvider[v] >= 1)
    && (l.perRepository.Some? ==> l.perRepository.value >= 1)
  }

  function ProviderOf(c: Candidate): Bucket { OfProvider(c.provider) }
  function RepositoryOf(c: Candidate): Bucket { OfRepository(c.repository) }

  /** `x` belongs to a limited bucket of `e`. */
  predicate Competes(l: Limits, x: Candidate, e: Candidate) {
    || (LimitOf(l, ProviderOf(e)).Some? && x.provider == e.provider)
    || (LimitOf(l, RepositoryOf(e)).Some? && x.repository == e.repository)
  }

  ghost function RivalsOf(l: Limits, e: Candidate): Candidate -> bool { x => Competes(l, x, e) }

  /** Both buckets are limited, and the global limit leaves a place beside the smaller one filled up. */
  predicate Starvable(l: Limits, c: Candidate) {
    && LimitOf(l, ProviderOf(c)).Some? && LimitOf(l, RepositoryOf(c)).Some?
    && (l.maxJobs.None? || l.maxJobs.value > LimitOf(l, ProviderOf(c)).value || l.maxJobs.value > LimitOf(l, RepositoryOf(c)).value)
  }

  ghost predicate Reached(l: Limits, p: Pool) {
    exists pools, calls :: IsRun(l, pools, calls) && pools[0] == EMPTY && pools[|calls|] == p
  }

  /** The claim for a job: in any run that starts from a reached pool where the job waits, with nondecreasing enqueue times
      and the job still waiting at the end, no more of its competitors are admitted than were ahead of it. */
  ghost predicate NeverPassedOver(l: Limits, c: Candidate) {
    forall pools, calls, e :: WaitsThrough(l, pools, calls, e) && Reached(l, pools[0]) && e.candidate == c ==>
      Admissions(pools, |calls|, RivalsOf(l, c)) <= |Ahead(pools[0], e, RivalsOf(l, c))|
  }

  /** If not starvable, every competitor covers the job's limits. */
  lemma CompetitorsCover(l: Limits, x: Candidate, e: Candidate)
    requires LaunchSafe(x) && LaunchSafe(e) && !Starvable(l, e) && Competes(l, x, e)
    ensures Covers(l, x, e)
  {}

  lemma NotStarvableIsNotPassed(l: Limits, c: Candidate)
    requires LaunchSafe(c) && !Starvable(l, c)
    ensures NeverPassedOver(l, c)
  {
    hide Sound, Step, Waiting, EnqueuesInOrder, Ahead, Covers;
    forall pools, calls, e | WaitsThrough(l, pools, calls, e) && Reached(l, pools[0]) && e.candidate == c
      ensures Admissions(pools, |calls|, RivalsOf(l, c)) <= |Ahead(pools[0], e, RivalsOf(l, c))|
    {
      forall x | RivalsOf(l, c)(x) && LaunchSafe(x) ensures Covers(l, x, c) { CompetitorsCover(l, x, c); }
      CoveredAreCounted(l, pools, calls, e, RivalsOf(l, c));
    }
  }

  // ---- pools whose slots all compete with one job --------------------------------------------

  function OtherBucket(c: Candidate, b: Bucket): Bucket { if b.OfProvider? then RepositoryOf(c) else ProviderOf(c) }

  predicate IsOwn(c: Candidate, b: Bucket) { b == ProviderOf(c) || b == RepositoryOf(c) }

  /** Every slot belongs to exactly one bucket of `c`, and `c` itself holds none. */
  ghost predicate Holding(l: Limits, p: Pool, c: Candidate) {
    && Sound(l, p) && p.open && c.job !in p.reserved
    && Holders(p.reserved, ProviderOf(c)) !! Holders(p.reserved, RepositoryOf(c))
    && p.reserved.Keys == Holders(p.reserved, ProviderOf(c)) + Holders(p.reserved, RepositoryOf(c))
  }

  lemma HoldingCounts(l: Limits, p: Pool, c: Candidate)
    requires Holding(l, p, c)
    ensures |p.reserved| == |Holders(p.reserved, ProviderOf(c))| + |Holders(p.reserved, RepositoryOf(c))|
  {
    hide Sound, Holders;
    assert |p.reserved| == |p.reserved.Keys|;
  }

  /** A job for bucket `b` of `c` and no other bucket in use. */
  ghost predicate IsNewcomer(reserved: map<Job, Slot>, c: Candidate, b: Bucket, x: Candidate) {
    && x.job !in reserved && x.job != c.job && x.enqueuedAt == c.enqueuedAt && LaunchSafe(x)
    && (if b.OfProvider?
        then x.provider == c.provider && x.repository != c.repository && Holders(reserved, RepositoryOf(x)) == {}
        else x.repository == c.repository && x.provider != c.provider && Holders(reserved, ProviderOf(x)) == {})
  }

  lemma {:induction false} Unused(used: set<nat>) returns (x: nat)
    ensures x !in used && forall y :: y in used ==> y < x
  {
    if used == {} {
      x := 0;
    } else {
      var y :| y in used;
      var z := Unused(used - {y});
      x := if y < z then z else y + 1;
      forall w | w in used ensures w < x { assert w == y || w in used - {y}; }
    }
  }

  function Repositories(reserved: map<Job, Slot>): set<Repository> { set j | j in reserved :: reserved[j].repository }

  /** The lengths of the provider names in use: a longer name is a new one. */
  function NameLengths(reserved: map<Job, Slot>): set<nat> { set j | j in reserved :: |reserved[j].provider| }

  function LongName(n: nat): string { if n == 0 then "" else "x" + LongName(n - 1) }

  lemma {:induction false} NameIsLong(n: nat)
    ensures |LongName(n)| == n
  {
    if n > 0 { NameIsLong(n - 1); }
  }

  lemma Newcomer(reserved: map<Job, Slot>, c: Candidate, b: Bucket, avoid: set<Job>) returns (x: Candidate)
    requires IsOwn(c, b) && LaunchSafe(c)
    ensures IsNewcomer(reserved, c, b, x) && x.job !in avoid
  {
    var job := Unused(reserved.Keys + avoid + {c.job});
    if b.OfProvider? {
      var elsewhere := Unused(Repositories(reserved) + {c.repository});
      x := Candidate(job, c.provider, elsewhere, c.enqueuedAt, c.model);
      assert forall j :: j in reserved ==> reserved[j].repository in Repositories(reserved);
    } else {
      var n := Unused(NameLengths(reserved) + {|c.provider|});
      NameIsLong(n);
      x := Candidate(job, LongName(n), c.repository, c.enqueuedAt, Some(""));
      assert forall j :: j in reserved ==> |reserved[j].provider| in NameLengths(reserved);
    }
  }

  lemma NewcomerIsFree(l: Limits, reserved: map<Job, Slot>, c: Candidate, b: Bucket, x: Candidate)
    requires Positive(l) && IsOwn(c, b) && IsNewcomer(reserved, c, b, x) && !JobsFull(l, reserved) && !Full(l, reserved, b)
    ensures BlockedBy(l, reserved, x).None?
  {
    hide Holders;
  }

  // ---- growing and swapping slots ------------------------------------------------------------

  /** What a newcomer's slot does to the pool's buckets. */
  lemma NewSlot(l: Limits, p: Pool, c: Candidate, b: Bucket, x: Candidate, at: int, p': Pool)
    requires Holding(l, p, c) && IsOwn(c, b) && IsNewcomer(p.reserved, c, b, x)
    requires Sound(l, p') && p'.open && p'.reserved == p.reserved[x.job := SlotFor(x, at)]
    ensures Holding(l, p', c)
    ensures Holders(p'.reserved, b) == Holders(p.reserved, b) + {x.job}
    ensures Holders(p'.reserved, OtherBucket(c, b)) == Holders(p.reserved, OtherBucket(c, b))
  {
    hide Sound;
  }

  lemma LostSlot(reserved: map<Job, Slot>, j: Job, b: Bucket)
    ensures Holders(reserved - {j}, b) == Holders(reserved, b) - {j}
  {
    hide InBucket;
  }

  ghost predicate Emptied(p: Pool, p': Pool, j: Job) { p' == p.(reserved := p.reserved - {j}) }

  lemma ReleaseHolds(l: Limits, p: Pool, c: Candidate, j: Job, p': Pool)
    requires Holding(l, p, c) && Emptied(p, p', j)
    ensures Holding(l, p', c) && Step(l, p, Release(j), p')
  {
    hide Sound, Holders;
    StepKeepsSound(l, p, Release(j), p');
    LostSlot(p.reserved, j, ProviderOf(c));
    LostSlot(p.reserved, j, RepositoryOf(c));
  }

  /** A newcomer enqueued into an empty queue, or behind a blocked `c` alone, is the next to be admitted. */
  lemma AdmitNewcomer(l: Limits, p: Pool, x: Candidate) returns (p1: Pool, p2: Pool)
    requires Sound(l, p) && p.open && x.job !in p.reserved && x.job !in p.queue && BlockedBy(l, p.reserved, x).None?
    requires forall i :: i in p.queue ==> BlockedBy(l, p.reserved, p.queue[i].candidate).Some?
    ensures p1 == Enqueued(p, x) && Step(l, p, Enqueue(x), p1) && Step(l, p1, AdmitNext(x.enqueuedAt), p2)
    ensures Sound(l, p2) && p2.open && p2.queue == p.queue && p2.reserved == p.reserved[x.job := SlotFor(x, x.enqueuedAt)]
    ensures Admits(p1, p2, x.job) && p1.queue[x.job].candidate == x
  {
    hide WithinLimits, BlockedBy, Sound;
    p1 := Enqueued(p, x);
    assert p1.queue == p.queue[x.job := Entry(x, p.sequence + 1)];
    assert IsNext(l, p1, x.job);
    p2 := Admitted(p1, x.job, x.enqueuedAt);
    StepKeepsSound(l, p, Enqueue(x), p1);
    assert Step(l, p1, AdmitNext(x.enqueuedAt), p2);
    StepKeepsSound(l, p1, AdmitNext(x.enqueuedAt), p2);
    assert p2.queue == p.queue;
  }

  lemma {:induction false} RunExtends(l: Limits, pools: seq<Pool>, calls: seq<Call>, call: Call, p': Pool)
    requires IsRun(l, pools, calls) && Step(l, pools[|calls|], call, p')
    ensures IsRun(l, pools + [p'], calls + [call])
  {
    hide Step;
    var after, made := pools + [p'], calls + [call];
    forall k | 0 <= k < |made| ensures Step(l, after[k], made[k], after[k + 1]) {}
  }

  lemma ReachedStep(l: Limits, p: Pool, call: Call, p': Pool)
    requires Reached(l, p) && Step(l, p, call, p')
    ensures Reached(l, p')
  {
    hide Step;
    var pools, calls :| IsRun(l, pools, calls) && pools[0] == EMPTY && pools[|calls|] == p;
    RunExtends(l, pools, calls, call, p');
    var after, made := pools + [p'], calls + [call];
    assert IsRun(l, after, made) && after[0] == EMPTY && after[|made|] == p';
  }

  /** One more slot in bucket `b`, while nobody waits. */
  lemma Grow(l: Limits, p: Pool, c: Candidate, b: Bucket) returns (p': Pool)
    requires Positive(l) && LaunchSafe(c) && IsOwn(c, b) && Holding(l, p, c) && Reached(l, p) && p.queue == map[]
    requires !JobsFull(l, p.reserved) && !Full(l, p.reserved, b)
    ensures Holding(l, p', c) && Reached(l, p') && p'.queue == map[]
    ensures |Holders(p'.reserved, b)| == |Holders(p.reserved, b)| + 1
    ensures |Holders(p'.reserved, OtherBucket(c, b))| == |Holders(p.reserved, OtherBucket(c, b))|
  {
    hide WithinLimits, BlockedBy, Holders, IsNewcomer, Step, Reached, JobsFull, Full;
    var x := Newcomer(p.reserved, c, b, {});
    NewcomerIsFree(l, p.reserved, c, b, x);
    NewcomerFacts(p.reserved, c, b, x);
    var p1, p2 := AdmitNewcomer(l, p, x);
    ReachedStep(l, p, Enqueue(x), p1);
    ReachedStep(l, p1, AdmitNext(x.enqueuedAt), p2);
    NewSlot(l, p, c, b, x, x.enqueuedAt, p2);
    HoldersInside(p.reserved, b);
    p' := p2;
  }

  lemma NewcomerFacts(reserved: map<Job, Slot>, c: Candidate, b: Bucket, x: Candidate)
    requires IsNewcomer(reserved, c, b, x)
    ensures x.job !in reserved && x.job != c.job && x.enqueuedAt == c.enqueuedAt
  {}

  lemma HoldersInside(reserved: map<Job, Slot>, b: Bucket)
    ensures Holders(reserved, b) <= reserved.Keys
  {}

  lemma {:induction false} Fill(l: Limits, p: Pool, c: Candidate, b: Bucket, n: nat) returns (p': Pool)
    requires Positive(l) && LaunchSafe(c) && IsOwn(c, b) && Holding(l, p, c) && Reached(l, p) && p.queue == map[]
    requires |Holders(p.reserved, b)| <= n
    requires LimitOf(l, b).Some? ==> n <= LimitOf(l, b).value
    requires l.maxJobs.Some? ==> n + |Holders(p.reserved, OtherBucket(c, b))| <= l.maxJobs.value
    ensures Holding(l, p', c) && Reached(l, p') && p'.queue == map[] && |Holders(p'.reserved, b)| == n
    ensures |Holders(p'.reserved, OtherBucket(c, b))| == |Holders(p.reserved, OtherBucket(c, b))|
    decreases n - |Holders(p.reserved, b)|
  {
    hide Sound, Holding, Holders, Reached;
    if |Holders(p.reserved, b)| == n {
      p' := p;
    } else {
      HoldingCounts(l, p, c);
      var q := Grow(l, p, c, b);
      p' := Fill(l, q, c, b, n);
    }
  }

  lemma Start(l: Limits, c: Candidate) returns (p: Pool)
    ensures Holding(l, p, c) && Reached(l, p) && p.queue == map[] && p.reserved == map[]
  {
    p := EMPTY.(open := true);
    var pools, calls := [EMPTY, p], [SetOpen(true)];
    assert IsRun(l, pools, calls) && pools[0] == EMPTY && pools[|calls|] == p;
    RunsStaySound(l, pools, calls, 1);
  }

  /** Both buckets filled as far as asked, and then `c` enqueued. */
  lemma FillBoth(l: Limits, c: Candidate, b: Bucket, n: nat, k: nat) returns (p: Pool, e: Entry)
    requires Positive(l) && LaunchSafe(c) && IsOwn(c, b)
    requires LimitOf(l, b).Some? && n <= LimitOf(l, b).value && LimitOf(l, OtherBucket(c, b)).Some? && k <= LimitOf(l, OtherBucket(c, b)).value
    requires l.maxJobs.Some? ==> n + k <= l.maxJobs.value
    ensures e.candidate == c && Holding(l, p, c) && Reached(l, p) && p.queue == map[c.job := e]
    ensures |Holders(p.reserved, b)| == n && |Holders(p.reserved, OtherBucket(c, b))| == k
  {
    hide Sound, Reached, Step, WithinLimits;
    var p0 := Start(l, c);
    NoHolders(b);
    NoHolders(OtherBucket(c, b));
    var p1 := Fill(l, p0, c, b, n);
    var p2 := Fill(l, p1, c, OtherBucket(c, b), k);
    EnqueueWaits(l, p2, c);
    p := Enqueued(p2, c);
    e := Entry(c, p2.sequence + 1);
    ReachedStep(l, p2, Enqueue(c), p);
  }

  lemma NoHolders(b: Bucket)
    ensures Holders(map[], b) == {}
  {}

  lemma EnqueueWaits(l: Limits, p: Pool, c: Candidate)
    requires Holding(l, p, c) && p.queue == map[]
    ensures var p' := Enqueued(p, c);
      && Step(l, p, Enqueue(c), p') && Holding(l, p', c) && p'.queue == map[c.job := Entry(c, p.sequence + 1)]
      && p'.reserved == p.reserved
  {
    hide WithinLimits, Holders;
    StepKeepsSound(l, p, Enqueue(c), Enqueued(p, c));
  }

  // ---- swapping slots past a waiting job -----------------------------------------------------

  /** `e` alone waits, and one of its two limited buckets, the one beside `b`, is full. */
  ghost predicate Stuck(l: Limits, p: Pool, e: Entry, b: Bucket) {
    && Positive(l) && LaunchSafe(e.candidate) && IsOwn(e.candidate, b) && Holding(l, p, e.candidate)
    && p.queue == map[e.candidate.job := e]
    && LimitOf(l, b).Some? && Full(l, p.reserved, OtherBucket(e.candidate, b))
  }

  lemma StuckWaits(l: Limits, p: Pool, e: Entry, b: Bucket)
    requires Stuck(l, p, e, b)
    ensures Sound(l, p) && Waiting(p, e) && Ahead(p, e, RivalsOf(l, e.candidate)) == {}
  {}

  lemma StuckIsBlocked(l: Limits, p: Pool, e: Entry, b: Bucket)
    requires Stuck(l, p, e, b)
    ensures BlockedBy(l, p.reserved, e.candidate).Some?
  {
    hide Holding, Full;
  }

  lemma ReleaseKeepsStuck(l: Limits, p: Pool, e: Entry, b: Bucket, j: Job, p': Pool)
    requires Stuck(l, p, e, b) && j in Holders(p.reserved, b) && Emptied(p, p', j)
    ensures Stuck(l, p', e, b) && Step(l, p, Release(j), p') && Holders(p'.reserved, b) == Holders(p.reserved, b) - {j}
    ensures Holders(p'.reserved, OtherBucket(e.candidate, b)) == Holders(p.reserved, OtherBucket(e.candidate, b))
  {
    hide Sound, Stuck, Holders;
    StuckFacts(l, p, e, b);
    ReleaseHolds(l, p, e.candidate, j, p');
    LostSlot(p.reserved, j, b);
    LostSlot(p.reserved, j, OtherBucket(e.candidate, b));
    StuckStays(l, p, e, b, p');
  }

  lemma RoomAfterRelease(l: Limits, p: Pool, j: Job, b: Bucket)
    requires Sound(l, p) && j in Holders(p.reserved, b)
    ensures !JobsFull(l, p.reserved - {j}) && !Full(l, p.reserved - {j}, b)
  {
    LostSlot(p.reserved, j, b);
    assert j in p.reserved && (p.reserved - {j}).Keys == p.reserved.Keys - {j};
    assert |p.reserved - {j}| == |p.reserved.Keys - {j}|;
  }

  /** The slot of `j` in bucket `b` goes to a later job, whose number avoids `avoid`, past the waiting `e`. */
  lemma Swap(l: Limits, p: Pool, e: Entry, b: Bucket, j: Job, avoid: set<Job>) returns (x: Candidate, p1: Pool, p2: Pool,
             p3: Pool)
    requires Stuck(l, p, e, b) && j in Holders(p.reserved, b)
    ensures Step(l, p, Release(j), p1) && Step(l, p1, Enqueue(x), p2) && Step(l, p2, AdmitNext(x.enqueuedAt), p3)
    ensures Stuck(l, p3, e, b) && x.enqueuedAt == e.candidate.enqueuedAt && x.job !in avoid && x.job !in p.reserved
    ensures p3.reserved.Keys == p.reserved.Keys - {j} + {x.job}
    ensures Holders(p3.reserved, b) == Holders(p.reserved, b) - {j} + {x.job}
    ensures Holders(p3.reserved, OtherBucket(e.candidate, b)) == Holders(p.reserved, OtherBucket(e.candidate, b))
    ensures AdmitsRival(p2, p3, RivalsOf(l, e.candidate))
  {
    hide Sound, Stuck, Holders, IsNewcomer, Step, JobsFull, Full, AdmitsRival;
    var c := e.candidate;
    p1 := p.(reserved := p.reserved - {j});
    ReleaseKeepsStuck(l, p, e, b, j, p1);
    StuckWaits(l, p, e, b);
    RoomAfterRelease(l, p, j, b);
    StuckFacts(l, p, e, b);
    x := Newcomer(p1.reserved, c, b, avoid + p.reserved.Keys);
    NewcomerFacts(p1.reserved, c, b, x);
    p2, p3 := LetIn(l, p1, e, b, x);
  }

  lemma StuckFacts(l: Limits, p: Pool, e: Entry, b: Bucket)
    requires Stuck(l, p, e, b)
    ensures Positive(l) && IsOwn(e.candidate, b) && LaunchSafe(e.candidate) && LimitOf(l, b).Some?
    ensures Holding(l, p, e.candidate) && Sound(l, p) && p.open && p.queue == map[e.candidate.job := e]
  {}

  /** The newcomer takes a free place past the waiting `e`. */
  lemma LetIn(l: Limits, p: Pool, e: Entry, b: Bucket, x: Candidate) returns (p1: Pool, p2: Pool)
    requires Stuck(l, p, e, b) && IsNewcomer(p.reserved, e.candidate, b, x) && !JobsFull(l, p.reserved) && !Full(l, p.reserved, b)
    ensures Step(l, p, Enqueue(x), p1) && Step(l, p1, AdmitNext(x.enqueuedAt), p2) && Stuck(l, p2, e, b)
    ensures p2.reserved.Keys == p.reserved.Keys + {x.job} && Holders(p2.reserved, b) == Holders(p.reserved, b) + {x.job}
    ensures Holders(p2.reserved, OtherBucket(e.candidate, b)) == Holders(p.reserved, OtherBucket(e.candidate, b))
    ensures AdmitsRival(p1, p2, RivalsOf(l, e.candidate))
  {
    hide Sound, Stuck, Holding, Holders, BlockedBy, IsNewcomer, Step, JobsFull, Full, AdmitsRival;
    var c := e.candidate;
    StuckFacts(l, p, e, b);
    NewcomerIsFree(l, p.reserved, c, b, x);
    NewcomerFacts(p.reserved, c, b, x);
    StuckIsBlocked(l, p, e, b);
    p1, p2 := AdmitNewcomer(l, p, x);
    NewSlot(l, p, c, b, x, x.enqueuedAt, p2);
    StuckStays(l, p, e, b, p2);
    NewcomerCompetes(l, p.reserved, c, b, x);
    RivalIsAdmitted(p1, p2, x.job, RivalsOf(l, c));
  }

  lemma StuckStays(l: Limits, p: Pool, e: Entry, b: Bucket, p': Pool)
    requires Stuck(l, p, e, b) && Holding(l, p', e.candidate) && p'.queue == p.queue
    requires Holders(p'.reserved, OtherBucket(e.candidate, b)) == Holders(p.reserved, OtherBucket(e.candidate, b))
    ensures Stuck(l, p', e, b)
  {
    hide Holding, Holders;
  }

  lemma RivalIsAdmitted(p: Pool, p': Pool, j: Job, rival: Candidate -> bool)
    requires Admits(p, p', j) && rival(p.queue[j].candidate)
    ensures AdmitsRival(p, p', rival)
  {}

  lemma NewcomerCompetes(l: Limits, reserved: map<Job, Slot>, c: Candidate, b: Bucket, x: Candidate)
    requires IsOwn(c, b) && IsNewcomer(reserved, c, b, x) && LimitOf(l, b).Some?
    ensures RivalsOf(l, c)(x)
  {}

  // ---- runs of swaps -------------------------------------------------------------------------

  lemma {:induction false} AdmissionsOfPrefix(pools: seq<Pool>, more: seq<Pool>, n: nat, rival: Candidate -> bool)
    requires n < |pools|
    ensures Admissions(pools + more, n, rival) == Admissions(pools, n, rival)
  {
    hide AdmitsRival;
    if n > 0 { AdmissionsOfPrefix(pools, more, n - 1, rival); }
  }

  /** A run of calls made while `e` waits, nothing older than `e` enqueued among them. */
  ghost predicate IsStretch(l: Limits, pools: seq<Pool>, calls: seq<Call>, e: Entry) {
    IsRun(l, pools, calls) && forall k :: 0 <= k < |calls| ==> EnqueuesInOrder(calls[k], e)
  }

  lemma Extend(l: Limits, pools: seq<Pool>, calls: seq<Call>, e: Entry, call: Call, p': Pool)
    requires IsStretch(l, pools, calls, e) && Step(l, pools[|calls|], call, p') && EnqueuesInOrder(call, e)
    ensures var after, made := pools + [p'], calls + [call];
      && IsStretch(l, after, made, e) && after[0] == pools[0] && after[|made|] == p'
      && Admissions(after, |made|, RivalsOf(l, e.candidate)) ==
           Admissions(pools, |calls|, RivalsOf(l, e.candidate)) + (if AdmitsRival(pools[|calls|], p', RivalsOf(l, e.candidate)) then 1 else 0)
  {
    hide Step, AdmitsRival, EnqueuesInOrder;
    RunExtends(l, pools, calls, call, p');
    AdmissionsOfPrefix(pools, [p'], |calls|, RivalsOf(l, e.candidate));
  }

  /** A stretch prolonged by one swap. */
  lemma ExtendBySwap(l: Limits, pools: seq<Pool>, calls: seq<Call>, e: Entry, b: Bucket, j: Job, avoid: set<Job>)
    returns (pools': seq<Pool>, calls': seq<Call>, x: Job)
    requires IsStretch(l, pools, calls, e) && Stuck(l, pools[|calls|], e, b) && j in Holders(pools[|calls|].reserved, b)
    ensures IsStretch(l, pools', calls', e) && pools'[0] == pools[0] && Stuck(l, pools'[|calls'|], e, b)
    ensures |calls'| == |calls| + 3 && pools <= pools'
    ensures Admissions(pools', |calls'|, RivalsOf(l, e.candidate)) > Admissions(pools, |calls|, RivalsOf(l, e.candidate))
    ensures var p, p' := pools[|calls|], pools'[|calls'|];
      && x !in avoid && x !in p.reserved && p'.reserved.Keys == p.reserved.Keys - {j} + {x}
      && Holders(p'.reserved, b) == Holders(p.reserved, b) - {j} + {x}
      && Holders(p'.reserved, OtherBucket(e.candidate, b)) == Holders(p.reserved, OtherBucket(e.candidate, b))
  {
    hide Step, AdmitsRival, Stuck, Holders, Admissions;
    var c, p1, p2, p3 := Swap(l, pools[|calls|], e, b, j, avoid);
    x := c.job;
    Extend(l, pools, calls, e, Release(j), p1);
    var pools1, calls1 := pools + [p1], calls + [Release(j)];
    Extend(l, pools1, calls1, e, Enqueue(c), p2);
    var pools2, calls2 := pools1 + [p2], calls1 + [Enqueue(c)];
    Extend(l, pools2, calls2, e, AdmitNext(c.enqueuedAt), p3);
    pools', calls' := pools2 + [p3], calls2 + [AdmitNext(c.enqueuedAt)];
  }

  lemma {:induction false} SwapManyTimes(l: Limits, p: Pool, e: Entry, b: Bucket, n: nat) returns (pools: seq<Pool>,
                                         calls: seq<Call>)
    requires Stuck(l, p, e, b) && Holders(p.reserved, b) != {}
    ensures IsStretch(l, pools, calls, e) && pools[0] == p && Stuck(l, pools[|calls|], e, b)
    ensures Holders(pools[|calls|].reserved, b) != {} && Admissions(pools, |calls|, RivalsOf(l, e.candidate)) >= n
  {
    hide Stuck, Step, Holders, AdmitsRival;
    if n == 0 {
      pools, calls := [p], [];
    } else {
      pools, calls := SwapManyTimes(l, p, e, b, n - 1);
      var j :| j in Holders(pools[|calls|].reserved, b);
      var x;
      pools, calls, x := ExtendBySwap(l, pools, calls, e, b, j, {});
    }
  }

  /** The bucket whose limit the global one leaves a place beside. */
  function TightBucket(l: Limits, c: Candidate): Bucket
    requires Starvable(l, c)
  {
    if LimitOf(l, ProviderOf(c)).value <= LimitOf(l, RepositoryOf(c)).value then ProviderOf(c) else RepositoryOf(c)
  }

  lemma StuckPool(l: Limits, c: Candidate) returns (p: Pool, e: Entry, b: Bucket)
    requires Positive(l) && LaunchSafe(c) && Starvable(l, c)
    ensures e.candidate == c && Reached(l, p) && Stuck(l, p, e, b) && Holders(p.reserved, b) != {}
  {
    hide Sound, Reached, Holders;
    var tight := TightBucket(l, c);
    b := OtherBucket(c, tight);
    assert OtherBucket(c, b) == tight;
    p, e := FillBoth(l, c, tight, LimitOf(l, tight).value, 1);
  }

  lemma StretchWaits(l: Limits, pools: seq<Pool>, calls: seq<Call>, e: Entry, b: Bucket)
    requires IsStretch(l, pools, calls, e) && Stuck(l, pools[0], e, b) && Stuck(l, pools[|calls|], e, b)
    ensures WaitsThrough(l, pools, calls, e) && Ahead(pools[0], e, RivalsOf(l, e.candidate)) == {}
  {
    hide Stuck, Sound, Step, Waiting, Ahead;
    StuckWaits(l, pools[0], e, b);
    StuckWaits(l, pools[|calls|], e, b);
  }

  /** A starvable job is passed over without bound: for every `n` a pool is reached in which it waits with no competitor
      ahead of it, and from there a run in which `n` competitors are admitted while it waits. */
  lemma PassedOverWithoutBound(l: Limits, c: Candidate, n: nat) returns (pools: seq<Pool>, calls: seq<Call>, e: Entry)
    requires Positive(l) && LaunchSafe(c) && Starvable(l, c)
    ensures WaitsThrough(l, pools, calls, e) && Reached(l, pools[0]) && e.candidate == c
    ensures Ahead(pools[0], e, RivalsOf(l, c)) == {} && Admissions(pools, |calls|, RivalsOf(l, c)) >= n
  {
    hide Stuck, Sound, Step, Waiting, Reached, Holders, Ahead, Starvable;
    var p, b;
    p, e, b := StuckPool(l, c);
    pools, calls := SwapManyTimes(l, p, e, b, n);
    StretchWaits(l, pools, calls, e, b);
  }

  /** Exactly which launch-safe jobs are never passed over: those that some limit of theirs cannot hold back alone. */
  lemma NeverPassedOverIff(l: Limits, c: Candidate)
    requires Positive(l) && LaunchSafe(c)
    ensures NeverPassedOver(l, c) <==> !Starvable(l, c)
  {
    hide Sound, Step, Waiting, Reached, Ahead, EnqueuesInOrder, Starvable;
    if Starvable(l, c) {
      var pools, calls, e := PassedOverWithoutBound(l, c, 1);
    } else {
      NotStarvableIsNotPassed(l, c);
    }
  }
}
