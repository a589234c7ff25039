/** src/control-plane/admission-scheduler.ts: what one scheduler call does, and what every run of calls keeps. */
module AdmissionRules {
  import opened Finite

  type Job = nat
  type Repository = nat

  datatype Candidate = Candidate(job: Job, provider: string, repository: Repository, enqueuedAt: int, model: Option<string>)
  datatype Entry = Entry(candidate: Candidate, sequence: nat)
  datatype Slot = Slot(job: Job, provider: string, repository: Repository, reservedAt: int)

  /** The declared limits; an absent one does not bind. */
  datatype Limits = Limits(maxJobs: Option<nat>, perProvider: map<string, nat>, perRepository: Option<nat>)

  datatype Pool = Pool(queue: map<Job, Entry>, reserved: map<Job, Slot>, sequence: nat, open: bool)

  datatype BlockReason = MaxConcurrentJobs | MaxConcurrentPerProvider | MaxConcurrentPerRepository | LaunchUnsafe

  const EMPTY := Pool(map[], map[], 0, false)

  /** `evaluateClaudeLaunchSafety`. */
  predicate LaunchSafe(c: Candidate) { c.provider == "claude" ==> c.model.Some? }

  /** What `countBy` counts over. */
  datatype Bucket = OfProvider(provider: string) | OfRepository(repository: Repository)

  predicate InBucket(slot: Slot, bucket: Bucket) {
    match bucket
    case OfProvider(provider) => slot.provider == provider
    case OfRepository(repository) => slot.repository == repository
  }

  function Holders(reserved: map<Job, Slot>, bucket: Bucket): set<Job> {
    set j | j in reserved && InBucket(reserved[j], bucket)
  }

  /** The limit declared for a bucket, if any. */
  function LimitOf(l: Limits, bucket: Bucket): Option<nat> {
    match bucket
    case OfProvider(provider) => if provider in l.perProvider then Some(l.perProvider[provider]) else None
    case OfRepository(_) => l.perRepository
  }

  predicate JobsFull(l: Limits, reserved: map<Job, Slot>) { l.maxJobs.Some? && |reserved| >= l.maxJobs.value }

  predicate Full(l: Limits, reserved: map<Job, Slot>, bucket: Bucket) {
    LimitOf(l, bucket).Some? && |Holders(reserved, bucket)| >= LimitOf(l, bucket).value
  }

  function BlockedBy(l: Limits, reserved: map<Job, Slot>, c: Candidate): Option<BlockReason> {
    if !LaunchSafe(c) then Some(LaunchUnsafe)
    else if JobsFull(l, reserved) then Some(MaxConcurrentJobs)
    else if Full(l, reserved, OfProvider(c.provider)) then Some(MaxConcurrentPerProvider)
    else if Full(l, reserved, OfRepository(c.repository)) then Some(MaxConcurrentPerRepository)
    else None
  }

  /** What holds a job back, in numbers: a Claude job without a model for good; any other while the slots taken, those of its provider
      or those of its repository have reached the limit declared for them. The first of these is the reason named. */
  lemma HeldBackExactly(l: Limits, reserved: map<Job, Slot>, c: Candidate)
    ensures var ofProvider := set j | j in reserved && reserved[j].provider == c.provider;
      var ofRepository := set j | j in reserved && reserved[j].repository == c.repository;
      BlockedBy(l, reserved, c) ==
        if c.provider == "claude" && c.model == None then Some(LaunchUnsafe)
        else if l.maxJobs != None && l.maxJobs.value <= |reserved| then Some(MaxConcurrentJobs)
        else if c.provider in l.perProvider && l.perProvider[c.provider] <= |ofProvider| then Some(MaxConcurrentPerProvider)
        else if l.perRepository != None && l.perRepository.value <= |ofRepository| then Some(MaxConcurrentPerRepository)
        else None
  {
    assert Holders(reserved, OfProvider(c.provider)) == set j | j in reserved && reserved[j].provider == c.provider;
    assert Holders(reserved, OfRepository(c.repository)) == set j | j in reserved && reserved[j].repository == c.repository;
  }

  /** The scan order: enqueue time, then arrival, then job id. */
  predicate Before(a: Entry, b: Entry) {
    if a.candidate.enqueuedAt != b.candidate.enqueuedAt then a.candidate.enqueuedAt < b.candidate.enqueuedAt
    else if a.sequence != b.sequence then a.sequence < b.sequence
    else a.candidate.job < b.candidate.job
  }

  /** The job `admitNext` picks: unblocked, with everything ahead of it blocked. */
  predicate IsNext(l: Limits, p: Pool, j: Job) {
    && p.open && j in p.queue && BlockedBy(l, p.reserved, p.queue[j].candidate).None?
    && forall i :: i in p.queue && Before(p.queue[i], p.queue[j]) ==> BlockedBy(l, p.reserved, p.queue[i].candidate).Some?
  }

  predicate NoneNext(l: Limits, p: Pool) {
    p.open ==> forall i :: i in p.queue ==> BlockedBy(l, p.reserved, p.queue[i].candidate).Some?
  }

  // ---- calls and runs ------------------------------------------------------------------------

  datatype Call = Enqueue(candidate: Candidate) | AdmitNext(at: int) | Release(job: Job) | Withdraw(job: Job) | SetOpen(open: bool)

  function Enqueued(p: Pool, c: Candidate): Pool {
    if c.job in p.queue || c.job in p.reserved then p
    else p.(sequence := p.sequence + 1, queue := p.queue[c.job := Entry(c, p.sequence + 1)])
  }

  function SlotFor(c: Candidate, at: int): Slot { Slot(c.job, c.provider, c.repository, at) }

  function Admitted(p: Pool, j: Job, at: int): Pool
    requires j in p.queue
  {
    p.(queue := p.queue - {j}, reserved := p.reserved[j := SlotFor(p.queue[j].candidate, at)])
  }

  /** What a call may do. `AdmitNext` is a relation here; `NextIsUnique` makes it a function of the pool. */
  ghost predicate Step(l: Limits, p: Pool, call: Call, p': Pool) {
    match call
    case Enqueue(c) => p' == Enqueued(p, c)
    case AdmitNext(at) => (NoneNext(l, p) && p' == p) || exists j :: IsNext(l, p, j) && p' == Admitted(p, j, at)
    case Release(j) => p' == p.(reserved := p.reserved - {j})
    case Withdraw(j) => p' == p.(queue := p.queue - {j})
    case SetOpen(open) => p' == p.(open := open)
  }

  /** A run: the pools passed through and the call between each two of them. */
  ghost predicate IsRun(l: Limits, pools: seq<Pool>, calls: seq<Call>) {
    && |pools| == |calls| + 1
    && forall k :: 0 <= k < |calls| ==> Step(l, pools[k], calls[k], pools[k + 1])
  }

  // ---- what every pool keeps -----------------------------------------------------------------

  ghost predicate Sound(l: Limits, p: Pool) {
    && p.queue.Keys !! p.reserved.Keys
    && (forall j :: j in p.queue ==> p.queue[j].candidate.job == j && p.queue[j].sequence <= p.sequence)
    && (forall i, j :: i in p.queue && j in p.queue && p.queue[i].sequence == p.queue[j].sequence ==> i == j)
    && (forall j :: j in p.reserved ==> p.reserved[j].job == j)
    && WithinLimits(l, p.reserved)
  }

  ghost predicate WithinLimits(l: Limits, reserved: map<Job, Slot>) {
    && (l.maxJobs.Some? ==> |reserved| <= l.maxJobs.value)
    && (forall b :: LimitOf(l, b).Some? ==> |Holders(reserved, b)| <= LimitOf(l, b).value)
  }

  lemma ReleaseKeepsLimits(l: Limits, reserved: map<Job, Slot>, j: Job)
    requires WithinLimits(l, reserved)
    ensures WithinLimits(l, reserved - {j})
  {
    var after := reserved - {j};
    SubsetSize(after.Keys, reserved.Keys);
    forall b ensures |Holders(after, b)| <= |Holders(reserved, b)| { SubsetSize(Holders(after, b), Holders(reserved, b)); }
  }

  lemma SlotCount(reserved: map<Job, Slot>, slot: Slot)
    requires slot.job !in reserved
    ensures |reserved[slot.job := slot]| == |reserved| + 1
  {
    assert reserved[slot.job := slot].Keys == reserved.Keys + {slot.job};
  }

  lemma HolderCount(reserved: map<Job, Slot>, slot: Slot, b: Bucket)
    requires slot.job !in reserved
    ensures |Holders(reserved[slot.job := slot], b)| == |Holders(reserved, b)| + (if InBucket(slot, b) then 1 else 0)
  {
    hide InBucket;
    var after := Holders(reserved[slot.job := slot], b);
    if InBucket(slot, b) {
      assert after == Holders(reserved, b) + {slot.job};
    } else {
      assert after == Holders(reserved, b);
    }
  }

  lemma AdmissionKeepsLimits(l: Limits, reserved: map<Job, Slot>, c: Candidate, at: int)
    requires WithinLimits(l, reserved) && c.job !in reserved && BlockedBy(l, reserved, c).None?
    ensures WithinLimits(l, reserved[c.job := SlotFor(c, at)])
  {
    hide Holders;
    var slot := SlotFor(c, at);
    var after := reserved[slot.job := slot];
    SlotCount(reserved, slot);
    forall b | LimitOf(l, b).Some? ensures |Holders(after, b)| <= LimitOf(l, b).value { HolderCount(reserved, slot, b); }
  }

  lemma EnqueueKeepsSound(l: Limits, p: Pool, c: Candidate)
    requires Sound(l, p)
    ensures Sound(l, Enqueued(p, c))
  {
    hide WithinLimits;
  }

  lemma AdmitKeepsSound(l: Limits, p: Pool, j: Job, at: int)
    requires Sound(l, p) && IsNext(l, p, j)
    ensures Sound(l, Admitted(p, j, at))
  {
    hide WithinLimits, BlockedBy, Before;
    AdmissionKeepsLimits(l, p.reserved, p.queue[j].candidate, at);
  }

  lemma StepKeepsSound(l: Limits, p: Pool, call: Call, p': Pool)
    requires Sound(l, p) && Step(l, p, call, p')
    ensures Sound(l, p')
  {
    hide WithinLimits, BlockedBy, Before, NoneNext, Enqueued, Admitted;
    match call
    case Enqueue(c) => EnqueueKeepsSound(l, p, c);
    case AdmitNext(at) =>
      if p' != p {
        var j :| IsNext(l, p, j) && p' == Admitted(p, j, at);
        AdmitKeepsSound(l, p, j, at);
      }
    case Release(j) => ReleaseKeepsLimits(l, p.reserved, j);
    case _ =>
  }

  /** Every limit holds, no job is both queued and reserved, and no two waiting jobs share an arrival number,
      in every pool of every run. */
  lemma {:induction false} RunsStaySound(l: Limits, pools: seq<Pool>, calls: seq<Call>, k: nat)
    requires IsRun(l, pools, calls) && pools[0] == EMPTY && k < |pools|
    ensures Sound(l, pools[k])
  {
    if k == 0 {
      assert forall b :: Holders(map[], b) == {};
    } else {
      RunsStaySound(l, pools, calls, k - 1);
      StepKeepsSound(l, pools[k - 1], calls[k - 1], pools[k]);
    }
  }

  /** The scan order is total on waiting jobs, so at most one of them is next. */
  lemma NextIsUnique(l: Limits, p: Pool, i: Job, j: Job)
    requires Sound(l, p) && IsNext(l, p, i) && IsNext(l, p, j)
    ensures i == j && !NoneNext(l, p)
  {
    hide BlockedBy, WithinLimits;
    assert Before(p.queue[i], p.queue[j]) || Before(p.queue[j], p.queue[i]) || p.queue[i].sequence == p.queue[j].sequence;
  }

  // ---- waiting -------------------------------------------------------------------------------

  predicate Waiting(p: Pool, e: Entry) { e.candidate.job in p.queue && p.queue[e.candidate.job] == e }

  /** An arrival number is given once: who waits now and arrived before has waited all along. */
  lemma WaitedAllAlong(l: Limits, p: Pool, call: Call, p': Pool, e: Entry)
    requires Sound(l, p) && Step(l, p, call, p') && Waiting(p', e) && e.sequence <= p.sequence
    ensures Waiting(p, e)
  {
    hide WithinLimits, IsNext, NoneNext;
  }

  lemma {:induction false} WaitedThrough(l: Limits, pools: seq<Pool>, calls: seq<Call>, k: nat, n: nat, e: Entry)
    requires IsRun(l, pools, calls) && Sound(l, pools[0]) && k <= n < |pools|
    requires Waiting(pools[n], e) && e.sequence <= pools[0].sequence
    ensures Sound(l, pools[k]) && Waiting(pools[k], e)
    decreases n - k
  {
    hide Sound, Step, Waiting;
    SoundFrom(l, pools, calls, k);
    if k < n {
      WaitedThrough(l, pools, calls, k + 1, n, e);
      WaitedAllAlong(l, pools[k], calls[k], pools[k + 1], e);
    }
  }

  lemma {:induction false} SoundFrom(l: Limits, pools: seq<Pool>, calls: seq<Call>, k: nat)
    requires IsRun(l, pools, calls) && Sound(l, pools[0]) && k < |pools|
    ensures Sound(l, pools[k]) && pools[0].sequence <= pools[k].sequence
  {
    hide Sound;
    if k > 0 {
      SoundFrom(l, pools, calls, k - 1);
      StepKeepsSound(l, pools[k - 1], calls[k - 1], pools[k]);
    }
  }

  lemma ArrivedBefore(l: Limits, p: Pool, e: Entry)
    requires Sound(l, p) && Waiting(p, e)
    ensures e.sequence <= p.sequence
  {}
}
