/** The same claim under the premise its argument rests on, that every admitted job gives its slot back
    (src/control-plane/admission-scheduler.ts:71-76): exactly which limits still let a job be passed over for good. */
module AdmissionFairness {
  import opened Finite
  import opened AdmissionRules
  import opened AdmissionOrder
  import opened AdmissionStarvation

  /** Both buckets are limited, and the global limit has room for both filled up side by side. */
  predicate FairlyStarvable(l: Limits, c: Candidate) {
    && LimitOf(l, ProviderOf(c)).Some? && LimitOf(l, RepositoryOf(c)).Some?
    && (l.maxJobs.None? || l.maxJobs.value >= LimitOf(l, ProviderOf(c)).value + LimitOf(l, RepositoryOf(c)).value)
  }

  /** Every slot held at `i` was given back by `a`. */
  ghost predicate TurnedOver(pools: seq<Pool>, i: nat, a: nat)
    requires i <= a < |pools|
  {
    forall j :: j in pools[i].reserved ==> exists t :: i <= t <= a && j !in pools[t].reserved
  }

  /** No competitor that is ahead of `e` is admitted by this step. */
  ghost predicate NothingFromAhead(l: Limits, p: Pool, p': Pool, e: Entry) {
    forall j :: Admits(p, p', j) && Competes(l, p.queue[j].candidate, e.candidate) ==> !Before(p.queue[j], e)
  }

  ghost predicate NothingComesFromAhead(l: Limits, pools: seq<Pool>, n: nat, e: Entry)
    requires n < |pools|
  {
    forall k :: 0 <= k < n ==> NothingFromAhead(l, pools[k], pools[k + 1], e)
  }

  /** A stretch in which `e` waits, no competitor is admitted from ahead of it any more, and all slots turned over twice. */
  ghost predicate OutwaitsTwoTurnovers(l: Limits, pools: seq<Pool>, calls: seq<Call>, e: Entry, a: nat, b: nat) {
    && WaitsThrough(l, pools, calls, e) && Reached(l, pools[0]) && a <= b <= |calls|
    && TurnedOver(pools, 0, a) && TurnedOver(pools, a, b) && NothingComesFromAhead(l, pools, |calls|, e)
  }

  /** The claim for a job: once its slots turned over twice, no competitor is admitted past it any more. */
  ghost predicate NeverStarvedFairly(l: Limits, c: Candidate) {
    forall pools, calls, e, a: nat, b: nat :: OutwaitsTwoTurnovers(l, pools, calls, e, a, b) && e.candidate == c ==>
      forall t :: b <= t < |calls| ==> !AdmitsRival(pools[t], pools[t + 1], RivalsOf(l, c))
  }

  // ---- when the claim holds ------------------------------------------------------------------

  /** A competitor admitted past `e` sits in one of its buckets only, and the other one is full. */
  lemma PasserIsHalf(l: Limits, p: Pool, call: Call, p': Pool, e: Entry, j: Job)
    requires Sound(l, p) && Step(l, p, call, p') && Waiting(p, e) && Waiting(p', e) && LaunchSafe(e.candidate)
    requires NothingFromAhead(l, p, p', e) && Admits(p, p', j) && Competes(l, p.queue[j].candidate, e.candidate)
    ensures call.AdmitNext? && p' == Admitted(p, j, call.at) && !Covers(l, p.queue[j].candidate, e.candidate)
    ensures Full(l, p.reserved, ProviderOf(e.candidate)) || Full(l, p.reserved, RepositoryOf(e.candidate))
    ensures BlockedBy(l, p.reserved, p.queue[j].candidate).None?
  {
    hide WithinLimits, Full, JobsFull, NoneNext, Covers, Binds;
    AdmittedIsNext(l, p, call, p', j);
    if Covers(l, p.queue[j].candidate, e.candidate) { CoveredIsNotPassed(l, p, e.candidate.job, j); }
    assert Before(e, p.queue[j]);
    OvertakingRule(l, p, e.candidate.job, j);
  }

  /** A pool step seen from its slots: nothing, one given back, or one taken. */
  lemma SlotsMove(l: Limits, p: Pool, call: Call, p': Pool)
    requires Sound(l, p) && Step(l, p, call, p')
    ensures
      || p'.reserved == p.reserved
      || (call.Release? && p'.reserved == p.reserved - {call.job})
      || (call.AdmitNext? && exists j :: Admits(p, p', j) && p'.reserved == p.reserved[j := SlotFor(p.queue[j].candidate, call.at)])
  {
    hide WithinLimits, BlockedBy, Before, NoneNext;
    if call.AdmitNext? && p' != p {
      var j :| IsNext(l, p, j) && p' == Admitted(p, j, call.at);
      assert Admits(p, p', j);
    }
  }

  ghost function Overlap(p: Pool, c: Candidate): set<Job> { Holders(p.reserved, ProviderOf(c)) * Holders(p.reserved, RepositoryOf(c)) }

  ghost predicate BothLimited(l: Limits, c: Candidate) { LimitOf(l, ProviderOf(c)).Some? && LimitOf(l, RepositoryOf(c)).Some? }

  /** `e` waits across one step with nothing admitted from ahead of it. */
  ghost predicate WaitsAcross(l: Limits, p: Pool, call: Call, p': Pool, e: Entry) {
    && Sound(l, p) && Sound(l, p') && Step(l, p, call, p') && Waiting(p, e) && Waiting(p', e)
    && LaunchSafe(e.candidate) && NothingFromAhead(l, p, p', e)
  }

  lemma OverlapShrinks(l: Limits, p: Pool, call: Call, p': Pool, e: Entry)
    requires WaitsAcross(l, p, call, p', e) && BothLimited(l, e.candidate)
    ensures Overlap(p', e.candidate) <= Overlap(p, e.candidate)
  {
    hide Sound, Step, Waiting, NothingFromAhead;
    SlotsMove(l, p, call, p');
    if call.AdmitNext? && p'.reserved != p.reserved {
      var j :| Admits(p, p', j) && p'.reserved == p.reserved[j := SlotFor(p.queue[j].candidate, call.at)];
      AdmitsQueued(p, p', j);
      if Competes(l, p.queue[j].candidate, e.candidate) { PasserIsHalf(l, p, call, p', e, j); }
      PasserIsNotBoth(l, p.queue[j].candidate, e.candidate);
    }
  }

  lemma AdmitsQueued(p: Pool, p': Pool, j: Job)
    requires Admits(p, p', j)
    ensures j in p.queue && j !in p.reserved
  {}

  lemma PasserIsNotBoth(l: Limits, x: Candidate, e: Candidate)
    requires BothLimited(l, e) && (Competes(l, x, e) ==> !Covers(l, x, e) && LaunchSafe(x)) && LaunchSafe(e)
    ensures !(x.provider == e.provider && x.repository == e.repository)
  {}

  ghost predicate Quiet(l: Limits, p: Pool, c: Candidate) {
    !Full(l, p.reserved, ProviderOf(c)) && !Full(l, p.reserved, RepositoryOf(c))
  }

  lemma QuietAdmitsNone(l: Limits, p: Pool, call: Call, p': Pool, e: Entry)
    requires WaitsAcross(l, p, call, p', e) && Quiet(l, p, e.candidate)
    ensures !AdmitsRival(p, p', RivalsOf(l, e.candidate))
  {
    hide Sound, Step, Waiting, Full, NothingFromAhead;
    if AdmitsRival(p, p', RivalsOf(l, e.candidate)) {
      var j :| Admits(p, p', j) && RivalsOf(l, e.candidate)(p.queue[j].candidate);
      PasserIsHalf(l, p, call, p', e, j);
    }
  }

  /** A bucket of `e` that takes in no competitor does not fill up. */
  lemma BucketStaysUnfilled(l: Limits, p: Pool, call: Call, p': Pool, e: Entry, b: Bucket)
    requires Sound(l, p) && Step(l, p, call, p') && IsOwn(e.candidate, b)
    requires !Full(l, p.reserved, b) && !AdmitsRival(p, p', RivalsOf(l, e.candidate))
    ensures !Full(l, p'.reserved, b)
  {
    hide Sound, Step;
    SlotsMove(l, p, call, p');
    if LimitOf(l, b).Some? {
      assert Holders(p'.reserved, b) <= Holders(p.reserved, b) by {
        if call.AdmitNext? && p'.reserved != p.reserved {
          var j :| Admits(p, p', j) && p'.reserved == p.reserved[j := SlotFor(p.queue[j].candidate, call.at)];
          AdmitsQueued(p, p', j);
          assert !RivalsOf(l, e.candidate)(p.queue[j].candidate);
        }
      }
      SubsetSize(Holders(p'.reserved, b), Holders(p.reserved, b));
    }
  }

  lemma QuietStays(l: Limits, p: Pool, call: Call, p': Pool, e: Entry)
    requires WaitsAcross(l, p, call, p', e) && Quiet(l, p, e.candidate)
    ensures Quiet(l, p', e.candidate)
  {
    hide Sound, Step, Full, AdmitsRival;
    QuietAdmitsNone(l, p, call, p', e);
    BucketStaysUnfilled(l, p, call, p', e, ProviderOf(e.candidate));
    BucketStaysUnfilled(l, p, call, p', e, RepositoryOf(e.candidate));
  }

  /** Without a slot in both, the two buckets are not full at once under a smaller global limit. */
  lemma NotBothFull(l: Limits, p: Pool, c: Candidate)
    requires Sound(l, p) && BothLimited(l, c) && !FairlyStarvable(l, c) && Overlap(p, c) == {}
    ensures !(Full(l, p.reserved, ProviderOf(c)) && Full(l, p.reserved, RepositoryOf(c)))
  {
    hide Holders;
    var both := Holders(p.reserved, ProviderOf(c)) + Holders(p.reserved, RepositoryOf(c));
    HoldersInside(p.reserved, ProviderOf(c));
    HoldersInside(p.reserved, RepositoryOf(c));
    SubsetSize(both, p.reserved.Keys);
  }

  /** A full bucket takes nobody in: its holders stay the same until one leaves, and then both buckets have room. */
  lemma FullStaysOrQuiet(l: Limits, p: Pool, call: Call, p': Pool, e: Entry, b: Bucket)
    requires WaitsAcross(l, p, call, p', e) && BothLimited(l, e.candidate) && !FairlyStarvable(l, e.candidate)
    requires Overlap(p, e.candidate) == {} && IsOwn(e.candidate, b) && Full(l, p.reserved, b)
    ensures Quiet(l, p', e.candidate) || (Full(l, p'.reserved, b) && Holders(p'.reserved, b) == Holders(p.reserved, b))
  {
    hide Step, Sound, Waiting, NothingFromAhead, Holders, Overlap, FairlyStarvable;
    SlotsMove(l, p, call, p');
    NotBothFull(l, p, e.candidate);
    if p'.reserved == p.reserved {
    } else if call.Release? {
      GivenBack(l, p, call.job, b);
      GivenBack(l, p, call.job, OtherBucket(e.candidate, b));
    } else {
      var j :| Admits(p, p', j) && p'.reserved == p.reserved[j := SlotFor(p.queue[j].candidate, call.at)];
      TakesNobodyIn(l, p, call, p', b, j);
    }
  }

  lemma GivenBack(l: Limits, p: Pool, j: Job, b: Bucket)
    requires Sound(l, p)
    ensures !Full(l, p.reserved, b) ==> !Full(l, p.reserved - {j}, b)
    ensures Full(l, p.reserved, b) ==> !Full(l, p.reserved - {j}, b) || Holders(p.reserved - {j}, b) == Holders(p.reserved, b)
  {
    hide InBucket;
    LostSlot(p.reserved, j, b);
    SubsetSize(Holders(p.reserved - {j}, b), Holders(p.reserved, b));
  }

  lemma TakesNobodyIn(l: Limits, p: Pool, call: Call, p': Pool, b: Bucket, j: Job)
    requires Sound(l, p) && Step(l, p, call, p') && Full(l, p.reserved, b) && Admits(p, p', j)
    ensures p'.reserved == p.reserved[j := SlotFor(p.queue[j].candidate, call.at)]
      && Holders(p'.reserved, b) == Holders(p.reserved, b)
  {
    hide WithinLimits, NoneNext, Before, JobsFull;
    AdmittedIsNext(l, p, call, p', j);
  }

  // ---- over a stretch ------------------------------------------------------------------------

  lemma AcrossAt(l: Limits, pools: seq<Pool>, calls: seq<Call>, e: Entry, k: nat)
    requires WaitsThrough(l, pools, calls, e) && NothingComesFromAhead(l, pools, |calls|, e) && LaunchSafe(e.candidate) && k < |calls|
    ensures WaitsAcross(l, pools[k], calls[k], pools[k + 1], e)
  {
    hide Sound, Step, Waiting, NothingFromAhead;
    WaitsAt(l, pools, calls, e, k);
    WaitsAt(l, pools, calls, e, k + 1);
  }

  lemma {:induction false} OverlapBefore(l: Limits, pools: seq<Pool>, calls: seq<Call>, e: Entry, i: nat, n: nat)
    requires WaitsThrough(l, pools, calls, e) && NothingComesFromAhead(l, pools, |calls|, e) && LaunchSafe(e.candidate)
    requires BothLimited(l, e.candidate) && i <= n <= |calls|
    ensures Overlap(pools[n], e.candidate) <= Overlap(pools[i], e.candidate)
    decreases n - i
  {
    hide Sound, Step, Waiting, NothingFromAhead, Overlap;
    if i < n {
      OverlapBefore(l, pools, calls, e, i, n - 1);
      AcrossAt(l, pools, calls, e, n - 1);
      OverlapShrinks(l, pools[n - 1], calls[n - 1], pools[n], e);
    }
  }

  /** After one turnover no slot is in both buckets. */
  lemma OverlapIsGone(l: Limits, pools: seq<Pool>, calls: seq<Call>, e: Entry, a: nat, n: nat)
    requires WaitsThrough(l, pools, calls, e) && NothingComesFromAhead(l, pools, |calls|, e) && LaunchSafe(e.candidate)
    requires BothLimited(l, e.candidate) && a <= n <= |calls| && TurnedOver(pools, 0, a)
    ensures Overlap(pools[n], e.candidate) == {}
  {
    hide Sound, Step, Waiting, NothingFromAhead;
    forall j | j in Overlap(pools[n], e.candidate) ensures false {
      forall t | 0 <= t <= n ensures j in pools[t].reserved { OverlapBefore(l, pools, calls, e, t, n); }
    }
  }

  /** From the first turnover on: room in both buckets, or one full bucket with the holders it had then. */
  lemma {:induction false} QuietOrSameHolders(l: Limits, pools: seq<Pool>, calls: seq<Call>, e: Entry, a: nat, n: nat,
                                              b: Bucket)
    requires WaitsThrough(l, pools, calls, e) && NothingComesFromAhead(l, pools, |calls|, e) && LaunchSafe(e.candidate)
    requires BothLimited(l, e.candidate) && !FairlyStarvable(l, e.candidate) && IsOwn(e.candidate, b)
    requires a <= n <= |calls| && TurnedOver(pools, 0, a) && (Quiet(l, pools[a], e.candidate) || Full(l, pools[a].reserved, b))
    ensures Quiet(l, pools[n], e.candidate)
      || (Full(l, pools[n].reserved, b) && Holders(pools[n].reserved, b) == Holders(pools[a].reserved, b))
    decreases n - a
  {
    hide Sound, Step, Waiting, EnqueuesInOrder, NothingFromAhead, BothLimited, FairlyStarvable, Full, Holders, Overlap,
      Quiet, WaitsAcross;
    if a < n {
      QuietOrSameHolders(l, pools, calls, e, a, n - 1, b);
      AcrossAt(l, pools, calls, e, n - 1);
      OverlapIsGone(l, pools, calls, e, a, n - 1);
      if Quiet(l, pools[n - 1], e.candidate) {
        QuietStays(l, pools[n - 1], calls[n - 1], pools[n], e);
      } else {
        FullStaysOrQuiet(l, pools[n - 1], calls[n - 1], pools[n], e, b);
      }
    }
  }

  lemma QuietAfterTwo(l: Limits, pools: seq<Pool>, calls: seq<Call>, e: Entry, a: nat, b: nat, n: nat)
    requires OutwaitsTwoTurnovers(l, pools, calls, e, a, b) && LaunchSafe(e.candidate) && Positive(l)
    requires BothLimited(l, e.candidate) && !FairlyStarvable(l, e.candidate) && b <= n <= |calls|
    ensures Quiet(l, pools[n], e.candidate)
  {
    hide Sound, Step, Waiting, EnqueuesInOrder, NothingFromAhead, FairlyStarvable, Reached;
    var bucket := if Full(l, pools[a].reserved, ProviderOf(e.candidate)) then ProviderOf(e.candidate) else RepositoryOf(e.candidate);
    forall t | a <= t <= n
      ensures Quiet(l, pools[t], e.candidate) || Holders(pools[t].reserved, bucket) == Holders(pools[a].reserved, bucket)
    {
      QuietOrSameHolders(l, pools, calls, e, a, t, bucket);
    }
    if Quiet(l, pools[a], e.candidate) {
      QuietForever(l, pools, calls, e, a, n);
    } else {
      assert |Holders(pools[a].reserved, bucket)| >= 1;
      var j :| j in Holders(pools[a].reserved, bucket);
      var t :| a <= t <= b && j !in pools[t].reserved;
      assert Quiet(l, pools[t], e.candidate);
      QuietForever(l, pools, calls, e, t, n);
    }
  }

  lemma {:induction false} QuietForever(l: Limits, pools: seq<Pool>, calls: seq<Call>, e: Entry, t: nat, n: nat)
    requires WaitsThrough(l, pools, calls, e) && NothingComesFromAhead(l, pools, |calls|, e) && LaunchSafe(e.candidate)
    requires t <= n <= |calls| && Quiet(l, pools[t], e.candidate)
    ensures Quiet(l, pools[n], e.candidate)
    decreases n - t
  {
    hide Sound, Step, Waiting, EnqueuesInOrder, NothingFromAhead, Quiet, WaitsAcross;
    if t < n {
      QuietForever(l, pools, calls, e, t, n - 1);
      AcrossAt(l, pools, calls, e, n - 1);
      QuietStays(l, pools[n - 1], calls[n - 1], pools[n], e);
    }
  }

  /** With one limit only, nobody competing passes at all. */
  lemma OneLimitPassesNobody(l: Limits, p: Pool, call: Call, p': Pool, e: Entry)
    requires WaitsAcross(l, p, call, p', e) && !BothLimited(l, e.candidate)
    ensures !AdmitsRival(p, p', RivalsOf(l, e.candidate))
  {
    hide Sound, Step, Waiting, NothingFromAhead, Full;
    if AdmitsRival(p, p', RivalsOf(l, e.candidate)) {
      var j :| Admits(p, p', j) && RivalsOf(l, e.candidate)(p.queue[j].candidate);
      PasserIsHalf(l, p, call, p', e, j);
      UnblockedIsSafe(l, p.reserved, p.queue[j].candidate);
      CompetitorsCover(l, p.queue[j].candidate, e.candidate);
    }
  }

  lemma UnblockedIsSafe(l: Limits, reserved: map<Job, Slot>, c: Candidate)
    requires BlockedBy(l, reserved, c).None?
    ensures LaunchSafe(c)
  {}

  lemma NotStarvedFairly(l: Limits, c: Candidate)
    requires Positive(l) && LaunchSafe(c) && !FairlyStarvable(l, c)
    ensures NeverStarvedFairly(l, c)
  {
    hide Sound, Step, Waiting, EnqueuesInOrder, NothingFromAhead, FairlyStarvable, Reached, AdmitsRival, TurnedOver, Quiet;
    forall pools, calls, e, a: nat, b: nat, t | OutwaitsTwoTurnovers(l, pools, calls, e, a, b) && e.candidate == c && b <= t < |calls|
      ensures !AdmitsRival(pools[t], pools[t + 1], RivalsOf(l, c))
    {
      AcrossAt(l, pools, calls, e, t);
      if BothLimited(l, c) {
        QuietAfterTwo(l, pools, calls, e, a, b, t);
        QuietAdmitsNone(l, pools[t], calls[t], pools[t + 1], e);
      } else {
        OneLimitPassesNobody(l, pools[t], calls[t], pools[t + 1], e);
      }
    }
  }

  // ---- when it fails -------------------------------------------------------------------------

  /** Both buckets of the waiting `e` are full. */
  ghost predicate Jammed(l: Limits, p: Pool, e: Entry) {
    Stuck(l, p, e, ProviderOf(e.candidate)) && Stuck(l, p, e, RepositoryOf(e.candidate))
  }

  lemma JammedPool(l: Limits, c: Candidate) returns (p: Pool, e: Entry)
    requires Positive(l) && LaunchSafe(c) && FairlyStarvable(l, c)
    ensures e.candidate == c && Reached(l, p) && Jammed(l, p, e) && p.reserved != map[]
  {
    hide Sound, Reached, Holders;
    p, e := FillBoth(l, c, ProviderOf(c), LimitOf(l, ProviderOf(c)).value, LimitOf(l, RepositoryOf(c)).value);
    HoldersInside(p.reserved, ProviderOf(c));
  }

  lemma JammedSlots(l: Limits, p: Pool, e: Entry)
    requires Jammed(l, p, e)
    ensures Holders(p.reserved, ProviderOf(e.candidate)) !! Holders(p.reserved, RepositoryOf(e.candidate))
    ensures p.reserved.Keys == Holders(p.reserved, ProviderOf(e.candidate)) + Holders(p.reserved, RepositoryOf(e.candidate))
    ensures p.reserved != map[]
  {
    hide Sound, Holders;
    assert p.reserved == map[] ==> p.reserved.Keys == {};
    assert |Holders(p.reserved, ProviderOf(e.candidate))| >= 1;
  }

  lemma SwapKeepsJam(l: Limits, p: Pool, e: Entry, b: Bucket, j: Job, x: Job, p': Pool)
    requires Jammed(l, p, e) && IsOwn(e.candidate, b) && j in Holders(p.reserved, b) && x !in p.reserved
    requires Stuck(l, p', e, b) && Holders(p'.reserved, b) == Holders(p.reserved, b) - {j} + {x}
    ensures Jammed(l, p', e)
  {
    hide Sound, Holders, Holding;
    HoldersInside(p.reserved, b);
    assert |Holders(p'.reserved, b)| == |Holders(p.reserved, b)|;
  }

  /** Every slot of `outgoing` swapped out, one after the other, while `e` keeps waiting. */
  lemma {:induction false} SwapOut(l: Limits, pools: seq<Pool>, calls: seq<Call>, e: Entry, outgoing: set<Job>)
    returns (pools': seq<Pool>, calls': seq<Call>)
    requires IsStretch(l, pools, calls, e) && Jammed(l, pools[|calls|], e)
    ensures IsStretch(l, pools', calls', e) && Jammed(l, pools'[|calls'|], e) && pools <= pools' && |calls| <= |calls'|
    ensures pools'[|calls'|].reserved.Keys !! outgoing
    ensures Admissions(pools', |calls'|, RivalsOf(l, e.candidate)) >=
      Admissions(pools, |calls|, RivalsOf(l, e.candidate)) + |pools[|calls|].reserved.Keys * outgoing|
    decreases |pools[|calls|].reserved.Keys * outgoing|
  {
    hide Sound, Step, Stuck, Holders, AdmitsRival, EnqueuesInOrder, Admissions;
    var p := pools[|calls|];
    var left := p.reserved.Keys * outgoing;
    if left == {} {
      pools', calls' := pools, calls;
      assert forall j :: j in p.reserved.Keys && j in outgoing ==> j in left;
    } else {
      var j :| j in left;
      JammedSlots(l, p, e);
      var b := if j in Holders(p.reserved, ProviderOf(e.candidate)) then ProviderOf(e.candidate) else RepositoryOf(e.candidate);
      var pools1, calls1, x := ExtendBySwap(l, pools, calls, e, b, j, outgoing);
      SwapKeepsJam(l, p, e, b, j, x, pools1[|calls1|]);
      assert pools1[|calls1|].reserved.Keys * outgoing == left - {j};
      assert |left - {j}| == |left| - 1;
      pools', calls' := SwapOut(l, pools1, calls1, e, outgoing);
      assert pools <= pools1 <= pools';
    }
  }

  /** `marks` cuts a stretch into turnovers, each with a competitor admitted in it. */
  ghost predicate Turnovers(l: Limits, pools: seq<Pool>, e: Entry, marks: seq<nat>) {
    && (forall g :: 0 <= g < |marks| ==> marks[g] < |pools|)
    && forall g :: 0 < g < |marks| ==>
      marks[g - 1] <= marks[g] && TurnedOver(pools, marks[g - 1], marks[g]) && PassedWithin(l, pools, e, marks[g - 1], marks[g])
  }

  ghost predicate PassedWithin(l: Limits, pools: seq<Pool>, e: Entry, i: nat, n: nat)
    requires i <= n < |pools|
  {
    exists t :: i <= t < n && PassedAt(l, pools, e, t)
  }

  ghost predicate PassedAt(l: Limits, pools: seq<Pool>, e: Entry, t: nat) {
    t + 1 < |pools| && AdmitsRival(pools[t], pools[t + 1], RivalsOf(l, e.candidate))
  }

  lemma {:induction false} MoreAdmissions(l: Limits, pools: seq<Pool>, e: Entry, i: nat, n: nat)
    requires i <= n < |pools| && Admissions(pools, n, RivalsOf(l, e.candidate)) > Admissions(pools, i, RivalsOf(l, e.candidate))
    ensures PassedWithin(l, pools, e, i, n)
    decreases n - i
  {
    hide AdmitsRival;
    if !PassedAt(l, pools, e, n - 1) {
      MoreAdmissions(l, pools, e, i, n - 1);
      var t :| i <= t < n - 1 && PassedAt(l, pools, e, t);
    }
  }

  lemma TurnoverStays(pools: seq<Pool>, pools': seq<Pool>, i: nat, a: nat)
    requires i <= a < |pools| && pools <= pools' && TurnedOver(pools, i, a)
    ensures TurnedOver(pools', i, a)
  {
    forall j | j in pools'[i].reserved ensures exists t :: i <= t <= a && j !in pools'[t].reserved {
      var t :| i <= t <= a && j !in pools[t].reserved;
      assert pools'[t] == pools[t];
    }
  }

  lemma PassingStays(l: Limits, pools: seq<Pool>, pools': seq<Pool>, e: Entry, i: nat, n: nat)
    requires i <= n < |pools| && pools <= pools' && PassedWithin(l, pools, e, i, n)
    ensures PassedWithin(l, pools', e, i, n)
  {
    hide AdmitsRival;
    var t :| i <= t < n && PassedAt(l, pools, e, t);
    assert pools'[t] == pools[t] && pools'[t + 1] == pools[t + 1];
    assert PassedAt(l, pools', e, t);
  }

  lemma OneTurnoverMore(l: Limits, pools: seq<Pool>, calls: seq<Call>, e: Entry) returns (pools': seq<Pool>, calls': seq<Call>)
    requires IsStretch(l, pools, calls, e) && Jammed(l, pools[|calls|], e)
    ensures IsStretch(l, pools', calls', e) && Jammed(l, pools'[|calls'|], e) && pools <= pools' && |calls| <= |calls'|
    ensures TurnedOver(pools', |calls|, |calls'|) && PassedWithin(l, pools', e, |calls|, |calls'|)
  {
    hide Sound, Step, Stuck, AdmitsRival, EnqueuesInOrder, PassedWithin;
    var held := pools[|calls|].reserved.Keys;
    pools', calls' := SwapOut(l, pools, calls, e, held);
    JammedSlots(l, pools[|calls|], e);
    assert held * held == held && |held| >= 1 by { assert held != {}; }
    var more := pools'[|pools|..];
    assert pools' == pools + more;
    AdmissionsOfPrefix(pools, more, |calls|, RivalsOf(l, e.candidate));
    MoreAdmissions(l, pools', e, |calls|, |calls'|);
  }

  lemma {:induction false} ManyTurnovers(l: Limits, p: Pool, e: Entry, n: nat)
    returns (pools: seq<Pool>, calls: seq<Call>, marks: seq<nat>)
    requires Jammed(l, p, e)
    ensures IsStretch(l, pools, calls, e) && pools[0] == p && Jammed(l, pools[|calls|], e)
    ensures |marks| == n + 1 && marks[0] == 0 && marks[n] == |calls| && Turnovers(l, pools, e, marks)
  {
    hide Jammed, Step, EnqueuesInOrder, TurnedOver, PassedWithin;
    if n == 0 {
      pools, calls, marks := [p], [], [0];
    } else {
      var pools0, calls0, marks0 := ManyTurnovers(l, p, e, n - 1);
      pools, calls := OneTurnoverMore(l, pools0, calls0, e);
      marks := marks0 + [|calls|];
      forall g | 0 < g < |marks|
        ensures marks[g - 1] <= marks[g] && TurnedOver(pools, marks[g - 1], marks[g]) && PassedWithin(l, pools, e, marks[g - 1], marks[g])
      {
        if g < n {
          TurnoverStays(pools0, pools, marks0[g - 1], marks0[g]);
          PassingStays(l, pools0, pools, e, marks0[g - 1], marks0[g]);
        }
      }
    }
  }

  lemma NobodyAhead(l: Limits, pools: seq<Pool>, calls: seq<Call>, e: Entry, k: nat)
    requires WaitsThrough(l, pools, calls, e) && Ahead(pools[0], e, RivalsOf(l, e.candidate)) == {} && k < |pools|
    ensures Ahead(pools[k], e, RivalsOf(l, e.candidate)) == {}
  {
    hide Sound, Step, Waiting, EnqueuesInOrder, Ahead;
    if k > 0 {
      NobodyAhead(l, pools, calls, e, k - 1);
      WaitsAt(l, pools, calls, e, k - 1);
      WaitsAt(l, pools, calls, e, k);
      AheadNeverGrows(l, pools[k - 1], calls[k - 1], pools[k], e, RivalsOf(l, e.candidate));
    }
  }

  lemma NobodyComesFromAhead(l: Limits, pools: seq<Pool>, calls: seq<Call>, e: Entry)
    requires WaitsThrough(l, pools, calls, e) && Ahead(pools[0], e, RivalsOf(l, e.candidate)) == {}
    ensures NothingComesFromAhead(l, pools, |calls|, e)
  {
    hide Sound, Step, Waiting, EnqueuesInOrder;
    forall k | 0 <= k < |calls| ensures NothingFromAhead(l, pools[k], pools[k + 1], e) {
      NobodyAhead(l, pools, calls, e, k);
      forall j | Admits(pools[k], pools[k + 1], j) && Competes(l, pools[k].queue[j].candidate, e.candidate)
        ensures !Before(pools[k].queue[j], e)
      {
        assert j !in Ahead(pools[k], e, RivalsOf(l, e.candidate));
      }
    }
  }

  /** For every `n`: a run in which all slots turn over `n` times, a competitor is admitted during each turnover, none of
      them from ahead, and the job still waits. */
  lemma PassedOverFairly(l: Limits, c: Candidate, n: nat) returns (pools: seq<Pool>, calls: seq<Call>, e: Entry,
                         marks: seq<nat>)
    requires Positive(l) && LaunchSafe(c) && FairlyStarvable(l, c)
    ensures WaitsThrough(l, pools, calls, e) && Reached(l, pools[0]) && e.candidate == c
    ensures NothingComesFromAhead(l, pools, |calls|, e)
    ensures |marks| == n + 1 && marks[0] == 0 && marks[n] == |calls| && Turnovers(l, pools, e, marks)
  {
    hide Stuck, Sound, Step, Waiting, Reached, Ahead, NothingComesFromAhead, Turnovers, EnqueuesInOrder, FairlyStarvable;
    var p;
    p, e := JammedPool(l, c);
    pools, calls, marks := ManyTurnovers(l, p, e, n);
    StretchWaits(l, pools, calls, e, ProviderOf(c));
    NobodyComesFromAhead(l, pools, calls, e);
  }

  /** Exactly which launch-safe jobs cannot be passed over for good while every slot is given back. */
  lemma NeverStarvedFairlyIff(l: Limits, c: Candidate)
    requires Positive(l) && LaunchSafe(c)
    ensures NeverStarvedFairly(l, c) <==> !FairlyStarvable(l, c)
  {
    hide Sound, Step, Waiting, Reached, EnqueuesInOrder, FairlyStarvable, AdmitsRival, TurnedOver, NothingComesFromAhead;
    if FairlyStarvable(l, c) {
      var pools, calls, e, marks := PassedOverFairly(l, c, 3);
      var a, b := marks[1], marks[2];
      assert TurnedOver(pools, marks[1 - 1], marks[1]) && TurnedOver(pools, marks[2 - 1], marks[2]) && marks[3 - 1] <= marks[3];
      assert PassedWithin(l, pools, e, marks[3 - 1], marks[3]);
      assert OutwaitsTwoTurnovers(l, pools, calls, e, a, b);
    } else {
      NotStarvedFairly(l, c);
    }
  }

  /** The fair reading is the narrower one: whoever is starved with slots turning over is starvable. */
  lemma FairIsNarrower(l: Limits, c: Candidate)
    requires Positive(l) && FairlyStarvable(l, c)
    ensures Starvable(l, c)
  {}
}
