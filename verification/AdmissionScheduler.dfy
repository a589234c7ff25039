/** The scheduler object of src/control-plane/admission-scheduler.ts, proved against `AdmissionRules`. */
module Admission {
  import opened Finite
  import opened AdmissionRules

  ghost predicate Sorted(s: seq<Entry>) { forall i, k :: 0 <= i < k < |s| ==> Before(s[i], s[k]) }

  /** Where `e` belongs in a sorted list. */
  method Insert(s: seq<Entry>, e: Entry) returns (r: seq<Entry>)
    requires Sorted(s) && forall i :: 0 <= i < |s| ==> s[i].sequence != e.sequence
    ensures Sorted(r) && forall x :: x in r <==> x in s || x == e
  {
    var i := 0;
    while i < |s| && Before(s[i], e)
      invariant 0 <= i <= |s| && forall k :: 0 <= k < i ==> Before(s[k], e)
    {
      i := i + 1;
    }
    var low, high := s[..i], s[i..];
    r := low + [e] + high;
    forall k | 0 <= k < |high| ensures Before(e, high[k]) {
      assert Before(e, s[i]);
      assert high[k] == s[i + k];
    }
    assert s == low + high;
  }

  class AdmissionScheduler {
    const limits: Limits
    var queue: map<Job, Entry>
    var reservations: map<Job, Slot>
    var sequence: nat
    var open: bool

    ghost function State(): Pool
      reads this
    {
      Pool(queue, reservations, sequence, open)
    }

    ghost predicate Valid()
      reads this
    {
      Sound(limits, State())
    }

    constructor (limits: Limits)
      ensures Valid() && this.limits == limits && State() == EMPTY
    {
      this.limits := limits;
      queue, reservations, sequence, open := map[], map[], 0, false;
      new;
      RunsStaySound(limits, [EMPTY], [], 0);
    }

    method OpenAdmission()
      requires Valid()
      modifies this
      ensures Valid() && Step(limits, old(State()), SetOpen(true), State())
    {
      open := true;
      StepKeepsSound(limits, old(State()), SetOpen(true), State());
    }

    method CloseAdmission()
      requires Valid()
      modifies this
      ensures Valid() && Step(limits, old(State()), SetOpen(false), State())
    {
      open := false;
      StepKeepsSound(limits, old(State()), SetOpen(false), State());
    }

    method Enqueue(candidate: Candidate)
      requires Valid()
      modifies this
      ensures Valid() && Step(limits, old(State()), Call.Enqueue(candidate), State())
    {
      hide Sound;
      EnqueueKeepsSound(limits, State(), candidate);
      if candidate.job in queue || candidate.job in reservations { return; }
      sequence := sequence + 1;
      queue := queue[candidate.job := Entry(candidate, sequence)];
    }

    method AdmitNext(now: int) returns (reservation: Option<Slot>)
      requires Valid()
      modifies this
      ensures Valid() && Step(limits, old(State()), Call.AdmitNext(now), State())
      ensures reservation.None? <==> NoneNext(limits, old(State()))
      ensures reservation.Some? ==>
        && var j := reservation.value.job;
        && IsNext(limits, old(State()), j) && reservation.value == SlotFor(old(queue)[j].candidate, now)
        && State() == Admitted(old(State()), j, now)
    {
      hide WithinLimits, BlockedBy;
      if !open { return None; }
      var candidates := Ordered();
      for k := 0 to |candidates|
        invariant State() == old(State())
        invariant forall i :: 0 <= i < k ==> BlockedBy(limits, reservations, candidates[i].candidate).Some?
      {
        var entry := candidates[k];
        var j := entry.candidate.job;
        var reason := BlockReason(entry.candidate);
        if reason.Some? { continue; }
        OlderAreBlocked(limits, State(), candidates, k);
        reservation := Some(SlotFor(entry.candidate, now));
        queue := queue - {j};
        reservations := reservations[j := reservation.value];
        assert State() == Admitted(old(State()), j, now);
        AdmitKeepsSound(limits, old(State()), j, now);
        return;
      }
      forall i | i in queue ensures BlockedBy(limits, reservations, queue[i].candidate).Some? {
        assert Waiting(State(), queue[i]) && queue[i] in candidates;
      }
      reservation := None;
    }

    method Release(job: Job) returns (held: bool)
      requires Valid()
      modifies this
      ensures Valid() && Step(limits, old(State()), Call.Release(job), State())
      ensures held == (job in old(reservations))
    {
      held := job in reservations;
      reservations := reservations - {job};
      StepKeepsSound(limits, old(State()), Call.Release(job), State());
    }

    method Withdraw(job: Job) returns (waited: bool)
      requires Valid()
      modifies this
      ensures Valid() && Step(limits, old(State()), Call.Withdraw(job), State())
      ensures waited == (job in old(queue))
    {
      waited := job in queue;
      queue := queue - {job};
      StepKeepsSound(limits, old(State()), Call.Withdraw(job), State());
    }

    /** The queue in scan order. */
    method Ordered() returns (entries: seq<Entry>)
      requires Valid()
      ensures Sorted(entries)
      ensures forall e :: e in entries <==> Waiting(State(), e)
    {
      hide WithinLimits, Before;
      entries := [];
      var left := queue.Keys;
      while left != {}
        invariant left <= queue.Keys && Sorted(entries)
        invariant forall e :: e in entries <==> Waiting(State(), e) && e.candidate.job !in left
        decreases |left|
      {
        var j :| j in left;
        entries := Insert(entries, queue[j]);
        left := left - {j};
      }
    }

    method BlockReason(candidate: Candidate) returns (reason: Option<BlockReason>)
      ensures reason == BlockedBy(limits, reservations, candidate)
    {
      hide Holders;
      if !LaunchSafe(candidate) { return Some(LaunchUnsafe); }
      if limits.maxJobs.Some? && |reservations| >= limits.maxJobs.value { return Some(MaxConcurrentJobs); }
      if candidate.provider in limits.perProvider {
        var running := CountBy(OfProvider(candidate.provider));
        if running >= limits.perProvider[candidate.provider] { return Some(MaxConcurrentPerProvider); }
      }
      if limits.perRepository.Some? {
        var running := CountBy(OfRepository(candidate.repository));
        if running >= limits.perRepository.value { return Some(MaxConcurrentPerRepository); }
      }
      reason := None;
    }

    /** `countBy`. */
    method CountBy(bucket: Bucket) returns (count: nat)
      ensures count == |Holders(reservations, bucket)|
    {
      hide InBucket;
      count := 0;
      var held := reservations;
      var left := held.Keys;
      ghost var all := Holders(held, bucket);
      assert all - left == {};
      while left != {}
        modifies {}
        invariant left <= held.Keys && count == |all - left|
        decreases |left|
      {
        var j :| j in left;
        CountOne(held, bucket, left, j);
        if InBucket(held[j], bucket) { count := count + 1; }
        left := left - {j};
      }
      assert all - left == all;
    }
  }

  lemma CountOne(held: map<Job, Slot>, bucket: Bucket, left: set<Job>, j: Job)
    requires j in left && left <= held.Keys
    ensures |Holders(held, bucket) - (left - {j})| == |Holders(held, bucket) - left| + (if InBucket(held[j], bucket) then 1 else 0)
  {
    hide InBucket;
    var all := Holders(held, bucket);
    if InBucket(held[j], bucket) {
      assert all - (left - {j}) == (all - left) + {j};
    } else {
      assert all - (left - {j}) == all - left;
    }
  }

  lemma OlderAreBlocked(l: Limits, p: Pool, entries: seq<Entry>, k: nat)
    requires Sorted(entries) && k < |entries| && p.open && Sound(l, p)
    requires forall e :: e in entries <==> Waiting(p, e)
    requires BlockedBy(l, p.reserved, entries[k].candidate).None?
    requires forall i :: 0 <= i < k ==> BlockedBy(l, p.reserved, entries[i].candidate).Some?
    ensures entries[k] in entries && IsNext(l, p, entries[k].candidate.job)
  {
    hide BlockedBy, WithinLimits;
    var e := entries[k];
    assert e in entries;
    forall i | i in p.queue && Before(p.queue[i], e) ensures BlockedBy(l, p.reserved, p.queue[i].candidate).Some? {
      assert Waiting(p, p.queue[i]);
      var at :| 0 <= at < |entries| && entries[at] == p.queue[i];
      assert at < k;
    }
  }
}
