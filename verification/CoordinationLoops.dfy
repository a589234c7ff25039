/** The loops inside the service's exclusive sections, each proved against the function that specifies it. */
module CoordinationLoops {
  import opened Finite
  import opened CoordinationTypes
  import opened CoordinationState
  import opened LeasePlans
  import opened BatchPlans
  import opened EventPlans
  import opened EventQueue
  import opened EventRuns
  import opened EventReader

  /** The loop of `ownershipMutation` over the selected subjects. */
  method TakeSelected(cfg: Config, m: Memory, taking: Taking, actor: Controller, c: Controller, xs: set<SubjectId>, now: Time,
                      call: nat) returns (mutated: map<SubjectId, Mutated>, granted: bool)
    requires xs <= m.subjects.Keys
    ensures mutated == TakeAll(cfg, m, taking, actor, c, xs, now, call)
    ensures granted == Granted(mutated)
  {
    hide TakeOne, ExpiredCopy;
    mutated, granted := map[], false;
    var todo := xs;
    while todo != {}
      invariant todo <= xs && mutated.Keys == xs - todo
      invariant forall x :: x in mutated ==>
        mutated[x] == TakeOne(cfg, taking, actor, c, x, ExpiredCopy(cfg, m, m.subjects[x], now), now, call)
      invariant granted == Granted(mutated)
      decreases todo
    {
      var x :| x in todo;
      var next := TakeOne(cfg, taking, actor, c, x, ExpiredCopy(cfg, m, m.subjects[x], now), now, call);
      ghost var before := mutated;
      mutated := mutated[x := next];
      if next.outcome.code.ACQUIRED? || next.outcome.code.ALREADY_CONTROLLED? {
        granted := true;
        assert x in mutated && mutated[x] == next;
      }
      assert forall y :: y in before ==> mutated[y] == before[y];
      todo := todo - {x};
    }
  }

  /** The loop of `authenticatedOwnershipMutation`. */
  method UseSelected(cfg: Config, m: Memory, using: Using, cr: Credential, xs: set<SubjectId>, now: Time, call: nat)
    returns (mutated: map<SubjectId, Mutated>, heard: bool)
    requires xs <= m.subjects.Keys
    ensures mutated == UseAll(cfg, m, using, cr, xs, now, call)
    ensures heard == SomeAuthenticated(mutated)
  {
    hide UseOne, ExpiredCopy;
    mutated, heard := map[], false;
    var todo := xs;
    while todo != {}
      invariant todo <= xs && mutated.Keys == xs - todo
      invariant forall x :: x in mutated ==>
        mutated[x] == UseOne(cfg, m, using, cr, x, ExpiredCopy(cfg, m, m.subjects[x], now), now, call)
      invariant heard == SomeAuthenticated(mutated)
      decreases todo
    {
      var x :| x in todo;
      var next := UseOne(cfg, m, using, cr, x, ExpiredCopy(cfg, m, m.subjects[x], now), now, call);
      ghost var before := mutated;
      mutated := mutated[x := next];
      if !next.outcome.code.OWNERSHIP_LOST? && !next.outcome.code.ORPHANED? {
        heard := true;
        assert x in mutated && mutated[x] == next;
      }
      assert forall y :: y in before ==> mutated[y] == before[y];
      todo := todo - {x};
    }
  }

  /** The loop of `expireLeases` over every subject. */
  method ExpireAll(cfg: Config, m: Memory, now: Time) returns (orphaned: map<SubjectId, Mutated>)
    ensures orphaned == OrphanAll(cfg, m, m.subjects.Keys, now)
  {
    hide IsExpired, Orphan;
    orphaned := map[];
    var todo := m.subjects.Keys;
    while todo != {}
      invariant todo <= m.subjects.Keys
      invariant orphaned == OrphanAll(cfg, m, m.subjects.Keys - todo, now)
      decreases todo
    {
      var x :| x in todo;
      assert m.subjects.Keys - (todo - {x}) == (m.subjects.Keys - todo) + {x};
      if IsExpired(cfg, m, m.subjects[x], now) {
        var gone := Orphan(m.subjects[x], now);
        orphaned := orphaned[x := Mutated(gone, OutcomeOf(gone, ORPHANED))];
      }
      todo := todo - {x};
    }
    assert m.subjects.Keys - {} == m.subjects.Keys;
  }

  /** The mapping of `observeControllerLiveness` over the subjects the controller holds: what is judged and what to write. */
  method ObserveHeld(cfg: Config, m: Memory, c: Controller, entry: Liveness, session: Option<Session>, now: Time)
    returns (outcomes: map<SubjectId, Outcome>, orphaned: map<SubjectId, Subject>)
    ensures outcomes == ObserveOutcomes(cfg, entry, Judged(cfg, m, c, session, now), now)
    ensures orphaned == OrphanedAmong(Judged(cfg, m, c, session, now))
  {
    hide BeforeObservation, ObserveOutcome;
    outcomes, orphaned := map[], map[];
    var all := HeldBy(m, c.controllerId);
    var todo := all;
    while todo != {}
      invariant todo <= all && outcomes.Keys == all - todo
      invariant forall x :: x in outcomes ==> outcomes[x] == ObserveOutcome(cfg, entry, BeforeObservation(cfg, m, m.subjects[x], session, now), now)
      invariant forall x :: x in orphaned <==> x in all - todo && BeforeObservation(cfg, m, m.subjects[x], session, now).lease.state.Orphaned?
      invariant forall x :: x in orphaned ==> orphaned[x] == BeforeObservation(cfg, m, m.subjects[x], session, now)
      decreases todo
    {
      var x :| x in todo;
      var subject := BeforeObservation(cfg, m, m.subjects[x], session, now);
      outcomes := outcomes[x := ObserveOutcome(cfg, entry, subject, now)];
      if subject.lease.state.Orphaned? { orphaned := orphaned[x := subject]; }
      todo := todo - {x};
    }
  }

  /** The passes of `acknowledgeHandoffs` over the named records. */
  method AcknowledgeNamed(m: Memory, c: ControllerId, ids: set<HandoffId>, now: Time) returns (plan: Plan)
    ensures plan == PlanAcknowledge(m, c, ids, now)
  {
    var changed: map<HandoffId, Handoff> := map[];
    var records: map<HandoffId, Handoff> := map[];
    var todo := ids;
    while todo != {}
      invariant todo <= ids && records.Keys == ids - todo
      invariant forall h :: h in ids - todo ==> h in m.handoffs && m.handoffs[h].recipient.controllerId == c
      invariant forall h :: h in changed <==> h in ids - todo && m.handoffs[h].acknowledgedAt.None?
      invariant forall h :: h in changed ==> changed[h] == m.handoffs[h].(acknowledgedAt := Some(now))
      invariant forall h :: h in records ==> records[h] == if h in changed then changed[h] else m.handoffs[h]
      decreases todo
    {
      var h :| h in todo;
      if h !in m.handoffs || m.handoffs[h].recipient.controllerId != c { return Refuse(HandoffNotFound); }
      if m.handoffs[h].acknowledgedAt.None? { changed := changed[h := m.handoffs[h].(acknowledgedAt := Some(now))]; }
      records := records[h := if h in changed then changed[h] else m.handoffs[h]];
      todo := todo - {h};
    }
    assert CanAcknowledge(m, c, ids);
    assert changed == map h | h in ids && m.handoffs[h].acknowledgedAt.None? :: m.handoffs[h].(acknowledgedAt := Some(now));
    assert records == map h | h in ids :: if h in changed then changed[h] else m.handoffs[h];
    plan := Plan(if changed == map[] then None else Some(NO_CHANGES.(handoffs := changed)), 0, Records(records));
  }

  /** The member loops of `adoptBatch`: read every member, then abort or grant. */
  method AdoptMembers(cfg: Config, m: Memory, id: MutationId, c: Controller, members: seq<AdoptMember>, now: Time, call: nat)
    returns (plan: Plan)
    requires id !in m.receipts
    ensures plan == PlanAdoptBatch(cfg, m, id, c, members, now, call)
  {
    hide AdoptFailureAt, ExpiredCopy, WithNewController, OutcomeOf, GrantOutcome, ConnectedObservation, SubjectsOf, OutcomesOf;
    var seen: set<SubjectId> := {};
    var failed := false;
    for i := 0 to |members|
      invariant AdoptFault(m, members, 0) == AdoptFault(m, members, i)
      invariant forall j :: 0 <= j < i ==> members[j].subjectId in m.subjects
      invariant forall x :: x in seen <==> exists j :: 0 <= j < i && members[j].subjectId == x
      invariant failed <==> exists j :: 0 <= j < i && AdoptFailureAt(cfg, m, members[j], now).Some?
    {
      var x := members[i].subjectId;
      if x in seen { return Refuse(DuplicateMember); }
      if x !in m.subjects { return Refuse(SubjectNotFound); }
      seen := seen + {x};
      if AdoptFailureAt(cfg, m, members[i], now).Some? { failed := true; }
    }
    assert AllKnown(m, members);
    if failed {
      var outcomes: map<SubjectId, Outcome> := map[];
      for i := 0 to |members|
        invariant outcomes == AdoptAborted(cfg, m, members, now, i)
      {
        var x := members[i].subjectId;
        var failure := AdoptFailureAt(cfg, m, members[i], now);
        outcomes := outcomes[x :=
          OutcomeOf(ExpiredCopy(cfg, m, m.subjects[x], now), if failure.Some? then failure.value else NOT_ELIGIBLE)];
      }
      return Receipted(id, OpAdopt, Unkeyed, Batch(false, outcomes, None), NO_CHANGES, 0);
    }
    var granted: map<SubjectId, Mutated> := map[];
    for i := 0 to |members|
      invariant granted == AdoptGranted(cfg, m, members, c, now, call, i)
    {
      var x := members[i].subjectId;
      var next := WithNewController(cfg, ExpiredCopy(cfg, m, m.subjects[x], now), x, c, now, call);
      granted := granted[x := Mutated(next, GrantOutcome(next, ACQUIRED, x, call))];
    }
    plan := Receipted(id, OpAdopt, Unkeyed, Batch(true, OutcomesOf(granted), None),
      NO_CHANGES.(subjects := SubjectsOf(granted),
                  liveness := if members == [] then map[] else ConnectedObservation(m, c, now)), 0);
  }

  /** The member loops of `handoffBatch`. */
  method HandoffMembers(cfg: Config, m: Memory, id: MutationId, r: HandoffRequest, now: Time, call: nat) returns (plan: Plan)
    requires id !in m.receipts
    ensures plan == PlanHandoff(cfg, m, id, r, now, call)
  {
    hide HandoffFailureAt, CurrentOf, HandOver, EntryOf, OutcomeOf, ConnectedObservation, SubjectsOf, OutcomesOf, KeyOf,
      HandoffIdOf;
    var seen: set<SubjectId> := {};
    var failed := false;
    for i := 0 to |r.members|
      invariant HandoffFault(m, r.members, 0) == HandoffFault(m, r.members, i)
      invariant forall j :: 0 <= j < i ==> IsPresentable(m, r.members[j])
      invariant forall x :: x in seen <==> exists j :: 0 <= j < i && r.members[j].subjectId == x
      invariant failed <==> exists j :: 0 <= j < i && HandoffFailureAt(cfg, m, r, j, now).Some?
    {
      var x := r.members[i].subjectId;
      if x in seen { return Refuse(DuplicateMember); }
      if x !in m.subjects && r.members[i].register.None? { return Refuse(SubjectNotFound); }
      seen := seen + {x};
      if HandoffFailureAt(cfg, m, r, i, now).Some? { failed := true; }
    }
    assert AllPresentable(m, r.members);
    if failed {
      var outcomes: map<SubjectId, Outcome> := map[];
      for i := 0 to |r.members|
        invariant outcomes == HandoffAborted(cfg, m, r, now, i)
      {
        assert IsPresentable(m, r.members[i]);
        var failure := HandoffFailureAt(cfg, m, r, i, now);
        outcomes := outcomes[r.members[i].subjectId :=
          OutcomeOf(CurrentOf(cfg, m, r.members[i], now), if failure.Some? then failure.value else NOT_ELIGIBLE)];
      }
      return Receipted(id, OpHandoff, KeyOf(r), Batch(false, outcomes, None), NO_CHANGES, 0);
    }
    var granted: map<SubjectId, Mutated> := map[];
    var manifest: seq<ManifestEntry> := [];
    for i := 0 to |r.members|
      invariant granted == HandoffGranted(cfg, m, r, now, call, i)
      invariant manifest == ManifestOf(cfg, m, r, now, i)
    {
      assert IsPresentable(m, r.members[i]);
      granted := granted[r.members[i].subjectId := HandOver(cfg, m, r, i, now, call)];
      manifest := manifest + [EntryOf(cfg, m, r, i, now)];
    }
    if |manifest| == 0 || |manifest| > MANIFEST_ENTRIES { return Refuse(InvalidHandoff); }
    var handoff := Handoff(r.recipient, r.session, r.actor, r.directive, manifest, now, None);
    plan := Receipted(id, OpHandoff, KeyOf(r), Batch(true, OutcomesOf(granted), Some((HandoffIdOf(r, call), handoff))),
      NO_CHANGES.(subjects := SubjectsOf(granted), liveness := ConnectedObservation(m, r.recipient, now),
                  handoffs := map[HandoffIdOf(r, call) := handoff]), 0);
  }

  // ---- what a submission looks up ------------------------------------------------------------

  /** The reduction to the highest sequence of a worker. */
  method HighestSequence(events: Events, w: SubjectId) returns (top: nat)
    ensures top == LastSequence(events, w)
  {
    hide MaxSequence;
    top := 0;
    var todo := EventsOf(events, w);
    while todo != {}
      invariant todo <= EventsOf(events, w)
      invariant forall id :: id in EventsOf(events, w) && id !in todo ==> events[id].event.sequence <= top
      invariant top > 0 ==> exists id :: id in EventsOf(events, w) && events[id].event.sequence == top
      decreases todo
    {
      var id :| id in todo;
      if events[id].event.sequence > top { top := events[id].event.sequence; }
      todo := todo - {id};
    }
  }

  /** The open progress report a submission supersedes: the one with the highest sequence. */
  method FindLatestProgress(events: Events, w: SubjectId) returns (found: Option<EventId>)
    ensures found.None? <==> OpenProgressOf(events, w) == {}
    ensures found.Some? ==> IsLatest(events, OpenProgressOf(events, w), found.value)
    ensures found.Some? ==> forall id :: id in OpenProgressOf(events, w) ==> events[id].event.sequence <= events[found.value].event.sequence
    ensures OneProgress(events) ==> found == LatestProgress(events, w)
  {
    found := None;
    var all := OpenProgressOf(events, w);
    var todo := all;
    while todo != {}
      invariant todo <= all
      invariant found.None? ==> todo == all
      invariant found.Some? ==> found.value in all && forall j :: j in all && j !in todo ==>
        events[j].event.sequence <= events[found.value].event.sequence
      decreases todo
    {
      var id :| id in todo;
      if found.None? || events[id].event.sequence > events[found.value].event.sequence { found := Some(id); }
      todo := todo - {id};
    }
    if OneProgress(events) { LoneProgressIsLatest(events, w); }
  }

  ghost predicate OrdinalsDiffer(events: Events) {
    forall i, j :: i in events && j in events && i != j ==> events[i].ordinal != events[j].ordinal
  }

  /** The unpinned open event with the lowest ordinal. */
  method FindOldestEvictable(events: Events, w: SubjectId) returns (found: Option<EventId>)
    ensures found.None? <==> EvictableOf(events, w) == {}
    ensures found.Some? ==> IsOldest(events, EvictableOf(events, w), found.value)
    ensures OrdinalsDiffer(events) ==> found == OldestEvictable(events, w)
  {
    found := None;
    var all := EvictableOf(events, w);
    var todo := all;
    while todo != {}
      invariant todo <= all
      invariant found.None? ==> todo == all
      invariant found.Some? ==> found.value in all && forall j :: j in all && j !in todo ==>
        events[found.value].ordinal <= events[j].ordinal
      decreases todo
    {
      var id :| id in todo;
      if found.None? || events[id].ordinal < events[found.value].ordinal { found := Some(id); }
      todo := todo - {id};
    }
    if found.Some? { assert IsOldest(events, all, found.value); }
  }

  /** What queueing the event takes: the report it replaces, whether the queue is full, and what makes room. */
  method FindQueueing(cfg: Config, events: Events, e: WorkerEvent) returns (q: Queueing)
    requires OneProgress(events) && OrdinalsDiffer(events)
    ensures q == QueueingOf(cfg, events, e)
  {
    hide OneProgress, OrdinalsDiffer, LatestProgress, OldestEvictable, IsLatest, IsOldest, OpenOf, OpenProgressOf, EvictableOf;
    var superseded: Option<EventId> := None;
    if e.kind.PROGRESS? { superseded := FindLatestProgress(events, e.workerId); }
    var growth := if superseded.Some? then 0 else 1;
    var over := |OpenOf(events, e.workerId)| + growth > cfg.maxQueued;
    var evicted: Option<EventId> := None;
    if over { evicted := FindOldestEvictable(events, e.workerId); }
    q := Queueing(superseded, over, evicted);
  }

  lemma SoundIsUnambiguous(cfg: Config, events: Events, next: nat, now: Time)
    requires EventsSound(cfg, events, next, now)
    ensures OneProgress(events) && OrdinalsDiffer(events)
  {}

  /** The accepting half of `submitEvent`: supersede or evict, store, answer a checkpoint, renew. */
  method AcceptEvent(cfg: Config, m: Memory, id: MutationId, c: Controller, e: WorkerEvent, expected: nat, now: Time, last: Time)
    returns (plan: Plan)
    requires EventsSound(cfg, m.events, m.nextOrdinal, last) && e.workerId in m.subjects
    requires expected == LastSequence(m.events, e.workerId) + 1
    ensures plan == PlanAccept(cfg, m, id, c, e, now)
  {
    hide EventsSound, QueueingOf, OneProgress, OrdinalsDiffer, LastSequence, ExpiredCopy, Renewed, ClosedEvents, StoredOf, Ungated,
      AnsweredCheckpoints, ConnectedObservation;
    SoundIsUnambiguous(cfg, m.events, m.nextOrdinal, last);
    var q := FindQueueing(cfg, m.events, e);
    if q.over && q.evicted.None? {
      return Reject(id, OpSubmit, e.eventId, QueueLimitExceeded, NO_CHANGES, OrdinalsDrawn(q));
    }
    if e.correlation.Some? && !AnswersPending(m, e) {
      return Reject(id, OpSubmit, e.eventId, CorrelationInvalid, NO_CHANGES, OrdinalsDrawn(q) + 1);
    }
    var s := Renewed(cfg, ExpiredCopy(cfg, m, m.subjects[e.workerId], now), now);
    var gap := if e.sequence > expected then Some(expected) else None;
    plan := Receipted(id, OpSubmit, Unkeyed, EventResult(Accepted(e.eventId, e.sequence, gap, q.superseded)),
      NO_CHANGES.(subjects := map[e.workerId := Ungated(m, e, s)],
                  events := ClosedEvents(m.events, q, e, m.nextOrdinal, now)
                            + [StoredOf(m.events, q, e, m.nextOrdinal, now)],
                  checkpoints := AnsweredCheckpoints(m, e, now),
                  liveness := ConnectedObservation(m, c, now)),
      OrdinalsDrawn(q) + 1);
  }

  // ---- projectEvents -------------------------------------------------------------------------

  ghost predicate Ascending(page: seq<StoredEvent>) { forall i, j :: 0 <= i < j < |page| ==> page[i].ordinal < page[j].ordinal }

  /** `sorted` lists exactly the events of `ids`, by ascending ordinal. */
  ghost predicate Lists(events: Events, ids: set<EventId>, sorted: seq<StoredEvent>) {
    && Ascending(sorted)
    && (forall i :: 0 <= i < |sorted| ==> sorted[i].event.eventId in ids && sorted[i].event.eventId in events
                                           && events[sorted[i].event.eventId] == sorted[i])
    && (forall id :: id in ids ==> id in events && events[id] in sorted)
  }

  function PastCursor(events: Events, cursor: nat): set<EventId> { set id | id in events && events[id].ordinal > cursor }

  /** Candidates past the cursor in ordinal order. */
  method SortCandidates(events: Events, cursor: nat) returns (sorted: seq<StoredEvent>)
    requires Keyed(events) && OrdinalsDiffer(events)
    ensures Lists(events, PastCursor(events, cursor), sorted)
  {
    hide Lists;
    sorted := [];
    ListsNothing(events);
    var all := PastCursor(events, cursor);
    var todo := all;
    assert all - todo == {};
    while todo != {}
      invariant todo <= all
      invariant Lists(events, all - todo, sorted)
      invariant forall i, id :: 0 <= i < |sorted| && id in todo ==> sorted[i].ordinal < events[id].ordinal
      decreases todo
    {
      OldestExists(events, todo);
      var id :| id in todo && forall j :: j in todo ==> events[id].ordinal <= events[j].ordinal;
      ListsOneMore(events, all - todo, sorted, id);
      sorted := sorted + [events[id]];
      assert all - (todo - {id}) == (all - todo) + {id};
      todo := todo - {id};
    }
    assert all - {} == all;
  }

  lemma ListsNothing(events: Events)
    ensures Lists(events, {}, [])
  {}

  lemma ListsOneMore(events: Events, ids: set<EventId>, sorted: seq<StoredEvent>, id: EventId)
    requires Keyed(events) && Lists(events, ids, sorted) && id in events
    requires forall i :: 0 <= i < |sorted| ==> sorted[i].ordinal < events[id].ordinal
    ensures Lists(events, ids + {id}, sorted + [events[id]])
  {
    var longer := sorted + [events[id]];
    forall j | j in ids + {id} ensures events[j] in longer {
      if j == id { assert longer[|sorted|] == events[id]; }
    }
  }

  method FilterMatches(f: Filter, candidates: seq<StoredEvent>) returns (matches: seq<StoredEvent>)
    requires Ascending(candidates)
    ensures Ascending(matches)
    ensures forall e :: e in matches <==> e in candidates && Matches(f, e)
  {
    hide Matches;
    matches := [];
    for i := 0 to |candidates|
      invariant Ascending(matches)
      invariant forall e :: e in matches <==> e in candidates[..i] && Matches(f, e)
    {
      assert candidates[..i + 1] == candidates[..i] + [candidates[i]];
      if Matches(f, candidates[i]) {
        forall k | 0 <= k < |matches| ensures matches[k].ordinal < candidates[i].ordinal {
          assert matches[k] in matches;
          var j :| 0 <= j < i && candidates[..i][j] == matches[k];
          assert candidates[j] == matches[k];
        }
        matches := matches + [candidates[i]];
      }
    }
    assert candidates[..|candidates|] == candidates;
  }

  function PageLimit(cfg: Config, limit: Option<int>): nat {
    var asked := if limit.Some? then limit.value else cfg.maxPage;
    var atLeastOne := if asked >= 1 then asked else 1;
    if atLeastOne <= cfg.maxPage then atLeastOne else cfg.maxPage
  }

  /** `projectEvents`: one page, and the cursor to ask for the next. A service configured with a page size of zero fails
      on the last entry of the empty page as soon as there is something to list. */
  method ProjectEvents(cfg: Config, events: Events, cursor: nat, limit: Option<int>, f: Filter) returns (p: Option<Projection>)
    requires Keyed(events) && OrdinalsDiffer(events)
    ensures p.None? <==> cfg.maxPage == 0 && exists id :: IsMatch(events, cursor, f, id)
    ensures p.Some? ==> IsProjection(events, cursor, PageLimit(cfg, limit), f, p.value)
    ensures p.Some? ==> |p.value.events| <= cfg.maxPage && (limit.Some? ==> |p.value.events| <= 1 || |p.value.events| <= limit.value)
    ensures p.Some? && p.value.hasMore ==>
      || |p.value.events| == cfg.maxPage
      || (limit.Some? && (|p.value.events| == limit.value || (limit.value < 1 && |p.value.events| == 1)))
  {
    hide Matches;
    var candidates := SortCandidates(events, cursor);
    var matches := FilterMatches(f, candidates);
    var n := if |matches| <= PageLimit(cfg, limit) then |matches| else PageLimit(cfg, limit);
    var page := matches[..n];
    var hasMore := |matches| > n;
    MatchesAreListed(events, cursor, f, candidates, matches);
    if hasMore && page == [] { return None; }
    var next := if hasMore then page[n - 1].ordinal
      else if candidates != [] then candidates[|candidates| - 1].ordinal else cursor;
    p := Some(Projection(page, next, hasMore));
    PageIsProjection(events, cursor, PageLimit(cfg, limit), f, candidates, matches, p.value);
  }

  lemma MatchesAreListed(events: Events, cursor: nat, f: Filter, candidates: seq<StoredEvent>, matches: seq<StoredEvent>)
    requires Keyed(events) && Lists(events, PastCursor(events, cursor), candidates)
    requires forall e :: e in matches <==> e in candidates && Matches(f, e)
    ensures matches != [] <==> exists id :: IsMatch(events, cursor, f, id)
  {
    hide Matches;
    if matches != [] {
      assert matches[0] in matches && IsMatch(events, cursor, f, matches[0].event.eventId);
    }
    forall id | IsMatch(events, cursor, f, id) ensures events[id] in matches {}
  }

  lemma PageIsProjection(events: Events, cursor: nat, limit: nat, f: Filter, candidates: seq<StoredEvent>,
                         matches: seq<StoredEvent>, p: Projection)
    requires Keyed(events) && (limit >= 1 || matches == [])
    requires Lists(events, PastCursor(events, cursor), candidates)
    requires Ascending(matches) && forall e :: e in matches <==> e in candidates && Matches(f, e)
    requires p.events == matches[..if |matches| <= limit then |matches| else limit]
    requires p.hasMore == (|matches| > |p.events|)
    requires p.nextCursor == if p.hasMore then p.events[|p.events| - 1].ordinal
      else if candidates != [] then candidates[|candidates| - 1].ordinal else cursor
    ensures IsProjection(events, cursor, limit, f, p)
  {
    hide Matches, Lists;
    PageIsOrdered(events, cursor, f, candidates, matches, |p.events|);
    MatchesAreListed(events, cursor, f, candidates, matches);
    MatchIsIn(events, cursor, f, candidates, matches);
    var n := |p.events|;
    forall id | IsMatch(events, cursor, f, id) && events[id].ordinal <= p.nextCursor ensures events[id] in p.events {
      MatchIsListed(matches, n, events[id], p.nextCursor);
    }
    if p.hasMore {
      var e := matches[n];
      assert e in matches;
      LaterIsNotListed(matches, n);
      StoredMatch(events, cursor, f, candidates, matches, e);
    } else {
      assert p.events == matches;
    }
    CandidatesEnd(events, cursor, candidates);
  }

  lemma PageIsOrdered(events: Events, cursor: nat, f: Filter, candidates: seq<StoredEvent>, matches: seq<StoredEvent>, n: nat)
    requires Lists(events, PastCursor(events, cursor), candidates) && n <= |matches|
    requires Ascending(matches) && forall e :: e in matches <==> e in candidates && Matches(f, e)
    ensures PageOrdered(events, cursor, f, matches[..n])
  {
    hide Matches;
    var page := matches[..n];
    forall i | 0 <= i < n ensures IsMatch(events, cursor, f, page[i].event.eventId) && events[page[i].event.eventId] == page[i] {
      assert page[i] == matches[i] && matches[i] in matches;
    }
  }

  lemma MatchIsIn(events: Events, cursor: nat, f: Filter, candidates: seq<StoredEvent>, matches: seq<StoredEvent>)
    requires Lists(events, PastCursor(events, cursor), candidates)
    requires forall e :: e in matches <==> e in candidates && Matches(f, e)
    ensures forall id :: IsMatch(events, cursor, f, id) ==> events[id] in matches
  {
    hide Matches;
  }

  lemma StoredMatch(events: Events, cursor: nat, f: Filter, candidates: seq<StoredEvent>, matches: seq<StoredEvent>,
                    e: StoredEvent)
    requires Lists(events, PastCursor(events, cursor), candidates) && e in matches
    requires forall e :: e in matches <==> e in candidates && Matches(f, e)
    ensures IsMatch(events, cursor, f, e.event.eventId) && events[e.event.eventId] == e
  {
    hide Matches;
  }

  lemma LaterIsNotListed(matches: seq<StoredEvent>, n: nat)
    requires Ascending(matches) && n < |matches|
    ensures matches[n] !in matches[..n]
  {
    forall i | 0 <= i < n ensures matches[..n][i] != matches[n] { assert matches[..n][i] == matches[i]; }
  }

  lemma CandidatesEnd(events: Events, cursor: nat, candidates: seq<StoredEvent>)
    requires Lists(events, PastCursor(events, cursor), candidates)
    ensures candidates == [] ==> forall id :: !IsCandidate(events, cursor, id)
    ensures candidates != [] ==> var last := candidates[|candidates| - 1];
      && (forall id :: IsCandidate(events, cursor, id) ==> events[id].ordinal <= last.ordinal)
      && (exists id :: IsCandidate(events, cursor, id) && events[id].ordinal == last.ordinal)
      && cursor < last.ordinal
  {
    forall id | IsCandidate(events, cursor, id) ensures events[id] in candidates {}
    if candidates != [] {
      var last := candidates[|candidates| - 1];
      assert IsCandidate(events, cursor, last.event.eventId) && events[last.event.eventId] == last;
      forall id | IsCandidate(events, cursor, id) ensures events[id].ordinal <= last.ordinal {
        var i :| 0 <= i < |candidates| && candidates[i] == events[id];
        assert i == |candidates| - 1 || candidates[i].ordinal < last.ordinal;
      }
    }
  }

  lemma MatchIsListed(matches: seq<StoredEvent>, n: nat, e: StoredEvent, next: nat)
    requires Ascending(matches) && n <= |matches| && e in matches
    requires n < |matches| ==> n > 0 && next == matches[n - 1].ordinal && e.ordinal <= next
    ensures e in matches[..n]
  {
    var i :| 0 <= i < |matches| && matches[i] == e;
    assert forall k :: 0 < n <= k < |matches| ==> matches[n - 1].ordinal < matches[k].ordinal;
    assert matches[..n][i] == e;
  }
}
