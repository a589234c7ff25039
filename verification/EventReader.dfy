/** Cursor projection of the event stream, and what a reader that follows the cursor is guaranteed. */
module EventReader {
  import opened Finite
  import opened CoordinationTypes
  import opened CoordinationState
  import opened CoordinationMachine
  import opened EventQueue
  import opened EventRuns

  datatype Intervention = OnlyOpen | OnlyUnresolved | OnlyResolved | Any
  datatype Filter = Filter(
    workers: Option<set<SubjectId>>,
    taskId: Option<nat>,
    waveId: Option<nat>,
    severities: Option<set<nat>>,
    kinds: Option<set<EventKind>>,
    intervention: Intervention)

  const ANY := Filter(None, None, None, None, None, Any)

  predicate Matches(f: Filter, e: StoredEvent) {
    && (f.workers.Some? ==> e.event.workerId in f.workers.value)
    && (f.taskId.Some? ==> e.event.taskId == f.taskId.value)
    && (f.waveId.Some? ==> e.event.waveId == f.waveId)
    && (f.severities.Some? ==> e.event.severity in f.severities.value)
    && (f.kinds.Some? ==> e.event.kind in f.kinds.value)
    && match f.intervention
       case Any => true
       case OnlyResolved => IsPinned(e) && !IsUnresolved(e)
       case OnlyUnresolved => IsUnresolved(e)
       case OnlyOpen => e.state.Open?
  }

  /** What a filter lets through: its fields narrow independently, `Any` knows no state, `OnlyOpen` keeps the open events, and
      what somebody must look at is either unresolved, that is open, or resolved. */
  lemma FilterMeans(f: Filter, e: StoredEvent)
    ensures Matches(f.(intervention := Any), e) <==>
      && (f.workers == None || e.event.workerId in f.workers.value)
      && (f.taskId == None || Some(e.event.taskId) == f.taskId)
      && (f.waveId == None || e.event.waveId == f.waveId)
      && (f.severities == None || e.event.severity in f.severities.value)
      && (f.kinds == None || e.event.kind in f.kinds.value)
    ensures Matches(f.(intervention := OnlyOpen), e) <==> Matches(f.(intervention := Any), e) && e.state == Open
    ensures var pinned := e.event.kind == EXCEPTION || e.event.kind == DECISION_REQUEST || e.event.interventionRequired;
      && (Matches(f.(intervention := OnlyUnresolved), e) <==> Matches(f.(intervention := OnlyOpen), e) && pinned)
      && (Matches(f.(intervention := OnlyResolved), e) <==>
            Matches(f.(intervention := Any), e) && pinned && !Matches(f.(intervention := OnlyUnresolved), e))
  {}

  /** The unresolved feed of a worker holds exactly as many events as the index counts for it. */
  lemma UnresolvedFeedIsCounted(events: Events, summaries: map<SubjectId, Summary>, w: SubjectId)
    requires SummariesExact(events, summaries)
    ensures |set id | id in events && Matches(Filter(Some({w}), None, None, None, None, OnlyUnresolved), events[id])|
      == SummaryOf(summaries, w).unresolvedCount
  {
    var feed := set id | id in events && Matches(Filter(Some({w}), None, None, None, None, OnlyUnresolved), events[id]);
    assert feed == UnresolvedOf(events, w);
    ExactIsRecount(events, w, SummaryOf(summaries, w));
  }

  datatype Projection = Projection(events: seq<StoredEvent>, nextCursor: nat, hasMore: bool)

  predicate IsCandidate(events: Events, cursor: nat, id: EventId) { id in events && events[id].ordinal > cursor }

  predicate IsMatch(events: Events, cursor: nat, f: Filter, id: EventId) {
    IsCandidate(events, cursor, id) && Matches(f, events[id])
  }

  /** The page lists stored matches past the cursor, oldest first and without a hole up to `nextCursor`. */
  ghost predicate PageOrdered(events: Events, cursor: nat, f: Filter, page: seq<StoredEvent>) {
    && (forall i, j :: 0 <= i < j < |page| ==> page[i].ordinal < page[j].ordinal)
    && (forall i :: 0 <= i < |page| ==>
          IsMatch(events, cursor, f, page[i].event.eventId) && events[page[i].event.eventId] == page[i])
  }

  ghost predicate IsProjection(events: Events, cursor: nat, limit: nat, f: Filter, p: Projection) {
    && PageOrdered(events, cursor, f, p.events) && |p.events| <= limit
    && (forall id :: IsMatch(events, cursor, f, id) && events[id].ordinal <= p.nextCursor ==> events[id] in p.events)
    && (p.hasMore <==> exists id :: IsMatch(events, cursor, f, id) && events[id] !in p.events)
    && (if p.hasMore then |p.events| == limit && p.events != [] && p.nextCursor == p.events[|p.events| - 1].ordinal
        else
          && cursor <= p.nextCursor
          && (forall id :: IsCandidate(events, cursor, id) ==> events[id].ordinal <= p.nextCursor)
          && (p.nextCursor == cursor || exists id :: IsCandidate(events, cursor, id) && events[id].ordinal == p.nextCursor))
  }

  // ---- a reader following the cursor ---------------------------------------------------------

  /** The latest version received of every event, and every ordinal ever received. */
  datatype Reader = Reader(cursor: nat, latest: map<EventId, StoredEvent>, ordinals: set<nat>)

  const FRESH_READER := Reader(0, map[], {})

  function Receive(latest: map<EventId, StoredEvent>, page: seq<StoredEvent>): map<EventId, StoredEvent>
    decreases |page|
  {
    if page == [] then latest else Receive(latest[page[0].event.eventId := page[0]], page[1..])
  }

  function OrdinalsOf(page: seq<StoredEvent>): set<nat> { set i | 0 <= i < |page| :: page[i].ordinal }

  function Poll(r: Reader, p: Projection): Reader {
    Reader(p.nextCursor, Receive(r.latest, p.events), r.ordinals + OrdinalsOf(p.events))
  }

  /** The reader holds the current version of every matching event at or below its cursor. */
  ghost predicate ReaderSound(events: Events, f: Filter, r: Reader) {
    && (r.cursor == 0 || exists id :: id in events && events[id].ordinal >= r.cursor)
    && (forall id :: id in events && events[id].ordinal <= r.cursor && Matches(f, events[id]) ==>
          id in r.latest && r.latest[id] == events[id])
    && (forall o :: o in r.ordinals ==> o <= r.cursor)
  }

  lemma CommitsLeaveReader(events: Events, events': Events, f: Filter, r: Reader)
    requires ReaderSound(events, f, r) && Advances(events, events')
    requires forall id :: id in events' ==> events'[id].ordinal > 0
    ensures ReaderSound(events', f, r)
  {
    if r.cursor > 0 {
      var id :| id in events && events[id].ordinal >= r.cursor;
      assert events'[id].ordinal >= r.cursor;
    }
  }

  lemma {:induction false} ReceiveKeepsNewest(latest: map<EventId, StoredEvent>, page: seq<StoredEvent>, id: EventId)
    requires forall i, j :: 0 <= i < j < |page| ==> page[i].event.eventId != page[j].event.eventId
    ensures (exists i :: 0 <= i < |page| && page[i].event.eventId == id) ==>
      id in Receive(latest, page) && exists i :: 0 <= i < |page| && page[i].event.eventId == id && Receive(latest, page)[id] == page[i]
    ensures (forall i :: 0 <= i < |page| ==> page[i].event.eventId != id) ==>
      (id in Receive(latest, page) <==> id in latest) && (id in latest ==> Receive(latest, page)[id] == latest[id])
    decreases |page|
  {
    if page != [] {
      var rest := page[1..];
      var first := latest[page[0].event.eventId := page[0]];
      ReceiveKeepsNewest(first, rest, id);
      if exists i :: 0 <= i < |page| && page[i].event.eventId == id {
        var i :| 0 <= i < |page| && page[i].event.eventId == id;
        if i > 0 {
          assert rest[i - 1].event.eventId == id;
          var j :| 0 <= j < |rest| && rest[j].event.eventId == id && Receive(first, rest)[id] == rest[j];
          assert page[j + 1] == rest[j];
        } else {
          forall j | 0 <= j < |rest| ensures rest[j].event.eventId != id { assert rest[j] == page[j + 1]; }
        }
      }
    }
  }

  lemma PageIdsDistinct(events: Events, cursor: nat, f: Filter, page: seq<StoredEvent>)
    requires PageOrdered(events, cursor, f, page)
    ensures forall i, j :: 0 <= i < j < |page| ==> page[i].event.eventId != page[j].event.eventId
  {
    forall i, j | 0 <= i < j < |page| ensures page[i].event.eventId != page[j].event.eventId {
      assert page[i].ordinal < page[j].ordinal;
    }
  }

  /** One page never repeats an ordinal the reader already received. */
  lemma PollIsFresh(events: Events, limit: nat, f: Filter, r: Reader, p: Projection)
    requires ReaderSound(events, f, r) && IsProjection(events, r.cursor, limit, f, p)
    ensures r.ordinals !! OrdinalsOf(p.events)
    ensures forall i, j :: 0 <= i < j < |p.events| ==> p.events[i].ordinal != p.events[j].ordinal
  {
    forall o | o in OrdinalsOf(p.events) ensures o !in r.ordinals {
      var i :| 0 <= i < |p.events| && p.events[i].ordinal == o;
      assert IsMatch(events, r.cursor, f, p.events[i].event.eventId);
    }
  }

  lemma PollReceives(events: Events, limit: nat, f: Filter, r: Reader, p: Projection, id: EventId)
    requires Keyed(events) && ReaderSound(events, f, r) && IsProjection(events, r.cursor, limit, f, p)
    requires id in events && events[id].ordinal <= p.nextCursor && Matches(f, events[id])
    ensures id in Receive(r.latest, p.events) && Receive(r.latest, p.events)[id] == events[id]
  {
    PageIdsDistinct(events, r.cursor, f, p.events);
    ReceiveKeepsNewest(r.latest, p.events, id);
    if events[id].ordinal > r.cursor {
      assert IsMatch(events, r.cursor, f, id);
      assert events[id] in p.events;
      var i :| 0 <= i < |p.events| && p.events[i] == events[id];
      assert p.events[i].event.eventId == id;
    } else {
      forall i | 0 <= i < |p.events| ensures p.events[i].event.eventId != id {
        assert IsMatch(events, r.cursor, f, p.events[i].event.eventId);
      }
    }
  }

  lemma PollKeepsReader(events: Events, limit: nat, f: Filter, r: Reader, p: Projection)
    requires Keyed(events) && ReaderSound(events, f, r) && IsProjection(events, r.cursor, limit, f, p)
    ensures ReaderSound(events, f, Poll(r, p))
  {
    forall id | id in events && events[id].ordinal <= p.nextCursor && Matches(f, events[id])
      ensures id in Receive(r.latest, p.events) && Receive(r.latest, p.events)[id] == events[id]
    {
      PollReceives(events, limit, f, r, p, id);
    }
    var n := |p.events|;
    if n > 0 {
      var last := p.events[n - 1];
      assert IsMatch(events, r.cursor, f, last.event.eventId) && events[last.event.eventId] == last;
      assert last.ordinal <= p.nextCursor;
    }
    assert r.cursor <= p.nextCursor;
    forall o | o in r.ordinals + OrdinalsOf(p.events) ensures o <= p.nextCursor {
      if o in OrdinalsOf(p.events) {
        var i :| 0 <= i < n && p.events[i].ordinal == o;
        assert i == n - 1 || p.events[i].ordinal < p.events[n - 1].ordinal;
      }
    }
  }

  // ---- arbitrary interleavings ---------------------------------------------------------------

  /** The service acts, or the reader polls and gets `page` for some limit. */
  datatype Moment = Acts(action: Action) | Polls(limit: nat, page: Projection)

  ghost predicate IsSchedule(cfg: Config, s: System, f: Filter, r: Reader, moments: seq<Moment>)
    decreases |moments|
  {
    moments == [] ||
    match moments[0]
    case Acts(a) => IsSchedule(cfg, Step(cfg, s, a), f, r, moments[1..])
    case Polls(limit, page) =>
      IsProjection(s.memory.events, r.cursor, limit, f, page) && IsSchedule(cfg, s, f, Poll(r, page), moments[1..])
  }

  ghost function Reading(cfg: Config, s: System, r: Reader, moments: seq<Moment>): (System, Reader)
    decreases |moments|
  {
    if moments == [] then (s, r)
    else
      match moments[0]
      case Acts(a) => Reading(cfg, Step(cfg, s, a), r, moments[1..])
      case Polls(_, page) => Reading(cfg, s, Poll(r, page), moments[1..])
  }

  /** How many records all the pages of a schedule carried together. */
  function Delivered(moments: seq<Moment>): nat
    decreases |moments|
  {
    if moments == [] then 0
    else (if moments[0].Polls? then |moments[0].page.events| else 0) + Delivered(moments[1..])
  }

  lemma {:induction false} SortedPageCounts(page: seq<StoredEvent>)
    requires forall i, j :: 0 <= i < j < |page| ==> page[i].ordinal < page[j].ordinal
    ensures |OrdinalsOf(page)| == |page|
    decreases |page|
  {
    if page != [] {
      var n := |page| - 1;
      var front := page[..n];
      SortedPageCounts(front);
      assert OrdinalsOf(page) == OrdinalsOf(front) + {page[n].ordinal} by {
        forall i | 0 <= i < |page| ensures page[i].ordinal in OrdinalsOf(front) + {page[n].ordinal} {
          if i < n { assert front[i] == page[i]; }
        }
        forall o | o in OrdinalsOf(front) ensures o in OrdinalsOf(page) {
          var i :| 0 <= i < n && front[i].ordinal == o;
          assert page[i].ordinal == o;
        }
      }
      forall o | o in OrdinalsOf(front) ensures o != page[n].ordinal {
        var i :| 0 <= i < n && front[i].ordinal == o;
        assert page[i].ordinal == o;
      }
    } else {
      assert OrdinalsOf(page) == {};
    }
  }

  lemma PollCounts(events: Events, limit: nat, f: Filter, r: Reader, p: Projection)
    requires ReaderSound(events, f, r) && IsProjection(events, r.cursor, limit, f, p)
    ensures |Poll(r, p).ordinals| == |r.ordinals| + |p.events|
  {
    PollIsFresh(events, limit, f, r, p);
    SortedPageCounts(p.events);
  }

  /** Reader completeness: across any interleaving of commits, failed appends, restarts and polls, the
      reader has received the current version of every matching event at or below its cursor, and as many
      distinct ordinals as records, so no ordinal twice. */
  lemma {:induction false} ReaderIsComplete(cfg: Config, s: System, f: Filter, r: Reader, moments: seq<Moment>)
    requires QueuesSound(cfg, s) && ReaderSound(s.memory.events, f, r) && IsSchedule(cfg, s, f, r, moments)
    ensures var (s', r') := Reading(cfg, s, r, moments);
      && QueuesSound(cfg, s') && ReaderSound(s'.memory.events, f, r')
      && |r'.ordinals| == |r.ordinals| + Delivered(moments)
    decreases |moments|
  {
    hide Step, ReaderSound, IsProjection, Poll, SummariesExact, Advances;
    if moments != [] {
      match moments[0]
      case Acts(a) =>
        var s' := Step(cfg, s, a);
        StepKeepsQueues(cfg, s, a);
        CommitsLeaveReader(s.memory.events, s'.memory.events, f, r);
        ReaderIsComplete(cfg, s', f, r, moments[1..]);
      case Polls(limit, page) =>
        PollKeepsReader(s.memory.events, limit, f, r, page);
        PollCounts(s.memory.events, limit, f, r, page);
        ReaderIsComplete(cfg, s, f, Poll(r, page), moments[1..]);
    }
  }

  lemma FreshReaderIsSound(cfg: Config, s: System, f: Filter)
    requires QueuesSound(cfg, s)
    ensures ReaderSound(s.memory.events, f, FRESH_READER)
  {
    hide SummariesExact, Bounded, RateRespected, OneProgress, SequencesSound, Matches;
  }

  /** A reader that starts at cursor 0 next to a service that starts from an empty log. */
  lemma ReaderFromTheStart(cfg: Config, f: Filter, moments: seq<Moment>)
    requires IsSchedule(cfg, INITIAL, f, FRESH_READER, moments)
    ensures var (s', r') := Reading(cfg, INITIAL, FRESH_READER, moments);
      ReaderSound(s'.memory.events, f, r') && |r'.ordinals| == Delivered(moments)
  {
    hide IsSchedule, Reading, Delivered, ReaderSound, QueuesSound;
    InitialQueues(cfg);
    FreshReaderIsSound(cfg, INITIAL, f);
    ReaderIsComplete(cfg, INITIAL, f, FRESH_READER, moments);
  }
}
