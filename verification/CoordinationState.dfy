/** What the service holds in memory, what one append carries, and how the two meet. */
module CoordinationState {
  import opened Finite
  import opened CoordinationTypes

  datatype Memory = Memory(
    subjects: map<SubjectId, Subject>,
    events: map<EventId, StoredEvent>,
    summaries: map<SubjectId, Summary>,
    checkpoints: map<CheckpointKey, Checkpoint>,
    liveness: map<ControllerId, Liveness>,
    handoffs: map<HandoffId, Handoff>,
    receipts: map<MutationId, Receipt>,
    nextOrdinal: nat)

  const EMPTY_MEMORY := Memory(map[], map[], map[], map[], map[], map[], map[], 1)

  /** One atomic append. Only events may name the same key twice, so only they keep an order. */
  datatype Transaction = Transaction(
    subjects: map<SubjectId, Subject>,
    events: seq<StoredEvent>,
    checkpoints: map<CheckpointKey, Checkpoint>,
    liveness: map<ControllerId, Liveness>,
    handoffs: map<HandoffId, Handoff>,
    receipts: map<MutationId, Receipt>)

  const NO_CHANGES := Transaction(map[], [], map[], map[], map[], map[])

  // ---- the per-worker event index ------------------------------------------------------------

  function EventsOf(events: map<EventId, StoredEvent>, w: SubjectId): set<EventId> {
    set id | id in events && events[id].event.workerId == w
  }

  function UnresolvedOf(events: map<EventId, StoredEvent>, w: SubjectId): set<EventId> {
    set id | id in events && events[id].event.workerId == w && IsUnresolved(events[id])
  }

  /** The largest ordinal among `ids`, 0 when there are none. */
  ghost function MaxOrdinal(events: map<EventId, StoredEvent>, ids: set<EventId>): (top: nat)
    requires ids <= events.Keys
    ensures forall id :: id in ids ==> events[id].ordinal <= top
    ensures ids == {} ==> top == 0
    ensures ids != {} ==> exists id :: id in ids && events[id].ordinal == top
  {
    if ids == {} then 0
    else
      var id :| id in ids;
      var rest := MaxOrdinal(events, ids - {id});
      if events[id].ordinal >= rest then events[id].ordinal else rest
  }

  /** The summary of worker `w` counted afresh from every stored event. */
  ghost function Recount(events: map<EventId, StoredEvent>, w: SubjectId): Summary {
    Summary(|UnresolvedOf(events, w)|, MaxOrdinal(events, EventsOf(events, w)))
  }

  function SummaryOf(summaries: map<SubjectId, Summary>, w: SubjectId): Summary {
    if w in summaries then summaries[w] else Summary(0, 0)
  }

  ghost predicate SummariesExact(events: map<EventId, StoredEvent>, summaries: map<SubjectId, Summary>) {
    forall w :: SummaryOf(summaries, w) == Recount(events, w)
  }

  /** The same index entry stated without computing it; `ExactIsRecount` says it is the recount. */
  ghost predicate ExactFor(events: map<EventId, StoredEvent>, w: SubjectId, s: Summary) {
    && s.unresolvedCount == |UnresolvedOf(events, w)|
    && (forall id :: id in EventsOf(events, w) ==> events[id].ordinal <= s.lastOrdinal)
    && (s.lastOrdinal > 0 ==> exists id :: id in EventsOf(events, w) && events[id].ordinal == s.lastOrdinal)
  }

  lemma ExactIsRecount(events: map<EventId, StoredEvent>, w: SubjectId, s: Summary)
    ensures s == Recount(events, w) <==> ExactFor(events, w, s)
  {
    var ids := EventsOf(events, w);
    var top := MaxOrdinal(events, ids);
  }

  /** The index entry `recordEvent` writes for the worker of `e`, given what it replaces. */
  function Indexed(before: Summary, previous: Option<StoredEvent>, e: StoredEvent): Summary {
    Summary(
      before.unresolvedCount
      - (if previous.Some? && previous.value.event.workerId == e.event.workerId && IsUnresolved(previous.value) then 1 else 0)
      + (if IsUnresolved(e) then 1 else 0),
      if before.lastOrdinal >= e.ordinal then before.lastOrdinal else e.ordinal)
  }

  function Previous(events: map<EventId, StoredEvent>, e: StoredEvent): Option<StoredEvent> {
    if e.event.eventId in events then Some(events[e.event.eventId]) else None
  }

  ghost function RecordSummaries(events: map<EventId, StoredEvent>, summaries: map<SubjectId, Summary>, e: StoredEvent)
    : map<SubjectId, Summary>
  {
    var previous := Previous(events, e);
    var stored := events[e.event.eventId := e];
    var rebuilt :=
      if previous.Some? && previous.value.event.workerId != e.event.workerId
      then summaries[previous.value.event.workerId := Recount(stored, previous.value.event.workerId)]
      else summaries;
    rebuilt[e.event.workerId := Indexed(SummaryOf(rebuilt, e.event.workerId), previous, e)]
  }

  /** An event may be stored again under a later ordinal, never under an earlier one. */
  predicate MovesForward(events: map<EventId, StoredEvent>, e: StoredEvent) {
    var previous := Previous(events, e);
    previous.Some? && previous.value.event.workerId == e.event.workerId ==> previous.value.ordinal <= e.ordinal
  }

  lemma RecordCounts(events: map<EventId, StoredEvent>, e: StoredEvent, w: SubjectId)
    requires w == e.event.workerId
    ensures |UnresolvedOf(events[e.event.eventId := e], w)| == |UnresolvedOf(events, w)|
      - (if e.event.eventId in UnresolvedOf(events, w) then 1 else 0) + (if IsUnresolved(e) then 1 else 0)
  {
    var id := e.event.eventId;
    var others := UnresolvedOf(events, w) - {id};
    assert UnresolvedOf(events[id := e], w) == if IsUnresolved(e) then others + {id} else others;
  }

  lemma RecordSameWorker(events: map<EventId, StoredEvent>, was: Summary, e: StoredEvent)
    requires ExactFor(events, e.event.workerId, was) && MovesForward(events, e)
    ensures ExactFor(events[e.event.eventId := e], e.event.workerId, Indexed(was, Previous(events, e), e))
  {
    var id, w := e.event.eventId, e.event.workerId;
    var stored := events[id := e];
    var s := Indexed(was, Previous(events, e), e);
    RecordCounts(events, e, w);
    assert EventsOf(stored, w) == EventsOf(events, w) + {id};
    if was.lastOrdinal > e.ordinal {
      var j :| j in EventsOf(events, w) && events[j].ordinal == was.lastOrdinal;
      assert j != id && stored[j] == events[j];
    } else {
      assert stored[id].ordinal == s.lastOrdinal;
    }
  }

  lemma RecordOtherWorker(events: map<EventId, StoredEvent>, was: Summary, e: StoredEvent, w: SubjectId)
    requires ExactFor(events, w, was) && w != e.event.workerId
    requires Previous(events, e).Some? ==> Previous(events, e).value.event.workerId != w
    ensures ExactFor(events[e.event.eventId := e], w, was)
  {
    var stored := events[e.event.eventId := e];
    assert UnresolvedOf(stored, w) == UnresolvedOf(events, w);
    assert EventsOf(stored, w) == EventsOf(events, w);
    assert forall j :: j in EventsOf(events, w) ==> stored[j] == events[j];
  }

  /** Index agrees with recount: for every worker, also when the event changes worker. */
  lemma RecordKeepsIndex(events: map<EventId, StoredEvent>, summaries: map<SubjectId, Summary>, e: StoredEvent)
    requires SummariesExact(events, summaries)
    requires MovesForward(events, e)
    ensures SummariesExact(events[e.event.eventId := e], RecordSummaries(events, summaries, e))
  {
    var stored := events[e.event.eventId := e];
    var previous := Previous(events, e);
    var after := RecordSummaries(events, summaries, e);
    forall w ensures SummaryOf(after, w) == Recount(stored, w) {
      var was := SummaryOf(summaries, w);
      ExactIsRecount(events, w, was);
      if w == e.event.workerId {
        RecordSameWorker(events, was, e);
        ExactIsRecount(stored, w, Indexed(was, previous, e));
      } else if !(previous.Some? && previous.value.event.workerId == w) {
        RecordOtherWorker(events, was, e, w);
        ExactIsRecount(stored, w, was);
      }
    }
  }

  // ---- commit --------------------------------------------------------------------------------

  function StoreAll(events: map<EventId, StoredEvent>, changes: seq<StoredEvent>): map<EventId, StoredEvent>
    decreases |changes|
  {
    if changes == [] then events
    else StoreAll(events[changes[0].event.eventId := changes[0]], changes[1..])
  }

  ghost function IndexAll(events: map<EventId, StoredEvent>, summaries: map<SubjectId, Summary>, changes: seq<StoredEvent>)
    : map<SubjectId, Summary>
    decreases |changes|
  {
    if changes == [] then summaries
    else
      IndexAll(events[changes[0].event.eventId := changes[0]], RecordSummaries(events, summaries, changes[0]), changes[1..])
  }

  /** Memory after a transaction the store accepted. */
  ghost function Apply(m: Memory, tx: Transaction): Memory {
    Memory(
      m.subjects + tx.subjects,
      StoreAll(m.events, tx.events),
      IndexAll(m.events, m.summaries, tx.events),
      m.checkpoints + tx.checkpoints,
      m.liveness + tx.liveness,
      m.handoffs + tx.handoffs,
      m.receipts + tx.receipts,
      m.nextOrdinal)
  }

  /** Everything a replay of the log reconstructs. */
  datatype Durable = Durable(
    subjects: map<SubjectId, Subject>,
    events: map<EventId, StoredEvent>,
    checkpoints: map<CheckpointKey, Checkpoint>,
    liveness: map<ControllerId, Liveness>,
    handoffs: map<HandoffId, Handoff>,
    receipts: map<MutationId, Receipt>)

  function DurableOf(m: Memory): Durable {
    Durable(m.subjects, m.events, m.checkpoints, m.liveness, m.handoffs, m.receipts)
  }

  const NOTHING_DURABLE := Durable(map[], map[], map[], map[], map[], map[])

  function Absorb(d: Durable, tx: Transaction): Durable {
    Durable(d.subjects + tx.subjects, StoreAll(d.events, tx.events), d.checkpoints + tx.checkpoints,
            d.liveness + tx.liveness, d.handoffs + tx.handoffs, d.receipts + tx.receipts)
  }

  /** The last writer of every key wins, in log order. */
  function Replay(log: seq<Transaction>): Durable {
    if log == [] then NOTHING_DURABLE else Absorb(Replay(log[..|log| - 1]), log[|log| - 1])
  }

  /** Memory as `initialize` builds it from a replayed log. */
  ghost function Recover(d: Durable): Memory {
    Memory(
      d.subjects,
      d.events,
      map w | w in (set id | id in d.events :: d.events[id].event.workerId) :: Recount(d.events, w),
      d.checkpoints,
      d.liveness,
      d.handoffs,
      d.receipts,
      MaxOrdinal(d.events, d.events.Keys) + 1)
  }
}
