/** src/broker/worker-event-channel.ts: sequence numbers derived by paging the projection, and what that gives
    when the channel is the only submitter. */
module WorkerEventChannel {
  import opened Finite
  import opened CoordinationTypes
  import opened CoordinationState
  import opened LeasePlans
  import opened BatchPlans
  import opened EventPlans
  import opened CoordinationMachine
  import opened LogRefinement
  import opened EventQueue
  import opened EventRuns
  import opened EventReader
  import opened CoordinationLoops

  // ---- paging --------------------------------------------------------------------------------

  ghost predicate Listed(events: Events, cursor: nat, all: seq<StoredEvent>) {
    && (forall i, j :: 0 <= i < j < |all| ==> all[i].ordinal < all[j].ordinal)
    && (forall i :: 0 <= i < |all| ==>
          all[i].event.eventId in events && events[all[i].event.eventId] == all[i] && all[i].ordinal <= cursor)
    && (forall id :: id in events && events[id].ordinal <= cursor ==> events[id] in all)
  }

  ghost predicate Distinct(events: Events) {
    && Keyed(events)
    && (forall id :: id in events ==> events[id].ordinal > 0)
    && (forall i, j :: i in events && j in events && i != j ==> events[i].ordinal != events[j].ordinal)
  }

  lemma PageLies(events: Events, cursor: nat, limit: nat, page: Projection)
    requires IsProjection(events, cursor, limit, ANY, page)
    ensures cursor <= page.nextCursor
    ensures forall i :: 0 <= i < |page.events| ==> cursor < page.events[i].ordinal <= page.nextCursor
    ensures page.hasMore ==> page.events != []
  {
    var n := |page.events|;
    forall i | 0 <= i < n ensures cursor < page.events[i].ordinal <= page.nextCursor {
      assert IsMatch(events, cursor, ANY, page.events[i].event.eventId);
      assert i == n - 1 || page.events[i].ordinal < page.events[n - 1].ordinal;
    }
  }

  lemma PageCovers(events: Events, cursor: nat, limit: nat, page: Projection)
    requires IsProjection(events, cursor, limit, ANY, page)
    ensures forall id :: id in events && cursor < events[id].ordinal <= page.nextCursor ==> events[id] in page.events
    ensures !page.hasMore ==> forall id :: id in events ==> events[id].ordinal <= page.nextCursor
  {
    forall id | id in events && cursor < events[id].ordinal ensures IsMatch(events, cursor, ANY, id) {}
  }

  lemma PageStored(events: Events, cursor: nat, limit: nat, page: Projection)
    requires IsProjection(events, cursor, limit, ANY, page)
    ensures forall i, j :: 0 <= i < j < |page.events| ==> page.events[i].ordinal < page.events[j].ordinal
    ensures forall i :: 0 <= i < |page.events| ==>
      page.events[i].event.eventId in events && events[page.events[i].event.eventId] == page.events[i]
  {}

  /** What the next page adds is exactly what lies between the two cursors. */
  lemma PageExtends(events: Events, cursor: nat, limit: nat, all: seq<StoredEvent>, page: Projection)
    requires Listed(events, cursor, all) && IsProjection(events, cursor, limit, ANY, page)
    ensures Listed(events, page.nextCursor, all + page.events)
    ensures page.hasMore ==> PastCursor(events, page.nextCursor) < PastCursor(events, cursor)
    ensures !page.hasMore ==> forall id :: id in events ==> events[id].ordinal <= page.nextCursor
  {
    hide IsProjection;
    PageLies(events, cursor, limit, page);
    PageCovers(events, cursor, limit, page);
    PageStored(events, cursor, limit, page);
    if page.hasMore {
      var last := page.events[0].event.eventId;
      assert last in PastCursor(events, cursor) && last !in PastCursor(events, page.nextCursor);
    }
  }

  /** `allEvents`: the paging loop ends, and what it collects is the store, each event once. Only a page size of zero
      makes it fail, on any store that is not empty. */
  method AllEvents(cfg: Config, events: Events) returns (all: Option<seq<StoredEvent>>)
    requires Distinct(events)
    ensures all.None? <==> cfg.maxPage == 0 && events != map[]
    ensures all.Some? ==> forall i, j :: 0 <= i < j < |all.value| ==> all.value[i].ordinal < all.value[j].ordinal
    ensures all.Some? ==> forall e :: e in all.value <==> e.event.eventId in events && events[e.event.eventId] == e
  {
    hide IsProjection;
    var collected: seq<StoredEvent> := [];
    var cursor := 0;
    var more := true;
    while more
      invariant Listed(events, cursor, collected)
      invariant cursor == 0 || (cfg.maxPage > 0 || events == map[])
      invariant !more ==> (cfg.maxPage > 0 || events == map[]) && forall id :: id in events ==> events[id].ordinal <= cursor
      decreases more, PastCursor(events, cursor)
    {
      var page := ProjectEvents(cfg, events, cursor, Some(100), ANY);
      AnyMatches(events, cursor);
      if page.None? { return None; }
      PageExtends(events, cursor, PageLimit(cfg, Some(100)), collected, page.value);
      collected := collected + page.value.events;
      cursor := page.value.nextCursor;
      more := page.value.hasMore;
    }
    all := Some(collected);
  }

  /** At the start of the stream everything stored is still to be listed. */
  lemma AnyMatches(events: Events, cursor: nat)
    requires Distinct(events)
    ensures (exists id :: IsMatch(events, cursor, ANY, id)) ==> events != map[]
    ensures cursor == 0 && events != map[] ==> exists id :: IsMatch(events, cursor, ANY, id)
  {
    if cursor == 0 && events != map[] {
      var id :| id in events;
      assert IsMatch(events, cursor, ANY, id);
    }
  }

  /** `nextSequence`: one past the highest sequence stored for the worker. */
  method NextSequence(cfg: Config, events: Events, w: SubjectId) returns (next: Option<nat>)
    requires Distinct(events)
    ensures next.None? <==> cfg.maxPage == 0 && events != map[]
    ensures next.Some? ==> next.value == LastSequence(events, w) + 1
  {
    var listed := AllEvents(cfg, events);
    if listed.None? { return None; }
    var all := listed.value;
    var highest := 0;
    for i := 0 to |all|
      invariant forall k :: 0 <= k < i && all[k].event.workerId == w ==> all[k].event.sequence <= highest
      invariant highest == 0 || exists k :: 0 <= k < i && all[k].event.workerId == w && all[k].event.sequence == highest
    {
      if all[i].event.workerId == w && all[i].event.sequence > highest { highest := all[i].event.sequence; }
    }
    HighestIsLast(events, w, all, highest);
    next := Some(highest + 1);
  }

  lemma HighestIsLast(events: Events, w: SubjectId, all: seq<StoredEvent>, highest: nat)
    requires Keyed(events) && forall e :: e in all <==> e.event.eventId in events && events[e.event.eventId] == e
    requires forall k :: 0 <= k < |all| && all[k].event.workerId == w ==> all[k].event.sequence <= highest
    requires highest == 0 || exists k :: 0 <= k < |all| && all[k].event.workerId == w && all[k].event.sequence == highest
    ensures highest == LastSequence(events, w)
  {
    forall id | id in EventsOf(events, w) ensures events[id].event.sequence <= highest {
      assert events[id] in all;
    }
    if highest > 0 {
      var k :| 0 <= k < |all| && all[k].event.workerId == w && all[k].event.sequence == highest;
      assert all[k] in all && all[k].event.eventId in EventsOf(events, w);
    }
  }

  datatype Lookup = Broken | Missing | Present(event: StoredEvent)

  /** `findEvent`. */
  method FindEvent(cfg: Config, events: Events, id: EventId) returns (found: Lookup)
    requires Distinct(events)
    ensures found.Broken? <==> cfg.maxPage == 0 && events != map[]
    ensures !found.Broken? ==> found == if id in events then Present(events[id]) else Missing
  {
    var listed := AllEvents(cfg, events);
    if listed.None? { return Broken; }
    var all := listed.value;
    for i := 0 to |all|
      invariant forall k :: 0 <= k < i ==> all[k].event.eventId != id
    {
      if all[i].event.eventId == id {
        assert all[i] in all;
        return Present(all[i]);
      }
    }
    forall x | x in events ensures events[x] in all {}
    found := Missing;
  }

  // ---- the channel over the service ----------------------------------------------------------

  /** What `submit` hands to the service: a stored event again, or a new one under the next sequence. */
  ghost predicate PreparedBy(events: Events, e: WorkerEvent) {
    if e.eventId in events then e == events[e.eventId].event else e.sequence == LastSequence(events, e.workerId) + 1
  }

  /** The service and the submission the channel has built but the service has not taken up yet; the channel
      builds one at a time. */
  datatype Channel = Channel(system: System, pending: Option<WorkerEvent>)

  /** Between building a submission and its turn, any other call may run. */
  datatype Move =
    | Prepares(event: WorkerEvent)
    | Delivers(id: MutationId, controller: Controller, token: Token, elapsed: nat, stored: bool)
    | Others(action: Action)

  ghost predicate Allowed(ch: Channel, move: Move) {
    match move
    case Prepares(e) => ch.pending.None? && PreparedBy(ch.system.memory.events, e)
    case Delivers(_, _, _, _, _) => ch.pending.Some?
    case Others(a) => a.Invoke? ==> !a.op.SubmitEvent?
  }

  function Submission(ch: Channel, move: Move): Call
    requires move.Delivers? && ch.pending.Some?
  {
    SubmitEvent(move.id, move.controller, move.token, ch.pending.value)
  }

  ghost function Moved(cfg: Config, ch: Channel, move: Move): Channel
    requires Allowed(ch, move)
  {
    match move
    case Prepares(e) => ch.(pending := Some(e))
    case Delivers(_, _, _, elapsed, stored) => Channel(Step(cfg, ch.system, Invoke(Submission(ch, move), elapsed, stored)), None)
    case Others(a) => Channel(Step(cfg, ch.system, a), if a.Restart? then None else ch.pending)
  }

  ghost predicate IsChannelRun(cfg: Config, ch: Channel, moves: seq<Move>)
    decreases |moves|
  {
    moves == [] || (Allowed(ch, moves[0]) && IsChannelRun(cfg, Moved(cfg, ch, moves[0]), moves[1..]))
  }

  ghost function ChannelAfter(cfg: Config, ch: Channel, moves: seq<Move>): Channel
    requires IsChannelRun(cfg, ch, moves)
    decreases |moves|
  {
    if moves == [] then ch else ChannelAfter(cfg, Moved(cfg, ch, moves[0]), moves[1..])
  }

  ghost predicate HasSequence(events: Events, w: SubjectId, k: nat) {
    exists id :: id in EventsOf(events, w) && events[id].event.sequence == k
  }

  /** The sequences of worker `w` are exactly 1 to the number of its events. */
  ghost predicate NumberedFor(events: Events, w: SubjectId) {
    var n := |EventsOf(events, w)|;
    && (forall id :: id in EventsOf(events, w) ==> 1 <= events[id].event.sequence <= n)
    && (forall k :: 1 <= k <= n ==> HasSequence(events, w, k))
  }

  ghost predicate Numbered(events: Events) { forall w :: NumberedFor(events, w) }

  /** No complaint about the sequence: neither behind, nor superseded, nor ahead. */
  predicate CleanAck(ack: Ack) {
    && !ack.Stale? && ack != Rejected(ack.eventId, SequenceOutOfOrder)
    && (ack.Accepted? ==> ack.gap.None?)
  }

  predicate CleanReceipt(r: Receipt) { r.operation.OpSubmit? && r.result.EventResult? ==> CleanAck(r.result.ack) }

  ghost predicate CleanReceipts(receipts: map<MutationId, Receipt>) {
    forall id :: id in receipts ==> CleanReceipt(receipts[id])
  }

  ghost predicate ChannelSound(cfg: Config, ch: Channel) {
    && QueuesSound(cfg, ch.system) && Numbered(ch.system.memory.events) && CleanReceipts(ch.system.memory.receipts)
    && (ch.pending.Some? ==> PreparedBy(ch.system.memory.events, ch.pending.value))
  }

  // ---- numbering -----------------------------------------------------------------------------

  lemma NumberedTop(events: Events, w: SubjectId)
    requires NumberedFor(events, w)
    ensures LastSequence(events, w) == |EventsOf(events, w)|
  {
    var n := |EventsOf(events, w)|;
    if n > 0 {
      assert EventsOf(events, w) != {} && HasSequence(events, w, n);
      var id :| id in EventsOf(events, w) && events[id].event.sequence == n;
    }
  }

  /** The two ways the store may grow: not at all, or by `e`. */
  ghost predicate GrowsBy(events: Events, events': Events, e: Option<WorkerEvent>) {
    && events.Keys <= events'.Keys
    && (forall id :: id in events ==> events'[id].event == events[id].event)
    && (forall id :: id in events' && id !in events ==>
          e.Some? && id == e.value.eventId
          && events'[id].event.workerId == e.value.workerId && events'[id].event.sequence == e.value.sequence)
  }

  lemma GrowthKeepsOthers(events: Events, events': Events, e: Option<WorkerEvent>, w: SubjectId)
    requires GrowsBy(events, events', e) && NumberedFor(events, w)
    requires e.Some? && e.value.eventId !in events && e.value.eventId in events' ==> e.value.workerId != w
    ensures EventsOf(events', w) == EventsOf(events, w) && NumberedFor(events', w)
    ensures LastSequence(events', w) == LastSequence(events, w)
  {
    assert EventsOf(events', w) == EventsOf(events, w);
    forall k | 1 <= k <= |EventsOf(events, w)| ensures HasSequence(events', w, k) {
      assert HasSequence(events, w, k);
      var id :| id in EventsOf(events, w) && events[id].event.sequence == k;
      assert events'[id].event.sequence == k;
    }
    NumberedTop(events, w);
    NumberedTop(events', w);
  }

  lemma GrowthNumbersNext(events: Events, events': Events, e: WorkerEvent)
    requires GrowsBy(events, events', Some(e)) && NumberedFor(events, e.workerId)
    requires e.eventId !in events && e.eventId in events' && e.sequence == LastSequence(events, e.workerId) + 1
    ensures NumberedFor(events', e.workerId)
  {
    var w := e.workerId;
    var n := |EventsOf(events, w)|;
    NumberedTop(events, w);
    assert EventsOf(events', w) == EventsOf(events, w) + {e.eventId};
    forall k | 1 <= k <= n + 1 ensures HasSequence(events', w, k) {
      if k <= n {
        assert HasSequence(events, w, k);
        var id :| id in EventsOf(events, w) && events[id].event.sequence == k;
        assert events'[id].event.sequence == k;
      } else {
        assert events'[e.eventId].event.sequence == k;
      }
    }
  }

  lemma GrowthKeepsNumbers(events: Events, events': Events, e: Option<WorkerEvent>)
    requires Numbered(events) && GrowsBy(events, events', e)
    requires e.Some? ==> PreparedBy(events, e.value)
    ensures Numbered(events')
  {
    hide NumberedFor, GrowsBy;
    forall w ensures NumberedFor(events', w) {
      if e.Some? && e.value.eventId !in events && e.value.eventId in events' && e.value.workerId == w {
        GrowthNumbersNext(events, events', e.value);
      } else {
        GrowthKeepsOthers(events, events', e, w);
      }
    }
  }

  lemma QuietKeepsPrepared(events: Events, events': Events, e: WorkerEvent)
    requires Numbered(events) && GrowsBy(events, events', None) && PreparedBy(events, e)
    ensures PreparedBy(events', e)
  {
    hide NumberedFor;
    GrowthKeepsOthers(events, events', None, e.workerId);
  }

  // ---- every move ----------------------------------------------------------------------------

  /** The keys a list of changes can add. */
  ghost predicate AddsOnly(events: Events, changes: seq<StoredEvent>, e: Option<WorkerEvent>) {
    forall i :: 0 <= i < |changes| ==>
      || changes[i].event.eventId in events
      || (e.Some? && changes[i].event.eventId == e.value.eventId
          && changes[i].event.workerId == e.value.workerId && changes[i].event.sequence == e.value.sequence)
  }

  lemma {:induction false} StoreAdds(events: Events, base: Events, changes: seq<StoredEvent>, e: Option<WorkerEvent>)
    requires base.Keys <= events.Keys && AddsOnly(base, changes, e)
    requires forall id :: id in events && id !in base ==>
      && e.Some? && id == e.value.eventId
      && events[id].event.workerId == e.value.workerId && events[id].event.sequence == e.value.sequence
    ensures var after := StoreAll(events, changes);
      forall id :: id in after && id !in base ==>
        && e.Some? && id == e.value.eventId
        && after[id].event.workerId == e.value.workerId && after[id].event.sequence == e.value.sequence
    decreases |changes|
  {
    if changes != [] {
      var rest := changes[1..];
      assert AddsOnly(base, rest, e) by { assert forall i :: 0 <= i < |rest| ==> rest[i] == changes[i + 1]; }
      StoreAdds(events[changes[0].event.eventId := changes[0]], base, rest, e);
    }
  }

  lemma AcceptAddsOnly(cfg: Config, m: Memory, id: MutationId, c: Controller, e: WorkerEvent, now: Time)
    requires Keyed(m.events) && e.workerId in m.subjects
    ensures var plan := PlanAccept(cfg, m, id, c, e, now);
      plan.tx.Some? ==> AddsOnly(m.events, plan.tx.value.events, Some(e))
  {
    hide QueueingOf, ExpiredCopy, LastSequence, OrdinalsDrawn, Ungated, AnsweredCheckpoints, AnswersPending;
  }

  lemma SubmitAddsOnly(cfg: Config, m: Memory, id: MutationId, c: Controller, token: Token, e: WorkerEvent, now: Time)
    requires EventsSound(cfg, m.events, m.nextOrdinal, now)
    ensures var plan := PlanSubmit(cfg, m, id, c, token, e, now);
      plan.tx.Some? ==> AddsOnly(m.events, plan.tx.value.events, Some(e))
  {
    hide EventsSound, PlanAccept, AuthCodeOf, ExpiredCopy, LastSequence, ReceivedAfter, ProjectionTx;
    SoundIsKeyed(cfg, m.events, m.nextOrdinal, now);
    if e.workerId in m.subjects {
      ProjectionHasNoEvents(cfg, m, e.workerId, now);
      AcceptAddsOnly(cfg, m, id, c, e, now);
    }
  }

  lemma CallAddsOnly(cfg: Config, m: Memory, op: Call, now: Time, call: nat)
    requires EventsSound(cfg, m.events, m.nextOrdinal, now)
    ensures var plan := PlanOf(cfg, m, op, now, call);
      plan.tx.Some? ==> AddsOnly(m.events, plan.tx.value.events, if op.SubmitEvent? then Some(op.event) else None)
  {
    hide EventsSound, PlanSubmit, PlanResolve, PlanRegister, PlanTake, PlanUse, PlanAdoptBatch, PlanHandoff, PlanObserve,
      PlanExpire, PlanCheckpoint, PlanAcknowledge, PlanReconcile;
    if op.SubmitEvent? {
      SubmitAddsOnly(cfg, m, op.id, op.controller, op.token, op.event, now);
    } else if op.ResolveEvent? {
      SoundIsKeyed(cfg, m.events, m.nextOrdinal, now);
      ResolveAddsNothing(cfg, m, op.id, op.controller, op.token, op.eventId, op.resolution, now);
    } else {
      OtherCallsHaveNoEvents(cfg, m, op, now, call);
    }
  }

  lemma ResolveAddsNothing(cfg: Config, m: Memory, id: MutationId, c: Controller, token: Token, e: EventId, r: Resolution,
                           now: Time)
    requires Keyed(m.events)
    ensures var plan := PlanResolve(cfg, m, id, c, token, e, r, now);
      plan.tx.Some? ==> AddsOnly(m.events, plan.tx.value.events, None)
  {
    hide AuthCodeOf, ExpiredCopy;
  }

  lemma StepGrows(cfg: Config, s: System, a: Action)
    requires QueuesSound(cfg, s)
    ensures GrowsBy(s.memory.events, Step(cfg, s, a).memory.events,
                    if a.Invoke? && a.op.SubmitEvent? then Some(a.op.event) else None)
  {
    hide PlanOf, Recover, LogAgrees, EventsSound, SummariesExact, IndexAll, StoreAll;
    StepKeepsQueues(cfg, s, a);
    if a.Invoke? {
      var e := if a.op.SubmitEvent? then Some(a.op.event) else None;
      OrdinalsRelax(cfg, s.memory.events, s.memory.nextOrdinal, s.memory.nextOrdinal, s.clock, s.clock + a.elapsed);
      CallAddsOnly(cfg, s.memory, a.op, s.clock + a.elapsed, s.calls);
      var plan := PlanAt(cfg, s, a.op, a.elapsed);
      if plan.tx.Some? { StoreAdds(s.memory.events, s.memory.events, plan.tx.value.events, e); }
    } else {
      RestartKeepsDurable(cfg, s);
    }
  }

  // ---- acknowledgements ----------------------------------------------------------------------

  ghost predicate CleanPlan(id: MutationId, plan: Plan) {
    && plan.tx.Some? && plan.response.Returned? && plan.response.result.EventResult? && CleanAck(plan.response.result.ack)
    && plan.tx.value.receipts == map[id := Receipt(OpSubmit, Unkeyed, plan.response.result)]
  }

  lemma AcceptIsClean(cfg: Config, m: Memory, id: MutationId, c: Controller, e: WorkerEvent, now: Time)
    requires e.sequence == LastSequence(m.events, e.workerId) + 1 && e.workerId in m.subjects
    ensures CleanPlan(id, PlanAccept(cfg, m, id, c, e, now))
  {
    hide QueueingOf, ClosedEvents, StoredOf, ExpiredCopy, Ungated, AnsweredCheckpoints, AnswersPending, LastSequence;
  }

  /** A submission built by the channel, when it is not a replay, is never answered with a sequence complaint. */
  lemma SubmitIsClean(cfg: Config, m: Memory, id: MutationId, c: Controller, token: Token, e: WorkerEvent, now: Time)
    requires PreparedBy(m.events, e) && id !in m.receipts
    ensures CleanPlan(id, PlanSubmit(cfg, m, id, c, token, e, now))
  {
    hide PlanAccept, AuthCodeOf, ExpiredCopy, ReceivedAfter, ProjectionTx, LastSequence;
    if e.eventId !in m.events && e.workerId in m.subjects { AcceptIsClean(cfg, m, id, c, e, now); }
  }

  lemma LeaseCallsLeaveNoSubmit(cfg: Config, m: Memory, op: Call, now: Time, call: nat)
    requires !op.SubmitEvent? && !op.ResolveEvent? && !op.RequestCheckpoint? && !op.AdoptBatch? && !op.HandoffBatch?
    ensures var plan := PlanOf(cfg, m, op, now, call);
      plan.tx.Some? ==> forall i :: i in plan.tx.value.receipts ==> CleanReceipt(plan.tx.value.receipts[i])
  {
    hide PlanSubmit, PlanResolve, PlanCheckpoint, PlanAdoptBatch, PlanHandoff, ExpiredCopy, AuthCodeOf, TakeAll, UseAll,
      Selected, OrphanAll;
  }

  lemma BatchCallsLeaveNoSubmit(cfg: Config, m: Memory, op: Call, now: Time, call: nat)
    requires op.ResolveEvent? || op.RequestCheckpoint? || op.AdoptBatch? || op.HandoffBatch?
    ensures var plan := PlanOf(cfg, m, op, now, call);
      plan.tx.Some? ==> forall i :: i in plan.tx.value.receipts ==> CleanReceipt(plan.tx.value.receipts[i])
  {
    hide PlanSubmit, PlanRegister, PlanTake, PlanUse, PlanObserve, PlanExpire, ExpiredCopy, AuthCodeOf, AdoptGranted,
      HandoffGranted, AdoptAborted, HandoffAborted, ManifestOf, Selected;
  }

  lemma CallIsClean(cfg: Config, m: Memory, op: Call, now: Time, call: nat)
    requires op.SubmitEvent? ==> PreparedBy(m.events, op.event)
    ensures var plan := PlanOf(cfg, m, op, now, call);
      plan.tx.Some? ==> forall i :: i in plan.tx.value.receipts ==> CleanReceipt(plan.tx.value.receipts[i])
  {
    hide PlanSubmit, PlanResolve, PlanRegister, PlanTake, PlanUse, PlanAdoptBatch, PlanHandoff, PlanObserve,
      PlanExpire, PlanCheckpoint, PlanAcknowledge, PlanReconcile, PreparedBy;
    if op.SubmitEvent? {
      if op.id in m.receipts { UsedIdReplays(cfg, m, op, now, call); }
      else { SubmitIsClean(cfg, m, op.id, op.controller, op.token, op.event, now); }
    } else if op.ResolveEvent? || op.RequestCheckpoint? || op.AdoptBatch? || op.HandoffBatch? {
      BatchCallsLeaveNoSubmit(cfg, m, op, now, call);
    } else {
      LeaseCallsLeaveNoSubmit(cfg, m, op, now, call);
    }
  }

  lemma StepIsClean(cfg: Config, s: System, a: Action)
    requires LogAgrees(s) && CleanReceipts(s.memory.receipts)
    requires a.Invoke? && a.op.SubmitEvent? ==> PreparedBy(s.memory.events, a.op.event)
    ensures CleanReceipts(Step(cfg, s, a).memory.receipts)
  {
    hide PlanOf, Recover, LogAgrees, IndexAll, StoreAll, CleanReceipt, PreparedBy;
    if a.Invoke? {
      CallIsClean(cfg, s.memory, a.op, s.clock + a.elapsed, s.calls);
    } else {
      RestartKeepsDurable(cfg, s);
    }
  }

  // ---- whole runs ----------------------------------------------------------------------------

  lemma MoveKeepsChannel(cfg: Config, ch: Channel, move: Move)
    requires ChannelSound(cfg, ch) && Allowed(ch, move)
    ensures ChannelSound(cfg, Moved(cfg, ch, move))
  {
    hide Step, QueuesSound, Numbered, CleanReceipts, PreparedBy, GrowsBy;
    if !move.Prepares? {
      var a := if move.Delivers? then Invoke(Submission(ch, move), move.elapsed, move.stored) else move.action;
      var s, s' := ch.system, Step(cfg, ch.system, a);
      var e := if move.Delivers? then ch.pending else None;
      QueuesAgree(cfg, s);
      StepKeepsQueues(cfg, s, a);
      StepGrows(cfg, s, a);
      GrowthKeepsNumbers(s.memory.events, s'.memory.events, e);
      StepIsClean(cfg, s, a);
      if move.Others? && ch.pending.Some? { QuietKeepsPrepared(s.memory.events, s'.memory.events, ch.pending.value); }
    }
  }

  lemma QueuesAgree(cfg: Config, s: System)
    requires QueuesSound(cfg, s)
    ensures LogAgrees(s)
  {}

  lemma {:induction false} ChannelStaysSound(cfg: Config, ch: Channel, moves: seq<Move>)
    requires ChannelSound(cfg, ch) && IsChannelRun(cfg, ch, moves)
    ensures ChannelSound(cfg, ChannelAfter(cfg, ch, moves))
    decreases |moves|
  {
    hide ChannelSound, Allowed, Moved;
    if moves != [] {
      MoveKeepsChannel(cfg, ch, moves[0]);
      ChannelStaysSound(cfg, Moved(cfg, ch, moves[0]), moves[1..]);
    }
  }

  /** Channel refinement: when only the channel submits, at every point of every run (other calls, failed
      appends and restarts in between) each worker's sequences are exactly 1 to n, and no submission is
      answered as out of order, superseded or ahead of a gap, not even a replayed one. */
  lemma ChannelNumbersExactly(cfg: Config, moves: seq<Move>)
    requires IsChannelRun(cfg, Channel(INITIAL, None), moves)
    ensures var ch := ChannelAfter(cfg, Channel(INITIAL, None), moves);
      && Numbered(ch.system.memory.events) && SequencesSound(ch.system.memory.events)
      && CleanReceipts(ch.system.memory.receipts)
  {
    hide Step, ChannelAfter, Allowed, Moved, IsChannelRun;
    InitialChannel(cfg);
    ChannelStaysSound(cfg, Channel(INITIAL, None), moves);
  }

  lemma InitialChannel(cfg: Config)
    ensures ChannelSound(cfg, Channel(INITIAL, None))
  {
    hide QueuesSound;
    InitialQueues(cfg);
    forall w ensures NumberedFor(INITIAL.memory.events, w) { assert EventsOf(INITIAL.memory.events, w) == {}; }
  }

  lemma DeliveryIsClean(cfg: Config, ch: Channel, move: Move)
    requires ChannelSound(cfg, ch) && move.Delivers? && Allowed(ch, move)
    ensures var answer := AnswerTo(PlanAt(cfg, ch.system, Submission(ch, move), move.elapsed), move.stored);
      answer.Returned? && answer.result.EventResult? ==> CleanAck(answer.result.ack)
  {
    hide PlanSubmit, PreparedBy, QueuesSound, Numbered;
    var s, op := ch.system, Submission(ch, move);
    if op.id in s.memory.receipts {
      UsedIdReplays(cfg, s.memory, op, s.clock + move.elapsed, s.calls);
    } else {
      SubmitIsClean(cfg, s.memory, op.id, op.controller, op.token, op.event, s.clock + move.elapsed);
    }
  }

  /** What a caller of the channel can be told, after any run. */
  lemma NoSequenceComplaint(cfg: Config, moves: seq<Move>, move: Move)
    requires IsChannelRun(cfg, Channel(INITIAL, None), moves) && move.Delivers?
    requires Allowed(ChannelAfter(cfg, Channel(INITIAL, None), moves), move)
    ensures var ch := ChannelAfter(cfg, Channel(INITIAL, None), moves);
      var answer := AnswerTo(PlanAt(cfg, ch.system, Submission(ch, move), move.elapsed), move.stored);
      answer.Returned? && answer.result.EventResult? ==> CleanAck(answer.result.ack)
  {
    hide PlanAt, ChannelAfter, ChannelSound, IsChannelRun, AnswerTo, CleanAck;
    InitialChannel(cfg);
    ChannelStaysSound(cfg, Channel(INITIAL, None), moves);
    DeliveryIsClean(cfg, ChannelAfter(cfg, Channel(INITIAL, None), moves), move);
  }
}
