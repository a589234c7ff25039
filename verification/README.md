# Coordination core of Cyberdeck, modelled and proved in Dafny

Cyberdeck lets orchestrators drive fleets of provider workers. This project models the parts of it whose correctness is a
matter of state over time, in the form the program gives them: classes with in-place updates and loops where the
program has them, functions where it computes.

* **Worker coordination** (`src/broker/worker-coordination.ts`, `worker-lease-liveness.ts`): controller leases with
  fencing tokens and versions, expiry driven by session liveness, all-or-nothing adoption and handoff, idempotency
  receipts, bounded event queues with an index, cursor projection, checkpoints and decision gates. `LeasePlans`,
  `BatchPlans`, `EventPlans` and `BudgetPlans` decide what each call appends and answers; `CoordinationMachine` turns that into a
  transition system whose steps are client calls (with or without a successful append) and restarts;
  `CoordinationLoops` and `CoordinationService` hold the loops and the service object, each proved equal to those
  decisions. `LeaseRules` states the lease rules in stored times and tokens, apart from how the decisions compute them, and
  `CallOutcomes`, `LeaseOutcomes`, `BatchOutcomes` and `EventOutcomes` state what every call answers and leaves, field by
  field, in those terms. `Fencing`, `FencingRuns`, `SessionDeath`, `LogRefinement`, `BatchAtomicity`, `TokenReplies`,
  `EventQueue`, `EventRuns`, `EventReader` and `DecisionGates` hold the theorems over whole runs.
* **Reporting channel and token accounting** (`WorkerEventChannel`, `TokenAccounting`): two refinements on top of it.
* **Attached terminal** (`TerminalInput`, `Attachment`): a byte-at-a-time reference automaton, and the input handler
  proved to follow it. The handler's `while` body is split into one method per branch group.
* **Schedulers, ledgers, allocators** (`AdmissionRules`, `AdmissionOrder`, `AdmissionStarvation`,
  `AdmissionFairness`, `Admission`, `OwnerSigils`,
  `SigilAssignment`, `SigilRoster`, `BudgetLedger`, `WakeBudget`, with `Finite` for options, set sizes and sums over finite maps).

Verify everything with `dafny verify dfyconfig.toml`.

## How the model reads the program

* Mutations run one at a time, as `exclusive` makes them, and each call reads the clock once. Time is a natural number
  of milliseconds that never runs backwards from one call to the next.
* Identifiers are opaque numbers. A drawn token is named by the call that drew it and its subject, so it is fresh by
  construction; hashes of tokens, events and requests are taken as injective. Values are well typed, so schema
  parsing is the identity, except that a handoff manifest has 1 to 64 entries.
* The store is an append-only log. An append may fail; then memory is unchanged but for ordinals already drawn.
* Outcomes of a selection are kept as a map by subject; the order of a batch manifest is kept.
* "Every call" and "every run" in the table below range over the calls of `CoordinationMachine.Call`: all mutations of
  the service but the modal-answer journal, which writes an audit line and no modelled map. Of a budget the revision and
  declaration are modelled; what its measurement and threshold rules decide enters as a verdict.
* Where code and comments disagree the model follows the code. Three documented claims are false of it and are
  answered with a counterexample and the condition under which they hold: "no job can be passed over indefinitely"
  (`AdmissionStarvation.NeverPassedOverIff`, and `AdmissionFairness.NeverStarvedFairlyIff` where every slot is given
  back), "joining the roster cannot take a glyph off an incumbent" (`SigilAssignment.JoiningMovesNoOneIff`), and, in
  orchestrator mode, "a paste is opaque" (`Attachment.PasteIsOpaqueIffReadStart`).

## Model

| member | source | states |
|---|---|---|
| `Fencing.EveryCallIsFenced` | src/broker/worker-coordination.ts:829-893 | every client call, batch, observation, sweep and event call changes a lease only by keeping its generation (same version and controller, token kept or cleared) or by granting the next one (version + 1, token drawn by this very call); origin, kind and resources never change |
| `Fencing.TakeFenced` | src/broker/worker-coordination.ts:1831-1883 | the same for acquire and adopt over every selector: orphaned, expired, contested and conflicting leases included |
| `Fencing.UseFenced` | src/broker/worker-coordination.ts:1885-1964 | the same for renew, release, transfer and lifecycle reports over every selector, whatever credential is presented |
| `Fencing.ProjectionKeeps` | src/broker/worker-lease-liveness.ts:55-83 | the read projection of a well-formed lease stays in its generation and keeps a token exactly while someone controls the lease |
| `LeaseRules.ExpiredIsRunOut` | src/broker/worker-lease-liveness.ts:35-53 | a lease has expired exactly when somebody holds it and either the broker saw the holder disconnect and `observedAt + grace <= now`, or the holder has no managed session and `expiresAt <= now` |
| `LeaseRules.CopyIsShown` | src/broker/worker-lease-liveness.ts:55-83 | what a reader is shown, field by field: a run-out lease orphaned now without token or contest; any other as stored but for the deadline, which a managed session shows as `now + duration` alive and `observedAt + grace` dead |
| `LeaseRules.ShownIsSettled` | src/broker/worker-lease-liveness.ts:55-83 | the projection is idempotent at one instant, and a shown lease has a holder exactly when the stored one is held and has not run out |
| `LeaseRules.AuthIsAnswered` | src/broker/worker-coordination.ts:1997-2016 | the answer of authentication in terms of the stored lease: expired first, then another or no controller or another version, then another token, else let in |
| `LeaseRules.SelectedAreNamed` | src/broker/worker-coordination.ts:1966-1987 | which subjects each selector names, in terms of stored fields and times |
| `LeaseRules.AbsentOwnersHoldNothing` | src/broker/worker-coordination.ts:1966-1987 | whatever the inactive-controller selector picks is held by nobody: no credential of any caller authenticates for it |
| `FencingRuns.LeasesDescend` | src/broker/worker-coordination.ts:1997-2089 | over every run of calls, failed appends and restarts: versions never decrease, within one version the controller is fixed and the token can only be cleared, a token hash exists exactly while the lease is active or contested with a controller, and any new hash was drawn by a later call |
| `FencingRuns.OnlyTheStoredTokenAuthenticates` | src/broker/worker-coordination.ts:1997-2016 | whoever authenticates for a subject presents the one stored token, is its stored controller and, when it names a version, names the stored one |
| `FencingRuns.AuthenticatesExactly` | src/broker/worker-coordination.ts:1997-2016 | and the converse: the stored controller with the stored token, naming the stored version or none, authenticates exactly while the lease is held and has not run out |
| `FencingRuns.OneTokenPerSubject` | src/broker/worker-coordination.ts:1997-2016 | in every reachable state two authenticating calls with the same token address the same subject, and two for the same subject carry the same token |
| `FencingRuns.RetiredTokenStaysRetired` | src/broker/worker-coordination.ts:859-893 | a token that is not the stored one of a registered subject, because a handover, release or expiry replaced or cleared it, never authenticates for that subject again, by any caller, at any time, in any run |
| `FencingRuns.StaleVersionStaysStale` | src/broker/worker-coordination.ts:1997-2016 | a lease version below the stored one never authenticates again in any run |
| `LeaseOutcomes.TakeAnswers` | src/broker/worker-coordination.ts:829-900 | acquire and adopt in full, for every selected subject in terms of its stored lease: WORKER_TERMINAL with the lease as shown; ALREADY_CONTROLLED for acquiring one's own held lease, and ACQUIRED for acquiring a given-up or adopting an abandoned or run-out one, both one version up under a told token of this call; LEASE_CONFLICT for any other held one, written contested by the actor with controller, version and token kept; else NOT_ELIGIBLE. Unselected subjects are untouched, and the taker counts as heard from exactly when something was granted |
| `LeaseOutcomes.TakenLeaseIsUsable` | src/broker/worker-coordination.ts:2036-2064 | the token so issued authenticates for the taker at a later time if and only if its session is connected or was seen to disconnect less than the grace ago or, without a session, less than the lease duration has passed |
| `LeaseOutcomes.UseAnswers` | src/broker/worker-coordination.ts:847-881 | renew, release, transfer and lifecycle report in full, for every selected subject: if the credential is let in, exactly that change and its own outcome code (ALREADY_CONTROLLED, RELEASED, TRANSFERRED with a token, ALREADY_CONTROLLED); else ORPHANED for an expired lease and OWNERSHIP_LOST otherwise, with only the lease as shown written. Unselected subjects are untouched, and the caller counts as heard from exactly when something authenticated |
| `LeaseOutcomes.UnknownSubjectIsRefused` | src/broker/worker-coordination.ts:1966-1970 | every selecting call that names one unknown subject fails with SUBJECT_NOT_FOUND and changes nothing |
| `LeaseOutcomes.ObserveAnswers` | src/broker/worker-coordination.ts:1198-1233 | an observation in full: it replaces what is stored of the controller; of the subjects recorded for that controller, those whose lease the outgoing observation had let run out are written as orphans (unless this brings the first session), all others stay as stored, and each is answered as it stands under the new observation |
| `CallOutcomes.RegisterCreatesOnce` | src/broker/worker-coordination.ts:673-827 | a first registration creates exactly the described subject, every field, in version 1, held by the given controller for the lease duration or orphaned without a token; a later one changes nothing but attaches the declared budget exactly to a worker of the same origin that has none |
| `CallOutcomes.RegisterAnswers` | src/broker/worker-coordination.ts:673-827 | a first registration is answered ACQUIRED with the token or ORPHANED without one and counts as hearing from the controller; a later one is refused for another origin, a budget for a non-worker or a different budget, in that order, else answered ALREADY_CONTROLLED exactly when caller and record name the same controller or both none, and NOT_ELIGIBLE otherwise |
| `CallOutcomes.NoBudgetForOthers` | src/broker/worker-coordination.ts:673-690 | a registration that declares a budget for anything but a worker is refused, replay or not, and changes nothing |
| `CallOutcomes.BudgetWritesIff` | src/broker/worker-coordination.ts:369-651 | a budget mutation writes nothing but its subject's budget, if and only if it first declares one or is an accepted change under the revision it insists on; the revision moves by one with an adjustment and with nothing else; a refusal names the first guard that fails, and the answer carries the budget left and whether it changed |
| `LeaseOutcomes.SweepOrphansExactly` | src/broker/worker-coordination.ts:1235-1300 | the sweep orphans exactly the leases that have run out, by the stored times, keeping version and controller, answers for those and no others, and afterwards none has run out |
| `CallOutcomes.RepairSetsLifecycle` | src/broker/worker-coordination.ts:1322-1354 | a repair sets the observed lifecycle of a registered subject and the time of the change, nothing else, and only if the lifecycle differs, and returns the subject as it then stands, projected |
| `CallOutcomes.AcknowledgeIsAllOrNothing` | src/broker/worker-coordination.ts:1166-1196 | all named handoffs are acknowledged at their first acknowledgement and returned as they then stand if every one is addressed to the recipient; otherwise none is and the call fails |
| `EventOutcomes.SubmitTakesInIff` | src/broker/worker-coordination.ts:1356-1577 | a new event is stored if and only if its worker is registered under the same task and wave, the caller authenticates for the named version, the rate window and the queue have room, the sequence is past the last, and a correlation answers a pending request. It is then stored open exactly as submitted or, for a progress report while one is open, with the two payloads merged; that open report is recorded superseded by it, and the oldest unpinned open event closed by the broker when the queue would overflow, each under its own fresh ordinal; the lease is renewed and the caller heard. Otherwise no stored event changes |
| `EventOutcomes.SubmitAnswers` | src/broker/worker-coordination.ts:1356-1577 | the answer in full: duplicate exactly for the same stored submission and EVENT_ID_COLLISION for another; then the first complaint among unknown subject, task identity, authentication (with its code), rate, sequence behind (superseded for progress, out of order else), queue full and correlation; else accepted with the expected sequence named exactly when it was skipped and the report it replaced |
| `EventOutcomes.AnswerSettlesRequest` | src/broker/worker-coordination.ts:1525-1558 | an acceptable new event with a correlation turns exactly its own pending request into one answered by that event now, and lifts the worker's gate exactly if it waited for that request under a blocking mode; without a correlation neither requests nor gate change |
| `EventOutcomes.ResolveActsIff` | src/broker/worker-coordination.ts:1579-1642 | a stored event is re-recorded as acknowledged, answered, superseded or closed, as asked, by the caller now and under a fresh ordinal, if and only if the caller authenticates for its worker; no other event changes, and the answer says accepted or names the authentication code |
| `EventOutcomes.ResolveNeedsEvent` | src/broker/worker-coordination.ts:1579-1600 | resolving an unknown event or an event of an unknown worker fails with that reason and changes nothing |
| `EventOutcomes.RequestOpensIff` | src/broker/worker-coordination.ts:1717-1810 | a new request is opened pending and as asked if and only if the caller authenticates for the worker, and a decision gate then pauses the worker on its correlation; a repeated one is returned as stored if it asks the same and refused otherwise; other requests are untouched |
| `TokenReplies.FreshTokensAreStored` | src/broker/worker-coordination.ts:2036-2064 | in every reachable state and for every call that appends, an outcome carries a token if and only if that append stores that very token for that subject, and every subject so granted has an outcome |
| `TokenReplies.RepliesTellLoggedTokens` | src/broker/worker-coordination.ts:2456-2540 | in every reachable state and for every call, replayed answers included, a token told for a subject was stored for it by the transaction that wrote the call's receipt: the call's own append, or that of the original call |
| `TokenReplies.ToldTokenOpensWhileStored` | src/broker/worker-coordination.ts:2456-2465 | a told token authenticates for its subject in a later run only if it was the stored one all along, so a replay repeats a retired token to no effect |
| `SessionDeath.SessionsOutliveCalls` | src/broker/worker-lease-liveness.ts:26-33 | no run without a liveness report for a controller changes the session observation stored for it |
| `SessionDeath.SessionDeathBeatsCalls` | src/broker/worker-coordination.ts:1989-2016 | once a session is observed disconnected at time t, no run of calls, acquisitions, handoffs, failed appends or restarts lets that controller authenticate for any subject at or past t + grace without a new observation |
| `SessionDeath.GraceIsHonoured` | src/broker/worker-lease-liveness.ts:47-51 | the other half: after any such run whoever still holds a lease authenticates with its stored token exactly before t + grace, whatever deadline is stored |
| `SessionDeath.LivingSessionActs` | src/broker/worker-lease-liveness.ts:49-51 | the holder whose session is observed connected authenticates with its stored token after any run, at any time |
| `SessionDeath.LateObservationOrphans` | src/broker/worker-coordination.ts:1218-1230 | an observation of a controller whose session was seen to disconnect at t, made at or past t + grace, a reconnect included, persists each lease it was recorded for as orphaned, without a token, in the same version |
| `SessionDeath.LateReconnectRevivesNothing` | src/broker/worker-coordination.ts:1198-1233 | the tokens held at that late observation authenticate for no one in any later run |
| `SessionDeath.ObservationRevivesIff` | src/broker/worker-coordination.ts:1220-1230 | expiry that was never written down is not final: an observation un-expires a lease if and only if it brings the first session observation of that controller and is not itself past its grace |
| `LogRefinement.MemoryIsReplay` | src/broker/worker-coordination.ts:2380-2395 | at every point of every run the durable part of memory equals the last-writer-wins fold of the appended transactions |
| `LogRefinement.ReceiptsAreForever` | src/broker/worker-coordination.ts:2363-2378 | a receipt, once written, is found unchanged after every run |
| `LogRefinement.EveryCallWritesOnce` | src/broker/worker-coordination.ts:2347-2378 | every call leaves at most one receipt, under its own and so far unused mutation id, and when the call succeeds the receipt names its operation and request and carries the very result returned |
| `LogRefinement.RetryReplays` | src/broker/worker-coordination.ts:2456-2540 | at-most-once effect: a call that succeeded, repeated after any run including restarts, returns the recorded result marked as a replay and changes neither memory nor log |
| `LogRefinement.FailedAppendLeavesNothing` | src/broker/worker-coordination.ts:2380-2395 | a call whose append fails is told so, and memory, index and log are as before but for skipped ordinals |
| `LogRefinement.UsedIdChangesNothing` | src/broker/worker-coordination.ts:2533-2540 | no call under a used mutation id, whatever its request, changes memory or log |
| `LogRefinement.UsedIdAnswers` | src/broker/worker-coordination.ts:2456-2540 | what a call under a used mutation id is answered: the recorded result, as a replay, if operation and request (where they are kept) are those of the receipt, else a collision |
| `EventRuns.RestartIsInvisible` | src/broker/worker-coordination.ts:323-339 | in every reachable state, recovering memory from the log reproduces every map and every index entry; only the ordinal counter may drop back, and never to an ordinal a stored event carries |
| `BatchAtomicity.AdoptDecision` | src/broker/worker-coordination.ts:902-985 | a fresh adoption batch commits if and only if members are distinct, registered, alive and each orphaned, expired or released as its mode demands; otherwise its transaction names no subject |
| `BatchAtomicity.AdoptBatchIsAtomic` | src/broker/worker-coordination.ts:902-985 | the state after adoptBatch: each member is held by the one controller under a higher version and a token of this call and nothing else changed, or no subject changed at all |
| `BatchOutcomes.AdoptBatchAnswers` | src/broker/worker-coordination.ts:902-985 | the answer of an adoption batch: refused for its first member named twice or unknown; else one outcome per member, ACQUIRED with the next generation of each lease and its token, or, when it aborts, each told WORKER_TERMINAL, LEASE_CONFLICT or NOT_ELIGIBLE as its stored lease stands; the controller counts as heard from exactly when something was granted |
| `BatchAtomicity.HandoffDecision` | src/broker/worker-coordination.ts:1003-1131 | a fresh handoff batch commits if and only if there are 1 to 64 distinct members, each a live worker that is registered or carries a registration; otherwise neither a subject nor a handoff record is appended |
| `BatchAtomicity.HandoffBatchIsAtomic` | src/broker/worker-coordination.ts:1003-1131 | the state after handoffBatch: all members moved and exactly one record, issued now and unacknowledged, whose manifest lists the members in order with task, wave, name, worktree, lifecycle and prior controller, or no subject (no orphan for a never-registered member) and no record |
| `BatchOutcomes.HandoffBatchAnswers` | src/broker/worker-coordination.ts:1003-1131 | the answer of a handoff batch: refused for its first member named twice or neither registered nor described or, when all could move, for having none or more than 64; else one outcome per member, ACQUIRED for a new one, ALREADY_CONTROLLED for the recipient's own and TRANSFERRED for any other, each with the next generation and its token, or, when it aborts, WORKER_TERMINAL or NOT_ELIGIBLE |
| `BatchAtomicity.HandOverGrants` | src/broker/worker-coordination.ts:2129-2154 | a member that was never registered starts from version 1 inside the batch and leaves it with version 2, the recipient and a token of this call |
| `CoordinationState.RecordKeepsIndex` | src/broker/worker-coordination.ts:2397-2424 | recording an event keeps, for every worker, the incremental summary equal to the recount of unresolved pinned events and the highest ordinal, also when the event changes worker |
| `CoordinationState.ExactIsRecount` | src/broker/worker-coordination.ts:2415-2424 | a summary is the recount exactly when its count is the number of unresolved events and its ordinal bounds and is attained by the worker's events |
| `EventQueue.SubmitChanges` | src/broker/worker-coordination.ts:1451-1524 | whatever submitEvent stores is nothing, one arrival the queue has room, rate and order for, or one closing of an open event followed by such an arrival |
| `EventQueue.ArrivalKeeps` | src/broker/worker-coordination.ts:1442-1524 | such an arrival keeps queues within the limit, one open progress report per worker, sequences growing in order of arrival, distinct ordinals below the counter, and every rate window within its limit |
| `EventQueue.ClosingKeeps` | src/broker/worker-coordination.ts:1579-1642 | re-recording a stored event as no longer open under a fresh ordinal keeps all of that |
| `EventRuns.QueuesStaySound` | src/broker/worker-coordination.ts:1442-1524 | over every run: all queue invariants, exact summaries, and stored events never lost, reopened or rewritten except under an ordinal above all earlier ones |
| `EventRuns.ReachableQueues` | src/broker/worker-coordination.ts:1442-1524 | the same for every state reached from an empty log |
| `EventRuns.PinnedOutlivesEviction` | src/broker/worker-coordination.ts:1494-1515 | no step closes a pinned event except its own resolution or, for a progress report, the next progress report of its worker |
| `EventRuns.RefusedOnlyByPinned` | src/broker/worker-coordination.ts:1494-1507 | the queue refuses an event only when pinned events alone fill it |
| `EventReader.PollIsFresh` | src/broker/worker-coordination.ts:1644-1678 | one page repeats no ordinal the reader already received and none within itself |
| `EventReader.ReaderIsComplete` | src/broker/worker-coordination.ts:1644-1678 | across any interleaving of calls, failed appends, restarts and polls, a reader following nextCursor holds the current version of every matching event at or below its cursor and has received as many distinct ordinals as records |
| `EventReader.ReaderFromTheStart` | src/broker/worker-coordination.ts:1644-1678 | the same for a reader starting at cursor 0 beside a service starting from an empty log |
| `EventReader.FilterMeans` | src/broker/worker-coordination.ts:1654-1666 | what a filter lets through: its fields narrow independently, and of what needs intervention every event is either unresolved, that is open, or resolved |
| `EventReader.UnresolvedFeedIsCounted` | src/broker/worker-coordination.ts:669-671 | the unresolved feed of a worker has exactly as many events as the index counts for it |
| `DecisionGates.GatesStaySound` | src/broker/worker-coordination.ts:1525-1558 | over every run a gated subject has a pending decision-gate request under its correlation, an answered request names a stored CHECKPOINT event of that worker and correlation, and an answered request stays as it is |
| `DecisionGates.ReachableGates` | src/broker/worker-coordination.ts:1717-1810 | the same for every state reached from an empty log and every state after it, with answers given by then unchanged |
| `CoordinationLoops.TakeSelected` | src/broker/worker-coordination.ts:1831-1883 | the loop of acquire and adopt over the selected subjects computes the outcome map and whether anything was granted |
| `CoordinationLoops.UseSelected` | src/broker/worker-coordination.ts:1885-1964 | the loop of authenticated mutations computes the outcome map and whether any subject authenticated |
| `CoordinationLoops.ExpireAll` | src/broker/worker-coordination.ts:1235-1300 | the sweep orphans exactly the subjects whose lease has expired |
| `CoordinationLoops.AdoptMembers` | src/broker/worker-coordination.ts:902-985 | the member loops of adoptBatch (faults, eligibility, grants) compute the batch decision |
| `CoordinationLoops.HandoffMembers` | src/broker/worker-coordination.ts:1003-1131 | the member loops of handoffBatch (faults, eligibility, grants, manifest) compute the batch decision |
| `CoordinationLoops.HighestSequence` | src/broker/worker-coordination.ts:1451-1453 | the fold over stored events finds the worker's highest sequence |
| `CoordinationLoops.FindLatestProgress` | src/broker/worker-coordination.ts:1477-1480 | the search finds an open progress report of the worker of highest sequence, or none exactly when there is none; in a reachable store it is the one the decision names |
| `CoordinationLoops.FindOldestEvictable` | src/broker/worker-coordination.ts:1496-1499 | the search finds an open unpinned event of the worker of lowest ordinal, or none exactly when there is none; in a reachable store it is the one the decision names |
| `CoordinationLoops.ObserveHeld` | src/broker/worker-coordination.ts:1218-1230 | the pass over the controller's subjects computes what is judged, the outcomes and the orphans to write |
| `CoordinationLoops.AcknowledgeNamed` | src/broker/worker-coordination.ts:1166-1196 | the passes over the named records compute the acknowledgement decision and the records returned |
| `CoordinationLoops.FindQueueing` | src/broker/worker-coordination.ts:1474-1521 | the searches together find what the queue decision names: the superseded report, whether the limit is passed, and the evicted event |
| `CoordinationLoops.AcceptEvent` | src/broker/worker-coordination.ts:1474-1577 | the accepting half of submitEvent computes the decision the queue theorems are about |
| `CoordinationLoops.SortCandidates` | src/broker/worker-coordination.ts:1653-1655 | sorting lists exactly the events past the cursor by ascending ordinal |
| `CoordinationLoops.FilterMatches` | src/broker/worker-coordination.ts:1656-1668 | filtering keeps exactly the matching candidates, in order |
| `CoordinationLoops.ProjectEvents` | src/broker/worker-coordination.ts:1644-1678 | a page holds the oldest matches past the cursor up to the limit, hasMore says whether a match is missing, and nextCursor leaves no match behind; with a page size of zero the call fails exactly when something matches |
| `CoordinationService.WorkerCoordinationService.constructor` | src/broker/worker-coordination.ts:314-321 | a new service is the initial state of the transition system |
| `CoordinationService.WorkerCoordinationService.RebuildEventSummary` | src/broker/worker-coordination.ts:2415-2424 | the rebuilt entry of one worker is the recount, all others stay |
| `CoordinationService.WorkerCoordinationService.RecordEvent` | src/broker/worker-coordination.ts:2397-2413 | one event stored and the index updated as `RecordKeepsIndex` speaks of |
| `CoordinationService.WorkerCoordinationService.Commit` | src/broker/worker-coordination.ts:2380-2395 | append first, then memory becomes the old memory with the transaction applied |
| `CoordinationService.WorkerCoordinationService.Settle` | src/broker/worker-coordination.ts:2347-2395 | ordinals are drawn even when nothing is stored; a failed append changes nothing else and is answered as an error |
| `CoordinationService.WorkerCoordinationService.Load` | src/broker/worker-coordination.ts:323-327 | loading folds the log |
| `CoordinationService.WorkerCoordinationService.Initialize` | src/broker/worker-coordination.ts:323-339 | after a restart memory is what recovery builds from the fold of the log |
| `CoordinationService.WorkerCoordinationService.IndexRecovered` | src/broker/worker-coordination.ts:326-338 | recovered events, exact summaries for exactly the workers with events, and one past the highest ordinal |
| `CoordinationService.WorkerCoordinationService.Register` | src/broker/worker-coordination.ts:673-827 | the new state and answer are those of the registration decision |
| `CoordinationService.WorkerCoordinationService.Take` | src/broker/worker-coordination.ts:829-845 | the new state and answer of acquire and adopt are those of the transition system |
| `CoordinationService.WorkerCoordinationService.Use` | src/broker/worker-coordination.ts:847-881 | the new state and answer of renew, release, transfer and lifecycle reports are those of the transition system |
| `CoordinationService.WorkerCoordinationService.AdoptBatch` | src/broker/worker-coordination.ts:902-985 | the new state and answer are those `AdoptBatchIsAtomic` is about |
| `CoordinationService.WorkerCoordinationService.HandoffBatch` | src/broker/worker-coordination.ts:1003-1131 | the new state and answer are those `HandoffBatchIsAtomic` is about |
| `CoordinationService.WorkerCoordinationService.AcknowledgeHandoffs` | src/broker/worker-coordination.ts:1166-1196 | only pending records of the recipient are marked and the named ones returned, and nothing when one id is foreign |
| `CoordinationService.WorkerCoordinationService.ObserveControllerLiveness` | src/broker/worker-coordination.ts:1198-1233 | the new state and answer are those `LateObservationOrphans` is about |
| `CoordinationService.WorkerCoordinationService.ExpireLeases` | src/broker/worker-coordination.ts:1235-1300 | the new state and answer of the sweep |
| `CoordinationService.WorkerCoordinationService.ReconcileLifecycle` | src/broker/worker-coordination.ts:1322-1354 | the new state of a bookkeeping repair, which leaves no receipt, and the projected subject it returns |
| `CoordinationService.WorkerCoordinationService.RegisterAgain` | src/broker/worker-coordination.ts:697-750 | the branches for a subject that exists |
| `CoordinationService.WorkerCoordinationService.MutateBudget` | src/broker/worker-coordination.ts:369-651 | the new state and answer of declaring, observing, adjusting and enforcing a budget are those `BudgetWritesIff` is about |
| `CoordinationService.WorkerCoordinationService.SubmitEvent` | src/broker/worker-coordination.ts:1356-1577 | the new state and answer are those the queue, gate and fencing theorems are about |
| `CoordinationService.WorkerCoordinationService.ResolveEvent` | src/broker/worker-coordination.ts:1579-1642 | the new state and answer of a resolution |
| `CoordinationService.WorkerCoordinationService.RequestCheckpoint` | src/broker/worker-coordination.ts:1717-1810 | the new state and answer of a checkpoint request |
| `WorkerEventChannel.AllEvents` | src/broker/worker-event-channel.ts:282-296 | the paging loop terminates with exactly the stored events, each once, by ascending ordinal; it fails exactly when the page size is zero and the store is not empty |
| `WorkerEventChannel.FindEvent` | src/broker/worker-event-channel.ts:298-300 | the search over all pages finds an event exactly when it is stored, and fails exactly when paging does |
| `WorkerEventChannel.NextSequence` | src/broker/worker-event-channel.ts:302-306 | the fold over all pages gives one past the worker's highest stored sequence, and fails exactly when paging does |
| `WorkerEventChannel.SubmitIsClean` | src/broker/worker-event-channel.ts:121-153 | a submission the channel built, taken up under an unused mutation id, is never answered as behind, superseded or ahead of a gap |
| `WorkerEventChannel.ChannelNumbersExactly` | src/broker/worker-event-channel.ts:121-153 | when the channel is the only submitter, at every point of every run with other calls, failed appends and restarts in between, each worker's sequences are exactly 1 to n and no recorded acknowledgement complains about a sequence |
| `WorkerEventChannel.NoSequenceComplaint` | src/broker/worker-event-channel.ts:101-153 | after every such run no delivery, replayed ones included, is answered with a sequence complaint |
| `TokenAccounting.NeverDecreases` | src/broker/worker-coordination.ts:2603-2627 | whatever is observed, the recorded amount does not go down and its unit and observation time do not go back |
| `TokenAccounting.ObservationReplacesIff` | src/broker/worker-coordination.ts:2603-2627 | exactly which observation replaces the record: a first known one; a known one of the same unit, no older and no smaller; an unknown one only over an unknown one it is not older than |
| `TokenAccounting.RefreshRecords` | src/broker/worker-budget-enforcer.ts:290-325 | one refresh of a token record in full: which counter is read and when it was seen, what it is added to, and that a sample without counter or older than the record changes nothing |
| `TokenAccounting.AmountIsSumOfPeaks` | src/broker/worker-budget-enforcer.ts:290-325 | after any run of refreshes from no measurement the recorded amount is at least the sum over generations of the largest counter taken, and equal to it if and only if no generation spends on both sides of another one, so in particular when generations do not recur |
| `TokenAccounting.PeaksAreLargest` | src/broker/worker-budget-enforcer.ts:291-300 | the peak of a generation bounds every counter taken in it and is one of them |
| `TokenAccounting.RecurrenceOvercounts` | src/broker/worker-budget-enforcer.ts:294-300 | three refreshes with a recurring generation record 25 where the peaks sum to 15 |
| `TokenAccounting.AcceptKeepsTrack` | src/broker/worker-coordination.ts:433-515 | each accepted observation keeps the relation between record, baseline and peaks that the sum rests on |
| `Attachment.Attachment.OnInput` | src/client/attach.ts:199-291 | one read in worker mode takes the attachment exactly where the byte automaton goes; in orchestrator mode exactly where `OrchestratorRead` says; in both modes bytes sent followed by bytes held are the bytes sent and held before followed by the read, and a detaching read has sent exactly the bytes before a chord |
| `Attachment.Attachment.TakePaste` | src/client/attach.ts:208-224 | inside a paste the payload is sent up to and including the terminator, or all of it with the match count carried |
| `Attachment.Attachment.TakeChord` | src/client/attach.ts:234-243 | Ctrl-] ahead of any paste start in the read detaches after the bytes before it are sent |
| `Attachment.Attachment.TakeSequence` | src/client/attach.ts:252-259 | worker mode forwards up to the next escape and hands over to the sequence parser without changing what the automaton does with the rest |
| `Attachment.Attachment.TakeEscape` | src/client/attach.ts:261-289 | Left Arrow detaches, its strict prefixes and unfinished sequences are held with the timer running, complete ones are forwarded and open a paste when they are the paste start |
| `Attachment.Attachment.OnTimer` | src/client/attach.ts:189-197 | the end of the coalescing window sends the held bytes and leaves the paste flag alone |
| `Attachment.Attachment.Finish` | src/client/attach.ts:147-176 | after detaching nothing is held and no timer runs |
| `Attachment.Drive` | src/client/attach.ts:199-291 | over every sequence of reads and timeouts in either mode, while attached bytes sent followed by bytes held equal the whole input; after detaching a proper prefix was sent; in worker mode without a timeout the end state is that of the automaton on the joined input |
| `TerminalInput.ChunkingDecidesNothing` | src/client/attach.ts:199-291 | two ways of cutting the same bytes into reads leave the automaton in the same state: detached or not, sent bytes, held bytes, paste flag and match count |
| `TerminalInput.DetachByteDetaches` | src/client/attach.ts:234-243 | a Ctrl-] with no paste start before it detaches the byte automaton, wherever it lies in or between sequences |
| `TerminalInput.LeftArrowDetaches` | src/client/attach.ts:269-273 | Left Arrow outside a paste detaches the byte automaton |
| `TerminalInput.SequenceEnds` | src/client/attach.ts:363-374 | where an escape sequence ends, in bytes: a CSI behind its first byte in 0x40 to 0x7e, an SS3 behind three bytes, anything else behind two, and nowhere while it is incomplete |
| `TerminalInput.ShortSequencesAreSent` | src/client/attach.ts:263-287 | ESC and ESC O are held; ESC O b and other two-byte sequences are sent whole, as are plain bytes |
| `TerminalInput.ControlSequencesAreSent` | src/client/attach.ts:263-291 | a CSI is held however long its parameters; its final byte detaches when it makes Left Arrow, opens a paste when it makes the paste start, and else the whole is sent |
| `Attachment.PasteTerminatorEnd` | src/client/attach.ts:349-361 | the scanning loop equals the carried-count matcher |
| `Attachment.TerminatorIsFirst` | src/client/attach.ts:349-361 | over a whole payload the matcher stops exactly behind the first occurrence a naive search finds, and when there is none carries the length of the longest beginning of the terminator the payload ends with |
| `Attachment.CarriedAcrossReads` | src/client/attach.ts:342-361 | cutting a payload between two reads and carrying the count changes neither result |
| `Attachment.CompleteEscapeSequenceLength` | src/client/attach.ts:363-374 | the loop finds the end of the sequence exactly when all of it has arrived, stated on the bytes: first byte in 0x40 to 0x7e of a CSI, three bytes of SS3, two otherwise |
| `Attachment.PasteIsOpaqueIffReadStart` | src/client/attach.ts:226-250 | in orchestrator mode, over every list of reads that carries one paste start, no Ctrl-] before it, no terminator behind it and a Ctrl-] in a read that does not hold the whole paste start: the attachment detaches if and only if no read begins with the paste start |
| `Attachment.InsideIsOpaque` | src/client/attach.ts:208-224 | once inside a paste, with any count of terminator bytes matched, no list of reads without the terminator closes an orchestrator attachment |
| `Attachment.OrchestratorPasteIsData` | src/client/attach.ts:208-250 | in orchestrator mode a paste at the head of a read, whatever chords it holds, up to its first terminator, decides nothing: the read goes on behind it |
| `Attachment.WorkerPasteIsData` | src/client/attach.ts:208-224 | in worker mode a paste up to its first terminator is sent whole, and what follows is read afresh |
| `Attachment.OrchestratorReadCloses` | src/client/attach.ts:226-250 | an orchestrator read that does not begin with the paste start closes the attachment if and only if it holds a Ctrl-] with no paste start ahead of it |
| `Attachment.OrchestratorChunkingMatters` | src/client/attach.ts:245-250 | in orchestrator mode chunking does decide: the same seven bytes stay attached in one read and detach when the paste start is cut |
| `AdmissionRules.RunsStaySound` | src/control-plane/admission-scheduler.ts:129-165 | in every pool of every run all three limits hold, no job is both queued and reserved, and arrival numbers are distinct |
| `AdmissionRules.NextIsUnique` | src/control-plane/admission-scheduler.ts:190-201 | the scan order is total on waiting jobs, so the admitted job is determined |
| `AdmissionRules.HeldBackExactly` | src/control-plane/admission-scheduler.ts:203-231 | what holds a job back, in numbers: a Claude job without a model, then the global, provider and repository limits against the slots taken; the reason is the first that binds |
| `AdmissionOrder.OvertakingRule` | src/control-plane/admission-scheduler.ts:136-152 | a younger job is admitted past an older one only if the older is a Claude job without a model or its own provider or repository bucket is full, and the admitted one is not such a job |
| `AdmissionOrder.AdmissionIsGreedy` | src/control-plane/admission-scheduler.ts:136-152 | an open admission with an unblocked job waiting always moves one job from the queue to a slot of its own provider and repository, and none younger than that |
| `AdmissionOrder.CoveredIsNotPassed` | src/control-plane/admission-scheduler.ts:203-223 | a job that every limit able to bind another launch-safe waiting job alone counts too cannot be admitted past it; a limit the global one is at most as large as does not bind alone |
| `AdmissionOrder.FifoWithinBuckets` | src/control-plane/admission-scheduler.ts:136-152 | of two launch-safe waiting jobs where the later is so covered (same provider and repository in particular), the later is admitted in no run through which the earlier keeps waiting |
| `AdmissionOrder.AheadNeverGrows` | src/control-plane/admission-scheduler.ts:190-231 | with nondecreasing enqueue times the jobs of any kind ahead of a waiting one never grow |
| `AdmissionOrder.BoundedOvertaking` | src/control-plane/admission-scheduler.ts:71-76 | over every run, covered jobs admitted while a job waits plus those still ahead of it are at most those ahead of it at the start |
| `AdmissionOrder.AdmittedInTurn` | src/control-plane/admission-scheduler.ts:136-152 | progress: with nondecreasing enqueue times a job that has room whenever admission is tried while it waits, and is not withdrawn, is admitted within one try more than there were jobs of any kind ahead of it |
| `AdmissionStarvation.PassedOverWithoutBound` | src/control-plane/admission-scheduler.ts:71-76 | for all positive limits and every launch-safe job bound by a provider and a repository limit, the smaller of which the global limit exceeds: for every n a pool is reached in which the job waits with no competitor ahead, and from it a run that admits n jobs of its own limited buckets while it waits |
| `AdmissionStarvation.NeverPassedOverIff` | src/control-plane/admission-scheduler.ts:71-76 | for all positive limits and every launch-safe job, in every run from a reached pool with nondecreasing enqueue times no more jobs of its limited buckets are admitted while it waits than were ahead of it, if and only if it is not so bound |
| `AdmissionFairness.PassedOverFairly` | src/control-plane/admission-scheduler.ts:71-76 | the reading in which every slot is given back: if the global limit has room for both buckets filled, for every n there is a run in which all slots turn over n times, a job of the waiting job's limited buckets is admitted in each turnover and none from ahead of it, and it still waits |
| `AdmissionFairness.NeverStarvedFairlyIff` | src/control-plane/admission-scheduler.ts:71-76 | in that reading, once all slots turned over twice and no competitor comes from ahead any more, none is admitted past the waiting job, if and only if one of its buckets is unlimited or the global limit is smaller than the two bucket limits together |
| `AdmissionFairness.FairIsNarrower` | src/control-plane/admission-scheduler.ts:71-76 | whoever is passed over for good with slots given back is passed over without that premise too |
| `Admission.AdmissionScheduler.constructor` | src/control-plane/admission-scheduler.ts:104-106 | a new scheduler is empty and closed |
| `Admission.AdmissionScheduler.OpenAdmission` | src/control-plane/admission-scheduler.ts:116-118 | opens and changes nothing else |
| `Admission.AdmissionScheduler.CloseAdmission` | src/control-plane/admission-scheduler.ts:120-122 | closes and changes nothing else |
| `Admission.AdmissionScheduler.Enqueue` | src/control-plane/admission-scheduler.ts:129-133 | a new job gets the next arrival number; a known one changes nothing |
| `Admission.AdmissionScheduler.AdmitNext` | src/control-plane/admission-scheduler.ts:136-152 | returns nothing exactly when the gate is closed or every queued job is blocked, else moves the first unblocked job in scan order from the queue to a slot |
| `Admission.AdmissionScheduler.Release` | src/control-plane/admission-scheduler.ts:158-160 | frees the slot and says whether one was held |
| `Admission.AdmissionScheduler.Withdraw` | src/control-plane/admission-scheduler.ts:163-165 | drops the queued job and says whether it was queued |
| `Admission.AdmissionScheduler.Ordered` | src/control-plane/admission-scheduler.ts:190-201 | lists exactly the queued entries in strict scan order |
| `Admission.AdmissionScheduler.BlockReason` | src/control-plane/admission-scheduler.ts:203-223 | reports the first limit that binds |
| `Admission.AdmissionScheduler.CountBy` | src/control-plane/admission-scheduler.ts:225-231 | counts exactly the slots of one provider or repository bucket |
| `OwnerSigils.LettersReadBack` | src/client/owner-sigil.ts:194-203 | bijective base 26: reading a lettered sigil back gives its number |
| `OwnerSigils.EveryTextIsASigil` | src/client/owner-sigil.ts:194-203 | and every lettered text is the sigil of the number it reads as |
| `OwnerSigils.LetterSigilOf` | src/client/owner-sigil.ts:195-203 | the digit loop computes the bijective numeral |
| `OwnerSigils.HashOf` | src/client/owner-sigil.ts:206-213 | the hash loop is FNV-1a over the code units, modulo 2^32 |
| `OwnerSigils.ProbeStops` | src/client/owner-sigil.ts:186-191 | after as many letter steps as there are taken sigils the unbounded probe has met a free one |
| `OwnerSigils.ProbeSigil` | src/client/owner-sigil.ts:180-192 | both probing loops terminate with the sigil the probe finds, which is not taken |
| `OwnerSigils.ProbeIsNearest` | src/client/owner-sigil.ts:180-192 | the probe finds the first free glyph going once round the alphabet from where the id hashes to; only if all eight are taken, the first free letters going once round a to z from there and then on in order |
| `SigilAssignment.RosterIgnoresOrder` | src/client/owner-sigil.ts:105-108 | the deduplicated, sorted roster depends only on which owners were mentioned |
| `SigilAssignment.SigilsAreDistinct` | src/client/owner-sigil.ts:104-127 | every controller gets a sigil and no two get the same |
| `SigilAssignment.PreferenceIffSenior` | src/client/owner-sigil.ts:112-120 | an owner wears the glyph its id hashes to if and only if nobody senior to it prefers the same |
| `SigilAssignment.SeniorWearsItsGlyph` | src/client/owner-sigil.ts:104-120 | an owner wears the glyph its id hashes to if and only if no owner that started earlier, or at the same time under a smaller id, hashes to the same |
| `SigilAssignment.IdOrderIsLexical` | src/client/owner-sigil.ts:105-108 | the order of ids is lexicographic in code units |
| `SigilAssignment.HolderKeeps` | src/client/owner-sigil.ts:100-102 | when an owner joins anywhere in the order, a preferred-glyph holder keeps its sigil if and only if the newcomer is junior to it or prefers another glyph |
| `SigilAssignment.NewcomerMovesNoOneIff` | src/client/owner-sigil.ts:100-102 | the claim that joining cannot take a glyph off an incumbent holds, for a newcomer junior to all, if and only if no incumbent sits on the newcomer's preferred glyph without preferring it |
| `SigilAssignment.JoiningMovesNoOneIff` | src/client/owner-sigil.ts:100-102 | the same for a newcomer of any rank: no one moves if and only if nobody wears the sigil that falls to the newcomer, its preference if no senior prefers the same, else what it finds once its seniors have probed |
| `SigilAssignment.NewcomerWearsTurnSigil` | src/client/owner-sigil.ts:112-125 | that sigil, read off the roster before the newcomer joins, is the one it comes to wear |
| `SigilRoster.IncumbentLosesItsGlyph` | src/client/owner-sigil.ts:100-102 | three concrete controller ids on which an incumbent loses its glyph to a junior newcomer |
| `SigilRoster.Dedupe` | src/client/owner-sigil.ts:157-164 | the loop keeps each controller's earliest mention |
| `SigilRoster.Ordered` | src/client/owner-sigil.ts:105-108 | sorting lists exactly the deduplicated owners, the most senior first |
| `SigilRoster.FirstLoop` | src/client/owner-sigil.ts:112-120 | the first loop hands out preferences by seniority and collects who was left out, in order |
| `SigilRoster.SecondLoop` | src/client/owner-sigil.ts:121-125 | the second loop probes for the others in that order |
| `SigilRoster.AssignOwnerSigils` | src/client/owner-sigil.ts:104-127 | the whole assignment is the two passes over the roster |
| `SigilRoster.AssignmentIsWellDefined` | src/client/owner-sigil.ts:104-127 | for any list of owners the assignment is injective, total on the owners, and the same for every order and repetition of the list |
| `BudgetLedger.TokensOf` | src/control-plane/budget-ledger.ts:180-185 | a job's tokens are unknown exactly when it reported neither a total nor a part; a reported total wins, else the reported parts add up |
| `BudgetLedger.LedgerIsExact` | src/control-plane/budget-ledger.ts:74-97 | for every interleaving of repeated calls a scope is open exactly when something was admitted to it, and its totals are the sums of each distinct settled job's first debit, with absent and unknown usage kept apart from zero |
| `BudgetLedger.AdmittedAreGranted` | src/control-plane/budget-ledger.ts:74-85 | a scope's admitted jobs are exactly those granted by some call, and it starts with the first admission that names it |
| `BudgetLedger.RefusedIff` | src/control-plane/budget-ledger.ts:74-155 | over every list of calls an admission is refused if and only if its scope is open, the job was never granted there, and granted jobs reach the job ceiling, or time since opening the wall clock, or first token debits the token ceiling, or one of them is unreported under a token ceiling, or first artifact debits the byte ceiling; the reason named is the first of these |
| `BudgetLedger.JobsStayBounded` | src/control-plane/budget-ledger.ts:74-85 | admitted jobs never exceed a ceiling of at least one |
| `BudgetLedger.ZeroCeilingAdmitsOne` | src/control-plane/budget-ledger.ts:139-142 | a ceiling of zero would admit one job, because an unopened scope is never blocked |
| `BudgetLedger.BlockedForGood` | src/control-plane/budget-ledger.ts:139-155 | over every list of calls: once a limit of a scope is reached it grants no further job under a nondecreasing clock, whatever else is admitted or settled, and stays refused |
| `BudgetLedger.UnknownUsageFailsClosed` | src/control-plane/budget-ledger.ts:146-150 | with a token ceiling one job settled without usage blocks its scope |
| `BudgetLedger.BudgetLedger.Admit` | src/control-plane/budget-ledger.ts:74-85 | grants exactly the jobs that are counted afterwards, and a refusal names the limit that the calls made so far reach first |
| `BudgetLedger.BudgetLedger.Settle` | src/control-plane/budget-ledger.ts:88-97 | debits a job of an open scope once |
| `BudgetLedger.BudgetLedger.BlockReasonOf` | src/control-plane/budget-ledger.ts:139-155 | the guard sequence reports the first binding limit |
| `BudgetLedger.BudgetLedger.UsageOf` | src/control-plane/budget-ledger.ts:99-122 | the report in terms of the calls made so far: jobs ever granted, time since the first admission, and the sums over first debits |
| `WakeBudget.ResumeIsExact` | src/broker/orchestrator-notification-wake-budget.ts:12-26 | a refusal's resumeAt lies ahead and is exactly the first instant at which a check would be allowed if nothing more is recorded; with a ceiling of zero there is none |
| `WakeBudget.AllowedExactly` | src/broker/orchestrator-notification-wake-budget.ts:12-26 | against the whole history of recorded wakes: a check is allowed if and only if fewer than the ceiling lie within the last 3600000 ms, also after the ceiling changed; a refusal names the wake that has to grow that old and when it does |
| `WakeBudget.ZeroWindowRolls` | src/broker/orchestrator-notification-wake-budget.ts:18-24 | a ceiling of zero always refuses, and the window it reports rolls on in hours |
| `WakeBudget.EveryHourIsBounded` | src/broker/orchestrator-notification-wake-budget.ts:12-32 | with a nondecreasing clock, a fixed positive ceiling and one record per allowed check, possibly later than the check, every hour wherever it begins holds at most the ceiling |
| `WakeBudget.FreshHoursAreBounded` | src/broker/orchestrator-notification-wake-budget.ts:8-32 | the same from a fresh window, opened at any time |
| `WakeBudget.OrchestratorNotificationWakeBudget.Check` | src/broker/orchestrator-notification-wake-budget.ts:12-26 | prunes one controller's window, answers from it, starts the zero window when due, and leaves other controllers alone |
| `WakeBudget.OrchestratorNotificationWakeBudget.Keep` | src/broker/orchestrator-notification-wake-budget.ts:17-17 | the filter keeps exactly the last hour, in order |
| `WakeBudget.OrchestratorNotificationWakeBudget.Record` | src/broker/orchestrator-notification-wake-budget.ts:28-32 | appends to one controller's window |

## Left out

- Sockets, gateway, terminals, process supervision, rendering and command registration: input and output only.
- Audit records, reasons, message strings, field limits and size limits of events, legacy handoff hashes, lease ids and
  the modal-answer journal: no modelled branch reads them.
- The threshold, enforcement-transition and remaining-quota rules of a budget: a parameter of the budget calls.
- The merged text of superseded progress reports: the merge is an opaque constructor, so a retry of a merged report
  through the channel is answered as the service answers it (`EVENT_ID_COLLISION`) and no duplicate is claimed.
- Concurrent readers of a half-applied commit: each exclusive section is one step.
- The order of outcomes within a group result, which follows map iteration.
- `fleetOwnerSigils` (it only prepares the roster), `snapshot`, `report`, reservation ids and listing queries: they add only easy members.
- The wall-clock and percent branches of the budget measurement: each is one expression.
- CoordinationService.WorkerCoordinationService.SubmitEvent: requires the queue invariant, which `EventRuns.ReachableQueues` proves of every
  reachable state; outside it the searches for a latest and an oldest event need not be unique.
- CoordinationLoops.ProjectEvents: requires distinct ordinals, an invariant of every run, so that sorting by them has one outcome.
- WorkerEventChannel.AllEvents: requires the same.
- TokenAccounting.AmountIsSumOfPeaks: refreshes of one worker are taken one after the other, as the enforcer's per-worker queue runs them.
- AdmissionStarvation.NeverPassedOverIff: says nothing of launch-unsafe jobs, which the scheduler holds for ever by design, and takes
  limits as positive, as the declaration schema does.
- OwnerSigils.HashOf: texts are UTF-16 code units; `localeCompare` on ids is their code-unit order and start times are numbers.
- TerminalInput.ChunkingDecidesNothing: bytes sent before a detach are left out of the detached state, because they do depend on chunking:
  when Left Arrow precedes Ctrl-] in one read, the arrow's bytes are sent first.
