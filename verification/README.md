# Verification of the live runtime

These Dafny files model the protocols of the live runtime and prove what they promise. The runtime
takes a lock for every step, so each protocol is a state machine whose steps may interleave in any
order; theorems speak of every reachable state and every run, not of single calls. Code that updates
objects is modelled by classes whose methods follow the code branch by branch and are proved against
the functions the theorems are about.

`dafny verify dfyconfig.toml` checks everything.

| files | what they model |
|---|---|
| `Observations`, `ObservationMerging`, `ObservationContents`, `ObservationClasses` | observations, merging as a semigroup, what a merge contains, and their rank |
| `ReactionScheduler*` | the latest-wins reaction scheduler: its steps, the invariant, what it promises, what a submit does, where items come from, the gap in a worker's exit, the class |
| `IngestTable`, `IngestTableProofs`, `IngestSettlements`, `IngestInputTable` | the bounded idempotency table of the ingest service |
| `CoordinatedTurns`, `CoordinatedTurnsProofs`, `CoordinatedTurnsLiveness`, `CoordinatedTurnsEndings`, `CoordinatedTurnTable` | voice turns that join microphone and system audio |
| `VoiceCooldown`, `VoiceCooldownHandover`, `VoiceCooldownGate` | the cooldown between voice observations |
| `RuntimeState`, `RuntimeReissues`, `RuntimeFences`, `RuntimeStateStore` | epochs, viewer sequence numbers and the fences for late results |
| `EffectBoundary` | the re-entrant boundary around durable effects |
| `ProviderGeneration` | lease, retire and close of model providers |
| `BarrageHistory`, `BarragePipeline`, `BarrageVerdicts` | duplicate and density windows against unbounded logs |
| `FrameStore`, `FrameStoreLaws` | the frame store with eviction and retention |
| `FrameSelection`, `VisualSignature` | the choice of frames and its metric |
| `TranscriptQueue` | the transcript fan-out |
| `CanonicalJson`, `CanonicalJsonProofs`, `CanonicalJsonForm` | canonical JSON in the style of RFC 8785, sections 3.2.2 and 3.2.3 |
| `CorpusRecords` | canonicalisation of the corpus |
| `Lexicographic`, `OrderedDict`, `Sequences`, `Sets`, `Options` | shared: sort keys and stable sorting, insertion-ordered dictionaries, order-preserving parts, subsets, optional values |

## Where the code falls short

- A worker signs off and cleans up in two locked sections (`reaction_scheduler.py:449-452` and
  `:484-493`). Whatever happens in between, the clean-up resolves to nothing exactly what the
  worker's schedule, if it is still the tracked one, has pending or running by then
  (`ReactionSchedulerExit.GapDrops`): reactions that were neither outranked, superseded nor
  cancelled. The schedule can only be tracked still if preserved user input was executing at the
  sign-off (`ReactionSchedulerExit.GapHarmlessWithoutPreserved`), and then a submit alone in between
  is lost; `ReactionSchedulerExit.ExitGapLosesNewcomerReachably` gives a run. All other theorems take
  the exit as one step.
- Deactivating and reactivating a viewer restarts its numbering within the epoch at its record's
  sequence. A number of the epoch can be issued again, and an old result that carries no revisions can pass
  again, exactly when the reactivated record's sequence is less than that number
  (`RuntimeReissues.ReissuedAfterUpdateIff`, `RuntimeReissues.OldResultPassesAgainIff`);
  `RuntimeState.ReactivationReissues` gives a run. Writing no lower record than the last issued number
  avoids it.
- A turn object is scheduled at most once, but the service keeps no memory of the turn ids it has
  scheduled. An id can be scheduled again exactly when the microphone is committed again under it and that
  turn is still kept by the active session (`CoordinatedTurnsLiveness.ScheduledAgainIff`);
  `CoordinatedTurnsProofs.RecommittedIsScheduledAgain` gives a run.

## Model

| member | source | states |
|---|---|---|
| `ObservationMerging.MergeAssociative` | apps/backend/src/advx_backend/application/reaction_scheduler.py:679-707 | merging is associative on well-formed observations of one room, in every field |
| `ObservationMerging.GroupingIrrelevant` | apps/backend/src/advx_backend/application/reaction_scheduler.py:679-707 | every way of bracketing a run of merges gives the same observation |
| `ObservationMerging.MergeIsMergeable` | apps/backend/src/advx_backend/application/reaction_scheduler.py:679-707 | a merge of well-formed observations is well formed, so runs of merges never leave the domain |
| `ObservationMerging.MergeEvents` | apps/backend/src/advx_backend/application/reaction_scheduler.py:683-696 | the merged room events are exactly those of either part |
| `ObservationMerging.MergeTriggerEvents` | apps/backend/src/advx_backend/application/reaction_scheduler.py:697-702 | an event triggers the merge exactly if it triggers a part |
| `ObservationMerging.MergeKeepsRank` | apps/backend/src/advx_backend/application/reaction_scheduler.py:583-629 | an allowed merge keeps priority, screen-only class and rank |
| `ObservationMerging.MergeAmbient` | apps/backend/src/advx_backend/application/reaction_scheduler.py:631-648 | an allowed merge keeps the ambient flag below priority 3; merges at priority 3, where the latest value would win, never occur, as no item of that priority is pending (`ItemOk` in the invariant) |
| `ReactionSchedulerResults.JoinsKeepAmbient` | apps/backend/src/advx_backend/application/reaction_scheduler.py:263-293 | in every reachable state a newcomer that joins the pending item has the item's ambient flag and keeps it |
| `ObservationMerging.RunTargets` | apps/backend/src/advx_backend/application/reaction_scheduler.py:710-742 | a merged run has a target iff all its targets together are one and nothing was ambiguous, and is ambiguous iff there are two or more or a part was ambiguous |
| `ObservationContents.MergeContains` | apps/backend/src/advx_backend/application/reaction_scheduler.py:679-742 | a merge, field by field: the later id, the earlier creation time, both parts' events, triggers and frames in order, a later frame replacing one with its id, later context values winning, and the one target that is named unless several are or a part is ambiguous |
| `ObservationContents.RunIdentity` | apps/backend/src/advx_backend/application/reaction_scheduler.py:679-707 | a merged run has the last observation's id and the earliest creation time |
| `ObservationContents.RunEvents` | apps/backend/src/advx_backend/application/reaction_scheduler.py:683-696 | a merged run has exactly the events of all its observations |
| `ObservationContents.RunTriggers` | apps/backend/src/advx_backend/application/reaction_scheduler.py:697-702 | a merged run is triggered by exactly what triggers its observations |
| `ReactionSchedulerClass.CollectTargets` | apps/backend/src/advx_backend/application/reaction_scheduler.py:710-742 | the loops that collect targets compute the merge's target |
| `ReactionSchedulerSafety.StepKeepsInv` | apps/backend/src/advx_backend/application/reaction_scheduler.py:131-493 | every step of submit, worker, preserved task and cancellation keeps the invariant: items well formed, no future in two places, pending ranked below running, tasks and schedules pointing at each other |
| `ReactionSchedulerSafety.RunsKeepInv` | apps/backend/src/advx_backend/application/reaction_scheduler.py:131-493 | the invariant holds in every state of every run from the empty scheduler |
| `ReactionSchedulerResults.WaitingIffOwnedOnce` | apps/backend/src/advx_backend/application/reaction_scheduler.py:131-322 | a returned future is unresolved iff exactly one pending, running or preserved item of a tracked session owns it |
| `ReactionSchedulerResults.RunResolvesOnce` | apps/backend/src/advx_backend/application/reaction_scheduler.py:661-676 | over whole runs no future is forgotten and a result, once set, never changes |
| `ReactionSchedulerResults.ResultOnlyFromCurrent` | apps/backend/src/advx_backend/application/reaction_scheduler.py:438-493 | a result other than nothing comes only from an item that is current and not superseded when its execution ends |
| `ReactionSchedulerResults.CurrentDelivers` | apps/backend/src/advx_backend/application/reaction_scheduler.py:463-483 | conversely, the running item of a schedule that is still the session's delivers its result to all its callers, or nothing if it was superseded; otherwise they have been resolved already |
| `ReactionSchedulerResults.PreservedDelivers` | apps/backend/src/advx_backend/application/reaction_scheduler.py:410-436 | preserved user input whose schedule is still the session's delivers its result to all its callers, whatever else the session runs; otherwise they have been resolved already |
| `ReactionSchedulerResults.CancelResolves` | apps/backend/src/advx_backend/application/reaction_scheduler.py:349-380 | cancelling a session resolves all its futures and touches no other session's |
| `ReactionSchedulerResults.DrainedResolves` | apps/backend/src/advx_backend/application/reaction_scheduler.py:438-493 | when no task is left, no session is tracked and no future is unresolved |
| `ReactionSchedulerResults.PendingRanksBelowRunning` | apps/backend/src/advx_backend/application/reaction_scheduler.py:199-293 | in every reachable state a pending item ranks no higher than a running one that is not superseded |
| `ReactionSchedulerResults.SubmitOutcome` | apps/backend/src/advx_backend/application/reaction_scheduler.py:199-293 | below priority 3 the priority, ambient and screen tests amount to one total order: superseded iff ranked strictly higher than running, dropped iff ranked below pending, or non-ambient and ranked below running |
| `ReactionSchedulerResults.RanksAreTotal` | apps/backend/src/advx_backend/application/reaction_scheduler.py:583-629 | the rank is screen-only, other priority 1, other priority 2, user input |
| `ObservationClasses.RankIs` | apps/backend/src/advx_backend/application/reaction_scheduler.py:583-633 | the rank in terms of what triggers an observation: user input, the screen alone and not ambient, screen or system audio, anything else |
| `ReactionSchedulerResults.NeverSupersedesAndDrops` | apps/backend/src/advx_backend/application/reaction_scheduler.py:199-293 | no submit newly cancels a running reaction and drops the newcomer too |
| `ReactionSchedulerResults.OnlyPendingIsDisplaced` | apps/backend/src/advx_backend/application/reaction_scheduler.py:157-197 | no submit displaces running items or preserved user input |
| `ReactionSchedulerSubmissions.SubmitWaitsIff` | apps/backend/src/advx_backend/application/reaction_scheduler.py:131-321 | a submit's future waits iff it is in time, its session is tracked or may be opened, no pending or running item outranks it, and a task serves it or is started; otherwise it gets nothing and nothing changes |
| `ReactionSchedulerSubmissions.SubmitGivesUp` | apps/backend/src/advx_backend/application/reaction_scheduler.py:238-293 | an admitted submit gives up the callers of the pending item it replaces, or the oldest caller of a full one it joins, and no others |
| `ReactionSchedulerSubmissions.RankedSubmitStores` | apps/backend/src/advx_backend/application/reaction_scheduler.py:263-321 | what is pending after an admitted submit: the item there was, with the newcomer's caller and observation merged in, if class and merge window allow; otherwise a new item for the newcomer; and a worker to serve it |
| `ReactionSchedulerSubmissions.UserSubmitStoresOwn` | apps/backend/src/advx_backend/application/reaction_scheduler.py:157-197 | admitted user input gets an item and a task of its own and leaves the rest alone |
| `ReactionSchedulerHistory.PendingIsMerge` | apps/backend/src/advx_backend/application/reaction_scheduler.py:263-321 | over every run a pending item holds the left-to-right merge of the observation it was opened with and those of the admitted submits since |
| `ReactionSchedulerHistory.WorkerTakes` | apps/backend/src/advx_backend/application/reaction_scheduler.py:446-462 | a worker runs what is pending next, for all its callers; finding nothing it ends, and the session is forgotten unless user input is preserved |
| `ReactionSchedulerHistory.RunningComesFrom` | apps/backend/src/advx_backend/application/reaction_scheduler.py:443-483 | what a session runs was running before, or is what it had pending, taken by a worker |
| `ReactionSchedulerHistory.PreservedComesFrom` | apps/backend/src/advx_backend/application/reaction_scheduler.py:157-197 | preserved user input is what an admitted submit brought |
| `ReactionSchedulerHistory.UserInputDelivers` | apps/backend/src/advx_backend/application/reaction_scheduler.py:157-197 | over every run the caller of admitted user input waits until its session is cancelled or its own execution ends, whose result it then gets |
| `ReactionSchedulerExit.ExitHalvesFuse` | apps/backend/src/advx_backend/application/reaction_scheduler.py:446-493 | with nothing in between, the worker's sign-off and its clean-up are one atomic exit |
| `ReactionSchedulerExit.GapDrops` | apps/backend/src/advx_backend/application/reaction_scheduler.py:446-493 | after any steps between the halves, the clean-up resolves a waiting future to nothing iff the old schedule is still tracked and has it pending or running; it signs off whatever worker the schedule has by then, whose task goes on |
| `ReactionSchedulerExit.GapHarmlessWithoutPreserved` | apps/backend/src/advx_backend/application/reaction_scheduler.py:446-493 | without preserved user input at the sign-off, the clean-up does nothing, whatever happened in between |
| `ReactionSchedulerExit.ForgottenStays` | apps/backend/src/advx_backend/application/reaction_scheduler.py:446-493 | a schedule that is no longer tracked is never tracked again, so tracked at the clean-up means tracked all along |
| `ReactionSchedulerExit.ExitGapLosesNewcomer` | apps/backend/src/advx_backend/application/reaction_scheduler.py:446-493 | when a submit is all that happens between the halves, it loses its reaction iff preserved user input keeps the schedule alive |
| `ReactionSchedulerExit.ExitGapLosesNewcomerReachably` | apps/backend/src/advx_backend/application/reaction_scheduler.py:446-493 | a run from the empty scheduler to a state in which that happens |
| `ReactionSchedulerClass.LatestWinsReactionScheduler.Submit` | apps/backend/src/advx_backend/application/reaction_scheduler.py:131-321 | the branches of submit, in the code's order, compute the rank-based transition |
| `ReactionSchedulerClass.LatestWinsReactionScheduler.SubmitRanked` | apps/backend/src/advx_backend/application/reaction_scheduler.py:199-321 | the supersede, queue, drop, merge and replace branches below priority 3 |
| `ReactionSchedulerClass.LatestWinsReactionScheduler.AgainstRunning` | apps/backend/src/advx_backend/application/reaction_scheduler.py:199-237 | the tests against the running item are a comparison of ranks, given that pending ranks below running |
| `ReactionSchedulerClass.LatestWinsReactionScheduler.AgainstPending` | apps/backend/src/advx_backend/application/reaction_scheduler.py:238-262 | the tests against the pending item are a comparison of ranks and the merge condition |
| `ReactionSchedulerClass.LatestWinsReactionScheduler.CancelSession` | apps/backend/src/advx_backend/application/reaction_scheduler.py:349-380 | drops the schedule and resolves everything it held |
| `ReactionSchedulerClass.LatestWinsReactionScheduler.WorkerTurn` | apps/backend/src/advx_backend/application/reaction_scheduler.py:443-462 | a worker takes the pending item or leaves |
| `ReactionSchedulerClass.LatestWinsReactionScheduler.WorkerFinish` | apps/backend/src/advx_backend/application/reaction_scheduler.py:463-483 | a finished execution resolves its callers if it is still current |
| `ReactionSchedulerClass.LatestWinsReactionScheduler.PreservedFinish` | apps/backend/src/advx_backend/application/reaction_scheduler.py:410-436 | a finished preserved reaction resolves its callers if it is still kept |
| `IngestTableProofs.StepKeepsInv` | apps/backend/src/advx_backend/application/ingest_service.py:1751-1928 | every operation keeps the table in agreement with the unbounded history of granted reservations |
| `IngestTableProofs.TimestampsNeverGoBack` | apps/backend/src/advx_backend/application/ingest_service.py:1854-1928 | the table never exceeds its cap, and granted, not undone timestamps of one kind and source never decrease across evictions |
| `IngestTableProofs.RefinesUnbounded` | apps/backend/src/advx_backend/application/ingest_service.py:1915-1928 | an input is out of order exactly when a table that forgets nothing would say so |
| `IngestTableProofs.EvictsOnlyIdle` | apps/backend/src/advx_backend/application/ingest_service.py:1878-1896 | eviction takes one accepted input that is not pending audio, the least recently used such, and only when the table is full |
| `IngestTableProofs.TrackedIsGrantedOnce` | apps/backend/src/advx_backend/application/ingest_service.py:1898-1913 | while an id is tracked its reservation is not granted again |
| `IngestSettlements.ReservationGrantedIff` | apps/backend/src/advx_backend/application/ingest_service.py:1751-1896 | a reservation is granted iff its id is not tracked, its source has no uncommitted audio, nothing later of its kind and source was granted and not undone, and there is room or an idle input to evict |
| `IngestSettlements.CommitGrantedIff` | apps/backend/src/advx_backend/application/ingest_service.py:579-617 | a commit is granted iff the id is pending under the source it was reserved for, on its connection, in order, and without another or a settled commit |
| `IngestSettlements.UnsettledInputReplays` | apps/backend/src/advx_backend/application/ingest_service.py:1898-1913 | over every run, replays of a granted input are told that it is in progress until it is settled |
| `IngestSettlements.SettledInputReplays` | apps/backend/src/advx_backend/application/ingest_service.py:1822-1838 | over every run, once a granted input is settled its replays get the receipt it was settled with, as long as it stays tracked, and others are refused |
| `IngestSettlements.SettledCommitReplays` | apps/backend/src/advx_backend/application/ingest_service.py:579-617 | the same for a granted and settled commit, whatever source, time or connection the repetition names |
| `IngestSettlements.TrackingEnds` | apps/backend/src/advx_backend/application/ingest_service.py:1822-1896 | the tracking of an id ends with its failure, the loss of its connection, or eviction by a granted reservation, and with nothing else |
| `IngestSettlements.LostConnectionForgets` | apps/backend/src/advx_backend/application/ingest_service.py:649-662 | over every run, a lost connection forgets a granted input iff it was reserved on it and is pending audio |
| `IngestSettlements.UnsettledIsKept` | apps/backend/src/advx_backend/application/ingest_service.py:1878-1896 | over every run no reservation evicts a granted input that has not been settled |
| `IngestSettlements.PendingIs` | apps/backend/src/advx_backend/application/ingest_service.py:1784-1820 | what is pending under a source changes only by a granted audio reservation, its release, or the loss of a connection |
| `IngestInputTable.InputTable.Reserve` | apps/backend/src/advx_backend/application/ingest_service.py:1751-1782 | reservation of text and frames |
| `IngestInputTable.InputTable.ReserveAudio` | apps/backend/src/advx_backend/application/ingest_service.py:1784-1815 | reservation of audio, one uncommitted input per source |
| `IngestInputTable.InputTable.Remember` | apps/backend/src/advx_backend/application/ingest_service.py:1854-1896 | insertion with the eviction loop and its timestamp floors, or rollback when nothing can be evicted |
| `IngestInputTable.InputTable.TimestampFor` | apps/backend/src/advx_backend/application/ingest_service.py:1915-1928 | the maximum of tracked timestamps and floor |
| `IngestInputTable.InputTable.CheckCommit` | apps/backend/src/advx_backend/application/ingest_service.py:579-616 | the decision of an audio commit, errors in the code's order |
| `IngestInputTable.InputTable.CommitAudio` | apps/backend/src/advx_backend/application/ingest_service.py:576-617 | the commit's fingerprint is recorded only when granted |
| `IngestInputTable.InputTable.SettleInput` | apps/backend/src/advx_backend/application/ingest_service.py:1822-1838 | an accepted input is marked and keeps its receipt, a failed one is forgotten |
| `IngestInputTable.InputTable.ReleaseAudio` | apps/backend/src/advx_backend/application/ingest_service.py:1817-1820 | only the pending input itself releases its source |
| `IngestInputTable.InputTable.ClearConnectionInputs` | apps/backend/src/advx_backend/application/ingest_service.py:649-662 | a lost connection's pending inputs are forgotten, in order |
| `CoordinatedTurnsProofs.StepKeepsInv` | apps/backend/src/advx_backend/application/ingest_service.py:928-1155 | every step keeps turn fields, tasks and history in agreement |
| `CoordinatedTurnsProofs.TurnEndsOnce` | apps/backend/src/advx_backend/application/ingest_service.py:1013-1155 | under every interleaving a turn is scheduled or discarded at most once, and never scheduled after it was discarded |
| `CoordinatedTurnsProofs.ScheduledAsComplete` | apps/backend/src/advx_backend/application/ingest_service.py:1057-1155 | a scheduled turn has its microphone transcript, is degraded iff it required system audio that did not complete, and hands on its events in order |
| `CoordinatedTurnsEndings.TurnEndsIff` | apps/backend/src/advx_backend/application/ingest_service.py:1013-1155 | in every reachable state a step takes a turn away iff it is an invalid transcript of a committed source, the microphone's without text, a discard, the waking of a task started for this turn object while the session is active, or the session's stop, start or failed start |
| `CoordinatedTurnsEndings.EndingCancels` | apps/backend/src/advx_backend/application/ingest_service.py:1070-1081 | a transcript that ends its turn, or a discard, cancels the tasks started for it and no others |
| `CoordinatedTurnsEndings.ScheduledHasText` | apps/backend/src/advx_backend/application/ingest_service.py:1013-1055 | over every run a scheduled turn had a valid microphone transcript with text and only valid transcripts |
| `CoordinatedTurnsLiveness.NoTurnIsStuck` | apps/backend/src/advx_backend/application/ingest_service.py:1013-1155 | while the session is active, a turn whose microphone completed has exactly one live task that will schedule it, and no other turn has one |
| `CoordinatedTurnsLiveness.ScheduledIff` | apps/backend/src/advx_backend/application/ingest_service.py:928-1155 | in every reachable state, a turn id can come to be scheduled without another microphone commit iff the session is active and keeps a turn with a committed microphone under it |
| `CoordinatedTurnsLiveness.ScheduledAgainIff` | apps/backend/src/advx_backend/application/ingest_service.py:928-1155 | a turn id that was scheduled is scheduled again without another microphone commit iff the session is active and the microphone was committed again under it, for the turn now kept, since it was scheduled |
| `CoordinatedTurnsProofs.ScheduledAgainOnlyIfRecommitted` | apps/backend/src/advx_backend/application/ingest_service.py:928-945 | at the moment a turn id is scheduled again, the microphone was committed again under it after the first time |
| `CoordinatedTurnsProofs.RecommittedIsScheduledAgain` | apps/backend/src/advx_backend/application/ingest_service.py:928-945 | a concrete run in which an id is scheduled twice |
| `CoordinatedTurnTable.TurnTable.StartSession` | apps/backend/src/advx_backend/application/ingest_service.py:251-259 | a start empties the dictionary unless the session is active already |
| `CoordinatedTurnTable.TurnTable.FailStart` | apps/backend/src/advx_backend/application/ingest_service.py:262-274 | a start that fails deactivates the session and empties the dictionary, cancelling nothing |
| `CoordinatedTurnTable.TurnTable.StopSession` | apps/backend/src/advx_backend/application/ingest_service.py:311-336 | a stop cancels the tasks of the turns still in the dictionary and empties it |
| `CoordinatedTurnTable.TurnTable.RegisterCommittedAudio` | apps/backend/src/advx_backend/application/ingest_service.py:928-945 | registration of a committed source |
| `CoordinatedTurnTable.TurnTable.CompleteTurn` | apps/backend/src/advx_backend/application/ingest_service.py:1013-1055 | a final transcript discards, completes, or starts the timeout or schedule task of its turn |
| `CoordinatedTurnTable.TurnTable.Discard` | apps/backend/src/advx_backend/application/ingest_service.py:947-967 | a discarded turn leaves the dictionary and both its tasks are cancelled |
| `CoordinatedTurnTable.TurnTable.Expire` | apps/backend/src/advx_backend/application/ingest_service.py:1091-1100 | the timeout's checks by identity before it hands a turn on |
| `CoordinatedTurnTable.TurnTable.Finalize` | apps/backend/src/advx_backend/application/ingest_service.py:1136-1144 | the schedule task's checks by identity |
| `CoordinatedTurnTable.VoiceTurn.IsReady` | apps/backend/src/advx_backend/application/ingest_service.py:1057-1068 | when a turn is ready |
| `VoiceCooldown.CooldownBetween` | apps/backend/src/advx_backend/application/ingest_service.py:1409-1476 | voice observations are at least the cooldown apart |
| `VoiceCooldown.WaitingIsFlushed` | apps/backend/src/advx_backend/application/ingest_service.py:1418-1431 | whatever waits has a live flush task with deadline last + cooldown |
| `VoiceCooldown.BoundsDoNotShow` | apps/backend/src/advx_backend/application/ingest_service.py:1501-1541 | the two-element caps give the target and context of unbounded sets, and a turn id iff all contexts agree on one |
| `VoiceCooldown.HandedOnOnce` | apps/backend/src/advx_backend/application/ingest_service.py:1409-1499 | every event is handed on at most once and in order |
| `VoiceCooldown.NothingLost` | apps/backend/src/advx_backend/application/ingest_service.py:1510-1512 | no event is lost unless more wait than the cap allows |
| `VoiceCooldownHandover.SubmitHandsOn` | apps/backend/src/advx_backend/application/ingest_service.py:1409-1457 | over every run a voice turn waits while the last observation is less than a cooldown ago; a later one is handed on with all that waited: the one target they name, the last value of every context key, the turn id they agree on, and their newest events within the cap |
| `VoiceCooldownHandover.WakeHandsOn` | apps/backend/src/advx_backend/application/ingest_service.py:1459-1499 | the current flush task does the same with what waits once the cooldown is over, if an event waits |
| `VoiceCooldownHandover.StaleTaskIsOver` | apps/backend/src/advx_backend/application/ingest_service.py:1459-1476 | a flush task that is no longer the current one never hands anything on |
| `VoiceCooldownGate.VoiceCooldownDelta.Accumulate` | apps/backend/src/advx_backend/application/ingest_service.py:1501-1532 | the accumulation loops |
| `VoiceCooldownGate.VoiceCooldownGate.ScheduleVoice` | apps/backend/src/advx_backend/application/ingest_service.py:1409-1457 | schedule now, gather, or schedule with what was gathered |
| `VoiceCooldownGate.VoiceCooldownGate.FlushVoice` | apps/backend/src/advx_backend/application/ingest_service.py:1459-1476 | the flush task's checks and hand-over |
| `RuntimeState.FenceSound` | apps/backend/src/advx_backend/application/runtime_state.py:289-347 | a viewer's result is accepted iff it matches the present runtime and its number was issued to that viewer in that epoch since the last activation, replacement, stop or deactivation |
| `RuntimeFences.AcceptedIff` | apps/backend/src/advx_backend/application/runtime_state.py:289-347 | over every run a viewer's result is accepted iff the runtime is open in its epoch, room and namespace, the viewer is in the pool and active at exactly the revisions it states, and its number was issued since the last reset |
| `RuntimeFences.StaleRevisionRefused` | apps/backend/src/advx_backend/application/runtime_state.py:326-336 | after an update to another presence, moderation or behaviour revision than a result states, the result is refused for good unless the stated revision is written back |
| `RuntimeFences.GrantedIff` | apps/backend/src/advx_backend/application/runtime_state.py:190-228 | a claim is granted iff room, epoch and pool allow it and it follows the viewer's claim or else its record's sequence |
| `RuntimeFences.ActivationClaims` | apps/backend/src/advx_backend/application/runtime_state.py:464-471 | activation starts every viewer of the pool at its record's sequence, with nothing issued |
| `RuntimeFences.PopulationOrder` | apps/backend/src/advx_backend/application/runtime_state.py:349-438 | over every continuation the population revision rises iff the population was changed |
| `RuntimeFences.PoolListsOnce` | apps/backend/src/advx_backend/application/runtime_state.py:403-438 | if every pool put in place lists each viewer once, so does every pool of the run |
| `RuntimeState.IssuedConsecutively` | apps/backend/src/advx_backend/application/runtime_state.py:190-228 | a granted number follows the last one issued, also across replacements that keep the viewer |
| `RuntimeReissues.ReissuedIff` | apps/backend/src/advx_backend/application/runtime_state.py:190-228 | a number issued to a viewer in the present epoch is issued again in it, in some continuation that writes the viewer no lower record, iff the viewer's claim, or without one its record's sequence, is less than the number |
| `RuntimeReissues.ReissuedAfterUpdateIff` | apps/backend/src/advx_backend/application/runtime_state.py:349-401 | the same decided before an update: by the claim or else the sequence the update writes; an inactive viewer of the epoch has no claim |
| `RuntimeReissues.FirstAfterDeactivation` | apps/backend/src/advx_backend/application/runtime_state.py:214-228 | the first number after a deactivation is one more than the record's sequence, so it repeats or goes behind an earlier number of the epoch iff that sequence is less than the number |
| `RuntimeReissues.OldResultPassesIffReissued` | apps/backend/src/advx_backend/application/runtime_state.py:289-347 | a result without revisions from before the viewer's last reset is accepted iff its number was issued again since in the same epoch |
| `RuntimeReissues.OldResultPassesAgainIff` | apps/backend/src/advx_backend/application/runtime_state.py:289-347 | such a result, refused for its number only, is accepted again in some continuation that writes the viewer no lower record iff the claim, or without one the record's sequence, is less than the number |
| `RuntimeState.ReissuedOnlyAfterDeactivation` | apps/backend/src/advx_backend/application/runtime_state.py:392-400 | at the moment a number recurs within one epoch, the viewer became inactive in between |
| `RuntimeState.ReactivationReissues` | apps/backend/src/advx_backend/application/runtime_state.py:392-400 | a concrete run in which it recurs and an old result passes the fence again |
| `RuntimeState.ReplacementCarries` | apps/backend/src/advx_backend/application/runtime_state.py:473-499 | replacement carries a kept viewer's claim forward, takes the replacement record's sequence for a kept viewer without a claim, starts others at 0 and clears what was issued |
| `RuntimeState.PastEpochsRefused` | apps/backend/src/advx_backend/application/runtime_state.py:523-530 | epochs never go back, and a stopped runtime accepts again only in a later epoch |
| `RuntimeState.StoppedRefusesAll` | apps/backend/src/advx_backend/application/runtime_state.py:93-103 | after a stop, results of present and past epochs are refused for good |
| `RuntimeStateStore.RuntimeStateStore.Activate` | apps/backend/src/advx_backend/application/runtime_state.py:54-78 | activation, plain or after a durable commit |
| `RuntimeStateStore.RuntimeStateStore.Replace` | apps/backend/src/advx_backend/application/runtime_state.py:59-91 | replacement, plain or after a durable commit |
| `RuntimeStateStore.RuntimeStateStore.Stop` | apps/backend/src/advx_backend/application/runtime_state.py:93-103 | stopping clears claims and refuses results |
| `RuntimeStateStore.RuntimeStateStore.ClaimViewerSequence` | apps/backend/src/advx_backend/application/runtime_state.py:190-228 | a claim is granted iff it is the viewer's next number in the present epoch |
| `RuntimeStateStore.RuntimeStateStore.AcceptsResult` | apps/backend/src/advx_backend/application/runtime_state.py:289-347 | the checks of a late result |
| `RuntimeStateStore.RuntimeStateStore.UpdateViewer` | apps/backend/src/advx_backend/application/runtime_state.py:349-401 | a viewer update; an inactive viewer loses claim and issued numbers |
| `RuntimeStateStore.RuntimeStateStore.AddViewer` | apps/backend/src/advx_backend/application/runtime_state.py:403-438 | a viewer is added once |
| `EffectBoundary.RunKeepsInv` | apps/backend/src/advx_backend/application/runtime_state.py:236-256 | owner and depth are recorded iff the lock is held, and the depth counts the owner's open boundaries |
| `EffectBoundary.MutuallyExclusive` | apps/backend/src/advx_backend/application/runtime_state.py:236-256 | at most one task is inside, and nothing is recorded when none is |
| `EffectBoundary.ReentryBalances` | apps/backend/src/advx_backend/application/runtime_state.py:241-247 | the owner re-enters without waiting and leaves the record as it was |
| `EffectBoundary.OutsiderWaitsItsTurn` | apps/backend/src/advx_backend/application/runtime_state.py:247-256 | a task from outside waits, may give up, and comes in exactly when nobody is inside |
| `EffectBoundary.LeavingFrees` | apps/backend/src/advx_backend/application/runtime_state.py:244-256 | the last of a task's boundaries frees the lock, and only inside can it change the session |
| `EffectBoundary.HoldingFreezes` | apps/backend/src/advx_backend/application/runtime_state.py:158-188 | while a task stays inside, no other task changes the session |
| `EffectBoundary.EffectCompletesAccepted` | apps/backend/src/advx_backend/application/runtime_state.py:158-188 | an effect that was accepted completes in the epoch it was checked in unless its own task changed it |
| `EffectBoundary.EffectBoundaries.Enter` | apps/backend/src/advx_backend/application/runtime_state.py:236-247 | the owner goes straight in, others wait |
| `EffectBoundary.EffectBoundaries.Leave` | apps/backend/src/advx_backend/application/runtime_state.py:244-256 | both kinds of frames undo what they did |
| `ProviderGeneration.ClosesOnce` | apps/backend/src/advx_backend/application/runtime_provider.py:110-148 | components are closed at most once, only retired and without leases, and no lease is granted later |
| `ProviderGeneration.ClosedIffDrained` | apps/backend/src/advx_backend/application/runtime_provider.py:110-142 | a generation has been closed iff it is retired, free of leases and its tasks are done |
| `ProviderGeneration.RetiredForGood` | apps/backend/src/advx_backend/application/runtime_provider.py:110-142 | retirement is permanent and leases only go down after it |
| `ProviderGeneration.LeasesAreOutstanding` | apps/backend/src/advx_backend/application/runtime_provider.py:110-134 | the count is the number of granted leases that have not ended |
| `ProviderGeneration.GrantedUnlessRetired` | apps/backend/src/advx_backend/application/runtime_provider.py:110-117 | a lease is granted exactly as long as nobody has retired the generation |
| `ProviderGeneration.CloseReachesBoth` | apps/backend/src/advx_backend/application/runtime_provider.py:144-148 | a task told to close closes both components, even if the first one fails |
| `ProviderGeneration.RuntimeProviderGeneration.EnterLease` | apps/backend/src/advx_backend/application/runtime_provider.py:110-117 | a lease is granted unless retired or closed |
| `ProviderGeneration.RuntimeProviderGeneration.LeaveLease` | apps/backend/src/advx_backend/application/runtime_provider.py:120-132 | the last lease of a retired generation must close it |
| `ProviderGeneration.RuntimeProviderGeneration.Retire` | apps/backend/src/advx_backend/application/runtime_provider.py:134-142 | retiring an idle generation must close it |
| `BarragePipeline.PrunedDecides` | apps/backend/src/advx_backend/application/barrage_pipeline.py:174-199 | after pruning, the windows decide as the full acceptance log does |
| `BarragePipeline.PrunedIsFiltered` | apps/backend/src/advx_backend/application/barrage_pipeline.py:174-184 | head-pruning equals filtering: the last K acceptances inside the duplicate window, all inside the density window |
| `BarragePipeline.EveryCandidateOnce` | apps/backend/src/advx_backend/application/barrage_pipeline.py:54-138 | every candidate ends as one event with its own audience and text, or one rejection with its index and reason, in order, with consecutive ids |
| `BarrageVerdicts.BatchFirstFailure` | apps/backend/src/advx_backend/application/barrage_pipeline.py:144-161 | a batch is rejected iff it belongs to another session, observation or request, or is early or expired, and for the first of these in that order |
| `BarrageVerdicts.VerdictIs` | apps/backend/src/advx_backend/application/barrage_pipeline.py:57-113 | a candidate is rejected for its first failing content check, then as a duplicate, then for density, each in terms of the full log, and otherwise accepted with its text |
| `BarrageVerdicts.EventsAreClean` | apps/backend/src/advx_backend/application/barrage_pipeline.py:37-138 | every event is timely, for an allowed audience, and its text neither empty, too long nor home to a blocked word |
| `BarrageHistory.DensityBound` | apps/backend/src/advx_backend/application/barrage_pipeline.py:104-118 | of a spaced log, every interval as long as the density window holds at most the allowed number of outputs |
| `BarrageHistory.JudgedKeepsGood` | apps/backend/src/advx_backend/application/barrage_pipeline.py:37-138 | a batch keeps accepted texts spaced and unrepeated and the number of tracked sessions bounded |
| `BarragePipeline.RunsAreBounded` | apps/backend/src/advx_backend/application/barrage_pipeline.py:37-142 | after any sequence of batches and cleared sessions with a clock that never goes back, every interval as long as the density window holds at most the allowed number of a tracked session's outputs, and equal texts are a duplicate window or more than K outputs apart |
| `BarragePipeline.BarragePipeline.Process` | apps/backend/src/advx_backend/application/barrage_pipeline.py:37-138 | the batch checks and the loop over candidates give the verdicts of the unbounded logs |
| `BarragePipeline.BarragePipeline.PruneState` | apps/backend/src/advx_backend/application/barrage_pipeline.py:174-184 | the pruning loops |
| `BarragePipeline.BarragePipeline.StateForAcceptance` | apps/backend/src/advx_backend/application/barrage_pipeline.py:186-193 | the session becomes the most recent one, evicting the oldest if needed |
| `BarragePipeline.BarragePipeline.RecordAcceptance` | apps/backend/src/advx_backend/application/barrage_pipeline.py:195-200 | an acceptance is recorded and the oldest text dropped beyond the limit |
| `BarragePipeline.BarragePipeline.ClearSession` | apps/backend/src/advx_backend/application/barrage_pipeline.py:140-142 | a cleared session's history is forgotten |
| `FrameStore.InMemoryFrameStore.EvictToLimits` | apps/backend/src/advx_backend/application/frame_store.py:182-199 | eviction removes the fewest least recently used unretained frames so that both limits hold, or all of them |
| `FrameStore.EvictedUnique` | apps/backend/src/advx_backend/application/frame_store.py:182-199 | that result is unique |
| `FrameStore.EvictedCounts` | apps/backend/src/advx_backend/application/frame_store.py:182-199 | eviction never touches a retained frame |
| `FrameStore.InMemoryFrameStore.HeldIsStored` | apps/backend/src/advx_backend/application/frame_store.py:147-180 | a frame held by matched retains is still stored |
| `FrameStore.RetainThenRelease` | apps/backend/src/advx_backend/application/frame_store.py:147-180 | a release undoes a retain |
| `FrameStoreLaws.StoredIsResolved` | apps/backend/src/advx_backend/application/frame_store.py:201-208 | a stored frame is available under exactly the reference it was stored with, in its own session, and resolves to what was stored |
| `FrameStoreLaws.EvictsOnlyToFit` | apps/backend/src/advx_backend/application/frame_store.py:182-199 | eviction leaves the store within both limits unless all that is left is retained, and with one frame fewer gone it would not fit |
| `FrameStoreLaws.DropsOldestFirst` | apps/backend/src/advx_backend/application/frame_store.py:182-199 | of two unretained frames the less recently used one goes first |
| `FrameStore.InMemoryFrameStore.Store` | apps/backend/src/advx_backend/application/frame_store.py:82-123 | storing checks size, session and input id, then appends and evicts; byte total and input ids stay exact |
| `FrameStore.InMemoryFrameStore.Resolve` | apps/backend/src/advx_backend/application/frame_store.py:125-145 | only a matching frame is returned, and becomes the most recently used |
| `FrameStore.InMemoryFrameStore.RetainWave` | apps/backend/src/advx_backend/application/frame_store.py:147-165 | a wave is retained as a whole or not at all |
| `FrameStore.InMemoryFrameStore.ReleaseWave` | apps/backend/src/advx_backend/application/frame_store.py:167-180 | matching frames lose one retain each, then the limits are enforced |
| `FrameStore.InMemoryFrameStore.StartSession` | apps/backend/src/advx_backend/application/frame_store.py:63-70 | one session at a time, started empty |
| `FrameSelection.SelectionSound` | apps/backend/src/advx_backend/application/observation_wave_builder.py:20-57 | the selection ascends strictly by time and id, lies in the window and keeps within the limits |
| `FrameSelection.NewestIsCandidate` | apps/backend/src/advx_backend/application/observation_wave_builder.py:30-37 | every frame of the window is represented by the newest with its id |
| `FrameSelection.LatestAreNewest` | apps/backend/src/advx_backend/application/observation_wave_builder.py:46-49 | the latest-N and evenly spaced strategies take the newest candidates |
| `FrameSelection.PeaksRepresent` | apps/backend/src/advx_backend/application/observation_wave_builder.py:60-106 | every candidate of a kept group has a selected representative at least as recent, within the anchor interval, and within 2(1 - threshold) if the two matched the anchor by signature |
| `FrameSelection.KeptAreNewest` | apps/backend/src/advx_backend/application/observation_wave_builder.py:60-87 | the kept groups are the newest of the only cut of the candidates into stretches whose members join their anchor and whose anchors do not join the one before |
| `FrameSelection.PartitionUnique` | apps/backend/src/advx_backend/application/observation_wave_builder.py:60-87 | there is only one such cut |
| `FrameSelection.KeptAreAlike` | apps/backend/src/advx_backend/application/observation_wave_builder.py:60-106 | members of a kept group share their anchor's content or are within the similarity threshold in force, and within the anchor interval, and the next anchor is not |
| `FrameSelection.StrategySelects` | apps/backend/src/advx_backend/application/observation_wave_builder.py:41-57 | under change peaks the newest frame of each kept group is selected, otherwise the newest candidates |
| `FrameSelection.SelectFrameBundle` | apps/backend/src/advx_backend/application/observation_wave_builder.py:20-57 | the selection loop |
| `FrameSelection.SimilarFrameRepresentatives` | apps/backend/src/advx_backend/application/observation_wave_builder.py:60-87 | the grouping loop |
| `VisualSignature.ChangeScoreIsMetric` | apps/backend/src/advx_backend/application/visual_signature.py:49-59 | the score is a metric with values from 0 to 1 |
| `TranscriptQueue.QueueIsSubsequence` | apps/backend/src/advx_backend/application/realtime_broker.py:95-123 | what was read and is queued is an order-preserving part of what was published, within capacity |
| `TranscriptQueue.FinalsSurvive` | apps/backend/src/advx_backend/application/realtime_broker.py:101-123 | a final is given up only by a queue full of finals, for another final, and is the oldest |
| `TranscriptQueue.NoFinalLostIff` | apps/backend/src/advx_backend/application/realtime_broker.py:95-123 | no final is lost iff never more than the capacity were undelivered |
| `TranscriptQueue.PublishTakesOne` | apps/backend/src/advx_backend/application/realtime_broker.py:101-123 | a publish appends its event; only a full queue gives up one entry, its oldest partial or, if all are finals, its oldest |
| `TranscriptQueue.RoomyGetsAll` | apps/backend/src/advx_backend/application/realtime_broker.py:95-123 | a subscriber that always has room gets everything, partials too, in order |
| `TranscriptQueue.RealtimeBroker.PublishTranscript` | apps/backend/src/advx_backend/application/realtime_broker.py:95-99 | every subscriber gets every event, independently of the others |
| `TranscriptQueue.RealtimeBroker.PutTranscript` | apps/backend/src/advx_backend/application/realtime_broker.py:101-123 | draining and refilling a full queue gives up its oldest partial, the newcomer included, or its oldest final |
| `CanonicalJson.CompareUtf16CodeUnits` | apps/desktop/src/shared/backend-client.ts:346-353 | the sign of the comparison is the strict total order of code units |
| `CanonicalJsonProofs.CanonicalTextDecides` | apps/desktop/src/shared/backend-client.ts:323-344 | two values have the same text iff they are equal up to member order |
| `CanonicalJsonProofs.MemberOrderIrrelevant` | apps/desktop/src/shared/backend-client.ts:336-341 | insertion order of object members does not matter |
| `CanonicalJsonProofs.PrintsIff` | apps/desktop/src/shared/backend-client.ts:323-344 | printing fails exactly on non-finite numbers and unsupported values |
| `CanonicalJsonProofs.UnescapeEscape` | apps/desktop/src/shared/backend-client.ts:326-326 | an escaped string reads back as itself |
| `CanonicalJsonProofs.TextInjective` | apps/desktop/src/shared/backend-client.ts:323-344 | a printed value can be told apart from every other, whatever text follows |
| `CanonicalJsonForm.ObjectText` | apps/desktop/src/shared/backend-client.ts:337-342 | an object is printed between braces, members in the order of their keys' code units, with colons and commas |
| `CanonicalJsonForm.ArrayText` | apps/desktop/src/shared/backend-client.ts:334-336 | an array is printed between brackets, items in order with commas |
| `CanonicalJsonForm.StringText` | apps/desktop/src/shared/backend-client.ts:326-326 | a string is printed between quotation marks, unit by unit: plain units and surrogate pairs as they are, others by their short or hexadecimal escape |
| `CanonicalJsonForm.IntegerText` | apps/desktop/src/shared/backend-client.ts:327-333 | an integer is printed in its decimal digits without leading zeros, with a minus sign if negative |
| `CorpusRecords.CanonicalIsChosen` | scripts/sb6657_corpus_common.py:18-26 | the canonical form is the ascending sequence of the chosen records, one per text |
| `CorpusRecords.PermutationInvariant` | scripts/sb6657_corpus_common.py:18-26 | input order and repetitions do not matter |
| `CorpusRecords.Idempotent` | scripts/sb6657_corpus_common.py:18-26 | canonicalising twice changes nothing |
| `CorpusRecords.Absorption` | scripts/sb6657_corpus_common.py:18-26 | canonicalising part of the input first changes nothing |
| `CorpusRecords.KeepsMostCopied` | scripts/sb6657_corpus_common.py:72-74 | every text is kept once, with a record of maximal count |
| `CorpusRecords.FieldsDecide` | scripts/sb6657_corpus_common.py:59-74 | by the raw fields: a count that is absent, unreadable, zero or negative loses to every positive one, and between equal counts an id that is no integer loses to every integer below 2^63 - 1 |
| `CorpusRecords.ChoiceKeyOrder` | scripts/sb6657_corpus_common.py:72-74 | the choice key orders by count, then id, then line, and identifies a record of its text |
| `CorpusRecords.SortKeyOrder` | scripts/sb6657_corpus_common.py:26-26 | the output order is that of the tuple of text and id |
| `CorpusRecords.OutputIsCanonical` | scripts/sb6657_corpus_common.py:29-36 | the same laws for the output text |
| `CorpusRecords.JsonlRoundTrip` | scripts/sb6657_corpus_common.py:29-32 | reading the output back gives its lines |
| `CorpusRecords.CollectCanonicalRecords` | scripts/sb6657_corpus_common.py:18-26 | the collection loop |

## Left out

- ReactionSchedulerSafety.StepKeepsInv: takes the worker's exit, and the end of a preserved execution, as one step each; the exit's two halves are treated in ReactionSchedulerExit, one gap at a time.
- ReactionSchedulerSafety.RunsKeepInv: does not model cancellation of the session's tasks from outside `cancel_session`, such as a task cancelled before its first step.
- ReactionSchedulerClass.LatestWinsReactionScheduler.WorkerTurn: the sleep until a merge deadline is not timed; a worker may take the pending item at any moment, which allows every run the timed code has.
- ReactionSchedulerClass.LatestWinsReactionScheduler.Submit: schedules and items are values with identity numbers kept in maps, so updates through aliases are modelled by their identity checks; the merge window in force and whether a task can be started are inputs.
- The executor, its deadline, its failure reports, and `wait_for_idle`: an execution ends with some result or none.
- IngestSettlements.SettledInputReplays: speaks of replays by reservation; a stage settled a second time under the same id (possible when a cleared connection's call is still running) may record another receipt.
- IngestInputTable.InputTable.Reserve: the check that the session is active comes first, changes nothing and is not modelled; fingerprints are inputs, so hashing is not modelled.
- CoordinatedTurnsProofs.ScheduledAsComplete: timers may fire at any moment after they are started, and a cancelled task does not act any more, as cancellation happens before the canceller can be suspended.
- CoordinatedTurnsLiveness.NoTurnIsStuck: is about one session id, which may stop and start again; transcripts of a session end with the task that a stop cancels, so those of another session never complete its turns.
- Which committed audio a transcript belongs to, revisions and resent transcripts: a transcript may complete any turn.
- Overlapping commits of one input while the first still awaits speech recognition.
- VoiceCooldown.CooldownBetween: measures the clock readings the calls made; outside window-batch mode and with a cooldown above zero. The sleep of a flush task lasts at least to its deadline. A run ends with its session.
- VoiceCooldown.HandedOnOnce: assumes that no event id is submitted twice.
- Window batches, the ambient timer, screen triggers and uncoordinated voice turns of the ingest service.
- RuntimeStateStore.RuntimeStateStore.Activate: a spec is its room, its active namespace and the rest as one value; the durable commit either succeeds or fails.
- EffectBoundary.HoldingFreezes: is about one session, as sessions have separate locks; the short inner lock is implied, since everything it guards happens within the effect boundary or without suspension.
- ProviderGeneration.ClosesOnce: a task told to close may be delayed but not lost; cancellation while waiting for the lock is not modelled. Building and choosing generations is left to the controller, which is not modelled.
- `provider_lease` of the runtime state, which leases the active runtime's generation after checking epoch and acceptance.
- BarragePipeline.BarragePipeline.Process: stripping and case folding of Unicode are inputs; session eviction forgets the history, as in the code.
- FrameStore.InMemoryFrameStore.Store: frame ids are assumed new; change scores, signatures and the last ingested body are not kept.
- FrameSelection.PeaksRepresent: scores and thresholds are real numbers, without rounding.
- CanonicalJsonProofs.CanonicalTextDecides: numbers are integers up to 2^53 in magnitude, where every integer is exact, negative zero and non-finite values; the shortest decimal form of other doubles is not modelled.
- CorpusRecords.CanonicalIsChosen: a record is its text, id, count and canonical line; how Python prints the line is an input, and an infinite count, on which `int` raises, is excluded.
- Reading and writing files, UTF-8, and the digest of the corpus.
- The other fan-out queues of the broker, which keep the latest entries, and unsubscribing.
- HTTP, WebSocket, Electron, tray and overlay code, SQLite, speech and model providers: plumbing or foreign calls.
