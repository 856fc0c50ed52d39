# Verified model of the alert evaluation service

This project models the part of the alert service that decides which alerts exist: the rule
language and its incremental market features, the per-partition evaluation engine, the checkpoint
and alert log it commits to, and the protocols around it (partition leases, broker batches,
scheduled definitions). It proves what every run of them keeps.

## How the model is laid out

| Files | What they model |
|---|---|
| `Model`, `Wrappers`, `Keys`, `Routing` | values, text keys and when they can be taken apart, routes |
| `Rules`, `RuleAlgebra`, `RuleMeanings` | validation, dependency masks, three-valued evaluation, feature advance; what trees and single leaves mean |
| `SeriesMachine` | the specification: one series as a pure machine over inputs and commits |
| `BatchBoundaries`, `DefinitionView`, `Redelivery`, `Cadences`, `ResetReplay`, `Triggering`, `Alerting`, `FeatureHistory`, `Baselines`, `Counterexamples` | theorems about whole runs of that machine |
| `Features`, `PartitionCells`, `BatchEvaluation`, `BatchCommit`, `Engine` | the engine itself: objects, overlay maps, feature tables written in place, proved to compute every series' machine |
| `Recovery`, `Sharding`, `Sequential`, `Identity`, `CrashRecovery`, `Fleet` | what the store rebuilds, whole deployments, their log as one sequence and what it leaves out, restarts and lost replies, and fleets of engine objects on one store |
| `AlertLog`, `MemoryStore`, `Outbox` | the repository, paging, the publisher's drain loop |
| `DefinitionIndexing`, `Activation` | the definition index and its scheduled changes |
| `Leases`, `Workers`, `Broker`, `Losses`, `Service` | lease rows with expiry, the processes that rely on them, batch disposition, what consuming can lose, the gate in front of the engine |

`SeriesMachine.Run` is the reference everything meets in. `Engine.EvaluateBatch` is proved to leave
each series where that machine goes (`PartitionMoves`, `StoreMoves`) and to emit what it emits
(`Emitted`); the run theorems are then about the machine alone. `Fleet.RunFleet` closes the circle:
any number of engine objects on one repository, whose replies get lost and whose workers stop and
start again, go through a run of `CrashRecovery.Arrives`, which the theorems about clusters and
deployments speak of; `Fleet.FleetsAgree` draws the conclusion for two fleets.

Times are integers in nanoseconds and 0 is the zero time. Prices are reals. The partition hash is
an arbitrary function. An alert ID is the pair of definition and source event it is derived from.

## What the source does differently from its documentation

* `docs/architecture.md` lists indicator baselines among the series state a partition keeps. As
  written, `cloneFeatureState` copies the map it has just emptied, so every clone drops them
  (internal/runtime/engine.go:489-494). The model keeps that behaviour (`AsWritten`). Where a
  theorem compares different batch boundaries it asks for `CloneSafe`: no `price_crosses_indicator`
  leaf, or the value-equal clone (`AsIntended`), which only theorems mention.
  `CrossSurvivesExactlyWhenUnknown`, `NoCrossAtTheStartOfABatch` and `CrossIsLostBetweenBatches`
  say what the loss costs; among validated leaves the crosses are exactly those that see batch
  boundaries (`LeafBoundariesExactly`).
* A reset takes trigger times from the partition, not from the batch overlay
  (internal/runtime/engine.go:273), so an alert of the same series earlier in the same batch is
  forgotten. `Clean` excludes exactly the runs with an accepted reset behind such an alert;
  `ResetSeesTheBoundaryExactly` gives the exact condition and `ResetForgetsAnAlertOfItsOwnBatch` a run.
* Setting a definition to the flag it already has switches it the other way until the new boundary
  (`TogglesMustAlternate`).
* An event older than the boundary before the last one can be decided against the schedule: it is
  exactly when an even number of boundaries the replica has seen still lie ahead of it
  (`DecidesExactly`, `OldEventsExactly`).
* `docs/architecture.md:121-123` says that overlapping workers cannot evaluate a series concurrently.
  The evaluation never consults the lease: a worker runs from a heard grant until it hears a refusal.
  Workers that heard of a success less than a TTL ago exclude each other (`OverlapExactly`, both
  ways); one that has heard nothing for a TTL can run beside its successor (`TwoEvaluatorsAfterTheTtl`).
  When a server fails, the deferred release runs before the consumers are cancelled
  (cmd/alertsd/main.go:60, 99-102), so the leases are free while they still run: then a successor needs
  no TTL to pass (`TwoEvaluatorsAfterARelease`).
* The consumer is created with the acknowledge-all policy (internal/broker/jetstream.go:200), so the
  acknowledgement of a batch also settles every earlier message still in the stream, whether the sink
  saw it or not. `LostExactly` says for every combination of replies when an input leaves without a
  copy and without the sink having taken it. The code gets there by itself: the sink refuses a message,
  which is handed out again a second later (internal/broker/jetstream.go:257); a fetch within that
  second returns the next message alone, the sink takes it, and the first is gone, although every
  request was answered (`RefusedThenOvertaken`). Nothing is lost when a termination settles its one
  message and every batch starts at the acknowledgement floor, that is, everything in the stream up to
  its last message was fetched with it (`NoInputIsLost`, `FloorRunsLoseNothing`), and without the floor
  something can be (`FloorExactly`).
* The consumer terminates poison messages before it asks the sink. If the broker takes a termination
  to settle everything up to its message, that too can lose earlier decoded messages
  (`TerminationCanLose`).
* The drain loop of the publisher, over the in-memory outbox, does not end while a full claim of alerts
  keeps failing (`DrainEndsExactly`). The Postgres outbox defers an alert that was claimed or has failed
  (internal/store/postgres.go:509, 532-534), so there the loop does not meet it again in the same drain.

## Model

| member | source | states |
|---|---|---|
| `Engine.Engine.EvaluateBatch` | internal/runtime/engine.go:216-396 | Which of the four errors is returned and when; a failed batch leaves partition and store as they were, except that a commit whose reply is lost has moved the store alone; success moves every series' cell, in the partition and in the store, as that series' own machine moves, appends exactly the emitted alerts, touches no other partition, and keeps the live state equal to what the store would rebuild |
| `Engine.Engine.Initialize` | internal/runtime/engine.go:70-100 | Which of the three errors is returned and when: definitions not read, not compiled, or checkpoints not read; any error leaves the partitions alone, the last one after the definitions were replaced; otherwise the routes are those of the list, and a blank engine ends with every owned partition equal to its reconstruction from the store and all others empty |
| `Engine.Engine.NewWithOwnership` | internal/runtime/engine.go:55-68 | Nonsensical counts become 1; the partitions are distinct and empty |
| `BatchEvaluation.EvaluateInputs` | internal/runtime/engine.go:234-366 | The batch loop over its overlay maps, with deletions, fallbacks and feature tables written in place, tracks every series' machine; a stray observation ends it in the middle; either way nothing that existed before changes |
| `BatchEvaluation.TakeReset` | internal/runtime/engine.go:251-291 | The reset branch yields the replayed state and the truth edges, with new feature tables |
| `BatchEvaluation.TakeInput` | internal/runtime/engine.go:293-365 | The ordinary branch evaluates every applicable definition and advances one cadence in place, without touching the definition states of other series |
| `BatchEvaluation.CloneState` | internal/runtime/engine.go:230-242 | A series is cloned before it is worked on; the clone shares no feature table with the partition |
| `BatchCommit.CommitAndFold` | internal/runtime/engine.go:368-395 | The repository takes the overlay whole or not at all, and only a heard commit is folded into the partition |
| `BatchCommit.Repository.CommitRuntimeBatch` | internal/runtime/engine_test.go:179-189 | The repository with injected failures: a refusal changes nothing, a lost reply has the whole effect |
| `BatchCommit.CellsAdvance` | internal/runtime/engine.go:377-394 | Folding and saving an overlay commit every series at once, resets included |
| `BatchEvaluation.MovingKeepsTrack` | internal/runtime/engine.go:227-366 | One input moves its own series' share of the overlay and no other series' share |
| `PartitionCells.SeriesShare` | internal/runtime/engine.go:216-396 | A series' share of a batch's alerts is what its own inputs alone emit |
| `Features.Advance` | internal/rules/evaluator.go:320-356 | Advancing in place computes the specified feature value, keeps the table it was given, and leaves every key with the value of its last ready indicator, or with what it had when none is ready |
| `Features.CloneFeature` | internal/runtime/engine.go:484-498 | The clone as written: everything but the indicator baselines, in a table of its own |
| `Features.CloneSeries` | internal/runtime/engine.go:500-505 | Both cadences are cloned into separate new tables |
| `SeriesMachine.RunConcat` | internal/runtime/engine.go:216-396 | Running two stretches one after the other is running them together |
| `BatchBoundaries.BatchBoundariesAreInvisible` | internal/runtime/engine.go:227-394 | For one series, two reset-clean ways of cutting the same inputs into batches emit the same alerts and leave states no later input can tell apart |
| `BatchBoundaries.CommittedRunsEndInTheSameCell` | internal/runtime/engine.go:227-394 | ... and the very same committed cell |
| `BatchBoundaries.RunsFoldTheSingleStep` | internal/runtime/engine.go:216-396 | Any reset-clean batching equals evaluating the inputs one by one |
| `BatchBoundaries.ResetSeesTheBoundaryExactly` | internal/runtime/engine.go:263-276 | Committing right before a reset changes the definition states it leaves exactly when an uncommitted trigger memory differs from the committed one |
| `Counterexamples.ResetForgetsAnAlertOfItsOwnBatch` | internal/runtime/engine.go:273 | A run that alerts twice inside its cooldown in one batch and once in two |
| `Counterexamples.NoCrossAtTheStartOfABatch` | internal/runtime/engine.go:484-505 | The first observation of a series in a batch never knows an indicator cross |
| `Counterexamples.CrossIsLostBetweenBatches` | internal/runtime/engine.go:484-505 | For every validated cross leaf, a cross that alerts inside one batch and is missed across two |
| `Counterexamples.LeafBoundariesExactly` | internal/runtime/engine.go:484-505 | Batch boundaries are invisible to a validated leaf exactly when it is not an indicator cross |
| `Sharding.SeriesRunAlone` | internal/runtime/engine.go:200-396 | In any deployment each series' cell and its share of the alerts are those of its own machine; other series never interfere |
| `Sharding.ShardingRefinesOneMachine` | internal/runtime/engine.go:200-396 | Two deployments with any hashes, partition counts, owners and reset-clean batches that see a series' observations in the same order leave it in the same cell with the same alerts, those of one sequential machine |
| `Identity.ShardingKeepsTheSharesOfTheLog` | internal/store/memory.go:151-167 | ... and, when every source event is of one series, the same subsequence of the deduplicated alert log up to its cursors |
| `Sequential.DeploymentIsSequential` | internal/runtime/engine.go:216-396 | Everything a deployment offers to the log, across all series and partitions, is what evaluating the whole stream one observation at a time offers, in that order |
| `Sequential.OneStreamOneLog` | internal/store/memory.go:151-167 | Two deployments of any layouts that commit the same stream in any reset-clean batches have the identical log, order and cursors included |
| `Sequential.OneStreamOneDeployment` | internal/runtime/engine.go:227-394 | ... and, with one layout, identical partitions |
| `Sequential.CuttingABatchChangesNothing` | internal/runtime/engine.go:227-394 | A reset-clean batch leaves partitions and log, cursors included, as committing any first part of it and then the rest; cleanness of the parts follows |
| `Identity.IdsTellOccasions` | internal/runtime/engine.go:340 | Two alerts a deployment offers have one ID exactly when they are of one definition and one source event; each is of an observation of the stream and of a definition its series meets |
| `Identity.LogKeepsFirstOffers` | internal/store/memory.go:151-167 | The log of any deployment is the first offer of every definition and source event, in order, numbered from one and otherwise unchanged |
| `Identity.NothingIsSuppressed` | internal/store/memory.go:151-167 | Where source events are delivered once and definitions are unique the log has every alert ever offered |
| `Identity.StepIdentifies` | internal/runtime/engine.go:306-353 | The alerts of one input are of the definitions its series meets, in their order and at most one of each |
| `Sharding.AtLeastOnceActsOnce` | docs/architecture.md:92-98 | A deployment handed observations again in any later batches ends like one handed each of them once |
| `Redelivery.RedeliveryIsHarmless` | internal/runtime/engine.go:243-250 | If resets never move the cursor back, repeating processed inputs anywhere later changes no state and adds no alert |
| `Redelivery.AcceptedExactly` | internal/runtime/engine.go:243-250 | After any run a reset is accepted exactly when its ID is not that of the last accepted reset and it occurred later; any other input exactly when it opens later than the last accepted one, or is of the same bar and a higher revision, or of the same revision and the close after a provisional frame |
| `Redelivery.AcceptanceMovesForward` | internal/runtime/engine.go:444-468 | Accepted inputs strictly increase the cursor of open time, revision and being confirmed; accepted resets strictly increase the reset time |
| `Redelivery.ResetReopensExactlyWhatLiesAhead` | internal/runtime/engine.go:243-291 | After a reset an input is accepted exactly when it lies ahead of the reset's position |
| `ResetReplay.ResetForgets` | internal/runtime/engine.go:251-291 | A reset emits nothing and leaves the same series state whatever came before |
| `ResetReplay.ResetEqualsCleanReplay` | internal/runtime/engine.go:251-291 | After a reset every later run without resets equals that of a fresh engine fed the history as plain bars and then the frame |
| `Cadences.IntrabarTrafficDoesNotInterfere` | internal/runtime/engine.go:293-363 | Deleting all provisional inputs leaves confirmed features, confirmed truth edges and the alerts of confirmed_close definitions identical |
| `Triggering.AlertsCountTrueRuns` | internal/runtime/engine.go:320-349 | An edge-triggered definition alerts once per maximal run of true evaluations, counted per cadence |
| `Triggering.EdgeStep` | internal/runtime/engine.go:470-482 | ... exactly at the rising edges |
| `Alerting.AlertsExactly` | internal/runtime/engine.go:306-353 | Over any run without resets the alerts of a definition report, field by field and in order, exactly the evaluations chosen from the evaluations alone: true ones that the trigger mode allows and the cooldown no longer holds back |
| `Alerting.OncePerBarExactly` | internal/runtime/engine.go:470-482 | Without resets and cooldown the bars of a once_per_bar definition's alerts are exactly the bars on which it was evaluated to true, and each alert reports the first such evaluation |
| `Alerting.CooldownExactly` | internal/runtime/engine.go:322-351 | After any such run the next evaluation of an every_match definition alerts exactly when it is true and there is no cooldown, no alert yet, or the last alert lies a cooldown back |
| `Triggering.OncePerBarHolds` | internal/runtime/engine.go:470-482 | Without resets, with any cooldown, a once_per_bar definition alerts on strictly increasing bars, both cadences together |
| `Triggering.CooldownHolds` | internal/runtime/engine.go:322-351 | Successive alerts are at least the cooldown apart, even when event times go back and across reset-clean resets |
| `Triggering.CooldownBoundsWindows` | internal/runtime/engine.go:322-351 | Over any such run a window of length T holds at most T / cooldown + 1 of the definition's alerts |
| `FeatureHistory.FeaturesRefineHistory` | internal/rules/evaluator.go:320-356 | After any run the stored colours and candles are the tails of the unbounded history since the last reset, and the forming colour that of the current bar's frames |
| `FeatureHistory.ColorsMatchCandles` | internal/rules/evaluator.go:333-343 | The stored colours are those of the latest stored candles |
| `FeatureHistory.StreaksSeeTheWholeHistory` | internal/rules/evaluator.go:258-269 | A validated streak rule answers exactly as if it scanned the unbounded history |
| `FeatureHistory.FlipsSeeTheWholeBar` | internal/rules/evaluator.go:270-291 | A flip rule answers exactly as if it scanned all frames of the bar, and is unknown exactly when the colour turns in a bar of unknown length |
| `FeatureHistory.ZonesAreInherited` | internal/runtime/engine.go:293-360 | After any run a provisional frame without zones is evaluated with the zones of the last accepted input that brought some, a reset replacing them in any case; every other observation as it is |
| `Baselines.BaselinesRefineReadings` | internal/rules/evaluator.go:320-331 | After any run the baselines of each cadence are the last ready values of the observations since the last clone that dropped them |
| `Baselines.CrossesSeeTheRun` | internal/rules/evaluator.go:292-316 | After any run a cross is true of the next observation exactly when the cadence's last close lay on one side of the last ready reading, or on it, the new close lies strictly beyond the first ready value on the other, and the direction fits |
| `RuleAlgebra.AllIsConjunction` | internal/rules/evaluator.go:189-200 | The truth of `all` is the conjunction of its children's truths |
| `RuleAlgebra.AnyIsDisjunction` | internal/rules/evaluator.go:201-212 | The truth of `any` is the disjunction of its children's truths |
| `RuleAlgebra.DoubleNegation` | internal/rules/evaluator.go:213-219 | Two negations keep known and matched |
| `RuleAlgebra.DeMorganAny` | internal/rules/evaluator.go:187-219 | De Morgan for `any` of negated children, with the exact condition on unknown children |
| `RuleAlgebra.DeMorganAll` | internal/rules/evaluator.go:187-219 | De Morgan for `all` of negated children, with the exact condition on unknown children |
| `RuleAlgebra.KnowledgeIsMonotone` | internal/rules/evaluator.go:187-318 | When unknown leaves of a tree become known, through features or through the observation, known trees stay known, negations included |
| `RuleAlgebra.NegationFreeIsMonotone` | internal/rules/evaluator.go:187-318 | ... and a true negation-free tree stays true |
| `RuleAlgebra.CrossSurvivesExactlyWhenUnknown` | internal/rules/evaluator.go:292-316 | Without baselines a cross is unknown; that changes nothing exactly when it was unknown before |
| `RuleAlgebra.LostBaselinesOnlySilence` | internal/rules/evaluator.go:292-316 | Losing baselines never makes a negation-free rule true |
| `RuleAlgebra.MasksAreSound` | internal/rules/evaluator.go:130-155 | Inputs that agree on what a rule's mask stands for evaluate identically |
| `RuleAlgebra.SkippedRulesIgnoreTheFrame` | internal/runtime/engine.go:307-309 | The verdict of a definition skipped on a provisional frame does not depend on the frame's candle, indicators or features |
| `RuleAlgebra.FactsComeFromTheObservation` | internal/rules/evaluator.go:187-318 | Every reported fact is an element of the observation |
| `RuleMeanings.FactsOfMatchingChildren` | internal/rules/evaluator.go:189-212 | all and any report a fact exactly when a matching child does |
| `RuleMeanings.NegationsReportNothing` | internal/rules/evaluator.go:213-219 | A negation that matches reports no facts |
| `RuleMeanings.HitsExactly` | internal/rules/evaluator.go:220-230 | A zone leaf matches exactly when a transition of its kind, transition (a touch by default) and side is there, and reports the first |
| `RuleMeanings.NearExactly` | internal/rules/evaluator.go:231-247 | A near leaf matches exactly when a positive close lies strictly outside an active zone of its kind and side by at most the distance in basis points of the close, and reports the first |
| `RuleMeanings.PatternExactly` | internal/rules/evaluator.go:248-254 | A pattern leaf matches exactly when a pattern of its kind and side is there, and reports the first |
| `RuleMeanings.ColorExactly` | internal/rules/evaluator.go:255-257 | Red closes below its open, green above, a doji on it |
| `RuleMeanings.PulseExactly` | internal/rules/evaluator.go:173-185 | A rule is a pulse exactly when a leaf that no negation hides is an occurrence |
| `RuleMeanings.RequiresIntrabarExactly` | internal/rules/evaluator.go:16-29 | A rule needs intrabar frames exactly when it contains a colour flip anywhere, in fields that are not evaluated too |
| `RuleMeanings.ValidatedExactly` | internal/rules/evaluator.go:31-100 | A rule passes validation exactly when it has at most nine levels and every evaluated node is well-formed by itself |
| `RuleMeanings.MaskExactly` | internal/rules/evaluator.go:130-155 | The mask of a validated rule has exactly the bits its leaves read |
| `RuleMeanings.AppliesExactly` | internal/runtime/engine.go:307-312 | A compiled definition is evaluated exactly when the schedule has it on, its mode takes the status, and, on a provisional frame, some leaf reads more than zone events and patterns |
| `RuleAlgebra.ValidatedVisits` | internal/rules/evaluator.go:31-100 | A validated rule visits at most (20^9 - 1) / 19 nodes |
| `Keys.SeriesKeyRoundTrip` | internal/runtime/engine.go:206-214 | A series is read back from its key exactly when dataset and symbol have no slash |
| `Keys.CheckpointsStayPutExactlyWhenSlashFree` | internal/runtime/engine.go:200-214 | A checkpoint is looked up in the partition that wrote it, under every hash, exactly when dataset and symbol have no slash |
| `Keys.OtherKeysAreSpread` | internal/runtime/engine.go:206-214 | A key without two separators is hashed as it is |
| `Keys.DefinitionKeyRoundTrip` | internal/store/store.go:65-67 | The series of a definition state is recovered exactly when the definition ID has no bar |
| `Keys.RouteKeyIsInjective` | internal/runtime/engine.go:411-413 | NUL-free series have different route keys |
| `Recovery.LiveEqualsReloaded` | internal/runtime/engine.go:70-100 | A partition equal to its reconstruction stays equal to it over a batch of its own |
| `Recovery.OthersBatchesAreNotSeen` | internal/runtime/engine.go:368-395 | A batch of another partition does not change what the store would rebuild |
| `CrashRecovery.RestartsAreInvisible` | docs/architecture.md:92-98 | Over any run of a cluster, rebuilding partitions from the store at any points leaves no trace |
| `CrashRecovery.OneStreamOneCluster` | docs/architecture.md:92-98 | Two clusters that commit the same stream, with any reset-clean batches and restarts, have the same partitions, log and rebuilt store |
| `CrashRecovery.RetryingMoreActsOnce` | internal/broker/jetstream.go:184 | After a commit that took effect unheard, committing its inputs together with any that follow, as redelivery may cut them, ends like one heard commit of all of them: partitions, store and log |
| `CrashRecovery.RetryingActsOnce` | docs/architecture.md:92-98 | Retrying a batch whose commit took effect unheard leaves partitions, store and log as one heard commit |
| `CrashRecovery.UnheardTwiceIsUnheard` | docs/architecture.md:92-98 | A second unheard commit of the same batch changes nothing |
| `CrashRecovery.RestartHearsTheCommit` | internal/runtime/engine.go:70-100 | Rebuilding the partition after an unheard commit is itself a heard commit of the batch, and every partition stays what the store rebuilds |
| `CrashRecovery.NothingAcceptedNothingChanged` | internal/runtime/engine.go:243-250 | A batch none of whose inputs is accepted leaves partitions, store and offered alerts as they are |
| `Fleet.RunFleet` | cmd/alertsd/main.go:41-75 | Engine objects on one repository, batches at any of them tried against any replies until heard, workers that stop after any tries and start anew: partitions, store and log end where the run of the cluster ends that counts each batch once of which some commit took effect |
| `Fleet.LaunchFleet` | internal/runtime/engine.go:55-100 | A fleet of any size starts on an empty store, exactly when definitions and checkpoints can be read and all definitions compile |
| `Fleet.Resume` | internal/runtime/engine.go:55-100 | A fleet of any size starts on the store that a run of any cluster has left, and goes on from there |
| `Fleet.RestartWorker` | internal/runtime/engine.go:70-100 | One worker is replaced by a new engine initialized from a store that is in use; the fleet shows the same cluster |
| `Fleet.TryAll` | internal/runtime/engine.go:368-376 | After any failed and unheard tries of a batch the partitions are where they were, and store and log there or one commit ahead; a heard one has the effect of one commit |
| `Fleet.FleetsAgree` | docs/architecture.md:92-98 | Two fleets of engine objects, of any numbers of workers, that commit the same stream in any reset-clean batches, with any replies lost and any restarts, hold the same partitions and the same log |
| `MemoryStore.Memory.CommitRuntimeBatch` | internal/store/memory.go:132-168 | The new store in full: merged checkpoints, reset series dropped first, inbox, alerts appended without duplicate IDs |
| `MemoryStore.Memory.LoadRuntimeStates` | internal/store/memory.go:119-130 | The snapshot is the whole committed state |
| `MemoryStore.Memory.ListAlerts` | internal/store/memory.go:177-190 | A page is the first alerts behind the cursor, up to the limit |
| `MemoryStore.Memory.ClaimPending` | internal/store/memory.go:191-204 | A claim is the first pending alerts, up to the limit |
| `MemoryStore.Memory.MarkPublished` | internal/store/memory.go:205-215 | Exactly the alert with the ID is marked; an unknown ID is reported |
| `MemoryStore.Memory.AcquirePartitions` | internal/store/memory.go:220-232 | All partitions are taken or none |
| `MemoryStore.FreeExactly` | internal/store/memory.go:220-232 | A request fails exactly when another owner is on record for one of its partitions |
| `MemoryStore.ClaimedExactly` | internal/store/memory.go:220-232 | A granted request puts its owner on record for what it named and changes nothing else |
| `MemoryStore.Memory.ReleasePartitions` | internal/store/memory.go:236-245 | Exactly the owner's leases go |
| `AlertLog.AppendingKeepsDense` | internal/store/memory.go:151-167 | Over any commits IDs stay unique and the i-th alert has cursor i |
| `AlertLog.AppendingIsIdempotent` | internal/store/memory.go:151-167 | Offering logged alerts again adds nothing |
| `AlertLog.PagingEnumerates` | internal/store/memory.go:177-190 | Paging by last cursor with any positive limit lists every alert once, in order |
| `AlertLog.UnlimitedPages` | internal/store/memory.go:177-190 | A limit that is not positive is none |
| `Outbox.Drain` | internal/service/service.go:314-338 | Over the in-memory outbox the drain loop publishes every alert that does not fail once, in cursor order, marks exactly those, and ends |
| `Outbox.DrainEndsExactly` | internal/store/memory.go:191-216 | With the in-memory outbox and a persistently failing publisher it ends exactly when fewer alerts fail than one claim holds |
| `DefinitionIndexing.DefinitionIndex.ReplaceDefinitions` | internal/runtime/engine.go:112-130 | Every route becomes the sorted compiled definitions of its key, repetitions included, or nothing changes; a list without repeated IDs becomes a table |
| `DefinitionIndexing.DefinitionIndex.UpsertDefinition` | internal/runtime/engine.go:161-180 | In the route of its series the first entry with the ID is replaced in place, or the definition is added in order; other routes stay; nothing changes when it does not compile |
| `DefinitionIndexing.UpsertKeepsTableExactly` | internal/runtime/engine.go:161-180 | The index remains one entry per ID exactly when the ID is new or keeps its route |
| `DefinitionIndexing.DefinitionIndex.RemoveDefinition` | internal/runtime/engine.go:182-198 | Every route loses exactly the entries with the ID, and empty routes go |
| `DefinitionIndexing.DefinitionIndex.DefinitionsFresh` | internal/runtime/engine.go:135-141 | Without a limit the cache always counts as fresh, otherwise exactly when it was refreshed at all and its age is within the limit |
| `DefinitionIndexing.LookupIsAScan` | internal/runtime/engine.go:398-409 | A lookup yields each definition whose selector matches, and no other, exactly once |
| `DefinitionIndexing.TextOrderExactly` | internal/runtime/engine.go:112-130 | The order routes are sorted in: the first difference of two IDs decides, and a beginning comes first |
| `Activation.DecidesExactly` | internal/runtime/engine.go:422-431 | When a replica's decision meets the schedule, for every event and every cache age |
| `Activation.ReplicasAgree` | docs/architecture.md:108-112 | Replicas whose caches are within the staleness decide alike about every recent event |
| `Activation.SafeStalenessExactly` | internal/config/config.go:55-57 | A staleness is safe for all schedules exactly when it does not exceed the activation delay |
| `Activation.OldEventsExactly` | internal/runtime/engine.go:422-431 | An event before the latest seen boundary is decided against the schedule exactly when an even number of seen boundaries, two or more, lies ahead of it |
| `Activation.TogglesMustAlternate` | internal/service/service.go:182-188 | A toggle keeps the decisions up to its boundary exactly when it changes the flag |
| `Service.ValidateObservation` | internal/service/service.go:273-302 | What passes validation is what the run theorems assume of an input |
| `Service.AdmittedExactly` | internal/service/service.go:273-302 | ... and exactly the observations with a complete envelope, a known status, no provisional reset, and prices, indicators and history in order pass |
| `Service.CreatedDefinitionsAreUsable` | internal/service/service.go:136-178 | A created definition compiles, meets the frames its rule needs, and is on exactly from its boundary |
| `Service.CreatedExactly` | internal/service/service.go:136-178 | Exactly which requests create a definition, and what it carries, defaults included |
| `Service.AlertService.IngestBatch` | internal/service/service.go:215-248 | Stale caches and invalid observations are refused before the engine; what reaches it commits whole or not at all |
| `Leases.LeaseTable.AcquirePartitions` | internal/store/postgres.go:572-606 | All requested rows are taken or none; empty and repeated requests are errors |
| `Leases.LeaseTable.RenewPartitions` | internal/store/postgres.go:608-612 | Whatever rows are still owned are extended; success exactly when that is all of them |
| `Leases.LeaseTable.ReleasePartitions` | internal/store/postgres.go:622-625 | Exactly the owner's rows go |
| `Workers.LeasesAreSafe` | internal/store/postgres.go:572-625 | Over all interleavings of joins, acquisitions, renewals, releases, stops and ticks, heard or not, a process with an unexpired claim is the recorded owner |
| `Workers.ClaimsNeverOverlap` | internal/store/postgres.go:572-625 | No partition has unexpired claims of two processes |
| `Workers.RefusedExactly` | internal/store/postgres.go:572-606 | A request for some distinct partitions is refused exactly when another process holds a lease on one of them that has not run out |
| `Workers.RunsExactly` | cmd/alertsd/main.go:47-136 | After any actions a worker runs a partition exactly when it heard of a grant for it and since then has neither stopped nor heard of a refusal, whatever became of its leases |
| `Workers.OverlapExactly` | cmd/alertsd/main.go:117-136 | Workers that run from a heard grant until they stop, and all the while held leases they had heard of at most g ago, never run one partition together exactly when g is less than the TTL; a worker that has released its leases holds none |
| `Workers.OneEvaluatorPerSeries` | cmd/alertsd/main.go:47-58 | While every running worker has heard of its leases within the TTL no series has two evaluators, even if workers disagree about their count |
| `Workers.TwoEvaluatorsAfterTheTtl` | docs/architecture.md:121-123 | Otherwise any series can have two: a run in which a worker goes on after its lease was taken over |
| `Workers.TwoEvaluatorsAfterARelease` | cmd/alertsd/main.go:60-102 | ... and a run in which a worker goes on after it released its leases itself, without any time passing |
| `Workers.SurvivesExactly` | cmd/alertsd/main.go:117-136 | A worker whose renewals follow its acquisition and each other by at most a gap is never refused and never stops, whatever the others do, exactly when the gap is shorter than the TTL |
| `Workers.MissedTicksExactly` | internal/config/config.go:80-82 | For intervals: m ticks missed in a row, after an acquisition or a renewal, are always survived and exclude overlap exactly when m + 1 intervals are shorter than the TTL; the configured interval allows for one |
| `Broker.Consumer.ConsumeBatch` | internal/broker/jetstream.go:220-264 | The loops over messages and requests compute the specified disposition for every combination of replies |
| `Broker.Consumer.DeadLetter` | internal/broker/jetstream.go:281-298 | A message is terminated only after its copy was published |
| `Broker.ConsumedExactly` | internal/broker/jetstream.go:220-264 | For every combination of replies and either kind of termination: exactly which messages leave the stream, which are copied, and what the sink receives |
| `Losses.LostExactly` | internal/broker/jetstream.go:200-298 | Over every combination of replies and either kind of termination, an input leaves the stream without a copy and without the sink having taken it exactly when the acknowledgement of a batch it lies below settles it, or, where terminations settle everything up to their message, one of a later message |
| `Losses.RunLosesExactly` | internal/broker/jetstream.go:180-298 | Over whole runs in which sequences are published once and batches hold messages of the stream, with either kind of termination: a message is lost exactly when one batch loses it |
| `Losses.RefusedThenOvertaken` | internal/broker/jetstream.go:257 | A run of two polls in which every request is answered and a refused message is lost, exactly when the second poll comes within the delay of the first refusal |
| `Losses.TerminationCanLose` | internal/broker/jetstream.go:220-298 | A run in which a termination loses a decoded message |
| `Losses.NoInputIsLost` | internal/broker/jetstream.go:220-264 | With single termination a batch that starts at the floor (`StartsAtFloor`: it holds everything in the stream up to each of its messages) loses nothing, whatever the broker replies |
| `Losses.FloorRunsLoseNothing` | internal/broker/jetstream.go:220-264 | ... and over any run of such batches every message that leaves was copied or handed to the sink |
| `Losses.FloorExactly` | internal/broker/jetstream.go:263 | With single termination, fetched sequences never lose a message, whatever they hold and whatever the broker replies, exactly when the batch starts at the floor |
| `Losses.FetchKeepsFloorExactly` | internal/broker/jetstream.go:184 | A fetch of what is available starts at the floor exactly when no earlier message waits for its redelivery |
| `Losses.PatientRunsLoseNothing` | internal/broker/jetstream.go:180-298 | A consumer that never fetches past a waiting message loses nothing under single termination |
| `Broker.SuccessSettlesExactly` | internal/broker/jetstream.go:220-264 | A batch without error removes exactly what its last decoded and its poison messages settle, and reaches the sink once |
| `Broker.SuccessSettlesTheBatch` | internal/broker/jetstream.go:220-264 | ... so that nothing of a batch in stream order is left |
| `Broker.RefusedMessagesStayExactly` | internal/broker/jetstream.go:243-262 | When every request is answered, a decoded message of a refused batch stays deliverable exactly when, with single termination, it is not exhausted itself, and otherwise no poison or exhausted message is at or behind it; `Broker.ConsumedExactly` covers the other replies |
| `Broker.RefusalSchedulesExactly` | internal/broker/jetstream.go:244-261 | When the sink refuses and every request is answered, exactly the decoded messages with deliveries left are scheduled again, each after the delay of its delivery |
| `Broker.UnconfirmedCopySchedules` | internal/broker/jetstream.go:281-298 | A poison message whose copy is not confirmed ends its batch and is scheduled five seconds later |
| `Broker.DecodedInOrder` | internal/broker/jetstream.go:222-244 | The sink is handed the observations of the decoded messages, one of each and in their order |
| `Broker.RetryDelays` | internal/broker/jetstream.go:266-279 | Delays grow from one second, double up to the ninth delivery and stay at five minutes from the tenth on |

## Left out

- EvaluateBatch: asks for gated statuses and for definition IDs without a bar. The service refuses other statuses and derives IDs as hexadecimal UUIDs; `DefinitionKeyRoundTrip` says what a bar would break.
- EvaluateBatch: the definition index does not change during a batch, although the source locks it per observation.
- Initialize: the theorem about the partitions is about an engine that has not evaluated anything yet, as in cmd/alertsd/main.go.
- NoInputIsLost: asks for `StartsAtFloor`, which the consumer as written does not keep (`RefusedThenOvertaken`); `LostExactly` and `RunLosesExactly` need no floor.
- NoInputIsLost: whether terminating a message under an acknowledge-all policy also acknowledges what precedes it is the broker's choice, so both are modelled; this member is about single termination, `LostExactly` about both.
- RefusedMessagesStayExactly: for a batch in stream order whose requests are all answered; `ConsumedExactly` is for all batches and replies.
- LostExactly: the broker's own limits are not modelled. After the last redelivery a message whose dead-letter copy fails stays in the stream but may not be delivered again; with as many unacknowledged messages as a batch holds nothing further is handed out, so `RefusedThenOvertaken` needs batches of two or more.
- RetryingMoreActsOnce: a redelivery that is shorter than the unheard batch, or leaves some of it out, is not covered; `RestartHearsTheCommit` covers a worker that starts anew.
- ShardingKeepsTheSharesOfTheLog: assumes that a source event ID belongs to one series.
- AlertsExactly: for runs without resets, from a definition that has no state yet; `CooldownHolds` and `ResetEqualsCleanReplay` are about resets.
- CommittedRunsEndInTheSameCell: compares what partitions keep and reload. The store holds the uncloned working state, whose indicator baselines depend on the batch and are dropped by the next load.
- ReplicasAgree: a write is visible to every read from its own time on and a refresh reads at the time it records; commit latency and clock skew would have to be added to the staleness.
- ResetEqualsCleanReplay: for definitions without cooldown, not once_per_bar, and enabled at the reset's time when they take confirmed bars.
- Drain: failures are persistent per alert; a publisher that recovers only shortens the outbox sooner. Failures of the repository itself are not modelled.
- Features: slices are values, so sharing of their backing arrays is not captured; sharing of indicator maps is.
- LookupIsAScan: for an index that is a table; `ReplaceDefinitions`, `UpsertDefinition` and `RemoveDefinition` say when it is one. IDs are derived from the series among others, so an ID does not change its series.
- RunFleet: a batch that was not heard is tried again, or its worker starts anew, before the partition gets another batch, and batches of different workers commit one after the other. The definitions do not change, and a worker starts when the repository can be read; `Initialize` says what happens otherwise.
- OverlapExactly: stopping is one step; the time a stopped worker takes to let a batch in flight finish has to be added to the gap.
- Reason texts, metrics counters, evaluation times, payload JSON, volume and trade fields: never read by the decisions modelled here.
- FNV, SHA-256 and UUID formatting: the hash is arbitrary, IDs are pairs or parameters. Indicator keys are pairs, so a name containing a colon is not confused with another.
- Timeframe parsing: an observation carries the parsed bar length, or none when the text does not parse.
- A `not` without a child is unknown; the source would fail on it, and validation refuses it.
- IEEE rounding, NaN and infinities: prices are reals; near a zero price no zone is near, as the source's quotient is infinite.
- Postgres SQL apart from the lease steps, NATS and HTTP plumbing, the command line tools, configuration parsing beyond the inequalities cited above.
- The per-definition path of `ApplyObservation`, which the service does not call.
- Creation of an existing definition hash, archiving, retention and manifest import: they would add only easy members, and an archived row leaves the caches after its boundary.
- The 16-bit truncation of partition IDs in the lease statements: there are 256 partitions.
