# ChangeBridge: a verified model

ChangeBridge is the control plane of a change-data-capture migration: a snapshot of a
source is loaded into a new generation of target tables, the source's later transactions
are applied to it, the result is proved equal to the source, and a pointer is moved to it.
This project models its durable protocols and the simple semantics they must refine, and
proves what they promise for every input, every run and every point at which a process can
be killed.

Stores become classes whose fields are the tables; each method is proved equal to a
specification function on values, and the theorems are about those functions over runs. The
modules named `…Answers` say, in terms of the input, exactly when each call succeeds and what
it answers otherwise, so that no check can be dropped from a specification unnoticed. A
`with connection` block is one atomic step. A kill is a `Lease`: the number of durable
writes a call still makes. A digest is an injective constructor (or the digested body
itself), so that equal digests mean equal material.

| file | models |
|---|---|
| `Common`, `Sorting`, `Events`, `Lsn` | shared values, Python's `sorted`, row-change events and plans, log sequence numbers (PostgreSQL documentation, section 8.20) |
| `ReferenceCdc`, `IcebergCdc`, `CdcControl`, `CdcApply` | the sequential reference, the target adapter, the control store, the coordinator |
| `BatchRefinement`, `CdcConvergence`, `CdcInvariant`, `CdcChain`, `CdcRefinement`, `CdcStream` | what the apply protocol guarantees |
| `CdcRestamp`, `CdcSecondCommit`, `CdcOnce` | plans of one transaction with other ingestion stamps; once per transaction and table |
| `CdcStall`, `Manifests`, `TwoTransactions` | how a first call ends, and which manifests are delivered |
| `CdcReplay`, `CdcAnswers`, `CdcSteps` | when a call is a replay; when each store call succeeds; what a call has written wherever it ends |
| `Engine`, `EngineFacts`, `EngineAnswers` | the reference engine and its oracle |
| `Publication`, `PublicationFacts`, `PublicationLifecycle`, `PublicationAnswers`, `Orchestration`, `OrchestrationFacts`, `OrchestrationAnswers` | publication store, orchestrator, consumer |
| `SourceReplay`, `SourceReplayFacts`, `SourceReplayAnswers` | the synthetic source; snapshot plus changes equals source |
| `Assembler`, `AssemblerFacts`, `AssemblerAnswers` | transaction assembly against a manifest |
| `Reconciliation`, `ReconciliationFacts`, `ReconciliationAnswers` | row-by-row comparison of two sets of tables |
| `GenerationRegistry`, `SnapshotLoad`, `SnapshotLoadFacts`, `SnapshotInvariant`, `StrayShards`, `RegistryAnswers`, `SnapshotAnswers`, `SnapshotSteps` | snapshot load, recovery and admission |
| `Normalizer`, `NormalizerFacts`, `NormalizerAnswers` | the raw-record boundary |
| `ProofLedger`, `ProofLedgerFacts`, `ProofAnswers` | gates, manifests and the proof ledger |
| `Acyclicity` | the two dependency-graph checks |
| `EndToEnd`, `CapturedStream`, `SnapshotToTarget` | assembly, apply protocol, source and snapshot put together |

## Where the code does less than its documentation suggests

- Every plan of one apply manifest carries the manifest's own previous frontier, and the
  checkpoint moves only from a plan's previous frontier to its commit position. So exactly
  the manifests of at most one transaction are delivered to their end; wherever its tables
  accept it, a second transaction's rows become durable and its call ends in CB24C008
  (`Manifests.ManifestDelivered`, `Manifests.SecondStalls`, `TwoTransactions.SecondRowIsDurable`).
- The transaction digest covers a projection of the events that leaves out when they were
  ingested; table inputs and commit tokens cover the whole events. Records ingested again
  therefore pass the claim and then stop a recovery with CB24P002, or, where a batch changes
  nothing, are committed twice (`CdcOnce.StopsOnReceiptIff`, `CdcOnce.SecondCommitIff`). The
  normalizer keeps the first of equal records, so that their order decides the stamp
  (`NormalizerFacts.FirstRecordIsKept`). With the same stamps neither happens
  (`CdcOnce.SameStampsCommitOnce`).
- All events of a batch are checked against the table as it was before the transaction. So an
  insert followed by an update of the same row, which replay and reference accept, is always
  refused by the target, and two inserts of one key are accepted by the target alone. No
  transaction that touches a row twice is accepted by both
  (`BatchRefinement.InsertThenUpdateDiverges`, `BatchRefinement.DuplicateInsertDiverges`,
  `BatchRefinement.AcceptedByBoth`).
- The generations of the publication store know no product. With two products a rollback can
  leave the other product on a rolled-back generation, and this is the only way an active
  generation stops being PUBLISHED (`PublicationLifecycle.ActiveStaysPublished`,
  `PublicationLifecycle.TwoProductsShareAGeneration`).
- The source's replay accepts an update without a before image of a row that does not exist;
  the reference never does (`SourceReplayFacts.UpsertDiverges`).
- The set of shards stays open between the stored admission proof and the transition: a load
  for an unknown table then adds a shard that is never reconciled, and no admission of the
  generation succeeds any more (`StrayShards.StrayShardIff`,
  `StrayShards.StrayShardBlocksForever`, `StrayShards.StrayShardIsReachable`).
- Repeating `admit_snapshot` after it succeeded ends in an illegal transition
  (`SnapshotLoadFacts.AdmitConverges`).

## Model

| member | source | states |
|---|---|---|
| EndToEnd.TargetEqualsSource | src/changebridge/cdc_apply.py:37-123 | from tables equal to the source at the boundary, a stream of ready plans with linked frontiers that carry the later transactions, through any killed calls: if the source's replay succeeds, the stream reaches its end if and only if each transaction touches no row twice, and the tables then hold exactly the source's rows; if each touches no row twice, it reaches its end if and only if the replay succeeds |
| CapturedStream.CapturedSourceReachesTarget | src/changebridge/transaction_assembler.py:57-186 | the same without assumed links: each later transaction is captured in arrivals, gets a manifest built from where the transaction before it committed, is assembled from any arrival order and delivered through killed calls; if the source's replay succeeds all are delivered if and only if none touches a row twice, and the tables then hold exactly the source's rows |
| CapturedStream.CapturedIsReady | src/changebridge/transaction_assembler.py:171-186 | plans assembled against such a chain of one-transaction manifests link up: each starts exactly at the frontier where the one before commits, the first at the checkpoint |
| SnapshotToTarget.AdmittedSnapshotAgrees | src/changebridge/snapshot_loader.py:208-249 | a snapshot admitted under the source's own state digests leaves exactly the source's boundary rows in every table |
| SnapshotToTarget.SnapshotThenChanges | src/changebridge/snapshot_loader.py:208-249 | the two joined: from an admitted snapshot and a fresh control store, the captured transactions bring the target to the source's final rows, under the exact condition above |
| Manifests.AssembledPlansAdvance | src/changebridge/transaction_assembler.py:107-186 | plans of an accepted assembly all name the manifest's previous frontier, commit strictly after it and not beyond its terminal frontier |
| Manifests.ManifestStalls | src/changebridge/transaction_assembler.py:178 | of the transactions assembled against one manifest, no run of advancing plans checkpoints two |
| Manifests.ManifestDelivered | src/changebridge/transaction_assembler.py:158-186 | the exact condition: the plans of an accepted assembly, delivered in order through killed calls from a store at the manifest's frontier, all get checkpointed if and only if there is none, or one whose tables accept their batches |
| Manifests.ManifestDeliveredByReference | src/changebridge/transaction_assembler.py:158-186 | the same with the reference's acceptance, from equal tables and for transactions that touch no row twice |
| Manifests.SecondStalls | src/changebridge/cdc_control.py:256-262 | once one transaction of a manifest is checkpointed, another one's call never returns; it ends in CB24C008 if and only if its tables accept their batches, and these are then merged and receipted with the checkpoint where it was |
| TwoTransactions.SecondRowIsDurable | src/changebridge/transaction_assembler.py:178 | a concrete manifest of two transactions, built and assembled: the first call returns, the second commits its row and ends in CB24C008 |
| CdcStall.FreshCall | src/changebridge/cdc_apply.py:37-123 | a transaction's first call returns if and only if every table accepts its batch and the frontier fits, and ends in CB24C008 if and only if every table accepts and the frontier does not fit |
| CdcReplay.ReachedReplay | src/changebridge/cdc_apply.py:44-56 | after every run from a fresh store a call answers a replay if and only if the transaction was checkpointed before it, with the events of the plan; a call that returns leaves it checkpointed, and reports no replay if and only if it was not; other events under a known id return nothing, change nothing and end in CB24C002 wherever the call lives to compare them and the first checkpoint is the plan's |
| CdcReplay.ReplayIff | src/changebridge/cdc_apply.py:44-56 | the same condition for one call, whatever its lease; a replay changes nothing |
| CdcReplay.OtherEventsRefused | src/changebridge/cdc_control.py:131-140 | other events under a known transaction id, however the call is killed: it never returns, leaves the world alone, and its code is one of three, each with its condition |
| CdcSteps.VisitAnswer | src/changebridge/cdc_apply.py:61-113 | what a complete visit makes of a table, in every case: a receipt of the plan's token and input is left alone and another ends in CB24P002; without one a commit under the token is taken over if its label is the plan's and else ends in CB24P003, or the batch is committed or refused; then a receipt says digest, input, token, snapshot and state |
| CdcSteps.ClosingSteps | src/changebridge/cdc_apply.py:116-123 | the closing after each number of writes: nothing, then every delete's tombstone, then the moved checkpoint, or the refusal with the tombstones already there |
| CdcAnswers.FinalizeIff | src/changebridge/cdc_control.py:242-298 | finalizing succeeds if and only if the transaction was checkpointed, or its receipts are of just the plan's tables and the checkpoint is where the plan expects it; what it then moves, and which refusal it gets otherwise |
| CdcAnswers.BuryMeans | src/changebridge/cdc_control.py:209-233 | place by place: each id whose first delete is among the events gets one tombstone that says what was deleted, earlier tombstones stay, and no others come |
| CdcAnswers.TableIff | src/changebridge/iceberg_cdc.py:121-241 | a table's batch whose token is new is committed if and only if it is not empty, each event meets the rows as they are (none to insert at, else just the before image) and no two events go to one row; else the first event that misses says why |
| CdcAnswers.RecoveredIff | src/changebridge/iceberg_cdc.py:154-183 | a batch whose token is there is recovered if and only if the first snapshot with it is labelled with the plan's transaction, input and generation, and nothing changes |
| CdcAnswers.RefRefusedAt | src/changebridge/reference_cdc.py:73-128 | whatever rows a transaction touches and how often, the reference refuses it exactly at a first event that does not meet the rows as those before it left them, with that event's error |
| CdcConvergence.CrashConvergence | src/changebridge/cdc_apply.py:37-123 | after any number of calls of `apply_transaction`, each killed after any of its durable writes, a complete call ends in exactly the world, and with exactly the success or error code, of an uninterrupted first call; any plan, any starting world |
| CdcConvergence.RestartCall | src/changebridge/cdc_apply.py:37-123 | the same for one killed call |
| CdcConvergence.RestartVisit | src/changebridge/cdc_apply.py:61-113 | one table's commit and receipt, cut short anywhere and done again, end as one uninterrupted visit: the commit is found under its token and not repeated |
| CdcInvariant.EffectivelyOnce | src/changebridge/cdc_control.py:131-298 | over any assembled plans, retries and kills: a token labels at most one snapshot of a table, a receipt's token labels a snapshot with its transaction and input digests, a CHECKPOINTED transaction has a receipt for each table and a tombstone for each delete; a further call fails only with one of ten listed codes, and CB24P003 and the receipt and tombstone conflicts are not among them |
| CdcInvariant.ApplyKeeps | src/changebridge/cdc_apply.py:37-123 | one call, complete or killed anywhere, keeps that invariant and raises none but those codes |
| CdcInvariant.TokenIsFree | src/changebridge/cdc_control.py:161-189 | the UNIQUE (generation, token) constraint on receipts never fires |
| CdcRestamp.DigestForgetsStamps | src/changebridge/transaction_assembler.py:24-54 | two assembled plans of one transaction have the same transaction digest if and only if their events differ at most in when they were ingested |
| CdcRestamp.StaleMeansOtherStamps | src/changebridge/transaction_assembler.py:24-54 | a stored receipt of a claimed transaction that differs from the plan in its table input differs in the ingestion stamps of its events only |
| CdcRestamp.MismatchIff | src/changebridge/cdc_apply.py:69-75 | in any world with the invariant, a call raises CB24P002 if and only if it gets to the tables and some stored receipt of the transaction was made of the same events with other ingestion stamps, whatever the lease |
| CdcRestamp.ReachedMismatch | src/changebridge/cdc_apply.py:69-75 | the same in every world reached from a fresh control store |
| CdcSecondCommit.BatchAgain | src/changebridge/iceberg_cdc.py:121-213 | a batch is accepted again by the table it was merged into if and only if every event is an update that changes nothing |
| CdcOnce.StopsOnReceiptIff | src/changebridge/cdc_apply.py:61-75 | some kill of an accepted plan's call makes a call of the restamped plan end in CB24P002 if and only if their ingestion stamps differ |
| CdcOnce.SecondCommitIff | src/changebridge/cdc_apply.py:76-113 | some kills make an accepted plan and its restamp commit a table twice if and only if it is the first table whose stamps differ and its events change nothing |
| CdcOnce.SameStampsCommitOnce | src/changebridge/cdc_apply.py:37-123 | while all attempts at a transaction carry the same stamps, every run commits each transaction at most once in each table and never raises CB24P002 |
| CdcChain.CheckpointChain | src/changebridge/cdc_control.py:242-298 | along any run the revision grows by one per checkpointed transaction, each transaction is checkpointed once, and each starts at the frontier where the one before committed |
| CdcChain.RevisionCountsTransactions | src/changebridge/cdc_control.py:242-290 | from a fresh store, revision equals the number of CHECKPOINTED transactions |
| CdcChain.FrontiersIncrease | src/changebridge/cdc_control.py:242-290 | successive checkpointed frontiers strictly increase as 64-bit positions when every plan commits after the frontier it names |
| CdcChain.OneTransactionPerManifest | src/changebridge/cdc_control.py:260-262 | two transactions with the same previous frontier, as all plans of one manifest have (`src/changebridge/transaction_assembler.py:178`), are never both checkpointed in one run |
| CdcRefinement.ApplyRefinesReference | src/changebridge/cdc_apply.py:37-123 | from equal tables, for a plan at the checkpoint's frontier with a new transaction and new delete ids, after any killed calls: of the call returning, the sequential reference accepting and the transaction touching no row twice, two never hold without the third; the call then leaves the reference's rows and tombstones |
| CdcStream.StreamRefinesReference | src/changebridge/cdc_apply.py:37-123 | the same for a stream of plans with linked frontiers, new transactions and new delete ids, each delivered with its own kills |
| BatchRefinement.BatchRefinesSequential | src/changebridge/iceberg_cdc.py:121-213 | for a transaction that touches no row twice and whose delete ids are new: grouping by table, checking all before images against the old tables and merging accepts exactly when `ReferenceCDCStore.apply` does, with equal tables after |
| BatchRefinement.AcceptedBatchIsSequentialIffDistinct | src/changebridge/iceberg_cdc.py:121-213 | the exact condition: a batch the target accepts is accepted by the reference if and only if it touches no row twice |
| BatchRefinement.AcceptedByBoth | src/changebridge/iceberg_cdc.py:121-213 | a transaction that all its tables and the reference accept touches no row twice |
| BatchRefinement.InsertThenUpdateDiverges | src/changebridge/iceberg_cdc.py:121-134 | an insert and then an update of the new row: accepted by the reference, always refused by the target with CB24I003 |
| BatchRefinement.DuplicateInsertDiverges | src/changebridge/iceberg_cdc.py:121-134 | two inserts of one new key: the target ends with two rows, the reference refuses |
| BatchRefinement.BatchMeaning | src/changebridge/iceberg_cdc.py:185-213 | a checked batch of one event per key is never ambiguous, leaves at each key what its event left and every other key alone |
| ReferenceCdc.SequentialMeaning | src/changebridge/reference_cdc.py:73-128 | with rows touched at most once, event-by-event application succeeds exactly when every event applies to the rows before, and rows and tombstones end as each event left them |
| ReferenceCdc.Store.Initialize | src/changebridge/reference_cdc.py:58-71 | loads the rows of all given tables in one step, a later row replacing an earlier one of its key |
| ReferenceCdc.Store.Apply | src/changebridge/reference_cdc.py:73-128 | all or nothing over the events; a known id is a replay or a conflict and changes nothing |
| IcebergCdc.Adapter.CheckTable | src/changebridge/iceberg_cdc.py:121-134 | the first failing precondition against the table before the transaction |
| IcebergCdc.Adapter.Apply | src/changebridge/iceberg_cdc.py:154-241 | finds the commit by its token or merges and appends one labelled snapshot; a rejection changes nothing |
| CdcControl.Store.Initialize | src/changebridge/cdc_control.py:96-107 | creates the checkpoint row once; a different frontier conflicts only at revision 0 |
| CdcControl.Store.ClaimTransaction | src/changebridge/cdc_control.py:131-159 | claims a transaction or recognises an equal claim |
| CdcControl.Store.Record | src/changebridge/cdc_control.py:161-189 | stores a receipt once; a different one conflicts |
| CdcControl.Store.BuryDeletes | src/changebridge/cdc_control.py:209-233 | one tombstone per delete, earlier ones kept |
| CdcControl.Store.FinalizeTransaction | src/changebridge/cdc_control.py:242-298 | compare-and-swap of the checkpoint: every error case in order, else checkpoint and state move together |
| CdcApply.Coordinator.Visit | src/changebridge/cdc_apply.py:61-113 | the loop body over one table, killed where the lease ends |
| CdcApply.Coordinator.Process | src/changebridge/cdc_apply.py:56-123 | the table loop, tombstones and checkpoint as one function of the durable world and the lease |
| CdcApply.Coordinator.Close | src/changebridge/cdc_apply.py:116-123 | tombstones, then the checkpoint last |
| CdcApply.Coordinator.ApplyTransaction | src/changebridge/cdc_apply.py:37-123 | a whole call: its durable writes in order, its result, and where a kill leaves the world |
| Lsn.FormatRoundTrip | src/changebridge/cdc_ordering.py:23-34 | every 64-bit value is read back from its rendering |
| Lsn.NormalizeMeaning | src/changebridge/cdc_ordering.py:32-34 | normalizing keeps the position and is idempotent |
| Lsn.NormalFormIsCanonical | src/changebridge/cdc_ordering.py:32-34 | two texts normalize alike exactly when they denote the same position |
| Lsn.CaseDoesNotMatter | src/changebridge/cdc_ordering.py:23-29 | texts that differ only in the case of digits denote the same position, or both none |
| Lsn.CompareIsNumeric | src/changebridge/contracts.py:124-158 | comparing (high, low) pairs is comparing the 64-bit values |
| EngineFacts.StateIsReplay | src/changebridge/engine.py:155-285 | after any run of accepted, rejected, replayed and crashed calls: the live rows are the snapshot with all applied transactions replayed in commit order, and the tombstones are exactly the keys whose last change was a delete, each with that LSN |
| EngineFacts.BatchesTile | src/changebridge/engine.py:177-249 | the applied batches are exactly the accepted ones and tile (snapshot LSN, current LSN] without gap or overlap |
| EngineFacts.IdsTakeEffectOnce | src/changebridge/engine.py:188-231 | applied transactions have distinct ids and strictly rising LSNs up to the frontier, and the ledger holds exactly them |
| EngineFacts.AppliedIffNew | src/changebridge/engine.py:188-231 | transactions beyond the frontier are applied if and only if their ids are new and distinct, else REPLAY_CONFLICT; the branch that skips an equal digest is never taken |
| EngineFacts.ReusedIdRejects | src/changebridge/engine.py:195-200 | reusing an applied transaction id in a new batch rejects the whole batch and leaves the state as it was |
| EngineFacts.BatchAccepted | src/changebridge/engine.py:155-250 | exactly when a batch is newly applied |
| EngineFacts.RunKeeps | src/changebridge/engine.py:105-314 | every run keeps: records, ledgers and batches follow the accepted calls; the pointer version counts the activations, names the last one, and that generation is ready |
| EngineFacts.BatchingIsIrrelevant | src/changebridge/engine.py:155-250 | how the same transactions are cut into batches does not show in records, live rows, tombstones or ledger |
| EngineAnswers.BatchAnswer | src/changebridge/engine.py:155-250 | after every run: a candidate or ready generation answers "replayed" if and only if that very batch is among the accepted ones, and nothing changes; other content under an accepted id is REPLAY_CONFLICT; a new id is applied if and only if the batch starts at the frontier, rises inside its interval and brings only fresh transaction ids; every refusal has its condition and changes nothing |
| EngineAnswers.CallAnswers | src/changebridge/engine.py:105-314 | after every run, exactly when creating, loading, readying and activating succeed, the last counted by the activations so far |
| Engine.ChangeBridgeEngine.Create | src/changebridge/engine.py:105-119 | a new loading generation at its snapshot LSN |
| Engine.ChangeBridgeEngine.Load | src/changebridge/engine.py:121-153 | the whole snapshot or nothing, only once |
| Engine.ChangeBridgeEngine.CheckOrder | src/changebridge/engine.py:181-185 | strictly increasing LSNs inside the batch's interval |
| Engine.ChangeBridgeEngine.WriteEvents | src/changebridge/engine.py:203-223 | blind upserts in event order |
| Engine.ChangeBridgeEngine.Apply | src/changebridge/engine.py:155-250 | all error branches in order, replay detection, atomic effect, rollback on a crash |
| Engine.ChangeBridgeEngine.Ready | src/changebridge/engine.py:287-293 | only a candidate becomes ready |
| Engine.ChangeBridgeEngine.ActivateGeneration | src/changebridge/engine.py:301-314 | compare-and-swap of the active pointer |
| PublicationFacts.PointerIsFoldOfLog | src/changebridge/publication.py:278-487 | over every run and any products: each product's events form the chain 0, 1, 2, …, each from the generation before; clock and pointer are the fold of that chain, pins equal the log's value at their revision, attempts and events correspond one to one, each generation is published at most once, and every rollback target was published before |
| PublicationFacts.NeverBroken | src/changebridge/publication.py:175-188 | over every run CB27C002, CB27F002, CB27P010 and key clashes never happen, and reconciling fails only for an unknown attempt |
| PublicationFacts.ReconcileIsSound | src/changebridge/publication.py:489-499 | the outcome of a stored attempt can always be read back, unchanged |
| PublicationFacts.ReplayReturnsReceipt | src/changebridge/publication.py:249-258 | repeating an attempt after any later operations returns its original receipt and changes nothing |
| PublicationFacts.OneAttemptPerRevision | src/changebridge/publication.py:606-650 | each revision of a product is produced by exactly one attempt |
| PublicationAnswers.ReceiptAnswersRequest | src/changebridge/publication.py:249-350 | in every run, a receipt answers its request: product, expected revision, action, target and attempt are the payload's |
| PublicationAnswers.KnownAttempt | src/changebridge/publication.py:249-258 | in every run a known attempt succeeds if and only if the first successful use of its id carried the same payload; any other ends in CB27P005, or lacks its authorization; the store stays as it was |
| PublicationAnswers.NewAttempt | src/changebridge/publication.py:260-487 | in every run a new publication, fallback or rollback succeeds if and only if conditions hold that a caller can read; else its code is that of the first that fails |
| PublicationAnswers.PinIff | src/changebridge/publication.py:501-542 | in every run a pin is answered if and only if the product is known and the name is new or was given to this product at its current revision; it says the current route, generation and binding; else CB27C003 or CB27C001 |
| PublicationAnswers.PinStays | src/changebridge/publication.py:501-542 | a stored pin never changes, whatever follows |
| PublicationAnswers.EligibilityIff | src/changebridge/publication.py:544-553 | eligibility is changed if and only if some flags are given, all of the four known ones; each given flag is set, and nothing else anywhere |
| PublicationLifecycle.ActiveStaysPublished | src/changebridge/publication.py:413-487 | active generations stay PUBLISHED under every operation except exactly under a rollback that is authorized, new, at the clock's revision, to another usable, published, not rolled-back generation, and away from a generation another product has active |
| PublicationLifecycle.ActiveIsPublished | src/changebridge/publication.py:278-487 | with one product, the active generation is PUBLISHED after every run |
| PublicationLifecycle.RollbackIff | src/changebridge/publication.py:413-487 | a new rollback succeeds if and only if those guards hold |
| PublicationLifecycle.EligibleIsHistory | src/changebridge/publication.py:260-276 | in every run eligibility is a reading of the event log: a registered, usable generation may be published if and only if no event published it, and be rolled back to if and only if one did and none rolled back from it |
| PublicationLifecycle.NeverActiveAgain | src/changebridge/publication.py:437-479 | with one product, a generation once rolled back is never active again |
| PublicationLifecycle.TwoProductsShareAGeneration | src/changebridge/publication.py:437-479 | a run from the empty store, three publications and two rollbacks that all succeed, that leaves a second product on a rolled-back generation |
| PublicationLifecycle.RollbackSucceeds | src/changebridge/publication.py:413-487 | a rollback to a usable published generation succeeds and touches only its product |
| Publication.PublicationStore.InitializeProduct | src/changebridge/publication.py:167-173 | a clock at revision 0, once |
| Publication.PublicationStore.GetCurrent | src/changebridge/publication.py:175-188 | clock and pointer, or their inconsistency |
| Publication.PublicationStore.RegisterGeneration | src/changebridge/publication.py:190-237 | registers a generation, or requires every immutable column to agree |
| Publication.PublicationStore.PublishGeneration | src/changebridge/publication.py:278-350 | one transaction over clock, pointer, generation, attempt and event, or no change |
| Publication.PublicationStore.FirstPublicationFallback | src/changebridge/publication.py:352-411 | removes the pointer while the clock moves on |
| Publication.PublicationStore.RollBack | src/changebridge/publication.py:413-487 | moves the pointer to an earlier generation and marks the left one ROLLED_BACK |
| Publication.PublicationStore.ReconcileAttempt | src/changebridge/publication.py:489-499 | the stored receipt of an attempt |
| Publication.PublicationStore.PinConsumer | src/changebridge/publication.py:501-542 | stores the current binding under a pin, or requires the stored one to agree |
| Publication.PublicationStore.ChangeEligibility | src/changebridge/publication.py:544-553 | refuses no flags or unknown ones; else sets the given flags of a known generation |
| OrchestrationFacts.LostAcknowledgementIsHarmless | src/changebridge/publication_orchestrator.py:46-56 | for every store a run produced: with a lost acknowledgement, publication and fallback end in the same system and with the same result as without |
| OrchestrationFacts.RestartConverges | src/changebridge/publication_orchestrator.py:16-94 | one killed publication followed by a complete call ends as an uninterrupted one |
| OrchestrationFacts.PublicationConverges | src/changebridge/publication_orchestrator.py:16-94 | after any number of publications killed after any durable write, each with or without losing the store's answer, a complete call ends in the same system with the same result as one uninterrupted call |
| OrchestrationFacts.FallbackConverges | src/changebridge/publication_orchestrator.py:96-148 | the same for the fallback path |
| OrchestrationAnswers.ResolvedIff | src/changebridge/consumer.py:18-48 | in every run resolving is good if and only if the pin name fits and the product stands on the source or the reader sees both bound tables, and no others, with exactly the bound snapshot and row count; the result lists what was read |
| OrchestrationAnswers.PinVerifiedIff | src/changebridge/consumer.py:18-48 | the same for one pin, with the fault of the first table in name order that does not match |
| OrchestrationAnswers.PublicationCloses | src/changebridge/publication_orchestrator.py:16-94 | in every run of the store a complete publication whose attempt succeeds closes its run as ACTIVE if and only if that holds of the binding then current, else as INCIDENT; one that is refused leaves the store alone |
| OrchestrationAnswers.FallbackEnds | src/changebridge/publication_orchestrator.py:96-148 | in every run of the store a complete fallback of an active, incident or recovering run closes it as verified on the source if and only if it is granted, its source pin fits and the product then stands on the source |
| OrchestrationAnswers.PublicationSteps | src/changebridge/publication_orchestrator.py:16-94 | where a killed first publication stands after each number of writes: the run's whole row, the store, the pin; over exactly with the seventh write |
| OrchestrationAnswers.FallbackSteps | src/changebridge/publication_orchestrator.py:96-148 | the same for a fallback of an active run |
| Orchestration.Orchestrator.Transition | src/changebridge/publication.py:563-596 | compare-and-swap of a run's state along the allowed transitions |
| Orchestration.Orchestrator.ResolveAndVerify | src/changebridge/consumer.py:18-48 | pins, then reads each bound table and compares snapshot and row count |
| Orchestration.Orchestrator.PublishAndRecover | src/changebridge/publication_orchestrator.py:46-56 | publishes, reading the receipt back when the answer was lost |
| Orchestration.Orchestrator.VerifyRun | src/changebridge/publication_orchestrator.py:57-94 | records the receipt, verifies a consumer and closes the run as ACTIVE or INCIDENT, killed where the lease ends |
| Orchestration.Orchestrator.PublishAndVerifyRun | src/changebridge/publication_orchestrator.py:16-94 | the whole publication path, with its kill points, as a function of store and runs |
| Orchestration.Orchestrator.FallBackAndRecover | src/changebridge/publication_orchestrator.py:124-133 | falls back, reading the receipt back when the answer was lost |
| Orchestration.Orchestrator.FallBack | src/changebridge/publication_orchestrator.py:96-148 | the whole fallback path, with its kill points, as a function of store and runs |
| SourceReplayFacts.SnapshotPlusChanges | src/changebridge/source_workload.py:533-597 | initializing the reference with the row lists reported at the boundary, in either table order, and feeding it the transactions committed after it succeeds exactly when the source's own replay does, and ends in the source's rows; commits after the boundary follow those before it, and row changes carry their own keys |
| SourceReplayFacts.EngineEqualsSource | src/changebridge/source_workload.py:533-597 | an engine generation loaded with the state at the boundary and given the later transactions, in whatever run and batches, has the source's rows as live rows |
| SourceReplayFacts.ReplayContinues | src/changebridge/source_workload.py:545-578 | replaying everything is replaying the later commits, in commit order, from the state at the boundary, errors included |
| SourceReplayFacts.EventsAgree | src/changebridge/source_workload.py:552-577 | captured row changes are accepted by the source's replay if and only if the reference accepts them, with the same rows, and the reference's tombstones grow by exactly the deletes |
| SourceReplayFacts.UpsertDiverges | src/changebridge/source_workload.py:568-571 | an update without a before image of a missing row is accepted by the replay and by no reference update |
| SourceReplayFacts.AcceptedIsWellPlanned | src/changebridge/source_workload.py:460-530 | an accepted workload has distinct ids and sequences, and its commit ordinals are exactly 1..n, each used once |
| SourceReplayFacts.InitializeRestores | src/changebridge/reference_cdc.py:58-71 | initializing the reference with the reported row lists restores the replayed state |
| SourceReplayAnswers.SchemaChangeMeans | src/changebridge/source_workload.py:555-557 | place by place: after a schema change the same rows are there, each order with `source_note` null and its key and other fields as before, every other row as it was |
| SourceReplayAnswers.UpdateAfterSchemaChange | src/changebridge/source_workload.py:552-577 | an update of an order right after a schema change is accepted if and only if its before image is the old row with `source_note` null |
| SourceReplayAnswers.EventMeans | src/changebridge/source_workload.py:552-577 | exactly when an event is replayed, what it leaves at every place, and which error it gets otherwise |
| SourceReplayAnswers.TransactionRefused | src/changebridge/source_workload.py:552-577 | a transaction that is not replayed has a first event that does not apply to the rows before it, and ends in that event's error |
| SourceReplayAnswers.WorkloadTakenIff | src/changebridge/source_workload.py:460-530 | a workload is taken if and only if it is of the known version, named by its own digest, with intact transactions that share no id, sequence or ordinal, ordinals 1..n, and the one concurrency schedule |
| SourceReplayAnswers.WorkloadRefused | src/changebridge/source_workload.py:460-530 | each code of a refused workload has its cause in the workload: in its head, or in the first transaction that cannot follow those before it |
| SourceReplayAnswers.ReplayReports | src/changebridge/source_workload.py:533-597 | a replay reports exactly the committed transactions of the phase in the order of their ordinals, exactly the aborted ones, and the rows after the committed ones |
| SourceReplay.ValidateWorkload | src/changebridge/source_workload.py:460-530 | every check in order, with the first failing one's code |
| SourceReplay.ReplayTransaction | src/changebridge/source_workload.py:552-577 | one transaction's events, schema changes included |
| SourceReplay.ReplayWorkload | src/changebridge/source_workload.py:533-597 | rows, committed and aborted transactions through a phase |
| AssemblerFacts.RoundTrip | src/changebridge/transaction_assembler.py:57-186 | a manifest built from admitted, well-shaped events with distinct ids assembles every permutation of them, always to the same plans: one per descriptor in manifest order, numbered 1..n, partitioning the events |
| AssemblerFacts.AssemblyIsSound | src/changebridge/transaction_assembler.py:107-186 | against any manifest, accepted plans partition the events and each answers its descriptor |
| AssemblerFacts.OrderingForgets | src/changebridge/cdc_ordering.py:47-81 | ordering succeeds on one arrival order exactly when it does on another, with the same result |
| AssemblerAnswers.AssemblyAnswer | src/changebridge/transaction_assembler.py:107-186 | assembly succeeds if and only if every event is a log position inside the interval, numbered in range and once per transaction, of the generation, under an admitted schema, with the images of its operation and one key, and each transaction's events are what its descriptor says; each code has its cause in the events and the manifest |
| AssemblerAnswers.BuildAnswer | src/changebridge/transaction_assembler.py:57-104 | a manifest is built if and only if the events can be ordered inside the interval, are of the generation and are numbered from one in every transaction; its descriptors list just these transactions in order, each as its events are; each code has its cause |
| AssemblerAnswers.GroupIsListed | src/changebridge/cdc_ordering.py:47-81 | the rows of a transaction are exactly its events, strictly by position, transaction number and event number |
| Assembler.AdmitInterval | src/changebridge/cdc_ordering.py:59-70 | interval and event errors in order |
| Assembler.OrderedEvents | src/changebridge/cdc_ordering.py:73-81 | sorts, and finds a sequence number used twice in a transaction |
| Assembler.GroupEvents | src/changebridge/transaction_assembler.py:67-71 | events by transaction id, ids in order of first appearance |
| Assembler.BuildApplyManifest | src/changebridge/transaction_assembler.py:57-104 | the manifest, or the first error in the code's order |
| Assembler.AssembleTransactions | src/changebridge/transaction_assembler.py:107-186 | the plans, or the first error in the code's order |
| ReconciliationFacts.VerdictIsEquality | src/changebridge/hierarchical_reconciliation.py:35-116 | PASS if and only if, table by table, the keyed rows are equal |
| ReconciliationFacts.MismatchesAreExact | src/changebridge/hierarchical_reconciliation.py:56-65 | the mismatches list exactly the differing keys, in order, each once, with the right kind; none exactly when the sides are equal |
| ReconciliationFacts.BucketsPartition | src/changebridge/hierarchical_reconciliation.py:31-86 | each key of either side sits in the bucket of its hash and in no other, with both rows |
| ReconciliationFacts.DigestsDecide | src/changebridge/hierarchical_reconciliation.py:87-99 | a table's two digests agree if and only if it has no mismatch |
| ReconciliationFacts.ReportDigestsDecide | src/changebridge/hierarchical_reconciliation.py:35-116 | in every report each table's two digests agree if and only if it lists no mismatch, if and only if the keyed rows are equal; the verdict is PASS if and only if all tables' digests agree |
| ReconciliationFacts.ReportForgetsOrder | src/changebridge/hierarchical_reconciliation.py:35-116 | the report does not depend on the order of rows |
| ReconciliationAnswers.IndexAnswer | src/changebridge/hierarchical_reconciliation.py:14-28 | rows are indexed if and only if each has its key, orders by order id and order items by item id, and no two share one; else the first row that cannot be added says why |
| ReconciliationAnswers.ReportAnswer | src/changebridge/hierarchical_reconciliation.py:35-116 | a report is made if and only if there is a bucket and every table has a schema and well-keyed rows on both sides; it lists each side's rows in key order, adds up the mismatches, and passes if and only if both sides have the same rows in every table; else the first failing table says why |
| Reconciliation.IndexRows | src/changebridge/hierarchical_reconciliation.py:14-28 | rows by primary key, or the first missing or repeated key |
| Reconciliation.Compare | src/changebridge/hierarchical_reconciliation.py:54-86 | mismatches and buckets of one table |
| Reconciliation.Reconcile | src/changebridge/hierarchical_reconciliation.py:35-116 | the whole report, or the first error |
| SnapshotLoadFacts.LoadConverges | src/changebridge/snapshot_loader.py:123-206 | after any number of `load_shard` calls killed after any durable write, failed or complete, a complete call gives exactly what a complete first call would have given |
| SnapshotLoadFacts.AdmitConverges | src/changebridge/snapshot_loader.py:208-249 | admission cut short or refused converges to an uninterrupted call; called after success it ends in CBG014 |
| SnapshotInvariant.SnapshotSafety | src/changebridge/generation_registry.py:267-544 | over any registrations, transitions, loads and admissions with kills: a token is appended at most once, a RECONCILED shard has its snapshot and a matching target commit, revision counts transitions, CDC_APPLYING has a stored PASS proof and both table shards RECONCILED |
| SnapshotInvariant.RunKeeps | src/changebridge/generation_registry.py:267-544 | the invariant behind it, from any world in which it holds |
| StrayShards.StrayShardIff | src/changebridge/generation_registry.py:340-389 | with the admission proof stored and the transition not made, a load changes the set of shards if and only if its table is not one of the snapshot's, its events are valid, its shard is new and it lives to make one write |
| StrayShards.StrayShardBlocksForever | src/changebridge/snapshot_loader.py:208-216 | after that, over every later run, the shard is never RECONCILED and every admission of the generation is refused with CBL015 |
| StrayShards.StrayShardIsReachable | src/changebridge/snapshot_loader.py:236-249 | a run from empty stores, with an admission killed between proof and transition, that ends so |
| StrayShards.ProvenMayMove | src/changebridge/generation_registry.py:267-338 | a transition requested directly, naming the stored proof, still succeeds |
| SnapshotAnswers.EventsAnswer | src/changebridge/snapshot_loader.py:47-87 | events make a shard if and only if each is a snapshot row of the generation, table, lineage, run and boundary with just an after image and one key of its own; else the first refused one says why |
| SnapshotAnswers.LoadAnswer | src/changebridge/snapshot_loader.py:123-206 | in every run a complete load returns if and only if its events make a shard the generation may take, of a known table, and the shard is reconciled or the table holds exactly the images under its token, or nothing without it; it leaves the shard reconciled, the images in the table and the commit that says so, and no other change; else the code is that of the first condition that fails |
| SnapshotAnswers.LedgerHolds | src/changebridge/snapshot_loader.py:188-201 | in every run a target commit names a snapshot of its token and the rows of its table as they were when it was verified, so that a repeated one never conflicts |
| SnapshotAnswers.AdmitAnswer | src/changebridge/snapshot_loader.py:208-249 | in every run a complete admission succeeds if and only if the generation is loading, has just two shards, both reconciled, its tables hold 66 and 6 rows that are the expected ones, and no proof of another target is stored; it stores the proof of the target and moves the generation; else the first condition that fails says why |
| SnapshotSteps.LoadSteps | src/changebridge/snapshot_loader.py:123-206 | a first load under every lease: it is killed if and only if it has fewer than six writes, and has then made just the first ones of claim, staged state, rows with their snapshot, target commit, committed and reconciled state |
| SnapshotSteps.AdmitSteps | src/changebridge/snapshot_loader.py:208-249 | an admission that would succeed, killed before or between its two writes: nothing, then just the stored proof |
| RegistryAnswers.RegisterIff | src/changebridge/generation_registry.py:180-253 | a record is registered if and only if it is well named and is the registered one, or is new and shares neither warehouse nor namespace with any generation; each refusal has its condition |
| RegistryAnswers.OwnershipIsExclusive | src/changebridge/generation_registry.py:180-253 | in every run no two generations share a warehouse or a namespace, and each is named after its workload and maps just the two tables |
| RegistryAnswers.MoveIff | src/changebridge/generation_registry.py:267-338 | in every run a transition is made if and only if it names the number of transitions so far and is the next one, the second with the stored proof, or names the last one again; what it writes, and which refusal it gets otherwise |
| RegistryAnswers.ClaimIff | src/changebridge/generation_registry.py:340-389 | in every run a claim is taken if and only if the generation is loading and the shard is new or was claimed for the same events; the unique token constraint never fires |
| RegistryAnswers.ClaimsTellApart | src/changebridge/snapshot_loader.py:90-115 | two claims of a table agree if and only if their events have the same ids and payload digests in the same order |
| RegistryAnswers.ProofIff | src/changebridge/generation_registry.py:495-544 | an admission proof is stored if and only if it passes, says 66 and 6 rows at the boundary over two reconciled shards, and is the stored one or the first of a registered generation; each refusal has its condition |
| SnapshotLoad.ValidateEvents | src/changebridge/snapshot_loader.py:47-87 | the first faulty event's code |
| SnapshotLoad.Adapter.FindToken | src/changebridge/iceberg_snapshot.py:167-183 | the first snapshot with the token |
| SnapshotLoad.Adapter.AppendRows | src/changebridge/iceberg_snapshot.py:257-274 | appends the rows and one labelled snapshot in one commit |
| SnapshotLoad.SnapshotLoader.Load | src/changebridge/snapshot_loader.py:123-206 | a whole call with its kill points, over registry and target |
| SnapshotLoad.SnapshotLoader.AppendShard | src/changebridge/snapshot_loader.py:163-206 | recovers or appends, verifies the table, then closes the shard |
| SnapshotLoad.SnapshotLoader.CloseShard | src/changebridge/snapshot_loader.py:188-206 | target commit, COMMITTED, RECONCILED |
| SnapshotLoad.SnapshotLoader.AdmitSnapshot | src/changebridge/snapshot_loader.py:208-249 | shards, counts, digests, proof, transition |
| GenerationRegistry.Store.Register | src/changebridge/generation_registry.py:180-253 | registers a generation, or requires its immutable fields to agree |
| GenerationRegistry.Store.TransitionTo | src/changebridge/generation_registry.py:267-338 | compare-and-swap along the two allowed transitions, the second only with the stored proof |
| GenerationRegistry.Store.TakeShard | src/changebridge/generation_registry.py:340-389 | claims a shard or recognises an equal claim |
| GenerationRegistry.Store.MarkShardState | src/changebridge/generation_registry.py:404-430 | moves a shard along its allowed transitions |
| GenerationRegistry.Store.RecordTargetCommit | src/changebridge/generation_registry.py:432-466 | stores a target commit once; a different one conflicts |
| GenerationRegistry.Store.RecordAdmissionProof | src/changebridge/generation_registry.py:495-544 | stores a complete PASS proof once; a different one conflicts |
| NormalizerFacts.RecordsConserved | src/changebridge/normalizer.py:426-496 | raw = accepted + duplicates + quarantined; accepted events strictly ordered with distinct ids; CBN020 never reported |
| NormalizerFacts.OrderDoesNotMatter | src/changebridge/normalizer.py:440-465 | without payload conflicts the accepted payloads, ids included, are the same sequence for every record order |
| NormalizerFacts.FirstRecordIsKept | src/changebridge/normalizer.py:445-464 | of two records of one event the first is kept with its own ingestion stamp, so that record order decides the stamp |
| NormalizerFacts.ObjectsTile | src/changebridge/normalizer.py:219-270 | an accepted manifest's objects have distinct ids and tile (S, F]: each position lies in exactly one |
| NormalizerFacts.AllInPlace | src/changebridge/normalizer.py:365-375 | accepted changes lie in (S, F] and accepted snapshot rows at S, each with exactly its operation's images, and each stems from a record |
| NormalizerAnswers.RecordAnswer | src/changebridge/normalizer.py:303-416 | a record is normalized if and only if conditions on its own fields, the manifest and the contracts hold: fields, profile, generation, run, contract, operation, key, images, kind, transaction, position, stamps, envelope; each code has its cause |
| NormalizerAnswers.FateOfRecord | src/changebridge/normalizer.py:440-465 | after any records, the next one is refused if it cannot be normalized, accepted if it is the first of its event id, a duplicate if its payload is that first one's, and a conflict if not; the tallies say so, and only one fate fits |
| NormalizerAnswers.ManifestAnswer | src/changebridge/normalizer.py:204-270 | a manifest is taken if and only if it is of the version and profile, opens at the snapshot frontier, advances, numbers its objects, and they are new, join end to start up to its end, have landed intact, and are the declared ones; each code has its cause |
| NormalizerAnswers.BundleAnswer | src/changebridge/normalizer.py:426-496 | a bundle is made if and only if the manifest is taken and all its files are readable with their row counts; it holds the tallies of all rows in the order of objects and rows, its events by position and numbers; else the first failure says why |
| Normalizer.ValidateManifest | src/changebridge/normalizer.py:204-270 | the first failing check's code |
| Normalizer.TakeRecord | src/changebridge/normalizer.py:445-464 | accept, count as duplicate, or quarantine one record |
| Normalizer.NormalizeManifest | src/changebridge/normalizer.py:426-496 | the bundle, or the first error |
| ProofLedgerFacts.ProvenIsStable | src/changebridge/proof_control.py:56-136 | over every run a PROVEN generation's manifest holds the eight gates in order, each PASS and bound to generation, frontier, schema set, input revision and seal; publication accepts it; no later run changes it |
| ProofLedgerFacts.AcceptedIffSound | src/changebridge/publication.py:36-55 | publication accepts a manifest if and only if it is sound in that sense |
| ProofLedgerFacts.AssembledIsSound | src/changebridge/proof_gates.py:110-151 | whatever the gates, an assembled manifest is sound and uses only the given gates |
| ProofLedgerFacts.NoAssertionFails | src/changebridge/proof_control.py:103-111 | sealing an attempt always finds its generation and its seal |
| ProofAnswers.GateMeans | src/changebridge/proof_gates.py:67-92 | a gate is valid if and only if it is one of the eight, judged, positioned, named, with evidence and its own digest; each code has its cause |
| ProofAnswers.AssemblyAnswer | src/changebridge/proof_gates.py:110-151 | a manifest is assembled if and only if every gate is valid, passes, is of the boundary and has its own id, and each of the eight is there; each code has its cause |
| ProofAnswers.ManifestAnswer | src/changebridge/publication.py:36-55 | publication accepts a manifest if and only if its gates are the eight in order, each valid, passing and of the boundary, and its digest is its body's; each code has its cause |
| ProofAnswers.GateAnswer | src/changebridge/proof_control.py:89-101 | in every run a gate is recorded if and only if it is valid and is the first of its id for the attempt or that very gate again; other content is CB26C004 |
| ProofAnswers.SealAnswer | src/changebridge/proof_control.py:56-69 | in every run a generation is sealed if and only if it applies changes, or is sealed with this very seal and has no attempt yet; each refusal has its condition |
| ProofAnswers.BeginAnswer | src/changebridge/proof_control.py:71-87 | in every run a proof begins if and only if the generation is sealed or its one attempt is under way |
| ProofAnswers.SealAttemptAnswer | src/changebridge/proof_control.py:103-136 | in every run an attempt is sealed if and only if it was begun, each of the eight gates is stored for it and all stored ones pass and are of its boundary; what it leaves, and why it is refused otherwise |
| ProofLedger.AssembleManifest | src/changebridge/proof_gates.py:110-151 | the manifest, or the first faulty gate's code |
| ProofLedger.ValidateProofManifest | src/changebridge/publication.py:36-55 | the first failing check of a manifest |
| ProofLedger.ProofControlStore.SealWith | src/changebridge/proof_control.py:56-69 | seals once; a different seal conflicts |
| ProofLedger.ProofControlStore.Begin | src/changebridge/proof_control.py:71-87 | the one attempt of a sealed generation |
| ProofLedger.ProofControlStore.Record | src/changebridge/proof_control.py:89-101 | stores a valid gate once; a different one conflicts |
| ProofLedger.ProofControlStore.SealAttempt | src/changebridge/proof_control.py:103-136 | assembles and stores the manifest, or changes nothing |
| Acyclicity.ValidateDag | scripts/validate_completion_authority.py:180-203 | first unknown dependency in reading order; else accepted if and only if there is no dependency cycle, repeated edges and self-dependencies included, and the report lists exactly the ids no order of removal can reach |
| Acyclicity.ValidateGraph | scripts/validate_part1_closure.py:236-261 | accepted if and only if ids are distinct, the slices restate the graph, dependencies are known and there is no cycle |
| Acyclicity.Peel | scripts/validate_part1_closure.py:246-255 | the layer loop ends, and fails exactly on a cycle, listing the blocked ids |
| Acyclicity.ChecksAgree | scripts/validate_part1_closure.py:240-255 | on rows with distinct ids both checks judge the same edges, find them closed together and report the same blocked ids |
| Acyclicity.BlockedMeansCyclic | scripts/validate_completion_authority.py:201-203 | what remains blocked is empty exactly when there is no cyclic path |

## Left out

- Spark, Iceberg, Parquet, PostgreSQL and file access: a target is its rows and its log of labelled snapshots; a snapshot's physical id is its position in the log; creating an empty table is not a step of its own.
- SHA-256, canonical JSON, Unicode, decimal and timestamp normalization, JSON Schema: digests are injective constructors, rows are already in normal form, schema checks are given predicates.
- Concurrent coordinators and concurrent Spark commits: one process at a time per store, killed and restarted; with it CB24I009, CBI004 and the SQLite-level claim race.
- Receipt digests and `recovered` flags: kept beside the control store's value, and not part of the equalities claimed after crashes; `idempotent_replay` of a loaded shard is not returned.
- Primary keys of several columns: an image has one key column, `Row.key`; an event's own key value stays separate from it, and where it must agree a lemma says so.
- Assembler.AssembleTransactions: manifests and events are typed, so the shape errors CB24A006 and CB24O003 cannot arise.
- SourceReplay.ValidateWorkload: workloads are typed, so checks on the types of fields cannot fail.
- SourceReplay.ReplayWorkload: state digests of the reported tables are left out; they are functions of the rows.
- Reconciliation.Reconcile: the table, bucket and report digests are left out; each is taken of material the report holds.
- Normalizer.ValidateManifest: JSON Schema validation is left out, manifests being typed, and so are unsafe paths (CBN003).
- Normalizer.NormalizeManifest: quarantined records are kept in arrival order instead of sorted, and reading a file is given as its records or an error; unsafe paths (CBN003) are not modelled.
- GenerationRegistry.Store.Register: warehouse paths and the namespace digest are not checked, only their uniqueness.
- SnapshotLoad.SnapshotLoader.Load: rows with equal keys are listed in the order they were appended; the target's own order for such ties is unspecified.
- SnapshotToTarget.AdmittedSnapshotAgrees: the loader's own snapshots, which carry no CDC token, are left out of the tables handed to the coordinator.
- The event field `quarantine_reason`, the only other one outside the digest projection, is empty in every admitted event.
- `publication_binding_manifest` and `validate_bootstrap_policy`: short conjunctions over fixed fields.
- Evidence builders, laboratories, command line, renderers, stage validators other than the two graph checks, schema policy, `cutover.py`, `oracles.py`, `simulator.py`: fixed scenarios, rendering or short conjunctions.
