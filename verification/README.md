# TransitGuard: a verified model

TransitGuard lets fare readers work offline. A reader decides fares locally,
queues each transaction under a gap-free local sequence in SQLite, groups
queued transactions into batches, sends each batch to a backend over HTTP and
applies the acknowledgement that comes back. This project models that system
in Dafny and proves what it promises.

- `ReaderTables`, `ReaderAcknowledgement`, `ReaderSteps`: the reader's tables,
  and each durable operation as a function of the database before it. A failed
  operation returns the old database, but for the reload after a commit
  described below.
- `ReaderInvariant`, `ReaderPreservation`, `ReaderRuns`: one inductive
  invariant over all tables, and safety of every run.
- `ReaderCoupling`, `ReaderOutcomes`, `ReaderHealth`, `ReaderWatermark`,
  `ReaderDecisions`, `ReaderRequest`, `ReaderLimits`: exact conditions for
  submission, application, recovery, selection, health, the watermark and
  request assembly.
- `ReaderEffects`: every durable operation field by field, stated without the
  operations' own guards and helpers.
- `ReaderStore`: the same operations as a class with the source's loops, each
  proved equal to its specification and to keep the invariant.
- `Protocol`, `Fingerprint`, `FingerprintLayout`: message validation, and the
  bytes fed to the hash with their layout.
- `Backend`, `World`, `Delivery`, `Submission`, `Progress`, `NoneStuck`: the
  ingest service, and the reader and backend joined by a network that may
  lose, repeat, delay and reorder every message.
- `FareEngine`, `FareLaws`: the fare pipeline over bounded integers.
- `Basics`, `Texts`: shared types and trimming.

Verify everything with `dafny verify dfyconfig.toml`.

## Where the code and its documentation differ

The model follows the code. These expectations hold only under a condition,
which is proved exactly, and each exception is shown to happen:

- `docs/development/reader-offline-storage.md:317` calls the watermark the
  highest contiguous sequence in a final automated state. Recording a
  permanent failure locally, of a batch or of one transaction, does not
  advance it. After any run the claim holds exactly when every such record
  right above the watermark has been followed by an application
  (`StepContiguousExact`, `RunContiguousExact`, `LagHappens`,
  `RowLagHappens`).
- `docs/development/backend-synchronization.md:55` says that a stored
  acknowledgement can be applied after a restart. Batch recovery makes the
  batch retryable, so application waits until the batch is submitted again
  (`RestartDelaysApplication`, `RestartDelayHappens`).
- Batch creation does not enforce the protocol's limit of 256 entries. A
  larger batch can be created and never sent (`AnyBatchSize`,
  `OversizeNeverTransportable`).
- Submission and both batch failures reload the batch after their commit, so
  they report an error although they changed the tables exactly when the
  attempt counter they leave no longer fits 32 bits (`ErrorAfterCommitExact`,
  `ErrorAfterCommitHappens`).
- An envelope with an escaped NUL passes every check of reader and protocol,
  but PostgreSQL's JSONB type refuses it. Its batch is answered as
  temporarily unavailable every time, and it is never acknowledged
  (`RetriesAreAnswered`, `AcknowledgedIsStorable`, `NulIsRefused`).

## Assumptions

- The hash is an uninterpreted function; no property needs it to be free of
  collisions.
- Identities are their canonical text. Envelopes are JSON objects given by
  their canonical text, or other JSON.
- The JSONB column refuses an envelope exactly when it holds the escape of the
  NUL character, as PostgreSQL documents for that type; a refusal is answered as
  temporarily unavailable.
- Times are caller-given numbers; a submission time fits 64 bits, as its
  column does. Reader status and receipt time are parameters of each request
  the backend receives.
- The reader operations are called with the identity the database is bound to.

## Model

| member | source | states |
|---|---|---|
| `ReaderPreservation.StepKeepsInv` | crates/persistence/src/reader_acknowledgement_application.rs:276-613 | every operation keeps the cross-table invariant (gap-free queue, watermark over resolved rows only, well-formed and mutually exclusive active batches, acknowledgements that fit their batch and are applied exactly when it is complete, every acknowledged row evidenced by an applied acknowledgement) and only evolves the tables |
| `ReaderRuns.RunKeepsInv` | crates/persistence/src/reader_acknowledgement_application.rs:276-613 | the same over every run of the twelve operations in any interleaving |
| `ReaderRuns.WatermarkSafety` | crates/persistence/src/reader_acknowledgement_application.rs:508-572 | in every reachable state each sequence at or below the watermark is a resolved row that no later run changes; the watermark never falls and stays below the next sequence |
| `ReaderRuns.WatermarkExact` | crates/persistence/src/reader_acknowledgement_application.rs:762-805 | right after an application the watermark is the greatest n whose whole range 1..n is present and resolved |
| `ReaderRuns.GapFree` | crates/persistence/src/reader_queue.rs:360-439 | the queue holds each sequence 1..next-1 exactly once, in order, each under its own identity |
| `ReaderRuns.OneActiveBatch` | crates/persistence/src/reader_sync.rs:328-344 | a transaction is in at most one prepared, in-flight or retryable batch |
| `ReaderRuns.ResolutionIsFinal` | crates/persistence/src/reader_acknowledgement_application.rs:438-477 | acknowledged, permanently failed and review rows, finished batches, stored payloads and applied acknowledgements never change again in any run |
| `ReaderRuns.ReapplyIsIdempotent` | crates/persistence/src/reader_acknowledgement_application.rs:386-405 | applying again, after any run and at any time, changes nothing and reports the original time and counts |
| `ReaderRuns.AppliedReport` | crates/persistence/src/reader_acknowledgement_application.rs:574-613 | a successful application leaves its acknowledgement applied at the reported time, which is the given time when it is applied now, with the counts of its decoded lines |
| `ReaderRuns.CheckSurvivesInterleaving` | crates/persistence/src/reader_acknowledgement.rs:369-441 | whatever steps run between the load and the storing transaction, the checked match with the batch still holds and storing keeps the invariant |
| `ReaderRuns.LoadBatchExact` | crates/persistence/src/reader_sync.rs:520-578 | in every invariant state a batch loads exactly when it exists and its attempt counter fits 32 bits |
| `ReaderRuns.FinalFailureAtomicity` | crates/persistence/src/reader_sync_failure.rs:146-272 | in every reachable state a final batch failure that committed reports an error exactly when the attempt counter exceeds 32 bits; on success it returns the stored batch |
| `ReaderRuns.RecoveriesCommute` | crates/persistence/src/reader_sync_state.rs:319-352 | batch recovery and queue recovery give the same database in either order, in every state |
| `ReaderCoupling.BatchRunsCoupled` | crates/persistence/src/reader_sync.rs:421-495 | in every run without single-row updates, the entries of active batches are in flight and not updated after their batch, and every row in flight is in an active batch |
| `ReaderCoupling.RecoveryIsIdle` | crates/persistence/src/reader_queue_state.rs:234-282 | after such runs queue recovery changes nothing |
| `ReaderCoupling.SubmitExact` | crates/persistence/src/reader_sync_state.rs:118-248 | a batch is submitted exactly when its own row permits it; its entries never conflict |
| `ReaderCoupling.FinalFailureExact` | crates/persistence/src/reader_sync_failure.rs:146-272 | a final failure is recorded exactly when the category is not blank and the batch is in flight and not updated later |
| `ReaderCoupling.ApplyExact` | crates/persistence/src/reader_acknowledgement_application.rs:407-477 | a stored unapplied acknowledgement applies exactly when its batch is in flight and the time is at or after receipt and the batch's last update |
| `ReaderCoupling.ApplicationExact` | crates/persistence/src/reader_acknowledgement_application.rs:438-505 | an application turns the row of entry k, which was in flight, into what line k resolves, leaves every other row alone and completes the batch |
| `ReaderCoupling.CountsTotal` | crates/persistence/src/reader_acknowledgement_application.rs:752-760 | the four reported counts add up to the lines |
| `ReaderCoupling.RestartDelaysApplication` | crates/persistence/src/reader_acknowledgement_application.rs:407-436 | an acknowledgement stored before a restart cannot be applied after batch recovery at any time, and can once the batch is submitted again |
| `ReaderCoupling.SelectionAgrees` | crates/persistence/src/reader_queue_state.rs:287-306 | batch creation chooses exactly what the ready-queue read returns for the same time and limit, in strictly increasing sequence order, skipping no smaller ready row |
| `ReaderCoupling.CreatedBatchReloads` | crates/persistence/src/reader_sync.rs:502-578 | loading the created batch gives back the value creation returned |
| `ReaderPreservation.CandidatesExact` | crates/persistence/src/reader_sync.rs:305-364 | the chosen candidates are ready, in no active batch, in increasing order and at most the limit |
| `ReaderDecisions.SubmitDecides` | crates/persistence/src/reader_sync_state.rs:118-248 | in every invariant state a submission commits exactly when its batch is submittable and all its rows are in flight and not updated later; it errs after committing exactly when, besides, the attempt counter is at its 32-bit limit |
| `ReaderDecisions.FinalDecides` | crates/persistence/src/reader_sync_failure.rs:146-272 | a final failure commits exactly when the category is not blank and the batch and all its rows are in flight and not updated later; it errs after committing exactly when, besides, the attempt counter exceeds 32 bits |
| `ReaderDecisions.PostponeDecides` | crates/persistence/src/reader_sync_state.rs:254-312 | a retryable failure commits exactly when its times are in order, the category is not blank and the batch is in flight and not updated later; it errs after committing exactly when, besides, the attempt counter exceeds 32 bits |
| `ReaderDecisions.ApplyDecides` | crates/persistence/src/reader_acknowledgement_application.rs:386-505 | an application takes effect exactly when the acknowledgement is stored and unapplied, its time is at or after receipt, and the batch and all its rows are in flight and not updated later |
| `ReaderEffects.EnqueueEffect` | crates/persistence/src/reader_queue.rs:349-457 | when enqueueing succeeds, every column of the new row, and what each error means |
| `ReaderEffects.MarkEffect` | crates/persistence/src/reader_queue_state.rs:85-128 | a transaction is taken into flight exactly when its row is pending or retryable with its retry time reached, and not updated later; every column after it, and what each error means |
| `ReaderEffects.NoMarkBeforeRetry` | crates/persistence/src/reader_queue_state.rs:93-120 | a retryable row whose retry time has not come is left alone |
| `ReaderEffects.RecordRetryableEffect` | crates/persistence/src/reader_queue_state.rs:134-185 | when a row's retryable failure is recorded, every column after it, and what each error means |
| `ReaderEffects.RecordFinalEffect` | crates/persistence/src/reader_queue_state.rs:308-357 | when a row's final failure is recorded, every column after it, and what each error means |
| `ReaderEffects.RecoverQueueEffect` | crates/persistence/src/reader_queue_state.rs:234-282 | exactly the in-flight rows outside open batches become retryable at once with the restart category; the result is their number |
| `ReaderEffects.RecoverBatchesEffect` | crates/persistence/src/reader_sync_state.rs:319-352 | exactly the in-flight batches not updated later become retryable at once with the restart category; the result is their number |
| `ReaderEffects.CreateEffect` | crates/persistence/src/reader_sync.rs:305-500 | a created batch takes the first rows, in sequence order and up to the limit, that are pending or due and in no open batch, and skips none; every column of the batch and its rows, and nothing else changes |
| `ReaderEffects.CreateErrors` | crates/persistence/src/reader_sync.rs:284-517 | what each error of batch creation means; it changed nothing |
| `ReaderEffects.NoCreationBeforeRetry` | crates/persistence/src/reader_sync.rs:311-325 | a retryable row whose retry time has not come is left alone by batch creation |
| `ReaderEffects.ReadyReadEffect` | crates/persistence/src/reader_queue_state.rs:287-405 | the ready-queue read returns the first pending or due rows in sequence order, none before its retry time; what each error means |
| `ReaderEffects.LoadEffect` | crates/persistence/src/reader_sync.rs:520-578 | loading gives the batch unless it is missing or its attempt counter exceeds 32 bits |
| `ReaderEffects.SubmitEffect` | crates/persistence/src/reader_sync_state.rs:118-248 | a submission happens exactly when the batch is prepared or due and all its rows are in flight, none updated later; batch and rows count one more attempt, the first submission time is kept; what each error means |
| `ReaderEffects.PostponeEffect` | crates/persistence/src/reader_sync_state.rs:254-312 | a retryable failure sets an in-flight batch back until its retry time and leaves the queue alone; what each error means |
| `ReaderEffects.FinishEffect` | crates/persistence/src/reader_sync_failure.rs:146-272 | a final failure ends batch and rows alike, failed or under review, with category and time; what each error means |
| `ReaderEffects.StoreEffect` | crates/persistence/src/reader_acknowledgement.rs:369-521 | a stored acknowledgement keeps every field and line as given, unapplied; a replay changes nothing |
| `ReaderEffects.StoreErrors` | crates/persistence/src/reader_acknowledgement.rs:369-566 | what each error of storing means |
| `ReaderEffects.ApplyEffect` | crates/persistence/src/reader_acknowledgement_application.rs:438-613 | an application records the given time in each row, the batch, the acknowledgement and the report; rows show their lines, the batch is complete with no retry time or failure, nothing else changes but the watermark |
| `ReaderEffects.ApplyErrors` | crates/persistence/src/reader_acknowledgement_application.rs:276-477 | what each error of an application means; it changed nothing |
| `ReaderOutcomes.TransitionExact` | crates/persistence/src/reader_queue_state.rs:85-185 | a single-row transition succeeds exactly when a row with that identity satisfies its guard; then that row shows the recorded outcome and nothing else changes |
| `ReaderOutcomes.RecoveryExact` | crates/persistence/src/reader_queue_state.rs:234-282 | queue recovery makes exactly the interrupted rows outside active batches retryable at once with the restart category, and counts them |
| `ReaderOutcomes.ApplicationReported` | crates/persistence/src/reader_acknowledgement_application.rs:207-265 | after an application each row of the batch shows exactly its line's resolution, and the reported counts are the numbers of those rows in each state |
| `ReaderOutcomes.ReservationExact` | crates/persistence/src/reader_sync.rs:421-495 | batch creation takes exactly its entries' ready rows into flight, leaves attempt counters and all other rows alone |
| `ReaderHealth.HealthConservation` | crates/persistence/src/reader_health.rs:55-79 | in every reachable state the six counts sum to next-1; no saturating sum saturates; active batches never outnumber queued transactions |
| `ReaderHealth.HealthExact` | crates/persistence/src/reader_health.rs:433-521 | the snapshot of a reachable database decodes exactly when the observation is not negative and, if anything is unresolved, some of it existed by then; no stored value is ever rejected |
| `ReaderHealth.SnapshotExact` | crates/persistence/src/reader_health.rs:287-521 | every field of the snapshot: the numbers of rows, batches and acknowledgements in each state, the lowest sequence and the age of the open rows, and the earliest retry |
| `ReaderHealth.HealthErrors` | crates/persistence/src/reader_health.rs:287-521 | the snapshot fails only for a negative observation, or one before the creation of the oldest open row, which the error names |
| `ReaderHealth.MinOfExact` | crates/persistence/src/reader_health.rs:384-418 | each MIN query gives an attained lower bound, or nothing when no row qualifies |
| `ReaderHealth.LowestAboveWatermark` | crates/persistence/src/reader_health.rs:384-395 | the lowest unresolved sequence is above the watermark and below the next sequence, and everything under it is resolved |
| `ReaderHealth.WatermarkMeetsHealth` | crates/persistence/src/reader_acknowledgement_application.rs:508-572 | right after an application watermark + 1 is the lowest unresolved sequence, or the next sequence when there is none |
| `ReaderWatermark.WatermarkIsContiguous` | crates/persistence/src/reader_acknowledgement_application.rs:762-805 | in every run that records no permanent failure locally, watermark + 1 is at all times the lowest unresolved sequence, or the next sequence |
| `ReaderWatermark.LagExact` | crates/persistence/src/reader_sync_failure.rs:146-272 | from a contiguous watermark, a committed batch-level permanent failure leaves it behind exactly when the batch starts right above it |
| `ReaderWatermark.RowLagExact` | crates/persistence/src/reader_queue_state.rs:190-206 | from a contiguous watermark, a committed permanent failure of one transaction leaves it behind exactly when that transaction stands right above it |
| `ReaderWatermark.LaggingStays` | crates/persistence/src/reader_acknowledgement_application.rs:528-572 | a lagging watermark stays behind under every step but an application that takes effect |
| `ReaderWatermark.StepContiguousExact` | crates/persistence/src/reader_acknowledgement_application.rs:528-572 | after any of the twelve operations the watermark is the highest contiguous resolved sequence exactly when the operation applied an acknowledgement, or it was so before and the operation did not record a permanent failure right above it |
| `ReaderWatermark.RunContiguousExact` | crates/persistence/src/reader_acknowledgement_application.rs:528-572 | after any run it is so exactly when every permanent failure recorded locally right above it has been followed by an application |
| `ReaderWatermark.LagHappens` | crates/persistence/src/reader_sync_failure.rs:146-272 | a fresh reader whose first batch fails permanently ends with its only transaction resolved and the watermark at zero |
| `ReaderWatermark.RowLagHappens` | crates/persistence/src/reader_queue_state.rs:190-206 | so does a fresh reader whose first transaction is taken into flight and failed permanently on its own |
| `ReaderRequest.Assemble` | crates/persistence/src/reader_sync_request.rs:127-306 | rebuilding the request succeeds exactly when the batch is transportable; each refusal has its cause and no stored value is found corrupt |
| `ReaderRequest.TransportableMeaning` | crates/persistence/src/reader_sync_request.rs:127-306 | a batch is transportable exactly when in flight under the reader's protocol, with at most 256 entries, JSON objects of at most 65536 bytes and texts of 1 to 128 bytes without control characters |
| `ReaderRequest.RequestFields` | crates/persistence/src/reader_sync_request.rs:280-296 | each field of the rebuilt request comes from its own column |
| `ReaderRequest.RequestIsValid` | crates/persistence/src/reader_sync_request.rs:280-306 | whatever is rebuilt is a valid request |
| `ReaderRequest.RetriesSendTheSameRequest` | crates/persistence/src/reader_sync_request.rs:121-126 | over any run every request rebuilt for a batch is the same one |
| `ReaderRequest.OversizeNeverTransportable` | crates/persistence/src/reader_sync_request.rs:281-296 | a batch of more than 256 entries is never transportable, whatever runs follow |
| `ReaderLimits.AnyBatchSize` | crates/persistence/src/reader_sync.rs:284-304 | batches of every size can be created, hence also ones that can never be sent |
| `ReaderLimits.ErrorAfterCommitExact` | crates/persistence/src/reader_sync_failure.rs:248-272 | in every reachable state submission, retryable failure and final failure err although they committed exactly when their transition is permitted and the attempt counter they leave exceeds 32 bits |
| `ReaderLimits.ManyAttempts` | crates/persistence/src/reader_sync_state.rs:118-248 | interrupting and resubmitting a batch reaches every attempt count |
| `ReaderLimits.ErrorAfterCommitHappens` | crates/persistence/src/reader_sync_state.rs:240-312 | for each of the three such a state is reachable |
| `ReaderLimits.RestartDelayHappens` | crates/persistence/src/reader_sync_state.rs:319-352 | a state is reachable whose stored acknowledgement applies now, and no longer after batch recovery |
| `ReaderStore.Store.Enqueue` | crates/persistence/src/reader_queue.rs:349-457 | new tables and result are those of the specification, the invariant holds and tables only evolve (so for every method of the store); an error leaves every table as it was |
| `ReaderStore.Store.UpdateOne` | crates/persistence/src/reader_queue_state.rs:377-390 | one guarded update; any number of affected rows but one is an error and leaves every table as it was |
| `ReaderStore.Store.MarkTransactionInFlight` | crates/persistence/src/reader_queue_state.rs:85-128 | as specified: a ready row goes into flight with one more attempt; an error leaves every table as it was |
| `ReaderStore.Store.RecordRetryable` | crates/persistence/src/reader_queue_state.rs:134-185 | as specified, with the time and category checks in order; an error leaves every table as it was |
| `ReaderStore.Store.RecordFinal` | crates/persistence/src/reader_queue_state.rs:308-357 | as specified, for permanent failure and manual review; an error leaves every table as it was |
| `ReaderStore.Store.RecoverQueue` | crates/persistence/src/reader_queue_state.rs:234-282 | as specified, with the number of rows recovered |
| `ReaderStore.Store.RecoverBatches` | crates/persistence/src/reader_sync_state.rs:319-352 | as specified, with the number of batches recovered |
| `ReaderStore.Store.CreateBatch` | crates/persistence/src/reader_sync.rs:284-517 | as specified: the reservation loop on a copy, published only when every row was reserved; an error, even midway through the loop, leaves every table as it was |
| `ReaderStore.Store.LoadBatch` | crates/persistence/src/reader_sync.rs:520-578 | the stored batch exactly when it exists and its attempt counter fits 32 bits |
| `ReaderStore.Store.ChangeBatch` | crates/persistence/src/reader_sync_state.rs:160-248 | a batch and all its rows change together or not at all; the reload gives the result |
| `ReaderStore.Store.SubmitBatch` | crates/persistence/src/reader_sync_state.rs:118-248 | as specified: the first submission time is kept on resubmission |
| `ReaderStore.Store.FailBatchRetryably` | crates/persistence/src/reader_sync_state.rs:254-312 | as specified: the batch waits for its retry time, the queue is untouched |
| `ReaderStore.Store.FailBatchFinally` | crates/persistence/src/reader_sync_failure.rs:146-272 | as specified, for permanent failure and manual review |
| `ReaderStore.Store.CheckAck` | crates/persistence/src/reader_acknowledgement.rs:523-566 | the first difference between an acknowledgement and its batch, in the order the checks are made |
| `ReaderStore.Store.StoreAck` | crates/persistence/src/reader_acknowledgement.rs:369-521 | as specified: an equal payload is a replay, a different one a conflict, a new one needs an in-flight batch; an error leaves every table as it was |
| `ReaderStore.Store.ApplyAck` | crates/persistence/src/reader_acknowledgement_application.rs:276-613 | as specified: decode, count, resolve row by row on a copy, complete, advance; the guarded watermark update is never refused; an error, even midway through the loop, leaves every table as it was |
| `ReaderStore.UpdateRows` | crates/persistence/src/reader_queue_state.rs:93-128 | one UPDATE statement gives the updated table and the number of affected rows |
| `ReaderStore.DecodeBatch` | crates/persistence/src/reader_sync.rs:596-726 | the decoder accepts exactly the decodable batches, unchanged |
| `ReaderStore.FindMismatch` | crates/persistence/src/reader_acknowledgement.rs:548-566 | nothing exactly when every line fits its entry, else the first position that does not |
| `ReaderStore.EncodeLines` | crates/persistence/src/reader_acknowledgement.rs:452-500 | the entry rows inserted are those of the canonical payload |
| `ReaderStore.ResolutionCounts` | crates/persistence/src/reader_acknowledgement_application.rs:752-760 | the counting loop computes the counts of the lines |
| `ReaderStore.ContiguousResolved` | crates/persistence/src/reader_acknowledgement_application.rs:762-805 | over any listed states, the end of the longest unbroken resolved run above the current watermark |
| `ReaderStore.Advance` | crates/persistence/src/reader_acknowledgement_application.rs:508-529 | over a well-formed queue the scan never fails and finds the end of the resolved prefix |
| `ReaderStore.ReserveAll` | crates/persistence/src/reader_sync.rs:421-495 | all chosen rows reserved, or the first one updated later |
| `ReaderStore.ResolveAll` | crates/persistence/src/reader_acknowledgement_application.rs:438-477 | all lines applied, or the first one whose row is not in flight or was updated later |
| `ReaderAcknowledgement.NewAcknowledgement` | crates/persistence/src/reader_acknowledgement.rs:98-158 | the constructor accepts exactly the constructible acknowledgements; each of its errors names a real fault |
| `ReaderAcknowledgement.ConstructibleMeaning` | crates/persistence/src/reader_acknowledgement.rs:98-158 | constructible means a non-negative receipt, an ordered range, distinct identities and sequences, no blank category and no retry before receipt |
| `ReaderAcknowledgement.PayloadInjective` | crates/persistence/src/reader_acknowledgement.rs:611-658 | two acknowledgements have one canonical payload exactly when they are equal |
| `ReaderAcknowledgement.DecodeRows` | crates/persistence/src/reader_acknowledgement_application.rs:615-664 | the decoding loop succeeds exactly on decodable rows and returns their lines |
| `ReaderAcknowledgement.StoredLinesDecode` | crates/persistence/src/reader_acknowledgement_application.rs:666-750 | storing then decoding recovers every line, with its failure text trimmed |
| `ReaderAcknowledgement.TranslationExact` | crates/persistence/src/reader_protocol_acknowledgement.rs:46-66 | a valid protocol acknowledgement is constructible exactly when every retry time is at or after receipt |
| `ReaderAcknowledgement.TranslatedSays` | crates/persistence/src/reader_protocol_acknowledgement.rs:83-120 | each outcome is translated to its namesake, with its category text and retry time |
| `ReaderAcknowledgement.Translate` | crates/persistence/src/reader_protocol_acknowledgement.rs:46-131 | on valid messages the loop succeeds exactly when every retry time is at or after receipt, an early retry is the only fault it reports, and each line says what its entry says, outcome by outcome |
| `ReaderAcknowledgement.TranslatedRoundTrip` | crates/persistence/src/reader_acknowledgement_application.rs:615-750 | storing a translated acknowledgement and decoding it gives lines that say what the message's entries say, outcome by outcome |
| `Texts.TrimIdempotent` | crates/persistence/src/reader_acknowledgement.rs:600-609 | trimmed text has no outer whitespace, so trimming again changes nothing |
| `Texts.TrimExact` | crates/persistence/src/reader_acknowledgement.rs:600-609 | trimming drops whitespace at both ends, all of it, and nothing else |
| `Texts.BlankExact` | crates/persistence/src/reader_acknowledgement.rs:600-609 | a text is blank exactly when all of it is whitespace |
| `Protocol.ValidateEntries` | crates/device-protocol/src/synchronization.rs:1004-1159 | the validation loops report the first fault in the order of the checks |
| `Protocol.EntriesErrorExact` | crates/device-protocol/src/synchronization.rs:1004-1159 | they accept exactly 1 to 256 entries with distinct identities, strictly increasing sequences and matching ends |
| `Protocol.EntriesErrorMeaning` | crates/device-protocol/src/synchronization.rs:1004-1159 | each validation error names a real fault |
| `Protocol.EntriesFitRange` | crates/device-protocol/src/synchronization.rs:1103-1159 | an accepted list has 1 to 256 entries and at most last - first + 1 |
| `Protocol.NewRequest` | crates/device-protocol/src/synchronization.rs:536-561 | the constructor accepts exactly the valid requests |
| `Protocol.NewAckEntry` | crates/device-protocol/src/synchronization.rs:658-674 | an entry is accepted exactly when only an acknowledged one lacks a category, only a retryable one has a retry time, and that time is not negative |
| `Protocol.NewAck` | crates/device-protocol/src/synchronization.rs:781-806 | the constructor accepts exactly the valid acknowledgements |
| `Protocol.ValidateAgainstRequest` | crates/device-protocol/src/synchronization.rs:809-889 | accepts exactly the answers to the request; otherwise the error names a field or position that differs, and the first such position |
| `Fingerprint.BigEndianRoundTrip` | crates/device-protocol/src/fingerprint.rs:179-198 | fixed-width big-endian integers read back |
| `Fingerprint.FieldsPrefixFree` | crates/device-protocol/src/fingerprint.rs:179-198 | sequences of length-prefixed and fixed-width fields of the same kinds decode uniquely, whatever follows |
| `Fingerprint.FeedRequest` | crates/device-protocol/src/fingerprint.rs:60-86 | the hashing loop feeds exactly the request preimage |
| `Fingerprint.FeedAck` | crates/device-protocol/src/payload_fingerprint.rs:73-131 | the hashing loop feeds exactly the acknowledgement preimage |
| `Fingerprint.RequestPreimageInjective` | crates/device-protocol/src/fingerprint.rs:60-86 | two requests feed the same bytes exactly when every field and every entry is equal |
| `Fingerprint.EnvelopePreimageInjective` | crates/device-protocol/src/payload_fingerprint.rs:58-66 | two envelopes feed the same bytes exactly when equal |
| `Fingerprint.AckPreimageInjectiveUpToReplay` | crates/device-protocol/src/payload_fingerprint.rs:73-131 | two acknowledgements feed the same bytes exactly when equal up to the replay flag |
| `Fingerprint.DomainsSeparate` | crates/device-protocol/src/payload_fingerprint.rs:58-131 | request, envelope and acknowledgement preimages never coincide |
| `FingerprintLayout.RequestLayout` | crates/device-protocol/src/fingerprint.rs:60-86 | the order, width and framing of every field of a hashed request, under its domain |
| `FingerprintLayout.AckLayout` | crates/device-protocol/src/payload_fingerprint.rs:73-131 | the same for a hashed acknowledgement, with its outcome codes and optional markers |
| `FingerprintLayout.EnvelopeLayout` | crates/device-protocol/src/payload_fingerprint.rs:58-66 | the same for a hashed envelope |
| `Fingerprint.CategoryTextUnique` | crates/device-protocol/src/synchronization.rs:404-422 | different failure categories have different texts |
| `FingerprintLayout.CategoryNameRoundTrip` | crates/device-protocol/src/synchronization.rs:353-422 | reading a category's name gives the category back |
| `Fingerprint.ToHex` | crates/device-protocol/src/fingerprint.rs:96-105 | two lower-case digits per byte, high half first |
| `Fingerprint.ParseHex` | crates/device-protocol/src/fingerprint.rs:134-156 | accepts exactly hexadecimal text of the right length |
| `Fingerprint.HexRoundTrip` | crates/device-protocol/src/fingerprint.rs:96-156 | every character of the printed form is a digit, and its digit pairs give the bytes back |
| `Fingerprint.DigitMeaning` | crates/device-protocol/src/fingerprint.rs:200-210 | digits in either case, with their values |
| `Backend.BuiltAckAnswers` | apps/api/src/synchronization_service.rs:159-189 | for every valid request what the backend builds answers it, accepts every entry at the receipt time, and is valid exactly when that time is not negative |
| `Backend.BuildAcknowledgement` | apps/api/src/synchronization_service.rs:159-189 | the building loop returns that acknowledgement, or refuses a negative time |
| `Backend.StoreAll` | crates/persistence/src/repositories/synchronization_ingest.rs:272-277 | the insert loop on a copy gives the table after all entries, or the error of the first that conflicts or cannot be written |
| `Backend.Service.Submit` | apps/api/src/synchronization_service.rs:108-141 | new tables and answer are those of the specification; the insert loop works on a copy |
| `Backend.ProcessKeeps` | crates/persistence/src/repositories/synchronization_ingest.rs:248-286 | every request keeps the ingest tables consistent: stored batches are immutable, keep their original acknowledgement and all their transactions, and transaction identities never change |
| `Backend.ProcessResult` | crates/persistence/src/repositories/synchronization_ingest.rs:248-286 | an error leaves the tables unchanged; success returns the stored acknowledgement up to the replay flag |
| `Backend.ReplayReturnsOriginal` | apps/api/src/synchronization_service.rs:103-141 | replaying a stored request at any later time returns the original acknowledgement with only the replay flag changed and stores nothing |
| `Backend.StoreEntriesIdentify` | crates/persistence/src/repositories/synchronization_ingest.rs:413-461 | after the loop the backend holds every entry of the request under its identity, and reader sequences stay unique |
| `Backend.StoreEntriesWrite` | crates/persistence/src/repositories/synchronization_ingest.rs:413-519 | after the loop each new entry has a record with its own envelope, digest, batch and receipt time, each known one at most a later resolution, and no other record changed |
| `Backend.ProcessStores` | crates/persistence/src/repositories/synchronization_ingest.rs:248-286 | a request under a new batch identity is stored exactly when its sequences fit 64 bits, no stored record stands against an entry and new envelopes are storable; then batch, acknowledgement and records are exactly those of the request |
| `Backend.ProcessErrors` | apps/api/src/synchronization_service.rs:108-157 | what each error of processing means; it stored nothing |
| `World.ArisesOk` | apps/api/src/synchronization_service.rs:103-141 | in every world reachable by reader steps, sends, receipts, foreign requests and deliveries in any order: requests of the reader are the ones its rows stand for, replies are stored originals up to the replay flag, stored payloads come from backend acknowledgements, backend records of the reader describe its queue |
| `Delivery.LostResponsesHarmless` | crates/persistence/src/reader_acknowledgement.rs:388-441 | delivering any reply to the reader, however late or often, is never a conflicting replay or a mismatch: it stores, replays, finds the batch not in flight, or cannot load it because its attempt counter exceeds 32 bits |
| `Delivery.OnePayload` | crates/persistence/src/reader_acknowledgement.rs:405-418 | all replies for one batch give the reader one payload |
| `Delivery.NoPhantomAcknowledgement` | crates/persistence/src/reader_acknowledgement_application.rs:438-477 | every acknowledged reader row is held by the backend with the same identity, reader, sequence, envelope text and digest |
| `Delivery.RetriesAreAnswered` | crates/persistence/src/repositories/synchronization_ingest.rs:349-490 | an operational reader's request is answered exactly unless another reader claimed the identity of the batch or of one of its transactions, or an envelope holds an escaped NUL |
| `Delivery.AcknowledgedIsStorable` | crates/persistence/src/repositories/synchronization_ingest.rs:463-490 | only transactions whose envelope the backend can store are ever acknowledged |
| `Submission.SubmissionIsRun` | apps/reader-simulator/src/synchronization_submission.rs:252-346 | a submission, whatever the response, is a run of batch-level operations |
| `Submission.FailuresSettle` | apps/reader-simulator/src/synchronization_submission.rs:124-346 | a failed transport settles the batch by category: the four transient ones make it retryable and leave the queue alone, the three lasting ones fail the batch and all its rows, the others put the batch and all its rows under review; the batch records category and time |
| `Submission.RepliesSettle` | apps/reader-simulator/src/synchronization_submission.rs:252-285 | when any reply the backend gave for an in-flight batch arrives, the submission succeeds, completes the batch and acknowledges every entry |
| `Progress.DeliverableSettles` | apps/reader-simulator/src/synchronization_submission.rs:252-285 | in every world with batch-level reader operations, any batch in flight that fits the protocol, is unclaimed and storable is one send and one receipt away from a reply that completes it and acknowledges every row |
| `Progress.FirstDelivery` | apps/reader-simulator/src/synchronization_submission.rs:252-285 | such worlds arise: the first batch of every bound reader that fits the protocol, for every transportable and storable envelope |
| `Progress.NulIsRefused` | crates/persistence/src/repositories/synchronization_ingest.rs:463-490 | a reader's first batch with such an envelope is sent and then refused, whenever it is received |
| `NoneStuck.NoTransactionStuck` | apps/reader-simulator/src/synchronization_submission.rs:252-285 | from every such world, each transaction that waits or is in a fitting active batch, and is clear of other readers, can still be acknowledged, whatever other rows cannot be sent |
| `NoneStuck.NonTerminalIsOpen` | crates/persistence/src/reader_sync.rs:328-344 | each row that is not terminal is in an active batch, or waits once its retry time has come |
| `FarePolicies.ValidateExact` | crates/fare-engine/src/policy.rs:286-321 | validation accepts exactly the well-formed policies, unchanged |
| `FarePolicies.ValidateErrors` | crates/fare-engine/src/policy.rs:286-408 | each validation error names a real fault |
| `FareLaws.PercentageRoundsDown` | crates/fare-engine/src/evaluation.rs:510-525 | the percentage is the exact value rounded down: at most the amount, less than one minor unit below exact |
| `FareLaws.NetMonotoneInPrice` | crates/fare-engine/src/evaluation.rs:510-525 | despite rounding, a larger price never nets less |
| `FareLaws.NetAntitoneInRate` | crates/fare-engine/src/evaluation.rs:510-525 | a larger rate never nets more |
| `FareLaws.TransferStage` | crates/fare-engine/src/transfer.rs:126-199 | succeeds exactly when the previous fare is not later; the discount applies exactly within the window and never below zero |
| `FareLaws.CapStage` | crates/fare-engine/src/cap.rs:161-240 | succeeds exactly on consistent histories; charges the least of fare and both allowances; the unchecked additions never overflow, so the flags compare true sums |
| `FareLaws.GrossStage` | crates/fare-engine/src/evaluation.rs:493-508 | zone surcharge and base-plus-zone overflow exactly when the true values exceed 64 bits |
| `FareLaws.ProductStage` | crates/fare-engine/src/product.rs:282-368 | never fails; a product covers exactly when valid now and covering both ends, and then waives the fare; otherwise the reason is the first of early, late and out of zones |
| `FareLaws.EvaluateFareExact` | crates/fare-engine/src/evaluation.rs:336-439 | evaluation succeeds exactly on the evaluable inputs and yields the closed-form capped fare, over distance and the class's own rate; each error has its input cause, so all later arithmetic and currency errors are unreachable |
| `FareLaws.StagesBalance` | crates/fare-engine/src/evaluation.rs:342-439 | each stage hands on what it does not discount; the evidence names the distance, the class's rate and the transfer's eligibility |
| `FareLaws.FareConservation` | crates/fare-engine/src/evaluation.rs:342-439 | base plus zone surcharge equals final fare plus the four discounts, all non-negative and in policy currency |
| `FareLaws.DecisionExact` | crates/fare-engine/src/evaluation.rs:395-476 | an approval charges exactly the final fare, within balance and both allowances, with the reason that lowered it; each rejection has exactly its cause |
| `FareLaws.StoredValueFare` | crates/fare-engine/src/evaluation.rs:336-439 | without a product the final fare is the capped fare |
| `FareLaws.FareMonotoneInDistance` | crates/fare-engine/src/evaluation.rs:342-377 | without a product a longer journey never costs less |
| `FareLaws.FareAntitoneInRate` | crates/fare-engine/src/evaluation.rs:342-377 | without a product a larger discount rate never costs more |
| `FareLaws.ChargeAllClosedForm` | crates/fare-engine/src/cap.rs:161-211 | charging any list of fares one by one charges in total the least of their sum and the two allowances |
| `FareLaws.ChargeOrderIrrelevant` | crates/fare-engine/src/cap.rs:161-211 | the total does not depend on the order of the fares |
| `FareLaws.ChargeDay` | crates/fare-engine/src/cap.rs:161-211 | a day from any weekly total charges the least of the sum, the daily cap and the weekly allowance |
| `FareLaws.ChargeWeekClosedForm` | crates/fare-engine/src/cap.rs:161-211 | over any list of days the week charges the least of the weekly allowance and the capped days |
| `FareLaws.OfflineRefinesOnline` | crates/fare-engine/src/offline.rs:133-241 | offline succeeds exactly when its context is usable and online succeeds, with the online evidence and the two snapshot ages; it approves exactly the fresh online approvals within the limit, for the same charge; each rejection is the first obstacle and each error has its cause |

## Left out

- HTTP server, client, headers, body sizes and status mapping: input and output plumbing.
- SQL, connection pools and migrations: only guarded updates, constraints that can fail, and atomicity are modelled.
- SHA-256, UUIDs and JSON serialization: library code.
- Telemetry, error texts and the field names carried by stored-value errors, which share one error value here.
- Operations called with another reader identity than the bound one: they find no rows.
- Credential, policy version, fare decision and event time of a queued row: carried unchanged, no operation reads them.
- The update time of the reader-state row: enqueueing overwrites it without a guard.
- The per-entry outcome table of the backend: it repeats the stored acknowledgement.
- The trimming of environment and software texts inside request assembly: the reader stores them trimmed.
- Listing ready batches and the backend's failure-category mapping: they would only add easy members.
- Account, credential, equipment and product lifecycles, domain events, codecs, the scenario runner and clock interfaces: small transitions without cross-cutting properties.
- Product and policy identities inside fare evidence, beyond the policy's id and version: they do not affect the fare.
