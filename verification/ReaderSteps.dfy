/** What each durable reader operation does to the database, as a function of
    the database before it. A failed operation rolls back. */
module ReaderSteps {
  import opened Basics
  import opened Texts
  import opened ReaderTables
  import opened ReaderAcknowledgement

  datatype ReaderError =
    | NegativeTime
    | SequenceUnavailable
    | ConstraintViolation
    | WriteConflict
    | EmptyCategory
    | RetryBeforeUpdate
    | InvalidTransition(id: TransactionId)
    | ZeroLimit
    | LimitTooLarge
    | NoEligibleTransactions
    | BatchNotFound
    | QueueStateConflict(blocked: TransactionId)
    | InvalidBatchTransition
    | BatchEntryConflict(expected: nat, updated: nat)
    | CorruptValue
    | ProtocolMismatch
    | SequenceRangeMismatch
    | EntryCountMismatch
    | EntryMismatch(position: nat)
    | BatchNotInFlight
    | ConflictingReplay
    | AcknowledgementNotFound
    | ApplicationBeforeReceipt
    | EntryStateConflict(conflicting: TransactionId)

  datatype Outcome<+T> = Outcome(db: Database, result: Result<T, ReaderError>)

  const RESTART_CATEGORY := "reader_restart"

  // ---- Enqueue ----------------------------------------------------------

  datatype Draft = Draft(id: TransactionId, envelope: Envelope, createdAt: int)

  predicate Present(queue: seq<Row>, id: TransactionId) {
    exists i :: 0 <= i < |queue| && queue[i].id == id
  }

  function Enqueue(db: Database, draft: Draft): Outcome<Row> {
    if draft.createdAt < 0 then Outcome(db, Err(NegativeTime))
    else if db.nextSequence >= I64_MAX then Outcome(db, Err(SequenceUnavailable))
    else if draft.createdAt < db.identity.createdAt then Outcome(db, Err(ConstraintViolation))
    else if Present(db.queue, draft.id) then Outcome(db, Err(WriteConflict))
    else
      var row := Row(draft.id, db.nextSequence, draft.envelope, Pending, 0, None, None, draft.createdAt,
                     draft.createdAt);
      Outcome(db.(nextSequence := db.nextSequence + 1, queue := db.queue + [row]), Ok(row))
  }

  // ---- Single-transaction transitions -----------------------------------

  function UpdateOne(db: Database, id: TransactionId, c: Change): Outcome<()> {
    if Hits(db.queue, map[id := c]) == 1 then Outcome(db.(queue := Update(db.queue, map[id := c])), Ok(()))
    else Outcome(db, Err(InvalidTransition(id)))
  }

  function MarkTransactionInFlight(db: Database, id: TransactionId, at: int): Outcome<()> {
    if at < 0 then Outcome(db, Err(NegativeTime)) else UpdateOne(db, id, Attempt(at))
  }

  function RecordRetryable(db: Database, id: TransactionId, category: string, at: int, retryAt: int): Outcome<()> {
    if at < 0 || retryAt < 0 then Outcome(db, Err(NegativeTime))
    else if retryAt < at then Outcome(db, Err(RetryBeforeUpdate))
    else if Blank(category) then Outcome(db, Err(EmptyCategory))
    else UpdateOne(db, id, Retry(Trim(category), retryAt, at))
  }

  function RecordFinal(db: Database, id: TransactionId, review: bool, category: string, at: int): Outcome<()> {
    if at < 0 then Outcome(db, Err(NegativeTime))
    else if Blank(category) then Outcome(db, Err(EmptyCategory))
    else UpdateOne(db, id, Finish(review, Trim(category), at))
  }

  // ---- Recovery ---------------------------------------------------------

  function QueueIds(queue: seq<Row>): set<TransactionId> {
    set i | 0 <= i < |queue| :: queue[i].id
  }

  /** Restart recovery of the queue leaves the rows of active batches alone. */
  function RecoveryChanges(db: Database, at: int): map<TransactionId, Change> {
    map id | id in QueueIds(db.queue) && !InActiveBatch(db.batches, id) :: Retry(RESTART_CATEGORY, at, at)
  }

  function RecoverQueue(db: Database, at: int): Outcome<nat> {
    if at < 0 then Outcome(db, Err(NegativeTime))
    else
      var changes := RecoveryChanges(db, at);
      Outcome(db.(queue := Update(db.queue, changes)), Ok(Hits(db.queue, changes)))
  }

  predicate Interrupted(b: Batch, at: int) {
    b.state.Submitted? && b.updatedAt <= at
  }

  function RecoverBatch(b: Batch, at: int): Batch {
    if Interrupted(b, at)
    then b.(state := Retryable, retryAt := Some(at), failure := Some(RESTART_CATEGORY), updatedAt := at)
    else b
  }

  function RecoverBatches(db: Database, at: int): Outcome<nat> {
    if at < 0 then Outcome(db, Err(NegativeTime))
    else Outcome(db.(batches := map b | b in db.batches :: RecoverBatch(db.batches[b], at)),
                 Ok(|set b | b in db.batches && Interrupted(db.batches[b], at)|))
  }

  // ---- Selection and batch creation -------------------------------------

  function Insert(row: Row, sorted: seq<Row>): seq<Row> {
    if sorted == [] || sorted[|sorted| - 1].sequence <= row.sequence then sorted + [row]
    else Insert(row, sorted[..|sorted| - 1]) + [sorted[|sorted| - 1]]
  }

  /** ORDER BY local_sequence_number. */
  function InSequenceOrder(rows: seq<Row>): seq<Row> {
    if rows == [] then [] else Insert(rows[|rows| - 1], InSequenceOrder(rows[..|rows| - 1]))
  }

  /** The rows the candidate query selects, before ordering. */
  function Eligible(queue: seq<Row>, batches: map<BatchId, Batch>, at: int): seq<Row> {
    if queue == [] then []
    else
      var row := queue[|queue| - 1];
      Eligible(queue[..|queue| - 1], batches, at)
      + if Ready(row, at) && !InActiveBatch(batches, row.id) then [row] else []
  }

  function Take(rows: seq<Row>, limit: nat): seq<Row> {
    if |rows| <= limit then rows else rows[..limit]
  }

  function Candidates(db: Database, at: int, limit: nat): seq<Row> {
    Take(InSequenceOrder(Eligible(db.queue, db.batches, at)), limit)
  }

  function EntryRows(rows: seq<Row>): (entries: seq<EntryRow>)
    ensures |entries| == |rows|
    ensures forall k :: 0 <= k < |rows| ==> entries[k] == EntryRow(rows[k].id, rows[k].sequence, k)
  {
    seq(|rows|, k requires 0 <= k < |rows| => EntryRow(rows[k].id, rows[k].sequence, k))
  }

  /** The first chosen row whose last update is later than the reservation. */
  function FirstBlocked(rows: seq<Row>, at: int): Option<TransactionId> {
    if rows == [] then None
    else if rows[0].updatedAt > at then Some(rows[0].id)
    else FirstBlocked(rows[1..], at)
  }

  function NewBatch(protocol: int, rows: seq<Row>, at: int): Batch
    requires rows != []
  {
    Batch(protocol, rows[0].sequence, rows[|rows| - 1].sequence, Prepared, 0, None, None, None, at, at, EntryRows(rows))
  }

  function CreateBatch(db: Database, batchId: BatchId, protocol: Version, at: int, limit: nat): Outcome<Batch> {
    if at < 0 then Outcome(db, Err(NegativeTime))
    else if limit == 0 then Outcome(db, Err(ZeroLimit))
    else if limit > I64_MAX then Outcome(db, Err(LimitTooLarge))
    else
      var chosen := Candidates(db, at, limit);
      if chosen == [] then Outcome(db, Err(NoEligibleTransactions))
      else if batchId in db.batches then Outcome(db, Err(ConstraintViolation))
      else match FirstBlocked(chosen, at)
        case Some(id) => Outcome(db, Err(QueueStateConflict(id)))
        case None =>
          var batch := NewBatch(protocol, chosen, at);
          Outcome(db.(queue := Update(db.queue, ForEntries(batch.entries, Reserve(at))),
                      batches := db.batches[batchId := batch]),
                  Ok(batch))
  }

  // ---- Loading a batch --------------------------------------------------

  predicate BatchDecodes(b: Batch) {
    && 1 <= b.protocol <= 65535
    && 1 <= b.first <= b.last
    && 0 <= b.attempts <= U32_MAX
    && (b.submittedAt.Some? ==> b.submittedAt.value >= 0)
    && (b.retryAt.Some? ==> b.retryAt.value >= 0)
    && 0 <= b.createdAt <= b.updatedAt
    && (forall k :: 0 <= k < |b.entries| ==> b.entries[k].position == k && b.entries[k].sequence > 0)
    && b.entries != []
    && b.entries[0].sequence == b.first && b.entries[|b.entries| - 1].sequence == b.last
  }

  function LoadBatch(db: Database, batchId: BatchId): Result<Batch, ReaderError> {
    if batchId !in db.batches then Err(BatchNotFound)
    else if BatchDecodes(db.batches[batchId]) then Ok(db.batches[batchId])
    else Err(CorruptValue)
  }

  // ---- Batch lifecycle --------------------------------------------------

  /** Updates one batch row together with the same change of all its queue
      rows; the reload that follows the commit gives the result. */
  function ChangeBatch(db: Database, batchId: BatchId, after: Batch, c: Change): Outcome<Batch>
    requires batchId in db.batches
  {
    var entries := db.batches[batchId].entries;
    var changes := ForEntries(entries, c);
    if entries == [] then Outcome(db, Err(CorruptValue))
    else if Hits(db.queue, changes) != |entries| then
      Outcome(db, Err(BatchEntryConflict(|entries|, Hits(db.queue, changes))))
    else
      var db' := db.(queue := Update(db.queue, changes), batches := db.batches[batchId := after]);
      Outcome(db', LoadBatch(db', batchId))
  }

  predicate Submittable(b: Batch, at: int) {
    b.updatedAt <= at && (b.state.Prepared? || (b.state.Retryable? && Due(b.retryAt, at)))
  }

  function SubmittedBatch(b: Batch, at: int): Batch {
    b.(state := Submitted, attempts := b.attempts + 1,
       submittedAt := if b.submittedAt.Some? then b.submittedAt else Some(at),
       retryAt := None, failure := None, updatedAt := at)
  }

  function SubmitBatch(db: Database, batchId: BatchId, at: I64): Outcome<Batch> {
    if at < 0 then Outcome(db, Err(NegativeTime))
    else if batchId !in db.batches || !Submittable(db.batches[batchId], at) then
      Outcome(db, Err(InvalidBatchTransition))
    else ChangeBatch(db, batchId, SubmittedBatch(db.batches[batchId], at), Resubmit(at))
  }

  predicate InFlightBy(db: Database, batchId: BatchId, at: int) {
    batchId in db.batches && db.batches[batchId].state.Submitted? && db.batches[batchId].updatedAt <= at
  }

  function FailBatchRetryably(db: Database, batchId: BatchId, category: string, at: int, retryAt: int): Outcome<Batch> {
    if at < 0 || retryAt < 0 then Outcome(db, Err(NegativeTime))
    else if retryAt < at then Outcome(db, Err(RetryBeforeUpdate))
    else if Blank(category) then Outcome(db, Err(EmptyCategory))
    else if !InFlightBy(db, batchId, at) then Outcome(db, Err(InvalidBatchTransition))
    else
      var after := db.batches[batchId].(state := Retryable, retryAt := Some(retryAt), failure := Some(Trim(category)),
                                        updatedAt := at);
      var db' := db.(batches := db.batches[batchId := after]);
      Outcome(db', LoadBatch(db', batchId))
  }

  function FinishedBatch(b: Batch, review: bool, category: string, at: int): Batch {
    b.(state := if review then UnderReview else Failed, retryAt := None, failure := Some(category), updatedAt := at)
  }

  function FailBatchFinally(db: Database, batchId: BatchId, review: bool, category: string, at: int): Outcome<Batch> {
    if at < 0 then Outcome(db, Err(NegativeTime))
    else if Blank(category) then Outcome(db, Err(EmptyCategory))
    else if !InFlightBy(db, batchId, at) then Outcome(db, Err(InvalidBatchTransition))
    else ChangeBatch(db, batchId, FinishedBatch(db.batches[batchId], review, Trim(category), at),
                     Finish(review, Trim(category), at))
  }

  // ---- Storing an acknowledgement ---------------------------------------

  predicate LineFits(line: AckLine, e: EntryRow) {
    line.transactionId == e.transactionId && line.sequence == e.sequence
  }

  predicate Matches(a: Acknowledgement, b: Batch) {
    && a.protocol == b.protocol && a.first == b.first && a.last == b.last
    && |a.lines| == |b.entries|
    && forall k :: 0 <= k < |a.lines| ==> LineFits(a.lines[k], b.entries[k])
  }

  /** The first position at which the lines and entries differ. */
  function FirstMismatch(lines: seq<AckLine>, entries: seq<EntryRow>, k: nat): Option<nat>
    requires k <= |lines| == |entries|
    decreases |lines| - k
  {
    if k == |lines| then None
    else if LineFits(lines[k], entries[k]) then FirstMismatch(lines, entries, k + 1)
    else Some(k)
  }

  function MatchError(a: Acknowledgement, b: Batch): Option<ReaderError> {
    if a.protocol != b.protocol then Some(ProtocolMismatch)
    else if a.first != b.first || a.last != b.last then Some(SequenceRangeMismatch)
    else if |a.lines| != |b.entries| then Some(EntryCountMismatch)
    else match FirstMismatch(a.lines, b.entries, 0)
      case None => None
      case Some(k) => Some(EntryMismatch(k))
  }

  /** The checks made before the storing transaction begins. */
  function CheckAck(db: Database, a: Acknowledgement): Option<ReaderError> {
    if a.readerId != db.identity.readerId then Some(BatchNotFound)
    else match LoadBatch(db, a.batchId)
      case Err(e) => Some(e)
      case Ok(batch) => MatchError(a, batch)
  }

  /** The storing transaction itself; the result tells whether it replayed. */
  function StoreChecked(db: Database, a: Acknowledgement): Outcome<bool> {
    var payload := CanonicalPayload(a);
    if a.batchId in db.acks then
      Outcome(db, if db.acks[a.batchId].payload == payload then Ok(true) else Err(ConflictingReplay))
    else if a.batchId !in db.batches || !db.batches[a.batchId].state.Submitted? then Outcome(db, Err(BatchNotInFlight))
    else Outcome(db.(acks := db.acks[a.batchId := StoredAck(payload, None)]), Ok(false))
  }

  function StoreAck(db: Database, a: Acknowledgement): Outcome<bool> {
    match CheckAck(db, a)
    case Some(e) => Outcome(db, Err(e))
    case None => StoreChecked(db, a)
  }

  // ---- Applying an acknowledgement --------------------------------------

  datatype Counts = Counts(accepted: nat, retryable: nat, refused: nat, review: nat)

  function Counted(c: Counts, r: Resolution): Counts {
    match r
    case Accepted => c.(accepted := c.accepted + 1)
    case RetryLater(_, _) => c.(retryable := c.retryable + 1)
    case Refused(_) => c.(refused := c.refused + 1)
    case Review(_) => c.(review := c.review + 1)
  }

  function CountLines(lines: seq<AckLine>): Counts {
    if lines == [] then Counts(0, 0, 0, 0)
    else Counted(CountLines(lines[..|lines| - 1]), lines[|lines| - 1].resolution)
  }

  datatype Report = Report(batchId: BatchId, appliedNow: bool, appliedAt: int, counts: Counts, lastAcknowledged: int)

  /** One change per acknowledged line. */
  function ResolveChanges(lines: seq<AckLine>, at: int): map<TransactionId, Change> {
    if lines == [] then map[]
    else
      var last := lines[|lines| - 1];
      ResolveChanges(lines[..|lines| - 1], at)[last.transactionId := Resolve(last.resolution, at)]
  }

  predicate LineHits(queue: seq<Row>, line: AckLine, at: int) {
    exists i :: 0 <= i < |queue| && queue[i].id == line.transactionId && queue[i].sequence == line.sequence
                && Guard(queue[i], Resolve(line.resolution, at))
  }

  function FirstConflict(queue: seq<Row>, lines: seq<AckLine>, at: int, k: nat): Option<TransactionId>
    requires k <= |lines|
    decreases |lines| - k
  {
    if k == |lines| then None
    else if LineHits(queue, lines[k], at) then FirstConflict(queue, lines, at, k + 1)
    else Some(lines[k].transactionId)
  }

  /** The end of the resolved rows that follow position n without a gap. */
  function ResolvedPrefix(queue: seq<Row>, n: nat): (m: nat)
    decreases |queue| - n
  {
    if n < |queue| && queue[n].state.Resolved() then ResolvedPrefix(queue, n + 1) else n
  }

  function CompletedBatch(b: Batch, at: int): Batch {
    b.(state := Completed, retryAt := None, failure := None, updatedAt := at)
  }

  ghost function ApplyLines(db: Database, batchId: BatchId, lines: seq<AckLine>, at: int): Outcome<Report>
    requires batchId in db.acks && batchId in db.batches
  {
    match FirstConflict(db.queue, lines, at, 0)
    case Some(id) => Outcome(db, Err(EntryStateConflict(id)))
    case None =>
      if db.batches[batchId].updatedAt > at then Outcome(db, Err(BatchNotInFlight))
      else
        var queue := Update(db.queue, ResolveChanges(lines, at));
        var watermark := ResolvedPrefix(queue, if db.lastAcknowledged < 0 then 0 else db.lastAcknowledged);
        Outcome(db.(queue := queue, lastAcknowledged := watermark,
                    batches := db.batches[batchId := CompletedBatch(db.batches[batchId], at)],
                    acks := db.acks[batchId := db.acks[batchId].(appliedAt := Some(at))]),
                Ok(Report(batchId, true, at, CountLines(lines), watermark)))
  }

  ghost function ApplyAck(db: Database, batchId: BatchId, at: int): Outcome<Report> {
    if at < 0 then Outcome(db, Err(NegativeTime))
    else if batchId !in db.acks then Outcome(db, Err(AcknowledgementNotFound))
    else
      var ack := db.acks[batchId];
      var payload := ack.payload;
      if payload.receivedAt < 0 || !Decodable(payload.entries, payload.receivedAt) || payload.entries == [] then
        Outcome(db, Err(CorruptValue))
      else
        var lines := Lines(payload);
        if ack.appliedAt.Some? then
          if ack.appliedAt.value < 0 then Outcome(db, Err(CorruptValue))
          else Outcome(db, Ok(Report(batchId, false, ack.appliedAt.value, CountLines(lines), db.lastAcknowledged)))
        else if at < payload.receivedAt then Outcome(db, Err(ApplicationBeforeReceipt))
        else if batchId !in db.batches || !db.batches[batchId].state.Submitted? then Outcome(db, Err(BatchNotInFlight))
        else ApplyLines(db, batchId, lines, at)
  }

  // ---- Runs -------------------------------------------------------------

  datatype Operation =
    | DoEnqueue(draft: Draft)
    | DoMarkTransaction(id: TransactionId, at: int)
    | DoRecordRetryable(id: TransactionId, category: string, at: int, retryAt: int)
    | DoRecordFinal(id: TransactionId, review: bool, category: string, at: int)
    | DoRecoverQueue(at: int)
    | DoCreateBatch(newBatch: BatchId, protocol: Version, at: int, limit: nat)
    | DoSubmitBatch(batchId: BatchId, submittedAt: I64)
    | DoFailRetryably(batchId: BatchId, category: string, at: int, retryAt: int)
    | DoFailFinally(batchId: BatchId, review: bool, category: string, at: int)
    | DoRecoverBatches(at: int)
    | DoStoreAck(ack: Acknowledgement)
    | DoApplyAck(batchId: BatchId, at: int)
  {
    /** Acknowledgements come out of their validating constructor. */
    predicate Sane() {
      DoStoreAck? ==> Constructible(ack)
    }

    /** Neither of the updates that touch one queue row on its own. */
    predicate BatchLevel() {
      !DoMarkTransaction? && !DoRecordRetryable? && !DoRecordFinal?
    }
  }

  /** The database after one operation. */
  ghost function Step(db: Database, op: Operation): Database {
    match op
    case DoEnqueue(draft) => Enqueue(db, draft).db
    case DoMarkTransaction(id, at) => MarkTransactionInFlight(db, id, at).db
    case DoRecordRetryable(id, category, at, retryAt) => RecordRetryable(db, id, category, at, retryAt).db
    case DoRecordFinal(id, review, category, at) => RecordFinal(db, id, review, category, at).db
    case DoRecoverQueue(at) => RecoverQueue(db, at).db
    case DoCreateBatch(newBatch, protocol, at, limit) => CreateBatch(db, newBatch, protocol, at, limit).db
    case DoSubmitBatch(batchId, at) => SubmitBatch(db, batchId, at).db
    case DoFailRetryably(batchId, category, at, retryAt) => FailBatchRetryably(db, batchId, category, at, retryAt).db
    case DoFailFinally(batchId, review, category, at) => FailBatchFinally(db, batchId, review, category, at).db
    case DoRecoverBatches(at) => RecoverBatches(db, at).db
    case DoStoreAck(ack) => StoreAck(db, ack).db
    case DoApplyAck(batchId, at) => ApplyAck(db, batchId, at).db
  }

  /** The database after a run of operations. */
  ghost function Run(db: Database, ops: seq<Operation>): Database {
    if ops == [] then db else Step(Run(db, ops[..|ops| - 1]), ops[|ops| - 1])
  }

  ghost predicate Sane(ops: seq<Operation>) {
    forall k :: 0 <= k < |ops| ==> ops[k].Sane()
  }

  ghost predicate BatchLevel(ops: seq<Operation>) {
    forall k :: 0 <= k < |ops| ==> ops[k].BatchLevel()
  }
}
