/** Submitting one in-flight batch: the response is stored and applied, or the
    failure is recorded, according to its category. */
module Submission {
  import opened Basics
  import opened Texts
  import opened ReaderTables
  import opened ReaderAcknowledgement
  import opened ReaderSteps
  import opened ReaderInvariant
  import opened ReaderPreservation
  import opened ReaderRuns
  import opened ReaderCoupling
  import opened ReaderRequest
  import opened Backend
  import opened World
  import opened Delivery
  import Protocol

  datatype Disposition = RetryBatch | FailBatch | ReviewBatch

  function FailureDisposition(c: Protocol.Category): Disposition {
    match c
    case NetworkTimeout => RetryBatch
    case ConnectionFailure => RetryBatch
    case ResponseDecodeFailure => RetryBatch
    case BackendTemporarilyUnavailable => RetryBatch
    case PayloadTooLarge => FailBatch
    case UnsupportedProtocol => FailBatch
    case BackendValidationFailure => FailBatch
    case ReaderNotRegistered => ReviewBatch
    case ReaderNotOperational => ReviewBatch
    case EnvironmentMismatch => ReviewBatch
    case BatchIdentityConflict => ReviewBatch
    case BatchRangeMismatch => ReviewBatch
    case EntryOrderMismatch => ReviewBatch
    case TransactionIdentityConflict => ReviewBatch
    case ManualReviewRequired => ReviewBatch
  }

  type Response = Result<Reply, Protocol.Category>

  datatype SubmissionError = RequestFailed | TranslationFailed | StorageFailed(error: ReaderError)

  datatype Settlement = Applied(replayed: bool, report: Report) | Recorded(disposition: Disposition, batch: Batch)

  datatype Submitted = SubmissionOutcome(db: Database, result: Result<Settlement, SubmissionError>)

  /** Store, then apply no earlier than receipt. */
  ghost function Accept(db: Database, batchId: BatchId, a: Acknowledgement, completedAt: int): Submitted {
    var stored := StoreAck(db, a);
    if stored.result.Err? then SubmissionOutcome(stored.db, Err(StorageFailed(stored.result.error)))
    else
      var applied := ApplyAck(stored.db, batchId, Max(completedAt, a.receivedAt));
      SubmissionOutcome(applied.db, if applied.result.Ok? then Ok(Applied(stored.result.value, applied.result.value))
                                    else Err(StorageFailed(applied.result.error)))
  }

  function Recording(d: Disposition, o: Outcome<Batch>): Submitted {
    SubmissionOutcome(o.db,
                      if o.result.Ok? then Ok(Recorded(d, o.result.value)) else Err(StorageFailed(o.result.error)))
  }

  function Refuse(db: Database, batchId: BatchId, c: Protocol.Category, completedAt: int, retryAt: int): Submitted {
    var text := Protocol.CategoryText(c);
    match FailureDisposition(c)
    case RetryBatch => Recording(RetryBatch, FailBatchRetryably(db, batchId, text, completedAt, retryAt))
    case FailBatch => Recording(FailBatch, FailBatchFinally(db, batchId, false, text, completedAt))
    case ReviewBatch => Recording(ReviewBatch, FailBatchFinally(db, batchId, true, text, completedAt))
  }

  ghost function Submit(db: Database, batchId: BatchId, response: Response, completedAt: int, retryAt: int): Submitted {
    if !Transportable(db, batchId) then SubmissionOutcome(db, Err(RequestFailed))
    else match response
      case Ok(reply) =>
        if Protocol.ValidAck(reply) && RetriesAfterReceipt(reply)
        then Accept(db, batchId, Translated(reply), completedAt)
        else SubmissionOutcome(db, Err(TranslationFailed))
      case Err(category) => Refuse(db, batchId, category, completedAt, retryAt)
  }

  /** Whatever the response, a submission is a run of batch-level operations,
      so everything proved about runs covers it. */
  lemma SubmissionIsRun(db: Database, batchId: BatchId, response: Response, completedAt: int, retryAt: int)
    requires BatchReachable(db)
    ensures BatchReachable(Submit(db, batchId, response, completedAt, retryAt).db)
  {
    hide BatchReachable, StoreAck, ApplyAck, FailBatchRetryably, FailBatchFinally, Transportable,
         Protocol.CategoryText, Constructible;
    match response {
      case Ok(reply) =>
        if Protocol.ValidAck(reply) && RetriesAfterReceipt(reply) {
          var t := Translated(reply);
          TranslationExact(reply);
          hide Protocol.ValidAck, RetriesAfterReceipt, Translated;
          Extend(db, DoStoreAck(t));
          Extend(StoreAck(db, t).db, DoApplyAck(batchId, Max(completedAt, t.receivedAt)));
        }
      case Err(c) =>
        var text := Protocol.CategoryText(c);
        Extend(db, DoFailRetryably(batchId, text, completedAt, retryAt));
        Extend(db, DoFailFinally(batchId, false, text, completedAt));
        Extend(db, DoFailFinally(batchId, true, text, completedAt));
    }
  }

  // ---- Failures ---------------------------------------------------------

  /** A batch whose completion can be recorded at this time. */
  predicate Awaiting(db: Database, batchId: BatchId, completedAt: int) {
    completedAt >= 0 && InFlightBy(db, batchId, completedAt) && db.batches[batchId].attempts <= U32_MAX
  }

  predicate AllRows(queue: seq<Row>, entries: seq<EntryRow>, state: QueueState) {
    forall k :: 0 <= k < |entries| ==> EntryOk(queue, entries[k]) && queue[entries[k].sequence - 1].state == state
  }

  lemma RetryRecorded(db: Database, batchId: BatchId, c: Protocol.Category, completedAt: int, retryAt: int)
    requires Inv(db) && Awaiting(db, batchId, completedAt) && completedAt <= retryAt
    ensures var text := Protocol.CategoryText(c); var o := FailBatchRetryably(db, batchId, text, completedAt, retryAt);
      && o.result.Ok? && o.result.value.state.Retryable? && o.result.value.failure == Some(text)
      && o.result.value.updatedAt == completedAt
      && o.result.value.retryAt == Some(retryAt) && o.db == db.(batches := db.batches[batchId := o.result.value])
  {
    var text := Protocol.CategoryText(c);
    CategoryTextTrimmed(c);
    FailRetryablyKeepsInv(db, batchId, text, completedAt, retryAt);
    LoadBatchExact(FailBatchRetryably(db, batchId, text, completedAt, retryAt).db, batchId);
    LoadedValue(FailBatchRetryably(db, batchId, text, completedAt, retryAt).db, batchId);
    hide Inv, Evolves, LoadBatch, Trim, Protocol.CategoryText;
  }

  lemma FinishedRow(queue: seq<Row>, entries: seq<EntryRow>, review: bool, text: string, at: int, k: nat)
    requires AllHit(queue, entries, ForEntries(entries, Finish(review, text, at))) && k < |entries|
    ensures var queue' := Update(queue, ForEntries(entries, Finish(review, text, at)));
      && EntryOk(queue', entries[k])
      && queue'[entries[k].sequence - 1].state == if review then ManualReview else PermanentFailure
  {
    assert EntryOk(queue, entries[k]);
    assert Hit(queue[entries[k].sequence - 1], ForEntries(entries, Finish(review, text, at)));
  }

  lemma FinalRecorded(db: Database, batchId: BatchId, c: Protocol.Category, review: bool, completedAt: int)
    requires BatchReachable(db) && Awaiting(db, batchId, completedAt)
    ensures var text := Protocol.CategoryText(c); var o := FailBatchFinally(db, batchId, review, text, completedAt);
      && o.result.Ok? && o.result.value == FinishedBatch(db.batches[batchId], review, text, completedAt)
      && AllRows(o.db.queue, db.batches[batchId].entries, if review then ManualReview else PermanentFailure)
  {
    hide Inv, Evolves, Coupled, BatchReachable, LoadBatch, Trim, Protocol.CategoryText, FailBatchFinally;
    var text := Protocol.CategoryText(c);
    CategoryTextTrimmed(c);
    BatchRunsCoupled(db);
    FinalFailureCommits(db, batchId, review, text, completedAt);
    FailFinallyKeepsInv(db, batchId, review, text, completedAt);
    var o := FailBatchFinally(db, batchId, review, text, completedAt);
    LoadBatchExact(o.db, batchId);
    LoadedValue(o.db, batchId);
    FinalRows(db, batchId, review, text, completedAt);
  }

  lemma FinalRows(db: Database, batchId: BatchId, review: bool, text: string, at: int)
    requires Inv(db) && Coupled(db) && at >= 0 && !Blank(text) && Trim(text) == text && InFlightBy(db, batchId, at)
    ensures AllRows(FailBatchFinally(db, batchId, review, text, at).db.queue, db.batches[batchId].entries,
                    if review then ManualReview else PermanentFailure)
  {
    hide Inv, Coupled, Trim, LoadBatch, Hits, Update, AllHit, ForEntries, EntryOk;
    var b := db.batches[batchId];
    ChangeBatchExact(db, batchId, FinishedBatch(b, review, text, at), Finish(review, text, at));
    forall k | 0 <= k < |b.entries|
      ensures var queue := Update(db.queue, ForEntries(b.entries, Finish(review, text, at)));
        EntryOk(queue, b.entries[k]) && 0 <= b.entries[k].sequence - 1 < |queue|
        && queue[b.entries[k].sequence - 1].state == if review then ManualReview else PermanentFailure
    {
      FinishedRow(db.queue, b.entries, review, text, at, k);
      EntryInRange(Update(db.queue, ForEntries(b.entries, Finish(review, text, at))), b.entries[k]);
    }
  }

  /** Failures that may pass. */
  const TRANSIENT: set<Protocol.Category> := {
    Protocol.NetworkTimeout, Protocol.ConnectionFailure, Protocol.ResponseDecodeFailure,
    Protocol.BackendTemporarilyUnavailable}

  /** Failures that the same payload would meet again. */
  const LASTING: set<Protocol.Category> := {
    Protocol.PayloadTooLarge, Protocol.UnsupportedProtocol, Protocol.BackendValidationFailure}

  /** A failed transport always settles an awaiting batch: transient failures
      schedule it for retry and leave the queue alone; lasting ones fail it
      and every one of its rows; all others put it and every row under
      review. The batch records the category and the time. */
  lemma FailuresSettle(db: Database, batchId: BatchId, c: Protocol.Category, completedAt: int, retryAt: int)
    requires BatchReachable(db) && Transportable(db, batchId) && Awaiting(db, batchId, completedAt)
    requires completedAt <= retryAt
    ensures var o := Submit(db, batchId, Err(c), completedAt, retryAt); var entries := db.batches[batchId].entries;
      && o.result.Ok? && o.result.value.Recorded? && batchId in o.db.batches
      && o.result.value.batch == o.db.batches[batchId]
      && o.db.batches[batchId].failure == Some(Protocol.CategoryText(c))
      && o.db.batches[batchId].updatedAt == completedAt
      && if c in TRANSIENT then
           && o.result.value.disposition == RetryBatch && o.db.batches[batchId].state == Retryable
           && o.db.queue == db.queue && o.db.batches[batchId].retryAt == Some(retryAt)
         else if c in LASTING then
           && o.result.value.disposition == FailBatch && o.db.batches[batchId].state == Failed
           && o.db.batches[batchId].retryAt == None && AllRows(o.db.queue, entries, PermanentFailure)
         else
           && o.result.value.disposition == ReviewBatch && o.db.batches[batchId].state == UnderReview
           && o.db.batches[batchId].retryAt == None && AllRows(o.db.queue, entries, ManualReview)
  {
    hide Inv, Coupled, BatchReachable, FailBatchRetryably, FailBatchFinally, Protocol.CategoryText, Transportable,
         AllRows, LoadBatch;
    BatchRunsCoupled(db);
    CategoryTextTrimmed(c);
    if FailureDisposition(c).RetryBatch? {
      RetryRecorded(db, batchId, c, completedAt, retryAt);
    } else {
      var review := FailureDisposition(c).ReviewBatch?;
      FinalRecorded(db, batchId, c, review, completedAt);
      FinalFailureCommits(db, batchId, review, Protocol.CategoryText(c), completedAt);
    }
  }

  // ---- Success, end to end ----------------------------------------------

  /** Only batch-level operations happen at the reader. */
  ghost predicate ArisesByBatches(g: Setting, w: World) {
    exists identity: Identity, events :: AllPossible(identity.readerId, events) && NoRowOps(events)
                                         && w == After(g, Start(identity), events)
  }

  predicate NoRowOps(events: seq<Event>) {
    forall k :: 0 <= k < |events| && events[k].Local? ==> events[k].op.BatchLevel()
  }

  lemma NextCoupled(g: Setting, w: World, e: Event)
    requires Inv(w.db) && Coupled(w.db) && (e.Local? ==> e.op.BatchLevel())
    ensures Coupled(Next(g, w, e).db)
  {
    hide Inv, Coupled, Step, Process, StoreAck, RequestOf, Translated, Protocol.ValidRequest, Transportable;
    match e {
      case Local(op) => StepCoupled(w.db, op);
      case Deliver(reply) =>
        if Protocol.ValidAck(reply) && RetriesAfterReceipt(reply) {
          StoreCoupled(w.db, Translated(reply));
        }
      case _ =>
    }
  }

  lemma {:induction false} AfterCoupled(g: Setting, identity: Identity, events: seq<Event>)
    requires AllPossible(identity.readerId, events) && NoRowOps(events)
    ensures Coupled(After(g, Start(identity), events).db)
  {
    hide Next, Possible, WorldInv, Inv;
    if events != [] {
      var n := |events| - 1;
      AfterCoupled(g, identity, events[..n]);
      AfterOk(g, identity, events[..n]);
      WorldHasInv(g, After(g, Start(identity), events[..n]));
      hide Coupled;
      NextCoupled(g, After(g, Start(identity), events[..n]), events[n]);
    }
  }

  lemma ArisesCoupled(g: Setting, w: World)
    requires ArisesByBatches(g, w)
    ensures Arises(g, w) && Coupled(w.db)
  {
    hide Coupled, After, Possible;
    var identity: Identity, events :| AllPossible(identity.readerId, events) && NoRowOps(events)
                                      && w == After(g, Start(identity), events);
    AfterCoupled(g, identity, events);
  }

  lemma StoredIsAccepting(g: Setting, w: World, b: BatchId)
    requires WorldInv(g, w) && b in w.backend.batches
    ensures var x := w.backend.batches[b]; x.ack.receivedAt >= 0 && x.ack == AcceptingAck(x.request, x.ack.receivedAt)
  {
    hide Inv, RequestsOk, BatchesAsked, RepliesOk, AcksAnswered, RecordsOk, Protocol.ValidRequest, RequestDigest,
         FirstIdentified, AcceptingAck, SequencesUnique;
    assert StoredOk(g.hash, w.backend.transactions, b, w.backend.batches[b]);
  }

  /** The stored acknowledgement accepts every entry. */
  lemma StoredAccepts(g: Setting, w: World, a: Reply)
    requires WorldInv(g, w) && a in w.replies && Entitled(a)
    ensures var t := Translated(a);
      t.receivedAt >= 0 && forall k :: 0 <= k < |t.lines| ==> t.lines[k].resolution.Accepted?
  {
    hide WorldInv, Entitled, Translated, AcceptingAck, Protocol.ValidAck, RetriesAfterReceipt;
    ReplyIsValid(g, w, a);
    StoredIsAccepting(g, w, a.batchId);
    var x := w.backend.batches[a.batchId];
    AcceptingAckFits(x.request, x.ack.receivedAt);
    TranslatedHead(x.ack);
  }

  lemma StoredLinesAccept(t: Acknowledgement, p: Payload)
    requires Constructible(t) && p == CanonicalPayload(t) && forall k :: 0 <= k < |t.lines| ==> t.lines[k].sequence > 0
    requires forall k :: 0 <= k < |t.lines| ==> t.lines[k].resolution.Accepted?
    ensures |Lines(p)| == |t.lines| && forall k :: 0 <= k < |t.lines| ==> Lines(p)[k].resolution.Accepted?
  {
    StoredLinesDecode(t);
  }

  lemma LineSequences(a: Reply)
    requires Entitled(a)
    ensures forall k :: 0 <= k < |Translated(a).lines| ==> Translated(a).lines[k].sequence > 0
  {
    var lines := Translated(a).lines;
    forall k | 0 <= k < |lines| ensures lines[k].sequence > 0 {
      assert Ok(lines[k]) == TranslateEntry(a.entries[k]);
    }
  }

  /** Once stored for an awaiting batch, an accepting acknowledgement is
      applied in full. */
  lemma AcceptanceApplies(db: Database, batchId: BatchId, completedAt: int)
    requires Inv(db) && Coupled(db) && Awaiting(db, batchId, completedAt)
    requires batchId in db.acks && db.acks[batchId].appliedAt.None?
    requires forall k :: 0 <= k < |Lines(db.acks[batchId].payload)| ==>
      Lines(db.acks[batchId].payload)[k].resolution.Accepted?
    ensures var entries := db.batches[batchId].entries;
      var o := ApplyAck(db, batchId, Max(completedAt, db.acks[batchId].payload.receivedAt));
      && o.result.Ok? && o.result.value.appliedNow && o.result.value.counts.accepted == |entries|
      && batchId in o.db.batches && o.db.batches[batchId].state.Completed?
      && AllRows(o.db.queue, entries, Acknowledged)
  {
    hide Inv, Evolves, Coupled, ApplyAck, Lines, CountLines, Names, QueueEvolves, EntryOk;
    var at := Max(completedAt, db.acks[batchId].payload.receivedAt);
    CoupledApplyExact(db, batchId, at);
    AppliedReport(db, batchId, at);
    var o := ApplyAck(db, batchId, at);
    assert o.db != db;
    ApplicationExact(db, batchId, at);
    CountsTotal(Lines(db.acks[batchId].payload));
    var entries, lines := db.batches[batchId].entries, Lines(db.acks[batchId].payload);
    forall k | 0 <= k < |entries| ensures EntryOk(o.db.queue, entries[k]) && EntryAcknowledged(o.db.queue, entries[k]) {
      AcceptedRow(db.queue, o.db.queue, entries[k], lines[k].resolution, at);
    }
    assert AllRows(o.db.queue, entries, Acknowledged);
  }

  predicate EntryAcknowledged(queue: seq<Row>, e: EntryRow) {
    1 <= e.sequence <= |queue| && queue[e.sequence - 1].state == Acknowledged
  }

  lemma AcceptedRow(q: seq<Row>, r: seq<Row>, e: EntryRow, resolution: Resolution, at: int)
    requires EntryOk(q, e) && |r| == |q| && resolution.Accepted?
    requires r[e.sequence - 1] == Changed(q[e.sequence - 1], Resolve(resolution, at))
    ensures EntryOk(r, e) && EntryAcknowledged(r, e)
  {
  }

  /** End to end: when any reply the backend ever gave for an awaiting batch
      arrives, however late and after however many retries, the submission
      succeeds, completes the batch and acknowledges every one of its
      transactions. */
  lemma RepliesSettle(g: Setting, w: World, a: Reply, completedAt: int, retryAt: int)
    requires ArisesByBatches(g, w) && a in w.replies && a.readerId == w.Me()
    requires Transportable(w.db, a.batchId) && Awaiting(w.db, a.batchId, completedAt)
    ensures var o := Submit(w.db, a.batchId, Ok(a), completedAt, retryAt);
      var entries := w.db.batches[a.batchId].entries;
      && o.result.Ok? && o.result.value.Applied? && o.result.value.report.appliedNow
      && o.result.value.replayed == (a.batchId in w.db.acks)
      && o.result.value.report.counts.accepted == |entries|
      && a.batchId in o.db.batches && o.db.batches[a.batchId].state.Completed?
      && AllRows(o.db.queue, entries, Acknowledged)
  {
    hide WorldInv, Coupled, ArisesByBatches, Arises, Accept, AllRows, Translated;
    ArisesCoupled(g, w);
    ArisesOk(g, w);
    ReplyIsValid(g, w, a);
    AcceptSettles(g, w, a, Translated(a), completedAt);
  }

  lemma AcceptSettles(g: Setting, w: World, a: Reply, t: Acknowledgement, completedAt: int)
    requires WorldInv(g, w) && Coupled(w.db) && a in w.replies && a.readerId == w.Me() && Entitled(a)
    requires t == Translated(a)
    requires a.batchId in w.db.batches && Awaiting(w.db, a.batchId, completedAt)
    ensures var o := Accept(w.db, a.batchId, t, completedAt); var entries := w.db.batches[a.batchId].entries;
      && o.result.Ok? && o.result.value.Applied? && o.result.value.report.appliedNow
      && o.result.value.replayed == (a.batchId in w.db.acks)
      && o.result.value.report.counts.accepted == |entries|
      && a.batchId in o.db.batches && o.db.batches[a.batchId].state.Completed?
      && AllRows(o.db.queue, entries, Acknowledged)
  {
    hide WorldInv, Inv, Coupled, StoreAck, ApplyAck, Lines, AllRows, Entitled, Translated, CanonicalPayload;
    ReplyStores(g, w, a, t);
    StoredReady(g, w, a, t, completedAt);
    PayloadReceipt(t);
    AcceptanceApplies(StoreAck(w.db, t).db, a.batchId, completedAt);
  }

  lemma StoredReady(g: Setting, w: World, a: Reply, t: Acknowledgement, completedAt: int)
    requires WorldInv(g, w) && Coupled(w.db) && a in w.replies && a.readerId == w.Me() && Entitled(a)
    requires t == Translated(a)
    requires a.batchId in w.db.batches && Awaiting(w.db, a.batchId, completedAt)
    ensures var stored := StoreAck(w.db, t).db;
      && Inv(stored) && Coupled(stored) && stored.batches == w.db.batches
      && a.batchId in stored.acks
      && stored.acks[a.batchId].appliedAt.None?
      && stored.acks[a.batchId].payload == CanonicalPayload(t)
      && forall k :: 0 <= k < |Lines(stored.acks[a.batchId].payload)| ==>
           Lines(stored.acks[a.batchId].payload)[k].resolution.Accepted?
  {
    hide WorldInv, Inv, Evolves, Coupled, StoreAck, Lines, Entitled, Translated, Constructible, CanonicalPayload,
         Protocol.ValidAck, RetriesAfterReceipt, Matches;
    ReplyIsValid(g, w, a);
    StoredAccepts(g, w, a);
    LineSequences(a);
    TranslationExact(a);
    StoredLinesAccept(t, CanonicalPayload(t));
    WorldHasInv(g, w);
    StoreKeepsInv(w.db, t);
    StoreCoupled(w.db, t);
    ReplyStores(g, w, a, t);
    StoredAnswer(g, w, a.batchId);
    InFlightUnapplied(StoreAck(w.db, t).db, a.batchId);
  }

  lemma PayloadReceipt(t: Acknowledgement)
    ensures CanonicalPayload(t).receivedAt == t.receivedAt
  {
  }

  lemma InFlightUnapplied(db: Database, b: BatchId)
    requires Inv(db) && b in db.acks && b in db.batches && db.batches[b].state.Submitted?
    ensures db.acks[b].appliedAt.None?
  {
    hide QueueOk, BatchesOk, AllEvidenced, ResolvedUpTo, AckRowsOk;
    assert AckOk(db.identity, b, db.acks[b], db.batches[b]);
  }
}
