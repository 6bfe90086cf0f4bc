/** Exactly when the multi-row operations commit, in every reachable state:
    a condition on the batch row and on the rows of its entries that a caller
    can check before the call. */
module ReaderDecisions {
  import opened Basics
  import opened Texts
  import opened ReaderTables
  import opened ReaderAcknowledgement
  import opened ReaderSteps
  import opened ReaderInvariant
  import opened ReaderPreservation
  import opened ReaderRuns
  import opened ReaderCoupling

  /** Every entry's row is in flight and was not updated after this time. */
  predicate RowsHeld(queue: seq<Row>, entries: seq<EntryRow>, at: int) {
    forall k :: 0 <= k < |entries| ==> EntryOk(queue, entries[k]) && Held(queue, entries[k], at)
  }

  lemma HeldIsHit(queue: seq<Row>, entries: seq<EntryRow>, c: Change)
    requires c.Resubmit? || c.Finish?
    ensures RowsHeld(queue, entries, c.at) <==> AllHit(queue, entries, ForEntries(entries, c))
  {
    hide ForEntries, EntryIds;
    forall k | 0 <= k < |entries| && EntryOk(queue, entries[k])
      ensures Held(queue, entries[k], c.at) <==> Hit(queue[entries[k].sequence - 1], ForEntries(entries, c))
    {
      NamedIffListed(entries, entries[k].transactionId);
      HitExact(queue[entries[k].sequence - 1], entries, c);
    }
  }

  lemma HitExact(row: Row, entries: seq<EntryRow>, c: Change)
    requires row.id in EntryIds(entries)
    ensures Hit(row, ForEntries(entries, c)) <==> Guard(row, c)
  {
    hide Guard;
  }

  /** A whole-batch change commits exactly when all rows are held. */
  lemma ChangeBatchDecides(db: Database, batchId: BatchId, after: Batch, c: Change)
    requires Inv(db) && batchId in db.batches && (c.Resubmit? || c.Finish?)
    ensures var o := ChangeBatch(db, batchId, after, c); var entries := db.batches[batchId].entries;
      if RowsHeld(db.queue, entries, c.at)
      then o.db.batches == db.batches[batchId := after] && o.db.lastAcknowledged == db.lastAcknowledged
           && o.db.acks == db.acks && o.result == LoadBatch(o.db, batchId)
      else o.db == db && o.result.Err?
  {
    hide Inv, RowsHeld, AllHit, Hits, Update, ForEntries, LoadBatch, QueueOk, EntriesOk;
    var entries := db.batches[batchId].entries;
    BatchRows(db, batchId);
    ForEntriesKeys(entries, c);
    HeldIsHit(db.queue, entries, c);
    AllHitFromHits(db.queue, entries, ForEntries(entries, c));
  }

  lemma BatchRows(db: Database, batchId: BatchId)
    requires Inv(db) && batchId in db.batches
    ensures QueueOk(db.queue) && EntriesOk(db.queue, db.batches[batchId].entries) && db.batches[batchId].entries != []
  {
    hide QueueOk, EntriesOk, AcksOk, AllEvidenced, Exclusive, ResolvedUpTo;
    assert BatchOk(db.queue, db.batches[batchId]);
  }

  // ---- The three batch transitions --------------------------------------

  /** When a submission commits. */
  predicate Submits(db: Database, batchId: BatchId, at: int) {
    && at >= 0 && batchId in db.batches && Submittable(db.batches[batchId], at)
    && RowsHeld(db.queue, db.batches[batchId].entries, at)
  }

  /** When a final failure commits. */
  predicate Finishes(db: Database, batchId: BatchId, category: string, at: int) {
    && at >= 0 && !Blank(category) && InFlightBy(db, batchId, at)
    && RowsHeld(db.queue, db.batches[batchId].entries, at)
  }

  /** When a retryable failure commits. */
  predicate Postpones(db: Database, batchId: BatchId, category: string, at: int, retryAt: int) {
    0 <= at <= retryAt && !Blank(category) && InFlightBy(db, batchId, at)
  }

  /** A submission changes the database exactly when its batch and all its
      rows permit it, and fails although it committed exactly when the
      attempt counter was already at its 32-bit limit. */
  lemma SubmitDecides(db: Database, batchId: BatchId, at: I64)
    requires Inv(db)
    ensures var o := SubmitBatch(db, batchId, at);
      && (o.db != db <==> Submits(db, batchId, at))
      && (o.result.Err? && o.db != db <==> Submits(db, batchId, at) && db.batches[batchId].attempts >= U32_MAX)
  {
    hide Inv, Evolves, RowsHeld, ChangeBatch, LoadBatch;
    SubmitKeepsInv(db, batchId, at);
    var o := SubmitBatch(db, batchId, at);
    if at >= 0 && batchId in db.batches && Submittable(db.batches[batchId], at) {
      ChangeBatchDecides(db, batchId, SubmittedBatch(db.batches[batchId], at), Resubmit(at));
      LoadBatchExact(o.db, batchId);
    }
  }

  lemma FinalDecides(db: Database, batchId: BatchId, review: bool, category: string, at: int)
    requires Inv(db)
    ensures var o := FailBatchFinally(db, batchId, review, category, at);
      && (o.db != db <==> Finishes(db, batchId, category, at))
      && (o.result.Err? && o.db != db <==>
            Finishes(db, batchId, category, at) && db.batches[batchId].attempts > U32_MAX)
      && o.db.lastAcknowledged == db.lastAcknowledged
  {
    hide Inv, Evolves, RowsHeld, ChangeBatch, LoadBatch, Trim;
    FailFinallyKeepsInv(db, batchId, review, category, at);
    var o := FailBatchFinally(db, batchId, review, category, at);
    if at >= 0 && !Blank(category) && InFlightBy(db, batchId, at) {
      var after := FinishedBatch(db.batches[batchId], review, Trim(category), at);
      ChangeBatchDecides(db, batchId, after, Finish(review, Trim(category), at));
      LoadBatchExact(o.db, batchId);
    }
  }

  lemma PostponeDecides(db: Database, batchId: BatchId, category: string, at: int, retryAt: int)
    requires Inv(db)
    ensures var o := FailBatchRetryably(db, batchId, category, at, retryAt);
      && (o.db != db <==> Postpones(db, batchId, category, at, retryAt))
      && (o.result.Err? && o.db != db <==>
            Postpones(db, batchId, category, at, retryAt) && db.batches[batchId].attempts > U32_MAX)
  {
    hide Inv, Evolves, LoadBatch, Trim;
    FailRetryablyKeepsInv(db, batchId, category, at, retryAt);
    var o := FailBatchRetryably(db, batchId, category, at, retryAt);
    LoadBatchExact(o.db, batchId);
    if Postpones(db, batchId, category, at, retryAt) {
      assert o.db.batches[batchId].state != db.batches[batchId].state;
    }
  }

  // ---- Application ------------------------------------------------------

  /** When a stored acknowledgement applies now. */
  predicate Applies(db: Database, batchId: BatchId, at: int) {
    && batchId in db.acks && db.acks[batchId].appliedAt.None? && at >= db.acks[batchId].payload.receivedAt
    && InFlightBy(db, batchId, at) && RowsHeld(db.queue, db.batches[batchId].entries, at)
  }

  lemma HeldIsNoConflict(queue: seq<Row>, lines: seq<AckLine>, entries: seq<EntryRow>, at: int)
    requires QueueOk(queue) && LinesFit(queue, lines, entries)
    ensures FirstConflict(queue, lines, at, 0).None? <==> RowsHeld(queue, entries, at)
  {
    hide QueueOk, LineHits, FirstConflict, EntryOk;
    NoConflict(queue, lines, at, 0);
    forall k | 0 <= k < |entries|
      ensures EntryOk(queue, entries[k]) && (LineHits(queue, lines[k], at) <==> Held(queue, entries[k], at))
    {
      assert LineFits(lines[k], entries[k]);
      LineRow(queue, lines[k], entries[k], at);
    }
  }

  /** An application takes effect exactly when the acknowledgement is stored
      and unapplied, its time has come, and its batch and all its rows are
      still in flight and were not updated later. */
  lemma ApplyDecides(db: Database, batchId: BatchId, at: int)
    requires Inv(db)
    ensures var o := ApplyAck(db, batchId, at);
      && (o.db != db <==> Applies(db, batchId, at))
      && (o.result.Ok? && o.result.value.appliedNow <==> Applies(db, batchId, at))
  {
    hide Inv, RowsHeld, Decodable, Lines, CountLines, FirstConflict, Update, ResolvedPrefix, ResolveChanges, QueueOk,
         LinesFit;
    if batchId in db.acks {
      StoredAckReadable(db, batchId);
      StoredLinesFit(db, batchId);
      BatchRows(db, batchId);
      HeldIsNoConflict(db.queue, Lines(db.acks[batchId].payload), db.batches[batchId].entries, at);
    }
  }
}
