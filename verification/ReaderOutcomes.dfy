/** What the rows say after an operation: the outcome that was recorded can be
    read back from the queue, and only the rows concerned change. */
module ReaderOutcomes {
  import opened Basics
  import opened Texts
  import opened ReaderTables
  import opened ReaderAcknowledgement
  import opened ReaderSteps
  import opened ReaderInvariant
  import opened ReaderPreservation
  import opened ReaderRuns
  import opened ReaderCoupling
  import opened ReaderHealth

  /** The resolution a row shows: its state, failure text and retry time. */
  function Told(row: Row): Option<Resolution> {
    match (row.state, row.failure, row.retryAt)
    case (Acknowledged, None, None) => Some(Accepted)
    case (RetryableFailure, Some(category), Some(retryAt)) => Some(RetryLater(category, retryAt))
    case (PermanentFailure, Some(category), None) => Some(Refused(category))
    case (ManualReview, Some(category), None) => Some(Review(category))
    case (_, _, _) => None
  }

  /** Everything an outcome leaves alone. */
  predicate SameRecord(r: Row, s: Row) {
    s.id == r.id && s.sequence == r.sequence && s.envelope == r.envelope && s.createdAt == r.createdAt
  }

  /** What a change of a row amounts to, in terms of what the row then
      shows. */
  predicate Records(r: Row, s: Row, c: Change) {
    && SameRecord(r, s) && s.updatedAt == c.at
    && s.attempts == r.attempts + (if c.Attempt? || c.Resubmit? then 1 else 0)
    && match c
       case Reserve(_) => s.state.InFlight? && s.retryAt.None? && s.failure.None?
       case Attempt(_) => s.state.InFlight? && s.retryAt.None? && s.failure.None?
       case Resubmit(_) => s.state == r.state && s.retryAt == r.retryAt && s.failure == r.failure
       case Resolve(resolution, _) => Told(s) == Some(resolution)
       case Retry(category, retryAt, _) => Told(s) == Some(RetryLater(category, retryAt))
       case Finish(review, category, _) => Told(s) == Some(if review then Review(category) else Refused(category))
  }

  lemma ChangedRecords(row: Row, c: Change)
    ensures Records(row, Changed(row, c), c)
  {
  }

  // ---- Single-row transitions -------------------------------------------

  /** A row with this identity satisfies the guard. */
  predicate Permitted(queue: seq<Row>, id: TransactionId, c: Change) {
    exists i :: 0 <= i < |queue| && queue[i].id == id && Guard(queue[i], c)
  }

  /** A single-row transition succeeds exactly when its row permits it; then
      that row records the outcome and no other row changes, and otherwise
      nothing changes. */
  lemma TransitionExact(db: Database, id: TransactionId, c: Change)
    requires Inv(db)
    ensures var o := UpdateOne(db, id, c);
      && (o.result.Ok? <==> Permitted(db.queue, id, c))
      && (o.result.Err? ==> o.db == db)
      && o.db == db.(queue := o.db.queue) && |o.db.queue| == |db.queue|
      && (o.result.Ok? ==> forall i :: 0 <= i < |db.queue| ==>
            if db.queue[i].id == id then Records(db.queue[i], o.db.queue[i], c) else o.db.queue[i] == db.queue[i])
  {
    hide Inv, Guard, Changed, Records, Hits, RowOk;
    InvQueue(db);
    var changes := map[id := c];
    HitsAll(db.queue, changes);
    assert |changes| == 1 && id in changes;
    if Permitted(db.queue, id, c) {
      var i :| 0 <= i < |db.queue| && db.queue[i].id == id && Guard(db.queue[i], c);
      assert Hit(db.queue[i], changes);
      assert HitsSome(db.queue, changes, id);
      forall j | 0 <= j < |db.queue| && db.queue[j].id == id
        ensures Records(db.queue[j], UpdateRow(db.queue[j], changes), c)
      {
        assert j == i;
        ChangedRecords(db.queue[i], c);
      }
    } else if HitsSome(db.queue, changes, id) {
      PermittedFromHit(db.queue, id, c);
    }
  }

  lemma PermittedFromHit(queue: seq<Row>, id: TransactionId, c: Change)
    requires HitsSome(queue, map[id := c], id)
    ensures Permitted(queue, id, c)
  {
    var i :| 0 <= i < |queue| && queue[i].id == id && Hit(queue[i], map[id := c]);
  }

  /** An interrupted row that no active batch holds. */
  predicate Stranded(db: Database, row: Row, at: int) {
    row.state.InFlight? && row.updatedAt <= at && !InActiveBatch(db.batches, row.id)
  }

  function StrandedCount(db: Database, rows: seq<Row>, at: int): nat {
    if rows == [] then 0
    else StrandedCount(db, rows[..|rows| - 1], at) + if Stranded(db, rows[|rows| - 1], at) then 1 else 0
  }

  lemma {:induction false} HitsAreStranded(db: Database, rows: seq<Row>, at: int)
    requires forall i :: 0 <= i < |rows| ==> rows[i].id in QueueIds(db.queue)
    ensures Hits(rows, RecoveryChanges(db, at)) == StrandedCount(db, rows, at)
  {
    if rows != [] {
      HitsAreStranded(db, rows[..|rows| - 1], at);
      hide InActiveBatch;
    }
  }

  /** Queue recovery makes exactly the stranded rows retryable at once, with
      the restart category, counts them, and changes no other row. */
  lemma RecoveryExact(db: Database, at: int)
    requires at >= 0
    ensures var o := RecoverQueue(db, at);
      && o.result == Ok(StrandedCount(db, db.queue, at)) && |o.db.queue| == |db.queue|
      && forall i :: 0 <= i < |db.queue| ==>
           if Stranded(db, db.queue[i], at)
           then Records(db.queue[i], o.db.queue[i], Retry(RESTART_CATEGORY, at, at))
           else o.db.queue[i] == db.queue[i]
  {
    HitsAreStranded(db, db.queue, at);
    hide InActiveBatch, Hits;
  }

  // ---- Applications -----------------------------------------------------

  /** The rows of a batch, entry by entry. */
  function RowsOf(queue: seq<Row>, entries: seq<EntryRow>): (rows: seq<Row>)
    requires forall k :: 0 <= k < |entries| ==> EntryOk(queue, entries[k])
    ensures |rows| == |entries|
    ensures forall k :: 0 <= k < |entries| ==> EntryOk(queue, entries[k]) && rows[k] == queue[entries[k].sequence - 1]
  {
    seq(|entries|, k requires 0 <= k < |entries| => assert EntryOk(queue, entries[k]); queue[entries[k].sequence - 1])
  }

  lemma ToldState(row: Row, r: Resolution)
    requires Told(row) == Some(r)
    ensures row.state == match r
      case Accepted => Acknowledged
      case RetryLater(_, _) => RetryableFailure
      case Refused(_) => PermanentFailure
      case Review(_) => ManualReview
  {
  }

  lemma {:induction false} CountsAreRows(rows: seq<Row>, lines: seq<AckLine>)
    requires |rows| == |lines| && forall k :: 0 <= k < |rows| ==> Told(rows[k]) == Some(lines[k].resolution)
    ensures CountLines(lines) == Counts(CountRows(rows, Acknowledged), CountRows(rows, RetryableFailure),
                                        CountRows(rows, PermanentFailure), CountRows(rows, ManualReview))
  {
    hide Told;
    if rows != [] {
      var n := |rows| - 1;
      CountsAreRows(rows[..n], lines[..n]);
      ToldState(rows[n], lines[n].resolution);
    }
  }

  lemma ToldLines(rows: seq<Row>, before: seq<Row>, lines: seq<AckLine>, at: int)
    requires |rows| == |before| == |lines|
    requires forall k :: 0 <= k < |rows| ==> rows[k] == Changed(before[k], Resolve(lines[k].resolution, at))
    ensures forall k :: 0 <= k < |rows| ==> Told(rows[k]) == Some(lines[k].resolution) && SameRecord(before[k], rows[k])
  {
    hide Changed, Told;
    forall k | 0 <= k < |rows| ensures Told(rows[k]) == Some(lines[k].resolution) && SameRecord(before[k], rows[k]) {
      ChangedRecords(before[k], Resolve(lines[k].resolution, at));
    }
  }

  /** After an application every row of the batch shows exactly the resolution
      its line carried, and the reported counts are the numbers of those rows
      in each state. */
  lemma ApplicationReported(db: Database, batchId: BatchId, at: int)
    requires Inv(db) && ApplyAck(db, batchId, at).db != db
    ensures batchId in db.batches && batchId in db.acks
    ensures var o := ApplyAck(db, batchId, at); var entries := db.batches[batchId].entries;
      var lines := Lines(db.acks[batchId].payload);
      && o.result.Ok? && |lines| == |entries|
      && (forall k :: 0 <= k < |entries| ==> EntryOk(o.db.queue, entries[k]))
      && var rows := RowsOf(o.db.queue, entries);
      && (forall k :: 0 <= k < |rows| ==> Told(rows[k]) == Some(lines[k].resolution))
      && o.result.value.counts == Counts(CountRows(rows, Acknowledged), CountRows(rows, RetryableFailure),
                                         CountRows(rows, PermanentFailure), CountRows(rows, ManualReview))
  {
    hide Inv, ApplyAck, Lines, CountLines, CountRows, Changed, Told, Names;
    FailureChangesNothing(db);
    AppliedReport(db, batchId, at);
    ApplicationExact(db, batchId, at);
    var o, entries, lines := ApplyAck(db, batchId, at), db.batches[batchId].entries, Lines(db.acks[batchId].payload);
    var before := RowsOf(db.queue, entries);
    var rows := seq(|entries|, k requires 0 <= k < |entries| => o.db.queue[entries[k].sequence - 1]);
    ToldLines(rows, before, lines, at);
    forall k | 0 <= k < |entries| ensures EntryOk(o.db.queue, entries[k]) {
      assert SameRecord(before[k], rows[k]);
    }
    assert rows == RowsOf(o.db.queue, entries);
    CountsAreRows(rows, lines);
  }

  // ---- Reservation ------------------------------------------------------

  /** Creating a batch takes exactly its entries' rows into flight, with the
      attempt counters untouched, and changes no other row. */
  lemma ReservationExact(db: Database, batchId: BatchId, protocol: Version, at: int, limit: nat)
    requires Inv(db) && CreateBatch(db, batchId, protocol, at, limit).result.Ok?
    ensures var o := CreateBatch(db, batchId, protocol, at, limit); var entries := o.result.value.entries;
      && |o.db.queue| == |db.queue|
      && (forall i :: 0 <= i < |db.queue| ==>
            if Names(entries, db.queue[i].id)
            then Ready(db.queue[i], at) && Records(db.queue[i], o.db.queue[i], Reserve(at))
            else o.db.queue[i] == db.queue[i])
  {
    hide Candidates, FirstBlocked, Names, Ready, Records, Changed, Ascending, AcksOk, AllEvidenced, BatchesOk, RowOk;
    var o := CreateBatch(db, batchId, protocol, at, limit);
    var chosen := Candidates(db, at, limit);
    assert Numbered(db.queue);
    CandidatesExact(db, at, limit);
    NothingBlocked(chosen, at);
    var entries := o.result.value.entries;
    hide CreateBatch;
    forall i | 0 <= i < |db.queue|
      ensures var after := UpdateRow(db.queue[i], ForEntries(entries, Reserve(at)));
        if Names(entries, db.queue[i].id)
        then Ready(db.queue[i], at) && Records(db.queue[i], after, Reserve(at))
        else after == db.queue[i]
    {
      NamedIffListed(entries, db.queue[i].id);
      if Names(entries, db.queue[i].id) {
        ChosenRow(db, at, chosen, i);
        ReservedRow(db.queue[i], entries, at);
      } else {
        NotHit(db.queue[i], ForEntries(entries, Reserve(at)));
      }
    }
  }

  lemma ReservedRow(row: Row, entries: seq<EntryRow>, at: int)
    requires row.id in EntryIds(entries) && Ready(row, at) && row.updatedAt <= at
    ensures Records(row, UpdateRow(row, ForEntries(entries, Reserve(at))), Reserve(at))
  {
    hide Records, Changed;
    HitForEntries(row, entries, Reserve(at));
    ChangedRecords(row, Reserve(at));
  }

  lemma ChosenRow(db: Database, at: int, chosen: seq<Row>, i: nat)
    requires QueueOk(db.queue) && i < |db.queue| && db.queue[i].id in EntryIds(EntryRows(chosen))
    requires forall k :: 0 <= k < |chosen| ==>
      Selectable(db.queue, db.batches, at, chosen[k]) && chosen[k].updatedAt <= at
    ensures Ready(db.queue[i], at) && db.queue[i].updatedAt <= at
  {
    hide RowOk, Ready, InActiveBatch;
    var k :| 0 <= k < |chosen| && EntryRows(chosen)[k].transactionId == db.queue[i].id;
    assert Selectable(db.queue, db.batches, at, chosen[k]);
  }
}
