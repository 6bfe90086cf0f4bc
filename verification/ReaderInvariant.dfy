/** The cross-table invariant of the reader database, and how its tables may
    evolve from one step to the next. */
module ReaderInvariant {
  import opened Basics
  import opened ReaderTables
  import opened ReaderAcknowledgement
  import opened ReaderSteps

  // ---- Invariant --------------------------------------------------------

  predicate RowOk(row: Row) {
    && 0 <= row.createdAt <= row.updatedAt
    && row.attempts >= 0
    && (row.retryAt.Some? <==> row.state.RetryableFailure?)
    && (row.retryAt.Some? ==> row.retryAt.value >= 0)
  }

  /** Sequences 1, 2, 3, ... in order, without gaps or repeats. */
  predicate QueueOk(queue: seq<Row>) {
    && (forall i :: 0 <= i < |queue| ==> queue[i].sequence == i + 1 && RowOk(queue[i]))
    && DistinctRows(queue)
  }

  predicate EntryOk(queue: seq<Row>, e: EntryRow) {
    1 <= e.sequence <= |queue| && queue[e.sequence - 1].id == e.transactionId
  }

  predicate EntriesOk(queue: seq<Row>, entries: seq<EntryRow>) {
    && (forall k :: 0 <= k < |entries| ==> entries[k].position == k && EntryOk(queue, entries[k]))
    && (forall j, k :: 0 <= j < k < |entries| ==> entries[j].sequence < entries[k].sequence)
  }

  predicate BatchOk(queue: seq<Row>, b: Batch) {
    && EntriesOk(queue, b.entries)
    && b.entries != [] && b.first == b.entries[0].sequence && b.last == b.entries[|b.entries| - 1].sequence
    && 1 <= b.protocol <= 65535
    && 0 <= b.createdAt <= b.updatedAt && b.attempts >= 0
    && (b.submittedAt.None? <==> b.state.Prepared?)
    && (b.submittedAt.Some? ==> 0 <= b.submittedAt.value <= I64_MAX)
    && (b.retryAt.Some? ==> b.retryAt.value >= 0)
  }

  ghost predicate AckRowsOk(rows: seq<AckEntryRow>, receivedAt: int, entries: seq<EntryRow>) {
    && |rows| == |entries| && Decodable(rows, receivedAt)
    && forall k :: 0 <= k < |rows| ==>
         rows[k].transactionId == entries[k].transactionId && rows[k].sequence == entries[k].sequence
  }

  /** A stored acknowledgement fits its batch, and is applied exactly when the
      batch is complete. */
  ghost predicate AckOk(id: Identity, batchId: BatchId, a: StoredAck, b: Batch) {
    && a.payload.batchId == batchId && a.payload.readerId == id.readerId
    && a.payload.protocol == b.protocol && a.payload.first == b.first && a.payload.last == b.last
    && a.payload.receivedAt >= 0
    && AckRowsOk(a.payload.entries, a.payload.receivedAt, b.entries)
    && (a.appliedAt.Some? <==> b.state.Completed?)
    && (a.appliedAt.Some? ==> a.appliedAt.value >= a.payload.receivedAt)
    && !b.state.Prepared?
  }

  predicate Overlap(b: Batch, c: Batch) {
    exists j, k :: 0 <= j < |b.entries| && 0 <= k < |c.entries|
                   && b.entries[j].transactionId == c.entries[k].transactionId
  }

  /** An applied acknowledgement accepted this row. */
  predicate Accepts(p: Payload, row: Row) {
    exists k :: 0 <= k < |p.entries| && p.entries[k].transactionId == row.id && p.entries[k].sequence == row.sequence
                && p.entries[k].outcome == "acknowledged"
  }

  predicate Evidenced(acks: map<BatchId, StoredAck>, row: Row) {
    exists b :: b in acks && acks[b].appliedAt.Some? && Accepts(acks[b].payload, row)
  }

  predicate ResolvedUpTo(queue: seq<Row>, n: int) {
    0 <= n <= |queue| && forall i :: 0 <= i < n ==> queue[i].state.Resolved()
  }

  /** No transaction is in two active batches. */
  ghost predicate Exclusive(batches: map<BatchId, Batch>) {
    forall b, c | b in batches && c in batches && b != c && batches[b].state.Active() && batches[c].state.Active() ::
      !Overlap(batches[b], batches[c])
  }

  ghost predicate BatchesOk(db: Database) {
    && (forall b :: b in db.batches ==> BatchOk(db.queue, db.batches[b]))
    && Exclusive(db.batches)
  }

  ghost predicate AcksOk(db: Database) {
    && (forall b :: b in db.acks ==> b in db.batches && AckOk(db.identity, b, db.acks[b], db.batches[b]))
    && (forall b :: b in db.batches && db.batches[b].state.Completed? ==> b in db.acks)
  }

  ghost predicate AllEvidenced(db: Database) {
    forall i :: 0 <= i < |db.queue| && db.queue[i].state.Acknowledged? ==> Evidenced(db.acks, db.queue[i])
  }

  ghost predicate Inv(db: Database) {
    && QueueOk(db.queue) && db.nextSequence == |db.queue| + 1 <= I64_MAX
    && ResolvedUpTo(db.queue, db.lastAcknowledged)
    && BatchesOk(db) && AcksOk(db) && AllEvidenced(db)
  }

  // ---- Evolution --------------------------------------------------------

  predicate RowEvolves(r: Row, s: Row) {
    && s.id == r.id && s.sequence == r.sequence && s.envelope == r.envelope && s.createdAt == r.createdAt
    && r.updatedAt <= s.updatedAt && r.attempts <= s.attempts
    && (r.state.Terminal() ==> s == r)
    && (s.state.Pending? ==> s == r)
  }

  predicate QueueEvolves(q: seq<Row>, r: seq<Row>) {
    |q| <= |r| && forall i :: 0 <= i < |q| ==> RowEvolves(q[i], r[i])
  }

  predicate BatchEvolves(b: Batch, c: Batch) {
    && c.protocol == b.protocol && c.first == b.first && c.last == b.last
    && c.createdAt == b.createdAt && c.entries == b.entries
    && b.attempts <= c.attempts && b.updatedAt <= c.updatedAt
    && (b.submittedAt.Some? ==> c.submittedAt == b.submittedAt)
    && (!b.state.Active() ==> c == b)
    && (c.state.Prepared? ==> c == b)
  }

  ghost predicate BatchesEvolve(m: map<BatchId, Batch>, n: map<BatchId, Batch>) {
    forall b :: b in m ==> b in n && BatchEvolves(m[b], n[b])
  }

  predicate AckEvolves(a: StoredAck, b: StoredAck) {
    b.payload == a.payload && (a.appliedAt.Some? ==> b == a)
  }

  ghost predicate AcksEvolve(m: map<BatchId, StoredAck>, n: map<BatchId, StoredAck>) {
    forall b :: b in m ==> b in n && AckEvolves(m[b], n[b])
  }

  /** Nothing is deleted or renamed; terminal rows, finished batches, stored
      payloads and applied acknowledgements are final; times, attempts, the
      sequence counter and the watermark never go back. */
  ghost predicate Evolves(db: Database, db': Database) {
    && db'.identity == db.identity
    && db.nextSequence <= db'.nextSequence && db.lastAcknowledged <= db'.lastAcknowledged
    && QueueEvolves(db.queue, db'.queue)
    && BatchesEvolve(db.batches, db'.batches)
    && AcksEvolve(db.acks, db'.acks)
  }

  lemma EvolvesTransitive(a: Database, b: Database, c: Database)
    requires Evolves(a, b) && Evolves(b, c)
    ensures Evolves(a, c)
  {
    assert QueueEvolves(a.queue, c.queue) by {
      forall i | 0 <= i < |a.queue| ensures RowEvolves(a.queue[i], c.queue[i]) {
        assert RowEvolves(a.queue[i], b.queue[i]) && RowEvolves(b.queue[i], c.queue[i]);
      }
    }
    assert BatchesEvolve(a.batches, c.batches) by {
      forall k | k in a.batches ensures k in c.batches && BatchEvolves(a.batches[k], c.batches[k]) {
        assert BatchEvolves(a.batches[k], b.batches[k]) && BatchEvolves(b.batches[k], c.batches[k]);
      }
    }
    assert AcksEvolve(a.acks, c.acks) by {
      forall k | k in a.acks ensures k in c.acks && AckEvolves(a.acks[k], c.acks[k]) {
        assert AckEvolves(a.acks[k], b.acks[k]) && AckEvolves(b.acks[k], c.acks[k]);
      }
    }
  }

  // ---- Queue updates ----------------------------------------------------

  predicate ChangeOk(c: Change) {
    && (c.Retry? ==> c.retryAt >= 0)
    && (c.Resolve? && c.resolution.RetryLater? ==> c.resolution.retryAt >= 0)
  }

  predicate ChangesOk(changes: map<TransactionId, Change>) {
    forall id :: id in changes ==> ChangeOk(changes[id])
  }

  lemma ChangedOk(row: Row, c: Change)
    requires RowOk(row) && Guard(row, c) && ChangeOk(c)
    ensures RowOk(Changed(row, c)) && RowEvolves(row, Changed(row, c))
    ensures Changed(row, c).state.Acknowledged? <==> c.Resolve? && c.resolution.Accepted?
  {
  }

  lemma UpdateOk(queue: seq<Row>, changes: map<TransactionId, Change>)
    requires QueueOk(queue) && ChangesOk(changes)
    ensures QueueOk(Update(queue, changes)) && QueueEvolves(queue, Update(queue, changes))
  {
    hide Guard, Changed, RowOk, ChangeOk, RowEvolves;
    var r := Update(queue, changes);
    forall i | 0 <= i < |queue|
      ensures RowOk(r[i]) && RowEvolves(queue[i], r[i]) && r[i].id == queue[i].id && r[i].sequence == queue[i].sequence
    {
      UpdateRowOk(queue[i], changes);
    }
  }

  lemma UpdateRowOk(row: Row, changes: map<TransactionId, Change>)
    requires RowOk(row) && ChangesOk(changes)
    ensures var r := UpdateRow(row, changes);
      RowOk(r) && RowEvolves(row, r) && r.id == row.id && r.sequence == row.sequence
  {
    if Hit(row, changes) {
      ChangedOk(row, changes[row.id]);
    }
  }

  lemma ResolvedStays(q: seq<Row>, r: seq<Row>, n: int)
    requires ResolvedUpTo(q, n) && QueueEvolves(q, r)
    ensures ResolvedUpTo(r, n)
  {
    forall i | 0 <= i < n ensures r[i].state.Resolved() {
      assert RowEvolves(q[i], r[i]);
    }
  }

  lemma BatchStaysOk(q: seq<Row>, r: seq<Row>, b: Batch)
    requires BatchOk(q, b) && QueueEvolves(q, r)
    ensures BatchOk(r, b)
  {
    forall k | 0 <= k < |b.entries| ensures EntryOk(r, b.entries[k]) {
      assert EntryOk(q, b.entries[k]);
      assert RowEvolves(q[b.entries[k].sequence - 1], r[b.entries[k].sequence - 1]);
    }
  }

  lemma BatchesStayOk(db: Database, queue: seq<Row>)
    requires BatchesOk(db) && QueueEvolves(db.queue, queue)
    ensures BatchesOk(db.(queue := queue))
  {
    hide BatchOk, Exclusive;
    forall b | b in db.batches ensures BatchOk(queue, db.batches[b]) {
      BatchStaysOk(db.queue, queue, db.batches[b]);
    }
  }

  predicate NoNewAcceptance(q: seq<Row>, r: seq<Row>) {
    && |q| == |r|
    && forall i :: 0 <= i < |q| ==> r[i].id == q[i].id && r[i].sequence == q[i].sequence
                                    && (r[i].state.Acknowledged? ==> q[i].state.Acknowledged?)
  }

  /** Replacing the queue by an evolved one with no new acceptance keeps the
      invariant. */
  lemma QueueChangeKeepsInv(db: Database, queue: seq<Row>)
    requires Inv(db) && QueueOk(queue) && QueueEvolves(db.queue, queue) && NoNewAcceptance(db.queue, queue)
    ensures Inv(db.(queue := queue)) && Evolves(db, db.(queue := queue))
  {
    hide QueueOk, BatchesOk, AcksOk, QueueEvolves, ResolvedUpTo;
    ResolvedStays(db.queue, queue, db.lastAcknowledged);
    BatchesStayOk(db, queue);
    var db' := db.(queue := queue);
    assert AcksOk(db') by { assert AcksSame(db, db'); AcksCarry(db, db'); }
    forall i | 0 <= i < |queue| && queue[i].state.Acknowledged? ensures Evidenced(db.acks, queue[i]) {
      assert Evidenced(db.acks, db.queue[i]);
      EvidenceCarries(db.acks, db.queue[i], queue[i]);
    }
    SelfEvolves(db);
  }

  predicate AcksSame(db: Database, db': Database) {
    db'.acks == db.acks && db'.batches == db.batches && db'.identity == db.identity
  }

  lemma AcksCarry(db: Database, db': Database)
    requires AcksSame(db, db') && AcksOk(db)
    ensures AcksOk(db')
  {
  }

  lemma SelfEvolves(db: Database)
    ensures QueueEvolves(db.queue, db.queue) && BatchesEvolve(db.batches, db.batches) && AcksEvolve(db.acks, db.acks)
  {
  }

  lemma EvidenceCarries(acks: map<BatchId, StoredAck>, r: Row, s: Row)
    requires Evidenced(acks, r) && s.id == r.id && s.sequence == r.sequence
    ensures Evidenced(acks, s)
  {
    var b :| b in acks && acks[b].appliedAt.Some? && Accepts(acks[b].payload, r);
    var p := acks[b].payload;
    var k :| 0 <= k < |p.entries| && p.entries[k].transactionId == r.id && p.entries[k].sequence == r.sequence
             && p.entries[k].outcome == "acknowledged";
    assert Accepts(p, s);
  }

  predicate Accepting(changes: map<TransactionId, Change>) {
    exists id :: id in changes && changes[id].Resolve?
  }

  lemma UpdateKeepsInv(db: Database, changes: map<TransactionId, Change>)
    requires Inv(db) && ChangesOk(changes) && !Accepting(changes)
    ensures var db' := db.(queue := Update(db.queue, changes)); Inv(db') && Evolves(db, db')
  {
    var queue := Update(db.queue, changes);
    UpdateOk(db.queue, changes);
    assert NoNewAcceptance(db.queue, queue) by {
      hide RowEvolves;
      forall i | 0 <= i < |queue|
        ensures queue[i].id == db.queue[i].id && queue[i].sequence == db.queue[i].sequence
        ensures queue[i].state.Acknowledged? ==> db.queue[i].state.Acknowledged?
      {
        if Hit(db.queue[i], changes) {
          ChangedOk(db.queue[i], changes[db.queue[i].id]);
        }
      }
    }
    hide Inv, Evolves;
    QueueChangeKeepsInv(db, queue);
  }

  // ---- Batch updates ----------------------------------------------------

  /** A step of one batch that neither completes nor revives it. */
  ghost predicate BatchSteps(queue: seq<Row>, b: Batch, c: Batch) {
    && BatchOk(queue, c) && BatchEvolves(b, c)
    && (c.state.Completed? <==> b.state.Completed?)
    && (c.state.Active() ==> b.state.Active())
  }

  ghost predicate AllBatchesStep(db: Database, batches: map<BatchId, Batch>) {
    batches.Keys == db.batches.Keys
    && forall b :: b in batches ==> BatchSteps(db.queue, db.batches[b], batches[b])
  }

  lemma ExclusionCarries(db: Database, batches: map<BatchId, Batch>)
    requires Exclusive(db.batches) && AllBatchesStep(db, batches)
    ensures Exclusive(batches)
  {
    hide BatchOk;
    forall b, c | b in batches && c in batches && b != c && batches[b].state.Active() && batches[c].state.Active()
      ensures !Overlap(batches[b], batches[c])
    {
      assert BatchSteps(db.queue, db.batches[b], batches[b]) && BatchSteps(db.queue, db.batches[c], batches[c]);
      assert !Overlap(db.batches[b], db.batches[c]);
    }
  }

  lemma AcksCarryOver(db: Database, batches: map<BatchId, Batch>)
    requires AcksOk(db) && AllBatchesStep(db, batches)
    ensures AcksOk(db.(batches := batches))
  {
    hide BatchOk, AckRowsOk;
    forall b | b in db.acks ensures b in batches && AckOk(db.identity, b, db.acks[b], batches[b]) {
      assert AckOk(db.identity, b, db.acks[b], db.batches[b]) && BatchSteps(db.queue, db.batches[b], batches[b]);
    }
    forall b | b in batches && batches[b].state.Completed? ensures b in db.acks {
      assert BatchSteps(db.queue, db.batches[b], batches[b]);
    }
  }

  lemma BatchesChangeKeepsInv(db: Database, batches: map<BatchId, Batch>)
    requires Inv(db) && AllBatchesStep(db, batches)
    ensures Inv(db.(batches := batches)) && Evolves(db, db.(batches := batches))
  {
    hide QueueOk, ResolvedUpTo, AllEvidenced, Exclusive, AcksOk, BatchOk;
    ExclusionCarries(db, batches);
    AcksCarryOver(db, batches);
    EvidenceSame(db, db.(batches := batches));
    SelfEvolves(db);
    forall b | b in db.batches
      ensures b in batches && BatchEvolves(db.batches[b], batches[b]) && BatchOk(db.queue, batches[b])
    {
      assert BatchSteps(db.queue, db.batches[b], batches[b]);
    }
  }

  lemma EvidenceSame(db: Database, db': Database)
    requires AllEvidenced(db) && db'.queue == db.queue && db'.acks == db.acks
    ensures AllEvidenced(db')
  {
  }

  lemma OneBatchChangeKeepsInv(db: Database, batchId: BatchId, after: Batch)
    requires Inv(db) && batchId in db.batches && BatchSteps(db.queue, db.batches[batchId], after)
    ensures var db' := db.(batches := db.batches[batchId := after]); Inv(db') && Evolves(db, db')
  {
    hide BatchOk, BatchEvolves;
    var batches := db.batches[batchId := after];
    forall b | b in batches ensures BatchSteps(db.queue, db.batches[b], batches[b]) {
      if b != batchId {
        assert BatchOk(db.queue, db.batches[b]);
        BatchEvolvesSelf(db.batches[b]);
      }
    }
    assert batches.Keys == db.batches.Keys;
    hide Inv, Evolves, BatchSteps;
    BatchesChangeKeepsInv(db, batches);
  }

  lemma BatchEvolvesSelf(b: Batch)
    ensures BatchEvolves(b, b)
  {
  }
}
