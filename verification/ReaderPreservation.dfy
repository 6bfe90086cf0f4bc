/** Every operation keeps the invariant and only lets the tables evolve. */
module ReaderPreservation {
  import opened Basics
  import opened Texts
  import opened ReaderTables
  import opened ReaderAcknowledgement
  import opened ReaderSteps
  import opened ReaderInvariant

  // ---- Candidate selection ----------------------------------------------

  predicate Ascending(rows: seq<Row>) {
    forall i, j :: 0 <= i < j < |rows| ==> rows[i].sequence < rows[j].sequence
  }

  lemma {:induction false} SortedFixed(rows: seq<Row>)
    requires Ascending(rows)
    ensures InSequenceOrder(rows) == rows
  {
    if rows != [] {
      var n := |rows| - 1;
      SortedFixed(rows[..n]);
      assert rows == rows[..n] + [rows[n]];
    }
  }

  predicate Selectable(queue: seq<Row>, batches: map<BatchId, Batch>, at: int, row: Row) {
    && 1 <= row.sequence <= |queue| && queue[row.sequence - 1] == row
    && Ready(row, at) && !InActiveBatch(batches, row.id)
  }

  predicate Numbered(queue: seq<Row>) {
    forall i :: 0 <= i < |queue| ==> queue[i].sequence == i + 1
  }

  /** Selection is sound, ordered and complete. */
  lemma {:induction false} EligibleExact(queue: seq<Row>, batches: map<BatchId, Batch>, at: int)
    requires Numbered(queue)
    ensures var e := Eligible(queue, batches, at);
      && Ascending(e)
      && (forall k :: 0 <= k < |e| ==> Selectable(queue, batches, at, e[k]))
      && (forall i :: 0 <= i < |queue| && Selectable(queue, batches, at, queue[i]) ==> queue[i] in e)
  {
    hide InActiveBatch, Ready;
    if queue != [] {
      var n := |queue| - 1;
      EligibleExact(queue[..n], batches, at);
      var e, e' := Eligible(queue[..n], batches, at), Eligible(queue, batches, at);
      assert e' == e + if Ready(queue[n], at) && !InActiveBatch(batches, queue[n].id) then [queue[n]] else [];
      hide Eligible;
      forall k | 0 <= k < |e'| ensures Selectable(queue, batches, at, e'[k]) {
        if k < |e| {
          assert Selectable(queue[..n], batches, at, e[k]);
        }
      }
      forall i | 0 <= i < |queue| && Selectable(queue, batches, at, queue[i]) ensures queue[i] in e' {
        if i < n {
          assert Selectable(queue[..n], batches, at, queue[..n][i]);
        }
      }
      assert Ascending(e') by {
        forall k | 0 <= k < |e| ensures e[k].sequence <= n {
          assert Selectable(queue[..n], batches, at, e[k]);
        }
      }
    }
  }

  /** The chosen rows are the lowest-numbered selectable ones, in order. */
  lemma CandidatesExact(db: Database, at: int, limit: nat)
    requires Numbered(db.queue)
    ensures var e, c := Eligible(db.queue, db.batches, at), Candidates(db, at, limit);
      && c == Take(e, limit) && Ascending(c)
      && forall k :: 0 <= k < |c| ==> Selectable(db.queue, db.batches, at, c[k])
  {
    hide Eligible, InSequenceOrder, Selectable, Numbered;
    EligibleExact(db.queue, db.batches, at);
    SortedFixed(Eligible(db.queue, db.batches, at));
  }

  // ---- Enqueue ----------------------------------------------------------

  lemma AppendOk(queue: seq<Row>, row: Row)
    requires QueueOk(queue) && RowOk(row) && row.sequence == |queue| + 1 && !Present(queue, row.id)
    ensures QueueOk(queue + [row]) && QueueEvolves(queue, queue + [row])
  {
    hide RowOk;
  }

  lemma EvidenceAppends(db: Database, row: Row)
    requires AllEvidenced(db) && row.state.Pending?
    ensures AllEvidenced(db.(queue := db.queue + [row]))
  {
    hide Evidenced;
  }

  lemma EnqueueKeepsInv(db: Database, draft: Draft)
    requires Inv(db)
    ensures Inv(Enqueue(db, draft).db) && Evolves(db, Enqueue(db, draft).db)
  {
    hide QueueOk, QueueEvolves, ResolvedUpTo, BatchesOk, AcksOk, AllEvidenced, BatchesEvolve, AcksEvolve, Present;
    SelfEvolves(db);
    var db' := Enqueue(db, draft).db;
    if Enqueue(db, draft).result.Ok? {
      var row := Enqueue(db, draft).result.value;
      AppendOk(db.queue, row);
      BatchesStayOk(db, db'.queue);
      BatchesCarry(db.(queue := db'.queue), db');
      AcksCarry(db, db');
      EvidenceAppends(db, row);
      EvidenceSame(db.(queue := db'.queue), db');
      ResolvedStays(db.queue, db'.queue, db.lastAcknowledged);
    }
  }

  lemma BatchesCarry(db: Database, db': Database)
    requires BatchesOk(db) && db'.queue == db.queue && db'.batches == db.batches
    ensures BatchesOk(db')
  {
  }

  // ---- Updates of queue rows only ---------------------------------------

  lemma UpdateOneKeepsInv(db: Database, id: TransactionId, c: Change)
    requires Inv(db) && ChangeOk(c) && !c.Resolve?
    ensures Inv(UpdateOne(db, id, c).db) && Evolves(db, UpdateOne(db, id, c).db)
  {
    hide Inv, Evolves, Hits, Update;
    EvolvesSelf(db);
    UpdateKeepsInv(db, map[id := c]);
  }

  lemma RecoverQueueKeepsInv(db: Database, at: int)
    requires Inv(db)
    ensures Inv(RecoverQueue(db, at).db) && Evolves(db, RecoverQueue(db, at).db)
  {
    hide Inv, Evolves, Hits, Update;
    EvolvesSelf(db);
    if at >= 0 {
      UpdateKeepsInv(db, RecoveryChanges(db, at));
    }
  }

  // ---- Batch lifecycle --------------------------------------------------

  lemma RecoverBatchSteps(queue: seq<Row>, b: Batch, at: int)
    requires BatchOk(queue, b) && at >= 0
    ensures BatchSteps(queue, b, RecoverBatch(b, at))
  {
    hide EntriesOk;
  }

  lemma RecoverBatchesKeepsInv(db: Database, at: int)
    requires Inv(db)
    ensures Inv(RecoverBatches(db, at).db) && Evolves(db, RecoverBatches(db, at).db)
  {
    EvolvesSelf(db);
    if at >= 0 {
      hide BatchOk, BatchSteps, Evolves, RecoverBatch;
      var batches := RecoverBatches(db, at).db.batches;
      forall b | b in batches ensures BatchSteps(db.queue, db.batches[b], batches[b]) {
        RecoverBatchSteps(db.queue, db.batches[b], at);
      }
      assert batches.Keys == db.batches.Keys;
      hide Inv;
      BatchesChangeKeepsInv(db, batches);
    }
  }

  lemma RetryableSteps(queue: seq<Row>, b: Batch, text: string, at: int, retryAt: int)
    requires BatchOk(queue, b) && b.state.Submitted? && b.updatedAt <= at && retryAt >= 0
    ensures BatchSteps(queue, b,
                       b.(state := Retryable, retryAt := Some(retryAt), failure := Some(text), updatedAt := at))
  {
    hide EntriesOk;
  }

  lemma FailRetryablyKeepsInv(db: Database, batchId: BatchId, category: string, at: int, retryAt: int)
    requires Inv(db)
    ensures var db' := FailBatchRetryably(db, batchId, category, at, retryAt).db; Inv(db') && Evolves(db, db')
  {
    hide Evolves, BatchOk, Trim, LoadBatch, BatchSteps, QueueOk, AcksOk, AllEvidenced, ResolvedUpTo, Exclusive;
    EvolvesSelf(db);
    var db' := FailBatchRetryably(db, batchId, category, at, retryAt).db;
    if db' != db {
      RetryableSteps(db.queue, db.batches[batchId], Trim(category), at, retryAt);
      hide Inv;
      OneBatchChangeKeepsInv(db, batchId, db'.batches[batchId]);
    }
  }

  lemma ChangeBatchKeepsInv(db: Database, batchId: BatchId, after: Batch, c: Change)
    requires Inv(db) && batchId in db.batches && ChangeOk(c) && !c.Resolve?
    requires BatchSteps(db.queue, db.batches[batchId], after)
    ensures var db' := ChangeBatch(db, batchId, after, c).db; Inv(db') && Evolves(db, db')
  {
    hide Inv, Evolves, BatchSteps;
    EvolvesSelf(db);
    var db' := ChangeBatch(db, batchId, after, c).db;
    if db' != db {
      var changes := ForEntries(db.batches[batchId].entries, c);
      UpdateKeepsInv(db, changes);
      var mid := db.(queue := Update(db.queue, changes));
      assert BatchSteps(mid.queue, mid.batches[batchId], after) by { StepSurvivesUpdate(db, batchId, after, changes); }
      OneBatchChangeKeepsInv(mid, batchId, after);
      EvolvesTransitive(db, mid, db');
    }
  }

  lemma EvolvesSelf(db: Database)
    ensures Evolves(db, db)
  {
    SelfEvolves(db);
  }

  lemma StepSurvivesUpdate(db: Database, batchId: BatchId, after: Batch, changes: map<TransactionId, Change>)
    requires Inv(db) && batchId in db.batches && ChangesOk(changes)
    requires BatchSteps(db.queue, db.batches[batchId], after)
    ensures BatchSteps(Update(db.queue, changes), db.batches[batchId], after)
  {
    UpdateOk(db.queue, changes);
    BatchStaysOk(db.queue, Update(db.queue, changes), after);
  }

  lemma SubmittedSteps(queue: seq<Row>, b: Batch, at: I64)
    requires BatchOk(queue, b) && at >= 0 && Submittable(b, at)
    ensures BatchSteps(queue, b, SubmittedBatch(b, at))
  {
    hide EntriesOk;
  }

  lemma SubmitKeepsInv(db: Database, batchId: BatchId, at: I64)
    requires Inv(db)
    ensures Inv(SubmitBatch(db, batchId, at).db) && Evolves(db, SubmitBatch(db, batchId, at).db)
  {
    hide Evolves, BatchSteps, BatchOk, SubmittedBatch, ChangeBatch;
    EvolvesSelf(db);
    if at >= 0 && batchId in db.batches && Submittable(db.batches[batchId], at) {
      SubmittedSteps(db.queue, db.batches[batchId], at);
      hide Inv;
      ChangeBatchKeepsInv(db, batchId, SubmittedBatch(db.batches[batchId], at), Resubmit(at));
    }
  }

  lemma FinishedSteps(queue: seq<Row>, b: Batch, review: bool, category: string, at: int)
    requires BatchOk(queue, b) && b.state.Submitted? && b.updatedAt <= at
    ensures BatchSteps(queue, b, FinishedBatch(b, review, category, at))
  {
    hide EntriesOk;
  }

  lemma FailFinallyKeepsInv(db: Database, batchId: BatchId, review: bool, category: string, at: int)
    requires Inv(db)
    ensures var db' := FailBatchFinally(db, batchId, review, category, at).db; Inv(db') && Evolves(db, db')
  {
    hide Evolves, BatchSteps, BatchOk, FinishedBatch, ChangeBatch, Trim;
    EvolvesSelf(db);
    if at >= 0 && !Blank(category) && InFlightBy(db, batchId, at) {
      FinishedSteps(db.queue, db.batches[batchId], review, Trim(category), at);
      hide Inv;
      ChangeBatchKeepsInv(db, batchId, FinishedBatch(db.batches[batchId], review, Trim(category), at),
                          Finish(review, Trim(category), at));
    }
  }

  // ---- Batch creation ---------------------------------------------------

  lemma NamedIsActive(batches: map<BatchId, Batch>, b: BatchId, j: nat)
    requires b in batches && batches[b].state.Active() && j < |batches[b].entries|
    ensures InActiveBatch(batches, batches[b].entries[j].transactionId)
  {
    assert Names(batches[b].entries, batches[b].entries[j].transactionId);
  }

  lemma FreshEntries(batches: map<BatchId, Batch>, b: BatchId, batch: Batch)
    requires b in batches && batches[b].state.Active()
    requires forall k :: 0 <= k < |batch.entries| ==> !InActiveBatch(batches, batch.entries[k].transactionId)
    ensures !Overlap(batches[b], batch) && !Overlap(batch, batches[b])
  {
    hide InActiveBatch;
    forall j | 0 <= j < |batches[b].entries| ensures InActiveBatch(batches, batches[b].entries[j].transactionId) {
      NamedIsActive(batches, b, j);
    }
  }

  /** A prepared batch over rows that no active batch holds can be added. */
  lemma AddBatchKeepsInv(db: Database, batchId: BatchId, batch: Batch)
    requires Inv(db) && batchId !in db.batches && BatchOk(db.queue, batch) && batch.state.Prepared?
    requires forall k :: 0 <= k < |batch.entries| ==> !InActiveBatch(db.batches, batch.entries[k].transactionId)
    ensures var db' := db.(batches := db.batches[batchId := batch]); Inv(db') && Evolves(db, db')
  {
    hide BatchOk, AckOk, QueueOk, ResolvedUpTo, AllEvidenced;
    var db' := db.(batches := db.batches[batchId := batch]);
    EvidenceSame(db, db');
    assert Exclusive(db'.batches) by {
      hide Overlap;
      forall b | b in db.batches && db.batches[b].state.Active()
        ensures !Overlap(db.batches[b], batch) && !Overlap(batch, db.batches[b])
      {
        FreshEntries(db.batches, b, batch);
      }
    }
    assert AcksOk(db') by {
      forall b | b in db.acks ensures b in db'.batches && AckOk(db'.identity, b, db'.acks[b], db'.batches[b]) {
        assert AckOk(db.identity, b, db.acks[b], db.batches[b]);
      }
    }
    SelfEvolves(db);
    forall b | b in db.batches ensures BatchEvolves(db.batches[b], db'.batches[b]) {
      BatchEvolvesSelf(db.batches[b]);
    }
  }

  lemma NewBatchOk(db: Database, protocol: Version, at: int, chosen: seq<Row>)
    requires QueueOk(db.queue) && chosen != [] && Ascending(chosen) && at >= 0
    requires forall k :: 0 <= k < |chosen| ==> Selectable(db.queue, db.batches, at, chosen[k])
    ensures BatchOk(db.queue, NewBatch(protocol, chosen, at)) && NewBatch(protocol, chosen, at).state.Prepared?
  {
    hide InActiveBatch, Ready, RowOk;
    var batch := NewBatch(protocol, chosen, at);
    forall k | 0 <= k < |batch.entries| ensures EntryOk(db.queue, batch.entries[k]) {
      assert Selectable(db.queue, db.batches, at, chosen[k]);
    }
  }

  lemma ChosenAreFree(db: Database, protocol: Version, at: int, chosen: seq<Row>)
    requires chosen != [] && forall k :: 0 <= k < |chosen| ==> Selectable(db.queue, db.batches, at, chosen[k])
    ensures var entries := NewBatch(protocol, chosen, at).entries;
      forall k :: 0 <= k < |entries| ==> !InActiveBatch(db.batches, entries[k].transactionId)
  {
    hide InActiveBatch, Ready;
    var entries := NewBatch(protocol, chosen, at).entries;
    forall k | 0 <= k < |entries| ensures !InActiveBatch(db.batches, entries[k].transactionId) {
      assert Selectable(db.queue, db.batches, at, chosen[k]);
    }
  }

  lemma ForEntriesPlain(entries: seq<EntryRow>, c: Change)
    requires ChangeOk(c) && !c.Resolve?
    ensures ChangesOk(ForEntries(entries, c)) && !Accepting(ForEntries(entries, c))
  {
  }

  lemma CreateBatchKeepsInv(db: Database, batchId: BatchId, protocol: Version, at: int, limit: nat)
    requires Inv(db)
    ensures var db' := CreateBatch(db, batchId, protocol, at, limit).db; Inv(db') && Evolves(db, db')
  {
    hide Candidates, FirstBlocked, NewBatch, ForEntries, Update, Evolves, BatchOk, InActiveBatch, Ascending, Selectable;
    EvolvesSelf(db);
    var o := CreateBatch(db, batchId, protocol, at, limit);
    if o.result.Ok? {
      var chosen := Candidates(db, at, limit);
      assert Numbered(db.queue);
      CandidatesExact(db, at, limit);
      var batch := NewBatch(protocol, chosen, at);
      NewBatchOk(db, protocol, at, chosen);
      var changes := ForEntries(batch.entries, Reserve(at));
      var mid := db.(queue := Update(db.queue, changes));
      assert BatchOk(mid.queue, batch) by {
        ForEntriesPlain(batch.entries, Reserve(at));
        UpdateOk(db.queue, changes);
        BatchStaysOk(db.queue, mid.queue, batch);
      }
      ChosenAreFree(db, protocol, at, chosen);
      assert o.db == mid.(batches := mid.batches[batchId := batch]);
      ForEntriesPlain(batch.entries, Reserve(at));
      hide Inv;
      UpdateKeepsInv(db, changes);
      AddBatchKeepsInv(mid, batchId, batch);
      EvolvesTransitive(db, mid, o.db);
    }
  }

  // ---- Storing ----------------------------------------------------------

  lemma {:induction false} FirstMismatchExact(lines: seq<AckLine>, entries: seq<EntryRow>, k: nat)
    requires k <= |lines| == |entries|
    ensures FirstMismatch(lines, entries, k).None? <==> forall j :: k <= j < |lines| ==> LineFits(lines[j], entries[j])
    decreases |lines| - k
  {
    if k < |lines| {
      FirstMismatchExact(lines, entries, k + 1);
    }
  }

  /** The comparison loop accepts exactly the matching acknowledgements. */
  lemma MatchErrorExact(a: Acknowledgement, b: Batch)
    ensures MatchError(a, b).None? <==> Matches(a, b)
  {
    if |a.lines| == |b.entries| {
      FirstMismatchExact(a.lines, b.entries, 0);
    }
  }

  lemma ReceiptNonNegative(a: Acknowledgement)
    requires Constructible(a)
    ensures a.receivedAt >= 0
  {
  }

  lemma MatchedAckOk(db: Database, a: Acknowledgement)
    requires Inv(db) && Constructible(a) && a.readerId == db.identity.readerId
    requires a.batchId in db.batches && db.batches[a.batchId].state.Submitted? && Matches(a, db.batches[a.batchId])
    ensures AckOk(db.identity, a.batchId, StoredAck(CanonicalPayload(a), None), db.batches[a.batchId])
  {
    hide Constructible, Decodable, StoredResolution, QueueOk, AcksOk, AllEvidenced, Exclusive;
    var b := db.batches[a.batchId];
    assert BatchOk(db.queue, b);
    forall k | 0 <= k < |a.lines| ensures a.lines[k].sequence > 0 {
      assert EntryOk(db.queue, b.entries[k]) && LineFits(a.lines[k], b.entries[k]);
    }
    StoredLinesDecode(a);
    assert a.receivedAt >= 0 by { ReceiptNonNegative(a); }
    forall k | 0 <= k < |a.lines|
      ensures var row := StoredLines(a.lines)[k];
        row.transactionId == b.entries[k].transactionId && row.sequence == b.entries[k].sequence
    {
      assert LineFits(a.lines[k], b.entries[k]);
    }
  }

  lemma AddAckOk(db: Database, batchId: BatchId, ack: StoredAck)
    requires AcksOk(db) && batchId !in db.acks && batchId in db.batches
    requires AckOk(db.identity, batchId, ack, db.batches[batchId])
    ensures AcksOk(db.(acks := db.acks[batchId := ack])) && AcksEvolve(db.acks, db.acks[batchId := ack])
  {
    hide AckOk;
    var db' := db.(acks := db.acks[batchId := ack]);
    forall b | b in db'.acks ensures b in db'.batches && AckOk(db'.identity, b, db'.acks[b], db'.batches[b]) {
      if b != batchId {
        assert AckOk(db.identity, b, db.acks[b], db.batches[b]);
      }
    }
  }

  lemma StoreCheckedKeepsInv(db: Database, a: Acknowledgement)
    requires Inv(db) && Constructible(a) && a.readerId == db.identity.readerId
    requires a.batchId in db.batches && Matches(a, db.batches[a.batchId])
    ensures Inv(StoreChecked(db, a).db) && Evolves(db, StoreChecked(db, a).db)
  {
    EvolvesSelf(db);
    var db' := StoreChecked(db, a).db;
    if db' != db {
      MatchedAckOk(db, a);
      AddAckOk(db, a.batchId, StoredAck(CanonicalPayload(a), None));
      hide QueueOk, QueueEvolves, BatchesEvolve, AcksEvolve, ResolvedUpTo, BatchesOk, AcksOk, AllEvidenced,
           Constructible, Matches;
      BatchesCarry(db, db');
      EvidenceGrows(db, db');
    }
  }

  /** Evidence survives as long as stored acknowledgements do. */
  lemma EvidenceGrows(db: Database, db': Database)
    requires AllEvidenced(db) && db'.queue == db.queue && AcksEvolve(db.acks, db'.acks)
    ensures AllEvidenced(db')
  {
    forall i | 0 <= i < |db.queue| && db.queue[i].state.Acknowledged? ensures Evidenced(db'.acks, db'.queue[i]) {
      EvidenceKept(db.acks, db'.acks, db.queue[i]);
    }
  }

  lemma EvidenceKept(m: map<BatchId, StoredAck>, n: map<BatchId, StoredAck>, row: Row)
    requires Evidenced(m, row) && AcksEvolve(m, n)
    ensures Evidenced(n, row)
  {
    hide Accepts;
    var b :| b in m && m[b].appliedAt.Some? && Accepts(m[b].payload, row);
    assert AckEvolves(m[b], n[b]);
  }

  lemma StoreKeepsInv(db: Database, a: Acknowledgement)
    requires Inv(db) && Constructible(a)
    ensures Inv(StoreAck(db, a).db) && Evolves(db, StoreAck(db, a).db)
  {
    EvolvesSelf(db);
    if CheckAck(db, a).None? {
      MatchErrorExact(a, db.batches[a.batchId]);
      hide Inv, Evolves, Constructible, Matches, StoreChecked;
      StoreCheckedKeepsInv(db, a);
    }
  }

  // ---- Applying ---------------------------------------------------------

  /** Each change comes from some line. */
  lemma {:induction false} ResolveChangesFrom(lines: seq<AckLine>, at: int, id: TransactionId)
    requires id in ResolveChanges(lines, at)
    ensures exists k :: 0 <= k < |lines| && lines[k].transactionId == id
                        && ResolveChanges(lines, at)[id] == Resolve(lines[k].resolution, at)
  {
    var n := |lines| - 1;
    if lines[n].transactionId != id {
      ResolveChangesFrom(lines[..n], at, id);
      var k :| 0 <= k < n && lines[..n][k].transactionId == id
               && ResolveChanges(lines[..n], at)[id] == Resolve(lines[..n][k].resolution, at);
      assert lines[k].transactionId == id;
    }
  }

  lemma DecodedRetryOk(row: AckEntryRow, position: nat, receivedAt: int)
    requires receivedAt >= 0 && DecodeRow(row, position, receivedAt).Ok?
    ensures var line := DecodeRow(row, position, receivedAt).value;
      && line.transactionId == row.transactionId && line.sequence == row.sequence
      && (line.resolution.RetryLater? ==> line.resolution.retryAt >= 0)
      && (line.resolution.Accepted? ==> row.outcome == "acknowledged")
  {
    hide Trim;
  }

  lemma ResolveChangesOk(p: Payload, at: int)
    requires p.receivedAt >= 0 && Decodable(p.entries, p.receivedAt)
    ensures ChangesOk(ResolveChanges(Lines(p), at))
  {
    hide DecodeRow;
    var lines := Lines(p);
    forall id | id in ResolveChanges(lines, at) ensures ChangeOk(ResolveChanges(lines, at)[id]) {
      ResolveChangesFrom(lines, at, id);
      var k :| 0 <= k < |lines| && lines[k].transactionId == id
               && ResolveChanges(lines, at)[id] == Resolve(lines[k].resolution, at);
      DecodedRetryOk(p.entries[k], k, p.receivedAt);
    }
  }

  lemma {:induction false} ResolvedPrefixExact(queue: seq<Row>, n: nat)
    requires n <= |queue|
    ensures var m := ResolvedPrefix(queue, n);
      && n <= m <= |queue|
      && (forall i :: n <= i < m ==> queue[i].state.Resolved())
      && (m < |queue| ==> !queue[m].state.Resolved())
    decreases |queue| - n
  {
    if n < |queue| && queue[n].state.Resolved() {
      ResolvedPrefixExact(queue, n + 1);
    }
  }

  /** A row that becomes accepted is named by an accepting line. */
  lemma NewAcceptanceEvidenced(p: Payload, at: int, row: Row)
    requires p.receivedAt >= 0 && Decodable(p.entries, p.receivedAt) && RowOk(row) && !row.state.Acknowledged?
    requires UpdateRow(row, ResolveChanges(Lines(p), at)).state.Acknowledged?
    ensures exists k :: 0 <= k < |p.entries| && p.entries[k].transactionId == row.id
                        && p.entries[k].outcome == "acknowledged"
  {
    hide DecodeRow;
    var lines := Lines(p);
    var changes := ResolveChanges(lines, at);
    ResolveChangesFrom(lines, at, row.id);
    var k :| 0 <= k < |lines| && lines[k].transactionId == row.id
             && changes[row.id] == Resolve(lines[k].resolution, at);
    DecodedRetryOk(p.entries[k], k, p.receivedAt);
  }

  /** In a well-numbered queue an identity determines the sequence. */
  lemma SameIdSameSequence(queue: seq<Row>, e: EntryRow, i: nat)
    requires QueueOk(queue) && EntryOk(queue, e) && i < |queue| && queue[i].id == e.transactionId
    ensures e.sequence == i + 1
  {
    hide RowOk;
    var j := e.sequence - 1;
    assert i == j || i < j || j < i;
  }

  function MarkApplied(acks: map<BatchId, StoredAck>, batchId: BatchId, at: int): map<BatchId, StoredAck>
    requires batchId in acks
  {
    acks[batchId := acks[batchId].(appliedAt := Some(at))]
  }

  lemma MarkAppliedEvolves(acks: map<BatchId, StoredAck>, batchId: BatchId, at: int)
    requires batchId in acks && acks[batchId].appliedAt.None?
    ensures AcksEvolve(acks, MarkApplied(acks, batchId, at))
  {
  }

  /** A row accepted by this application is evidenced by its acknowledgement. */
  lemma NewEvidence(db: Database, batchId: BatchId, at: int, i: nat)
    requires QueueOk(db.queue) && batchId in db.acks && batchId in db.batches && i < |db.queue|
    requires BatchOk(db.queue, db.batches[batchId])
    requires AckOk(db.identity, batchId, db.acks[batchId], db.batches[batchId])
    requires !db.queue[i].state.Acknowledged?
    requires var p := db.acks[batchId].payload;
      UpdateRow(db.queue[i], ResolveChanges(Lines(p), at)).state.Acknowledged?
    ensures Evidenced(MarkApplied(db.acks, batchId, at), db.queue[i])
  {
    var p, row := db.acks[batchId].payload, db.queue[i];
    NewAcceptanceEvidenced(p, at, row);
    var k :| 0 <= k < |p.entries| && p.entries[k].transactionId == row.id && p.entries[k].outcome == "acknowledged";
    var e := db.batches[batchId].entries[k];
    assert EntryOk(db.queue, e);
    SameIdSameSequence(db.queue, e, i);
    assert Accepts(p, row);
    assert MarkApplied(db.acks, batchId, at)[batchId].payload == p;
  }

  lemma UpdateRowIdentity(row: Row, changes: map<TransactionId, Change>)
    ensures UpdateRow(row, changes).id == row.id && UpdateRow(row, changes).sequence == row.sequence
  {
  }

  lemma AppliedEvidence(db: Database, batchId: BatchId, at: int, i: nat)
    requires Inv(db) && batchId in db.acks && db.acks[batchId].appliedAt.None? && i < |db.queue|
    requires var p := db.acks[batchId].payload;
      UpdateRow(db.queue[i], ResolveChanges(Lines(p), at)).state.Acknowledged?
    ensures var p := db.acks[batchId].payload;
      Evidenced(MarkApplied(db.acks, batchId, at), UpdateRow(db.queue[i], ResolveChanges(Lines(p), at)))
  {
    hide QueueOk, BatchOk, AckOk, Evidenced, UpdateRow, MarkApplied, Lines, ResolveChanges, Exclusive, AcksEvolve;
    var p := db.acks[batchId].payload;
    var row' := UpdateRow(db.queue[i], ResolveChanges(Lines(p), at));
    UpdateRowIdentity(db.queue[i], ResolveChanges(Lines(p), at));
    if db.queue[i].state.Acknowledged? {
      MarkAppliedEvolves(db.acks, batchId, at);
      EvidenceKept(db.acks, MarkApplied(db.acks, batchId, at), db.queue[i]);
    } else {
      NewEvidence(db, batchId, at, i);
    }
    EvidenceCarries(MarkApplied(db.acks, batchId, at), db.queue[i], row');
  }

  lemma AckFacts(db: Database, batchId: BatchId)
    requires AcksOk(db) && batchId in db.acks
    ensures batchId in db.batches && AckOk(db.identity, batchId, db.acks[batchId], db.batches[batchId])
    ensures var p := db.acks[batchId].payload;
      && p.receivedAt >= 0 && Decodable(p.entries, p.receivedAt)
      && |Lines(p)| == |p.entries| == |db.batches[batchId].entries|
  {
  }

  lemma ApplyLinesKeepsInv(db: Database, batchId: BatchId, at: int)
    requires Inv(db) && batchId in db.acks && db.acks[batchId].appliedAt.None?
    requires at >= db.acks[batchId].payload.receivedAt
    requires batchId in db.batches && db.batches[batchId].state.Submitted?
    ensures var p := db.acks[batchId].payload;
      var db' := ApplyLines(db, batchId, Lines(p), at).db; Inv(db') && Evolves(db, db')
  {
    hide QueueOk, QueueEvolves, BatchesEvolve, AcksEvolve, BatchesOk, AcksOk, Evidenced, UpdateRow, ResolveChanges,
         ResolvedPrefix, FirstConflict, Lines, Decodable, CountLines, CompletedBatch;
    EvolvesSelf(db);
    var p := db.acks[batchId].payload;
    var lines := Lines(p);
    var db' := ApplyLines(db, batchId, lines, at).db;
    if ApplyLines(db, batchId, lines, at).result.Ok? {
      AckFacts(db, batchId);
      var changes := ResolveChanges(lines, at);
      ResolveChangesOk(p, at);
      UpdateOk(db.queue, changes);
      ResolvedStays(db.queue, db'.queue, db.lastAcknowledged);
      ResolvedPrefixExact(db'.queue, db.lastAcknowledged);
      forall i | 0 <= i < |db'.queue| && db'.queue[i].state.Acknowledged? ensures Evidenced(db'.acks, db'.queue[i]) {
        AppliedEvidence(db, batchId, at, i);
      }
      CompletionKeepsBatches(db, batchId, at, db'.queue);
      BatchesCarry(db.(queue := db'.queue, batches := db'.batches), db');
      CompletionKeepsAcks(db, batchId, at, db');
    }
  }

  lemma CompletedOk(queue: seq<Row>, b: Batch, at: int)
    requires BatchOk(queue, b) && b.state.Submitted? && b.updatedAt <= at
    ensures BatchOk(queue, CompletedBatch(b, at)) && BatchEvolves(b, CompletedBatch(b, at))
  {
    hide EntriesOk;
  }

  lemma ExclusiveShrinks(batches: map<BatchId, Batch>, batchId: BatchId, after: Batch)
    requires Exclusive(batches) && !after.state.Active()
    ensures Exclusive(batches[batchId := after])
  {
    hide Overlap;
  }

  lemma CompletionKeepsBatches(db: Database, batchId: BatchId, at: int, queue: seq<Row>)
    requires BatchesOk(db) && batchId in db.batches && db.batches[batchId].state.Submitted?
    requires db.batches[batchId].updatedAt <= at && QueueEvolves(db.queue, queue)
    ensures var batches := db.batches[batchId := CompletedBatch(db.batches[batchId], at)];
      BatchesOk(db.(queue := queue, batches := batches)) && BatchesEvolve(db.batches, batches)
  {
    hide BatchOk, QueueEvolves, Exclusive, BatchEvolves;
    var batches := db.batches[batchId := CompletedBatch(db.batches[batchId], at)];
    ExclusiveShrinks(db.batches, batchId, CompletedBatch(db.batches[batchId], at));
    forall b | b in batches
      ensures BatchOk(queue, batches[b]) && b in db.batches && BatchEvolves(db.batches[b], batches[b])
    {
      BatchStaysOk(db.queue, queue, db.batches[b]);
      BatchEvolvesSelf(db.batches[b]);
      if b == batchId {
        CompletedOk(queue, db.batches[b], at);
      }
    }
  }

  lemma CompletionKeepsAcks(db: Database, batchId: BatchId, at: int, db': Database)
    requires AcksOk(db) && batchId in db.acks && db.acks[batchId].appliedAt.None?
    requires at >= db.acks[batchId].payload.receivedAt
    requires db'.identity == db.identity
    requires db'.batches == db.batches[batchId := CompletedBatch(db.batches[batchId], at)]
    requires db'.acks == db.acks[batchId := db.acks[batchId].(appliedAt := Some(at))]
    ensures AcksOk(db') && AcksEvolve(db.acks, db'.acks)
  {
    hide AckRowsOk;
    forall b | b in db'.acks ensures b in db'.batches && AckOk(db'.identity, b, db'.acks[b], db'.batches[b]) {
      assert AckOk(db.identity, b, db.acks[b], db.batches[b]);
    }
  }

  lemma ApplyKeepsInv(db: Database, batchId: BatchId, at: int)
    requires Inv(db)
    ensures Inv(ApplyAck(db, batchId, at).db) && Evolves(db, ApplyAck(db, batchId, at).db)
  {
    hide Inv, Evolves, ApplyLines, Lines, Decodable, CountLines;
    EvolvesSelf(db);
    if ApplyAck(db, batchId, at).db != db {
      ApplyLinesKeepsInv(db, batchId, at);
    }
  }

  // ---- Every step -------------------------------------------------------

  lemma StepKeepsInv(db: Database, op: Operation)
    requires Inv(db) && op.Sane()
    ensures Inv(Step(db, op)) && Evolves(db, Step(db, op))
  {
    hide Inv, Evolves;
    EvolvesSelf(db);
    match op {
      case DoEnqueue(draft) => EnqueueKeepsInv(db, draft);
      case DoMarkTransaction(id, at) => UpdateOneKeepsInv(db, id, Attempt(at));
      case DoRecordRetryable(id, category, at, retryAt) =>
        if retryAt >= 0 {
          UpdateOneKeepsInv(db, id, Retry(Trim(category), retryAt, at));
        }
      case DoRecordFinal(id, review, category, at) => UpdateOneKeepsInv(db, id, Finish(review, Trim(category), at));
      case DoRecoverQueue(at) => RecoverQueueKeepsInv(db, at);
      case DoCreateBatch(newBatch, protocol, at, limit) => CreateBatchKeepsInv(db, newBatch, protocol, at, limit);
      case DoSubmitBatch(batchId, at) => SubmitKeepsInv(db, batchId, at);
      case DoFailRetryably(batchId, category, at, retryAt) => FailRetryablyKeepsInv(db, batchId, category, at, retryAt);
      case DoFailFinally(batchId, review, category, at) => FailFinallyKeepsInv(db, batchId, review, category, at);
      case DoRecoverBatches(at) => RecoverBatchesKeepsInv(db, at);
      case DoStoreAck(ack) => StoreKeepsInv(db, ack);
      case DoApplyAck(batchId, at) => ApplyKeepsInv(db, batchId, at);
    }
  }
}
