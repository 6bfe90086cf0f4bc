/** Runs made of batch-level operations only (no single-row update): there the
    queue and the batches stay coupled, and every guard becomes exact. */
module ReaderCoupling {
  import opened Basics
  import opened Texts
  import opened ReaderTables
  import opened ReaderAcknowledgement
  import opened ReaderSteps
  import opened ReaderInvariant
  import opened ReaderPreservation
  import opened ReaderRuns

  // ---- The coupling -----------------------------------------------------

  predicate Held(queue: seq<Row>, e: EntryRow, limit: int)
    requires EntryOk(queue, e)
  {
    queue[e.sequence - 1].state.InFlight? && queue[e.sequence - 1].updatedAt <= limit
  }

  predicate AllHeld(queue: seq<Row>, b: Batch) {
    forall k :: 0 <= k < |b.entries| ==> EntryOk(queue, b.entries[k]) && Held(queue, b.entries[k], b.updatedAt)
  }

  /** The entries of active batches are in flight, not updated after their
      batch; and every row in flight belongs to an active batch. */
  ghost predicate Coupled(db: Database) {
    && (forall b :: b in db.batches && db.batches[b].state.Active() ==> AllHeld(db.queue, db.batches[b]))
    && (forall i :: 0 <= i < |db.queue| && db.queue[i].state.InFlight? ==> InActiveBatch(db.batches, db.queue[i].id))
  }

  // ---- Updating all entries of one batch --------------------------------

  /** Every entry's row satisfies the guard of its change. */
  predicate AllHit(queue: seq<Row>, entries: seq<EntryRow>, changes: map<TransactionId, Change>) {
    forall k :: 0 <= k < |entries| ==> EntryOk(queue, entries[k]) && Hit(queue[entries[k].sequence - 1], changes)
  }

  lemma HitEntriesHitIds(queue: seq<Row>, entries: seq<EntryRow>, changes: map<TransactionId, Change>)
    requires changes.Keys == EntryIds(entries) && AllHit(queue, entries, changes)
    ensures forall id :: id in changes ==> HitsSome(queue, changes, id)
  {
    hide Hit;
    forall id | id in changes ensures HitsSome(queue, changes, id) {
      var k :| 0 <= k < |entries| && entries[k].transactionId == id;
      var i := entries[k].sequence - 1;
      assert EntryOk(queue, entries[k]) && Hit(queue[i], changes) && queue[i].id == id;
    }
  }

  lemma HitIdsHitEntries(queue: seq<Row>, entries: seq<EntryRow>, changes: map<TransactionId, Change>)
    requires QueueOk(queue) && EntriesOk(queue, entries) && changes.Keys == EntryIds(entries)
    requires forall id :: id in changes ==> HitsSome(queue, changes, id)
    ensures AllHit(queue, entries, changes)
  {
    hide QueueOk, Hit;
    forall k | 0 <= k < |entries| ensures EntryOk(queue, entries[k]) && Hit(queue[entries[k].sequence - 1], changes) {
      assert EntryOk(queue, entries[k]) && entries[k].transactionId in changes;
      assert HitsSome(queue, changes, entries[k].transactionId);
      var i :| 0 <= i < |queue| && queue[i].id == entries[k].transactionId && Hit(queue[i], changes);
      SameIdSameSequence(queue, entries[k], i);
    }
  }

  lemma QueueDistinct(queue: seq<Row>)
    requires QueueOk(queue)
    ensures DistinctRows(queue)
  {
    hide RowOk, DistinctRows;
  }

  lemma AllHitFromHits(queue: seq<Row>, entries: seq<EntryRow>, changes: map<TransactionId, Change>)
    requires QueueOk(queue) && EntriesOk(queue, entries) && changes.Keys == EntryIds(entries)
    ensures |changes| == |entries|
    ensures Hits(queue, changes) == |entries| <==> AllHit(queue, entries, changes)
  {
    hide QueueOk, EntriesOk, Hits, HitsSome, AllHit, EntryIds;
    EntryIdsDistinct(queue, entries);
    EntryIdsCount(entries);
    assert |changes| == |changes.Keys|;
    QueueDistinct(queue);
    HitsAll(queue, changes);
    if AllHit(queue, entries, changes) {
      HitEntriesHitIds(queue, entries, changes);
    }
    if forall id :: id in changes ==> HitsSome(queue, changes, id) {
      HitIdsHitEntries(queue, entries, changes);
    }
  }

  lemma EntryIdsDistinct(queue: seq<Row>, entries: seq<EntryRow>)
    requires QueueOk(queue) && EntriesOk(queue, entries)
    ensures forall i, j :: 0 <= i < j < |entries| ==> entries[i].transactionId != entries[j].transactionId
  {
    hide RowOk;
    forall i, j | 0 <= i < j < |entries| ensures entries[i].transactionId != entries[j].transactionId {
      assert EntryOk(queue, entries[i]) && EntryOk(queue, entries[j]) && entries[i].sequence < entries[j].sequence;
    }
  }

  lemma {:induction false} EntryIdsCount(entries: seq<EntryRow>)
    requires forall i, j :: 0 <= i < j < |entries| ==> entries[i].transactionId != entries[j].transactionId
    ensures |EntryIds(entries)| == |entries|
  {
    if entries != [] {
      var n := |entries| - 1;
      EntryIdsCount(entries[..n]);
      assert EntryIds(entries) == EntryIds(entries[..n]) + {entries[n].transactionId};
    }
  }

  lemma NamedIffListed(entries: seq<EntryRow>, id: TransactionId)
    ensures Names(entries, id) <==> id in EntryIds(entries)
  {
  }

  lemma HitForEntries(row: Row, entries: seq<EntryRow>, c: Change)
    requires row.id in EntryIds(entries) && Guard(row, c)
    ensures Hit(row, ForEntries(entries, c)) && UpdateRow(row, ForEntries(entries, c)) == Changed(row, c)
  {
    hide Guard, Changed;
  }

  predicate Disjoint(xs: seq<EntryRow>, ys: seq<EntryRow>) {
    forall j, k :: 0 <= j < |xs| && 0 <= k < |ys| ==> xs[j].transactionId != ys[k].transactionId
  }

  /** What the update leaves behind for the batch and its rows. */
  predicate Settled(queue: seq<Row>, entries: seq<EntryRow>, changes: map<TransactionId, Change>, after: Batch) {
    forall k :: 0 <= k < |entries| ==> EntrySettled(queue, entries[k], changes, after)
  }

  predicate EntrySettled(queue: seq<Row>, e: EntryRow, changes: map<TransactionId, Change>, after: Batch) {
    EntryOk(queue, e) &&
    var row := UpdateRow(queue[e.sequence - 1], changes);
    if after.state.Active() then row.state.InFlight? && row.updatedAt <= after.updatedAt else !row.state.InFlight?
  }

  ghost predicate OthersDisjoint(db: Database, batchId: BatchId, entries: seq<EntryRow>) {
    forall b :: b in db.batches && b != batchId && db.batches[b].state.Active() ==>
      Disjoint(db.batches[b].entries, entries)
  }

  lemma OtherHeld(db: Database, b: Batch, entries: seq<EntryRow>, changes: map<TransactionId, Change>)
    requires QueueOk(db.queue) && AllHeld(db.queue, b) && Disjoint(b.entries, entries)
    requires changes.Keys == EntryIds(entries)
    ensures AllHeld(Update(db.queue, changes), b)
  {
    hide Guard, Changed, RowOk;
    var queue := Update(db.queue, changes);
    forall k | 0 <= k < |b.entries| ensures EntryOk(queue, b.entries[k]) && Held(queue, b.entries[k], b.updatedAt) {
      var e := b.entries[k];
      assert EntryOk(db.queue, e) && Held(db.queue, e, b.updatedAt);
      assert e.transactionId !in EntryIds(entries);
      assert queue[e.sequence - 1] == UpdateRow(db.queue[e.sequence - 1], changes) == db.queue[e.sequence - 1];
    }
  }

  lemma MineHeld(db: Database, after: Batch, changes: map<TransactionId, Change>)
    requires Settled(db.queue, after.entries, changes, after) && after.state.Active()
    ensures AllHeld(Update(db.queue, changes), after)
  {
    hide UpdateRow;
    var queue := Update(db.queue, changes);
    forall k | 0 <= k < |after.entries|
      ensures EntryOk(queue, after.entries[k]) && Held(queue, after.entries[k], after.updatedAt)
    {
      var e := after.entries[k];
      assert EntrySettled(db.queue, e, changes, after);
      assert queue[e.sequence - 1] == UpdateRow(db.queue[e.sequence - 1], changes);
      UpdateRowIdentity(db.queue[e.sequence - 1], changes);
    }
  }

  lemma NamedBySettled(queue: seq<Row>, after: Batch, changes: map<TransactionId, Change>, i: nat)
    requires QueueOk(queue) && Settled(queue, after.entries, changes, after) && changes.Keys == EntryIds(after.entries)
    requires i < |queue| && queue[i].id in changes && UpdateRow(queue[i], changes).state.InFlight?
    ensures after.state.Active() && Names(after.entries, queue[i].id)
  {
    hide UpdateRow, RowOk;
    var k :| 0 <= k < |after.entries| && after.entries[k].transactionId == queue[i].id;
    assert EntrySettled(queue, after.entries[k], changes, after);
    SameIdSameSequence(queue, after.entries[k], i);
  }

  lemma NamedByOther(db: Database, batchId: BatchId, after: Batch, id: TransactionId)
    requires InActiveBatch(db.batches, id) && id !in EntryIds(after.entries)
    requires batchId in db.batches ==> db.batches[batchId].entries == after.entries
    ensures InActiveBatch(db.batches[batchId := after], id)
  {
    hide Names, EntryIds;
    var b :| b in db.batches && db.batches[b].state.Active() && Names(db.batches[b].entries, id);
    NamedIffListed(db.batches[b].entries, id);
    var batches := db.batches[batchId := after];
    assert b in batches && batches[b].state.Active() && Names(batches[b].entries, id);
  }

  /** A row in flight after the update is still in some active batch. */
  lemma StillNamed(db: Database, batchId: BatchId, after: Batch, changes: map<TransactionId, Change>, i: nat)
    requires QueueOk(db.queue) && i < |db.queue| && changes.Keys == EntryIds(after.entries)
    requires db.queue[i].state.InFlight? ==> InActiveBatch(db.batches, db.queue[i].id)
    requires Settled(db.queue, after.entries, changes, after)
    requires batchId in db.batches ==> db.batches[batchId].entries == after.entries
    requires UpdateRow(db.queue[i], changes).state.InFlight?
    ensures InActiveBatch(db.batches[batchId := after], db.queue[i].id)
  {
    hide QueueOk, Settled, Guard, Changed, Names, EntryIds;
    var batches := db.batches[batchId := after];
    if db.queue[i].id in changes {
      NamedBySettled(db.queue, after, changes, i);
      assert batchId in batches && batches[batchId].state.Active() && Names(batches[batchId].entries, db.queue[i].id);
    } else {
      NamedByOther(db, batchId, after, db.queue[i].id);
    }
  }

  /** Changing all rows of one batch together with the batch keeps the
      coupling. */
  lemma CoupledAfter(db: Database, batchId: BatchId, after: Batch, changes: map<TransactionId, Change>)
    requires Inv(db) && Coupled(db) && changes.Keys == EntryIds(after.entries)
    requires Settled(db.queue, after.entries, changes, after)
    requires batchId in db.batches ==> db.batches[batchId].entries == after.entries
    requires OthersDisjoint(db, batchId, after.entries)
    ensures Coupled(db.(queue := Update(db.queue, changes), batches := db.batches[batchId := after]))
  {
    hide AllHeld, Settled, BatchesOk, AcksOk, AllEvidenced, Disjoint, InActiveBatch, UpdateRow, RowOk;
    var db' := db.(queue := Update(db.queue, changes), batches := db.batches[batchId := after]);
    forall b | b in db'.batches && db'.batches[b].state.Active() ensures AllHeld(db'.queue, db'.batches[b]) {
      if b == batchId {
        MineHeld(db, after, changes);
      } else {
        OtherHeld(db, db.batches[b], after.entries, changes);
      }
    }
    forall i | 0 <= i < |db'.queue| && db'.queue[i].state.InFlight?
      ensures InActiveBatch(db'.batches, db'.queue[i].id)
    {
      StillNamed(db, batchId, after, changes, i);
      UpdateRowIdentity(db.queue[i], changes);
    }
  }

  lemma ActiveOthersDisjoint(db: Database, batchId: BatchId)
    requires Exclusive(db.batches) && batchId in db.batches && db.batches[batchId].state.Active()
    ensures OthersDisjoint(db, batchId, db.batches[batchId].entries)
  {
    forall b | b in db.batches && b != batchId && db.batches[b].state.Active()
      ensures Disjoint(db.batches[b].entries, db.batches[batchId].entries)
    {
      assert !Overlap(db.batches[b], db.batches[batchId]);
    }
  }

  // ---- Steps that keep the coupling -------------------------------------

  lemma EnqueueCoupled(db: Database, draft: Draft)
    requires Inv(db) && Coupled(db)
    ensures Coupled(Enqueue(db, draft).db)
  {
    var db' := Enqueue(db, draft).db;
    hide InActiveBatch, BatchesOk, AcksOk, AllEvidenced, RowOk;
    forall b | b in db'.batches && db'.batches[b].state.Active() ensures AllHeld(db'.queue, db'.batches[b]) {
      assert AllHeld(db.queue, db.batches[b]);
      forall k | 0 <= k < |db.batches[b].entries|
        ensures EntryOk(db'.queue, db.batches[b].entries[k])
        ensures Held(db'.queue, db.batches[b].entries[k], db.batches[b].updatedAt)
      {
        assert EntryOk(db.queue, db.batches[b].entries[k]);
      }
    }
  }

  /** In coupled states queue recovery finds nothing to do. */
  lemma RecoveryFindsNothing(db: Database, at: int)
    requires Coupled(db)
    ensures RecoverQueue(db, at).db == db
  {
    if at >= 0 {
      var changes := RecoveryChanges(db, at);
      hide InActiveBatch, AllHeld;
      forall i | 0 <= i < |db.queue| ensures UpdateRow(db.queue[i], changes) == db.queue[i] {
      }
      assert Update(db.queue, changes) == db.queue;
    }
  }

  /** Replacing batches by later versions of the same activity. */
  lemma BatchesOnlyCoupled(db: Database, batches: map<BatchId, Batch>)
    requires Coupled(db) && batches.Keys == db.batches.Keys
    requires forall b :: b in batches ==>
      && batches[b].entries == db.batches[b].entries
      && db.batches[b].updatedAt <= batches[b].updatedAt
      && (batches[b].state.Active() <==> db.batches[b].state.Active())
    ensures Coupled(db.(batches := batches))
  {
    forall b | b in batches && batches[b].state.Active() ensures AllHeld(db.queue, batches[b]) {
      assert AllHeld(db.queue, db.batches[b]);
    }
    forall i | 0 <= i < |db.queue| && db.queue[i].state.InFlight? ensures InActiveBatch(batches, db.queue[i].id) {
      assert InActiveBatch(db.batches, db.queue[i].id);
      var b :| b in db.batches && db.batches[b].state.Active() && Names(db.batches[b].entries, db.queue[i].id);
      assert b in batches && batches[b].state.Active() && Names(batches[b].entries, db.queue[i].id);
    }
  }

  lemma FailRetryablyCoupled(db: Database, batchId: BatchId, category: string, at: int, retryAt: int)
    requires Coupled(db)
    ensures Coupled(FailBatchRetryably(db, batchId, category, at, retryAt).db)
  {
    hide LoadBatch, Trim, Coupled;
    var db' := FailBatchRetryably(db, batchId, category, at, retryAt).db;
    if db' != db {
      BatchesOnlyCoupled(db, db'.batches);
    }
  }

  lemma RecoverBatchesCoupled(db: Database, at: int)
    requires Coupled(db)
    ensures Coupled(RecoverBatches(db, at).db)
  {
    hide Coupled;
    if at >= 0 {
      BatchesOnlyCoupled(db, RecoverBatches(db, at).db.batches);
    }
  }

  lemma HeldAllHit(queue: seq<Row>, b: Batch, c: Change)
    requires AllHeld(queue, b) && b.updatedAt <= c.at && (c.Resubmit? || c.Finish?)
    ensures AllHit(queue, b.entries, ForEntries(b.entries, c))
  {
    hide ForEntries, EntryIds;
    forall k | 0 <= k < |b.entries|
      ensures EntryOk(queue, b.entries[k]) && Hit(queue[b.entries[k].sequence - 1], ForEntries(b.entries, c))
    {
      assert EntryOk(queue, b.entries[k]) && Held(queue, b.entries[k], b.updatedAt);
      NamedIffListed(b.entries, b.entries[k].transactionId);
      HitForEntries(queue[b.entries[k].sequence - 1], b.entries, c);
    }
  }

  /** A whole-batch change that is permitted on every held row commits. */
  lemma ChangeBatchExact(db: Database, batchId: BatchId, after: Batch, c: Change)
    requires Inv(db) && Coupled(db) && batchId in db.batches && db.batches[batchId].state.Active()
    requires db.batches[batchId].updatedAt <= c.at && (c.Resubmit? || c.Finish?)
    ensures var b := db.batches[batchId]; var changes := ForEntries(b.entries, c);
      && AllHit(db.queue, b.entries, changes) && Hits(db.queue, changes) == |b.entries| && b.entries != []
      && ChangeBatch(db, batchId, after, c).db
         == db.(queue := Update(db.queue, changes), batches := db.batches[batchId := after])
      && ChangeBatch(db, batchId, after, c).result == LoadBatch(ChangeBatch(db, batchId, after, c).db, batchId)
  {
    hide InActiveBatch, AcksOk, AllEvidenced, QueueOk, EntriesOk, Exclusive, LoadBatch, Update, Hits, AllHeld, AllHit,
         ForEntries;
    var b := db.batches[batchId];
    assert BatchOk(db.queue, b) && AllHeld(db.queue, b);
    ForEntriesKeys(b.entries, c);
    HeldAllHit(db.queue, b, c);
    AllHitFromHits(db.queue, b.entries, ForEntries(b.entries, c));
  }

  lemma ChangeSettles(queue: seq<Row>, entries: seq<EntryRow>, after: Batch, c: Change)
    requires AllHit(queue, entries, ForEntries(entries, c))
    requires (c.Resubmit? && after.state.Active() && after.updatedAt == c.at) || (c.Finish? && !after.state.Active())
    ensures Settled(queue, entries, ForEntries(entries, c), after)
  {
    forall k | 0 <= k < |entries| ensures EntrySettled(queue, entries[k], ForEntries(entries, c), after) {
      assert EntryOk(queue, entries[k]) && Hit(queue[entries[k].sequence - 1], ForEntries(entries, c));
    }
  }

  lemma ChangeBatchCoupled(db: Database, batchId: BatchId, after: Batch, c: Change)
    requires Inv(db) && Coupled(db) && batchId in db.batches && db.batches[batchId].state.Active()
    requires db.batches[batchId].updatedAt <= c.at && after.entries == db.batches[batchId].entries
    requires (c.Resubmit? && after.state.Active() && after.updatedAt == c.at) || (c.Finish? && !after.state.Active())
    ensures Coupled(ChangeBatch(db, batchId, after, c).db)
  {
    hide Coupled, Settled, AllHit, ChangeBatch, Update, ForEntries, QueueOk, BatchOk, AcksOk, AllEvidenced, Exclusive;
    var entries := db.batches[batchId].entries;
    ChangeBatchExact(db, batchId, after, c);
    ChangeSettles(db.queue, entries, after, c);
    ActiveOthersDisjoint(db, batchId);
    ForEntriesKeys(entries, c);
    CoupledAfter(db, batchId, after, ForEntries(entries, c));
  }

  lemma SubmitCoupled(db: Database, batchId: BatchId, at: I64)
    requires Inv(db) && Coupled(db)
    ensures Coupled(SubmitBatch(db, batchId, at).db)
  {
    hide Inv, Coupled, ChangeBatch;
    if at >= 0 && batchId in db.batches && Submittable(db.batches[batchId], at) {
      ChangeBatchCoupled(db, batchId, SubmittedBatch(db.batches[batchId], at), Resubmit(at));
    }
  }

  lemma FailFinallyCoupled(db: Database, batchId: BatchId, review: bool, category: string, at: int)
    requires Inv(db) && Coupled(db)
    ensures Coupled(FailBatchFinally(db, batchId, review, category, at).db)
  {
    hide Inv, Coupled, ChangeBatch, Trim;
    if at >= 0 && !Blank(category) && InFlightBy(db, batchId, at) {
      ChangeBatchCoupled(db, batchId, FinishedBatch(db.batches[batchId], review, Trim(category), at),
                         Finish(review, Trim(category), at));
    }
  }

  lemma {:induction false} NothingBlocked(rows: seq<Row>, at: int)
    ensures FirstBlocked(rows, at).None? <==> forall k :: 0 <= k < |rows| ==> rows[k].updatedAt <= at
  {
    if rows != [] {
      NothingBlocked(rows[1..], at);
      assert forall k :: 0 < k < |rows| ==> rows[k] == rows[1..][k - 1];
    }
  }

  lemma ReservedSettles(db: Database, batch: Batch, row: Row, position: int, at: int)
    requires Selectable(db.queue, db.batches, at, row) && row.updatedAt <= at && Names(batch.entries, row.id)
    requires batch.state.Active() && batch.updatedAt == at
    ensures EntrySettled(db.queue, EntryRow(row.id, row.sequence, position), ForEntries(batch.entries, Reserve(at)),
                         batch)
  {
    hide InActiveBatch, ForEntries, EntryIds, UpdateRow, Names;
    NamedIffListed(batch.entries, row.id);
    HitForEntries(row, batch.entries, Reserve(at));
  }

  lemma ReservationSettles(db: Database, protocol: Version, at: int, chosen: seq<Row>)
    requires chosen != [] && FirstBlocked(chosen, at).None?
    requires forall k :: 0 <= k < |chosen| ==> Selectable(db.queue, db.batches, at, chosen[k])
    ensures var batch := NewBatch(protocol, chosen, at);
      Settled(db.queue, batch.entries, ForEntries(batch.entries, Reserve(at)), batch)
  {
    hide ForEntries, FirstBlocked, Selectable, EntrySettled;
    var batch := NewBatch(protocol, chosen, at);
    NothingBlocked(chosen, at);
    forall k | 0 <= k < |batch.entries|
      ensures EntrySettled(db.queue, batch.entries[k], ForEntries(batch.entries, Reserve(at)), batch)
    {
      assert batch.entries[k].transactionId == chosen[k].id;
      ReservedSettles(db, batch, chosen[k], k, at);
    }
  }

  lemma CreateCoupled(db: Database, batchId: BatchId, protocol: Version, at: int, limit: nat)
    requires Inv(db) && Coupled(db)
    ensures Coupled(CreateBatch(db, batchId, protocol, at, limit).db)
  {
    hide Candidates, NewBatch, ForEntries, Update, Coupled, Settled, Selectable, Ascending, FirstBlocked, BatchesOk,
         AcksOk, AllEvidenced;
    var o := CreateBatch(db, batchId, protocol, at, limit);
    if o.result.Ok? {
      var chosen := Candidates(db, at, limit);
      assert Numbered(db.queue);
      CandidatesExact(db, at, limit);
      ReservationSettles(db, protocol, at, chosen);
      var batch := NewBatch(protocol, chosen, at);
      ChosenAreFree(db, protocol, at, chosen);
      assert OthersDisjoint(db, batchId, batch.entries) by {
        forall b | b in db.batches && b != batchId && db.batches[b].state.Active()
          ensures Disjoint(db.batches[b].entries, batch.entries)
        {
          FreshEntries(db.batches, b, batch);
        }
      }
      ForEntriesKeys(batch.entries, Reserve(at));
      CoupledAfter(db, batchId, batch, ForEntries(batch.entries, Reserve(at)));
    }
  }

  lemma ForEntriesKeys(entries: seq<EntryRow>, c: Change)
    ensures ForEntries(entries, c).Keys == EntryIds(entries)
  {
  }

  lemma StoreCoupled(db: Database, a: Acknowledgement)
    requires Coupled(db)
    ensures Coupled(StoreAck(db, a).db)
  {
    hide CheckAck;
  }

  // ---- Application ------------------------------------------------------

  lemma {:induction false} NoConflict(queue: seq<Row>, lines: seq<AckLine>, at: int, k: nat)
    requires k <= |lines|
    ensures FirstConflict(queue, lines, at, k).None? <==> forall j :: k <= j < |lines| ==> LineHits(queue, lines[j], at)
    decreases |lines| - k
  {
    hide LineHits;
    if k < |lines| {
      NoConflict(queue, lines, at, k + 1);
    }
  }

  /** With distinct identities each line's change survives in the map. */
  lemma {:induction false} ResolveChangesAt(lines: seq<AckLine>, at: int, k: nat)
    requires k < |lines| && forall i, j :: 0 <= i < j < |lines| ==> lines[i].transactionId != lines[j].transactionId
    ensures lines[k].transactionId in ResolveChanges(lines, at)
    ensures ResolveChanges(lines, at)[lines[k].transactionId] == Resolve(lines[k].resolution, at)
  {
    var n := |lines| - 1;
    if k < n {
      ResolveChangesAt(lines[..n], at, k);
    }
  }

  /** The lines of a stored acknowledgement, entry by entry. */
  ghost predicate LinesFit(queue: seq<Row>, lines: seq<AckLine>, entries: seq<EntryRow>) {
    && |lines| == |entries| && EntriesOk(queue, entries)
    && forall k :: 0 <= k < |lines| ==> LineFits(lines[k], entries[k])
  }

  lemma StoredLinesFit(db: Database, batchId: BatchId)
    requires Inv(db) && batchId in db.acks
    ensures batchId in db.batches && LinesFit(db.queue, Lines(db.acks[batchId].payload), db.batches[batchId].entries)
  {
    hide QueueOk, AllEvidenced, Exclusive, DecodeResolution;
    AckFacts(db, batchId);
    var p, b := db.acks[batchId].payload, db.batches[batchId];
    assert BatchOk(db.queue, b);
    forall k | 0 <= k < |p.entries| ensures LineFits(Lines(p)[k], b.entries[k]) {
      assert DecodeRow(p.entries[k], k, p.receivedAt) == Ok(Lines(p)[k]);
    }
  }

  lemma LinesDistinctIds(queue: seq<Row>, lines: seq<AckLine>, entries: seq<EntryRow>)
    requires QueueOk(queue) && LinesFit(queue, lines, entries)
    ensures forall i, j :: 0 <= i < j < |lines| ==> lines[i].transactionId != lines[j].transactionId
  {
    hide RowOk;
    forall i, j | 0 <= i < j < |lines| ensures lines[i].transactionId != lines[j].transactionId {
      assert LineFits(lines[i], entries[i]) && LineFits(lines[j], entries[j]);
      assert EntryOk(queue, entries[i]) && EntryOk(queue, entries[j]) && entries[i].sequence < entries[j].sequence;
    }
  }

  lemma ResolveKeys(queue: seq<Row>, lines: seq<AckLine>, entries: seq<EntryRow>, at: int)
    requires QueueOk(queue) && LinesFit(queue, lines, entries)
    ensures ResolveChanges(lines, at).Keys == EntryIds(entries)
  {
    LinesDistinctIds(queue, lines, entries);
    hide QueueOk, EntriesOk, ResolveChanges;
    forall id ensures id in ResolveChanges(lines, at) <==> id in EntryIds(entries) {
      if id in ResolveChanges(lines, at) {
        ResolveChangesFrom(lines, at, id);
        var k :| 0 <= k < |lines| && lines[k].transactionId == id;
        assert LineFits(lines[k], entries[k]);
      }
      if id in EntryIds(entries) {
        var k :| 0 <= k < |entries| && entries[k].transactionId == id;
        assert LineFits(lines[k], entries[k]);
        ResolveChangesAt(lines, at, k);
      }
    }
  }

  /** A line that finds its row takes it out of flight. */
  lemma LineSettles(queue: seq<Row>, lines: seq<AckLine>, at: int, k: nat, i: nat)
    requires k < |lines| && forall m, n :: 0 <= m < n < |lines| ==> lines[m].transactionId != lines[n].transactionId
    requires i < |queue| && queue[i].id == lines[k].transactionId && Guard(queue[i], Resolve(lines[k].resolution, at))
    ensures !UpdateRow(queue[i], ResolveChanges(lines, at)).state.InFlight?
  {
    hide ResolveChanges;
    ResolveChangesAt(lines, at, k);
  }

  lemma LineRow(queue: seq<Row>, line: AckLine, e: EntryRow, at: int)
    requires QueueOk(queue) && EntryOk(queue, e) && LineFits(line, e)
    ensures LineHits(queue, line, at) <==> Guard(queue[e.sequence - 1], Resolve(line.resolution, at))
  {
    hide Guard, RowOk;
    assert queue[e.sequence - 1].sequence == e.sequence;
  }

  lemma ApplicationSettles(db: Database, batchId: BatchId, lines: seq<AckLine>, at: int)
    requires QueueOk(db.queue) && batchId in db.batches && LinesFit(db.queue, lines, db.batches[batchId].entries)
    requires FirstConflict(db.queue, lines, at, 0).None?
    ensures Settled(db.queue, db.batches[batchId].entries, ResolveChanges(lines, at),
                    CompletedBatch(db.batches[batchId], at))
  {
    hide QueueOk, Guard, LineHits, UpdateRow, ResolveChanges, FirstConflict;
    var entries, changes := db.batches[batchId].entries, ResolveChanges(lines, at);
    LinesDistinctIds(db.queue, lines, entries);
    NoConflict(db.queue, lines, at, 0);
    forall k | 0 <= k < |entries|
      ensures EntrySettled(db.queue, entries[k], changes, CompletedBatch(db.batches[batchId], at))
    {
      assert LineFits(lines[k], entries[k]) && EntryOk(db.queue, entries[k]);
      LineRow(db.queue, lines[k], entries[k], at);
      LineSettles(db.queue, lines, at, k, entries[k].sequence - 1);
    }
  }

  /** An application that changes anything changes the queue and the batch
      together. */
  lemma ApplyShape(db: Database, batchId: BatchId, at: int)
    requires ApplyAck(db, batchId, at).db != db
    ensures batchId in db.acks && batchId in db.batches && db.batches[batchId].state.Submitted?
    ensures var lines := Lines(db.acks[batchId].payload); var o := ApplyAck(db, batchId, at);
      && FirstConflict(db.queue, lines, at, 0).None?
      && o.db.queue == Update(db.queue, ResolveChanges(lines, at))
      && o.db.batches == db.batches[batchId := CompletedBatch(db.batches[batchId], at)]
  {
    hide Lines, Decodable, CountLines, ResolvedPrefix, ResolveChanges, Update, FirstConflict;
  }

  lemma ApplyCoupled(db: Database, batchId: BatchId, at: int)
    requires Inv(db) && Coupled(db)
    ensures Coupled(ApplyAck(db, batchId, at).db)
  {
    hide Inv, Coupled, LinesFit, Lines, ApplyAck, ResolveChanges, Update, FirstConflict;
    var o := ApplyAck(db, batchId, at);
    if o.db != db {
      ApplyShape(db, batchId, at);
      StoredLinesFit(db, batchId);
      ApplyLinesCoupled(db, batchId, Lines(db.acks[batchId].payload), at);
      CoupledCarries(db.(queue := o.db.queue, batches := o.db.batches), o.db);
    }
  }

  lemma ApplyLinesCoupled(db: Database, batchId: BatchId, lines: seq<AckLine>, at: int)
    requires Inv(db) && Coupled(db) && batchId in db.batches && db.batches[batchId].state.Active()
    requires LinesFit(db.queue, lines, db.batches[batchId].entries) && FirstConflict(db.queue, lines, at, 0).None?
    ensures Coupled(db.(queue := Update(db.queue, ResolveChanges(lines, at)),
                        batches := db.batches[batchId := CompletedBatch(db.batches[batchId], at)]))
  {
    hide Coupled, Settled, LinesFit, ResolveChanges, Update, FirstConflict, QueueOk, AcksOk, AllEvidenced, Exclusive,
         BatchOk;
    var after := CompletedBatch(db.batches[batchId], at);
    ApplicationSettles(db, batchId, lines, at);
    ResolveKeys(db.queue, lines, after.entries, at);
    ActiveOthersDisjoint(db, batchId);
    CoupledAfter(db, batchId, after, ResolveChanges(lines, at));
  }

  lemma CoupledCarries(db: Database, db': Database)
    requires Coupled(db) && db'.queue == db.queue && db'.batches == db.batches
    ensures Coupled(db')
  {
  }

  // ---- Runs -------------------------------------------------------------

  lemma StepCoupled(db: Database, op: Operation)
    requires Inv(db) && Coupled(db) && op.BatchLevel()
    ensures Coupled(Step(db, op))
  {
    hide Inv, Coupled;
    match op {
      case DoEnqueue(draft) => EnqueueCoupled(db, draft);
      case DoRecoverQueue(at) => RecoveryFindsNothing(db, at);
      case DoCreateBatch(newBatch, protocol, at, limit) => CreateCoupled(db, newBatch, protocol, at, limit);
      case DoSubmitBatch(batchId, at) => SubmitCoupled(db, batchId, at);
      case DoFailRetryably(batchId, category, at, retryAt) => FailRetryablyCoupled(db, batchId, category, at, retryAt);
      case DoFailFinally(batchId, review, category, at) => FailFinallyCoupled(db, batchId, review, category, at);
      case DoRecoverBatches(at) => RecoverBatchesCoupled(db, at);
      case DoStoreAck(ack) => StoreCoupled(db, ack);
      case DoApplyAck(batchId, at) => ApplyCoupled(db, batchId, at);
      case _ =>
    }
  }

  ghost predicate BatchReachable(db: Database) {
    exists identity, ops :: Sane(ops) && BatchLevel(ops) && db == Run(Bound(identity), ops)
  }

  lemma {:induction false} RunCoupled(identity: Identity, ops: seq<Operation>)
    requires Sane(ops) && BatchLevel(ops)
    ensures Inv(Run(Bound(identity), ops)) && Coupled(Run(Bound(identity), ops))
  {
    hide Inv, Step;
    BoundInv(identity);
    if ops != [] {
      var n := |ops| - 1;
      RunCoupled(identity, ops[..n]);
      hide Coupled;
      StepKeepsInv(Run(Bound(identity), ops[..n]), ops[n]);
      StepCoupled(Run(Bound(identity), ops[..n]), ops[n]);
    }
  }

  /** In every batch-level run the queue and the batches stay coupled. */
  lemma BatchRunsCoupled(db: Database)
    requires BatchReachable(db)
    ensures Inv(db) && Coupled(db)
  {
    hide Inv, Coupled;
    var identity, ops :| Sane(ops) && BatchLevel(ops) && db == Run(Bound(identity), ops);
    RunCoupled(identity, ops);
  }

  /** Queue recovery after a batch-level run recovers nothing. */
  lemma RecoveryIsIdle(db: Database, at: int)
    requires BatchReachable(db)
    ensures RecoverQueue(db, at).db == db
  {
    hide Inv, Coupled, RecoverQueue;
    BatchRunsCoupled(db);
    RecoveryFindsNothing(db, at);
  }

  lemma SubmitCommits(db: Database, batchId: BatchId, at: I64)
    requires Inv(db) && Coupled(db) && at >= 0 && batchId in db.batches && Submittable(db.batches[batchId], at)
    ensures var o := SubmitBatch(db, batchId, at);
      && o.db.batches == db.batches[batchId := SubmittedBatch(db.batches[batchId], at)]
      && o.db.acks == db.acks && o.db.lastAcknowledged == db.lastAcknowledged
      && o.result == LoadBatch(o.db, batchId)
  {
    hide Inv, Coupled, Update, LoadBatch, Hits, ForEntries, AllHit, ChangeBatch;
    ChangeBatchExact(db, batchId, SubmittedBatch(db.batches[batchId], at), Resubmit(at));
  }

  lemma LoadError(db: Database, batchId: BatchId)
    ensures LoadBatch(db, batchId).Err? ==> !LoadBatch(db, batchId).error.BatchEntryConflict?
  {
    hide BatchDecodes;
  }

  /** A batch is submitted exactly when its own row permits it: its entries
      never stand in the way. */
  lemma SubmitExact(db: Database, batchId: BatchId, at: I64)
    requires BatchReachable(db) && at >= 0
    ensures SubmitBatch(db, batchId, at).db != db <==> batchId in db.batches && Submittable(db.batches[batchId], at)
    ensures SubmitBatch(db, batchId, at).result.Err? ==> !SubmitBatch(db, batchId, at).result.error.BatchEntryConflict?
  {
    BatchRunsCoupled(db);
    hide Inv, Coupled, ChangeBatch, LoadBatch, BatchReachable;
    if batchId in db.batches && Submittable(db.batches[batchId], at) {
      SubmitCommits(db, batchId, at);
      LoadError(SubmitBatch(db, batchId, at).db, batchId);
      assert SubmittedBatch(db.batches[batchId], at).attempts != db.batches[batchId].attempts;
    }
  }

  lemma FinalFailureCommits(db: Database, batchId: BatchId, review: bool, category: string, at: int)
    requires Inv(db) && Coupled(db) && at >= 0 && !Blank(category) && InFlightBy(db, batchId, at)
    ensures var o := FailBatchFinally(db, batchId, review, category, at);
      && o.db.batches == db.batches[batchId := FinishedBatch(db.batches[batchId], review, Trim(category), at)]
      && o.db.acks == db.acks && o.db.lastAcknowledged == db.lastAcknowledged
      && o.result == LoadBatch(o.db, batchId)
  {
    hide Inv, Coupled, Update, LoadBatch, Hits, ForEntries, AllHit, ChangeBatch, Trim;
    ChangeBatchExact(db, batchId, FinishedBatch(db.batches[batchId], review, Trim(category), at),
                     Finish(review, Trim(category), at));
  }

  /** A final failure is recorded exactly when its category is not blank and
      the batch is in flight and not updated later. */
  lemma FinalFailureExact(db: Database, batchId: BatchId, review: bool, category: string, at: int)
    requires BatchReachable(db) && at >= 0
    ensures FailBatchFinally(db, batchId, review, category, at).db != db <==>
      !Blank(category) && InFlightBy(db, batchId, at)
  {
    BatchRunsCoupled(db);
    hide Inv, Coupled, ChangeBatch, LoadBatch, BatchReachable, Trim;
    if !Blank(category) && InFlightBy(db, batchId, at) {
      FinalFailureCommits(db, batchId, review, category, at);
      assert FinishedBatch(db.batches[batchId], review, Trim(category), at).state != db.batches[batchId].state;
    }
  }

  lemma HeldLinesHit(db: Database, batchId: BatchId, at: int)
    requires Inv(db) && Coupled(db) && batchId in db.acks && batchId in db.batches && db.batches[batchId].state.Active()
    requires db.batches[batchId].updatedAt <= at
    ensures FirstConflict(db.queue, Lines(db.acks[batchId].payload), at, 0).None?
  {
    hide InActiveBatch, AcksOk, AllEvidenced, Exclusive, BatchOk, RowOk, Lines;
    StoredLinesFit(db, batchId);
    var lines, b := Lines(db.acks[batchId].payload), db.batches[batchId];
    assert AllHeld(db.queue, b);
    forall k | 0 <= k < |lines| ensures LineHits(db.queue, lines[k], at) {
      assert LineFits(lines[k], b.entries[k]) && EntryOk(db.queue, b.entries[k]);
      assert Held(db.queue, b.entries[k], b.updatedAt);
      LineRow(db.queue, lines[k], b.entries[k], at);
    }
    NoConflict(db.queue, lines, at, 0);
  }

  lemma CoupledApplyExact(db: Database, batchId: BatchId, at: int)
    requires Inv(db) && Coupled(db) && batchId in db.acks && db.acks[batchId].appliedAt.None?
    ensures batchId in db.batches
    ensures ApplyAck(db, batchId, at).result.Ok? <==>
      && db.batches[batchId].state.Submitted?
      && at >= db.acks[batchId].payload.receivedAt && at >= db.batches[batchId].updatedAt
  {
    hide Coupled, Decodable, Lines, CountLines, FirstConflict, Update, ResolvedPrefix, ResolveChanges, QueueOk,
         AllEvidenced, Exclusive, BatchOk;
    AckFacts(db, batchId);
    StoredAckReadable(db, batchId);
    if db.batches[batchId].state.Submitted? && at >= db.batches[batchId].updatedAt {
      HeldLinesHit(db, batchId, at);
    }
  }

  /** A stored, unapplied acknowledgement applies exactly when its batch is in
      flight and the time is at or after both its receipt and the batch's
      last update. */
  lemma ApplyExact(db: Database, batchId: BatchId, at: int)
    requires BatchReachable(db) && batchId in db.acks && db.acks[batchId].appliedAt.None?
    ensures batchId in db.batches
    ensures ApplyAck(db, batchId, at).result.Ok? <==>
      && db.batches[batchId].state.Submitted?
      && at >= db.acks[batchId].payload.receivedAt && at >= db.batches[batchId].updatedAt
  {
    hide Inv, Coupled, ApplyAck, BatchReachable;
    BatchRunsCoupled(db);
    CoupledApplyExact(db, batchId, at);
  }

  lemma ResolvedRow(queue: seq<Row>, lines: seq<AckLine>, entries: seq<EntryRow>, at: int, k: nat)
    requires QueueOk(queue) && LinesFit(queue, lines, entries) && k < |lines|
    requires FirstConflict(queue, lines, at, 0).None?
    ensures EntryOk(queue, entries[k]) && queue[entries[k].sequence - 1].state.InFlight?
    ensures Update(queue, ResolveChanges(lines, at))[entries[k].sequence - 1]
         == Changed(queue[entries[k].sequence - 1], Resolve(lines[k].resolution, at))
  {
    hide QueueOk, LineHits, ResolveChanges, FirstConflict, Changed;
    LinesDistinctIds(queue, lines, entries);
    NoConflict(queue, lines, at, 0);
    assert LineFits(lines[k], entries[k]) && EntryOk(queue, entries[k]);
    LineRow(queue, lines[k], entries[k], at);
    ResolveChangesAt(lines, at, k);
  }

  /** Applying resolves exactly the rows of the batch: the row of entry k was
      in flight and takes the resolution of acknowledged line k; every other
      row stays as it was; the batch is complete. */
  lemma ApplicationExact(db: Database, batchId: BatchId, at: int)
    requires Inv(db) && ApplyAck(db, batchId, at).db != db
    ensures batchId in db.acks && batchId in db.batches
    ensures var db' := ApplyAck(db, batchId, at).db; var lines := Lines(db.acks[batchId].payload);
      var entries := db.batches[batchId].entries;
      && |lines| == |entries| && |db'.queue| == |db.queue|
      && db'.batches == db.batches[batchId := CompletedBatch(db.batches[batchId], at)]
      && (forall k :: 0 <= k < |entries| ==>
            && EntryOk(db.queue, entries[k]) && db.queue[entries[k].sequence - 1].state.InFlight?
            && db'.queue[entries[k].sequence - 1]
               == Changed(db.queue[entries[k].sequence - 1], Resolve(lines[k].resolution, at)))
      && (forall i :: 0 <= i < |db.queue| && !Names(entries, db.queue[i].id) ==> db'.queue[i] == db.queue[i])
  {
    hide Inv, LinesFit, Lines, ApplyAck, ResolveChanges, FirstConflict, Changed, QueueOk, Names, UpdateRow;
    ApplyShape(db, batchId, at);
    StoredLinesFit(db, batchId);
    var lines, entries := Lines(db.acks[batchId].payload), db.batches[batchId].entries;
    FitLength(db.queue, lines, entries);
    InvQueue(db);
    forall k | 0 <= k < |entries|
      ensures EntryOk(db.queue, entries[k]) && db.queue[entries[k].sequence - 1].state.InFlight?
      ensures Update(db.queue, ResolveChanges(lines, at))[entries[k].sequence - 1]
           == Changed(db.queue[entries[k].sequence - 1], Resolve(lines[k].resolution, at))
    {
      ResolvedRow(db.queue, lines, entries, at, k);
    }
    forall i | 0 <= i < |db.queue| && !Names(entries, db.queue[i].id)
      ensures UpdateRow(db.queue[i], ResolveChanges(lines, at)) == db.queue[i]
    {
      NamedIffListed(entries, db.queue[i].id);
      ResolveKeys(db.queue, lines, entries, at);
      NotHit(db.queue[i], ResolveChanges(lines, at));
    }
  }

  lemma NotHit(row: Row, changes: map<TransactionId, Change>)
    requires row.id !in changes
    ensures UpdateRow(row, changes) == row
  {
  }

  lemma FitLength(queue: seq<Row>, lines: seq<AckLine>, entries: seq<EntryRow>)
    requires LinesFit(queue, lines, entries)
    ensures |lines| == |entries|
  {
  }

  lemma InvQueue(db: Database)
    requires Inv(db)
    ensures QueueOk(db.queue)
  {
    hide QueueOk, BatchesOk, AcksOk, AllEvidenced, ResolvedUpTo;
  }

  /** The four counts of an application add up to its lines. */
  lemma {:induction false} CountsTotal(lines: seq<AckLine>)
    ensures var c := CountLines(lines); c.accepted + c.retryable + c.refused + c.review == |lines|
    ensures (forall k :: 0 <= k < |lines| ==> lines[k].resolution.Accepted?) ==> CountLines(lines).accepted == |lines|
  {
    if lines != [] {
      CountsTotal(lines[..|lines| - 1]);
    }
  }

  /** A stored acknowledgement that a restart interrupted cannot be applied
      until its batch is submitted again; then it can. */
  lemma RestartDelaysApplication(db: Database, batchId: BatchId, restart: int, at: int, retry: I64)
    requires BatchReachable(db) && batchId in db.acks && db.acks[batchId].appliedAt.None?
    requires batchId in db.batches && db.batches[batchId].state.Submitted?
    requires 0 <= restart && db.batches[batchId].updatedAt <= restart <= retry
    requires db.acks[batchId].payload.receivedAt <= retry
    ensures var recovered := RecoverBatches(db, restart).db;
      && ApplyAck(recovered, batchId, at).result.Err?
      && ApplyAck(SubmitBatch(recovered, batchId, retry).db, batchId, retry).result.Ok?
  {
    var recovered := RecoverBatches(db, restart).db;
    var again := SubmitBatch(recovered, batchId, retry).db;
    assert recovered.acks == db.acks && batchId in recovered.batches;
    assert !recovered.batches[batchId].state.Submitted? && Submittable(recovered.batches[batchId], retry);
    assert BatchReachable(recovered) by { Extend(db, DoRecoverBatches(restart)); }
    hide RecoverBatches, BatchReachable, ApplyAck;
    ApplyExact(recovered, batchId, at);
    assert BatchReachable(again) by { Extend(recovered, DoSubmitBatch(batchId, retry)); }
    BatchRunsCoupled(recovered);
    hide Inv, Coupled, SubmitBatch;
    SubmitCommits(recovered, batchId, retry);
    assert again.acks == recovered.acks && again.batches[batchId] == SubmittedBatch(recovered.batches[batchId], retry);
    ApplyExact(again, batchId, retry);
  }

  lemma Extend(db: Database, op: Operation)
    requires BatchReachable(db) && op.Sane() && op.BatchLevel()
    ensures BatchReachable(Step(db, op))
  {
    hide Step;
    var identity, ops :| Sane(ops) && BatchLevel(ops) && db == Run(Bound(identity), ops);
    var longer := ops + [op];
    assert longer[..|longer| - 1] == ops;
    assert Run(Bound(identity), longer) == Step(db, op);
    assert Sane(longer) && BatchLevel(longer);
  }

  // ---- Selection agreement ----------------------------------------------

  /** The filter of the ready-queue read. */
  function ReadyRows(rows: seq<Row>, now: int): seq<Row> {
    if rows == [] then []
    else ReadyRows(rows[..|rows| - 1], now) + if Ready(rows[|rows| - 1], now) then [rows[|rows| - 1]] else []
  }

  predicate RowDecodes(row: Row) {
    && row.sequence > 0 && 0 <= row.attempts <= U32_MAX && (row.retryAt.Some? ==> row.retryAt.value >= 0)
    && 0 <= row.createdAt <= row.updatedAt
  }

  function LoadReady(db: Database, now: int, limit: nat): Result<seq<Row>, ReaderError> {
    if now < 0 then Err(NegativeTime)
    else if limit == 0 then Err(ZeroLimit)
    else if exists i :: 0 <= i < |db.queue| && !RowDecodes(db.queue[i]) then Err(CorruptValue)
    else Ok(Take(ReadyRows(InSequenceOrder(db.queue), now), limit))
  }

  lemma {:induction false} ReadyIsEligible(queue: seq<Row>, batches: map<BatchId, Batch>, now: int)
    requires forall i :: 0 <= i < |queue| && Ready(queue[i], now) ==> !InActiveBatch(batches, queue[i].id)
    ensures ReadyRows(queue, now) == Eligible(queue, batches, now)
  {
    hide InActiveBatch, Ready;
    if queue != [] {
      ReadyIsEligible(queue[..|queue| - 1], batches, now);
    }
  }

  lemma NamedIsHeld(queue: seq<Row>, b: Batch, i: nat)
    requires QueueOk(queue) && AllHeld(queue, b) && i < |queue| && Names(b.entries, queue[i].id)
    ensures queue[i].state.InFlight?
  {
    hide RowOk;
    var k :| 0 <= k < |b.entries| && b.entries[k].transactionId == queue[i].id;
    assert EntryOk(queue, b.entries[k]) && Held(queue, b.entries[k], b.updatedAt);
    SameIdSameSequence(queue, b.entries[k], i);
  }

  lemma ActiveIsHeld(db: Database, i: nat)
    requires QueueOk(db.queue) && Coupled(db) && i < |db.queue| && InActiveBatch(db.batches, db.queue[i].id)
    ensures db.queue[i].state.InFlight?
  {
    hide QueueOk, AllHeld, Names;
    var b :| b in db.batches && db.batches[b].state.Active() && Names(db.batches[b].entries, db.queue[i].id);
    NamedIsHeld(db.queue, db.batches[b], i);
  }

  lemma ReadyIsFree(db: Database, now: int, i: nat)
    requires QueueOk(db.queue) && Coupled(db) && i < |db.queue| && Ready(db.queue[i], now)
    ensures !InActiveBatch(db.batches, db.queue[i].id)
  {
    hide QueueOk, Coupled, InActiveBatch;
    if InActiveBatch(db.batches, db.queue[i].id) {
      ActiveIsHeld(db, i);
    }
  }

  lemma ReadReady(db: Database, now: int, limit: nat)
    requires QueueOk(db.queue) && Coupled(db) && now >= 0 && limit > 0
    ensures LoadReady(db, now, limit).Ok? <==> forall i :: 0 <= i < |db.queue| ==> db.queue[i].attempts <= U32_MAX
    ensures LoadReady(db, now, limit).Ok? ==> LoadReady(db, now, limit).value == Candidates(db, now, limit)
  {
    hide Coupled, InActiveBatch, Ready, Eligible, ReadyRows, InSequenceOrder;
    SortedFixed(db.queue);
    forall i | 0 <= i < |db.queue| && Ready(db.queue[i], now) ensures !InActiveBatch(db.batches, db.queue[i].id) {
      ReadyIsFree(db, now, i);
    }
    ReadyIsEligible(db.queue, db.batches, now);
    EligibleExact(db.queue, db.batches, now);
    SortedFixed(Eligible(db.queue, db.batches, now));
    forall i | 0 <= i < |db.queue| ensures RowDecodes(db.queue[i]) <==> db.queue[i].attempts <= U32_MAX {
      assert RowOk(db.queue[i]);
    }
  }

  /** Row i is chosen, or the limit was filled by smaller sequences. */
  predicate ChosenOrLater(chosen: seq<Row>, limit: nat, row: Row) {
    row in chosen || (|chosen| == limit && forall k :: 0 <= k < |chosen| ==> chosen[k].sequence < row.sequence)
  }

  lemma NoneSkipped(db: Database, now: int, limit: nat, i: nat)
    requires QueueOk(db.queue) && Coupled(db) && i < |db.queue| && Ready(db.queue[i], now)
    ensures ChosenOrLater(Candidates(db, now, limit), limit, db.queue[i])
  {
    hide Coupled, InActiveBatch, Ready, Eligible, InSequenceOrder, RowOk;
    ReadyIsFree(db, now, i);
    assert Numbered(db.queue);
    EligibleExact(db.queue, db.batches, now);
    CandidatesExact(db, now, limit);
    assert Selectable(db.queue, db.batches, now, db.queue[i]);
    TakePrefix(Eligible(db.queue, db.batches, now), limit, db.queue[i]);
  }

  /** After a batch-level run, batch creation chooses exactly the rows that
      the ready-queue read returns for the same time and limit: in strictly
      increasing sequence order, with no smaller ready row skipped. The read
      fails only when some attempt counter no longer fits 32 bits. */
  lemma SelectionAgrees(db: Database, now: int, limit: nat)
    requires BatchReachable(db) && now >= 0 && limit > 0
    ensures LoadReady(db, now, limit).Ok? <==> forall i :: 0 <= i < |db.queue| ==> db.queue[i].attempts <= U32_MAX
    ensures LoadReady(db, now, limit).Ok? ==> LoadReady(db, now, limit).value == Candidates(db, now, limit)
    ensures Ascending(Candidates(db, now, limit)) && |Candidates(db, now, limit)| <= limit
    ensures forall i :: 0 <= i < |db.queue| && Ready(db.queue[i], now) ==>
      ChosenOrLater(Candidates(db, now, limit), limit, db.queue[i])
  {
    hide Coupled, LoadReady, BatchesOk, AcksOk, AllEvidenced, BatchReachable, Ready, Eligible, InSequenceOrder,
         ChosenOrLater, RowOk;
    BatchRunsCoupled(db);
    ReadReady(db, now, limit);
    CandidatesExact(db, now, limit);
    forall i | 0 <= i < |db.queue| && Ready(db.queue[i], now)
      ensures ChosenOrLater(Candidates(db, now, limit), limit, db.queue[i])
    {
      NoneSkipped(db, now, limit, i);
    }
  }

  lemma TakePrefix(rows: seq<Row>, limit: nat, row: Row)
    requires Ascending(rows) && row in rows
    ensures ChosenOrLater(Take(rows, limit), limit, row)
  {
    var k :| 0 <= k < |rows| && rows[k] == row;
    if k < |Take(rows, limit)| {
      assert Take(rows, limit)[k] == row;
    }
  }

  /** The batch that creation returns is what loading it gives back. */
  lemma CreatedBatchReloads(db: Database, batchId: BatchId, protocol: Version, at: int, limit: nat)
    requires Reachable(db) && CreateBatch(db, batchId, protocol, at, limit).result.Ok?
    ensures var o := CreateBatch(db, batchId, protocol, at, limit); LoadBatch(o.db, batchId) == o.result
  {
    hide Inv, Evolves, Candidates, BatchDecodes, Update, FirstBlocked, Reachable;
    ReachableInv(db);
    CreateBatchKeepsInv(db, batchId, protocol, at, limit);
    LoadBatchExact(CreateBatch(db, batchId, protocol, at, limit).db, batchId);
  }
}
