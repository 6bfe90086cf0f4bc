/** Safety over whole runs of the reader's operations. */
module ReaderRuns {
  import opened Basics
  import opened Texts
  import opened ReaderTables
  import opened ReaderAcknowledgement
  import opened ReaderSteps
  import opened ReaderInvariant
  import opened ReaderPreservation

  lemma BoundInv(identity: Identity)
    ensures Inv(Bound(identity))
  {
  }

  /** Every run keeps the invariant, and its tables only evolve. */
  lemma {:induction false} RunKeepsInv(db: Database, ops: seq<Operation>)
    requires Inv(db) && Sane(ops)
    ensures Inv(Run(db, ops)) && Evolves(db, Run(db, ops))
  {
    hide Inv, Evolves, Step;
    if ops == [] {
      EvolvesSelf(db);
    } else {
      var n := |ops| - 1;
      RunKeepsInv(db, ops[..n]);
      StepKeepsInv(Run(db, ops[..n]), ops[n]);
      EvolvesTransitive(db, Run(db, ops[..n]), Run(db, ops));
    }
  }

  /** States a run of a freshly bound database can reach. */
  ghost predicate Reachable(db: Database) {
    exists identity, ops :: Sane(ops) && db == Run(Bound(identity), ops)
  }

  lemma ReachableInv(db: Database)
    requires Reachable(db)
    ensures Inv(db)
  {
    hide Inv;
    var identity, ops :| Sane(ops) && db == Run(Bound(identity), ops);
    BoundInv(identity);
    RunKeepsInv(Bound(identity), ops);
  }

  lemma ReachableExtends(db: Database, op: Operation)
    requires Reachable(db) && op.Sane()
    ensures Reachable(Step(db, op))
  {
    hide Step;
    var identity, ops :| Sane(ops) && db == Run(Bound(identity), ops);
    var longer := ops + [op];
    assert longer[..|longer| - 1] == ops;
    assert Run(Bound(identity), longer) == Step(db, op);
    assert Sane(longer);
  }

  /** Watermark safety: in every reachable state each sequence at or below the
      watermark names a resolved row, and after any further run that row is
      unchanged, the watermark is no lower and it is below the next
      sequence. */
  lemma WatermarkSafety(db: Database, more: seq<Operation>, sequence: int)
    requires Reachable(db) && Sane(more) && 1 <= sequence <= db.lastAcknowledged
    ensures var later := Run(db, more);
      && db.lastAcknowledged <= later.lastAcknowledged < later.nextSequence
      && sequence <= |db.queue| <= |later.queue|
      && db.queue[sequence - 1].sequence == sequence
      && db.queue[sequence - 1].state in {Acknowledged, PermanentFailure}
      && later.queue[sequence - 1] == db.queue[sequence - 1]
  {
    ReachableInv(db);
    RunKeepsInv(db, more);
    hide BatchesOk, AcksOk, AllEvidenced, BatchesEvolve, AcksEvolve, Run;
    assert RowEvolves(db.queue[sequence - 1], Run(db, more).queue[sequence - 1]);
  }

  /** In every run a transaction is in at most one active batch. */
  lemma OneActiveBatch(db: Database, b: BatchId, c: BatchId, id: TransactionId)
    requires Reachable(db) && b in db.batches && c in db.batches
    requires db.batches[b].state in {Prepared, Submitted, Retryable}
    requires db.batches[c].state in {Prepared, Submitted, Retryable}
    requires exists k :: 0 <= k < |db.batches[b].entries| && db.batches[b].entries[k].transactionId == id
    requires exists k :: 0 <= k < |db.batches[c].entries| && db.batches[c].entries[k].transactionId == id
    ensures b == c
  {
    hide QueueOk, BatchOk, AcksOk, AllEvidenced, ResolvedUpTo, Reachable;
    ReachableInv(db);
    assert Overlap(db.batches[b], db.batches[c]);
  }

  /** Gap-free allocation: the queue holds exactly the sequences
      1 .. next - 1, in order, each under its own identity. */
  lemma GapFree(db: Database)
    requires Reachable(db)
    ensures |db.queue| == db.nextSequence - 1
    ensures forall i :: 0 <= i < |db.queue| ==> db.queue[i].sequence == i + 1
    ensures forall i, j :: 0 <= i < j < |db.queue| ==> db.queue[i].id != db.queue[j].id
  {
    ReachableInv(db);
  }

  /** Exactly-once resolution: terminal rows, finished batches, stored
      payloads and applied acknowledgements never change again. */
  lemma ResolutionIsFinal(db: Database, more: seq<Operation>)
    requires Reachable(db) && Sane(more)
    ensures var later := Run(db, more);
      && |db.queue| <= |later.queue|
      && (forall i :: 0 <= i < |db.queue| && db.queue[i].state in {Acknowledged, PermanentFailure, ManualReview} ==>
            later.queue[i] == db.queue[i])
      && (forall b :: b in db.batches && db.batches[b].state in {Completed, Failed, UnderReview} ==>
            b in later.batches && later.batches[b] == db.batches[b])
      && (forall b :: b in db.acks ==> b in later.acks && later.acks[b].payload == db.acks[b].payload)
      && (forall b :: b in db.acks && db.acks[b].appliedAt.Some? ==> b in later.acks && later.acks[b] == db.acks[b])
  {
    hide Inv, Run, Reachable, QueueEvolves, BatchesEvolve, AcksEvolve;
    ReachableInv(db);
    RunKeepsInv(db, more);
    RowsFinal(db.queue, Run(db, more).queue);
    BatchesFinal(db.batches, Run(db, more).batches);
    AcksFinal(db.acks, Run(db, more).acks);
  }

  lemma RowsFinal(q: seq<Row>, r: seq<Row>)
    requires QueueEvolves(q, r)
    ensures |q| <= |r| && forall i :: 0 <= i < |q| && q[i].state in {Acknowledged, PermanentFailure, ManualReview} ==>
      r[i] == q[i]
  {
    forall i | 0 <= i < |q| && q[i].state in {Acknowledged, PermanentFailure, ManualReview} ensures r[i] == q[i] {
      assert RowEvolves(q[i], r[i]);
    }
  }

  lemma BatchesFinal(m: map<BatchId, Batch>, n: map<BatchId, Batch>)
    requires BatchesEvolve(m, n)
    ensures forall b :: b in m && m[b].state in {Completed, Failed, UnderReview} ==> b in n && n[b] == m[b]
  {
    forall b | b in m && m[b].state in {Completed, Failed, UnderReview} ensures b in n && n[b] == m[b] {
      assert BatchEvolves(m[b], n[b]);
    }
  }

  lemma AcksFinal(m: map<BatchId, StoredAck>, n: map<BatchId, StoredAck>)
    requires AcksEvolve(m, n)
    ensures forall b :: b in m ==> b in n && n[b].payload == m[b].payload && (m[b].appliedAt.Some? ==> n[b] == m[b])
  {
    forall b | b in m ensures b in n && AckEvolves(m[b], n[b]) {
    }
  }

  /** Once applied, applying again at any time and after any run changes
      nothing and reports the original time and counts. */
  lemma ReapplyIsIdempotent(db: Database, batchId: BatchId, at: int, more: seq<Operation>, again: int)
    requires Reachable(db) && Sane(more) && again >= 0
    requires ApplyAck(db, batchId, at).result.Ok?
    ensures var first := ApplyAck(db, batchId, at);
      var later := Run(first.db, more);
      var second := ApplyAck(later, batchId, again);
      && second.db == later
      && second.result.Ok?
      && second.result.value == first.result.value.(appliedNow := false, lastAcknowledged := later.lastAcknowledged)
  {
    hide Inv, Evolves, Run, ApplyAck, Decodable, Lines, CountLines, Reachable;
    ReachableInv(db);
    var first := ApplyAck(db, batchId, at);
    ApplyKeepsInv(db, batchId, at);
    RunKeepsInv(first.db, more);
    AppliedReport(db, batchId, at);
    AckKept(first.db, Run(first.db, more), batchId);
    StoredAckReadable(first.db, batchId);
    ReplayReport(Run(first.db, more), batchId, again);
  }

  lemma AckKept(db: Database, later: Database, batchId: BatchId)
    requires Evolves(db, later) && batchId in db.acks
    ensures batchId in later.acks && AckEvolves(db.acks[batchId], later.acks[batchId])
  {
  }

  lemma StoredAckReadable(db: Database, batchId: BatchId)
    requires Inv(db) && batchId in db.acks
    ensures var p := db.acks[batchId].payload;
      p.receivedAt >= 0 && Decodable(p.entries, p.receivedAt) && p.entries != []
  {
    hide Decodable, QueueOk, AllEvidenced, Exclusive;
    AckFacts(db, batchId);
    assert BatchOk(db.queue, db.batches[batchId]);
  }

  lemma ReplayReport(db: Database, batchId: BatchId, at: int)
    requires at >= 0 && batchId in db.acks && db.acks[batchId].appliedAt.Some? && db.acks[batchId].appliedAt.value >= 0
    requires var p := db.acks[batchId].payload;
      p.receivedAt >= 0 && Decodable(p.entries, p.receivedAt) && p.entries != []
    ensures var a := db.acks[batchId];
      ApplyAck(db, batchId, at)
      == Outcome(db, Ok(Report(batchId, false, a.appliedAt.value, CountLines(Lines(a.payload)), db.lastAcknowledged)))
  {
    hide Decodable, Lines, CountLines, ApplyLines;
  }

  /** A successful application leaves its acknowledgement applied at the
      reported time, which is the given one unless it was applied before. */
  lemma AppliedReport(db: Database, batchId: BatchId, at: int)
    requires ApplyAck(db, batchId, at).result.Ok?
    ensures var o := ApplyAck(db, batchId, at); var r := o.result.value;
      && batchId in o.db.acks && o.db.acks[batchId].appliedAt == Some(r.appliedAt) && r.appliedAt >= 0
      && r.batchId == batchId && r.counts == CountLines(Lines(o.db.acks[batchId].payload))
      && o.db.acks[batchId].payload == db.acks[batchId].payload
      && r.lastAcknowledged == o.db.lastAcknowledged
      && (r.appliedNow <==> db.acks[batchId].appliedAt.None?)
      && (r.appliedNow ==> r.appliedAt == at)
      && (!r.appliedNow ==> o.db == db)
  {
    hide Decodable, Lines, CountLines, FirstConflict, ResolveChanges, Update, ResolvedPrefix;
  }

  // ---- Watermark exactness ----------------------------------------------

  /** Sequence n names a row that is present and resolved. */
  predicate ResolvedAt(queue: seq<Row>, n: int) {
    1 <= n <= |queue| && queue[n - 1].state in {Acknowledged, PermanentFailure}
  }

  /** Right after an application the watermark is the greatest n such that
      every sequence up to n is present and resolved. */
  lemma WatermarkExact(db: Database, batchId: BatchId, at: int)
    requires Reachable(db) && ApplyAck(db, batchId, at).result.Ok? && ApplyAck(db, batchId, at).result.value.appliedNow
    ensures var db' := ApplyAck(db, batchId, at).db;
      && (forall n :: 1 <= n <= db'.lastAcknowledged ==> ResolvedAt(db'.queue, n))
      && !ResolvedAt(db'.queue, db'.lastAcknowledged + 1)
  {
    hide QueueOk, BatchesOk, AcksOk, AllEvidenced, ApplyAck, ResolvedPrefix, Reachable;
    ReachableInv(db);
    ApplyKeepsInv(db, batchId, at);
    AppliedWatermark(db, batchId, at);
    ResolvedPrefixExact(ApplyAck(db, batchId, at).db.queue, db.lastAcknowledged);
  }

  lemma AppliedWatermark(db: Database, batchId: BatchId, at: int)
    requires ApplyAck(db, batchId, at).result.Ok? && ApplyAck(db, batchId, at).result.value.appliedNow
    requires db.lastAcknowledged >= 0
    ensures var db' := ApplyAck(db, batchId, at).db;
      |db'.queue| == |db.queue| && db'.lastAcknowledged == ResolvedPrefix(db'.queue, db.lastAcknowledged)
  {
    hide Decodable, Lines, CountLines, FirstConflict, ResolveChanges, UpdateRow, ResolvedPrefix;
  }

  // ---- Interleaving the two halves of storing ---------------------------

  /** The batch checked before the storing transaction still matches after
      any interleaved steps, so the transaction keeps the invariant. */
  lemma CheckSurvivesInterleaving(db: Database, a: Acknowledgement, between: seq<Operation>)
    requires Reachable(db) && Sane(between) && Constructible(a) && CheckAck(db, a).None?
    ensures var later := Run(db, between);
      && a.batchId in later.batches && Matches(a, later.batches[a.batchId])
      && Inv(StoreChecked(later, a).db) && Evolves(later, StoreChecked(later, a).db)
  {
    ReachableInv(db);
    RunKeepsInv(db, between);
    MatchErrorExact(a, db.batches[a.batchId]);
    var later := Run(db, between);
    assert BatchEvolves(db.batches[a.batchId], later.batches[a.batchId]);
    assert Matches(a, later.batches[a.batchId]);
    assert a.readerId == later.identity.readerId;
    hide Inv, Evolves, Run, Constructible, Matches, StoreChecked;
    StoreCheckedKeepsInv(later, a);
  }

  // ---- All or nothing ---------------------------------------------------

  /** Enqueueing, creating a batch, storing and applying an acknowledgement
      and the single-row updates change nothing when they fail. */
  lemma FailureChangesNothing(db: Database)
    ensures forall draft :: Enqueue(db, draft).result.Err? ==> Enqueue(db, draft).db == db
    ensures forall b, v, at, limit :: CreateBatch(db, b, v, at, limit).result.Err? ==>
      CreateBatch(db, b, v, at, limit).db == db
    ensures forall a :: StoreAck(db, a).result.Err? ==> StoreAck(db, a).db == db
    ensures forall b, at :: ApplyAck(db, b, at).result.Err? ==> ApplyAck(db, b, at).db == db
    ensures forall id, c :: UpdateOne(db, id, c).result.Err? ==> UpdateOne(db, id, c).db == db
  {
    hide Candidates, Update, ResolvedPrefix, Decodable, Lines, CountLines, FirstConflict, Hits;
  }

  lemma LoadableExact(queue: seq<Row>, b: Batch)
    requires BatchOk(queue, b)
    ensures BatchDecodes(b) <==> b.attempts <= U32_MAX
  {
    forall k | 0 <= k < |b.entries| ensures b.entries[k].position == k && b.entries[k].sequence > 0 {
      assert EntryOk(queue, b.entries[k]);
    }
    if |b.entries| > 1 {
      assert b.entries[0].sequence < b.entries[|b.entries| - 1].sequence;
    }
  }

  /** Loading a batch of a reachable database fails only when the attempt
      counter no longer fits 32 bits. */
  lemma LoadBatchExact(db: Database, batchId: BatchId)
    requires Inv(db)
    ensures LoadBatch(db, batchId).Ok? <==> batchId in db.batches && db.batches[batchId].attempts <= U32_MAX
  {
    hide BatchDecodes, BatchOk;
    if batchId in db.batches {
      LoadableExact(db.queue, db.batches[batchId]);
    }
  }

  /** A final batch failure reloads the batch after committing: once it
      committed, it fails exactly when the attempt counter exceeds 32 bits. */
  lemma FinalFailureAtomicity(db: Database, batchId: BatchId, review: bool, category: string, at: int)
    requires Reachable(db)
    ensures var o := FailBatchFinally(db, batchId, review, category, at);
      && (o.result.Err? && o.db != db <==>
            o.db != db && batchId in db.batches && db.batches[batchId].attempts > U32_MAX)
      && (o.result.Ok? ==> batchId in o.db.batches && o.result.value == o.db.batches[batchId])
  {
    hide Inv, Evolves, LoadBatch, FailBatchFinally, Reachable;
    ReachableInv(db);
    FailFinallyKeepsInv(db, batchId, review, category, at);
    FinalFailureShape(db, batchId, review, category, at);
    LoadBatchExact(FailBatchFinally(db, batchId, review, category, at).db, batchId);
    LoadedValue(FailBatchFinally(db, batchId, review, category, at).db, batchId);
  }

  lemma FinalFailureShape(db: Database, batchId: BatchId, review: bool, category: string, at: int)
    ensures var o := FailBatchFinally(db, batchId, review, category, at);
      || (o.db == db && o.result.Err?)
      || (batchId in db.batches && batchId in o.db.batches && o.result == LoadBatch(o.db, batchId)
          && o.db.batches[batchId].attempts == db.batches[batchId].attempts)
  {
    hide Trim, Update, Hits, LoadBatch;
  }

  lemma LoadedValue(db: Database, batchId: BatchId)
    ensures LoadBatch(db, batchId).Ok? ==> batchId in db.batches && LoadBatch(db, batchId).value == db.batches[batchId]
  {
  }

  // ---- Recovery ---------------------------------------------------------

  /** The two recovery passes commute, in every state. */
  lemma RecoveriesCommute(db: Database, at: int, at': int)
    ensures RecoverQueue(RecoverBatches(db, at).db, at').db == RecoverBatches(RecoverQueue(db, at').db, at).db
  {
    if at >= 0 && at' >= 0 {
      var recovered := RecoverBatches(db, at).db;
      forall id ensures InActiveBatch(recovered.batches, id) <==> InActiveBatch(db.batches, id) {
        ActiveAfterRecovery(db, at, id);
      }
      assert RecoveryChanges(recovered, at') == RecoveryChanges(db, at');
    }
  }

  lemma ActiveAfterRecovery(db: Database, at: int, id: TransactionId)
    requires at >= 0
    ensures InActiveBatch(RecoverBatches(db, at).db.batches, id) <==> InActiveBatch(db.batches, id)
  {
    var batches := RecoverBatches(db, at).db.batches;
    hide Names;
    if InActiveBatch(db.batches, id) {
      var b :| b in db.batches && db.batches[b].state.Active() && Names(db.batches[b].entries, id);
      assert b in batches && batches[b].state.Active() && Names(batches[b].entries, id);
    }
    if InActiveBatch(batches, id) {
      var b :| b in batches && batches[b].state.Active() && Names(batches[b].entries, id);
      assert b in db.batches && db.batches[b].state.Active() && Names(db.batches[b].entries, id);
    }
  }
}
