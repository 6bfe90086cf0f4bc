/** When the watermark is the highest contiguous resolved sequence: exactly
    from an application, or the start, until a permanent failure is recorded
    locally for the next sequence. */
module ReaderWatermark {
  import opened Basics
  import opened Texts
  import opened ReaderTables
  import opened ReaderAcknowledgement
  import opened ReaderSteps
  import opened ReaderInvariant
  import opened ReaderPreservation
  import opened ReaderRuns
  import opened ReaderCoupling
  import opened ReaderDecisions
  import opened ReaderHealth
  import opened ReaderOutcomes

  /** The sequence above the watermark is absent or unresolved. */
  predicate Tight(db: Database) {
    !ResolvedAt(db.queue, db.lastAcknowledged + 1)
  }

  /** An operation that may record a permanent failure without an
      acknowledgement. */
  predicate FailsLocally(op: Operation) {
    (op.DoFailFinally? || op.DoRecordFinal?) && !op.review
  }

  predicate Resolving(c: Change) {
    c.Resolve? || (c.Finish? && !c.review)
  }

  lemma ChangedUnresolved(row: Row, c: Change)
    requires Guard(row, c) && !Resolving(c)
    ensures !Changed(row, c).state.Resolved() && !row.state.Resolved()
  {
  }

  /** Updates that resolve nothing keep every sequence's resolution. */
  lemma UpdateKeepsResolution(queue: seq<Row>, changes: map<TransactionId, Change>, n: int)
    requires forall id :: id in changes ==> !Resolving(changes[id])
    ensures ResolvedAt(Update(queue, changes), n) <==> ResolvedAt(queue, n)
  {
    hide Guard, Changed, Resolving;
    if 1 <= n <= |queue| {
      var row := queue[n - 1];
      if Hit(row, changes) {
        ChangedUnresolved(row, changes[row.id]);
      }
    }
  }

  lemma ForEntriesKeepResolution(queue: seq<Row>, entries: seq<EntryRow>, c: Change, n: int)
    requires !Resolving(c)
    ensures ResolvedAt(Update(queue, ForEntries(entries, c)), n) <==> ResolvedAt(queue, n)
  {
    UpdateKeepsResolution(queue, ForEntries(entries, c), n);
  }

  lemma OneKeepsResolution(db: Database, id: TransactionId, c: Change, n: int)
    requires !Resolving(c)
    ensures var db' := UpdateOne(db, id, c).db;
      db'.lastAcknowledged == db.lastAcknowledged && (ResolvedAt(db'.queue, n) <==> ResolvedAt(db.queue, n))
  {
    hide Hits, Update, Resolving;
    UpdateKeepsResolution(db.queue, map[id := c], n);
  }

  lemma ChangeBatchKeepsResolution(db: Database, batchId: BatchId, after: Batch, c: Change, n: int)
    requires batchId in db.batches && !Resolving(c)
    ensures var db' := ChangeBatch(db, batchId, after, c).db;
      db'.lastAcknowledged == db.lastAcknowledged && (ResolvedAt(db'.queue, n) <==> ResolvedAt(db.queue, n))
  {
    hide Hits, Update, Resolving, LoadBatch, ForEntries;
    ForEntriesKeepResolution(db.queue, db.batches[batchId].entries, c, n);
  }

  lemma CreateKeepsResolution(db: Database, batchId: BatchId, protocol: Version, at: int, limit: nat, n: int)
    ensures var db' := CreateBatch(db, batchId, protocol, at, limit).db;
      db'.lastAcknowledged == db.lastAcknowledged && (ResolvedAt(db'.queue, n) <==> ResolvedAt(db.queue, n))
  {
    hide Candidates, FirstBlocked, Update, ForEntries, EntryRows;
    var chosen := Candidates(db, at, limit);
    if chosen != [] {
      ForEntriesKeepResolution(db.queue, EntryRows(chosen), Reserve(at), n);
    }
  }

  lemma RecoverKeepsResolution(db: Database, at: int, n: int)
    ensures ResolvedAt(RecoverQueue(db, at).db.queue, n) <==> ResolvedAt(db.queue, n)
  {
    hide Update, Hits;
    if at >= 0 {
      UpdateKeepsResolution(db.queue, RecoveryChanges(db, at), n);
    }
  }

  lemma ApplyKeepsTight(db: Database, batchId: BatchId, at: int)
    requires Reachable(db) && Tight(db)
    ensures Tight(ApplyAck(db, batchId, at).db)
  {
    hide ApplyAck, Reachable, ResolvedAt;
    var o := ApplyAck(db, batchId, at);
    if o.result.Ok? {
      AppliedReport(db, batchId, at);
      if o.result.value.appliedNow {
        WatermarkExact(db, batchId, at);
      }
    } else {
      FailureChangesNothing(db);
    }
  }

  /** Only a locally recorded permanent failure can leave the watermark
      behind. */
  lemma StepKeepsTight(db: Database, op: Operation)
    requires Reachable(db) && Tight(db) && !FailsLocally(op)
    ensures Tight(Step(db, op))
  {
    hide Reachable, Update, Hits, ChangeBatch, CreateBatch, RecoverBatch, LoadBatch, CheckAck, ApplyAck, UpdateOne,
         Trim;
    var n := db.lastAcknowledged + 1;
    match op {
      case DoEnqueue(draft) =>
      case DoMarkTransaction(id, at) => OneKeepsResolution(db, id, Attempt(at), n);
      case DoRecordRetryable(id, category, at, retryAt) =>
        OneKeepsResolution(db, id, Retry(Trim(category), retryAt, at), n);
      case DoRecordFinal(id, review, category, at) => OneKeepsResolution(db, id, Finish(review, Trim(category), at), n);
      case DoRecoverQueue(at) => RecoverKeepsResolution(db, at, n);
      case DoCreateBatch(newBatch, protocol, at, limit) => CreateKeepsResolution(db, newBatch, protocol, at, limit, n);
      case DoSubmitBatch(batchId, at) =>
        if batchId in db.batches {
          ChangeBatchKeepsResolution(db, batchId, SubmittedBatch(db.batches[batchId], at), Resubmit(at), n);
        }
      case DoFailRetryably(batchId, category, at, retryAt) =>
      case DoFailFinally(batchId, review, category, at) =>
        if batchId in db.batches {
          var after := FinishedBatch(db.batches[batchId], review, Trim(category), at);
          ChangeBatchKeepsResolution(db, batchId, after, Finish(review, Trim(category), at), n);
        }
      case DoRecoverBatches(at) =>
      case DoStoreAck(ack) =>
      case DoApplyAck(batchId, at) => ApplyKeepsTight(db, batchId, at);
    }
  }

  /** The watermark is the highest contiguous resolved sequence: it stands
      directly below the lowest unresolved one, or below the next one. */
  ghost predicate MeetsHealth(db: Database) {
    db.lastAcknowledged + 1 == (if QueryHealth(db).lowest.Some? then QueryHealth(db).lowest.value else db.nextSequence)
  }

  lemma TightMeetsHealth(db: Database)
    requires Reachable(db)
    ensures Tight(db) <==> MeetsHealth(db)
  {
    hide Inv, Reachable, QueryHealth;
    ReachableInv(db);
    WatermarkInRange(db);
    LowestAboveWatermark(db);
  }

  lemma RunIsReachable(identity: Identity, ops: seq<Operation>)
    requires Sane(ops)
    ensures Reachable(Run(Bound(identity), ops))
  {
  }

  lemma {:induction false} RunKeepsTight(identity: Identity, ops: seq<Operation>)
    requires Sane(ops) && forall k :: 0 <= k < |ops| ==> !FailsLocally(ops[k])
    ensures Reachable(Run(Bound(identity), ops)) && Tight(Run(Bound(identity), ops))
  {
    hide Step, Reachable;
    RunIsReachable(identity, ops);
    if ops != [] {
      var n := |ops| - 1;
      RunKeepsTight(identity, ops[..n]);
      StepKeepsTight(Run(Bound(identity), ops[..n]), ops[n]);
    }
  }

  /** In every run that records no permanent failure locally, the watermark
      is the highest contiguous resolved sequence at all times. */
  lemma WatermarkIsContiguous(identity: Identity, ops: seq<Operation>)
    requires Sane(ops) && forall k :: 0 <= k < |ops| ==> !FailsLocally(ops[k])
    ensures MeetsHealth(Run(Bound(identity), ops))
  {
    hide Reachable, Run, MeetsHealth, Tight;
    RunKeepsTight(identity, ops);
    TightMeetsHealth(Run(Bound(identity), ops));
  }

  // ---- The exact exception ----------------------------------------------

  /** The entry that carries the sequence above the watermark can only be the
      batch's first. */
  lemma AboveWatermarkIsFirst(db: Database, batchId: BatchId, c: Change)
    requires Inv(db) && batchId in db.batches && c.Finish?
    requires AllHit(db.queue, db.batches[batchId].entries, ForEntries(db.batches[batchId].entries, c))
    requires 1 <= db.lastAcknowledged + 1 <= |db.queue|
    ensures db.queue[db.lastAcknowledged].id in EntryIds(db.batches[batchId].entries) <==>
      db.batches[batchId].first == db.lastAcknowledged + 1
  {
    hide QueueOk, BatchesOk, AcksOk, AllEvidenced, AllHit, ForEntries, ResolvedUpTo, EntryIds;
    var entries := db.batches[batchId].entries;
    FirstIsLeast(db, batchId);
    HitIsAbove(db, entries, c, 0);
    if db.queue[db.lastAcknowledged].id in EntryIds(entries) {
      IdInEntries(db.queue, entries, db.lastAcknowledged);
    }
  }

  lemma FirstIsLeast(db: Database, batchId: BatchId)
    requires Inv(db) && batchId in db.batches
    ensures var b := db.batches[batchId];
      && EntriesOk(db.queue, b.entries)
      && b.entries != [] && b.entries[0].sequence == b.first && b.entries[0].transactionId in EntryIds(b.entries)
      && forall k :: 0 <= k < |b.entries| ==> b.first <= b.entries[k].sequence
  {
    hide QueueOk, AcksOk, AllEvidenced, Exclusive, EntryOk;
    assert BatchOk(db.queue, db.batches[batchId]);
  }

  lemma HitIsAbove(db: Database, entries: seq<EntryRow>, c: Change, k: nat)
    requires ResolvedUpTo(db.queue, db.lastAcknowledged) && k < |entries| && c.Finish?
    requires AllHit(db.queue, entries, ForEntries(entries, c))
    ensures EntryOk(db.queue, entries[k]) && entries[k].sequence > db.lastAcknowledged
  {
    assert EntryOk(db.queue, entries[k]) && Hit(db.queue[entries[k].sequence - 1], ForEntries(entries, c));
  }

  lemma IdInEntries(queue: seq<Row>, entries: seq<EntryRow>, i: nat)
    requires QueueOk(queue) && EntriesOk(queue, entries) && i < |queue| && queue[i].id in EntryIds(entries)
    ensures exists k :: 0 <= k < |entries| && entries[k].sequence == i + 1
  {
    hide RowOk;
    var k :| 0 <= k < |entries| && entries[k].transactionId == queue[i].id;
    assert EntryOk(queue, entries[k]);
    SameIdSameSequence(queue, entries[k], i);
  }

  lemma FinalShape(db: Database, batchId: BatchId, category: string, at: int)
    requires FailBatchFinally(db, batchId, false, category, at).db != db
    ensures batchId in db.batches
    ensures var b := db.batches[batchId]; var changes := ForEntries(b.entries, Finish(false, Trim(category), at));
      && Hits(db.queue, changes) == |b.entries|
      && FailBatchFinally(db, batchId, false, category, at).db.queue == Update(db.queue, changes)
      && FailBatchFinally(db, batchId, false, category, at).db.lastAcknowledged == db.lastAcknowledged
  {
    hide Trim, ForEntries, Update, Hits, LoadBatch;
  }

  lemma FinishResolves(queue: seq<Row>, entries: seq<EntryRow>, category: string, at: int, i: nat)
    requires i < |queue| && QueueOk(queue)
    requires AllHit(queue, entries, ForEntries(entries, Finish(false, category, at)))
    ensures queue[i].id in EntryIds(entries) ==>
      UpdateRow(queue[i], ForEntries(entries, Finish(false, category, at))).state.Resolved()
    ensures queue[i].id !in EntryIds(entries) ==>
      UpdateRow(queue[i], ForEntries(entries, Finish(false, category, at))) == queue[i]
  {
    hide RowOk;
    var changes := ForEntries(entries, Finish(false, category, at));
    if queue[i].id in EntryIds(entries) {
      var k :| 0 <= k < |entries| && entries[k].transactionId == queue[i].id;
      assert EntryOk(queue, entries[k]) && Hit(queue[entries[k].sequence - 1], changes);
      SameIdSameSequence(queue, entries[k], i);
    }
  }

  /** A committed batch-level permanent failure leaves the watermark behind
      exactly when the batch starts right above it. */
  lemma LagExact(db: Database, batchId: BatchId, category: string, at: int)
    requires Reachable(db) && MeetsHealth(db) && FailBatchFinally(db, batchId, false, category, at).db != db
    ensures batchId in db.batches
    ensures MeetsHealth(FailBatchFinally(db, batchId, false, category, at).db) <==>
      db.batches[batchId].first != db.lastAcknowledged + 1
  {
    hide FailBatchFinally, MeetsHealth, Hits, Update, ForEntries, Reachable, AllHit, QueueOk, BatchesOk, AcksOk,
         AllEvidenced, UpdateRow, EntryIds;
    var db' := FailBatchFinally(db, batchId, false, category, at).db;
    ReachableInv(db);
    TightMeetsHealth(db);
    ReachableExtends(db, DoFailFinally(batchId, false, category, at));
    assert db' == Step(db, DoFailFinally(batchId, false, category, at));
    TightMeetsHealth(db');
    FinalShape(db, batchId, category, at);
    var entries, c := db.batches[batchId].entries, Finish(false, Trim(category), at);
    FirstIsLeast(db, batchId);
    ForEntriesKeys(entries, c);
    AllHitFromHits(db.queue, entries, ForEntries(entries, c));
    var n := db.lastAcknowledged;
    if n < |db.queue| {
      AboveWatermarkIsFirst(db, batchId, c);
      FinishResolves(db.queue, entries, Trim(category), at, n);
    } else {
      FirstInRange(db, batchId);
    }
  }

  /** The transaction right above the watermark. */
  predicate NextIs(db: Database, id: TransactionId) {
    0 <= db.lastAcknowledged < |db.queue| && db.queue[db.lastAcknowledged].id == id
  }

  lemma FinishedIsResolved(r: Row, s: Row, category: string, at: int)
    requires Records(r, s, Finish(false, category, at))
    ensures s.state.Resolved()
  {
  }

  /** A committed permanent failure of one transaction leaves the watermark
      behind exactly when that transaction stands right above it. */
  lemma RowLagExact(db: Database, id: TransactionId, category: string, at: int)
    requires Reachable(db) && MeetsHealth(db) && RecordFinal(db, id, false, category, at).db != db
    ensures MeetsHealth(RecordFinal(db, id, false, category, at).db) <==> !NextIs(db, id)
  {
    hide Inv, MeetsHealth, Reachable, UpdateOne, Records, Trim;
    var db' := RecordFinal(db, id, false, category, at).db;
    var c := Finish(false, Trim(category), at);
    ReachableInv(db);
    ReachableExtends(db, DoRecordFinal(id, false, category, at));
    assert db' == Step(db, DoRecordFinal(id, false, category, at));
    TightMeetsHealth(db);
    TightMeetsHealth(db');
    TransitionExact(db, id, c);
    WatermarkInRange(db);
    if NextIs(db, id) {
      FinishedIsResolved(db.queue[db.lastAcknowledged], db'.queue[db.lastAcknowledged], Trim(category), at);
    }
  }

  lemma WatermarkInRange(db: Database)
    requires Inv(db)
    ensures 0 <= db.lastAcknowledged <= |db.queue| && db.nextSequence == |db.queue| + 1
  {
    hide QueueOk, BatchesOk, AcksOk, AllEvidenced;
  }

  // ---- Every step and every run -----------------------------------------

  predicate AppliesNow(db: Database, op: Operation) {
    op.DoApplyAck? && Applies(db, op.batchId, op.at)
  }

  /** The operation records a permanent failure of the transaction right above
      the watermark. */
  predicate ResolvesNext(db: Database, op: Operation) {
    match op
    case DoFailFinally(batchId, review, category, at) =>
      !review && Finishes(db, batchId, category, at) && db.batches[batchId].first == db.lastAcknowledged + 1
    case DoRecordFinal(id, review, category, at) =>
      && !review && at >= 0 && !Blank(category) && NextIs(db, id)
      && Guard(db.queue[db.lastAcknowledged], Finish(false, Trim(category), at))
    case _ => false
  }

  lemma WatermarkRests(db: Database, op: Operation)
    requires Inv(db) && !AppliesNow(db, op)
    ensures Step(db, op).lastAcknowledged == db.lastAcknowledged
  {
    hide Inv, Update, Hits, LoadBatch, Candidates, FirstBlocked, RecoverBatch, Ready, InActiveBatch, Trim, CheckAck,
         ApplyAck, Applies;
    if op.DoApplyAck? {
      ApplyDecides(db, op.batchId, op.at);
    }
  }

  /** Only an application restores a watermark that lags. */
  lemma LaggingStays(db: Database, op: Operation)
    requires Reachable(db) && op.Sane() && !MeetsHealth(db) && !AppliesNow(db, op)
    ensures !MeetsHealth(Step(db, op))
  {
    hide Inv, Evolves, Reachable, MeetsHealth, Step, AppliesNow, QueueEvolves;
    ReachableInv(db);
    ReachableExtends(db, op);
    TightMeetsHealth(db);
    TightMeetsHealth(Step(db, op));
    WatermarkRests(db, op);
    StepKeepsInv(db, op);
    ResolvedAtStays(db, Step(db, op), db.lastAcknowledged + 1);
  }

  lemma ResolvedAtStays(db: Database, later: Database, n: int)
    requires Evolves(db, later) && ResolvedAt(db.queue, n)
    ensures ResolvedAt(later.queue, n)
  {
    assert RowEvolves(db.queue[n - 1], later.queue[n - 1]);
  }

  lemma RowFailureExact(db: Database, id: TransactionId, category: string, at: int)
    requires Reachable(db) && MeetsHealth(db)
    ensures MeetsHealth(RecordFinal(db, id, false, category, at).db) <==>
      !ResolvesNext(db, DoRecordFinal(id, false, category, at))
  {
    hide Inv, MeetsHealth, Reachable, UpdateOne, Guard, Trim;
    var c := Finish(false, Trim(category), at);
    ReachableInv(db);
    TransitionExact(db, id, c);
    if RecordFinal(db, id, false, category, at).db != db {
      RowLagExact(db, id, category, at);
      if NextIs(db, id) {
        PermittedRow(db, id, c, db.lastAcknowledged);
      }
    } else if ResolvesNext(db, DoRecordFinal(id, false, category, at)) {
      assert Permitted(db.queue, id, c);
      PermittedChanges(db, id, Trim(category), at);
    }
  }

  lemma PermittedRow(db: Database, id: TransactionId, c: Change, i: nat)
    requires Inv(db) && Permitted(db.queue, id, c) && i < |db.queue| && db.queue[i].id == id
    ensures Guard(db.queue[i], c)
  {
    hide Inv, Guard, RowOk;
    InvQueue(db);
    var j :| 0 <= j < |db.queue| && db.queue[j].id == id && Guard(db.queue[j], c);
    assert i == j;
  }

  lemma PermittedChanges(db: Database, id: TransactionId, category: string, at: int)
    requires Inv(db) && Permitted(db.queue, id, Finish(false, category, at))
    ensures UpdateOne(db, id, Finish(false, category, at)).db != db
  {
    hide Inv, UpdateOne, Records;
    TransitionExact(db, id, Finish(false, category, at));
    var i :| 0 <= i < |db.queue| && db.queue[i].id == id && Guard(db.queue[i], Finish(false, category, at));
    var row := UpdateOne(db, id, Finish(false, category, at)).db.queue[i];
    FinishedIsResolved(db.queue[i], row, category, at);
  }

  lemma BatchFailureExact(db: Database, batchId: BatchId, category: string, at: int)
    requires Reachable(db) && MeetsHealth(db)
    ensures MeetsHealth(FailBatchFinally(db, batchId, false, category, at).db) <==>
      !ResolvesNext(db, DoFailFinally(batchId, false, category, at))
  {
    hide Inv, MeetsHealth, Reachable, FailBatchFinally, Finishes;
    ReachableInv(db);
    FinalDecides(db, batchId, false, category, at);
    if FailBatchFinally(db, batchId, false, category, at).db != db {
      LagExact(db, batchId, category, at);
    }
  }

  lemma LocalFailureExact(db: Database, op: Operation)
    requires Reachable(db) && MeetsHealth(db) && FailsLocally(op)
    ensures MeetsHealth(Step(db, op)) <==> !ResolvesNext(db, op)
  {
    hide MeetsHealth, Reachable, RecordFinal, FailBatchFinally, ResolvesNext;
    match op {
      case DoFailFinally(batchId, review, category, at) => BatchFailureExact(db, batchId, category, at);
      case DoRecordFinal(id, review, category, at) => RowFailureExact(db, id, category, at);
    }
  }

  lemma ApplicationMeets(db: Database, op: Operation)
    requires Reachable(db) && AppliesNow(db, op)
    ensures MeetsHealth(Step(db, op))
  {
    hide Inv, Reachable, ApplyAck, Applies, MinOf;
    ReachableInv(db);
    ApplyDecides(db, op.batchId, op.at);
    WatermarkMeetsHealth(db, op.batchId, op.at);
  }

  /** After any of the twelve operations the watermark is the highest
      contiguous resolved sequence exactly when the operation was an
      application that took effect, or it was so before and the operation did
      not record a permanent failure right above it. */
  lemma StepContiguousExact(db: Database, op: Operation)
    requires Reachable(db) && op.Sane()
    ensures MeetsHealth(Step(db, op)) <==> AppliesNow(db, op) || (MeetsHealth(db) && !ResolvesNext(db, op))
  {
    hide Reachable, MeetsHealth, Step, AppliesNow, Tight;
    if AppliesNow(db, op) {
      ApplicationMeets(db, op);
    } else if !MeetsHealth(db) {
      LaggingStays(db, op);
    } else if FailsLocally(op) {
      LocalFailureExact(db, op);
    } else {
      TightMeetsHealth(db);
      StepKeepsTight(db, op);
      ReachableExtends(db, op);
      TightMeetsHealth(Step(db, op));
    }
  }

  /** Operation k of the run applies an acknowledgement. */
  ghost predicate AppliesAt(identity: Identity, ops: seq<Operation>, k: nat)
    requires k < |ops|
  {
    AppliesNow(Run(Bound(identity), ops[..k]), ops[k])
  }

  /** Operation k of the run records a permanent failure right above the
      watermark of that moment. */
  ghost predicate ResolvesAt(identity: Identity, ops: seq<Operation>, k: nat)
    requires k < |ops|
  {
    ResolvesNext(Run(Bound(identity), ops[..k]), ops[k])
  }

  /** Some application follows operation k. */
  ghost predicate AppliedAfter(identity: Identity, ops: seq<Operation>, k: nat) {
    exists j :: k < j < |ops| && AppliesAt(identity, ops, j)
  }

  /** Every local permanent failure right above the watermark was followed by
      an application. */
  ghost predicate CaughtUp(identity: Identity, ops: seq<Operation>) {
    forall k :: 0 <= k < |ops| && ResolvesAt(identity, ops, k) ==> AppliedAfter(identity, ops, k)
  }

  lemma PrefixSame(identity: Identity, ops: seq<Operation>, n: nat, k: nat)
    requires k < n <= |ops|
    ensures AppliesAt(identity, ops[..n], k) == AppliesAt(identity, ops, k)
    ensures ResolvesAt(identity, ops[..n], k) == ResolvesAt(identity, ops, k)
  {
    assert ops[..n][..k] == ops[..k];
  }

  lemma CaughtUpStep(identity: Identity, ops: seq<Operation>)
    requires ops != []
    ensures var n := |ops| - 1;
      CaughtUp(identity, ops) <==>
        !ResolvesAt(identity, ops, n) && (AppliesAt(identity, ops, n) || CaughtUp(identity, ops[..n]))
  {
    hide AppliesAt, ResolvesAt;
    var n := |ops| - 1;
    forall k | 0 <= k < n
      ensures AppliesAt(identity, ops[..n], k) == AppliesAt(identity, ops, k)
      ensures ResolvesAt(identity, ops[..n], k) == ResolvesAt(identity, ops, k)
    {
      PrefixSame(identity, ops, n, k);
    }
    forall k | 0 <= k < n
      ensures AppliedAfter(identity, ops, k) <==> AppliedAfter(identity, ops[..n], k) || AppliesAt(identity, ops, n)
    {
      if AppliedAfter(identity, ops[..n], k) {
        var j :| k < j < n && AppliesAt(identity, ops[..n], j);
        assert AppliesAt(identity, ops, j);
      }
      if AppliedAfter(identity, ops, k) && !AppliesAt(identity, ops, n) {
        var j :| k < j < |ops| && AppliesAt(identity, ops, j);
        assert j < n && AppliesAt(identity, ops[..n], j);
      }
    }
    if CaughtUp(identity, ops) {
      assert !AppliedAfter(identity, ops, n);
    }
  }

  /** After any run from the start, the watermark is the highest contiguous
      resolved sequence exactly when every permanent failure that was
      recorded locally right above it has been followed by an application. */
  lemma {:induction false} RunContiguousExact(identity: Identity, ops: seq<Operation>)
    requires Sane(ops)
    ensures MeetsHealth(Run(Bound(identity), ops)) <==> CaughtUp(identity, ops)
  {
    hide Reachable, MeetsHealth, Step, AppliesNow, ResolvesNext, CaughtUp;
    if ops == [] {
      StartCaughtUp(identity, ops);
    } else {
      var n := |ops| - 1;
      RunContiguousExact(identity, ops[..n]);
      RunIsReachable(identity, ops[..n]);
      StepContiguousExact(Run(Bound(identity), ops[..n]), ops[n]);
      CaughtUpStep(identity, ops);
      NotBoth(Run(Bound(identity), ops[..n]), ops[n]);
    }
  }

  lemma NotBoth(db: Database, op: Operation)
    ensures AppliesNow(db, op) ==> !ResolvesNext(db, op)
  {
  }

  lemma StartCaughtUp(identity: Identity, ops: seq<Operation>)
    requires ops == []
    ensures MeetsHealth(Run(Bound(identity), ops)) && CaughtUp(identity, ops)
  {
    hide MeetsHealth, Reachable;
    RunKeepsTight(identity, ops);
    TightMeetsHealth(Run(Bound(identity), ops));
  }

  lemma FirstCandidate(identity: Identity, row: Row, at: int)
    requires row.state.Pending?
    ensures Candidates(Bound(identity).(nextSequence := 2, queue := [row]), at, 1) == [row]
  {
    var queue := [row];
    assert queue[..0] == [];
    assert Eligible(queue, map[], at) == [row];
    assert InSequenceOrder(queue) == [row];
  }

  lemma RunOfThree(db: Database, a: Operation, b: Operation, c: Operation)
    ensures Run(db, [a, b, c]) == Step(Step(Step(db, a), b), c)
  {
    hide Step;
    assert [a, b, c][..2] == [a, b];
    RunOfTwo(db, a, b);
  }

  lemma StartReachable(identity: Identity)
    ensures BatchReachable(Bound(identity))
  {
    var ops: seq<Operation> := [];
    assert Sane(ops) && BatchLevel(ops) && Run(Bound(identity), ops) == Bound(identity);
  }

  /** A fresh reader's first batch, submitted and then failed permanently. */
  function FailedFirstBatch(id: TransactionId, envelope: Envelope, batchId: BatchId, category: string,
                            at: I64): seq<Operation> {
    [DoEnqueue(Draft(id, envelope, at)), DoCreateBatch(batchId, CURRENT_VERSION, at, 1), DoSubmitBatch(batchId, at),
     DoFailFinally(batchId, false, category, at)]
  }

  lemma RunOfFour(db: Database, a: Operation, b: Operation, c: Operation, d: Operation)
    ensures Run(db, [a, b, c, d]) == Step(Step(Step(Step(db, a), b), c), d)
  {
    hide Step;
    assert [a, b, c, d][..3] == [a, b, c];
    RunOfThree(db, a, b, c);
  }

  lemma FirstBatch(identity: Identity, row: Row, batchId: BatchId, at: int)
    requires row.state.Pending? && row.updatedAt <= at && at >= 0
    ensures var queued := Bound(identity).(nextSequence := 2, queue := [row]);
      var db := CreateBatch(queued, batchId, CURRENT_VERSION, at, 1).db;
      db.batches == map[batchId := NewBatch(CURRENT_VERSION, [row], at)] && db.lastAcknowledged == 0
  {
    hide Candidates, Update, ForEntries;
    FirstCandidate(identity, row, at);
    NothingBlocked([row], at);
  }

  /** That run ends with its only transaction resolved and the watermark still
      at zero: the exception happens. */
  lemma LagHappens(identity: Identity, id: TransactionId, envelope: Envelope, batchId: BatchId, category: string,
                   at: I64)
    requires at >= 0 && identity.createdAt <= at && !Blank(category)
    ensures var db := Run(Bound(identity), FailedFirstBatch(id, envelope, batchId, category, at));
      Reachable(db) && db.lastAcknowledged == 0 && !MeetsHealth(db)
  {
    hide Trim, Reachable, MeetsHealth, Tight, BatchReachable, Coupled, Inv, CreateBatch, SubmitBatch,
         FailBatchFinally, Run;
    var ops, start := FailedFirstBatch(id, envelope, batchId, category, at), Bound(identity);
    RunOfFour(start, ops[0], ops[1], ops[2], ops[3]);
    RunOfThree(start, ops[0], ops[1], ops[2]);
    var row := Row(id, 1, envelope, Pending, 0, None, None, at, at);
    var queued := start.(nextSequence := 2, queue := [row]);
    assert Step(start, ops[0]) == queued;
    FirstBatch(identity, row, batchId, at);
    var created := CreateBatch(queued, batchId, CURRENT_VERSION, at, 1).db;
    StartReachable(identity);
    Extend(start, ops[0]);
    Extend(queued, ops[1]);
    FailedWithinFlight(created, batchId, category, at);
    RunKeepsTight(identity, ops[..3]);
    assert ops[..3] == [ops[0], ops[1], ops[2]];
    TightMeetsHealth(Run(start, ops[..3]));
    LagExact(Run(start, ops[..3]), batchId, category, at);
    RunIsReachable(identity, ops);
  }

  lemma FailedWithinFlight(created: Database, batchId: BatchId, category: string, at: I64)
    requires BatchReachable(created) && at >= 0 && !Blank(category)
    requires batchId in created.batches && Submittable(created.batches[batchId], at)
    ensures var submitted := SubmitBatch(created, batchId, at).db;
      var failed := FailBatchFinally(submitted, batchId, false, category, at).db;
      && batchId in submitted.batches && submitted.batches[batchId].first == created.batches[batchId].first
      && submitted.lastAcknowledged == created.lastAcknowledged == failed.lastAcknowledged && failed != submitted
  {
    hide BatchReachable, Coupled, Inv, SubmitBatch, FailBatchFinally, Blank, LoadBatch;
    BatchRunsCoupled(created);
    SubmitCommits(created, batchId, at);
    Extend(created, DoSubmitBatch(batchId, at));
    var submitted := SubmitBatch(created, batchId, at).db;
    FinalFailureExact(submitted, batchId, false, category, at);
    BatchRunsCoupled(submitted);
    FinalFailureCommits(submitted, batchId, false, category, at);
  }

  /** A fresh reader's first transaction, taken into flight on its own and
      then failed permanently. */
  function FailedFirstRow(id: TransactionId, envelope: Envelope, category: string, at: int): seq<Operation> {
    [DoEnqueue(Draft(id, envelope, at)), DoMarkTransaction(id, at), DoRecordFinal(id, false, category, at)]
  }

  lemma MarkedFirst(db: Database, id: TransactionId, at: int)
    requires Inv(db) && at >= 0 && |db.queue| == 1 && db.queue[0].id == id && db.queue[0].state.Pending?
    requires db.queue[0].updatedAt <= at && db.lastAcknowledged == 0
    ensures var later := MarkTransactionInFlight(db, id, at).db;
      && later.lastAcknowledged == 0 && NextIs(later, id)
      && later.queue[0].state.InFlight? && later.queue[0].updatedAt == at
  {
    hide Inv, UpdateOne;
    TransitionExact(db, id, Attempt(at));
    assert Permitted(db.queue, id, Attempt(at));
  }

  /** That run, too, ends with the watermark at zero above a resolved row. */
  lemma RowLagHappens(identity: Identity, id: TransactionId, envelope: Envelope, category: string, at: int)
    requires at >= 0 && identity.createdAt <= at && !Blank(category)
    ensures var db := Run(Bound(identity), FailedFirstRow(id, envelope, category, at));
      Reachable(db) && !MeetsHealth(db)
  {
    hide Trim, Reachable, MeetsHealth, Tight, Inv, MarkTransactionInFlight, RecordFinal, Run;
    var ops, start := FailedFirstRow(id, envelope, category, at), Bound(identity);
    RunOfThree(start, ops[0], ops[1], ops[2]);
    var row := Row(id, 1, envelope, Pending, 0, None, None, at, at);
    var queued := start.(nextSequence := 2, queue := [row]);
    assert Step(start, ops[0]) == queued;
    RunOfTwo(start, ops[0], ops[1]);
    var quiet := ops[..2];
    assert quiet == [ops[0], ops[1]] && quiet[..1] == [ops[0]];
    RunOfOne(start, ops[0]);
    RunIsReachable(identity, quiet[..1]);
    ReachableInv(queued);
    MarkedFirst(queued, id, at);
    RunKeepsTight(identity, quiet);
    var marked := Run(start, quiet);
    TightMeetsHealth(marked);
    LocalFailureExact(marked, ops[2]);
    RunIsReachable(identity, ops);
  }

  lemma RunOfOne(db: Database, a: Operation)
    ensures Run(db, [a]) == Step(db, a)
  {
    hide Step;
    assert [a][..0] == [];
  }

  lemma RunOfTwo(db: Database, a: Operation, b: Operation)
    ensures Run(db, [a, b]) == Step(Step(db, a), b)
  {
    hide Step;
    assert [a, b][..1] == [a];
    RunOfOne(db, a);
  }
}
