/** Where the durable operations meet numeric limits: the 32-bit attempt
    counter of a reloaded batch and the 256 entries of a request; and runs
    that reach the exceptions. */
module ReaderLimits {
  import opened Basics
  import opened Texts
  import opened ReaderTables
  import opened ReaderAcknowledgement
  import opened ReaderSteps
  import opened ReaderInvariant
  import opened ReaderPreservation
  import opened ReaderRuns
  import opened ReaderCoupling
  import opened ReaderDecisions
  import opened ReaderWatermark
  import opened ReaderRequest
  import Protocol

  // ---- The reload after a commit ----------------------------------------

  /** Submission and both batch failures report an error although they
      committed exactly when their transition is permitted and the attempt
      counter they leave no longer fits 32 bits; otherwise an error means
      that nothing changed. */
  lemma ErrorAfterCommitExact(db: Database, batchId: BatchId, review: bool, category: string, at: I64, retryAt: int)
    requires Reachable(db)
    ensures var o := SubmitBatch(db, batchId, at);
      o.result.Err? && o.db != db <==> Submits(db, batchId, at) && db.batches[batchId].attempts >= U32_MAX
    ensures var o := FailBatchRetryably(db, batchId, category, at, retryAt);
      o.result.Err? && o.db != db <==>
        Postpones(db, batchId, category, at, retryAt) && db.batches[batchId].attempts > U32_MAX
    ensures var o := FailBatchFinally(db, batchId, review, category, at);
      o.result.Err? && o.db != db <==> Finishes(db, batchId, category, at) && db.batches[batchId].attempts > U32_MAX
  {
    hide Inv, Reachable, SubmitBatch, FailBatchRetryably, FailBatchFinally, Submits, Postpones, Finishes;
    ReachableInv(db);
    SubmitDecides(db, batchId, at);
    PostponeDecides(db, batchId, category, at, retryAt);
    FinalDecides(db, batchId, review, category, at);
  }

  /** Interrupting and resubmitting a batch reaches every attempt count. */
  lemma {:induction false} ManyAttempts(db: Database, batchId: BatchId, at: I64, n: nat) returns (later: Database)
    requires BatchReachable(db) && batchId in db.batches && at >= 0 && Submittable(db.batches[batchId], at)
    ensures BatchReachable(later) && InFlightBy(later, batchId, at)
    ensures later.batches[batchId].attempts == db.batches[batchId].attempts + n + 1
    decreases n
  {
    hide BatchReachable, Coupled, Inv, SubmitBatch, LoadBatch;
    var ready := db;
    if n > 0 {
      var flying := ManyAttempts(db, batchId, at, n - 1);
      ready := RecoverBatches(flying, at).db;
      Extend(flying, DoRecoverBatches(at));
    }
    BatchRunsCoupled(ready);
    SubmitCommits(ready, batchId, at);
    Extend(ready, DoSubmitBatch(batchId, at));
    later := SubmitBatch(ready, batchId, at).db;
  }

  lemma CreateKeepsAcks(db: Database, batchId: BatchId, at: int)
    ensures CreateBatch(db, batchId, CURRENT_VERSION, at, 1).db.acks == db.acks
  {
    hide Candidates, FirstBlocked, Update, ForEntries, NewBatch;
  }

  lemma FirstBatchReachable(identity: Identity, id: TransactionId, envelope: Envelope, batchId: BatchId, at: I64)
    returns (db: Database)
    requires at >= 0 && identity.createdAt <= at
    ensures BatchReachable(db) && batchId in db.batches
    ensures db.batches[batchId].attempts == 0 && Submittable(db.batches[batchId], at) && batchId !in db.acks
  {
    hide BatchReachable, CreateBatch;
    var row := Row(id, 1, envelope, Pending, 0, None, None, at, at);
    var queued := Bound(identity).(nextSequence := 2, queue := [row]);
    StartReachable(identity);
    Extend(Bound(identity), DoEnqueue(Draft(id, envelope, at)));
    assert Enqueue(Bound(identity), Draft(id, envelope, at)).db == queued;
    Extend(queued, DoCreateBatch(batchId, CURRENT_VERSION, at, 1));
    FirstBatch(identity, row, batchId, at);
    assert CreateBatch(queued, batchId, CURRENT_VERSION, at, 1).db.acks == map[] by {
      CreateKeepsAcks(queued, batchId, at);
    }
    db := CreateBatch(queued, batchId, CURRENT_VERSION, at, 1).db;
  }

  predicate ErrsYetCommits(db: Database, o: Outcome<Batch>) {
    o.result.Err? && o.db != db
  }

  lemma BatchReachableIsReachable(db: Database)
    requires BatchReachable(db)
    ensures Reachable(db)
  {
    hide Run, BatchLevel;
  }

  lemma InFlightCommits(db: Database, batchId: BatchId, category: string, at: I64)
    requires BatchReachable(db) && at >= 0 && InFlightBy(db, batchId, at) && !Blank(category)
    ensures Reachable(db) && Finishes(db, batchId, category, at) && Postpones(db, batchId, category, at, at)
  {
    hide Inv, Coupled, BatchReachable, Reachable, Blank, FailBatchFinally, RowsHeld;
    BatchReachableIsReachable(db);
    BatchRunsCoupled(db);
    FinalFailureExact(db, batchId, false, category, at);
    FinalDecides(db, batchId, false, category, at);
  }

  /** The exception is reachable in all three: an error does not always mean
      that nothing changed. */
  lemma ErrorAfterCommitHappens(identity: Identity, id: TransactionId, envelope: Envelope, batchId: BatchId,
                                category: string, at: I64)
    requires at >= 0 && identity.createdAt <= at && !Blank(category)
    ensures exists db :: BatchReachable(db) && ErrsYetCommits(db, FailBatchFinally(db, batchId, false, category, at))
    ensures exists db :: BatchReachable(db) && ErrsYetCommits(db, FailBatchRetryably(db, batchId, category, at, at))
    ensures exists db :: BatchReachable(db) && ErrsYetCommits(db, SubmitBatch(db, batchId, at))
  {
    hide BatchReachable, Reachable, FailBatchFinally, FailBatchRetryably, SubmitBatch, Blank, Finishes, Postpones,
         Submits, Inv, Coupled;
    var first := FirstBatchReachable(identity, id, envelope, batchId, at);
    var db := ManyAttempts(first, batchId, at, U32_MAX);
    InFlightCommits(db, batchId, category, at);
    ErrorAfterCommitExact(db, batchId, false, category, at, at);
    var ready := RecoverBatches(db, at).db;
    Extend(db, DoRecoverBatches(at));
    BatchReachableIsReachable(ready);
    BatchRunsCoupled(ready);
    SubmitExact(ready, batchId, at);
    SubmitDecides(ready, batchId, at);
  }

  // ---- An acknowledgement stored before a restart -----------------------

  /** An acknowledgement that accepts every entry of a batch. */
  function AcceptAll(reader: ReaderId, batchId: BatchId, b: Batch, receivedAt: int): Acknowledgement {
    Acknowledgement(reader, batchId, b.protocol, b.first, b.last, receivedAt, AcceptLines(b.entries))
  }

  function AcceptLines(entries: seq<EntryRow>): (lines: seq<AckLine>)
    ensures |lines| == |entries|
    ensures forall k :: 0 <= k < |lines| ==>
      lines[k] == AckLine(entries[k].transactionId, entries[k].sequence, Accepted)
  {
    seq(|entries|, k requires 0 <= k < |entries| => AckLine(entries[k].transactionId, entries[k].sequence, Accepted))
  }

  lemma AcceptAllFits(db: Database, batchId: BatchId, receivedAt: int)
    requires Inv(db) && batchId in db.batches && receivedAt >= 0
    ensures var a := AcceptAll(db.identity.readerId, batchId, db.batches[batchId], receivedAt);
      Constructible(a) && Matches(a, db.batches[batchId])
  {
    hide Inv, QueueOk, EntryOk;
    BatchShape(db, batchId);
    var b := db.batches[batchId];
    EntryIdsDistinct(db.queue, b.entries);
    assert b.first <= b.last by {
      if |b.entries| > 1 {
        assert b.entries[0].sequence < b.entries[|b.entries| - 1].sequence;
      }
    }
    var lines := AcceptLines(b.entries);
    forall i, j | 0 <= i < j < |lines|
      ensures lines[i].transactionId != lines[j].transactionId && lines[i].sequence != lines[j].sequence
    {
      assert b.entries[i].sequence < b.entries[j].sequence;
    }
  }

  /** An acknowledgement could be applied, but no longer after recovery. */
  ghost predicate Delayed(db: Database, batchId: BatchId, at: int) {
    && batchId in db.acks && db.acks[batchId].appliedAt.None?
    && ApplyAck(db, batchId, at).result.Ok?
    && ApplyAck(RecoverBatches(db, at).db, batchId, at).result.Err?
  }

  lemma StoredAccepting(db: Database, batchId: BatchId, at: I64) returns (later: Database)
    requires BatchReachable(db) && InFlightBy(db, batchId, at) && at >= 0
    requires batchId !in db.acks && db.batches[batchId].attempts <= U32_MAX
    ensures BatchReachable(later) && later.batches == db.batches
    ensures batchId in later.acks && later.acks[batchId].appliedAt.None? && later.acks[batchId].payload.receivedAt == at
  {
    hide Inv, Coupled, BatchReachable, Matches, Constructible, AcceptLines, MatchError, BatchDecodes, StoredLines;
    BatchRunsCoupled(db);
    var a := AcceptAll(db.identity.readerId, batchId, db.batches[batchId], at);
    AcceptAllFits(db, batchId, at);
    LoadBatchExact(db, batchId);
    MatchErrorExact(a, db.batches[batchId]);
    Extend(db, DoStoreAck(a));
    later := StoreAck(db, a).db;
  }

  /** Such a state is reached: a first batch submitted once, acknowledged, and
      interrupted before the acknowledgement was applied. */
  lemma RestartDelayHappens(identity: Identity, id: TransactionId, envelope: Envelope, batchId: BatchId, at: I64)
    requires at >= 0 && identity.createdAt <= at
    ensures exists db :: BatchReachable(db) && Delayed(db, batchId, at)
  {
    hide Inv, Coupled, BatchReachable, ApplyAck, SubmitBatch, RecoverBatches, LoadBatch;
    var first := FirstBatchReachable(identity, id, envelope, batchId, at);
    BatchRunsCoupled(first);
    SubmitCommits(first, batchId, at);
    Extend(first, DoSubmitBatch(batchId, at));
    var db := StoredAccepting(SubmitBatch(first, batchId, at).db, batchId, at);
    ApplyExact(db, batchId, at);
    RestartDelaysApplication(db, batchId, at, at, at);
  }

  // ---- Oversize batches -------------------------------------------------

  function Numeral(k: nat): TransactionId
    requires k <= I64_MAX
  {
    TransactionId(seq(k, _ => 0 as Byte))
  }

  function Enqueues(n: nat, envelope: Envelope, at: int): (ops: seq<Operation>)
    requires n <= I64_MAX
    ensures |ops| == n && Sane(ops) && BatchLevel(ops)
  {
    if n == 0 then [] else Enqueues(n - 1, envelope, at) + [DoEnqueue(Draft(Numeral(n), envelope, at))]
  }

  /** A queue of n pending rows and nothing else. */
  ghost predicate Filled(db: Database, n: nat, at: int)
    requires n <= I64_MAX
  {
    && db.batches == map[] && |db.queue| == n && db.nextSequence == n + 1
    && forall i :: 0 <= i < n ==>
         && db.queue[i].id == Numeral(i + 1) && db.queue[i].state.Pending?
         && db.queue[i].sequence == i + 1 && db.queue[i].updatedAt == at
  }

  lemma NotPresent(db: Database, n: nat, at: int)
    requires n < I64_MAX && Filled(db, n, at)
    ensures !Present(db.queue, Numeral(n + 1))
  {
    forall i | 0 <= i < |db.queue| ensures db.queue[i].id != Numeral(n + 1) {
      assert |Numeral(i + 1).text| == i + 1 && |Numeral(n + 1).text| == n + 1;
    }
  }

  lemma {:induction false} EnqueuesFill(identity: Identity, n: nat, envelope: Envelope, at: int)
    requires n < I64_MAX && at >= 0 && identity.createdAt <= at
    ensures var db := Run(Bound(identity), Enqueues(n, envelope, at)); db.identity == identity && Filled(db, n, at)
  {
    if n > 0 {
      EnqueuesFill(identity, n - 1, envelope, at);
      var ops, rest := Enqueues(n, envelope, at), Enqueues(n - 1, envelope, at);
      assert ops[..|ops| - 1] == rest;
      hide Numeral, Run, Filled;
      RunLast(Bound(identity), ops);
      OneMore(Run(Bound(identity), rest), n, envelope, at);
    }
  }

  lemma OneMore(db: Database, n: nat, envelope: Envelope, at: int)
    requires 1 <= n < I64_MAX && at >= 0 && db.identity.createdAt <= at && Filled(db, n - 1, at)
    ensures var db' := Enqueue(db, Draft(Numeral(n), envelope, at)).db;
      db'.identity == db.identity && Filled(db', n, at)
  {
    NotPresent(db, n - 1, at);
    hide Numeral, Present;
  }

  lemma {:induction false} AllPendingEligible(queue: seq<Row>, at: int)
    requires forall i :: 0 <= i < |queue| ==> queue[i].state.Pending?
    ensures Eligible(queue, map[], at) == queue
  {
    if queue != [] {
      AllPendingEligible(queue[..|queue| - 1], at);
      assert queue == queue[..|queue| - 1] + [queue[|queue| - 1]];
    }
  }

  lemma FilledRows(db: Database, n: nat, at: int)
    requires n <= I64_MAX && Filled(db, n, at)
    ensures Ascending(db.queue) && db.batches == map[] && |db.queue| == n
    ensures forall i :: 0 <= i < |db.queue| ==> db.queue[i].state.Pending? && db.queue[i].updatedAt <= at
  {
    hide Numeral;
  }

  lemma AllChosen(db: Database, n: nat, at: int)
    requires 1 <= n < I64_MAX && Filled(db, n, at)
    ensures Candidates(db, at, n) == db.queue && FirstBlocked(db.queue, at).None?
  {
    hide Filled, Eligible, InSequenceOrder, FirstBlocked, Ascending;
    FilledRows(db, n, at);
    AllPendingEligible(db.queue, at);
    SortedFixed(db.queue);
    NothingBlocked(db.queue, at);
  }

  /** Batches of every size can be created: so also batches that no run can
      ever transport. */
  lemma AnyBatchSize(identity: Identity, n: nat, envelope: Envelope, batchId: BatchId, at: int)
    requires 1 <= n < I64_MAX && at >= 0 && identity.createdAt <= at
    ensures var ops := Enqueues(n, envelope, at) + [DoCreateBatch(batchId, CURRENT_VERSION, at, n)];
      var db := Run(Bound(identity), ops);
      && Reachable(db) && batchId in db.batches && |db.batches[batchId].entries| == n
      && (n > Protocol.MAX_ENTRIES ==> forall more :: Sane(more) ==> !Transportable(Run(db, more), batchId))
  {
    hide Filled, Candidates, FirstBlocked, Update, ForEntries, Transportable, Reachable;
    var fill := Enqueues(n, envelope, at);
    var ops := fill + [DoCreateBatch(batchId, CURRENT_VERSION, at, n)];
    assert ops[..|ops| - 1] == fill;
    EnqueuesFill(identity, n, envelope, at);
    var full, db := Run(Bound(identity), fill), Run(Bound(identity), ops);
    hide Enqueues, Run;
    AllChosen(full, n, at);
    assert full.batches == map[] && |full.queue| == n by { FilledRows(full, n, at); }
    assert db == CreateBatch(full, batchId, CURRENT_VERSION, at, n).db by { RunLast(Bound(identity), ops); }
    RunIsReachable(identity, ops);
    forall more | n > Protocol.MAX_ENTRIES && Sane(more) ensures !Transportable(Run(db, more), batchId) {
      OversizeNeverTransportable(db, batchId, more);
    }
  }

  lemma RunLast(db: Database, ops: seq<Operation>)
    requires ops != []
    ensures Run(db, ops) == Step(Run(db, ops[..|ops| - 1]), ops[|ops| - 1])
  {
    hide Step;
  }
}
