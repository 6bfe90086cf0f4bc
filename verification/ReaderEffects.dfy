/** What each durable operation does, field by field: when it succeeds, what
    every column holds afterwards, what stays as it was, and what each error
    means. Nothing here is stated through the operations' own guards. */
module ReaderEffects {
  import opened Basics
  import opened Texts
  import opened ReaderTables
  import opened ReaderAcknowledgement
  import opened ReaderSteps
  import opened ReaderInvariant
  import opened ReaderPreservation
  import opened ReaderRuns
  import opened ReaderCoupling
  import opened ReaderDecisions
  import opened ReaderOutcomes

  // ---- Vocabulary -------------------------------------------------------

  /** Never tried, or retryable with its retry time reached. */
  predicate Waiting(row: Row, at: int) {
    row.state == Pending || (row.state == RetryableFailure && (row.retryAt == None || row.retryAt.value <= at))
  }

  predicate Flying(row: Row, at: int) {
    row.state == InFlight && row.updatedAt <= at
  }

  predicate Listed(entries: seq<EntryRow>, id: TransactionId) {
    exists k :: 0 <= k < |entries| && entries[k].transactionId == id
  }

  /** Some prepared, in-flight or retryable batch holds the transaction. */
  predicate InOpenBatch(batches: map<BatchId, Batch>, id: TransactionId) {
    exists b :: b in batches && batches[b].state in {Prepared, Submitted, Retryable} && Listed(batches[b].entries, id)
  }

  lemma OpenIsActive(batches: map<BatchId, Batch>, id: TransactionId)
    ensures InOpenBatch(batches, id) <==> InActiveBatch(batches, id)
  {
    forall b | b in batches ensures Listed(batches[b].entries, id) <==> Names(batches[b].entries, id) {
    }
    if InOpenBatch(batches, id) {
      var b :| b in batches && batches[b].state in {Prepared, Submitted, Retryable} && Listed(batches[b].entries, id);
      assert batches[b].state.Active() && Names(batches[b].entries, id);
    }
    if InActiveBatch(batches, id) {
      var b :| b in batches && batches[b].state.Active() && Names(batches[b].entries, id);
      assert Listed(batches[b].entries, id);
    }
  }

  /** The row went into flight at this time, with so many more attempts. */
  predicate Taken(r: Row, s: Row, at: int, more: int) {
    s == r.(state := InFlight, attempts := r.attempts + more, retryAt := None, failure := None, updatedAt := at)
  }

  /** The row records a failure to be retried. */
  predicate SetBack(r: Row, s: Row, category: string, retryAt: int, at: int) {
    s == r.(state := RetryableFailure, retryAt := Some(retryAt), failure := Some(category), updatedAt := at)
  }

  /** The row records its final failure, or the need for review. */
  predicate GivenUp(r: Row, s: Row, review: bool, category: string, at: int) {
    && s.state == (if review then ManualReview else PermanentFailure)
    && s.failure == Some(category) && s.retryAt == None && s.updatedAt == at
    && s.attempts == r.attempts && SameRecord(r, s)
  }

  // ---- Enqueue ----------------------------------------------------------

  /** The new row carries the draft under the next sequence. */
  predicate Queued(row: Row, draft: Draft, sequence: int) {
    && row.id == draft.id && row.envelope == draft.envelope && row.sequence == sequence
    && row.state == Pending && row.attempts == 0 && row.retryAt == None && row.failure == None
    && row.createdAt == draft.createdAt && row.updatedAt == draft.createdAt
  }

  lemma EnqueueEffect(db: Database, draft: Draft)
    ensures var o := Enqueue(db, draft);
      && (o.result.Ok? <==>
            && draft.createdAt >= 0 && draft.createdAt >= db.identity.createdAt && db.nextSequence < I64_MAX
            && forall i :: 0 <= i < |db.queue| ==> db.queue[i].id != draft.id)
      && (o.result.Ok? ==>
            && Queued(o.result.value, draft, db.nextSequence)
            && o.db == db.(nextSequence := db.nextSequence + 1, queue := db.queue + [o.result.value]))
      && (o.result.Err? ==> o.db == db && match o.result.error
            case NegativeTime => draft.createdAt < 0
            case SequenceUnavailable => db.nextSequence >= I64_MAX
            case ConstraintViolation => draft.createdAt < db.identity.createdAt
            case WriteConflict => exists i :: 0 <= i < |db.queue| && db.queue[i].id == draft.id
            case _ => false)
  {
  }

  // ---- Single rows ------------------------------------------------------

  /** Exactly the row with this identity changed. */
  predicate OnlyRow(q: seq<Row>, r: seq<Row>, id: TransactionId) {
    |r| == |q| && forall i :: 0 <= i < |q| && q[i].id != id ==> r[i] == q[i]
  }

  /** A transaction is taken into flight exactly when its row waits and was
      not updated later: in particular never before its retry time. */
  lemma MarkEffect(db: Database, id: TransactionId, at: int)
    requires Inv(db)
    ensures var o := MarkTransactionInFlight(db, id, at);
      && (o.result.Ok? <==> at >= 0 && exists i ::
            0 <= i < |db.queue| && db.queue[i].id == id && Waiting(db.queue[i], at) && db.queue[i].updatedAt <= at)
      && (o.result.Ok? ==>
            && o.db == db.(queue := o.db.queue) && OnlyRow(db.queue, o.db.queue, id)
            && forall i :: 0 <= i < |db.queue| && db.queue[i].id == id ==> Taken(db.queue[i], o.db.queue[i], at, 1))
      && (o.result.Err? ==> o.db == db && match o.result.error
            case NegativeTime => at < 0
            case InvalidTransition(x) => x == id
            case _ => false)
  {
    hide Inv, UpdateOne;
    var c := Attempt(at);
    TransitionExact(db, id, c);
    UpdateOneError(db, id, c);
    forall i | 0 <= i < |db.queue|
      ensures Guard(db.queue[i], c) <==> Waiting(db.queue[i], at) && db.queue[i].updatedAt <= at
    {
    }
    PermittedMeaning(db.queue, id, c);
  }

  lemma UpdateOneError(db: Database, id: TransactionId, c: Change)
    ensures UpdateOne(db, id, c).result.Err? ==> UpdateOne(db, id, c).result.error == InvalidTransition(id)
  {
    hide Hits;
  }

  lemma PermittedMeaning(queue: seq<Row>, id: TransactionId, c: Change)
    ensures Permitted(queue, id, c) <==> exists i :: 0 <= i < |queue| && queue[i].id == id && Guard(queue[i], c)
  {
    hide Guard;
  }

  lemma FlyingGuard(row: Row, c: Change)
    requires c.Resubmit? || c.Resolve? || c.Retry? || c.Finish?
    ensures Guard(row, c) <==> Flying(row, c.at)
  {
  }

  lemma RecordRetryableEffect(db: Database, id: TransactionId, category: string, at: int, retryAt: int)
    requires Inv(db)
    ensures var o := RecordRetryable(db, id, category, at, retryAt);
      && (o.result.Ok? <==> 0 <= at <= retryAt && Trim(category) != [] && exists i ::
            0 <= i < |db.queue| && db.queue[i].id == id && Flying(db.queue[i], at))
      && (o.result.Ok? ==>
            && o.db == db.(queue := o.db.queue) && OnlyRow(db.queue, o.db.queue, id)
            && forall i :: 0 <= i < |db.queue| && db.queue[i].id == id ==>
                 SetBack(db.queue[i], o.db.queue[i], Trim(category), retryAt, at))
      && (o.result.Err? ==> o.db == db && match o.result.error
            case NegativeTime => at < 0 || retryAt < 0
            case RetryBeforeUpdate => retryAt < at
            case EmptyCategory => Trim(category) == []
            case InvalidTransition(x) => x == id
            case _ => false)
  {
    hide Inv, UpdateOne, Trim;
    var c := Retry(Trim(category), retryAt, at);
    TransitionExact(db, id, c);
    UpdateOneError(db, id, c);
    forall i | 0 <= i < |db.queue| ensures Guard(db.queue[i], c) <==> Flying(db.queue[i], at) {
      FlyingGuard(db.queue[i], c);
    }
    PermittedMeaning(db.queue, id, c);
  }

  lemma RecordFinalEffect(db: Database, id: TransactionId, review: bool, category: string, at: int)
    requires Inv(db)
    ensures var o := RecordFinal(db, id, review, category, at);
      && (o.result.Ok? <==> at >= 0 && Trim(category) != [] && exists i ::
            0 <= i < |db.queue| && db.queue[i].id == id && Flying(db.queue[i], at))
      && (o.result.Ok? ==>
            && o.db == db.(queue := o.db.queue) && OnlyRow(db.queue, o.db.queue, id)
            && forall i :: 0 <= i < |db.queue| && db.queue[i].id == id ==>
                 GivenUp(db.queue[i], o.db.queue[i], review, Trim(category), at))
      && (o.result.Err? ==> o.db == db && match o.result.error
            case NegativeTime => at < 0
            case EmptyCategory => Trim(category) == []
            case InvalidTransition(x) => x == id
            case _ => false)
  {
    hide Inv, UpdateOne, Trim;
    var c := Finish(review, Trim(category), at);
    TransitionExact(db, id, c);
    UpdateOneError(db, id, c);
    forall i | 0 <= i < |db.queue| ensures Guard(db.queue[i], c) <==> Flying(db.queue[i], at) {
      FlyingGuard(db.queue[i], c);
    }
    PermittedMeaning(db.queue, id, c);
  }

  // ---- Recovery ---------------------------------------------------------

  /** Interrupted, and in no open batch. */
  predicate LeftBehind(db: Database, row: Row, at: int) {
    Flying(row, at) && !InOpenBatch(db.batches, row.id)
  }

  function LeftBehindAt(db: Database, rows: seq<Row>, at: int): set<nat> {
    set i: nat | i < |rows| && LeftBehind(db, rows[i], at)
  }

  lemma LeftBehindGrows(db: Database, rows: seq<Row>, at: int)
    requires rows != []
    ensures var n := |rows| - 1; var before := LeftBehindAt(db, rows[..n], at);
      && n !in before
      && LeftBehindAt(db, rows, at) == before + if LeftBehind(db, rows[n], at) then {n} else {}
  {
    hide LeftBehind;
    var n := |rows| - 1;
    forall i: nat | i < n ensures rows[..n][i] == rows[i] {
    }
  }

  lemma StrandedMeaning(db: Database, row: Row, at: int)
    ensures Stranded(db, row, at) <==> LeftBehind(db, row, at)
  {
    hide InOpenBatch, InActiveBatch;
    OpenIsActive(db.batches, row.id);
  }

  lemma {:induction false} StrandedSet(db: Database, rows: seq<Row>, at: int)
    ensures StrandedCount(db, rows, at) == |LeftBehindAt(db, rows, at)|
  {
    hide Stranded, LeftBehind;
    if rows == [] {
      assert forall i :: i !in LeftBehindAt(db, rows, at);
      assert LeftBehindAt(db, rows, at) == {};
    } else {
      hide LeftBehindAt;
      var n := |rows| - 1;
      StrandedSet(db, rows[..n], at);
      StrandedMeaning(db, rows[n], at);
      LeftBehindGrows(db, rows, at);
    }
  }

  /** Queue recovery makes exactly the interrupted rows outside open batches
      retryable at once, and returns their number. */
  lemma RecoverQueueEffect(db: Database, at: int)
    ensures at < 0 ==> RecoverQueue(db, at) == Outcome(db, Err(NegativeTime))
    ensures at >= 0 ==> var o := RecoverQueue(db, at);
      && o.result == Ok(|LeftBehindAt(db, db.queue, at)|)
      && o.db == db.(queue := o.db.queue) && |o.db.queue| == |db.queue|
      && forall i :: 0 <= i < |db.queue| ==>
           if LeftBehind(db, db.queue[i], at)
           then SetBack(db.queue[i], o.db.queue[i], "reader_restart", at, at)
           else o.db.queue[i] == db.queue[i]
  {
    hide Stranded, LeftBehind, Hits, StrandedCount, LeftBehindAt;
    if at >= 0 {
      RecoveryExact(db, at);
      StrandedSet(db, db.queue, at);
      forall i | 0 <= i < |db.queue| ensures Stranded(db, db.queue[i], at) <==> LeftBehind(db, db.queue[i], at) {
        StrandedMeaning(db, db.queue[i], at);
      }
      OnlyQueueRecovers(db, at);
    }
  }

  lemma OnlyQueueRecovers(db: Database, at: int)
    ensures var o := RecoverQueue(db, at); o.db == db.(queue := o.db.queue)
  {
    hide Update, Hits;
  }

  /** Batch recovery makes exactly the interrupted batches retryable at once,
      and returns their number. */
  lemma RecoverBatchesEffect(db: Database, at: int)
    ensures at < 0 ==> RecoverBatches(db, at) == Outcome(db, Err(NegativeTime))
    ensures at >= 0 ==> var o := RecoverBatches(db, at);
      && o.result == Ok(|set b | b in db.batches && db.batches[b].state == Submitted && db.batches[b].updatedAt <= at|)
      && o.db == db.(batches := o.db.batches) && o.db.batches.Keys == db.batches.Keys
      && forall b :: b in db.batches ==>
           o.db.batches[b] ==
             if db.batches[b].state == Submitted && db.batches[b].updatedAt <= at
             then db.batches[b].(state := Retryable, retryAt := Some(at), failure := Some("reader_restart"),
                                 updatedAt := at)
             else db.batches[b]
  {
    if at >= 0 {
      assert (set b | b in db.batches && Interrupted(db.batches[b], at))
          == (set b | b in db.batches && db.batches[b].state == Submitted && db.batches[b].updatedAt <= at);
    }
  }

  // ---- Batch creation ---------------------------------------------------

  /** The row waits and no open batch holds it. */
  predicate Free(db: Database, row: Row, at: int) {
    Waiting(row, at) && !InOpenBatch(db.batches, row.id)
  }

  /** A new batch as it is inserted. */
  predicate Fresh(b: Batch, protocol: int, at: int) {
    && b.protocol == protocol && b.state == Prepared && b.attempts == 0
    && b.submittedAt == None && b.retryAt == None && b.failure == None && b.createdAt == at && b.updatedAt == at
    && b.entries != [] && b.first == b.entries[0].sequence && b.last == b.entries[|b.entries| - 1].sequence
    && forall k :: 0 <= k < |b.entries| ==> b.entries[k].position == k
  }

  /** Entry k was free when it was chosen. */
  predicate ChosenFree(db: Database, e: EntryRow, at: int) {
    && 1 <= e.sequence <= |db.queue| && db.queue[e.sequence - 1].id == e.transactionId
    && Free(db, db.queue[e.sequence - 1], at) && db.queue[e.sequence - 1].updatedAt <= at
  }

  /** A row that is passed over is not free, or comes after a full batch. */
  predicate NotSkipped(db: Database, entries: seq<EntryRow>, at: int, limit: nat, row: Row) {
    Free(db, row, at) && !Listed(entries, row.id) ==>
      |entries| == limit && forall k :: 0 <= k < |entries| ==> entries[k].sequence < row.sequence
  }

  lemma SelectableIsFree(db: Database, at: int, i: nat)
    requires QueueOk(db.queue) && i < |db.queue|
    ensures Selectable(db.queue, db.batches, at, db.queue[i]) <==> Free(db, db.queue[i], at)
  {
    hide InActiveBatch, InOpenBatch, RowOk;
    OpenIsActive(db.batches, db.queue[i].id);
  }

  /** The chosen rows, in order, are exactly the first free ones. */
  lemma ChosenAreFirst(db: Database, at: int, limit: nat)
    requires Inv(db)
    ensures var chosen := Candidates(db, at, limit);
      && |chosen| <= limit && Ascending(chosen)
      && (forall k :: 0 <= k < |chosen| ==>
            && 1 <= chosen[k].sequence <= |db.queue| && db.queue[chosen[k].sequence - 1] == chosen[k]
            && Free(db, chosen[k], at))
      && (forall i :: 0 <= i < |db.queue| && Free(db, db.queue[i], at) ==> ChosenOrLater(chosen, limit, db.queue[i]))
  {
    InvQueue(db);
    hide Inv, QueueOk, Free, Candidates, Selectable, Eligible, ChosenOrLater;
    QueueNumbered(db.queue);
    CandidatesExact(db, at, limit);
    EligibleExact(db.queue, db.batches, at);
    var chosen := Candidates(db, at, limit);
    forall k | 0 <= k < |chosen|
      ensures 1 <= chosen[k].sequence <= |db.queue| && db.queue[chosen[k].sequence - 1] == chosen[k]
      ensures Free(db, chosen[k], at)
    {
      SelectablePlace(db, at, chosen[k]);
      SelectableIsFree(db, at, chosen[k].sequence - 1);
    }
    forall i | 0 <= i < |db.queue| && Free(db, db.queue[i], at) ensures ChosenOrLater(chosen, limit, db.queue[i]) {
      SelectableIsFree(db, at, i);
      TakePrefix(Eligible(db.queue, db.batches, at), limit, db.queue[i]);
    }
  }

  lemma QueueNumbered(queue: seq<Row>)
    requires QueueOk(queue)
    ensures Numbered(queue)
  {
    hide RowOk;
  }

  lemma SelectablePlace(db: Database, at: int, row: Row)
    requires Selectable(db.queue, db.batches, at, row)
    ensures 1 <= row.sequence <= |db.queue| && db.queue[row.sequence - 1] == row
  {
    hide Ready, InActiveBatch;
  }

  /** Creating a batch: it takes the first free rows in sequence order, up to
      the limit, none before its retry time, and skips none. */
  lemma CreateEffect(db: Database, batchId: BatchId, protocol: Version, at: int, limit: nat)
    requires Inv(db) && CreateBatch(db, batchId, protocol, at, limit).result.Ok?
    ensures var o := CreateBatch(db, batchId, protocol, at, limit); var b := o.result.value;
      && at >= 0 && 1 <= limit <= I64_MAX && batchId !in db.batches
      && Fresh(b, protocol, at) && |b.entries| <= limit
      && o.db == db.(queue := o.db.queue, batches := db.batches[batchId := b]) && |o.db.queue| == |db.queue|
      && (forall k :: 0 <= k < |b.entries| ==> ChosenFree(db, b.entries[k], at))
      && (forall j, k :: 0 <= j < k < |b.entries| ==> b.entries[j].sequence < b.entries[k].sequence)
      && (forall i :: 0 <= i < |db.queue| ==> NotSkipped(db, b.entries, at, limit, db.queue[i]))
      && (forall i :: 0 <= i < |db.queue| ==>
            if Listed(b.entries, db.queue[i].id) then Taken(db.queue[i], o.db.queue[i], at, 0)
            else o.db.queue[i] == db.queue[i])
  {
    hide Inv, Candidates, FirstBlocked, Names, Ready, Free, NewBatch, Fresh, ChosenFree, Listed, NotSkipped,
         CreateBatch, Ascending, ChosenOrLater, Taken;
    var o := CreateBatch(db, batchId, protocol, at, limit);
    var chosen := Candidates(db, at, limit);
    CreateShape(db, batchId, protocol, at, limit);
    FreshNewBatch(protocol, chosen, at);
    ChosenAreFirst(db, at, limit);
    EntriesFree(db, chosen, at);
    AscendingEntries(chosen);
    ReservationExact(db, batchId, protocol, at, limit);
    var entries := o.result.value.entries;
    forall i | 0 <= i < |db.queue|
      ensures if Listed(entries, db.queue[i].id) then Taken(db.queue[i], o.db.queue[i], at, 0)
              else o.db.queue[i] == db.queue[i]
    {
      ListedNames(entries, db.queue[i].id);
      if Listed(entries, db.queue[i].id) {
        ReservedIsTaken(db.queue[i], o.db.queue[i], at);
      }
    }
    forall i | 0 <= i < |db.queue| ensures NotSkipped(db, entries, at, limit, db.queue[i]) {
      PassedOver(db, chosen, at, limit, db.queue[i]);
    }
  }

  lemma ReservedIsTaken(r: Row, s: Row, at: int)
    requires Records(r, s, Reserve(at))
    ensures Taken(r, s, at, 0)
  {
  }

  lemma PassedOver(db: Database, chosen: seq<Row>, at: int, limit: nat, row: Row)
    requires Free(db, row, at) ==> ChosenOrLater(chosen, limit, row)
    ensures NotSkipped(db, EntryRows(chosen), at, limit, row)
  {
    hide Free, Listed, ChosenOrLater;
    if Free(db, row, at) {
      ChosenOrSkipped(chosen, limit, row);
    }
  }

  lemma FreshNewBatch(protocol: Version, chosen: seq<Row>, at: int)
    requires chosen != []
    ensures Fresh(NewBatch(protocol, chosen, at), protocol, at)
    ensures NewBatch(protocol, chosen, at).entries == EntryRows(chosen)
  {
  }

  lemma EntriesFree(db: Database, chosen: seq<Row>, at: int)
    requires FirstBlocked(chosen, at).None?
    requires forall k :: 0 <= k < |chosen| ==>
      && 1 <= chosen[k].sequence <= |db.queue| && db.queue[chosen[k].sequence - 1] == chosen[k]
      && Free(db, chosen[k], at)
    ensures forall k :: 0 <= k < |chosen| ==> ChosenFree(db, EntryRows(chosen)[k], at)
  {
    hide FirstBlocked, Free;
    NothingBlocked(chosen, at);
  }

  /** A created batch is made of the candidates, none of them blocked. */
  lemma CreateShape(db: Database, batchId: BatchId, protocol: Version, at: int, limit: nat)
    requires CreateBatch(db, batchId, protocol, at, limit).result.Ok?
    ensures var o := CreateBatch(db, batchId, protocol, at, limit); var chosen := Candidates(db, at, limit);
      && at >= 0 && 1 <= limit <= I64_MAX && batchId !in db.batches
      && chosen != [] && FirstBlocked(chosen, at).None?
      && o.result.value == NewBatch(protocol, chosen, at)
      && o.db == db.(queue := o.db.queue, batches := db.batches[batchId := o.result.value])
  {
    hide Candidates, FirstBlocked, ForEntries, Update, NewBatch;
  }

  lemma ListedNames(entries: seq<EntryRow>, id: TransactionId)
    ensures Listed(entries, id) <==> Names(entries, id)
  {
  }

  lemma AscendingEntries(chosen: seq<Row>)
    requires Ascending(chosen)
    ensures forall j, k :: 0 <= j < k < |chosen| ==> chosen[j].sequence < chosen[k].sequence
  {
  }

  lemma ChosenOrSkipped(chosen: seq<Row>, limit: nat, row: Row)
    requires ChosenOrLater(chosen, limit, row)
    ensures Listed(EntryRows(chosen), row.id)
            || (|chosen| == limit && forall k :: 0 <= k < |chosen| ==> chosen[k].sequence < row.sequence)
  {
    if row in chosen {
      var k :| 0 <= k < |chosen| && chosen[k] == row;
      assert EntryRows(chosen)[k].transactionId == row.id;
    }
  }

  /** Creation fails for these reasons only, and then changes nothing. */
  lemma CreateErrors(db: Database, batchId: BatchId, protocol: Version, at: int, limit: nat)
    requires Inv(db) && CreateBatch(db, batchId, protocol, at, limit).result.Err?
    ensures var o := CreateBatch(db, batchId, protocol, at, limit);
      o.db == db && match o.result.error
        case NegativeTime => at < 0
        case ZeroLimit => limit == 0
        case LimitTooLarge => limit > I64_MAX
        case NoEligibleTransactions => forall i :: 0 <= i < |db.queue| ==> !Free(db, db.queue[i], at)
        case ConstraintViolation => batchId in db.batches
        case QueueStateConflict(id) =>
          exists i :: 0 <= i < |db.queue| && db.queue[i].id == id && db.queue[i].updatedAt > at
                      && Free(db, db.queue[i], at)
        case _ => false
  {
    hide Inv, Candidates, FirstBlocked, Free, ForEntries, Update;
    var chosen := Candidates(db, at, limit);
    ChosenAreFirst(db, at, limit);
    BlockedIsLate(chosen, at);
    if FirstBlocked(chosen, at).Some? {
      var k :| 0 <= k < |chosen| && chosen[k].id == FirstBlocked(chosen, at).value && chosen[k].updatedAt > at;
      assert db.queue[chosen[k].sequence - 1] == chosen[k];
    }
  }

  lemma {:induction false} BlockedIsLate(rows: seq<Row>, at: int)
    ensures FirstBlocked(rows, at).Some? ==>
      exists k :: 0 <= k < |rows| && rows[k].id == FirstBlocked(rows, at).value && rows[k].updatedAt > at
  {
    if rows != [] {
      if rows[0].updatedAt <= at {
        BlockedIsLate(rows[1..], at);
        if FirstBlocked(rows, at).Some? {
          var rest := rows[1..];
          var k :| 0 <= k < |rest| && rest[k].id == FirstBlocked(rest, at).value && rest[k].updatedAt > at;
          assert rows[k + 1] == rows[1..][k];
        }
      }
    }
  }

  lemma ListedWaits(db: Database, entries: seq<EntryRow>, at: int, i: nat)
    requires QueueOk(db.queue) && i < |db.queue| && Listed(entries, db.queue[i].id)
    requires forall k :: 0 <= k < |entries| ==> ChosenFree(db, entries[k], at)
    ensures Waiting(db.queue[i], at)
  {
    hide RowOk, InOpenBatch, Waiting;
    var k :| 0 <= k < |entries| && entries[k].transactionId == db.queue[i].id;
    assert ChosenFree(db, entries[k], at);
    SameIdSameSequence(db.queue, entries[k], i);
  }

  /** A retryable row whose retry time has not come is left alone by batch
      creation ... */
  lemma NoCreationBeforeRetry(db: Database, i: nat, b: BatchId, protocol: Version, at: int, limit: nat)
    requires Inv(db) && i < |db.queue| && db.queue[i].state == RetryableFailure
    requires db.queue[i].retryAt.Some? && at < db.queue[i].retryAt.value
    ensures var queue := CreateBatch(db, b, protocol, at, limit).db.queue;
      |queue| == |db.queue| && queue[i] == db.queue[i]
  {
    hide Inv, CreateBatch, QueueOk, Waiting, ChosenFree, Listed;
    InvQueue(db);
    var o := CreateBatch(db, b, protocol, at, limit);
    if o.result.Ok? {
      CreateEffect(db, b, protocol, at, limit);
      if Listed(o.result.value.entries, db.queue[i].id) {
        ListedWaits(db, o.result.value.entries, at, i);
        EarlyIsNotWaiting(db.queue[i], at);
      }
    } else {
      CreateErrors(db, b, protocol, at, limit);
    }
  }

  lemma EarlyIsNotWaiting(row: Row, at: int)
    requires row.state == RetryableFailure && row.retryAt.Some? && at < row.retryAt.value
    ensures !Waiting(row, at)
  {
  }

  /** ... and by taking a single transaction into flight. */
  lemma NoMarkBeforeRetry(db: Database, i: nat, id: TransactionId, at: int)
    requires Inv(db) && i < |db.queue| && db.queue[i].state == RetryableFailure
    requires db.queue[i].retryAt.Some? && at < db.queue[i].retryAt.value
    ensures var queue := MarkTransactionInFlight(db, id, at).db.queue;
      |queue| == |db.queue| && queue[i] == db.queue[i]
  {
    hide Inv, MarkTransactionInFlight, RowOk;
    InvQueue(db);
    MarkEffect(db, id, at);
  }

  /** After a batch-level run the ready-queue read returns the first waiting
      rows in sequence order, none before its retry time. */
  lemma ReadyReadEffect(db: Database, now: int, limit: nat)
    requires BatchReachable(db)
    ensures match LoadReady(db, now, limit)
      case Ok(rows) =>
        && now >= 0 && limit >= 1 && |rows| <= limit && Ascending(rows)
        && (forall k :: 0 <= k < |rows| ==> rows[k] in db.queue && Waiting(rows[k], now))
        && (forall i :: 0 <= i < |db.queue| && Waiting(db.queue[i], now) ==> ChosenOrLater(rows, limit, db.queue[i]))
      case Err(e) => match e
        case NegativeTime => now < 0
        case ZeroLimit => limit == 0
        case CorruptValue => exists i :: 0 <= i < |db.queue| && db.queue[i].attempts > U32_MAX
        case _ => false
  {
    hide Inv, Coupled, BatchReachable, Candidates, InOpenBatch, ChosenOrLater, ReadyRows, InSequenceOrder, RowDecodes;
    if now >= 0 && limit > 0 {
      SelectionAgrees(db, now, limit);
      BatchRunsCoupled(db);
      ChosenAreFirst(db, now, limit);
      InvQueue(db);
      forall i | 0 <= i < |db.queue| && Waiting(db.queue[i], now) ensures Free(db, db.queue[i], now) {
        ReadyIsFree(db, now, i);
        OpenIsActive(db.batches, db.queue[i].id);
      }
    }
  }

  // ---- Submission and failures of batches -------------------------------

  /** The batch may be sent: never tried, or retryable with its retry time
      reached, and not updated later. */
  predicate Sendable(b: Batch, at: int) {
    && b.updatedAt <= at
    && (b.state == Prepared || (b.state == Retryable && (b.retryAt == None || b.retryAt.value <= at)))
  }

  predicate Aloft(db: Database, batchId: BatchId, at: int) {
    batchId in db.batches && db.batches[batchId].state == Submitted && db.batches[batchId].updatedAt <= at
  }

  /** The rows of all entries are in flight and not updated later. */
  predicate EntriesFly(queue: seq<Row>, entries: seq<EntryRow>, at: int) {
    forall k :: 0 <= k < |entries| ==>
      && 1 <= entries[k].sequence <= |queue| && queue[entries[k].sequence - 1].id == entries[k].transactionId
      && Flying(queue[entries[k].sequence - 1], at)
  }

  lemma FlyIsHeld(queue: seq<Row>, entries: seq<EntryRow>, at: int)
    ensures EntriesFly(queue, entries, at) <==> RowsHeld(queue, entries, at)
  {
  }

  /** Listed rows take the change, the others stay. */
  lemma EntriesChange(queue: seq<Row>, entries: seq<EntryRow>, c: Change)
    requires QueueOk(queue) && EntriesOk(queue, entries) && RowsHeld(queue, entries, c.at) && (c.Resubmit? || c.Finish?)
    ensures var after := Update(queue, ForEntries(entries, c));
      |after| == |queue| && forall i :: 0 <= i < |queue| ==>
        after[i] == if Listed(entries, queue[i].id) then Changed(queue[i], c) else queue[i]
  {
    hide QueueOk, Changed, Held, EntryOk, ForEntries;
    var after := Update(queue, ForEntries(entries, c));
    forall i | 0 <= i < |queue|
      ensures after[i] == if Listed(entries, queue[i].id) then Changed(queue[i], c) else queue[i]
    {
      NamedIffListed(entries, queue[i].id);
      ListedNames(entries, queue[i].id);
      ForEntriesKeys(entries, c);
      if Listed(entries, queue[i].id) {
        HeldRow(queue, entries, c.at, i);
        FlyingGuard(queue[i], c);
        HitForEntries(queue[i], entries, c);
      } else {
        NotHit(queue[i], ForEntries(entries, c));
      }
    }
  }

  lemma HeldRow(queue: seq<Row>, entries: seq<EntryRow>, at: int, i: nat)
    requires QueueOk(queue) && RowsHeld(queue, entries, at) && i < |queue| && Listed(entries, queue[i].id)
    ensures Flying(queue[i], at)
  {
    hide RowOk;
    var k :| 0 <= k < |entries| && entries[k].transactionId == queue[i].id;
    assert EntryOk(queue, entries[k]) && Held(queue, entries[k], at);
    SameIdSameSequence(queue, entries[k], i);
  }

  /** A batch and the rows it lists change; nothing else does. */
  predicate BatchMoved(db: Database, db': Database, batchId: BatchId)
    requires batchId in db.batches
  {
    && batchId in db'.batches && |db'.queue| == |db.queue|
    && db' == db.(queue := db'.queue, batches := db.batches[batchId := db'.batches[batchId]])
    && forall i :: 0 <= i < |db.queue| && !Listed(db.batches[batchId].entries, db.queue[i].id) ==>
         db'.queue[i] == db.queue[i]
  }

  lemma ChangeBatchEffect(db: Database, batchId: BatchId, after: Batch, c: Change)
    requires Inv(db) && batchId in db.batches && (c.Resubmit? || c.Finish?)
    requires EntriesFly(db.queue, db.batches[batchId].entries, c.at)
    ensures var o := ChangeBatch(db, batchId, after, c); var entries := db.batches[batchId].entries;
      && BatchMoved(db, o.db, batchId) && o.db.batches[batchId] == after && o.result == LoadBatch(o.db, batchId)
      && forall i :: 0 <= i < |db.queue| && Listed(entries, db.queue[i].id) ==> o.db.queue[i] == Changed(db.queue[i], c)
  {
    hide Inv, RowsHeld, AllHit, Hits, Update, ForEntries, LoadBatch, QueueOk, EntriesOk, EntriesFly, Changed, Listed;
    var entries := db.batches[batchId].entries;
    BatchRows(db, batchId);
    ForEntriesKeys(entries, c);
    FlyIsHeld(db.queue, entries, c.at);
    HeldIsHit(db.queue, entries, c);
    AllHitFromHits(db.queue, entries, ForEntries(entries, c));
    EntriesChange(db.queue, entries, c);
  }

  lemma ChangeBatchRefused(db: Database, batchId: BatchId, after: Batch, c: Change)
    requires Inv(db) && batchId in db.batches && (c.Resubmit? || c.Finish?)
    requires !EntriesFly(db.queue, db.batches[batchId].entries, c.at)
    ensures var o := ChangeBatch(db, batchId, after, c);
      && o.db == db && o.result.Err? && o.result.error.BatchEntryConflict?
      && o.result.error.expected == |db.batches[batchId].entries| != o.result.error.updated
  {
    hide Inv, RowsHeld, AllHit, Hits, Update, ForEntries, LoadBatch, QueueOk, EntriesOk, EntriesFly;
    var entries := db.batches[batchId].entries;
    BatchRows(db, batchId);
    ForEntriesKeys(entries, c);
    FlyIsHeld(db.queue, entries, c.at);
    HeldIsHit(db.queue, entries, c);
    AllHitFromHits(db.queue, entries, ForEntries(entries, c));
  }

  /** What loading a stored batch returns. */
  function Reload(b: Batch): Result<Batch, ReaderError> {
    if b.attempts <= U32_MAX then Ok(b) else Err(CorruptValue)
  }

  /** Loading gives the batch, unless there is none or its attempt counter
      exceeds 32 bits. */
  lemma LoadEffect(db: Database, batchId: BatchId)
    requires Inv(db)
    ensures LoadBatch(db, batchId)
         == if batchId in db.batches then Reload(db.batches[batchId]) else Err(BatchNotFound)
  {
    LoadBatchExact(db, batchId);
    hide Inv, BatchDecodes;
  }

  /** Submission: the batch and all its rows count one more attempt; the
      first submission time is kept. Before its retry time a batch is left
      alone. */
  lemma SubmitEffect(db: Database, batchId: BatchId, at: I64)
    requires Inv(db)
    ensures var o := SubmitBatch(db, batchId, at);
      if at >= 0 && batchId in db.batches && Sendable(db.batches[batchId], at)
         && EntriesFly(db.queue, db.batches[batchId].entries, at)
      then
        var b := db.batches[batchId];
        && BatchMoved(db, o.db, batchId) && o.result == Reload(o.db.batches[batchId])
        && o.db.batches[batchId] == b.(state := Submitted, attempts := b.attempts + 1, updatedAt := at, retryAt := None,
                                       failure := None,
                                       submittedAt := Some(if b.submittedAt == None then at else b.submittedAt.value))
        && forall i :: 0 <= i < |db.queue| && Listed(b.entries, db.queue[i].id) ==>
             o.db.queue[i] == db.queue[i].(attempts := db.queue[i].attempts + 1, updatedAt := at)
      else o.db == db && o.result.Err? && match o.result.error
        case NegativeTime => at < 0
        case InvalidBatchTransition => batchId !in db.batches || !Sendable(db.batches[batchId], at)
        case BatchEntryConflict(_, _) =>
          batchId in db.batches && !EntriesFly(db.queue, db.batches[batchId].entries, at)
        case _ => false
  {
    hide Inv, Evolves, EntriesFly, Listed, ChangeBatch, LoadBatch, BatchMoved;
    SubmitKeepsInv(db, batchId, at);
    if at >= 0 && batchId in db.batches && Sendable(db.batches[batchId], at) {
      var after := SubmittedBatch(db.batches[batchId], at);
      if EntriesFly(db.queue, db.batches[batchId].entries, at) {
        ChangeBatchEffect(db, batchId, after, Resubmit(at));
        MovedHas(db, SubmitBatch(db, batchId, at).db, batchId);
        LoadEffect(SubmitBatch(db, batchId, at).db, batchId);
      } else {
        ChangeBatchRefused(db, batchId, after, Resubmit(at));
      }
    }
  }

  lemma MovedHas(db: Database, db': Database, batchId: BatchId)
    requires batchId in db.batches && BatchMoved(db, db', batchId)
    ensures batchId in db'.batches && |db'.queue| == |db.queue|
  {
  }

  /** A final failure ends the batch and all its rows alike: failed for good,
      or under review. */
  lemma FinishEffect(db: Database, batchId: BatchId, review: bool, category: string, at: int)
    requires Inv(db)
    ensures var o := FailBatchFinally(db, batchId, review, category, at);
      if at >= 0 && Trim(category) != [] && Aloft(db, batchId, at)
         && EntriesFly(db.queue, db.batches[batchId].entries, at)
      then
        var b := db.batches[batchId];
        && BatchMoved(db, o.db, batchId) && o.result == Reload(o.db.batches[batchId])
        && o.db.batches[batchId] == b.(state := if review then UnderReview else Failed, retryAt := None,
                                       failure := Some(Trim(category)), updatedAt := at)
        && forall i :: 0 <= i < |db.queue| && Listed(b.entries, db.queue[i].id) ==>
             GivenUp(db.queue[i], o.db.queue[i], review, Trim(category), at)
      else o.db == db && o.result.Err? && match o.result.error
        case NegativeTime => at < 0
        case EmptyCategory => Trim(category) == []
        case InvalidBatchTransition => !Aloft(db, batchId, at)
        case BatchEntryConflict(_, _) =>
          batchId in db.batches && !EntriesFly(db.queue, db.batches[batchId].entries, at)
        case _ => false
  {
    hide Inv, Evolves, EntriesFly, Listed, ChangeBatch, LoadBatch, BatchMoved, Trim;
    FailFinallyKeepsInv(db, batchId, review, category, at);
    if at >= 0 && Trim(category) != [] && Aloft(db, batchId, at) {
      var after := FinishedBatch(db.batches[batchId], review, Trim(category), at);
      if EntriesFly(db.queue, db.batches[batchId].entries, at) {
        ChangeBatchEffect(db, batchId, after, Finish(review, Trim(category), at));
        MovedHas(db, FailBatchFinally(db, batchId, review, category, at).db, batchId);
        LoadEffect(FailBatchFinally(db, batchId, review, category, at).db, batchId);
      } else {
        ChangeBatchRefused(db, batchId, after, Finish(review, Trim(category), at));
      }
    }
  }

  /** A retryable failure sets the batch back until its retry time and leaves
      the queue alone. */
  lemma PostponeEffect(db: Database, batchId: BatchId, category: string, at: int, retryAt: int)
    requires Inv(db)
    ensures var o := FailBatchRetryably(db, batchId, category, at, retryAt);
      if 0 <= at <= retryAt && Trim(category) != [] && Aloft(db, batchId, at)
      then
        var b := db.batches[batchId];
        var after := b.(state := Retryable, retryAt := Some(retryAt), failure := Some(Trim(category)), updatedAt := at);
        o.db == db.(batches := db.batches[batchId := after]) && o.result == Reload(after)
      else o.db == db && o.result.Err? && match o.result.error
        case NegativeTime => at < 0 || retryAt < 0
        case RetryBeforeUpdate => retryAt < at
        case EmptyCategory => Trim(category) == []
        case InvalidBatchTransition => !Aloft(db, batchId, at)
        case _ => false
  {
    hide Inv, Evolves, LoadBatch, Trim;
    FailRetryablyKeepsInv(db, batchId, category, at, retryAt);
    if 0 <= at <= retryAt && Trim(category) != [] && Aloft(db, batchId, at) {
      LoadEffect(FailBatchRetryably(db, batchId, category, at, retryAt).db, batchId);
    }
  }

  // ---- Storing an acknowledgement ---------------------------------------

  /** Line k and entry k name the same transaction and sequence. */
  predicate SameEntry(line: AckLine, e: EntryRow) {
    line.transactionId == e.transactionId && line.sequence == e.sequence
  }

  /** The acknowledgement names what the batch names. */
  predicate Corresponds(a: Acknowledgement, b: Batch) {
    && a.protocol == b.protocol && a.first == b.first && a.last == b.last && |a.lines| == |b.entries|
    && forall k :: 0 <= k < |a.lines| ==> SameEntry(a.lines[k], b.entries[k])
  }

  /** The stored row of one line, column by column. */
  predicate RowOfLine(row: AckEntryRow, line: AckLine, position: nat) {
    && row.transactionId == line.transactionId && row.sequence == line.sequence && row.position == position
    && match line.resolution
       case Accepted => row.outcome == "acknowledged" && row.failure == None && row.retryAt == None
       case RetryLater(category, retryAt) =>
         row.outcome == "retryable_failure" && row.failure == Some(category) && row.retryAt == Some(retryAt)
       case Refused(category) =>
         row.outcome == "permanent_failure" && row.failure == Some(category) && row.retryAt == None
       case Review(category) =>
         row.outcome == "manual_review" && row.failure == Some(category) && row.retryAt == None
  }

  predicate PayloadSays(p: Payload, a: Acknowledgement) {
    && p.readerId == a.readerId && p.batchId == a.batchId && p.protocol == a.protocol
    && p.first == a.first && p.last == a.last && p.receivedAt == a.receivedAt && |p.entries| == |a.lines|
    && forall k :: 0 <= k < |a.lines| ==> RowOfLine(p.entries[k], a.lines[k], k)
  }

  lemma PayloadFields(a: Acknowledgement)
    ensures PayloadSays(CanonicalPayload(a), a)
  {
  }

  lemma {:induction false} MismatchFound(lines: seq<AckLine>, entries: seq<EntryRow>, k: nat)
    requires k <= |lines| == |entries|
    ensures var m := FirstMismatch(lines, entries, k);
      m.Some? ==> m.value < |lines| && !SameEntry(lines[m.value], entries[m.value])
    decreases |lines| - k
  {
    if k < |lines| && LineFits(lines[k], entries[k]) {
      MismatchFound(lines, entries, k + 1);
    }
  }

  lemma MatchMeaning(a: Acknowledgement, b: Batch)
    ensures MatchError(a, b).None? <==> Corresponds(a, b)
    ensures MatchError(a, b).Some? ==> match MatchError(a, b).value
      case ProtocolMismatch => a.protocol != b.protocol
      case SequenceRangeMismatch => a.first != b.first || a.last != b.last
      case EntryCountMismatch => |a.lines| != |b.entries|
      case EntryMismatch(k) => k < |a.lines| == |b.entries| && !SameEntry(a.lines[k], b.entries[k])
      case _ => false
  {
    MatchErrorExact(a, b);
    if |a.lines| == |b.entries| {
      MismatchFound(a.lines, b.entries, 0);
    }
    forall k | 0 <= k < |a.lines| && k < |b.entries|
      ensures LineFits(a.lines[k], b.entries[k]) <==> SameEntry(a.lines[k], b.entries[k])
    {
    }
    hide FirstMismatch;
  }

  /** Storing: a new acknowledgement of an in-flight batch is kept, unapplied,
      with every field as given; the same one again is a replay. */
  lemma StoreEffect(db: Database, a: Acknowledgement)
    requires Inv(db)
    ensures var o := StoreAck(db, a);
      && (o.result == Ok(false) ==>
            && a.readerId == db.identity.readerId && a.batchId !in db.acks && a.batchId in db.batches
            && db.batches[a.batchId].state == Submitted && Corresponds(a, db.batches[a.batchId])
            && a.batchId in o.db.acks && o.db.acks[a.batchId].appliedAt == None
            && PayloadSays(o.db.acks[a.batchId].payload, a)
            && o.db == db.(acks := db.acks[a.batchId := o.db.acks[a.batchId]]))
      && (o.result == Ok(true) ==>
            o.db == db && a.batchId in db.acks && PayloadSays(db.acks[a.batchId].payload, a))
      && (o.result.Err? ==> o.db == db)
  {
    hide Inv, BatchDecodes, MatchError, CanonicalPayload, PayloadSays, Corresponds;
    LoadBatchExact(db, a.batchId);
    PayloadFields(a);
    if a.batchId in db.batches {
      MatchMeaning(a, db.batches[a.batchId]);
    }
  }

  /** Storing fails for these reasons only. */
  lemma StoreErrors(db: Database, a: Acknowledgement)
    requires Inv(db) && StoreAck(db, a).result.Err?
    ensures match StoreAck(db, a).result.error
      case BatchNotFound => a.readerId != db.identity.readerId || a.batchId !in db.batches
      case CorruptValue => a.batchId in db.batches && db.batches[a.batchId].attempts > U32_MAX
      case ProtocolMismatch => a.batchId in db.batches && a.protocol != db.batches[a.batchId].protocol
      case SequenceRangeMismatch =>
        && a.batchId in db.batches
        && (a.first != db.batches[a.batchId].first || a.last != db.batches[a.batchId].last)
      case EntryCountMismatch => a.batchId in db.batches && |a.lines| != |db.batches[a.batchId].entries|
      case EntryMismatch(k) =>
        && a.batchId in db.batches && k < |a.lines| == |db.batches[a.batchId].entries|
        && !SameEntry(a.lines[k], db.batches[a.batchId].entries[k])
      case BatchNotInFlight =>
        a.batchId in db.batches && a.batchId !in db.acks && db.batches[a.batchId].state != Submitted
      case ConflictingReplay => a.batchId in db.acks && db.acks[a.batchId].payload != CanonicalPayload(a)
      case _ => false
  {
    hide Inv, BatchDecodes, MatchError, CanonicalPayload, Corresponds, SameEntry;
    LoadBatchExact(db, a.batchId);
    if a.batchId in db.batches {
      MatchMeaning(a, db.batches[a.batchId]);
      AckHasBatch(db, a.batchId);
    }
  }

  lemma AckHasBatch(db: Database, batchId: BatchId)
    requires Inv(db)
    ensures batchId in db.acks ==> batchId in db.batches
  {
    hide QueueOk, BatchesOk, AllEvidenced, ResolvedUpTo, AckOk;
  }

  // ---- Applying an acknowledgement --------------------------------------

  /** The row shows what line k resolved, at this time, in the same record. */
  predicate Resolved(r: Row, s: Row, resolution: Resolution, at: int) {
    && SameRecord(r, s) && s.attempts == r.attempts && s.updatedAt == at
    && match resolution
       case Accepted => s.state == Acknowledged && s.failure == None && s.retryAt == None
       case RetryLater(category, retryAt) =>
         s.state == RetryableFailure && s.failure == Some(category) && s.retryAt == Some(retryAt)
       case Refused(category) => s.state == PermanentFailure && s.failure == Some(category) && s.retryAt == None
       case Review(category) => s.state == ManualReview && s.failure == Some(category) && s.retryAt == None
  }

  /** When an application takes effect. */
  ghost predicate CanApply(db: Database, batchId: BatchId, at: int) {
    && batchId in db.acks && db.acks[batchId].appliedAt == None && at >= db.acks[batchId].payload.receivedAt
    && Aloft(db, batchId, at) && EntriesFly(db.queue, db.batches[batchId].entries, at)
  }

  lemma CanApplyMeaning(db: Database, batchId: BatchId, at: int)
    ensures CanApply(db, batchId, at) <==> Applies(db, batchId, at)
  {
    hide EntriesFly, RowsHeld;
    if batchId in db.batches {
      FlyIsHeld(db.queue, db.batches[batchId].entries, at);
    }
  }

  /** Applying records the given time everywhere: in each row, in the batch,
      in the acknowledgement and in the report. The batch is complete and no
      longer waits for a retry; every other row, batch and acknowledgement
      stays; only the watermark moves besides. */
  lemma ApplyEffect(db: Database, batchId: BatchId, at: int)
    requires Inv(db) && CanApply(db, batchId, at)
    ensures var o := ApplyAck(db, batchId, at); var b := db.batches[batchId];
      var lines := Lines(db.acks[batchId].payload);
      && o.result.Ok? && o.result.value.appliedNow && o.result.value.appliedAt == at
      && o.result.value.batchId == batchId && o.result.value.lastAcknowledged == o.db.lastAcknowledged
      && o.db.batches == db.batches[batchId := b.(state := Completed, retryAt := None, failure := None,
                                                  updatedAt := at)]
      && o.db.acks == db.acks[batchId := StoredAck(db.acks[batchId].payload, Some(at))]
      && o.db.identity == db.identity && o.db.nextSequence == db.nextSequence && |o.db.queue| == |db.queue|
      && |lines| == |b.entries|
      && (forall k :: 0 <= k < |b.entries| ==>
            && 1 <= b.entries[k].sequence <= |db.queue|
            && Resolved(db.queue[b.entries[k].sequence - 1], o.db.queue[b.entries[k].sequence - 1],
                        lines[k].resolution, at))
      && (forall i :: 0 <= i < |db.queue| && !Listed(b.entries, db.queue[i].id) ==> o.db.queue[i] == db.queue[i])
  {
    hide Inv, CanApply, Applies, ApplyAck, Lines, Names, Listed, Changed, EntryOk;
    CanApplyMeaning(db, batchId, at);
    ApplyDecides(db, batchId, at);
    AppliedReport(db, batchId, at);
    ApplicationExact(db, batchId, at);
    AppliedTables(db, batchId, at);
    var o, b, lines := ApplyAck(db, batchId, at), db.batches[batchId], Lines(db.acks[batchId].payload);
    forall k | 0 <= k < |b.entries|
      ensures 1 <= b.entries[k].sequence <= |db.queue|
      ensures Resolved(db.queue[b.entries[k].sequence - 1], o.db.queue[b.entries[k].sequence - 1], lines[k].resolution,
                       at)
    {
      EntryPlace(db.queue, b.entries[k]);
      ResolvedFields(db.queue[b.entries[k].sequence - 1], lines[k].resolution, at);
    }
    forall i | 0 <= i < |db.queue| ensures Listed(b.entries, db.queue[i].id) <==> Names(b.entries, db.queue[i].id) {
      ListedNames(b.entries, db.queue[i].id);
    }
  }

  lemma EntryPlace(queue: seq<Row>, e: EntryRow)
    requires EntryOk(queue, e)
    ensures 1 <= e.sequence <= |queue|
  {
  }

  lemma ResolvedFields(row: Row, resolution: Resolution, at: int)
    ensures Resolved(row, Changed(row, Resolve(resolution, at)), resolution, at)
  {
  }

  lemma AppliedTables(db: Database, batchId: BatchId, at: int)
    requires ApplyAck(db, batchId, at).db != db
    ensures var o := ApplyAck(db, batchId, at);
      && batchId in db.acks && batchId in db.batches
      && o.db.identity == db.identity && o.db.nextSequence == db.nextSequence
      && o.db.batches == db.batches[batchId := db.batches[batchId].(state := Completed, retryAt := None,
                                                                    failure := None, updatedAt := at)]
      && o.db.acks == db.acks[batchId := StoredAck(db.acks[batchId].payload, Some(at))]
  {
    hide Lines, Decodable, CountLines, ResolvedPrefix, ResolveChanges, Update, FirstConflict;
  }

  /** Applying fails for these reasons only, and then changes nothing. */
  lemma ApplyErrors(db: Database, batchId: BatchId, at: int)
    requires Inv(db) && ApplyAck(db, batchId, at).result.Err?
    ensures var o := ApplyAck(db, batchId, at);
      o.db == db && match o.result.error
        case NegativeTime => at < 0
        case AcknowledgementNotFound => batchId !in db.acks
        case ApplicationBeforeReceipt => batchId in db.acks && at < db.acks[batchId].payload.receivedAt
        case BatchNotInFlight => !Aloft(db, batchId, at)
        case EntryStateConflict(id) =>
          && batchId in db.batches && Listed(db.batches[batchId].entries, id)
          && !EntriesFly(db.queue, db.batches[batchId].entries, at)
        case _ => false
  {
    hide Inv, EntriesFly, Decodable, Lines, CountLines, FirstConflict, Update, ResolvedPrefix, ResolveChanges,
         QueueOk, LinesFit, RowsHeld;
    if batchId in db.acks {
      StoredAckReadable(db, batchId);
      AppliedTimeKnown(db, batchId);
      StoredLinesFit(db, batchId);
      BatchRows(db, batchId);
      var lines, entries := Lines(db.acks[batchId].payload), db.batches[batchId].entries;
      HeldIsNoConflict(db.queue, lines, entries, at);
      FlyIsHeld(db.queue, entries, at);
      ConflictIsListed(db.queue, lines, entries, at, 0);
    }
  }

  lemma AppliedTimeKnown(db: Database, batchId: BatchId)
    requires Inv(db) && batchId in db.acks
    ensures db.acks[batchId].appliedAt.Some? ==> db.acks[batchId].appliedAt.value >= 0
  {
    hide QueueOk, BatchesOk, AllEvidenced, ResolvedUpTo, AckRowsOk;
    assert AckOk(db.identity, batchId, db.acks[batchId], db.batches[batchId]);
  }

  lemma {:induction false} ConflictIsListed(queue: seq<Row>, lines: seq<AckLine>, entries: seq<EntryRow>, at: int,
                                            k: nat)
    requires LinesFit(queue, lines, entries) && k <= |lines|
    ensures FirstConflict(queue, lines, at, k).Some? ==> Listed(entries, FirstConflict(queue, lines, at, k).value)
    decreases |lines| - k
  {
    hide LineHits, EntriesOk;
    if k < |lines| {
      ConflictIsListed(queue, lines, entries, at, k + 1);
      assert LineFits(lines[k], entries[k]);
    }
  }
}
