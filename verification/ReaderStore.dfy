/** The reader's durable store as it runs: each operation works on copies of
    the tables, in the source's loops, and publishes them on success. */
module ReaderStore {
  import opened Basics
  import opened Texts
  import opened ReaderTables
  import opened ReaderAcknowledgement
  import Steps = ReaderSteps
  import opened ReaderSteps
  import opened ReaderInvariant
  import opened ReaderPreservation
  import opened ReaderRuns
  import opened ReaderCoupling

  // ---- Table scans ------------------------------------------------------

  /** One UPDATE statement: the new table and the number of rows affected. */
  method UpdateRows(rows: seq<Row>, changes: map<TransactionId, Change>) returns (updated: seq<Row>, affected: nat)
    ensures updated == Update(rows, changes) && affected == Hits(rows, changes)
  {
    hide Guard, Changed;
    updated, affected := [], 0;
    for i := 0 to |rows|
      invariant updated == Update(rows[..i], changes) && affected == Hits(rows[..i], changes)
    {
      assert rows[..i + 1][..i] == rows[..i];
      if Hit(rows[i], changes) {
        updated, affected := updated + [Changed(rows[i], changes[rows[i].id])], affected + 1;
      } else {
        updated := updated + [rows[i]];
      }
    }
    assert rows[..|rows|] == rows;
  }

  /** The decoder of a stored batch. */
  method DecodeBatch(b: Batch) returns (result: Result<Batch, ReaderError>)
    ensures result == if BatchDecodes(b) then Ok(b) else Err(CorruptValue)
  {
    if !(1 <= b.protocol <= 65535) || !(1 <= b.first <= b.last) || !(0 <= b.attempts <= U32_MAX)
       || (b.submittedAt.Some? && b.submittedAt.value < 0) || (b.retryAt.Some? && b.retryAt.value < 0)
       || !(0 <= b.createdAt <= b.updatedAt)
    {
      return Err(CorruptValue);
    }
    for k := 0 to |b.entries|
      invariant forall j :: 0 <= j < k ==> b.entries[j].position == j && b.entries[j].sequence > 0
    {
      if b.entries[k].position != k || b.entries[k].sequence <= 0 {
        return Err(CorruptValue);
      }
    }
    if b.entries == [] || b.entries[0].sequence != b.first || b.entries[|b.entries| - 1].sequence != b.last {
      return Err(CorruptValue);
    }
    return Ok(b);
  }

  /** The comparison of acknowledged lines with batch entries. */
  method FindMismatch(lines: seq<AckLine>, entries: seq<EntryRow>) returns (position: Option<nat>)
    requires |lines| == |entries|
    ensures position.None? <==> forall k :: 0 <= k < |lines| ==> LineFits(lines[k], entries[k])
    ensures position.Some? ==>
      && position.value < |lines| && !LineFits(lines[position.value], entries[position.value])
      && forall k :: 0 <= k < position.value ==> LineFits(lines[k], entries[k])
    ensures position == FirstMismatch(lines, entries, 0)
  {
    for k := 0 to |lines|
      invariant forall j :: 0 <= j < k ==> LineFits(lines[j], entries[j])
      invariant FirstMismatch(lines, entries, 0) == FirstMismatch(lines, entries, k)
    {
      if !LineFits(lines[k], entries[k]) {
        return Some(k);
      }
    }
    return None;
  }

  /** The insertion of the acknowledgement's entry rows. */
  method EncodeLines(lines: seq<AckLine>) returns (rows: seq<AckEntryRow>)
    ensures rows == StoredLines(lines)
  {
    hide StoredLine;
    rows := [];
    for k := 0 to |lines|
      invariant |rows| == k && forall j :: 0 <= j < k ==> rows[j] == StoredLine(lines[j], j)
    {
      rows := rows + [StoredLine(lines[k], k)];
    }
  }

  method ResolutionCounts(lines: seq<AckLine>) returns (counts: Counts)
    ensures counts == CountLines(lines)
  {
    hide Counted;
    counts := Counts(0, 0, 0, 0);
    for k := 0 to |lines|
      invariant counts == CountLines(lines[..k])
    {
      assert lines[..k + 1][..k] == lines[..k];
      counts := Counted(counts, lines[k].resolution);
    }
    assert lines[..|lines|] == lines;
  }

  // ---- The contiguous scan ----------------------------------------------

  datatype SequenceState = SequenceState(sequence: I64, state: QueueState)

  /** The i-th state is that of a resolved row right where it is expected. */
  predicate Continues(current: int, states: seq<SequenceState>, i: nat) {
    i < |states| && states[i].sequence == current + 1 + i && states[i].state.Resolved()
  }

  /** Over any listed states the scan returns the end of the longest unbroken
      resolved run above the current watermark. */
  method ContiguousResolved(current: U64, states: seq<SequenceState>) returns (result: Result<int, ReaderError>)
    ensures result.Ok? ==>
      && current <= result.value <= current + |states|
      && (forall i :: 0 <= i < result.value - current ==> Continues(current, states, i))
      && !Continues(current, states, result.value - current)
    ensures result.Err? ==> current == U64_MAX || exists i :: 0 <= i < |states| && states[i].sequence <= 0
  {
    var last: int := current;
    if current == U64_MAX {
      return Err(CorruptValue);
    }
    var expected := current + 1;
    for k := 0 to |states|
      invariant last == current + k && expected == last + 1
      invariant forall i :: 0 <= i < k ==> Continues(current, states, i)
    {
      if states[k].sequence <= 0 {
        return Err(CorruptValue);
      }
      if states[k].sequence != expected || !states[k].state.Resolved() {
        break;
      }
      last := states[k].sequence;
      expected := last + 1;
    }
    return Ok(last);
  }

  method StatesAbove(rows: seq<Row>, current: nat) returns (states: seq<SequenceState>)
    requires QueueOk(rows) && current <= |rows| <= I64_MAX
    ensures |states| == |rows| - current
    ensures forall i :: 0 <= i < |states| ==> states[i] == SequenceState(current + i + 1, rows[current + i].state)
  {
    hide RowOk;
    states := [];
    for i := current to |rows|
      invariant |states| == i - current
      invariant forall j :: 0 <= j < |states| ==> states[j] == SequenceState(current + j + 1, rows[current + j].state)
    {
      states := states + [SequenceState(rows[i].sequence, rows[i].state)];
    }
  }

  lemma {:induction false} PrefixReached(rows: seq<Row>, current: nat, n: nat)
    requires current <= n <= |rows| && forall i :: current <= i < n ==> rows[i].state.Resolved()
    requires n < |rows| ==> !rows[n].state.Resolved()
    ensures ResolvedPrefix(rows, current) == n
    decreases n - current
  {
    if current < n {
      PrefixReached(rows, current + 1, n);
    }
  }

  /** The watermark after the given rows: what the scan finds. */
  method Advance(rows: seq<Row>, current: nat) returns (result: Result<int, ReaderError>)
    requires QueueOk(rows) && current <= |rows| <= I64_MAX
    ensures result == Ok(ResolvedPrefix(rows, current)) && current <= ResolvedPrefix(rows, current) <= |rows|
  {
    hide QueueOk, ResolvedPrefix;
    var states := StatesAbove(rows, current);
    result := ContiguousResolved(current, states);
    var n := result.value;
    forall i | current <= i < n ensures rows[i].state.Resolved() {
      assert Continues(current, states, i - current);
    }
    PrefixReached(rows, current, n);
  }

  // ---- Reservation loop -------------------------------------------------

  lemma OneHit(rows: seq<Row>, id: TransactionId, c: Change, i: nat)
    requires DistinctRows(rows) && i < |rows| && rows[i].id == id
    ensures Hits(rows, map[id := c]) == 1 <==> Guard(rows[i], c)
  {
    hide Guard, Hits;
    HitsAll(rows, map[id := c]);
    assert |map[id := c]| == 1;
    if Guard(rows[i], c) {
      assert HitsSome(rows, map[id := c], id);
    }
  }

  lemma UpdateKeepsIds(rows: seq<Row>, changes: map<TransactionId, Change>)
    ensures forall i :: 0 <= i < |rows| ==>
      Update(rows, changes)[i].id == rows[i].id && (rows[i].id !in changes ==> Update(rows, changes)[i] == rows[i])
    ensures DistinctRows(rows) ==> DistinctRows(Update(rows, changes))
  {
    hide Guard;
  }

  lemma ForEntriesGrows(rows: seq<Row>, k: nat, c: Change)
    requires k < |rows|
    ensures ForEntries(EntryRows(rows[..k + 1]), c) == ForEntries(EntryRows(rows[..k]), c) + map[rows[k].id := c]
  {
    var longer, shorter := EntryRows(rows[..k + 1]), EntryRows(rows[..k]);
    forall id ensures id in EntryIds(longer) <==> id in EntryIds(shorter) || id == rows[k].id {
      if id in EntryIds(longer) {
        var j :| 0 <= j < |longer| && longer[j].transactionId == id;
        assert j < k ==> shorter[j].transactionId == id;
      }
      if id in EntryIds(shorter) {
        var j :| 0 <= j < |shorter| && shorter[j].transactionId == id;
        assert longer[j].transactionId == id;
      }
      assert longer[k].transactionId == rows[k].id;
    }
  }

  lemma PrefixLacks(rows: seq<Row>, k: nat, c: Change)
    requires k < |rows| && DistinctRows(rows)
    ensures rows[k].id !in ForEntries(EntryRows(rows[..k]), c)
  {
  }

  /** What one more reservation finds and leaves. */
  lemma ReserveOne(queue: seq<Row>, chosen: seq<Row>, k: nat, at: int)
    requires DistinctRows(queue) && DistinctRows(chosen) && k < |chosen| && chosen[k] in queue && Ready(chosen[k], at)
    ensures var rows := Update(queue, ForEntries(EntryRows(chosen[..k]), Reserve(at)));
      && (Hits(rows, map[chosen[k].id := Reserve(at)]) == 1 <==> chosen[k].updatedAt <= at)
      && Update(rows, map[chosen[k].id := Reserve(at)])
         == Update(queue, ForEntries(EntryRows(chosen[..k + 1]), Reserve(at)))
  {
    hide Update, ForEntries, EntryRows, Hits;
    var changes := ForEntries(EntryRows(chosen[..k]), Reserve(at));
    PrefixLacks(chosen, k, Reserve(at));
    UpdateKeepsIds(queue, changes);
    UpdateLength(queue, changes);
    var i :| 0 <= i < |queue| && queue[i] == chosen[k];
    OneHit(Update(queue, changes), chosen[k].id, Reserve(at), i);
    ForEntriesGrows(chosen, k, Reserve(at));
    UpdateCompose(queue, changes, map[chosen[k].id := Reserve(at)]);
  }

  lemma UpdateLength(queue: seq<Row>, changes: map<TransactionId, Change>)
    ensures |Update(queue, changes)| == |queue|
  {
  }

  lemma NoChange(queue: seq<Row>, rows: seq<Row>, c: Change)
    ensures Update(queue, ForEntries(EntryRows(rows[..0]), c)) == queue
  {
  }

  /** Reserves the chosen rows one by one; stops at the first that was updated
      later. */
  method ReserveAll(queue: seq<Row>, chosen: seq<Row>, at: int) returns (result: Result<seq<Row>, TransactionId>)
    requires DistinctRows(queue) && DistinctRows(chosen)
    requires forall k :: 0 <= k < |chosen| ==> chosen[k] in queue && Ready(chosen[k], at)
    ensures FirstBlocked(chosen, at).Some? ==> result == Err(FirstBlocked(chosen, at).value)
    ensures FirstBlocked(chosen, at).None? ==> result == Ok(Update(queue, ForEntries(EntryRows(chosen), Reserve(at))))
  {
    hide Ready, Update, ForEntries, EntryRows, Hits;
    var rows := queue;
    NoChange(queue, chosen, Reserve(at));
    assert chosen[0..] == chosen;
    for k := 0 to |chosen|
      invariant rows == Update(queue, ForEntries(EntryRows(chosen[..k]), Reserve(at)))
      invariant FirstBlocked(chosen, at) == FirstBlocked(chosen[k..], at)
    {
      ReserveOne(queue, chosen, k, at);
      var updated, affected := UpdateRows(rows, map[chosen[k].id := Reserve(at)]);
      assert chosen[k..][1..] == chosen[k + 1..];
      if affected != 1 {
        return Err(chosen[k].id);
      }
      rows := updated;
    }
    assert chosen[..|chosen|] == chosen;
    return Ok(rows);
  }

  // ---- Resolution loop --------------------------------------------------

  lemma ResolveGrows(lines: seq<AckLine>, k: nat, at: int)
    requires k < |lines|
    ensures ResolveChanges(lines[..k + 1], at)
         == ResolveChanges(lines[..k], at) + map[lines[k].transactionId := Resolve(lines[k].resolution, at)]
  {
    assert lines[..k + 1][..k] == lines[..k];
  }

  lemma ResolveLacks(lines: seq<AckLine>, k: nat, at: int)
    requires k < |lines| && LinesHaveDistinctIds(lines)
    ensures lines[k].transactionId !in ResolveChanges(lines[..k], at)
  {
    hide ResolveChanges;
    if lines[k].transactionId in ResolveChanges(lines[..k], at) {
      ResolveChangesFrom(lines[..k], at, lines[k].transactionId);
    }
  }

  predicate LinesHaveDistinctIds(lines: seq<AckLine>) {
    forall i, j :: 0 <= i < j < |lines| ==> lines[i].transactionId != lines[j].transactionId
  }

  lemma LineUnaffected(queue: seq<Row>, changes: map<TransactionId, Change>, line: AckLine, at: int)
    requires line.transactionId !in changes
    ensures LineHits(Update(queue, changes), line, at) <==> LineHits(queue, line, at)
  {
    hide Guard;
    UpdateKeepsIds(queue, changes);
    if LineHits(queue, line, at) {
      var i :| 0 <= i < |queue| && queue[i].id == line.transactionId && queue[i].sequence == line.sequence
               && Guard(queue[i], Resolve(line.resolution, at));
      assert Update(queue, changes)[i] == queue[i];
    }
    if LineHits(Update(queue, changes), line, at) {
      var i :| 0 <= i < |queue| && Update(queue, changes)[i].id == line.transactionId
               && Update(queue, changes)[i].sequence == line.sequence
               && Guard(Update(queue, changes)[i], Resolve(line.resolution, at));
      assert Update(queue, changes)[i] == queue[i];
    }
  }

  /** Applies the lines one by one; stops at the first whose row is not in
      flight, or was updated later. */
  method ResolveAll(queue: seq<Row>, lines: seq<AckLine>, at: int) returns (result: Result<seq<Row>, TransactionId>)
    requires LinesHaveDistinctIds(lines)
    ensures FirstConflict(queue, lines, at, 0).Some? ==> result == Err(FirstConflict(queue, lines, at, 0).value)
    ensures FirstConflict(queue, lines, at, 0).None? ==> result == Ok(Update(queue, ResolveChanges(lines, at)))
  {
    hide Update, ResolveChanges, LineHits, Hits;
    var rows := queue;
    NothingResolved(queue, lines, at);
    for k := 0 to |lines|
      invariant rows == Update(queue, ResolveChanges(lines[..k], at))
      invariant FirstConflict(queue, lines, at, 0) == FirstConflict(queue, lines, at, k)
    {
      ResolveLacks(lines, k, at);
      LineUnaffected(queue, ResolveChanges(lines[..k], at), lines[k], at);
      if !LineHits(rows, lines[k], at) {
        return Err(lines[k].transactionId);
      }
      ResolveGrows(lines, k, at);
      UpdateCompose(queue, ResolveChanges(lines[..k], at),
                    map[lines[k].transactionId := Resolve(lines[k].resolution, at)]);
      var updated, affected := UpdateRows(rows, map[lines[k].transactionId := Resolve(lines[k].resolution, at)]);
      rows := updated;
    }
    assert lines[..|lines|] == lines;
    return Ok(rows);
  }

  lemma NothingResolved(queue: seq<Row>, lines: seq<AckLine>, at: int)
    ensures Update(queue, ResolveChanges(lines[..0], at)) == queue
  {
  }

  // ---- The store --------------------------------------------------------

  lemma CandidatesAreRows(db: Database, at: int, limit: nat)
    requires Inv(db)
    ensures DistinctRows(db.queue) && DistinctRows(Candidates(db, at, limit))
    ensures forall k :: 0 <= k < |Candidates(db, at, limit)| ==>
      Candidates(db, at, limit)[k] in db.queue && Ready(Candidates(db, at, limit)[k], at)
  {
    InvQueue(db);
    hide Inv, Candidates, RowOk, Ready, InActiveBatch;
    assert Numbered(db.queue);
    CandidatesExact(db, at, limit);
    var chosen := Candidates(db, at, limit);
    forall k | 0 <= k < |chosen| ensures chosen[k] in db.queue && Ready(chosen[k], at) {
      assert Selectable(db.queue, db.batches, at, chosen[k]);
    }
    forall i, j | 0 <= i < j < |chosen| ensures chosen[i].id != chosen[j].id {
      assert Selectable(db.queue, db.batches, at, chosen[i]) && Selectable(db.queue, db.batches, at, chosen[j]);
      assert chosen[i].sequence < chosen[j].sequence;
    }
  }

  lemma StoredLinesDistinct(db: Database, batchId: BatchId)
    requires Inv(db) && batchId in db.acks
    ensures batchId in db.batches && LinesHaveDistinctIds(Lines(db.acks[batchId].payload))
  {
    hide Inv, QueueOk, Lines, LinesFit;
    StoredLinesFit(db, batchId);
    InvQueue(db);
    LinesDistinctIds(db.queue, Lines(db.acks[batchId].payload), db.batches[batchId].entries);
  }

  lemma ResolvedQueueOk(db: Database, batchId: BatchId, at: int)
    requires Inv(db) && batchId in db.acks
    ensures var queue := Update(db.queue, ResolveChanges(Lines(db.acks[batchId].payload), at));
      QueueOk(queue) && 0 <= db.lastAcknowledged <= |queue| < db.nextSequence <= I64_MAX && |queue| == |db.queue|
  {
    hide BatchesOk, AllEvidenced, Lines, ResolveChanges, ResolvedPrefix;
    AckFacts(db, batchId);
    ResolveChangesOk(db.acks[batchId].payload, at);
    UpdateOk(db.queue, ResolveChanges(Lines(db.acks[batchId].payload), at));
  }

  class Store {
    const identity: Identity
    var nextSequence: int
    var lastAcknowledged: int
    var queue: seq<Row>
    var batches: map<BatchId, Batch>
    var acks: map<BatchId, StoredAck>

    ghost function State(): Database
      reads this
    {
      Database(identity, nextSequence, lastAcknowledged, queue, batches, acks)
    }

    ghost predicate Valid()
      reads this
    {
      Inv(State())
    }

    constructor (identity: Identity)
      ensures Valid() && State() == Bound(identity)
    {
      this.identity := identity;
      nextSequence, lastAcknowledged, queue, batches, acks := 1, 0, [], map[], map[];
      new;
      BoundInv(identity);
    }

    /** Allocates the next sequence and inserts the row. */
    method Enqueue(draft: Draft) returns (result: Result<Row, ReaderError>)
      requires Valid()
      modifies this
      ensures Valid() && Evolves(old(State()), State())
      ensures Outcome(State(), result) == Steps.Enqueue(old(State()), draft)
      ensures result.Err? ==> State() == old(State())
    {
      hide Inv, Evolves;
      EnqueueKeepsInv(State(), draft);
      if draft.createdAt < 0 {
        return Err(NegativeTime);
      }
      if nextSequence >= I64_MAX {
        return Err(SequenceUnavailable);
      }
      if draft.createdAt < identity.createdAt {
        return Err(ConstraintViolation);
      }
      if Present(queue, draft.id) {
        return Err(WriteConflict);
      }
      var row := Row(draft.id, nextSequence, draft.envelope, Pending, 0, None, None, draft.createdAt, draft.createdAt);
      nextSequence, queue := nextSequence + 1, queue + [row];
      return Ok(row);
    }

    /** One guarded row update; anything but one affected row rolls back. */
    method UpdateOne(id: TransactionId, c: Change) returns (result: Result<(), ReaderError>)
      requires Valid() && ChangeOk(c) && !c.Resolve?
      modifies this`queue
      ensures Valid() && Evolves(old(State()), State())
      ensures Outcome(State(), result) == Steps.UpdateOne(old(State()), id, c)
      ensures result.Err? ==> State() == old(State())
    {
      hide Inv, Evolves, Hits, Update;
      UpdateOneKeepsInv(State(), id, c);
      var updated, affected := UpdateRows(queue, map[id := c]);
      if affected != 1 {
        return Err(InvalidTransition(id));
      }
      queue := updated;
      return Ok(());
    }

    method MarkTransactionInFlight(id: TransactionId, at: int) returns (result: Result<(), ReaderError>)
      requires Valid()
      modifies this`queue
      ensures Valid() && Evolves(old(State()), State())
      ensures Outcome(State(), result) == Steps.MarkTransactionInFlight(old(State()), id, at)
      ensures result.Err? ==> State() == old(State())
    {
      hide Inv, Evolves, Steps.UpdateOne;
      EvolvesSelf(State());
      if at < 0 {
        return Err(NegativeTime);
      }
      result := UpdateOne(id, Attempt(at));
    }

    method RecordRetryable(id: TransactionId, category: string, at: int, retryAt: int)
      returns (result: Result<(), ReaderError>)
      requires Valid()
      modifies this`queue
      ensures Valid() && Evolves(old(State()), State())
      ensures Outcome(State(), result) == Steps.RecordRetryable(old(State()), id, category, at, retryAt)
      ensures result.Err? ==> State() == old(State())
    {
      hide Inv, Evolves, Steps.UpdateOne, Trim;
      EvolvesSelf(State());
      if at < 0 || retryAt < 0 {
        return Err(NegativeTime);
      }
      if retryAt < at {
        return Err(RetryBeforeUpdate);
      }
      if Blank(category) {
        return Err(EmptyCategory);
      }
      result := UpdateOne(id, Retry(Trim(category), retryAt, at));
    }

    method RecordFinal(id: TransactionId, review: bool, category: string, at: int)
      returns (result: Result<(), ReaderError>)
      requires Valid()
      modifies this`queue
      ensures Valid() && Evolves(old(State()), State())
      ensures Outcome(State(), result) == Steps.RecordFinal(old(State()), id, review, category, at)
      ensures result.Err? ==> State() == old(State())
    {
      hide Inv, Evolves, Steps.UpdateOne, Trim;
      EvolvesSelf(State());
      if at < 0 {
        return Err(NegativeTime);
      }
      if Blank(category) {
        return Err(EmptyCategory);
      }
      result := UpdateOne(id, Finish(review, Trim(category), at));
    }

    method RecoverQueue(at: int) returns (result: Result<nat, ReaderError>)
      requires Valid()
      modifies this`queue
      ensures Valid() && Evolves(old(State()), State())
      ensures Outcome(State(), result) == Steps.RecoverQueue(old(State()), at)
      ensures result.Err? ==> State() == old(State())
    {
      hide Inv, Evolves, Hits, Update, InActiveBatch;
      RecoverQueueKeepsInv(State(), at);
      if at < 0 {
        return Err(NegativeTime);
      }
      var changes := map id | id in QueueIds(queue) && !InActiveBatch(batches, id) :: Retry(RESTART_CATEGORY, at, at);
      var updated, affected := UpdateRows(queue, changes);
      queue := updated;
      return Ok(affected);
    }

    method RecoverBatches(at: int) returns (result: Result<nat, ReaderError>)
      requires Valid()
      modifies this`batches
      ensures Valid() && Evolves(old(State()), State())
      ensures Outcome(State(), result) == Steps.RecoverBatches(old(State()), at)
      ensures result.Err? ==> State() == old(State())
    {
      hide Inv, Evolves, RecoverBatch;
      RecoverBatchesKeepsInv(State(), at);
      if at < 0 {
        return Err(NegativeTime);
      }
      var interrupted := set b | b in batches && Interrupted(batches[b], at);
      batches := map b | b in batches :: RecoverBatch(batches[b], at);
      return Ok(|interrupted|);
    }

    /** Inserts a prepared batch and reserves its rows one by one; a row that
        cannot be reserved undoes all that was done. */
    method CreateBatch(batchId: BatchId, protocol: Version, at: int, limit: nat)
      returns (result: Result<Batch, ReaderError>)
      requires Valid()
      modifies this`queue, this`batches
      ensures Valid() && Evolves(old(State()), State())
      ensures Outcome(State(), result) == Steps.CreateBatch(old(State()), batchId, protocol, at, limit)
      ensures result.Err? ==> State() == old(State())
    {
      hide Inv, Evolves, Eligible, InSequenceOrder, FirstBlocked, Update, ForEntries, Ready;
      CreateBatchKeepsInv(State(), batchId, protocol, at, limit);
      if at < 0 {
        return Err(NegativeTime);
      }
      if limit == 0 {
        return Err(ZeroLimit);
      }
      if limit > I64_MAX {
        return Err(LimitTooLarge);
      }
      CandidatesAreRows(State(), at, limit);
      var chosen := Take(InSequenceOrder(Eligible(queue, batches, at)), limit);
      if chosen == [] {
        return Err(NoEligibleTransactions);
      }
      if batchId in batches {
        return Err(ConstraintViolation);
      }
      var batch := NewBatch(protocol, chosen, at);
      var reserved := ReserveAll(queue, chosen, at);
      if reserved.Err? {
        return Err(QueueStateConflict(reserved.error));
      }
      queue, batches := reserved.value, batches[batchId := batch];
      return Ok(batch);
    }

    method LoadBatch(batchId: BatchId) returns (result: Result<Batch, ReaderError>)
      requires Valid()
      ensures result == Steps.LoadBatch(State(), batchId)
      ensures result.Ok? <==> batchId in batches && batches[batchId].attempts <= U32_MAX
    {
      LoadBatchExact(State(), batchId);
      hide Inv, BatchDecodes;
      if batchId !in batches {
        return Err(BatchNotFound);
      }
      result := DecodeBatch(batches[batchId]);
    }

    /** Updates a batch and all its rows, then reloads the batch. */
    method ChangeBatch(batchId: BatchId, after: Batch, c: Change) returns (result: Result<Batch, ReaderError>)
      requires Valid() && batchId in batches && ChangeOk(c) && !c.Resolve?
      requires BatchSteps(queue, batches[batchId], after)
      modifies this`queue, this`batches
      ensures Valid() && Evolves(old(State()), State())
      ensures Outcome(State(), result) == Steps.ChangeBatch(old(State()), batchId, after, c)
    {
      hide Inv, Evolves, BatchSteps, Hits, Update, ForEntries, BatchDecodes;
      ChangeBatchKeepsInv(State(), batchId, after, c);
      var entries := batches[batchId].entries;
      if entries == [] {
        return Err(CorruptValue);
      }
      var updated, affected := UpdateRows(queue, ForEntries(entries, c));
      if affected != |entries| {
        return Err(BatchEntryConflict(|entries|, affected));
      }
      queue, batches := updated, batches[batchId := after];
      result := LoadBatch(batchId);
    }

    method SubmitBatch(batchId: BatchId, at: I64) returns (result: Result<Batch, ReaderError>)
      requires Valid()
      modifies this`queue, this`batches
      ensures Valid() && Evolves(old(State()), State())
      ensures Outcome(State(), result) == Steps.SubmitBatch(old(State()), batchId, at)
    {
      EvolvesSelf(State());
      hide Inv, Evolves, Steps.ChangeBatch, BatchOk, BatchSteps;
      if at < 0 {
        return Err(NegativeTime);
      }
      if batchId !in batches || !Submittable(batches[batchId], at) {
        return Err(InvalidBatchTransition);
      }
      BatchIsOk(State(), batchId);
      SubmittedSteps(queue, batches[batchId], at);
      result := ChangeBatch(batchId, SubmittedBatch(batches[batchId], at), Resubmit(at));
    }

    method FailBatchRetryably(batchId: BatchId, category: string, at: int, retryAt: int)
      returns (result: Result<Batch, ReaderError>)
      requires Valid()
      modifies this`batches
      ensures Valid() && Evolves(old(State()), State())
      ensures Outcome(State(), result) == Steps.FailBatchRetryably(old(State()), batchId, category, at, retryAt)
    {
      hide Inv, Evolves, BatchDecodes, Trim;
      FailRetryablyKeepsInv(State(), batchId, category, at, retryAt);
      if at < 0 || retryAt < 0 {
        return Err(NegativeTime);
      }
      if retryAt < at {
        return Err(RetryBeforeUpdate);
      }
      if Blank(category) {
        return Err(EmptyCategory);
      }
      if batchId !in batches || !batches[batchId].state.Submitted? || batches[batchId].updatedAt > at {
        return Err(InvalidBatchTransition);
      }
      var after := batches[batchId].(state := Retryable, retryAt := Some(retryAt), failure := Some(Trim(category)),
                                     updatedAt := at);
      batches := batches[batchId := after];
      result := LoadBatch(batchId);
    }

    method FailBatchFinally(batchId: BatchId, review: bool, category: string, at: int)
      returns (result: Result<Batch, ReaderError>)
      requires Valid()
      modifies this`queue, this`batches
      ensures Valid() && Evolves(old(State()), State())
      ensures Outcome(State(), result) == Steps.FailBatchFinally(old(State()), batchId, review, category, at)
    {
      EvolvesSelf(State());
      hide Inv, Evolves, Steps.ChangeBatch, BatchOk, BatchSteps, Trim;
      if at < 0 {
        return Err(NegativeTime);
      }
      if Blank(category) {
        return Err(EmptyCategory);
      }
      if batchId !in batches || !batches[batchId].state.Submitted? || batches[batchId].updatedAt > at {
        return Err(InvalidBatchTransition);
      }
      BatchIsOk(State(), batchId);
      FinishedSteps(queue, batches[batchId], review, Trim(category), at);
      result := ChangeBatch(batchId, FinishedBatch(batches[batchId], review, Trim(category), at),
                            Finish(review, Trim(category), at));
    }

    /** Checks a constructed acknowledgement against its batch. */
    method CheckAck(a: Acknowledgement) returns (error: Option<ReaderError>)
      requires Valid()
      ensures error == Steps.CheckAck(State(), a)
    {
      hide Inv, Steps.LoadBatch;
      if a.readerId != identity.readerId {
        return Some(BatchNotFound);
      }
      var loaded := LoadBatch(a.batchId);
      if loaded.Err? {
        return Some(loaded.error);
      }
      var b := loaded.value;
      if a.protocol != b.protocol {
        return Some(ProtocolMismatch);
      }
      if a.first != b.first || a.last != b.last {
        return Some(SequenceRangeMismatch);
      }
      if |a.lines| != |b.entries| {
        return Some(EntryCountMismatch);
      }
      var position := FindMismatch(a.lines, b.entries);
      if position.Some? {
        return Some(EntryMismatch(position.value));
      }
      return None;
    }

    method StoreAck(a: Acknowledgement) returns (result: Result<bool, ReaderError>)
      requires Valid() && Constructible(a)
      modifies this`acks
      ensures Valid() && Evolves(old(State()), State())
      ensures Outcome(State(), result) == Steps.StoreAck(old(State()), a)
      ensures result.Err? ==> State() == old(State())
    {
      hide Inv, Evolves, Steps.CheckAck, Constructible, StoredLines;
      StoreKeepsInv(State(), a);
      var error := CheckAck(a);
      if error.Some? {
        return Err(error.value);
      }
      var rows := EncodeLines(a.lines);
      var payload := Payload(a.readerId, a.batchId, a.protocol, a.first, a.last, a.receivedAt, rows);
      if a.batchId in acks {
        return if acks[a.batchId].payload == payload then Ok(true) else Err(ConflictingReplay);
      }
      if a.batchId !in batches || !batches[a.batchId].state.Submitted? {
        return Err(BatchNotInFlight);
      }
      acks := acks[a.batchId := StoredAck(payload, None)];
      return Ok(false);
    }

    /** Applies a stored acknowledgement: decodes and counts its lines,
        resolves the rows one by one, completes the batch and advances the
        watermark, whose guarded update never fails; a line that finds no
        row undoes all that was done. */
    method ApplyAck(batchId: BatchId, at: int) returns (result: Result<Report, ReaderError>)
      requires Valid()
      modifies this
      ensures Valid() && Evolves(old(State()), State())
      ensures Outcome(State(), result) == Steps.ApplyAck(old(State()), batchId, at)
      ensures result.Err? ==> State() == old(State())
    {
      hide Inv, Evolves, Decodable, Lines, CountLines, FirstConflict, Update, ResolveChanges, ResolvedPrefix, QueueOk;
      ApplyKeepsInv(State(), batchId, at);
      if at < 0 {
        return Err(NegativeTime);
      }
      if batchId !in acks {
        return Err(AcknowledgementNotFound);
      }
      var ack := acks[batchId];
      var payload := ack.payload;
      if payload.receivedAt < 0 {
        return Err(CorruptValue);
      }
      var decoded := DecodeRows(payload.entries, payload.receivedAt);
      if decoded.Err? || payload.entries == [] {
        return Err(CorruptValue);
      }
      var lines := decoded.value;
      LinesAreDecoded(payload);
      var counts := ResolutionCounts(lines);
      if ack.appliedAt.Some? {
        if ack.appliedAt.value < 0 {
          return Err(CorruptValue);
        }
        return Ok(Report(batchId, false, ack.appliedAt.value, counts, lastAcknowledged));
      }
      if at < payload.receivedAt {
        return Err(ApplicationBeforeReceipt);
      }
      if batchId !in batches || !batches[batchId].state.Submitted? {
        return Err(BatchNotInFlight);
      }
      StoredLinesDistinct(State(), batchId);
      var resolved := ResolveAll(queue, lines, at);
      if resolved.Err? {
        return Err(EntryStateConflict(resolved.error));
      }
      if batches[batchId].updatedAt > at {
        return Err(BatchNotInFlight);
      }
      ResolvedQueueOk(State(), batchId, at);
      var advanced := Advance(resolved.value, lastAcknowledged);
      if advanced.value > lastAcknowledged && !(lastAcknowledged <= advanced.value < nextSequence) {
        return Err(CorruptValue);
      }
      queue, lastAcknowledged := resolved.value, advanced.value;
      batches := batches[batchId := CompletedBatch(batches[batchId], at)];
      acks := acks[batchId := ack.(appliedAt := Some(at))];
      return Ok(Report(batchId, true, at, counts, lastAcknowledged));
    }
  }

  lemma BatchIsOk(db: Database, batchId: BatchId)
    requires Inv(db) && batchId in db.batches
    ensures BatchOk(db.queue, db.batches[batchId])
  {
    hide QueueOk, BatchOk, Exclusive, AcksOk, AllEvidenced, ResolvedUpTo;
  }

  lemma LinesAreDecoded(p: Payload)
    requires Decodable(p.entries, p.receivedAt)
    ensures Lines(p) == Decoded(p.entries, p.receivedAt)
  {
    hide DecodeRow;
  }
}
