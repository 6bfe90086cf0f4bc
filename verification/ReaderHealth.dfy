/** The health snapshot: aggregate queries over the tables, the decoder of
    their results, and what both say about every reachable database. */
module ReaderHealth {
  import opened Basics
  import opened ReaderTables
  import opened ReaderSteps
  import opened ReaderInvariant
  import opened ReaderPreservation
  import opened ReaderRuns

  // ---- Aggregates -------------------------------------------------------

  /** COUNT(*) of the rows in one state. */
  function CountRows(queue: seq<Row>, state: QueueState): nat {
    if queue == [] then 0
    else CountRows(queue[..|queue| - 1], state) + if queue[|queue| - 1].state == state then 1 else 0
  }

  predicate Unresolved(row: Row) {
    row.state.Pending? || row.state.InFlight? || row.state.RetryableFailure? || row.state.ManualReview?
  }

  /** The three MIN queries. */
  datatype Query = UnresolvedSequence | UnresolvedCreation | RetryTime

  function Value(row: Row, q: Query): Option<int> {
    match q
    case UnresolvedSequence => if Unresolved(row) then Some(row.sequence) else None
    case UnresolvedCreation => if Unresolved(row) then Some(row.createdAt) else None
    case RetryTime => if row.state.RetryableFailure? then row.retryAt else None
  }

  function MinOf(queue: seq<Row>, q: Query): Option<int> {
    if queue == [] then None
    else
      var rest, value := MinOf(queue[..|queue| - 1], q), Value(queue[|queue| - 1], q);
      if value.None? then rest else if rest.None? || value.value < rest.value then value else rest
  }

  ghost predicate Attains(queue: seq<Row>, q: Query, m: int) {
    exists i :: 0 <= i < |queue| && Value(queue[i], q) == Some(m)
  }

  /** MIN is an attained lower bound, or absent when no row has a value. */
  lemma {:induction false} MinOfExact(queue: seq<Row>, q: Query)
    ensures MinOf(queue, q).None? ==> forall i :: 0 <= i < |queue| ==> Value(queue[i], q).None?
    ensures MinOf(queue, q).Some? ==>
      && Attains(queue, q, MinOf(queue, q).value)
      && forall i :: 0 <= i < |queue| && Value(queue[i], q).Some? ==> MinOf(queue, q).value <= Value(queue[i], q).value
  {
    hide Value;
    if queue != [] {
      var n := |queue| - 1;
      MinOfExact(queue[..n], q);
      var m := MinOf(queue[..n], q);
      if m.Some? {
        var i :| 0 <= i < n && Value(queue[..n][i], q) == Some(m.value);
        assert Value(queue[i], q) == Some(m.value);
      }
      if Value(queue[n], q).Some? {
        assert Attains(queue, q, Value(queue[n], q).value);
      }
      forall i | 0 <= i < n ensures queue[..n][i] == queue[i] {
      }
    }
  }

  function BatchesIn(batches: map<BatchId, Batch>, state: BatchState): set<BatchId> {
    set b | b in batches && batches[b].state == state
  }

  function Unapplied(acks: map<BatchId, StoredAck>): set<BatchId> {
    set b | b in acks && acks[b].appliedAt.None?
  }

  // ---- Decoding ---------------------------------------------------------

  datatype StoredHealth = StoredHealth(
    next: int, last: int, queue: QueueCounts, batches: BatchCounts,
    lowest: Option<int>, oldestCreated: Option<int>, nextRetry: Option<int>)

  datatype QueueCounts = QueueCounts(
    pending: int, inFlight: int, acknowledged: int, retryable: int, permanent: int, review: int)
  {
    function Total(): int {
      Plus(Plus(Plus(Plus(Plus(pending, inFlight), acknowledged), retryable), permanent), review)
    }

    function Unresolved(): int {
      Plus(Plus(Plus(pending, inFlight), retryable), review)
    }

    function RetainedFailures(): int {
      Plus(Plus(retryable, permanent), review)
    }

    predicate NonNegative() {
      pending >= 0 && inFlight >= 0 && acknowledged >= 0 && retryable >= 0 && permanent >= 0 && review >= 0
    }
  }

  datatype BatchCounts = BatchCounts(prepared: int, inFlight: int, retryable: int, unapplied: int) {
    function Active(): int {
      Plus(Plus(prepared, inFlight), retryable)
    }

    predicate NonNegative() {
      prepared >= 0 && inFlight >= 0 && retryable >= 0 && unapplied >= 0
    }
  }

  /** Saturating 64-bit addition. */
  function Plus(a: int, b: int): int {
    Min(a + b, U64_MAX)
  }

  datatype Snapshot = Snapshot(
    observedAt: int, next: int, last: int, queue: QueueCounts, batches: BatchCounts,
    lowest: Option<int>, oldestAge: Option<int>, nextRetry: Option<int>)

  datatype HealthError = NegativeObservationTime | InvalidHealthValue | ObservationBeforeQueueActivity(stored: int)

  function Decode(s: StoredHealth, observedAt: int): Result<Snapshot, HealthError> {
    if s.next <= 0 || s.last < 0 || s.last >= s.next then Err(InvalidHealthValue)
    else if !s.queue.NonNegative() || !s.batches.NonNegative() then Err(InvalidHealthValue)
    else if (s.lowest.Some? && s.lowest.value <= 0) || (s.oldestCreated.Some? && s.oldestCreated.value < 0) then
      Err(InvalidHealthValue)
    else if s.lowest.Some? != s.oldestCreated.Some? then Err(InvalidHealthValue)
    else if s.oldestCreated.Some? && s.oldestCreated.value > observedAt then
      Err(ObservationBeforeQueueActivity(s.oldestCreated.value))
    else if s.nextRetry.Some? && s.nextRetry.value < 0 then Err(InvalidHealthValue)
    else
      var age := if s.oldestCreated.Some? then Some(observedAt - s.oldestCreated.value) else None;
      Ok(Snapshot(observedAt, s.next, s.last, s.queue, s.batches, s.lowest, age, s.nextRetry))
  }

  function QueryQueue(queue: seq<Row>): QueueCounts {
    QueueCounts(CountRows(queue, Pending), CountRows(queue, InFlight), CountRows(queue, Acknowledged),
                CountRows(queue, RetryableFailure), CountRows(queue, PermanentFailure), CountRows(queue, ManualReview))
  }

  function QueryBatches(db: Database): BatchCounts {
    BatchCounts(|BatchesIn(db.batches, Prepared)|, |BatchesIn(db.batches, Submitted)|,
                |BatchesIn(db.batches, Retryable)|, |Unapplied(db.acks)|)
  }

  function QueryHealth(db: Database): StoredHealth {
    StoredHealth(db.nextSequence, db.lastAcknowledged, QueryQueue(db.queue), QueryBatches(db),
                 MinOf(db.queue, UnresolvedSequence), MinOf(db.queue, UnresolvedCreation), MinOf(db.queue, RetryTime))
  }

  function LoadHealth(db: Database, observedAt: int): Result<Snapshot, HealthError> {
    if observedAt < 0 then Err(NegativeObservationTime) else Decode(QueryHealth(db), observedAt)
  }

  // ---- Conservation -----------------------------------------------------

  lemma {:induction false} CountsAddUp(queue: seq<Row>)
    ensures var c := QueryQueue(queue);
      c.pending + c.inFlight + c.acknowledged + c.retryable + c.permanent + c.review == |queue|
  {
    if queue != [] {
      CountsAddUp(queue[..|queue| - 1]);
    }
  }

  /** The rows a watermark cannot pass. */
  function UnresolvedCount(queue: seq<Row>): nat {
    if queue == [] then 0
    else UnresolvedCount(queue[..|queue| - 1]) + if queue[|queue| - 1].state.Resolved() then 0 else 1
  }

  lemma {:induction false} UnresolvedAddUp(queue: seq<Row>)
    ensures var c := QueryQueue(queue); c.pending + c.inFlight + c.retryable + c.review == UnresolvedCount(queue)
  {
    if queue != [] {
      UnresolvedAddUp(queue[..|queue| - 1]);
    }
  }

  function ActiveBatches(batches: map<BatchId, Batch>): set<BatchId> {
    set b | b in batches && batches[b].state.Active()
  }

  lemma ActiveAddUp(batches: map<BatchId, Batch>)
    ensures |BatchesIn(batches, Prepared)| + |BatchesIn(batches, Submitted)| + |BatchesIn(batches, Retryable)|
         == |ActiveBatches(batches)|
  {
    var p, s, r := BatchesIn(batches, Prepared), BatchesIn(batches, Submitted), BatchesIn(batches, Retryable);
    assert ActiveBatches(batches) == p + s + r;
    assert |p + s + r| == |p + s| + |r|;
  }

  lemma FirstEntry(db: Database, b: BatchId)
    requires Inv(db) && b in db.batches
    ensures var x := db.batches[b];
      x.entries != [] && x.first == x.entries[0].sequence && EntryOk(db.queue, x.entries[0])
  {
    hide AcksOk, AllEvidenced, QueueOk, Exclusive, ResolvedUpTo, EntryOk;
    assert BatchOk(db.queue, db.batches[b]);
  }

  lemma ActiveAreDisjoint(db: Database, b: BatchId, c: BatchId)
    requires Inv(db) && b in ActiveBatches(db.batches) && c in ActiveBatches(db.batches) && b != c
    ensures !Overlap(db.batches[b], db.batches[c])
  {
    hide AcksOk, AllEvidenced, QueueOk, BatchOk, ResolvedUpTo, Overlap;
  }

  /** Active batches have different first sequences, since they share no
      transaction. */
  lemma FirstSequencesDiffer(db: Database, b: BatchId, c: BatchId)
    requires Inv(db) && b in ActiveBatches(db.batches) && c in ActiveBatches(db.batches) && b != c
    ensures db.batches[b].first != db.batches[c].first
  {
    hide Inv;
    FirstEntry(db, b);
    FirstEntry(db, c);
    ActiveAreDisjoint(db, b, c);
  }

  lemma FirstInRange(db: Database, b: BatchId)
    requires Inv(db) && b in db.batches
    ensures 1 <= db.batches[b].first <= |db.queue|
  {
    hide Inv;
    FirstEntry(db, b);
  }

  /** The first sequences of some batches. */
  ghost function Firsts(batches: map<BatchId, Batch>, some: set<BatchId>): set<int>
    requires some <= batches.Keys
  {
    set b | b in some :: batches[b].first
  }

  lemma {:induction false} FirstsCount(db: Database, some: set<BatchId>)
    requires Inv(db) && some <= ActiveBatches(db.batches)
    ensures |Firsts(db.batches, some)| == |some|
  {
    hide Inv;
    if some != {} {
      var b :| b in some;
      var rest := some - {b};
      FirstsCount(db, rest);
      forall c | c in rest ensures db.batches[c].first != db.batches[b].first {
        FirstSequencesDiffer(db, b, c);
      }
      assert Firsts(db.batches, some) == Firsts(db.batches, rest) + {db.batches[b].first};
    }
  }

  lemma {:induction false} RangeCount(n: nat, values: set<int>)
    requires forall v :: v in values ==> 1 <= v <= n
    ensures |values| <= n
  {
    if n == 0 {
      assert forall v :: v !in values;
      assert values == {};
    } else {
      RangeCount(n - 1, values - {n});
    }
  }

  /** There are never more active batches than queued transactions. */
  lemma ActiveBatchesBounded(db: Database)
    requires Inv(db)
    ensures |ActiveBatches(db.batches)| <= |db.queue|
  {
    hide Inv;
    var active := ActiveBatches(db.batches);
    FirstsCount(db, active);
    forall v | v in Firsts(db.batches, active) ensures 1 <= v <= |db.queue| {
      var b :| b in active && db.batches[b].first == v;
      FirstInRange(db, b);
    }
    RangeCount(|db.queue|, Firsts(db.batches, active));
  }

  /** Conservation: in every reachable database the six counts sum to
      next - 1, and no saturating sum saturates: each is the true number of
      rows or batches. */
  lemma HealthConservation(db: Database)
    requires Reachable(db)
    ensures var c := QueryQueue(db.queue); var b := QueryBatches(db);
      && c.Total() == c.pending + c.inFlight + c.acknowledged + c.retryable + c.permanent + c.review
      && c.Total() == db.nextSequence - 1
      && c.Unresolved() == UnresolvedCount(db.queue)
      && c.RetainedFailures() == c.retryable + c.permanent + c.review
      && b.Active() == |ActiveBatches(db.batches)| <= c.Total()
  {
    hide QueueOk, BatchesOk, AcksOk, AllEvidenced, ResolvedUpTo, CountRows, UnresolvedCount, BatchesIn, ActiveBatches,
         Reachable;
    ReachableInv(db);
    CountsAddUp(db.queue);
    UnresolvedAddUp(db.queue);
    ActiveAddUp(db.batches);
    ActiveBatchesBounded(db);
  }

  // ---- Decoding of reachable databases ----------------------------------

  lemma MinsArePresentTogether(queue: seq<Row>)
    ensures MinOf(queue, UnresolvedSequence).Some? <==> MinOf(queue, UnresolvedCreation).Some?
  {
    MinOfExact(queue, UnresolvedSequence);
    MinOfExact(queue, UnresolvedCreation);
    hide MinOf;
  }

  lemma MinsAreSane(queue: seq<Row>)
    requires QueueOk(queue)
    ensures MinOf(queue, UnresolvedSequence).Some? ==> MinOf(queue, UnresolvedSequence).value > 0
    ensures MinOf(queue, UnresolvedCreation).Some? ==> MinOf(queue, UnresolvedCreation).value >= 0
    ensures MinOf(queue, RetryTime).Some? ==> MinOf(queue, RetryTime).value >= 0
  {
    MinOfExact(queue, UnresolvedSequence);
    MinOfExact(queue, UnresolvedCreation);
    MinOfExact(queue, RetryTime);
    hide MinOf;
  }

  predicate AnyUnresolved(queue: seq<Row>) {
    exists i :: 0 <= i < |queue| && Unresolved(queue[i])
  }

  /** Some unresolved transaction was created no later than this. */
  predicate UnresolvedSince(queue: seq<Row>, at: int) {
    exists i :: 0 <= i < |queue| && Unresolved(queue[i]) && queue[i].createdAt <= at
  }

  lemma OldestBounds(queue: seq<Row>, at: int)
    ensures var oldest := MinOf(queue, UnresolvedCreation);
      && (oldest.Some? <==> AnyUnresolved(queue))
      && (oldest.Some? && oldest.value <= at <==> UnresolvedSince(queue, at))
  {
    MinOfExact(queue, UnresolvedCreation);
    hide MinOf;
    var oldest := MinOf(queue, UnresolvedCreation);
    if oldest.Some? {
      var i :| 0 <= i < |queue| && Value(queue[i], UnresolvedCreation) == Some(oldest.value);
      assert Unresolved(queue[i]) && queue[i].createdAt == oldest.value;
    }
    forall i | 0 <= i < |queue| && Unresolved(queue[i]) ensures oldest.Some? && oldest.value <= queue[i].createdAt {
      assert Value(queue[i], UnresolvedCreation) == Some(queue[i].createdAt);
    }
  }

  /** Decoding the snapshot of a reachable database fails exactly when the
      observation is negative, or something is unresolved and all of it was
      created later; no stored value is ever rejected. */
  lemma HealthExact(db: Database, observedAt: int)
    requires Reachable(db)
    ensures LoadHealth(db, observedAt).Ok? <==>
      observedAt >= 0 && (!AnyUnresolved(db.queue) || UnresolvedSince(db.queue, observedAt))
    ensures LoadHealth(db, observedAt).Err? ==> !LoadHealth(db, observedAt).error.InvalidHealthValue?
  {
    ReachableInv(db);
    MinsArePresentTogether(db.queue);
    MinsAreSane(db.queue);
    OldestBounds(db.queue, observedAt);
    hide MinOf, BatchesOk, AcksOk, AllEvidenced, RowOk, Reachable, AnyUnresolved, UnresolvedSince;
    assert QueryQueue(db.queue).NonNegative() && QueryBatches(db).NonNegative();
  }

  lemma LowestExact(queue: seq<Row>)
    requires Numbered(queue)
    ensures var lowest := MinOf(queue, UnresolvedSequence);
      && (lowest.Some? ==>
            && 1 <= lowest.value <= |queue| && !ResolvedAt(queue, lowest.value)
            && forall n :: 1 <= n < lowest.value ==> ResolvedAt(queue, n))
      && (lowest.None? ==> forall n :: 1 <= n <= |queue| ==> ResolvedAt(queue, n))
  {
    MinOfExact(queue, UnresolvedSequence);
    hide MinOf;
    forall n | 1 <= n <= |queue|
      ensures Value(queue[n - 1], UnresolvedSequence) == if ResolvedAt(queue, n) then None else Some(n)
    {
    }
  }

  /** The lowest unresolved sequence is always above the watermark and below
      the next sequence, and every sequence under it is resolved. */
  lemma LowestAboveWatermark(db: Database)
    requires Reachable(db)
    ensures var lowest := QueryHealth(db).lowest;
      && (lowest.Some? ==>
            && db.lastAcknowledged < lowest.value < db.nextSequence
            && !ResolvedAt(db.queue, lowest.value)
            && forall n :: 1 <= n < lowest.value ==> ResolvedAt(db.queue, n))
      && (lowest.None? ==> forall n :: 1 <= n < db.nextSequence ==> ResolvedAt(db.queue, n))
  {
    hide MinOf, BatchesOk, AcksOk, AllEvidenced, RowOk, Reachable, CountRows;
    ReachableInv(db);
    assert Numbered(db.queue);
    hide QueueOk, Numbered;
    LowestExact(db.queue);
  }

  /** Right after an application the watermark stands directly below the
      lowest unresolved sequence, or below the next sequence when nothing is
      unresolved. */
  lemma WatermarkMeetsHealth(db: Database, batchId: BatchId, at: int)
    requires Reachable(db) && ApplyAck(db, batchId, at).result.Ok? && ApplyAck(db, batchId, at).result.value.appliedNow
    ensures var db' := ApplyAck(db, batchId, at).db; var lowest := QueryHealth(db').lowest;
      db'.lastAcknowledged + 1 == if lowest.Some? then lowest.value else db'.nextSequence
  {
    var db' := ApplyAck(db, batchId, at).db;
    WatermarkExact(db, batchId, at);
    assert db' == Step(db, DoApplyAck(batchId, at));
    assert Reachable(db') by { ReachableExtends(db, DoApplyAck(batchId, at)); }
    LowestAboveWatermark(db');
    ReachableInv(db');
    hide BatchesOk, AcksOk, AllEvidenced, QueueOk, ApplyAck, Reachable, MinOf;
  }

  // ---- The snapshot, field by field -------------------------------------

  /** Neither acknowledged nor failed for good. */
  predicate StillOpen(row: Row) {
    row.state != Acknowledged && row.state != PermanentFailure
  }

  function InState(queue: seq<Row>, state: QueueState): set<nat> {
    set i: nat | i < |queue| && queue[i].state == state
  }

  lemma InStateGrows(queue: seq<Row>, state: QueueState)
    requires queue != []
    ensures var n := |queue| - 1; var before := InState(queue[..n], state);
      n !in before && InState(queue, state) == before + if queue[n].state == state then {n} else {}
  {
    var n := |queue| - 1;
    forall i: nat | i < n ensures queue[..n][i] == queue[i] {
    }
  }

  lemma {:induction false} CountIsSet(queue: seq<Row>, state: QueueState)
    ensures CountRows(queue, state) == |InState(queue, state)|
  {
    if queue == [] {
      assert forall i :: i !in InState(queue, state);
      assert InState(queue, state) == {};
    } else {
      hide InState;
      CountIsSet(queue[..|queue| - 1], state);
      InStateGrows(queue, state);
    }
  }

  /** The least of the values that some rows have, if any row has one. */
  predicate LeastOpenSequence(queue: seq<Row>, m: Option<int>) {
    match m
    case None => forall i :: 0 <= i < |queue| ==> !StillOpen(queue[i])
    case Some(v) =>
      && (exists i :: 0 <= i < |queue| && StillOpen(queue[i]) && queue[i].sequence == v)
      && forall i :: 0 <= i < |queue| && StillOpen(queue[i]) ==> v <= queue[i].sequence
  }

  predicate OldestOpen(queue: seq<Row>, m: Option<int>) {
    match m
    case None => forall i :: 0 <= i < |queue| ==> !StillOpen(queue[i])
    case Some(v) =>
      && (exists i :: 0 <= i < |queue| && StillOpen(queue[i]) && queue[i].createdAt == v)
      && forall i :: 0 <= i < |queue| && StillOpen(queue[i]) ==> v <= queue[i].createdAt
  }

  predicate NextRetry(queue: seq<Row>, m: Option<int>) {
    match m
    case None => forall i :: 0 <= i < |queue| ==> queue[i].state != RetryableFailure
    case Some(v) =>
      && (exists i :: 0 <= i < |queue| && queue[i].state == RetryableFailure && queue[i].retryAt == Some(v))
      && forall i :: 0 <= i < |queue| && queue[i].state == RetryableFailure ==>
           queue[i].retryAt != None && v <= queue[i].retryAt.value
  }

  lemma OpenMins(queue: seq<Row>)
    ensures LeastOpenSequence(queue, MinOf(queue, UnresolvedSequence))
    ensures OldestOpen(queue, MinOf(queue, UnresolvedCreation))
  {
    MinOfExact(queue, UnresolvedSequence);
    MinOfExact(queue, UnresolvedCreation);
    hide MinOf;
    forall i | 0 <= i < |queue|
      ensures Value(queue[i], UnresolvedSequence) == if StillOpen(queue[i]) then Some(queue[i].sequence) else None
      ensures Value(queue[i], UnresolvedCreation) == if StillOpen(queue[i]) then Some(queue[i].createdAt) else None
    {
    }
    hide Value, StillOpen;
    AttainedBy(queue, UnresolvedSequence);
    AttainedBy(queue, UnresolvedCreation);
  }

  lemma AttainedBy(queue: seq<Row>, q: Query)
    ensures MinOf(queue, q).Some? ==> exists i :: 0 <= i < |queue| && Value(queue[i], q) == MinOf(queue, q)
  {
    MinOfExact(queue, q);
    hide MinOf, Value;
    if MinOf(queue, q).Some? {
      var i :| 0 <= i < |queue| && Value(queue[i], q) == Some(MinOf(queue, q).value);
    }
  }

  lemma RetryMin(queue: seq<Row>)
    requires QueueOk(queue)
    ensures NextRetry(queue, MinOf(queue, RetryTime))
  {
    MinOfExact(queue, RetryTime);
    AttainedBy(queue, RetryTime);
    hide MinOf;
    forall i | 0 <= i < |queue|
      ensures Value(queue[i], RetryTime) == if queue[i].state == RetryableFailure then queue[i].retryAt else None
      ensures queue[i].state == RetryableFailure ==> queue[i].retryAt != None
    {
      assert RowOk(queue[i]);
    }
  }

  /** Every field of the snapshot of a reachable database: the counts are the
      numbers of rows, batches and acknowledgements in each state, the lowest
      sequence and the age are those of the open rows, and the next retry is
      the earliest one. */
  lemma SnapshotExact(db: Database, observedAt: int)
    requires Reachable(db) && LoadHealth(db, observedAt).Ok?
    ensures var v := LoadHealth(db, observedAt).value; var q := db.queue;
      && v.observedAt == observedAt && v.next == db.nextSequence && v.last == db.lastAcknowledged
      && v.queue.pending == |InState(q, Pending)| && v.queue.inFlight == |InState(q, InFlight)|
      && v.queue.acknowledged == |InState(q, Acknowledged)| && v.queue.retryable == |InState(q, RetryableFailure)|
      && v.queue.permanent == |InState(q, PermanentFailure)| && v.queue.review == |InState(q, ManualReview)|
      && v.batches.prepared == |set b | b in db.batches && db.batches[b].state == Prepared|
      && v.batches.inFlight == |set b | b in db.batches && db.batches[b].state == Submitted|
      && v.batches.retryable == |set b | b in db.batches && db.batches[b].state == Retryable|
      && v.batches.unapplied == |set b | b in db.acks && db.acks[b].appliedAt == None|
      && LeastOpenSequence(q, v.lowest) && NextRetry(q, v.nextRetry)
      && OldestOpen(q, if v.oldestAge == None then None else Some(observedAt - v.oldestAge.value))
  {
    hide MinOf, CountRows, InState, LeastOpenSequence, OldestOpen, NextRetry, Reachable, BatchesOk, AcksOk,
         AllEvidenced, QueueOk;
    ReachableInv(db);
    CountIsSet(db.queue, Pending);
    CountIsSet(db.queue, InFlight);
    CountIsSet(db.queue, Acknowledged);
    CountIsSet(db.queue, RetryableFailure);
    CountIsSet(db.queue, PermanentFailure);
    CountIsSet(db.queue, ManualReview);
    OpenMins(db.queue);
    RetryMin(db.queue);
    BatchSets(db);
    hide BatchesIn, Unapplied;
  }

  lemma BatchSets(db: Database)
    ensures BatchesIn(db.batches, Prepared) == set b | b in db.batches && db.batches[b].state == Prepared
    ensures BatchesIn(db.batches, Submitted) == set b | b in db.batches && db.batches[b].state == Submitted
    ensures BatchesIn(db.batches, Retryable) == set b | b in db.batches && db.batches[b].state == Retryable
    ensures Unapplied(db.acks) == set b | b in db.acks && db.acks[b].appliedAt == None
  {
  }

  /** The snapshot fails for these reasons only; the error names the creation
      of the oldest open row. */
  lemma HealthErrors(db: Database, observedAt: int)
    requires Reachable(db) && LoadHealth(db, observedAt).Err?
    ensures match LoadHealth(db, observedAt).error
      case NegativeObservationTime => observedAt < 0
      case ObservationBeforeQueueActivity(stored) => observedAt < stored && OldestOpen(db.queue, Some(stored))
      case InvalidHealthValue => false
  {
    HealthExact(db, observedAt);
    OpenMins(db.queue);
    hide MinOf, OldestOpen, LeastOpenSequence, Reachable, CountRows, AnyUnresolved, UnresolvedSince;
  }
}
