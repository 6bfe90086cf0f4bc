/** The reader's SQLite tables as values, and the guarded updates of queue
    rows that every operation is made of. */
module ReaderTables {
  import opened Basics

  // ---- offline_transactions ---------------------------------------------

  datatype QueueState = Pending | InFlight | Acknowledged | RetryableFailure | PermanentFailure | ManualReview {
    /** No operation changes a row in one of these states. */
    predicate Terminal() {
      Acknowledged? || PermanentFailure? || ManualReview?
    }

    /** The states the watermark may pass. */
    predicate Resolved() {
      Acknowledged? || PermanentFailure?
    }
  }

  /** The stored envelope: the canonical text of a JSON object, or some other
      JSON value. */
  datatype Envelope = JsonObject(canonical: Text) | JsonOther(text: Text)

  datatype Row = Row(
    id: TransactionId, sequence: int, envelope: Envelope, state: QueueState, attempts: int,
    retryAt: Option<int>, failure: Option<string>, createdAt: int, updatedAt: int)

  predicate Due(retryAt: Option<int>, at: int) {
    retryAt.None? || retryAt.value <= at
  }

  /** Pending, or retryable with its retry time reached. */
  predicate Ready(row: Row, at: int) {
    row.state.Pending? || (row.state.RetryableFailure? && Due(row.retryAt, at))
  }

  /** The backend's resolution of one entry. */
  datatype Resolution =
    | Accepted
    | RetryLater(category: string, retryAt: int)
    | Refused(category: string)
    | Review(category: string)

  /** One conditional UPDATE of a queue row. */
  datatype Change =
    | Reserve(at: int)
    | Attempt(at: int)
    | Resubmit(at: int)
    | Resolve(resolution: Resolution, at: int)
    | Retry(category: string, retryAt: int, at: int)
    | Finish(review: bool, category: string, at: int)

  /** The WHERE clause, beyond the row's identity. */
  predicate Guard(row: Row, c: Change) {
    && row.updatedAt <= c.at
    && if c.Reserve? || c.Attempt? then Ready(row, c.at) else row.state.InFlight?
  }

  /** The SET clause. */
  function Changed(row: Row, c: Change): Row {
    match c
    case Reserve(at) => row.(state := InFlight, retryAt := None, failure := None, updatedAt := at)
    case Attempt(at) =>
      row.(state := InFlight, attempts := row.attempts + 1, retryAt := None, failure := None, updatedAt := at)
    case Resubmit(at) => row.(attempts := row.attempts + 1, updatedAt := at)
    case Resolve(resolution, at) =>
      (match resolution
       case Accepted => row.(state := Acknowledged, retryAt := None, failure := None, updatedAt := at)
       case RetryLater(category, retryAt) =>
         row.(state := RetryableFailure, retryAt := Some(retryAt), failure := Some(category), updatedAt := at)
       case Refused(category) =>
         row.(state := PermanentFailure, retryAt := None, failure := Some(category), updatedAt := at)
       case Review(category) =>
         row.(state := ManualReview, retryAt := None, failure := Some(category), updatedAt := at))
    case Retry(category, retryAt, at) =>
      row.(state := RetryableFailure, retryAt := Some(retryAt), failure := Some(category), updatedAt := at)
    case Finish(review, category, at) =>
      row.(state := if review then ManualReview else PermanentFailure, retryAt := None, failure := Some(category),
           updatedAt := at)
  }

  predicate Hit(row: Row, changes: map<TransactionId, Change>) {
    row.id in changes && Guard(row, changes[row.id])
  }

  function UpdateRow(row: Row, changes: map<TransactionId, Change>): Row {
    if Hit(row, changes) then Changed(row, changes[row.id]) else row
  }

  /** The table after the given conditional updates. */
  function Update(queue: seq<Row>, changes: map<TransactionId, Change>): (r: seq<Row>)
    ensures |r| == |queue| && forall i :: 0 <= i < |queue| ==> r[i] == UpdateRow(queue[i], changes)
  {
    seq(|queue|, i requires 0 <= i < |queue| => UpdateRow(queue[i], changes))
  }

  /** The number of rows those updates affect. */
  function Hits(queue: seq<Row>, changes: map<TransactionId, Change>): nat {
    if queue == [] then 0
    else Hits(queue[..|queue| - 1], changes) + if Hit(queue[|queue| - 1], changes) then 1 else 0
  }

  predicate DistinctRows(queue: seq<Row>) {
    forall i, j :: 0 <= i < j < |queue| ==> queue[i].id != queue[j].id
  }

  predicate HitsSome(queue: seq<Row>, changes: map<TransactionId, Change>, id: TransactionId) {
    exists i :: 0 <= i < |queue| && queue[i].id == id && Hit(queue[i], changes)
  }

  function HitIds(queue: seq<Row>, changes: map<TransactionId, Change>): set<TransactionId> {
    if queue == [] then {}
    else
      var last := queue[|queue| - 1];
      HitIds(queue[..|queue| - 1], changes) + if Hit(last, changes) then {last.id} else {}
  }

  lemma {:induction false} HitIdsMembers(queue: seq<Row>, changes: map<TransactionId, Change>, id: TransactionId)
    ensures id in HitIds(queue, changes) <==> HitsSome(queue, changes, id)
    ensures id in HitIds(queue, changes) ==> id in changes
  {
    hide Guard;
    if queue != [] {
      var n := |queue| - 1;
      HitIdsMembers(queue[..n], changes, id);
      if HitsSome(queue[..n], changes, id) {
        var i :| 0 <= i < n && queue[..n][i].id == id && Hit(queue[..n][i], changes);
        assert queue[i].id == id && Hit(queue[i], changes);
      }
    }
  }

  lemma {:induction false} HitsCountIds(queue: seq<Row>, changes: map<TransactionId, Change>)
    requires DistinctRows(queue)
    ensures Hits(queue, changes) == |HitIds(queue, changes)|
  {
    hide Hit;
    if queue != [] {
      var n := |queue| - 1;
      HitsCountIds(queue[..n], changes);
      HitIdsMembers(queue[..n], changes, queue[n].id);
    }
  }

  lemma SubsetSize<T>(a: set<T>, b: set<T>)
    requires a <= b
    ensures |a| <= |b| && (|a| == |b| <==> a == b)
  {
    assert b == a + (b - a);
  }

  /** With distinct identities, as many rows are affected as there are updates
      exactly when every update finds a row that satisfies its guard. */
  lemma HitsAll(queue: seq<Row>, changes: map<TransactionId, Change>)
    requires DistinctRows(queue)
    ensures Hits(queue, changes) <= |changes|
    ensures Hits(queue, changes) == |changes| <==> forall id :: id in changes ==> HitsSome(queue, changes, id)
  {
    hide HitsSome;
    HitsCountIds(queue, changes);
    forall id | id in HitIds(queue, changes) ensures id in changes {
      HitIdsMembers(queue, changes, id);
    }
    SubsetSize(HitIds(queue, changes), changes.Keys);
    assert |changes| == |changes.Keys|;
    forall id ensures id in HitIds(queue, changes) <==> HitsSome(queue, changes, id) {
      HitIdsMembers(queue, changes, id);
    }
  }

  /** Updates of different rows compose into one. */
  lemma UpdateCompose(queue: seq<Row>, first: map<TransactionId, Change>, second: map<TransactionId, Change>)
    requires first.Keys !! second.Keys
    ensures Update(Update(queue, first), second) == Update(queue, first + second)
  {
  }

  // ---- synchronization_batches and synchronization_entries --------------

  /** prepared, in_flight, retryable_failure, acknowledged, permanent_failure
      and manual_review of the batch table. */
  datatype BatchState = Prepared | Submitted | Retryable | Completed | Failed | UnderReview {
    predicate Active() {
      Prepared? || Submitted? || Retryable?
    }
  }

  datatype EntryRow = EntryRow(transactionId: TransactionId, sequence: int, position: int)

  datatype Batch = Batch(
    protocol: int, first: int, last: int, state: BatchState, attempts: int, submittedAt: Option<int>,
    retryAt: Option<int>, failure: Option<string>, createdAt: int, updatedAt: int, entries: seq<EntryRow>)

  predicate Names(entries: seq<EntryRow>, id: TransactionId) {
    exists k :: 0 <= k < |entries| && entries[k].transactionId == id
  }

  predicate InActiveBatch(batches: map<BatchId, Batch>, id: TransactionId) {
    exists b :: b in batches && batches[b].state.Active() && Names(batches[b].entries, id)
  }

  function EntryIds(entries: seq<EntryRow>): set<TransactionId> {
    set k | 0 <= k < |entries| :: entries[k].transactionId
  }

  /** The same change for every entry of a batch. */
  function ForEntries(entries: seq<EntryRow>, c: Change): map<TransactionId, Change> {
    map id | id in EntryIds(entries) :: c
  }

  // ---- synchronization_acknowledgements and their entries ---------------

  datatype AckEntryRow = AckEntryRow(
    transactionId: TransactionId, sequence: int, position: int, outcome: string,
    failure: Option<string>, retryAt: Option<int>)

  /** The canonical payload; the columns and entry rows hold the same values. */
  datatype Payload = Payload(
    readerId: ReaderId, batchId: BatchId, protocol: int, first: int, last: int, receivedAt: int,
    entries: seq<AckEntryRow>)

  datatype StoredAck = StoredAck(payload: Payload, appliedAt: Option<int>)

  // ---- reader_state and the whole database ------------------------------

  datatype Identity = Identity(readerId: ReaderId, environment: Text, software: Text, protocol: int, createdAt: int)

  datatype Database = Database(
    identity: Identity, nextSequence: int, lastAcknowledged: int,
    queue: seq<Row>, batches: map<BatchId, Batch>, acks: map<BatchId, StoredAck>)

  /** A database just bound to its reader. */
  function Bound(identity: Identity): Database {
    Database(identity, 1, 0, [], map[], map[])
  }
}
