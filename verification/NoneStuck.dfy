/** No transaction is stuck: from every world that arises, a transaction that
    is open and clear can still be acknowledged. */
module NoneStuck {
  import opened Basics
  import opened ReaderTables
  import opened ReaderAcknowledgement
  import opened ReaderSteps
  import opened ReaderInvariant
  import opened ReaderPreservation
  import opened ReaderRuns
  import opened ReaderCoupling
  import opened ReaderOutcomes
  import opened ReaderRequest
  import opened Backend
  import opened World
  import opened Delivery
  import opened Submission
  import opened Progress
  import Protocol

  // ---- Extensions of a world --------------------------------------------

  /** Possible events, with batch-level reader operations only, lead from w to
      v. */
  ghost predicate Reaches(g: Setting, w: World, v: World) {
    exists events :: AllPossible(w.Me(), events) && NoRowOps(events) && v == After(g, w, events)
  }

  lemma ReachesSelf(g: Setting, w: World)
    ensures Reaches(g, w, w)
  {
    var events: seq<Event> := [];
    assert AllPossible(w.Me(), events) && NoRowOps(events) && After(g, w, events) == w;
  }

  /** One more event. */
  lemma ReachesNext(g: Setting, w: World, v: World, e: Event)
    requires ArisesByBatches(g, v) && Reaches(g, w, v) && v.Me() == w.Me()
    requires Possible(w.Me(), e) && (e.Local? ==> e.op.BatchLevel())
    ensures Reaches(g, w, Next(g, v, e)) && ArisesByBatches(g, Next(g, v, e)) && Next(g, v, e).Me() == w.Me()
  {
    hide Next, Possible, ArisesByBatches;
    WorldExtends(g, v, e);
    var events :| AllPossible(w.Me(), events) && NoRowOps(events) && v == After(g, w, events);
    var longer := events + [e];
    assert longer[..|longer| - 1] == events;
    assert AllPossible(w.Me(), longer) && NoRowOps(longer) && After(g, w, longer) == Next(g, v, e);
  }

  lemma ArisingInv(g: Setting, w: World)
    requires ArisesByBatches(g, w)
    ensures Arises(g, w) && WorldInv(g, w) && Inv(w.db) && Coupled(w.db)
  {
    hide ArisesByBatches, Arises, WorldInv, Inv, Coupled;
    ArisesCoupled(g, w);
    ArisesOk(g, w);
    WorldHasInv(g, w);
  }

  // ---- Clear transactions and batches -----------------------------------

  predicate NotTaken(w: World, id: TransactionId) {
    id in w.backend.transactions ==> w.backend.transactions[id].readerId == w.Me()
  }

  /** The entry's envelope can be sent and stored, and no other reader uses
      its identity. */
  predicate EntryClear(w: World, e: EntryRow) {
    && EntrySends(w.db.queue, e) && Storable(w.db.queue[e.sequence - 1].envelope.canonical)
    && NotTaken(w, e.transactionId)
  }

  predicate EntriesClear(w: World, entries: seq<EntryRow>) {
    forall k :: 0 <= k < |entries| ==> EntryClear(w, entries[k])
  }

  predicate BatchIdClear(w: World, b: BatchId) {
    b in w.backend.batches ==> w.backend.batches[b].readerId == w.Me()
  }

  /** The batch is in flight or can be submitted at this time, within the
      limits of protocol and attempt counter, and all it names is clear. */
  predicate BatchClear(w: World, b: BatchId, at: int) {
    && b in w.db.batches && BatchIdClear(w, b)
    && w.db.batches[b].protocol == CURRENT_VERSION
    && |w.db.batches[b].entries| <= Protocol.MAX_ENTRIES && EntriesClear(w, w.db.batches[b].entries)
    && if w.db.batches[b].state.Submitted? then w.db.batches[b].updatedAt <= at && w.db.batches[b].attempts <= U32_MAX
       else Submittable(w.db.batches[b], at) && w.db.batches[b].attempts < U32_MAX
  }

  predicate Suited(g: Setting, w: World) {
    IdentityFits(w.db.identity, CURRENT_VERSION) && w.db.identity.environment == g.environment
  }

  // ---- A clear batch settles --------------------------------------------

  lemma ClearIsSendable(w: World, b: BatchId)
    requires b in w.db.batches && w.db.batches[b].protocol == CURRENT_VERSION && w.db.batches[b].submittedAt.Some?
    requires IdentityFits(w.db.identity, CURRENT_VERSION)
    requires |w.db.batches[b].entries| <= Protocol.MAX_ENTRIES && EntriesClear(w, w.db.batches[b].entries)
    ensures Sendable(w.db, b)
  {
    hide EntrySends, IdentityFits, Storable;
    forall k | 0 <= k < |w.db.batches[b].entries| ensures EntrySends(w.db.queue, w.db.batches[b].entries[k]) {
      assert EntryClear(w, w.db.batches[b].entries[k]);
    }
    assert IdentityFits(w.db.identity, w.db.batches[b].protocol);
  }

  lemma InFlightWasSubmitted(db: Database, b: BatchId)
    requires Inv(db) && b in db.batches && db.batches[b].state.Submitted?
    ensures db.batches[b].submittedAt.Some?
  {
    hide Inv, QueueOk, EntriesOk;
    BatchShape(db, b);
  }

  lemma ClearIsUnclaimed(w: World, b: BatchId)
    requires Inv(w.db) && Sendable(w.db, b) && BatchIdClear(w, b) && EntriesClear(w, w.db.batches[b].entries)
    ensures !Claimed(w.backend, RequestOf(w.db, b)) && AllStorable(RequestOf(w.db, b))
  {
    hide Inv, RequestOf, Storable, TextFits;
    var r := RequestOf(w.db, b);
    RequestFields(w.db, b);
    forall k | 0 <= k < |r.entries|
      ensures !TakenByOther(w.backend.transactions, r, k) && Storable(r.entries[k].envelope)
    {
      RequestEntryRow(w.db, b, k);
      assert EntryClear(w, w.db.batches[b].entries[k]);
    }
  }

  /** A clear batch in flight is deliverable. */
  lemma ClearIsDeliverable(g: Setting, w: World, b: BatchId, at: int)
    requires Inv(w.db) && Suited(g, w) && BatchClear(w, b, at) && w.db.batches[b].state.Submitted? && at >= 0
    ensures Deliverable(g, w, b) && Awaiting(w.db, b, at)
  {
    hide Inv, EntriesClear, Sendable, RequestOf, TextFits, BatchIdClear, Claimed, AllStorable;
    InFlightWasSubmitted(w.db, b);
    ClearIsSendable(w, b);
    ClearIsUnclaimed(w, b);
  }

  lemma ClearCarries(w: World, v: World, entries: seq<EntryRow>)
    requires EntriesClear(w, entries) && v.backend == w.backend && v.Me() == w.Me()
    requires QueueEvolves(w.db.queue, v.db.queue)
    ensures EntriesClear(v, entries)
  {
    hide Storable;
    forall k | 0 <= k < |entries| ensures EntryClear(v, entries[k]) {
      assert EntryClear(w, entries[k]);
      assert RowEvolves(w.db.queue[entries[k].sequence - 1], v.db.queue[entries[k].sequence - 1]);
    }
  }

  /** Submitting a clear batch leaves it clear and in flight. */
  lemma ClearSubmits(g: Setting, w: World, b: BatchId, at: I64)
    requires Inv(w.db) && Coupled(w.db) && at >= 0 && Suited(g, w)
    requires BatchClear(w, b, at) && !w.db.batches[b].state.Submitted?
    ensures var v := Next(g, w, Local(DoSubmitBatch(b, at)));
      && BatchClear(v, b, at) && v.db.batches[b].state.Submitted? && v.db.batches[b].entries == w.db.batches[b].entries
      && Suited(g, v) && QueueEvolves(w.db.queue, v.db.queue)
  {
    hide Inv, Coupled, Evolves, QueueEvolves, EntriesClear, IdentityFits, SubmitBatch, LoadBatch;
    SubmitCommits(w.db, b, at);
    SubmitKeepsInv(w.db, b, at);
    EvolvesParts(w.db, SubmitBatch(w.db, b, at).db);
    ClearCarries(w, Next(g, w, Local(DoSubmitBatch(b, at))), w.db.batches[b].entries);
  }

  /** Delivering a settling reply and applying it is what a submission does. */
  lemma ReplyApplied(g: Setting, w: World, a: Reply, at: int)
    requires a in w.replies && a.batchId in w.db.batches
    requires Settles(w.db, a.batchId, Submit(w.db, a.batchId, Ok(a), at, at))
    ensures var stored := Next(g, w, Deliver(a));
      var done := Next(g, stored, Local(DoApplyAck(a.batchId, Max(at, a.receivedAt))));
      AllRows(done.db.queue, w.db.batches[a.batchId].entries, Acknowledged)
  {
    hide StoreAck, ApplyAck, AllRows, Protocol.ValidAck, RetriesAfterReceipt, Submit, Translated;
    SubmitIsTwoSteps(w.db, a, at);
  }

  lemma SubmitIsTwoSteps(db: Database, a: Reply, at: int)
    requires Submit(db, a.batchId, Ok(a), at, at).result.Ok?
    ensures Protocol.ValidAck(a) && RetriesAfterReceipt(a)
    ensures Submit(db, a.batchId, Ok(a), at, at).db
         == ApplyAck(StoreAck(db, Translated(a)).db, a.batchId, Max(at, a.receivedAt)).db
  {
    hide StoreAck, ApplyAck, Transportable, RetriesAfterReceipt, TranslatedLines, Protocol.WellFormedEntries;
  }

  /** From a world with a clear batch in flight, another is reached in which
      all its transactions are acknowledged. */
  lemma FlyingSettles(g: Setting, w: World, start: World, b: BatchId, at: I64, receivedAt: I64) returns (v: World)
    requires ArisesByBatches(g, w) && Reaches(g, start, w) && w.Me() == start.Me()
    requires Suited(g, w) && BatchClear(w, b, at) && w.db.batches[b].state.Submitted? && at >= 0 && receivedAt >= 0
    ensures Reaches(g, start, v) && AllRows(v.db.queue, w.db.batches[b].entries, Acknowledged)
  {
    hide ArisesByBatches, Arises, Reaches, WorldInv, Inv, Coupled, Suited, Sendable, Claimed, AllStorable, Awaiting,
         Settles, Submit, AllRows, Next, RequestOf, EntriesClear, BatchIdClear;
    ArisingInv(g, w);
    ClearIsDeliverable(g, w, b, at);
    var later, a := DeliverableSettles(g, w, b, receivedAt, at, at);
    ReachesNext(g, start, w, Send(b));
    ReachesNext(g, start, Next(g, w, Send(b)), Receive(RequestOf(w.db, b), receivedAt, Operational));
    ReachesNext(g, start, later, Deliver(a));
    var stored := Next(g, later, Deliver(a));
    ReachesNext(g, start, stored, Local(DoApplyAck(b, Max(at, a.receivedAt))));
    ReplyApplied(g, later, a, at);
    v := Next(g, stored, Local(DoApplyAck(b, Max(at, a.receivedAt))));
  }

  lemma ClearSettles(g: Setting, w: World, start: World, b: BatchId, at: I64, receivedAt: I64) returns (v: World)
    requires ArisesByBatches(g, w) && Reaches(g, start, w) && w.Me() == start.Me()
    requires Suited(g, w) && BatchClear(w, b, at) && at >= 0 && receivedAt >= 0
    ensures Reaches(g, start, v) && AllRows(v.db.queue, w.db.batches[b].entries, Acknowledged)
  {
    hide ArisesByBatches, Arises, Reaches, WorldInv, Inv, Coupled, Suited, AllRows, Next, QueueEvolves, EntriesClear,
         BatchIdClear;
    if w.db.batches[b].state.Submitted? {
      v := FlyingSettles(g, w, start, b, at, receivedAt);
    } else {
      ArisingInv(g, w);
      ClearSubmits(g, w, b, at);
      ReachesNext(g, start, w, Local(DoSubmitBatch(b, at)));
      v := FlyingSettles(g, Next(g, w, Local(DoSubmitBatch(b, at))), start, b, at, receivedAt);
    }
  }

  // ---- A waiting row gets its own batch ---------------------------------

  function Grounded(queue: seq<Row>): nat {
    if queue == [] then 0
    else Grounded(queue[..|queue| - 1]) + if queue[|queue| - 1].state.InFlight? then 0 else 1
  }

  lemma {:induction false} GroundedFalls(q: seq<Row>, r: seq<Row>, k: nat)
    requires |q| == |r| && k < |q| && !q[k].state.InFlight? && r[k].state.InFlight?
    requires forall i :: 0 <= i < |q| && i != k ==> r[i] == q[i]
    ensures Grounded(r) < Grounded(q)
  {
    var n := |q| - 1;
    if k < n {
      GroundedFalls(q[..n], r[..n], k);
    } else {
      assert r[..n] == q[..n];
    }
  }

  predicate RowsBy(queue: seq<Row>, at: int) {
    forall i :: 0 <= i < |queue| ==> queue[i].updatedAt <= at
  }

  /** Row i waits for a batch at this time. */
  predicate Waits(queue: seq<Row>, i: nat, at: int) {
    i < |queue| && Ready(queue[i], at)
  }

  /** With limit one, creation takes the first waiting row, row i or an
      earlier one. */
  lemma OneChosen(db: Database, b: BatchId, i: nat, at: int) returns (j: nat)
    requires Inv(db) && Coupled(db) && Waits(db.queue, i, at) && RowsBy(db.queue, at) && at >= 0 && b !in db.batches
    ensures j <= i && Ready(db.queue[j], at)
    ensures var o := CreateBatch(db, b, CURRENT_VERSION, at, 1);
      && o.result.Ok? && o.result.value == NewBatch(CURRENT_VERSION, [db.queue[j]], at)
      && o.db.batches == db.batches[b := o.result.value]
  {
    hide Inv, Coupled, Candidates, FirstBlocked, Ready, InActiveBatch, RowOk, NewBatch, ForEntries, Update;
    InvQueue(db);
    var chosen := Candidates(db, at, 1);
    assert Numbered(db.queue);
    CandidatesExact(db, at, 1);
    NoneSkipped(db, at, 1, i);
    assert |chosen| == 1;
    assert Selectable(db.queue, db.batches, at, chosen[0]);
    j := chosen[0].sequence - 1;
    assert chosen == [db.queue[j]];
    NothingBlocked(chosen, at);
  }

  lemma OnlyNamed(db: Database, j: nat, at: int, k: nat)
    requires Inv(db) && j < |db.queue| && k < |db.queue|
    ensures Names(NewBatch(CURRENT_VERSION, [db.queue[j]], at).entries, db.queue[k].id) <==> k == j
  {
    hide Inv, RowOk;
    InvQueue(db);
    var entries := NewBatch(CURRENT_VERSION, [db.queue[j]], at).entries;
    assert entries[0].transactionId == db.queue[j].id;
  }

  /** Only row j changes, and it is then in flight. */
  lemma OneReserved(db: Database, b: BatchId, j: nat, at: int)
    requires Inv(db) && j < |db.queue| && Ready(db.queue[j], at)
    requires var o := CreateBatch(db, b, CURRENT_VERSION, at, 1);
      o.result.Ok? && o.result.value == NewBatch(CURRENT_VERSION, [db.queue[j]], at)
    ensures var queue := CreateBatch(db, b, CURRENT_VERSION, at, 1).db.queue;
      && |queue| == |db.queue| && queue[j].state.InFlight? && queue[j].updatedAt == at
      && queue[j].envelope == db.queue[j].envelope && queue[j].id == db.queue[j].id
      && forall i :: 0 <= i < |queue| && i != j ==> queue[i] == db.queue[i]
  {
    hide Inv, CreateBatch, NewBatch, Names, Ready;
    ReservationExact(db, b, CURRENT_VERSION, at, 1);
    forall k | 0 <= k < |db.queue|
      ensures Names(NewBatch(CURRENT_VERSION, [db.queue[j]], at).entries, db.queue[k].id) <==> k == j
    {
      OnlyNamed(db, j, at, k);
    }
  }

  /** Batch identities that neither side has used yet. */
  predicate Unused(w: World, spare: seq<BatchId>) {
    && (forall k :: 0 <= k < |spare| ==> spare[k] !in w.db.batches && spare[k] !in w.backend.batches)
    && forall i, j :: 0 <= i < j < |spare| ==> spare[i] != spare[j]
  }

  /** What reserving a batch of row i alone leaves. */
  predicate Alone(w: World, v: World, b: BatchId, i: nat, at: int) {
    && v.backend == w.backend && v.db.identity == w.db.identity && QueueEvolves(w.db.queue, v.db.queue)
    && i < |w.db.queue| && b in v.db.batches && b !in w.backend.batches
    && v.db.batches[b] == NewBatch(CURRENT_VERSION, [w.db.queue[i]], at)
  }

  lemma CreatedWorld(g: Setting, w: World, b: BatchId, j: nat, at: int)
    requires Inv(w.db) && Coupled(w.db) && RowsBy(w.db.queue, at) && j < |w.db.queue| && Ready(w.db.queue[j], at)
    requires b !in w.db.batches && b !in w.backend.batches
    requires var o := CreateBatch(w.db, b, CURRENT_VERSION, at, 1);
      && o.result.Ok? && o.result.value == NewBatch(CURRENT_VERSION, [w.db.queue[j]], at)
      && o.db.batches == w.db.batches[b := o.result.value]
    ensures var v := Next(g, w, Local(DoCreateBatch(b, CURRENT_VERSION, at, 1)));
      && Alone(w, v, b, j, at) && RowsBy(v.db.queue, at) && Grounded(v.db.queue) < Grounded(w.db.queue)
      && v.db.batches == w.db.batches[b := NewBatch(CURRENT_VERSION, [w.db.queue[j]], at)]
      && forall i :: 0 <= i < |w.db.queue| && i != j ==> v.db.queue[i] == w.db.queue[i]
  {
    hide Inv, Coupled, Evolves, QueueEvolves, CreateBatch, NewBatch, Grounded;
    var v := Next(g, w, Local(DoCreateBatch(b, CURRENT_VERSION, at, 1)));
    CreateBatchKeepsInv(w.db, b, CURRENT_VERSION, at, 1);
    EvolvesParts(w.db, v.db);
    OneReserved(w.db, b, j, at);
    GroundedFalls(w.db.queue, v.db.queue, j);
  }

  lemma AloneComposes(w: World, mid: World, v: World, b: BatchId, i: nat, at: int)
    requires mid.backend == w.backend && mid.db.identity == w.db.identity && QueueEvolves(w.db.queue, mid.db.queue)
    requires Alone(mid, v, b, i, at) && i < |w.db.queue| && mid.db.queue[i] == w.db.queue[i]
    ensures Alone(w, v, b, i, at)
  {
    forall k | 0 <= k < |w.db.queue| ensures RowEvolves(w.db.queue[k], v.db.queue[k]) {
      assert RowEvolves(w.db.queue[k], mid.db.queue[k]) && RowEvolves(mid.db.queue[k], v.db.queue[k]);
    }
  }

  /** Reserving earlier waiting rows one by one, each in its own batch,
      reaches a world in which row i has a batch of its own. */
  lemma {:induction false} GetsOwnBatch(g: Setting, w: World, start: World, i: nat, at: int, spare: seq<BatchId>)
    returns (v: World, b: BatchId)
    requires ArisesByBatches(g, w) && Reaches(g, start, w) && w.Me() == start.Me() && at >= 0
    requires Waits(w.db.queue, i, at) && RowsBy(w.db.queue, at) && Unused(w, spare) && Grounded(w.db.queue) <= |spare|
    ensures ArisesByBatches(g, v) && Reaches(g, start, v) && v.Me() == start.Me() && Alone(w, v, b, i, at)
    decreases Grounded(w.db.queue)
  {
    hide ArisesByBatches, Arises, Reaches, WorldInv, Inv, Coupled, CreateBatch, NewBatch, Alone, Next, Ready;
    ArisingInv(g, w);
    WaitingIsGrounded(w.db.queue, i, at);
    b := spare[0];
    var j := OneChosen(w.db, b, i, at);
    CreatedWorld(g, w, b, j, at);
    var op := DoCreateBatch(b, CURRENT_VERSION, at, 1);
    ReachesNext(g, start, w, Local(op));
    v := Next(g, w, Local(op));
    if j != i {
      var mid, used := v, b;
      AloneParts(w, mid, used, j, at);
      v, b := GetsOwnBatch(g, mid, start, i, at, spare[1..]);
      AloneComposes(w, mid, v, b, i, at);
    }
  }

  lemma AloneParts(w: World, v: World, b: BatchId, i: nat, at: int)
    requires Alone(w, v, b, i, at)
    ensures v.backend == w.backend && v.db.identity == w.db.identity && QueueEvolves(w.db.queue, v.db.queue)
    ensures |w.db.queue| <= |v.db.queue|
  {
  }

  lemma {:induction false} GroundedCounts(queue: seq<Row>, i: nat)
    requires i < |queue| && !queue[i].state.InFlight?
    ensures Grounded(queue) > 0
  {
    if i < |queue| - 1 {
      GroundedCounts(queue[..|queue| - 1], i);
    }
  }

  lemma {:induction false} GroundedBounded(queue: seq<Row>)
    ensures Grounded(queue) <= |queue|
  {
    if queue != [] {
      GroundedBounded(queue[..|queue| - 1]);
    }
  }

  lemma WaitingIsGrounded(queue: seq<Row>, i: nat, at: int)
    requires Waits(queue, i, at)
    ensures Grounded(queue) > 0
  {
    GroundedCounts(queue, i);
  }

  // ---- The result -------------------------------------------------------

  lemma AloneIsClear(w: World, v: World, b: BatchId, i: nat, at: int)
    requires Inv(w.db) && Alone(w, v, b, i, at) && EntryClear(w, EntryRow(w.db.queue[i].id, i + 1, 0))
    ensures BatchClear(v, b, at) && v.db.batches[b].entries == [EntryRow(w.db.queue[i].id, i + 1, 0)]
  {
    hide Inv, EntrySends, Storable;
    RowNumbered(w.db, i);
    var entries := [EntryRow(w.db.queue[i].id, i + 1, 0)];
    assert v.db.batches[b].entries == entries;
    assert EntriesClear(w, entries);
    hide EntryClear, QueueEvolves;
    ClearCarries(w, v, entries);
  }

  /** Row i waits and is clear, or a clear batch names it. */
  ghost predicate Open(w: World, i: nat, at: int)
    requires i < |w.db.queue|
  {
    || (Ready(w.db.queue[i], at) && EntryClear(w, EntryRow(w.db.queue[i].id, i + 1, 0)))
    || (exists b :: OpenIn(w, b, i, at))
  }

  predicate OpenIn(w: World, b: BatchId, i: nat, at: int)
    requires i < |w.db.queue|
  {
    BatchClear(w, b, at) && Names(w.db.batches[b].entries, w.db.queue[i].id)
  }

  lemma OpenInParts(w: World, b: BatchId, i: nat, at: int)
    requires i < |w.db.queue| && OpenIn(w, b, i, at)
    ensures b in w.db.batches && BatchClear(w, b, at) && Names(w.db.batches[b].entries, w.db.queue[i].id)
  {
  }

  lemma NamedAcknowledged(w: World, b: BatchId, i: nat, queue: seq<Row>)
    requires Inv(w.db) && b in w.db.batches && i < |w.db.queue| && Names(w.db.batches[b].entries, w.db.queue[i].id)
    requires AllRows(queue, w.db.batches[b].entries, Acknowledged)
    ensures i < |queue| && queue[i].id == w.db.queue[i].id && queue[i].state.Acknowledged?
  {
    hide Inv, QueueOk;
    BatchShape(w.db, b);
    var entries := w.db.batches[b].entries;
    var k :| 0 <= k < |entries| && entries[k].transactionId == w.db.queue[i].id;
    assert EntryOk(w.db.queue, entries[k]) && EntryOk(queue, entries[k]);
    SameRow(w.db, entries[k], i);
  }

  /** From every world that arises, and for every open row of it, possible
      events lead to a world in which that transaction is acknowledged,
      whatever other rows cannot be sent. */
  lemma NoTransactionStuck(g: Setting, w: World, i: nat, at: I64, receivedAt: I64, spare: seq<BatchId>)
    returns (v: World)
    requires ArisesByBatches(g, w) && Suited(g, w) && at >= 0 && receivedAt >= 0
    requires i < |w.db.queue| && RowsBy(w.db.queue, at) && Open(w, i, at)
    requires Unused(w, spare) && |w.db.queue| <= |spare|
    ensures Reaches(g, w, v)
    ensures i < |v.db.queue| && v.db.queue[i].id == w.db.queue[i].id && v.db.queue[i].state.Acknowledged?
  {
    hide ArisesByBatches, Arises, Reaches, WorldInv, Inv, Coupled, Suited, BatchClear, EntryClear, Ready, AllRows,
         Alone, Names, RowsBy, Unused, OpenIn;
    ArisingInv(g, w);
    ReachesSelf(g, w);
    if Ready(w.db.queue[i], at) && EntryClear(w, EntryRow(w.db.queue[i].id, i + 1, 0)) {
      GroundedBounded(w.db.queue);
      var mid, b := GetsOwnBatch(g, w, w, i, at, spare);
      AloneIsClear(w, mid, b, i, at);
      SuitedCarries(g, w, mid, b, i, at);
      v := ClearSettles(g, mid, w, b, at, receivedAt);
      OwnAcknowledged(v.db.queue, w.db.queue[i].id, i);
    } else {
      var b :| OpenIn(w, b, i, at);
      OpenInParts(w, b, i, at);
      v := ClearSettles(g, w, w, b, at, receivedAt);
      NamedAcknowledged(w, b, i, v.db.queue);
    }
  }

  lemma SuitedCarries(g: Setting, w: World, v: World, b: BatchId, i: nat, at: int)
    requires Suited(g, w) && Alone(w, v, b, i, at)
    ensures Suited(g, v)
  {
  }

  lemma OwnAcknowledged(queue: seq<Row>, id: TransactionId, i: nat)
    requires AllRows(queue, [EntryRow(id, i + 1, 0)], Acknowledged)
    ensures i < |queue| && queue[i].id == id && queue[i].state.Acknowledged?
  {
    var entries := [EntryRow(id, i + 1, 0)];
    assert EntryOk(queue, entries[0]) && queue[entries[0].sequence - 1].state == Acknowledged;
  }

  /** In such worlds a row that is not in a terminal state either waits, once
      its retry time has come, or is held by an active batch. */
  lemma NonTerminalIsOpen(g: Setting, w: World, i: nat, at: int)
    requires ArisesByBatches(g, w) && i < |w.db.queue| && !w.db.queue[i].state.Terminal()
    ensures if w.db.queue[i].state.InFlight? then InActiveBatch(w.db.batches, w.db.queue[i].id)
            else !InActiveBatch(w.db.batches, w.db.queue[i].id)
                 && (Due(w.db.queue[i].retryAt, at) ==> Ready(w.db.queue[i], at))
  {
    hide ArisesByBatches, Arises, WorldInv, Inv, InActiveBatch, AllHeld;
    ArisingInv(g, w);
    InvQueue(w.db);
    if InActiveBatch(w.db.batches, w.db.queue[i].id) {
      ActiveIsHeld(w.db, i);
    }
  }
}
