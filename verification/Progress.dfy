/** The end-to-end statements are about worlds that do arise: a bound reader's
    first transaction can be queued, sent, accepted and acknowledged. */
module Progress {
  import opened Basics
  import opened ReaderTables
  import opened ReaderAcknowledgement
  import opened ReaderSteps
  import opened ReaderInvariant
  import opened ReaderPreservation
  import opened ReaderRuns
  import opened ReaderCoupling
  import opened ReaderWatermark
  import opened ReaderRequest
  import opened Backend
  import opened World
  import opened Delivery
  import opened Submission
  import Protocol

  lemma WorldExtends(g: Setting, w: World, e: Event)
    requires ArisesByBatches(g, w) && Possible(w.Me(), e) && (e.Local? ==> e.op.BatchLevel())
    ensures ArisesByBatches(g, Next(g, w, e)) && Next(g, w, e).Me() == w.Me()
  {
    hide Next, WorldInv, Possible;
    var identity: Identity, events :| AllPossible(identity.readerId, events) && NoRowOps(events)
                                      && w == After(g, Start(identity), events);
    var longer := events + [e];
    assert longer[..|longer| - 1] == events;
    AfterOk(g, identity, events);
    NextSameReader(g, w, e);
    assert AllPossible(identity.readerId, longer) && NoRowOps(longer);
    assert After(g, Start(identity), longer) == Next(g, w, e);
  }

  lemma StartArises(g: Setting, identity: Identity)
    ensures ArisesByBatches(g, Start(identity))
  {
    var events: seq<Event> := [];
    assert AllPossible(identity.readerId, events) && NoRowOps(events);
    assert After(g, Start(identity), events) == Start(identity);
  }

  // ---- Any batch in flight ----------------------------------------------

  /** The batch is in flight, its request can be sent here, and the backend
      can store it. */
  ghost predicate Deliverable(g: Setting, w: World, batchId: BatchId) {
    && Inv(w.db) && Transportable(w.db, batchId)
    && w.db.identity.protocol == CURRENT_VERSION && w.db.identity.environment == g.environment
    && !Claimed(w.backend, RequestOf(w.db, batchId)) && AllStorable(RequestOf(w.db, batchId))
  }

  /** What settling a batch means. */
  predicate Settles(db: Database, batchId: BatchId, o: Submitted)
    requires batchId in db.batches
  {
    && o.result.Ok? && batchId in o.db.batches && o.db.batches[batchId].state.Completed?
    && AllRows(o.db.queue, db.batches[batchId].entries, Acknowledged)
  }

  /** In every world that arises, a deliverable batch whose completion can be
      recorded is one send and one receipt away from a reply that settles it:
      sending and receiving leave the reader's database alone, and submitting
      the reply completes the batch and acknowledges every row. */
  lemma DeliverableSettles(g: Setting, w: World, batchId: BatchId, receivedAt: I64, completedAt: int, retryAt: int)
    returns (later: World, a: Reply)
    requires ArisesByBatches(g, w) && Deliverable(g, w, batchId) && Awaiting(w.db, batchId, completedAt)
    requires receivedAt >= 0
    ensures later == Next(g, Next(g, w, Send(batchId)), Receive(RequestOf(w.db, batchId), receivedAt, Operational))
    ensures ArisesByBatches(g, later) && later.db == w.db
    ensures a in later.replies && a.batchId == batchId && a.readerId == w.Me()
    ensures Settles(w.db, batchId, Submit(w.db, batchId, Ok(a), completedAt, retryAt))
  {
    hide ArisesByBatches, Arises, Inv, Coupled, WorldInv, RequestOf, Process, Sendable, Awaiting, AllRows, Submit,
         Claimed, AllStorable;
    WorldExtends(g, w, Send(batchId));
    var asked := Next(g, w, Send(batchId));
    ArisesCoupled(g, asked);
    var r := RequestOf(w.db, batchId);
    RequestHead(w.db, batchId);
    RetriesAreAnswered(g, asked, r, receivedAt);
    WorldExtends(g, asked, Receive(r, receivedAt, Operational));
    later := Next(g, asked, Receive(r, receivedAt, Operational));
    var o := Process(g.hash, g.environment, asked.backend, r, receivedAt, Operational);
    a := o.result.value;
    assert later == ReceiveAt(g, asked, r, receivedAt, Operational) && a in later.replies;
    ProcessResult(g.hash, g.environment, asked.backend, r, receivedAt, Operational);
    ArisesCoupled(g, later);
    ArisesOk(g, later);
    KeyedReply(g, later, a, r);
    AwaitingIsKnown(w.db, batchId, completedAt);
    RepliesSettle(g, later, a, completedAt, retryAt);
  }

  lemma AwaitingIsKnown(db: Database, batchId: BatchId, completedAt: int)
    requires Awaiting(db, batchId, completedAt)
    ensures batchId in db.batches
  {
  }

  lemma RequestHead(db: Database, batchId: BatchId)
    requires Inv(db) && Transportable(db, batchId)
    ensures var r := RequestOf(db, batchId);
      && r.batchId == batchId && r.readerId == db.identity.readerId
      && r.protocol == db.identity.protocol && r.environment == db.identity.environment
  {
    hide Inv, RequestOf, TextFits, EntriesSend;
    RequestFields(db, batchId);
  }

  // ---- The first batch --------------------------------------------------

  /** The reader's first batch, in flight. */
  ghost predicate FirstInFlight(w: World, identity: Identity, envelope: Envelope, batchId: BatchId, at: I64) {
    && w.db.identity == identity && w.backend == Ingest(map[], map[]) && w.requests == {} && w.replies == {}
    && batchId in w.db.batches && w.db.acks == map[]
    && w.db.batches[batchId].state.Submitted?
    && w.db.batches[batchId].attempts == 1
    && w.db.batches[batchId].updatedAt == at
    && w.db.batches[batchId].protocol == CURRENT_VERSION && w.db.batches[batchId].submittedAt == Some(at)
    && |w.db.batches[batchId].entries| == 1 && w.db.batches[batchId].entries[0].sequence == 1
    && |w.db.queue| > 0 && w.db.queue[0].envelope == envelope
  }

  lemma SubmittedFirst(db: Database, envelope: Envelope, row: Row, batchId: BatchId, at: I64)
    requires Inv(db) && Coupled(db) && at >= 0 && db.acks == map[] && |db.queue| > 0 && db.queue[0].envelope == envelope
    requires batchId in db.batches && db.batches[batchId] == NewBatch(CURRENT_VERSION, [row], at) && row.sequence == 1
    ensures var later := SubmitBatch(db, batchId, at).db; var w := World(later, Ingest(map[], map[]), {}, {});
      FirstInFlight(w, db.identity, envelope, batchId, at)
  {
    hide Inv, Coupled, SubmitBatch, LoadBatch, Evolves, QueueEvolves;
    SubmitCommits(db, batchId, at);
    SubmitKeepsInv(db, batchId, at);
    var later := SubmitBatch(db, batchId, at).db;
    EvolvesParts(db, later);
    RowKept(db.queue, later.queue);
  }

  lemma RowKept(q: seq<Row>, r: seq<Row>)
    requires QueueEvolves(q, r) && |q| > 0
    ensures |r| > 0 && r[0].envelope == q[0].envelope
  {
    assert RowEvolves(q[0], r[0]);
  }

  lemma CreatedFirst(identity: Identity, row: Row, batchId: BatchId, at: I64)
    requires row.state.Pending? && row.updatedAt == at && at >= 0 && row.sequence == 1
    ensures var queued := Bound(identity).(nextSequence := 2, queue := [row]);
      var db := CreateBatch(queued, batchId, CURRENT_VERSION, at, 1).db;
      && db.acks == map[] && db.identity == identity && |db.queue| == 1 && db.queue[0].envelope == row.envelope
      && batchId in db.batches && db.batches[batchId] == NewBatch(CURRENT_VERSION, [row], at)
  {
    hide Candidates, ForEntries, NewBatch, FirstBlocked;
    FirstBatch(identity, row, batchId, at);
  }

  lemma FirstSubmission(g: Setting, identity: Identity, id: TransactionId, envelope: Envelope, batchId: BatchId,
                        at: I64)
    returns (w: World)
    requires at >= 0 && identity.createdAt <= at
    ensures ArisesByBatches(g, w) && FirstInFlight(w, identity, envelope, batchId, at)
  {
    hide ArisesByBatches, CreateBatch, SubmitBatch, Inv, Coupled, WorldInv, FirstInFlight, NewBatch;
    var w0 := Start(identity);
    StartArises(g, identity);
    var draft := Draft(id, envelope, at);
    var row := Row(id, 1, envelope, Pending, 0, None, None, at, at);
    WorldExtends(g, w0, Local(DoEnqueue(draft)));
    var w1 := Next(g, w0, Local(DoEnqueue(draft)));
    assert w1.db == Bound(identity).(nextSequence := 2, queue := [row]);
    WorldExtends(g, w1, Local(DoCreateBatch(batchId, CURRENT_VERSION, at, 1)));
    var w2 := Next(g, w1, Local(DoCreateBatch(batchId, CURRENT_VERSION, at, 1)));
    CreatedFirst(identity, row, batchId, at);
    WorldExtends(g, w2, Local(DoSubmitBatch(batchId, at)));
    ArisesCoupled(g, w2);
    ArisesOk(g, w2);
    WorldHasInv(g, w2);
    SubmittedFirst(w2.db, envelope, row, batchId, at);
    w := Next(g, w2, Local(DoSubmitBatch(batchId, at)));
  }

  lemma FirstIsTransportable(w: World, identity: Identity, envelope: Envelope, batchId: BatchId, at: I64)
    requires Inv(w.db) && at >= 0 && FirstInFlight(w, identity, envelope, batchId, at)
    requires IdentityFits(identity, CURRENT_VERSION) && EnvelopeFits(envelope)
    ensures Transportable(w.db, batchId) && Awaiting(w.db, batchId, at)
  {
    BatchShape(w.db, batchId);
    hide Inv, IdentityFits, EnvelopeFits;
    assert EntryOk(w.db.queue, w.db.batches[batchId].entries[0]);
  }

  /** So for every bound reader whose identity fits the protocol and every
      transportable and storable envelope, an operational reader's first transaction can
      reach the backend and be answered; the reply then settles it. */
  lemma FirstDelivery(g: Setting, identity: Identity, id: TransactionId, envelope: Envelope, batchId: BatchId,
                      at: I64, receivedAt: I64)
    returns (w: World, a: Reply)
    requires at >= 0 && identity.createdAt <= at && receivedAt >= 0
    requires IdentityFits(identity, CURRENT_VERSION) && EnvelopeFits(envelope) && Storable(envelope.canonical)
    requires g.environment == identity.environment
    ensures ArisesByBatches(g, w) && a in w.replies && a.batchId == batchId && a.readerId == w.Me()
    ensures batchId in w.db.batches && Settles(w.db, batchId, Submit(w.db, batchId, Ok(a), at, at))
  {
    hide ArisesByBatches, Arises, Inv, Coupled, WorldInv, FirstInFlight, IdentityFits, EnvelopeFits, Storable,
         RequestOf, Deliverable, Awaiting, Settles, Submit, Next;
    var sent := FirstSubmission(g, identity, id, envelope, batchId, at);
    ArisesCoupled(g, sent);
    ArisesOk(g, sent);
    WorldHasInv(g, sent);
    FirstIsDeliverable(g, sent, identity, envelope, batchId, at);
    FirstFacts(sent, identity, envelope, batchId, at);
    w, a := DeliverableSettles(g, sent, batchId, receivedAt, at, at);
  }

  lemma FirstFacts(w: World, identity: Identity, envelope: Envelope, batchId: BatchId, at: I64)
    requires FirstInFlight(w, identity, envelope, batchId, at)
    ensures w.db.identity == identity && w.backend == Ingest(map[], map[]) && batchId in w.db.batches
  {
  }

  lemma FirstIsDeliverable(g: Setting, w: World, identity: Identity, envelope: Envelope, batchId: BatchId, at: I64)
    requires Inv(w.db) && at >= 0 && FirstInFlight(w, identity, envelope, batchId, at)
    requires IdentityFits(identity, CURRENT_VERSION) && EnvelopeFits(envelope) && Storable(envelope.canonical)
    requires g.environment == identity.environment
    ensures Deliverable(g, w, batchId) && Awaiting(w.db, batchId, at)
  {
    hide Inv, Storable, EnvelopeFits, TextFits;
    FirstIsTransportable(w, identity, envelope, batchId, at);
    RequestFields(w.db, batchId);
    forall k | 0 <= k < |RequestOf(w.db, batchId).entries|
      ensures Storable(RequestOf(w.db, batchId).entries[k].envelope)
    {
      RequestEntryRow(w.db, batchId, k);
    }
  }

  lemma KeyedReply(g: Setting, w: World, a: Reply, r: Request)
    requires WorldInv(g, w) && a in w.replies && r.batchId in w.backend.batches
    requires a == w.backend.batches[r.batchId].ack.(replayed := a.replayed)
    requires w.backend.batches[r.batchId].readerId == r.readerId
    ensures a.batchId == r.batchId && a.readerId == r.readerId
  {
    hide WorldInv, IngestOk;
    WorldHasInv(g, w);
    KeyedByBatch(g.hash, w.backend, r.batchId);
  }

  // ---- An envelope the backend cannot store -----------------------------

  /** The object with the single member "a": "\u0000". */
  const NUL_OBJECT: Text := [0x7B, 0x22, 0x61, 0x22, 0x3A, 0x22, 0x5C, 0x75, 0x30, 0x30, 0x30, 0x30, 0x22, 0x7D]

  lemma NulIsNotStorable()
    ensures !Storable(NUL_OBJECT) && EnvelopeFits(JsonObject(NUL_OBJECT))
  {
    var t := NUL_OBJECT;
    assert t[6..12] == [0x5C, 0x75, 0x30, 0x30, 0x30, 0x30];
    assert EscapesNul(t, 6);
    assert EscapesNul(t, 5) && EscapesNul(t, 4) && EscapesNul(t, 3) && EscapesNul(t, 2) && EscapesNul(t, 1);
    assert EscapesNul(t, 0);
  }

  /** A batch with such an envelope reaches the backend and is refused there,
      whenever it is received. */
  lemma NulIsRefused(g: Setting, identity: Identity, id: TransactionId, batchId: BatchId, at: I64, receivedAt: I64)
    returns (w: World, r: Request)
    requires at >= 0 && identity.createdAt <= at && receivedAt >= 0
    requires IdentityFits(identity, CURRENT_VERSION) && g.environment == identity.environment
    ensures ArisesByBatches(g, w) && r in w.requests && r.readerId == w.Me() && r.batchId == batchId
    ensures Protocol.ValidRequest(r)
    ensures Process(g.hash, g.environment, w.backend, r, receivedAt, Operational).result.Err?
  {
    hide ArisesByBatches, Arises, Inv, Coupled, WorldInv, RequestOf, Process, Sendable, FirstInFlight, IdentityFits,
         EnvelopeFits, Storable, Claimed;
    var envelope := JsonObject(NUL_OBJECT);
    NulIsNotStorable();
    var sent := FirstSubmission(g, identity, id, envelope, batchId, at);
    ArisesCoupled(g, sent);
    ArisesOk(g, sent);
    WorldHasInv(g, sent);
    FirstIsTransportable(sent, identity, envelope, batchId, at);
    FirstFacts(sent, identity, envelope, batchId, at);
    WorldExtends(g, sent, Send(batchId));
    w := Next(g, sent, Send(batchId));
    ArisesCoupled(g, w);
    r := RequestOf(sent.db, batchId);
    RequestHead(sent.db, batchId);
    IdentityProtocol(identity);
    FirstEnvelope(sent, identity, envelope, batchId, at);
    RetriesAreAnswered(g, w, r, receivedAt);
  }

  lemma IdentityProtocol(identity: Identity)
    requires IdentityFits(identity, CURRENT_VERSION)
    ensures identity.protocol == CURRENT_VERSION
  {
  }

  lemma FirstEnvelope(w: World, identity: Identity, envelope: Envelope, batchId: BatchId, at: I64)
    requires Inv(w.db) && FirstInFlight(w, identity, envelope, batchId, at) && Sendable(w.db, batchId)
    ensures var r := RequestOf(w.db, batchId); |r.entries| > 0 && JsonObject(r.entries[0].envelope) == envelope
  {
    hide Inv, RequestOf, TextFits;
    RequestFields(w.db, batchId);
    RequestEntryRow(w.db, batchId, 0);
  }
}
