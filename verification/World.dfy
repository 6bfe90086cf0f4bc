/** One reader, the backend and an unreliable network between them. Messages
    that were sent stay available forever: each may be delivered never, late,
    repeatedly and in any order. */
module World {
  import opened Basics
  import opened ReaderTables
  import opened ReaderAcknowledgement
  import opened ReaderSteps
  import opened ReaderInvariant
  import opened ReaderPreservation
  import opened ReaderRuns
  import opened ReaderRequest
  import opened Backend
  import Protocol
  import Fingerprint

  type Request = Protocol.Request
  type Reply = Protocol.BatchAck

  datatype World = World(db: Database, backend: Ingest, requests: set<Request>, replies: set<Reply>) {
    function Me(): ReaderId {
      db.identity.readerId
    }
  }

  /** The fixed surroundings: the digest and the backend's environment. */
  datatype Setting = Setting(hash: Hash, environment: Text)

  datatype Event =
    | Local(op: Operation)
    | Send(batchId: BatchId)
    | SendForeign(request: Request)
    | Receive(request: Request, receivedAt: I64, status: ReaderStatus)
    | Deliver(reply: Reply)

  /** Any operation except storing, which takes a delivered reply; any valid
      request of another reader. */
  predicate Possible(me: ReaderId, e: Event) {
    && (e.Local? ==> e.op.Sane() && !e.op.DoStoreAck?)
    && (e.SendForeign? ==> Protocol.ValidRequest(e.request) && e.request.readerId != me)
  }

  /** Translation and storing of one reply. */
  ghost function DeliverTo(db: Database, reply: Reply): Database {
    if Protocol.ValidAck(reply) && RetriesAfterReceipt(reply) then StoreAck(db, Translated(reply)).db else db
  }

  ghost function ReceiveAt(g: Setting, w: World, r: Request, receivedAt: I64, status: ReaderStatus): World {
    if r in w.requests && Protocol.ValidRequest(r) then
      var o := Process(g.hash, g.environment, w.backend, r, receivedAt, status);
      w.(backend := o.state, replies := if o.result.Ok? then w.replies + {o.result.value} else w.replies)
    else w
  }

  ghost function Next(g: Setting, w: World, e: Event): World {
    match e
    case Local(op) => w.(db := Step(w.db, op))
    case Send(batchId) =>
      if Inv(w.db) && Transportable(w.db, batchId) then w.(requests := w.requests + {RequestOf(w.db, batchId)}) else w
    case SendForeign(request) => w.(requests := w.requests + {request})
    case Receive(request, receivedAt, status) => ReceiveAt(g, w, request, receivedAt, status)
    case Deliver(reply) => if reply in w.replies then w.(db := DeliverTo(w.db, reply)) else w
  }

  function Start(identity: Identity): World {
    World(Bound(identity), Ingest(map[], map[]), {}, {})
  }

  ghost function After(g: Setting, w: World, events: seq<Event>): World {
    if events == [] then w else Next(g, After(g, w, events[..|events| - 1]), events[|events| - 1])
  }

  ghost predicate AllPossible(me: ReaderId, events: seq<Event>) {
    forall k :: 0 <= k < |events| ==> Possible(me, events[k])
  }

  ghost predicate Arises(g: Setting, w: World) {
    exists identity: Identity, events ::
      AllPossible(identity.readerId, events) && w == After(g, Start(identity), events)
  }

  // ---- Invariant --------------------------------------------------------

  /** A request of this reader is the one its batch still stands for. */
  ghost predicate RequestOk(w: World, r: Request)
    requires Inv(w.db)
  {
    && Protocol.ValidRequest(r)
    && (r.readerId == w.Me() ==> Sendable(w.db, r.batchId) && RequestOf(w.db, r.batchId) == r)
  }

  predicate ReplyOk(s: Ingest, a: Reply) {
    a.batchId in s.batches && a == s.batches[a.batchId].ack.(replayed := a.replayed)
  }

  /** The payload the reader derives from a batch's original acknowledgement. */
  function PayloadOf(a: Reply): Payload
    requires forall k :: 0 <= k < |a.entries| ==> Protocol.MetadataFits(a.entries[k])
  {
    CanonicalPayload(Translated(a))
  }

  predicate Entitled(a: Reply) {
    forall k :: 0 <= k < |a.entries| ==> Protocol.MetadataFits(a.entries[k])
  }

  predicate AckAnswered(s: Ingest, me: ReaderId, b: BatchId, p: Payload) {
    && b in s.batches && s.batches[b].readerId == me
    && Entitled(s.batches[b].ack) && p == PayloadOf(s.batches[b].ack)
  }

  /** A transaction the backend holds for this reader is the queued one. */
  predicate RecordOk(hash: Hash, queue: seq<Row>, id: TransactionId, t: Record) {
    && 1 <= t.sequence <= |queue| && queue[t.sequence - 1].id == id
    && queue[t.sequence - 1].envelope == JsonObject(t.envelope)
    && t.fingerprint == hash(Fingerprint.EnvelopePreimage(queue[t.sequence - 1].envelope.canonical))
    && Storable(queue[t.sequence - 1].envelope.canonical)
  }

  ghost predicate RecordsOk(hash: Hash, w: World) {
    forall id :: id in w.backend.transactions && w.backend.transactions[id].readerId == w.Me() ==>
      RecordOk(hash, w.db.queue, id, w.backend.transactions[id])
  }

  ghost predicate RequestsOk(w: World)
    requires Inv(w.db)
  {
    forall r :: r in w.requests ==> RequestOk(w, r)
  }

  ghost predicate BatchesAsked(w: World) {
    forall b :: b in w.backend.batches ==> w.backend.batches[b].request in w.requests
  }

  ghost predicate RepliesOk(w: World) {
    forall a :: a in w.replies ==> ReplyOk(w.backend, a)
  }

  ghost predicate AcksAnswered(w: World) {
    forall b :: b in w.db.acks ==> AckAnswered(w.backend, w.Me(), b, w.db.acks[b].payload)
  }

  ghost predicate WorldInv(g: Setting, w: World) {
    && Inv(w.db) && IngestOk(g.hash, w.backend)
    && RequestsOk(w) && BatchesAsked(w) && RepliesOk(w) && AcksAnswered(w) && RecordsOk(g.hash, w)
  }

  // ---- Local steps ------------------------------------------------------

  lemma NoNewAcks(db: Database, op: Operation)
    requires !op.DoStoreAck?
    ensures Step(db, op).acks.Keys == db.acks.Keys
  {
    hide Update, Hits, LoadBatch, Candidates, FirstBlocked, Decodable, Lines, CountLines, FirstConflict,
         ResolvedPrefix, RecoverBatch, Ready, InActiveBatch, Texts.Trim;
  }

  lemma RecordSurvives(hash: Hash, q: seq<Row>, r: seq<Row>, id: TransactionId, t: Record)
    requires RecordOk(hash, q, id, t) && QueueEvolves(q, r)
    ensures RecordOk(hash, r, id, t)
  {
    assert RowEvolves(q[t.sequence - 1], r[t.sequence - 1]);
  }

  lemma EvolvesParts(db: Database, later: Database)
    requires Evolves(db, later)
    ensures later.identity == db.identity && QueueEvolves(db.queue, later.queue)
    ensures forall b :: b in db.acks ==> b in later.acks && later.acks[b].payload == db.acks[b].payload
  {
    hide QueueEvolves, BatchesEvolve;
  }

  /** Replacing the reader's database by a later one with no new
      acknowledgement keeps the world consistent. */
  lemma LaterDatabase(g: Setting, w: World, later: Database)
    requires WorldInv(g, w) && Inv(later) && Evolves(w.db, later)
    requires forall b :: b in later.acks && b !in w.db.acks ==> AckAnswered(w.backend, w.Me(), b, later.acks[b].payload)
    ensures WorldInv(g, w.(db := later))
  {
    hide Inv, Evolves, IngestOk, QueueEvolves, Sendable, RequestOf, RecordOk, AckAnswered, Protocol.ValidRequest,
         ReplyOk;
    EvolvesParts(w.db, later);
    var v := w.(db := later);
    forall r | r in v.requests ensures RequestOk(v, r) {
      assert RequestOk(w, r);
      if r.readerId == w.Me() {
        RequestStable(w.db, later, r.batchId);
      }
    }
    forall id | id in v.backend.transactions && v.backend.transactions[id].readerId == v.Me()
      ensures RecordOk(g.hash, later.queue, id, v.backend.transactions[id])
    {
      RecordSurvives(g.hash, w.db.queue, later.queue, id, v.backend.transactions[id]);
    }
  }

  lemma LocalKeeps(g: Setting, w: World, op: Operation)
    requires WorldInv(g, w) && op.Sane() && !op.DoStoreAck?
    ensures WorldInv(g, Next(g, w, Local(op)))
  {
    hide Inv, Evolves, IngestOk, RequestsOk, RepliesOk, AcksAnswered, RecordsOk, BatchesAsked, Step, AckAnswered;
    StepKeepsInv(w.db, op);
    NoNewAcks(w.db, op);
    assert WorldInv(g, w);
    hide WorldInv;
    LaterDatabase(g, w, Step(w.db, op));
  }

  // ---- Sending ----------------------------------------------------------

  lemma RequestSent(g: Setting, w: World, r: Request)
    requires WorldInv(g, w) && RequestOk(w, r)
    ensures WorldInv(g, w.(requests := w.requests + {r}))
  {
    hide Inv, IngestOk, Sendable, RequestOf, RecordOk, AckAnswered, Protocol.ValidRequest, ReplyOk;
    var v := w.(requests := w.requests + {r});
    forall q | q in v.requests ensures RequestOk(v, q) {
      assert RequestOk(w, q);
    }
  }

  lemma SendKeeps(g: Setting, w: World, batchId: BatchId)
    requires WorldInv(g, w)
    ensures WorldInv(g, Next(g, w, Send(batchId)))
  {
    assert Inv(w.db);
    hide Inv, WorldInv, Sendable, RequestOf, Protocol.ValidRequest;
    if Transportable(w.db, batchId) {
      RequestIsValid(w.db, batchId);
      RequestFields(w.db, batchId);
      RequestSent(g, w, RequestOf(w.db, batchId));
    }
  }

  // ---- Receiving --------------------------------------------------------

  /** The record is that of an entry which could be stored, with its text. */
  predicate MadeBy(hash: Hash, t: Record, reader: ReaderId, e: Protocol.RequestEntry) {
    SameIdentity(hash, t, reader, e) && t.envelope == e.envelope && Storable(e.envelope)
  }

  /** Every transaction after the loop was there before, with the same
      identity, or is an entry of the request. */
  ghost predicate FromEntries(hash: Hash, ts: Records, us: Records, r: Request) {
    forall id :: id in us ==>
      || (id in ts && RecordKept(ts[id], us[id]))
      || (exists j :: 0 <= j < |r.entries| && r.entries[j].key.transactionId == id
                      && MadeBy(hash, us[id], r.readerId, r.entries[j]))
  }

  lemma OneFromEntries(hash: Hash, ts: Records, before: Records, r: Request, j: nat, receivedAt: I64)
    requires j < |r.entries| && FromEntries(hash, ts, before, r) && Writable(before, r.entries[j])
    ensures FromEntries(hash, ts, StoreTransaction(hash, before, r, r.entries[j], receivedAt), r)
  {
    hide Fingerprint.EnvelopePreimage, Storable;
    var us := StoreTransaction(hash, before, r, r.entries[j], receivedAt);
    forall id | id in us
      ensures (id in ts && RecordKept(ts[id], us[id]))
              || (exists j :: 0 <= j < |r.entries| && r.entries[j].key.transactionId == id
                              && MadeBy(hash, us[id], r.readerId, r.entries[j]))
    {
      if id in before && !(id in ts && RecordKept(ts[id], before[id])) {
        var i :| 0 <= i < |r.entries| && r.entries[i].key.transactionId == id
                 && MadeBy(hash, before[id], r.readerId, r.entries[i]);
        assert MadeBy(hash, us[id], r.readerId, r.entries[i]);
      }
      if id !in before {
        assert MadeBy(hash, us[id], r.readerId, r.entries[j]);
      }
    }
  }

  lemma FromSelf(hash: Hash, ts: Records, r: Request)
    ensures FromEntries(hash, ts, ts, r)
  {
    hide MadeBy;
  }

  lemma {:induction false} StoredFromEntries(hash: Hash, ts: Records, r: Request, receivedAt: I64, k: nat)
    requires k <= |r.entries| && StoreEntries(hash, ts, r, receivedAt, k).Ok?
    ensures FromEntries(hash, ts, StoreEntries(hash, ts, r, receivedAt, k).value, r)
  {
    hide Admissible, Writable, StoreTransaction, FromEntries;
    FromSelf(hash, ts, r);
    if k > 0 {
      StoredFromEntries(hash, ts, r, receivedAt, k - 1);
      OneFromEntries(hash, ts, StoreEntries(hash, ts, r, receivedAt, k - 1).value, r, k - 1, receivedAt);
    }
  }

  lemma ProcessFromEntries(g: Setting, s: Ingest, r: Request, receivedAt: I64, status: ReaderStatus)
    requires Protocol.ValidRequest(r)
    ensures FromEntries(g.hash, s.transactions,
                        Process(g.hash, g.environment, s, r, receivedAt, status).state.transactions, r)
  {
    hide FromEntries, StoreEntries, Protocol.ValidRequest;
    FromSelf(g.hash, s.transactions, r);
    if StoreEntries(g.hash, s.transactions, r, receivedAt, |r.entries|).Ok? {
      StoredFromEntries(g.hash, s.transactions, r, receivedAt, |r.entries|);
    }
  }

  /** An entry of this reader's own request describes its queued row. */
  lemma OwnEntry(w: World, r: Request, j: nat)
    requires Inv(w.db) && RequestOk(w, r) && r.readerId == w.Me() && j < |r.entries|
    ensures var e := r.entries[j];
      && 1 <= e.key.sequence <= |w.db.queue|
      && w.db.queue[e.key.sequence - 1].id == e.key.transactionId
      && w.db.queue[e.key.sequence - 1].envelope == JsonObject(e.envelope)
  {
    hide Inv, RequestOf, Protocol.ValidRequest;
    RequestEntryRow(w.db, r.batchId, j);
  }

  lemma OwnRecord(hash: Hash, w: World, r: Request, j: nat, t: Record)
    requires Inv(w.db) && RequestOk(w, r) && r.readerId == w.Me() && j < |r.entries|
    requires MadeBy(hash, t, r.readerId, r.entries[j])
    ensures RecordOk(hash, w.db.queue, r.entries[j].key.transactionId, t)
  {
    hide Inv, RequestOk, Fingerprint.EnvelopePreimage, Storable;
    OwnEntry(w, r, j);
  }

  lemma RecordsStayOk(g: Setting, w: World, r: Request, us: Records)
    requires Inv(w.db) && RequestOk(w, r) && RecordsOk(g.hash, w) && FromEntries(g.hash, w.backend.transactions, us, r)
    ensures RecordsOk(g.hash, w.(backend := w.backend.(transactions := us)))
  {
    hide Inv, RequestOk, RecordOk, Fingerprint.EnvelopePreimage, Storable;
    forall id | id in us && us[id].readerId == w.Me() ensures RecordOk(g.hash, w.db.queue, id, us[id]) {
      var ts := w.backend.transactions;
      if id in ts && RecordKept(ts[id], us[id]) {
        assert RecordOk(g.hash, w.db.queue, id, ts[id]);
        SameRecordOk(g.hash, w.db.queue, id, ts[id], us[id]);
      } else {
        var j :| 0 <= j < |r.entries| && r.entries[j].key.transactionId == id
                 && MadeBy(g.hash, us[id], r.readerId, r.entries[j]);
        OwnRecord(g.hash, w, r, j, us[id]);
      }
    }
  }

  lemma SameRecordOk(hash: Hash, queue: seq<Row>, id: TransactionId, a: Record, b: Record)
    requires RecordOk(hash, queue, id, a) && RecordKept(a, b)
    ensures RecordOk(hash, queue, id, b)
  {
  }

  lemma Asked(g: Setting, w: World, r: Request)
    requires WorldInv(g, w) && r in w.requests
    ensures Inv(w.db) && RequestOk(w, r) && Protocol.ValidRequest(r)
    ensures IngestOk(g.hash, w.backend) && RecordsOk(g.hash, w) && BatchesAsked(w)
  {
    hide Inv, IngestOk, RecordsOk, BatchesAsked, RepliesOk, AcksAnswered, Sendable, RequestOf, Protocol.ValidRequest;
  }

  lemma BackendSteps(g: Setting, w: World, r: Request, receivedAt: I64, status: ReaderStatus)
    requires WorldInv(g, w) && r in w.requests
    ensures Protocol.ValidRequest(r)
    ensures var o := Process(g.hash, g.environment, w.backend, r, receivedAt, status); var v := w.(backend := o.state);
      && IngestOk(g.hash, o.state) && IngestEvolves(w.backend, o.state)
      && BatchesAsked(v) && RecordsOk(g.hash, v)
      && (o.result.Ok? ==> ReplyOk(o.state, o.result.value))
  {
    hide Inv, WorldInv, RequestOk, IngestOk, IngestEvolves, RecordsOk, BatchesAsked, Process, FromEntries,
         Protocol.ValidRequest, RequestDigest;
    Asked(g, w, r);
    var o := Process(g.hash, g.environment, w.backend, r, receivedAt, status);
    ProcessKeeps(g.hash, g.environment, w.backend, r, receivedAt, status);
    ProcessResult(g.hash, g.environment, w.backend, r, receivedAt, status);
    ProcessFromEntries(g, w.backend, r, receivedAt, status);
    RecordsStayOk(g, w, r, o.state.transactions);
    RecordsOnly(g, w, o.state);
    AskedStays(g, w, r, o.state);
    if o.result.Ok? {
      KeyedByBatch(g.hash, o.state, r.batchId);
    }
  }

  lemma RecordsOnly(g: Setting, w: World, s: Ingest)
    requires RecordsOk(g.hash, w.(backend := w.backend.(transactions := s.transactions)))
    ensures RecordsOk(g.hash, w.(backend := s))
  {
    hide RecordOk;
  }

  lemma KeyedByBatch(hash: Hash, s: Ingest, b: BatchId)
    requires IngestOk(hash, s) && b in s.batches
    ensures s.batches[b].ack.batchId == b && s.batches[b].ack.readerId == s.batches[b].readerId
    ensures s.batches[b].readerId == s.batches[b].request.readerId && s.batches[b].request.batchId == b
  {
    hide SequencesUnique, Protocol.ValidRequest, FirstIdentified, RequestDigest;
    assert StoredOk(hash, s.transactions, b, s.batches[b]);
  }

  lemma AskedStays(g: Setting, w: World, r: Request, s: Ingest)
    requires BatchesAsked(w) && r in w.requests && IngestEvolves(w.backend, s)
    requires s.batches.Keys == w.backend.batches.Keys || s.batches.Keys == w.backend.batches.Keys + {r.batchId}
    requires r.batchId in s.batches && r.batchId !in w.backend.batches ==> s.batches[r.batchId].request == r
    ensures BatchesAsked(w.(backend := s))
  {
    hide RecordsEvolve;
    forall b | b in s.batches ensures s.batches[b].request in w.requests {
      if b in w.backend.batches {
        assert s.batches[b] == w.backend.batches[b];
      }
    }
  }

  lemma EvolvedAnswers(s: Ingest, t: Ingest, me: ReaderId, b: BatchId, p: Payload)
    requires IngestEvolves(s, t) && AckAnswered(s, me, b, p)
    ensures AckAnswered(t, me, b, p)
  {
    hide PayloadOf, Entitled;
  }

  lemma EvolvedReply(s: Ingest, t: Ingest, a: Reply)
    requires IngestEvolves(s, t) && ReplyOk(s, a)
    ensures ReplyOk(t, a)
  {
  }

  /** Replacing the backend by a later consistent one, with replies it can
      have given. */
  lemma LaterBackend(g: Setting, w: World, t: Ingest, replies: set<Reply>)
    requires WorldInv(g, w) && IngestOk(g.hash, t) && IngestEvolves(w.backend, t)
    requires BatchesAsked(w.(backend := t)) && RecordsOk(g.hash, w.(backend := t))
    requires forall a :: a in replies ==> a in w.replies || ReplyOk(t, a)
    ensures WorldInv(g, w.(backend := t, replies := replies))
  {
    hide Inv, RequestOk, IngestOk, RecordsOk, ReplyOk, AckAnswered, IngestEvolves, BatchesAsked;
    var v := w.(backend := t, replies := replies);
    forall q | q in v.requests ensures RequestOk(v, q) {
      assert RequestOk(w, q);
      SameRequestOk(w, v, q);
    }
    forall a | a in replies ensures ReplyOk(t, a) {
      if a in w.replies {
        EvolvedReply(w.backend, t, a);
      }
    }
    forall b | b in v.db.acks ensures AckAnswered(t, v.Me(), b, v.db.acks[b].payload) {
      EvolvedAnswers(w.backend, t, w.Me(), b, w.db.acks[b].payload);
    }
    AskedSame(w.(backend := t), v);
    RecordsSame(g, w.(backend := t), v);
  }

  lemma ReceiveKeeps(g: Setting, w: World, r: Request, receivedAt: I64, status: ReaderStatus)
    requires WorldInv(g, w)
    ensures WorldInv(g, ReceiveAt(g, w, r, receivedAt, status))
  {
    hide WorldInv, IngestOk, RecordsOk, BatchesAsked, ReplyOk, Process, IngestEvolves, Protocol.ValidRequest;
    if r in w.requests {
      BackendSteps(g, w, r, receivedAt, status);
      var v := ReceiveAt(g, w, r, receivedAt, status);
      LaterBackend(g, w, v.backend, v.replies);
    }
  }

  lemma SameRequestOk(w: World, v: World, r: Request)
    requires Inv(w.db) && RequestOk(w, r) && v.db == w.db
    ensures RequestOk(v, r)
  {
    hide Inv, Sendable, RequestOf, Protocol.ValidRequest;
  }

  lemma AskedSame(w: World, v: World)
    requires BatchesAsked(w) && v.backend == w.backend && v.requests == w.requests
    ensures BatchesAsked(v)
  {
  }

  lemma RecordsSame(g: Setting, w: World, v: World)
    requires RecordsOk(g.hash, w) && v.backend == w.backend && v.db == w.db
    ensures RecordsOk(g.hash, v)
  {
    hide RecordOk;
  }

  // ---- Delivering -------------------------------------------------------

  /** The replay flag does not reach the durable form. */
  lemma ReplayFlagForgotten(a: Reply, replayed: bool)
    requires Entitled(a)
    ensures Entitled(a.(replayed := replayed)) && Translated(a.(replayed := replayed)) == Translated(a)
  {
    hide Protocol.MetadataFits;
  }

  lemma ReplyIsValid(g: Setting, w: World, a: Reply)
    requires WorldInv(g, w) && a in w.replies
    ensures Protocol.ValidAck(a) && RetriesAfterReceipt(a) && Entitled(a)
    ensures a.batchId in w.backend.batches && w.backend.batches[a.batchId].readerId == a.readerId
    ensures Entitled(w.backend.batches[a.batchId].ack) && Translated(a) == Translated(w.backend.batches[a.batchId].ack)
  {
    var x := w.backend.batches[a.batchId];
    assert ReplyOk(w.backend, a);
    StoredAckValid(g.hash, w.backend, a.batchId);
    KeyedByBatch(g.hash, w.backend, a.batchId);
    hide WorldInv, IngestOk, Translated, Protocol.WellFormedEntries, Protocol.MetadataFits;
    ReplayFlagForgotten(x.ack, a.replayed);
  }

  lemma StoredAckValid(hash: Hash, s: Ingest, b: BatchId)
    requires IngestOk(hash, s) && b in s.batches
    ensures Protocol.ValidAck(s.batches[b].ack) && RetriesAfterReceipt(s.batches[b].ack) && Entitled(s.batches[b].ack)
  {
    assert StoredOk(hash, s.transactions, b, s.batches[b]);
    hide IngestOk, RequestDigest, FirstIdentified, Protocol.WellFormedEntries;
    BuiltAckAnswers(s.batches[b].request, s.batches[b].ack.receivedAt);
  }

  lemma StoreAckShape(db: Database, a: Acknowledgement)
    ensures var o := StoreAck(db, a);
      && (forall b :: b in o.db.acks && b !in db.acks ==>
            b == a.batchId && o.db.acks[b].payload == CanonicalPayload(a) && a.readerId == db.identity.readerId)
      && (o.result.Err? ==> o.db == db)
  {
    hide LoadBatch, MatchError;
  }

  lemma DeliverKeeps(g: Setting, w: World, a: Reply)
    requires WorldInv(g, w) && a in w.replies
    ensures WorldInv(g, w.(db := DeliverTo(w.db, a)))
  {
    ReplyIsValid(g, w, a);
    TranslationExact(a);
    var t := Translated(a);
    assert t.batchId == a.batchId && t.readerId == a.readerId;
    StoreAckShape(w.db, t);
    assert Inv(w.db);
    hide Inv, Evolves, WorldInv, StoreAck, Translated, Constructible, Entitled, Protocol.ValidAck, RetriesAfterReceipt;
    StoreKeepsInv(w.db, t);
    LaterDatabase(g, w, StoreAck(w.db, t).db);
  }

  // ---- Runs -------------------------------------------------------------

  lemma StartOk(g: Setting, identity: Identity)
    ensures WorldInv(g, Start(identity))
  {
    BoundInv(identity);
  }

  lemma NextKeeps(g: Setting, w: World, e: Event)
    requires WorldInv(g, w) && Possible(w.Me(), e)
    ensures WorldInv(g, Next(g, w, e))
  {
    match e {
      case Local(op) => LocalKeeps(g, w, op);
      case Send(batchId) => SendKeeps(g, w, batchId);
      case SendForeign(request) => RequestSent(g, w, request);
      case Receive(request, receivedAt, status) => ReceiveKeeps(g, w, request, receivedAt, status);
      case Deliver(reply) =>
        if reply in w.replies {
          DeliverKeeps(g, w, reply);
        }
    }
  }

  lemma NextSameReader(g: Setting, w: World, e: Event)
    requires WorldInv(g, w) && Possible(w.Me(), e)
    ensures Next(g, w, e).Me() == w.Me()
  {
    assert Inv(w.db);
    hide Inv, Process, WorldInv, RequestOf;
    if e.Local? {
      StepKeepsInv(w.db, e.op);
    }
    if e.Deliver? && Protocol.ValidAck(e.reply) && RetriesAfterReceipt(e.reply) {
      TranslationExact(e.reply);
      StoreKeepsInv(w.db, Translated(e.reply));
    }
    hide Step, StoreAck, Translated;
  }

  lemma {:induction false} AfterOk(g: Setting, identity: Identity, events: seq<Event>)
    requires AllPossible(identity.readerId, events)
    ensures var w := After(g, Start(identity), events); WorldInv(g, w) && w.Me() == identity.readerId
  {
    hide WorldInv, Next, Possible;
    if events == [] {
      StartOk(g, identity);
    } else {
      var n := |events| - 1;
      AfterOk(g, identity, events[..n]);
      var w := After(g, Start(identity), events[..n]);
      NextKeeps(g, w, events[n]);
      NextSameReader(g, w, events[n]);
    }
  }

  /** The invariant holds in every world that can arise. */
  lemma ArisesOk(g: Setting, w: World)
    requires Arises(g, w)
    ensures WorldInv(g, w)
  {
    hide WorldInv, Next;
    var identity: Identity, events :| AllPossible(identity.readerId, events) && w == After(g, Start(identity), events);
    AfterOk(g, identity, events);
  }
}
