/** What holds end to end, whatever the network loses, repeats or delays. */
module Delivery {
  import opened Basics
  import opened ReaderTables
  import opened ReaderAcknowledgement
  import opened ReaderSteps
  import opened ReaderInvariant
  import opened ReaderPreservation
  import opened ReaderRuns
  import opened ReaderCoupling
  import opened ReaderRequest
  import opened Backend
  import opened World
  import Protocol
  import Fingerprint

  // ---- Lost responses ---------------------------------------------------

  /** The request the backend stored for one of the reader's own batches is
      the request the reader's rows still stand for. */
  lemma StoredRequest(g: Setting, w: World, b: BatchId)
    requires WorldInv(g, w) && b in w.backend.batches && w.backend.batches[b].readerId == w.Me()
    ensures Inv(w.db) && Sendable(w.db, b) && RequestOf(w.db, b) == w.backend.batches[b].request
    ensures StoredOk(g.hash, w.backend.transactions, b, w.backend.batches[b])
  {
    hide Inv, RecordsOk, RepliesOk, AcksAnswered, Sendable, RequestOf, Protocol.ValidRequest, SequencesUnique,
         FirstIdentified, RequestDigest, AcceptingAck;
    assert StoredOk(g.hash, w.backend.transactions, b, w.backend.batches[b]);
    assert RequestOk(w, w.backend.batches[b].request);
  }

  lemma AcceptingAckFits(r: Request, receivedAt: I64)
    ensures var a := AcceptingAck(r, receivedAt);
      && Entitled(a)
      && a.protocol == r.protocol && a.first == r.first && a.last == r.last && |a.entries| == |r.entries|
      && |Translated(a).lines| == |r.entries|
    ensures forall k :: 0 <= k < |r.entries| ==>
      Translated(AcceptingAck(r, receivedAt)).lines[k]
      == AckLine(r.entries[k].key.transactionId, r.entries[k].key.sequence, Accepted)
  {
    var a := AcceptingAck(r, receivedAt);
    forall k | 0 <= k < |r.entries|
      ensures TranslateEntry(a.entries[k])
           == Ok(AckLine(r.entries[k].key.transactionId, r.entries[k].key.sequence, Accepted))
    {
      assert a.entries[k] == AcceptedEntry(r.entries[k]);
    }
  }

  /** The durable form of the backend's answer fits the batch. */
  lemma AnswerMatches(db: Database, batchId: BatchId, receivedAt: I64)
    requires Inv(db) && Sendable(db, batchId)
    ensures var a := AcceptingAck(RequestOf(db, batchId), receivedAt);
      Entitled(a) && Matches(Translated(a), db.batches[batchId])
  {
    hide Inv, RequestOf, TextFits, AcceptedEntries, TranslatedLines;
    var r := RequestOf(db, batchId);
    RequestFields(db, batchId);
    AcceptingAckFits(r, receivedAt);
    hide AcceptingAck;
    var t, b := Translated(AcceptingAck(r, receivedAt)), db.batches[batchId];
    forall k | 0 <= k < |t.lines| ensures LineFits(t.lines[k], b.entries[k]) {
      RequestEntryRow(db, batchId, k);
    }
  }

  /** What storing a reply does, when nothing conflicts; a batch with more
      attempts than fit 32 bits does not load. */
  function Expected(db: Database, a: Acknowledgement): Outcome<bool>
    requires a.batchId in db.batches
  {
    var b := db.batches[a.batchId];
    if b.attempts > U32_MAX then Outcome(db, Err(CorruptValue))
    else if a.batchId in db.acks then Outcome(db, Ok(true))
    else if b.state.Submitted? then
      Outcome(db.(acks := db.acks[a.batchId := StoredAck(CanonicalPayload(a), None)]), Ok(false))
    else Outcome(db, Err(BatchNotInFlight))
  }

  lemma MatchingStore(db: Database, a: Acknowledgement)
    requires Inv(db) && a.readerId == db.identity.readerId && a.batchId in db.batches
    requires Matches(a, db.batches[a.batchId])
    requires a.batchId in db.acks ==> db.acks[a.batchId].payload == CanonicalPayload(a)
    ensures StoreAck(db, a) == Expected(db, a)
  {
    LoadBatchExact(db, a.batchId);
    MatchErrorExact(a, db.batches[a.batchId]);
    hide Inv, BatchDecodes, MatchError, Matches, CanonicalPayload;
  }

  lemma StoredAnswer(g: Setting, w: World, b: BatchId)
    requires WorldInv(g, w) && b in w.backend.batches && w.backend.batches[b].readerId == w.Me()
    ensures Entitled(w.backend.batches[b].ack) && b in w.db.batches
    ensures Matches(Translated(w.backend.batches[b].ack), w.db.batches[b])
    ensures b in w.db.acks ==> w.db.acks[b].payload == PayloadOf(w.backend.batches[b].ack)
  {
    StoredRequest(g, w, b);
    var x := w.backend.batches[b];
    assert b in w.db.acks ==> AckAnswered(w.backend, w.Me(), b, w.db.acks[b].payload);
    hide WorldInv, Inv, RequestOf, Matches, Translated, FirstIdentified, Protocol.ValidRequest, AcceptedEntries;
    AnswerMatches(w.db, b, x.ack.receivedAt);
  }

  lemma TranslatedHead(a: Reply)
    requires Entitled(a)
    ensures Translated(a).readerId == a.readerId && Translated(a).batchId == a.batchId
    ensures Translated(a).receivedAt == a.receivedAt
  {
    hide Protocol.MetadataFits;
  }

  lemma ReplyStores(g: Setting, w: World, a: Reply, t: Acknowledgement)
    requires WorldInv(g, w) && a in w.replies && a.readerId == w.Me() && Entitled(a) && t == Translated(a)
    ensures t.batchId == a.batchId && a.batchId in w.db.batches && StoreAck(w.db, t) == Expected(w.db, t)
  {
    hide WorldInv, Inv, Matches, StoreAck, Entitled, Translated, Protocol.ValidAck, RetriesAfterReceipt,
         CanonicalPayload, Expected;
    ReplyIsValid(g, w, a);
    TranslatedHead(a);
    StoredAnswer(g, w, a.batchId);
    WorldHasInv(g, w);
    MatchingStore(w.db, t);
  }

  /** Lost responses are harmless: in every world that can arise, however many
      replies were dropped, repeated or delayed, delivering any reply to this
      reader is never a conflicting replay and never a mismatch. It stores
      the acknowledgement if the batch is in flight and has none, recognises
      it as a replay if it has one, and otherwise changes nothing: the batch
      is not in flight, or its attempt counter no longer fits 32 bits, so
      that it does not load. */
  lemma LostResponsesHarmless(g: Setting, w: World, a: Reply)
    requires Arises(g, w) && a in w.replies && a.readerId == w.Me()
    ensures Protocol.ValidAck(a) && RetriesAfterReceipt(a)
    ensures a.batchId in w.db.batches && StoreAck(w.db, Translated(a)) == Expected(w.db, Translated(a))
  {
    ArisesOk(g, w);
    ReplyIsValid(g, w, a);
    var t := Translated(a);
    hide WorldInv, Arises, StoreAck, Entitled, Translated, Protocol.ValidAck, RetriesAfterReceipt, Expected;
    ReplyStores(g, w, a, t);
  }

  lemma WorldHasInv(g: Setting, w: World)
    requires WorldInv(g, w)
    ensures Inv(w.db) && IngestOk(g.hash, w.backend)
  {
    hide Inv, IngestOk, RequestsOk, BatchesAsked, RepliesOk, AcksAnswered, RecordsOk;
  }

  /** All replies for one batch give the reader one and the same payload. */
  lemma OnePayload(g: Setting, w: World, a: Reply, b: Reply)
    requires Arises(g, w) && a in w.replies && b in w.replies && a.batchId == b.batchId
    ensures Protocol.ValidAck(a) && Protocol.ValidAck(b) && Translated(a) == Translated(b)
    ensures a.batchId in w.db.acks && a.readerId == w.Me() ==> w.db.acks[a.batchId].payload == PayloadOf(a)
  {
    hide WorldInv, Arises, Matches, CanonicalPayload, Translated, Protocol.ValidAck, RetriesAfterReceipt, Entitled;
    ArisesOk(g, w);
    ReplyIsValid(g, w, a);
    ReplyIsValid(g, w, b);
    if a.readerId == w.Me() {
      StoredAnswer(g, w, a.batchId);
    }
  }

  // ---- No phantom acknowledgement ---------------------------------------

  /** The backend holds this queued transaction: under its identity, reader
      and sequence, with its digest and its very text. */
  ghost predicate HeldByBackend(hash: Hash, s: Ingest, me: ReaderId, row: Row) {
    && row.envelope.JsonObject? && 1 <= row.sequence <= U64_MAX
    && Identified(hash, s.transactions, me,
                  Protocol.RequestEntry(Protocol.Key(row.id, row.sequence), row.envelope.canonical))
    && s.transactions[row.id].envelope == row.envelope.canonical
  }

  lemma StoredEntryHeld(g: Setting, w: World, b: BatchId, k: nat)
    requires WorldInv(g, w) && b in w.backend.batches && w.backend.batches[b].readerId == w.Me() && b in w.db.batches
    requires k < |w.db.batches[b].entries|
    ensures EntryOk(w.db.queue, w.db.batches[b].entries[k])
    ensures var row := w.db.queue[w.db.batches[b].entries[k].sequence - 1];
      row.sequence == w.db.batches[b].entries[k].sequence && HeldByBackend(g.hash, w.backend, w.Me(), row)
  {
    hide WorldInv, Inv, RequestOf, Protocol.ValidRequest, RequestDigest, AcceptingAck, Identified, TextFits;
    StoredRequest(g, w, b);
    RequestFields(w.db, b);
    RequestEntryRow(w.db, b, k);
    var x, e := w.backend.batches[b], w.db.batches[b].entries[k];
    assert Identified(g.hash, w.backend.transactions, x.request.readerId, x.request.entries[k]);
    RowNumbered(w.db, e.sequence - 1);
    OwnRecords(g, w);
    IdentifiedRecord(g.hash, w.backend.transactions, x.request.readerId, x.request.entries[k]);
    assert RecordOk(g.hash, w.db.queue, e.transactionId, w.backend.transactions[e.transactionId]);
  }

  lemma IdentifiedRecord(hash: Hash, ts: Records, reader: ReaderId, e: Protocol.RequestEntry)
    requires Identified(hash, ts, reader, e)
    ensures e.key.transactionId in ts && ts[e.key.transactionId].readerId == reader
    ensures ts[e.key.transactionId].sequence == e.key.sequence
  {
    hide Fingerprint.EnvelopePreimage;
  }

  lemma RowNumbered(db: Database, i: nat)
    requires Inv(db) && i < |db.queue|
    ensures db.queue[i].sequence == i + 1
  {
    hide BatchesOk, AcksOk, AllEvidenced, RowOk, ResolvedUpTo;
  }

  lemma SameRow(db: Database, e: EntryRow, i: nat)
    requires Inv(db) && EntryOk(db.queue, e) && i < |db.queue| && db.queue[i].id == e.transactionId
    ensures e.sequence == i + 1
  {
    hide BatchesOk, AcksOk, AllEvidenced, RowOk, ResolvedUpTo;
    SameIdSameSequence(db.queue, e, i);
  }

  lemma EvidenceEntry(db: Database, i: nat) returns (b: BatchId, k: nat)
    requires Inv(db) && i < |db.queue| && db.queue[i].state.Acknowledged?
    ensures b in db.acks && b in db.batches && k < |db.batches[b].entries|
    ensures db.batches[b].entries[k].transactionId == db.queue[i].id
  {
    hide QueueOk, BatchesOk, ResolvedUpTo, Decodable;
    assert Evidenced(db.acks, db.queue[i]);
    b :| b in db.acks && db.acks[b].appliedAt.Some? && Accepts(db.acks[b].payload, db.queue[i]);
    var p := db.acks[b].payload;
    k :| 0 <= k < |p.entries| && p.entries[k].transactionId == db.queue[i].id
         && p.entries[k].sequence == db.queue[i].sequence && p.entries[k].outcome == "acknowledged";
    assert AckOk(db.identity, b, db.acks[b], db.batches[b]);
  }

  /** No phantom acknowledgement: whenever a reader row is acknowledged, the
      backend holds that very transaction: same identity, reader and sequence,
      same envelope text and digest. */
  lemma NoPhantomAcknowledgement(g: Setting, w: World, i: nat)
    requires Arises(g, w) && i < |w.db.queue| && w.db.queue[i].state.Acknowledged?
    ensures HeldByBackend(g.hash, w.backend, w.Me(), w.db.queue[i])
  {
    hide WorldInv, Inv, Arises, HeldByBackend, AckAnswered;
    ArisesOk(g, w);
    WorldHasInv(g, w);
    var b, k := EvidenceEntry(w.db, i);
    AnsweredBy(g, w, b);
    StoredEntryHeld(g, w, b, k);
    SameRow(w.db, w.db.batches[b].entries[k], i);
  }

  lemma AnsweredBy(g: Setting, w: World, b: BatchId)
    requires WorldInv(g, w) && b in w.db.acks
    ensures b in w.backend.batches && w.backend.batches[b].readerId == w.Me()
  {
    hide Inv, IngestOk, RequestsOk, BatchesAsked, RepliesOk, RecordsOk, PayloadOf, Entitled;
    assert AckAnswered(w.backend, w.Me(), b, w.db.acks[b].payload);
  }

  // ---- Retries are always answered --------------------------------------

  /** Some other reader already uses this batch's identity, or one of its
      transactions'. */
  predicate Claimed(s: Ingest, r: Request) {
    || (r.batchId in s.batches && s.batches[r.batchId].readerId != r.readerId)
    || exists k :: 0 <= k < |r.entries| && TakenByOther(s.transactions, r, k)
  }

  /** The backend's columns take every envelope of the request. */
  predicate AllStorable(r: Request) {
    forall k :: 0 <= k < |r.entries| ==> Storable(r.entries[k].envelope)
  }

  predicate TakenByOther(ts: Records, r: Request, k: nat)
    requires k < |r.entries|
  {
    r.entries[k].key.transactionId in ts && ts[r.entries[k].key.transactionId].readerId != r.readerId
  }

  /** Every record of this reader in ts describes the queue. */
  ghost predicate OwnRecordsOk(hash: Hash, queue: seq<Row>, me: ReaderId, ts: Records) {
    forall id :: id in ts && ts[id].readerId == me ==> RecordOk(hash, queue, id, ts[id])
  }

  /** The lookup finds at most the entry's own identity. */
  lemma FoundIsOwn(hash: Hash, queue: seq<Row>, me: ReaderId, ts: Records, key: Protocol.Key)
    requires 1 <= key.sequence <= |queue| && queue[key.sequence - 1].id == key.transactionId
    requires OwnRecordsOk(hash, queue, me, ts)
    ensures Matching(ts, me, key) == if key.transactionId in ts then {key.transactionId} else {}
  {
    hide Fingerprint.EnvelopePreimage, Storable;
    forall id | id in Matching(ts, me, key) ensures id == key.transactionId {
    }
  }

  lemma AdmissibleExact(hash: Hash, w: World, ts: Records, r: Request, k: nat)
    requires Inv(w.db) && RequestOk(w, r) && r.readerId == w.Me() && k < |r.entries|
    requires OwnRecordsOk(hash, w.db.queue, w.Me(), ts)
    ensures Admissible(hash, ts, r, r.entries[k]) <==> !TakenByOther(ts, r, k)
    ensures !TakenByOther(ts, r, k) ==> (Writable(ts, r.entries[k]) <==> Storable(r.entries[k].envelope))
  {
    hide Inv, RequestOk, Fingerprint.EnvelopePreimage, Matching, RecordOk, Storable;
    OwnEntry(w, r, k);
    FoundIsOwn(hash, w.db.queue, w.Me(), ts, r.entries[k].key);
    var id := r.entries[k].key.transactionId;
    if id in ts && ts[id].readerId == w.Me() {
      assert RecordOk(hash, w.db.queue, id, ts[id]);
      OwnSequence(hash, w, r, k, ts[id]);
    }
  }

  lemma OwnSequence(hash: Hash, w: World, r: Request, k: nat, t: Record)
    requires Inv(w.db) && RequestOk(w, r) && r.readerId == w.Me() && k < |r.entries| && t.readerId == w.Me()
    requires RecordOk(hash, w.db.queue, r.entries[k].key.transactionId, t)
    ensures SameIdentity(hash, t, r.readerId, r.entries[k]) && Storable(r.entries[k].envelope)
  {
    hide RequestOk, Fingerprint.EnvelopePreimage, Storable, BatchesOk, AcksOk, AllEvidenced, RowOk, ResolvedUpTo;
    OwnEntry(w, r, k);
    var e := r.entries[k];
    SameIdSameSequence(w.db.queue, EntryRow(e.key.transactionId, e.key.sequence, 0), t.sequence - 1);
  }

  lemma StoredKeepsOwn(hash: Hash, w: World, ts: Records, r: Request, k: nat, receivedAt: I64)
    requires Inv(w.db) && RequestOk(w, r) && r.readerId == w.Me() && k < |r.entries|
    requires OwnRecordsOk(hash, w.db.queue, w.Me(), ts) && Writable(ts, r.entries[k])
    ensures OwnRecordsOk(hash, w.db.queue, w.Me(), StoreTransaction(hash, ts, r, r.entries[k], receivedAt))
    ensures forall j :: 0 <= j < |r.entries| ==>
      (TakenByOther(StoreTransaction(hash, ts, r, r.entries[k], receivedAt), r, j) <==> TakenByOther(ts, r, j))
  {
    hide Inv, RequestOk, Fingerprint.EnvelopePreimage, Storable;
    OwnEntry(w, r, k);
  }

    /** The same entries are taken by other readers in both tables. */
  predicate SameTaken(ts: Records, us: Records, r: Request) {
    forall j :: 0 <= j < |r.entries| ==> (TakenByOther(us, r, j) <==> TakenByOther(ts, r, j))
  }

  lemma {:induction false} EntriesStoredExact(hash: Hash, w: World, r: Request, receivedAt: I64, k: nat)
    requires Inv(w.db) && RequestOk(w, r) && r.readerId == w.Me() && k <= |r.entries|
    requires OwnRecordsOk(hash, w.db.queue, w.Me(), w.backend.transactions)
    ensures var o := StoreEntries(hash, w.backend.transactions, r, receivedAt, k);
      && (o.Ok? <==> forall j :: 0 <= j < k ==>
            !TakenByOther(w.backend.transactions, r, j) && Storable(r.entries[j].envelope))
      && (o.Ok? ==> OwnRecordsOk(hash, w.db.queue, w.Me(), o.value) && SameTaken(w.backend.transactions, o.value, r))
  {
    hide Inv, RequestOk, OwnRecordsOk, TakenByOther, Admissible, Writable, Storable, StoreTransaction;
    if k > 0 {
      EntriesStoredExact(hash, w, r, receivedAt, k - 1);
      var before := StoreEntries(hash, w.backend.transactions, r, receivedAt, k - 1);
      if before.Ok? {
        AdmissibleExact(hash, w, before.value, r, k - 1);
        if Writable(before.value, r.entries[k - 1]) {
          StoredKeepsOwn(hash, w, before.value, r, k - 1, receivedAt);
        }
      }
    }
  }

  lemma ProcessExact(g: Setting, w: World, r: Request, receivedAt: I64)
    requires Protocol.ValidRequest(r) && r.protocol == CURRENT_VERSION && r.environment == g.environment
    requires receivedAt >= 0
    requires r.last <= I64_MAX
    ensures Process(g.hash, g.environment, w.backend, r, receivedAt, Operational).result.Ok? <==>
      if r.batchId in w.backend.batches
      then w.backend.batches[r.batchId].readerId == r.readerId
           && w.backend.batches[r.batchId].fingerprint == RequestDigest(g.hash, r)
      else StoreEntries(g.hash, w.backend.transactions, r, receivedAt, |r.entries|).Ok?
  {
    hide Protocol.ValidRequest, StoreEntries, RequestDigest;
  }

  lemma StoredNotTaken(g: Setting, w: World, b: BatchId, k: nat)
    requires WorldInv(g, w) && b in w.backend.batches
    requires k < |w.backend.batches[b].request.entries|
    ensures !TakenByOther(w.backend.transactions, w.backend.batches[b].request, k)
  {
    hide Inv, RequestsOk, BatchesAsked, RepliesOk, AcksAnswered, RecordsOk, Protocol.ValidRequest, RequestDigest,
         AcceptingAck;
    assert StoredOk(g.hash, w.backend.transactions, b, w.backend.batches[b]);
    assert Identified(g.hash, w.backend.transactions, w.backend.batches[b].request.readerId,
                      w.backend.batches[b].request.entries[k]);
  }

  /** An operational reader's own request, sent or retried at any time, is
      answered exactly unless another reader already claimed the identity of
      the batch or of one of its transactions, or an envelope cannot be
      stored. */
  lemma RetriesAreAnswered(g: Setting, w: World, r: Request, receivedAt: I64)
    requires Arises(g, w) && r in w.requests && r.readerId == w.Me()
    requires r.protocol == CURRENT_VERSION && r.environment == g.environment && receivedAt >= 0
    ensures Protocol.ValidRequest(r)
    ensures Process(g.hash, g.environment, w.backend, r, receivedAt, Operational).result.Ok? <==>
      !Claimed(w.backend, r) && AllStorable(r)
  {
    hide WorldInv, Inv, Arises, RequestOk, Process, Protocol.ValidRequest, TakenByOther, StoreEntries, RequestDigest,
         StoredOk, Storable;
    ArisesOk(g, w);
    Asked(g, w, r);
    OwnLast(w, r);
    ProcessExact(g, w, r, receivedAt);
    OwnRecords(g, w);
    EntriesStoredExact(g.hash, w, r, receivedAt, |r.entries|);
    if r.batchId in w.backend.batches && w.backend.batches[r.batchId].readerId == w.Me() {
      StoredRequest(g, w, r.batchId);
      SameRequest(w, r);
      StoredDigest(g, w, r.batchId);
      forall k | 0 <= k < |r.entries|
        ensures !TakenByOther(w.backend.transactions, r, k) && Storable(r.entries[k].envelope)
      {
        StoredNotTaken(g, w, r.batchId, k);
        StoredIsStorable(g, w, r, k);
      }
    }
  }

  lemma StoredIsStorable(g: Setting, w: World, r: Request, k: nat)
    requires Inv(w.db) && RequestOk(w, r) && r.readerId == w.Me() && k < |r.entries|
    requires OwnRecordsOk(g.hash, w.db.queue, w.Me(), w.backend.transactions)
    requires r.batchId in w.backend.batches && w.backend.batches[r.batchId].request == r
    requires StoredOk(g.hash, w.backend.transactions, r.batchId, w.backend.batches[r.batchId])
    ensures Storable(r.entries[k].envelope)
  {
    hide Inv, RequestOk, RecordOk, Protocol.ValidRequest, RequestDigest, AcceptingAck, Fingerprint.EnvelopePreimage,
         Storable;
    assert Identified(g.hash, w.backend.transactions, r.readerId, r.entries[k]);
    OwnSequence(g.hash, w, r, k, w.backend.transactions[r.entries[k].key.transactionId]);
  }

  lemma SameRequest(w: World, r: Request)
    requires Inv(w.db) && RequestOk(w, r) && r.readerId == w.Me()
    ensures Sendable(w.db, r.batchId) && RequestOf(w.db, r.batchId) == r
  {
    hide Inv, RequestOf, Sendable, Protocol.ValidRequest;
  }

  lemma StoredDigest(g: Setting, w: World, b: BatchId)
    requires b in w.backend.batches && StoredOk(g.hash, w.backend.transactions, b, w.backend.batches[b])
    ensures Protocol.ValidRequest(w.backend.batches[b].request)
    ensures w.backend.batches[b].fingerprint == RequestDigest(g.hash, w.backend.batches[b].request)
  {
    hide Protocol.ValidRequest, RequestDigest, FirstIdentified, AcceptingAck;
  }

  lemma OwnLast(w: World, r: Request)
    requires Inv(w.db) && RequestOk(w, r) && r.readerId == w.Me()
    ensures r.last <= I64_MAX
  {
    hide Inv, RequestOf, EntriesSend, Protocol.ValidRequest, QueueOk;
    RequestFields(w.db, r.batchId);
    BatchShape(w.db, r.batchId);
    QueueFits(w.db);
    var b := w.db.batches[r.batchId];
    assert EntryOk(w.db.queue, b.entries[|b.entries| - 1]);
  }

  lemma OwnRecords(g: Setting, w: World)
    requires WorldInv(g, w)
    ensures OwnRecordsOk(g.hash, w.db.queue, w.Me(), w.backend.transactions)
  {
    hide Inv, IngestOk, RequestsOk, BatchesAsked, RepliesOk, AcksAnswered, RecordOk;
  }

  /** Only transactions the backend could store are ever acknowledged. */
  lemma AcknowledgedIsStorable(g: Setting, w: World, i: nat)
    requires Arises(g, w) && i < |w.db.queue| && w.db.queue[i].state.Acknowledged?
    ensures w.db.queue[i].envelope.JsonObject? && Storable(w.db.queue[i].envelope.canonical)
  {
    hide WorldInv, Inv, Arises, Fingerprint.EnvelopePreimage, Storable;
    ArisesOk(g, w);
    WorldHasInv(g, w);
    NoPhantomAcknowledgement(g, w, i);
    OwnRecords(g, w);
    RowNumbered(w.db, i);
    assert RecordOk(g.hash, w.db.queue, w.db.queue[i].id, w.backend.transactions[w.db.queue[i].id]);
  }
}
