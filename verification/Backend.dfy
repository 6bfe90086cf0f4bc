/** The backend: the synchronization service and its ingest tables. */
module Backend {
  import opened Basics
  import opened Protocol
  import opened Fingerprint

  /** The digest is an uninterpreted function of the bytes fed to it. */
  type Hash = seq<Byte> -> seq<Byte>

  /** What the equipment table says about a reader. */
  datatype ReaderStatus = Unregistered | Operational | OutOfService

  datatype StoredBatch = StoredBatch(readerId: ReaderId, fingerprint: seq<Byte>, request: Request, ack: BatchAck)

  datatype Record = Record(
    readerId: ReaderId, sequence: int, fingerprint: seq<Byte>, envelope: Text, firstSeen: BatchId,
    resolution: EntryOutcome, firstReceivedAt: int, lastResolvedAt: int)

  type Records = map<TransactionId, Record>

  datatype Ingest = Ingest(batches: map<BatchId, StoredBatch>, transactions: Records)

  datatype ServiceError =
    | Unsupported
    | WrongEnvironment
    | NotRegistered
    | NotOperational
    | BatchConflict
    | TransactionConflict(id: TransactionId)
    | Unavailable
    | IngestRecord
    | Invalid(error: ProtocolError)

  // ---- The acknowledgement ----------------------------------------------

  function AcceptedEntry(e: RequestEntry): AckEntry {
    AckEntry(e.key, Acknowledged, None, None)
  }

  function AcceptedEntries(entries: seq<RequestEntry>): (accepted: seq<AckEntry>)
    ensures |accepted| == |entries| && forall k :: 0 <= k < |entries| ==> accepted[k] == AcceptedEntry(entries[k])
  {
    seq(|entries|, k requires 0 <= k < |entries| => AcceptedEntry(entries[k]))
  }

  function AcceptingAck(r: Request, receivedAt: I64): BatchAck {
    BatchAck(r.protocol, r.environment, r.readerId, r.batchId, r.first, r.last, receivedAt, false,
             AcceptedEntries(r.entries))
  }

  /** Received at this time, for the first time, and accepting every entry. */
  predicate AcceptsAll(a: BatchAck, r: Request, receivedAt: I64) {
    && a.receivedAt == receivedAt && !a.replayed && |a.entries| == |r.entries|
    && forall k :: 0 <= k < |a.entries| ==>
         && a.entries[k].key == r.entries[k].key && a.entries[k].outcome == Acknowledged
         && a.entries[k].category == None && a.entries[k].retryAt == None
  }

  /** For every accepted request and receipt time, what the backend builds is
      a valid acknowledgement that answers the request and accepts every
      entry. */
  lemma BuiltAckAnswers(r: Request, receivedAt: I64)
    requires ValidRequest(r)
    ensures ValidAck(AcceptingAck(r, receivedAt)) <==> receivedAt >= 0
    ensures Answers(AcceptingAck(r, receivedAt), r)
    ensures AcceptsAll(AcceptingAck(r, receivedAt), r, receivedAt)
  {
    assert AckKeys(AcceptedEntries(r.entries)) == RequestKeys(r.entries);
  }

  method BuildAcknowledgement(r: Request, receivedAt: I64) returns (result: Result<BatchAck, ProtocolError>)
    requires ValidRequest(r)
    ensures receivedAt < 0 ==> result == Err(NegativeTimestamp)
    ensures receivedAt >= 0 ==> result == Ok(AcceptingAck(r, receivedAt))
  {
    var entries: seq<AckEntry> := [];
    for k := 0 to |r.entries|
      invariant |entries| == k && forall j :: 0 <= j < k ==>
        entries[j] == AcceptedEntry(r.entries[j]) && MetadataFits(entries[j])
    {
      var entry := NewAckEntry(r.entries[k].key, Acknowledged, None, None);
      entries := entries + [entry.value];
    }
    assert entries == AcceptedEntries(r.entries);
    BuiltAckAnswers(r, receivedAt);
    result := NewAck(BatchAck(r.protocol, r.environment, r.readerId, r.batchId, r.first, r.last, receivedAt, false,
                              entries));
  }

  // ---- Transactions -----------------------------------------------------

  /** The stored transactions with this identity or this reader sequence. */
  function Matching(ts: Records, reader: ReaderId, key: Key): set<TransactionId> {
    set id | id in ts && (id == key.transactionId || (ts[id].readerId == reader && ts[id].sequence == key.sequence))
  }

  predicate SameIdentity(hash: Hash, stored: Record, reader: ReaderId, e: RequestEntry) {
    && stored.readerId == reader && stored.sequence == e.key.sequence
    && stored.fingerprint == hash(EnvelopePreimage(e.envelope))
  }

  /** The backend holds exactly this transaction of this reader. */
  predicate Identified(hash: Hash, ts: Records, reader: ReaderId, e: RequestEntry) {
    e.key.transactionId in ts && SameIdentity(hash, ts[e.key.transactionId], reader, e)
  }

  function NewRecord(hash: Hash, r: Request, e: RequestEntry, receivedAt: I64): Record {
    Record(r.readerId, e.key.sequence, hash(EnvelopePreimage(e.envelope)), e.envelope, r.batchId, Acknowledged,
           receivedAt, receivedAt)
  }

  function Resolved(stored: Record, receivedAt: I64): Record {
    stored.(resolution := if receivedAt >= stored.lastResolvedAt then Acknowledged else stored.resolution,
            lastResolvedAt := Max(stored.lastResolvedAt, receivedAt))
  }

  /** Nothing stored under the identity or the sequence but the same
      transaction. */
  predicate Admissible(hash: Hash, ts: Records, r: Request, e: RequestEntry) {
    var found := Matching(ts, r.readerId, e.key);
    found == {} || (found == {e.key.transactionId} && SameIdentity(hash, ts[e.key.transactionId], r.readerId, e))
  }

  /** Reading on from position i, the JSON text holds the escape of the NUL
      character; a backslash takes the character after it along. */
  predicate EscapesNul(t: Text, i: nat)
    decreases |t| - i
  {
    && i + 6 <= |t|
    && (t[i..i + 6] == [0x5C, 0x75, 0x30, 0x30, 0x30, 0x30] || EscapesNul(t, if t[i] == 0x5C then i + 2 else i + 1))
  }

  /** The JSONB column of a new transaction takes every JSON object except one
      with an escaped NUL. */
  predicate Storable(envelope: Text) {
    !EscapesNul(envelope, 0)
  }

  /** An update of a stored transaction does not write its envelope. */
  predicate Writable(ts: Records, e: RequestEntry) {
    e.key.transactionId in ts || Storable(e.envelope)
  }

  function StoreTransaction(hash: Hash, ts: Records, r: Request, e: RequestEntry, receivedAt: I64): Records {
    if e.key.transactionId in ts then ts[e.key.transactionId := Resolved(ts[e.key.transactionId], receivedAt)]
    else ts[e.key.transactionId := NewRecord(hash, r, e, receivedAt)]
  }

  /** The table after the first k entries, or the error of the first that
      cannot be stored. */
  function StoreEntries(hash: Hash, ts: Records, r: Request, receivedAt: I64, k: nat): Result<Records, ServiceError>
    requires k <= |r.entries|
  {
    if k == 0 then Ok(ts)
    else
      var before :- StoreEntries(hash, ts, r, receivedAt, k - 1);
      var e := r.entries[k - 1];
      if !Admissible(hash, before, r, e) then Err(TransactionConflict(e.key.transactionId))
      else if !Writable(before, e) then Err(Unavailable)
      else Ok(StoreTransaction(hash, before, r, e, receivedAt))
  }

  // ---- One request ------------------------------------------------------

  datatype Processed = Processed(state: Ingest, result: Result<BatchAck, ServiceError>)

  function RequestDigest(hash: Hash, r: Request): seq<Byte>
    requires ValidRequest(r)
  {
    hash(RequestPreimage(r))
  }

  function StoreNew(hash: Hash, s: Ingest, r: Request, receivedAt: I64): Processed
    requires ValidRequest(r)
  {
    if r.last > I64_MAX then Processed(s, Err(Unavailable))
    else match StoreEntries(hash, s.transactions, r, receivedAt, |r.entries|)
      case Err(e) => Processed(s, Err(e))
      case Ok(ts) =>
        var ack := AcceptingAck(r, receivedAt);
        Processed(Ingest(s.batches[r.batchId := StoredBatch(r.readerId, RequestDigest(hash, r), r, ack)], ts), Ok(ack))
  }

  /** Process one validated request received at some time while the reader has
      some status. */
  function Process(hash: Hash, environment: Text, s: Ingest, r: Request, receivedAt: I64,
                   status: ReaderStatus): Processed
    requires ValidRequest(r)
  {
    if r.protocol != CURRENT_VERSION then Processed(s, Err(Unsupported))
    else if r.environment != environment then Processed(s, Err(WrongEnvironment))
    else if receivedAt < 0 then Processed(s, Err(Invalid(NegativeTimestamp)))
    else if status.Unregistered? then Processed(s, Err(NotRegistered))
    else if status.OutOfService? then Processed(s, Err(NotOperational))
    else if r.batchId in s.batches then
      var stored := s.batches[r.batchId];
      if stored.readerId == r.readerId && stored.fingerprint == RequestDigest(hash, r)
      then Processed(s, Ok(stored.ack.(replayed := true)))
      else Processed(s, Err(BatchConflict))
    else StoreNew(hash, s, r, receivedAt)
  }

  /** The insert loop, on a copy of the table. */
  method StoreAll(hash: Hash, transactions: Records, r: Request, receivedAt: I64)
    returns (result: Result<Records, ServiceError>)
    ensures result == StoreEntries(hash, transactions, r, receivedAt, |r.entries|)
  {
    hide Admissible, Writable, StoreTransaction;
    var working := transactions;
    for k := 0 to |r.entries|
      invariant StoreEntries(hash, transactions, r, receivedAt, k) == Ok(working)
    {
      var e := r.entries[k];
      if !Admissible(hash, working, r, e) || !Writable(working, e) {
        assert StoreEntries(hash, transactions, r, receivedAt, k + 1).Err?;
        ConflictStays(hash, transactions, r, receivedAt, k + 1, |r.entries|);
        return Err(if Admissible(hash, working, r, e) then Unavailable else TransactionConflict(e.key.transactionId));
      }
      working := StoreTransaction(hash, working, r, e, receivedAt);
    }
    return Ok(working);
  }

  /** The service over its tables: reader check, replay, and the insert loop
      inside one database transaction. */
  class Service {
    const hash: Hash
    const environment: Text
    var batches: map<BatchId, StoredBatch>
    var transactions: Records

    constructor (hash: Hash, environment: Text)
      ensures State() == Ingest(map[], map[]) && this.hash == hash && this.environment == environment
    {
      this.hash, this.environment, batches, transactions := hash, environment, map[], map[];
    }

    ghost function State(): Ingest
      reads this
    {
      Ingest(batches, transactions)
    }

    method Submit(r: Request, receivedAt: I64, status: ReaderStatus) returns (result: Result<BatchAck, ServiceError>)
      requires ValidRequest(r)
      modifies this
      ensures Processed(State(), result) == Process(hash, environment, old(State()), r, receivedAt, status)
    {
      hide ValidRequest, StoreEntries, RequestPreimage;
      if r.protocol != CURRENT_VERSION {
        return Err(Unsupported);
      }
      if r.environment != environment {
        return Err(WrongEnvironment);
      }
      var built := BuildAcknowledgement(r, receivedAt);
      if built.Err? {
        return Err(Invalid(built.error));
      }
      var ack := built.value;
      BuiltAckAnswers(r, receivedAt);
      var mismatch := ValidateAgainstRequest(ack, r);
      if mismatch.Some? {
        return Err(IngestRecord);
      }
      if status.Unregistered? {
        return Err(NotRegistered);
      }
      if status.OutOfService? {
        return Err(NotOperational);
      }
      var digest := RequestDigest(hash, r);
      if r.batchId in batches {
        var original := batches[r.batchId];
        if original.readerId == r.readerId && original.fingerprint == digest {
          return Ok(original.ack.(replayed := true));
        }
        return Err(BatchConflict);
      }
      if r.last > I64_MAX {
        return Err(Unavailable);
      }
      var stored := StoreAll(hash, transactions, r, receivedAt);
      if stored.Err? {
        return Err(stored.error);
      }
      batches := batches[r.batchId := StoredBatch(r.readerId, digest, r, ack)];
      transactions := stored.value;
      return Ok(ack);
    }
  }

  lemma {:induction false} ConflictStays(hash: Hash, ts: Records, r: Request, receivedAt: I64, k: nat, n: nat)
    requires k <= n <= |r.entries| && StoreEntries(hash, ts, r, receivedAt, k).Err?
    ensures StoreEntries(hash, ts, r, receivedAt, n) == StoreEntries(hash, ts, r, receivedAt, k)
    decreases n
  {
    hide Admissible, StoreTransaction;
    if k < n {
      ConflictStays(hash, ts, r, receivedAt, k, n - 1);
    }
  }

  // ---- What processing keeps --------------------------------------------

  /** Identity columns never change and rows are never deleted. */
  predicate RecordsEvolve(ts: Records, us: Records) {
    forall id :: id in ts ==> id in us && RecordKept(ts[id], us[id])
  }

  predicate RecordKept(a: Record, b: Record) {
    && b.readerId == a.readerId && b.sequence == a.sequence && b.fingerprint == a.fingerprint
    && b.envelope == a.envelope && b.firstSeen == a.firstSeen && b.firstReceivedAt == a.firstReceivedAt
    && a.lastResolvedAt <= b.lastResolvedAt
  }

  /** A reader's sequence number names one transaction. */
  predicate SequencesUnique(ts: Records) {
    forall a, b :: a in ts && b in ts && ts[a].readerId == ts[b].readerId && ts[a].sequence == ts[b].sequence ==> a == b
  }

  lemma StoredIdentified(hash: Hash, ts: Records, r: Request, e: RequestEntry, receivedAt: I64)
    requires Admissible(hash, ts, r, e) && SequencesUnique(ts)
    ensures var us := StoreTransaction(hash, ts, r, e, receivedAt);
      RecordsEvolve(ts, us) && Identified(hash, us, r.readerId, e) && SequencesUnique(us)
  {
    var us := StoreTransaction(hash, ts, r, e, receivedAt);
    var id := e.key.transactionId;
    hide EnvelopePreimage;
    if id in ts {
      assert id in Matching(ts, r.readerId, e.key);
    } else {
      assert Matching(ts, r.readerId, e.key) == {};
      forall b | b in ts ensures !(ts[b].readerId == r.readerId && ts[b].sequence == e.key.sequence) {
        assert b !in Matching(ts, r.readerId, e.key);
      }
    }
  }

  lemma IdentityPersists(hash: Hash, ts: Records, us: Records, reader: ReaderId, e: RequestEntry)
    requires RecordsEvolve(ts, us) && Identified(hash, ts, reader, e)
    ensures Identified(hash, us, reader, e)
  {
    hide EnvelopePreimage;
  }

  lemma RecordsTransitive(a: Records, b: Records, c: Records)
    requires RecordsEvolve(a, b) && RecordsEvolve(b, c)
    ensures RecordsEvolve(a, c)
  {
    forall id | id in a ensures id in c && RecordKept(a[id], c[id]) {
      assert RecordKept(a[id], b[id]) && RecordKept(b[id], c[id]);
    }
  }

  predicate FirstIdentified(hash: Hash, ts: Records, r: Request, k: nat)
    requires k <= |r.entries|
  {
    forall j :: 0 <= j < k ==> Identified(hash, ts, r.readerId, r.entries[j])
  }

  lemma {:induction false} StoreEntriesIdentify(hash: Hash, ts: Records, r: Request, receivedAt: I64, k: nat)
    requires k <= |r.entries| && StoreEntries(hash, ts, r, receivedAt, k).Ok? && SequencesUnique(ts)
    ensures var us := StoreEntries(hash, ts, r, receivedAt, k).value;
      RecordsEvolve(ts, us) && SequencesUnique(us) && FirstIdentified(hash, us, r, k)
  {
    if k > 0 {
      hide Admissible, StoreTransaction, SequencesUnique, RecordsEvolve, Identified;
      StoreEntriesIdentify(hash, ts, r, receivedAt, k - 1);
      var before := StoreEntries(hash, ts, r, receivedAt, k - 1).value;
      var us := StoreEntries(hash, ts, r, receivedAt, k).value;
      StoredIdentified(hash, before, r, r.entries[k - 1], receivedAt);
      RecordsTransitive(ts, before, us);
      forall j | 0 <= j < k - 1 ensures Identified(hash, us, r.readerId, r.entries[j]) {
        IdentityPersists(hash, before, us, r.readerId, r.entries[j]);
      }
    }
  }

  /** A stored batch keeps its request, its original acknowledgement and all
      its transactions. */
  predicate StoredOk(hash: Hash, ts: Records, b: BatchId, x: StoredBatch) {
    && ValidRequest(x.request) && x.request.batchId == b && x.readerId == x.request.readerId
    && x.fingerprint == RequestDigest(hash, x.request)
    && x.ack.receivedAt >= 0 && x.ack == AcceptingAck(x.request, x.ack.receivedAt)
    && FirstIdentified(hash, ts, x.request, |x.request.entries|)
  }

  ghost predicate IngestOk(hash: Hash, s: Ingest) {
    && SequencesUnique(s.transactions)
    && forall b :: b in s.batches ==> StoredOk(hash, s.transactions, b, s.batches[b])
  }

  ghost predicate IngestEvolves(s: Ingest, t: Ingest) {
    && RecordsEvolve(s.transactions, t.transactions)
    && forall b :: b in s.batches ==> b in t.batches && t.batches[b] == s.batches[b]
  }

  lemma StoredStaysOk(hash: Hash, ts: Records, us: Records, b: BatchId, x: StoredBatch)
    requires StoredOk(hash, ts, b, x) && RecordsEvolve(ts, us)
    ensures StoredOk(hash, us, b, x)
  {
    hide ValidRequest, RequestDigest, AcceptingAck, RecordsEvolve, Identified;
    forall j | 0 <= j < |x.request.entries| ensures Identified(hash, us, x.request.readerId, x.request.entries[j]) {
      IdentityPersists(hash, ts, us, x.request.readerId, x.request.entries[j]);
    }
  }

  lemma IngestSelf(s: Ingest)
    ensures IngestEvolves(s, s)
  {
  }

  lemma StoreNewKeeps(hash: Hash, s: Ingest, r: Request, receivedAt: I64)
    requires IngestOk(hash, s) && ValidRequest(r) && receivedAt >= 0 && r.batchId !in s.batches
    ensures var t := StoreNew(hash, s, r, receivedAt).state; IngestOk(hash, t) && IngestEvolves(s, t)
  {
    hide StoreEntries, ValidRequest, StoredOk, RecordsEvolve, SequencesUnique, FirstIdentified;
    IngestSelf(s);
    var o := StoreNew(hash, s, r, receivedAt);
    if o.result.Ok? {
      StoreEntriesIdentify(hash, s.transactions, r, receivedAt, |r.entries|);
      forall b | b in o.state.batches ensures StoredOk(hash, o.state.transactions, b, o.state.batches[b]) {
        if b == r.batchId {
          NewIsOk(hash, o.state.transactions, r, receivedAt);
        } else {
          StoredStaysOk(hash, s.transactions, o.state.transactions, b, s.batches[b]);
        }
      }
    }
  }

  lemma NewIsOk(hash: Hash, ts: Records, r: Request, receivedAt: I64)
    requires ValidRequest(r) && receivedAt >= 0 && FirstIdentified(hash, ts, r, |r.entries|)
    ensures StoredOk(hash, ts, r.batchId,
                     StoredBatch(r.readerId, RequestDigest(hash, r), r, AcceptingAck(r, receivedAt)))
  {
    hide FirstIdentified, ValidRequest, RequestPreimage;
  }

  /** Every processed request keeps the tables consistent, and stored batches
      and transaction identities are immutable. */
  lemma ProcessKeeps(hash: Hash, environment: Text, s: Ingest, r: Request, receivedAt: I64, status: ReaderStatus)
    requires IngestOk(hash, s) && ValidRequest(r)
    ensures var t := Process(hash, environment, s, r, receivedAt, status).state;
      IngestOk(hash, t) && IngestEvolves(s, t)
  {
    hide IngestOk, IngestEvolves, StoreNew, ValidRequest;
    IngestSelf(s);
    if receivedAt >= 0 && r.batchId !in s.batches {
      StoreNewKeeps(hash, s, r, receivedAt);
    }
  }

  /** A failed request leaves the tables as they were; a successful one leaves
      its batch stored with the acknowledgement returned, up to the replay
      flag, and with a request of the same digest and reader. */
  lemma ProcessResult(hash: Hash, environment: Text, s: Ingest, r: Request, receivedAt: I64, status: ReaderStatus)
    requires ValidRequest(r)
    ensures var o := Process(hash, environment, s, r, receivedAt, status);
      && (o.result.Err? ==> o.state == s)
      && (o.result.Ok? ==>
            && r.batchId in o.state.batches
            && o.result.value == o.state.batches[r.batchId].ack.(replayed := r.batchId in s.batches)
            && o.state.batches[r.batchId].readerId == r.readerId
            && o.state.batches[r.batchId].fingerprint == RequestDigest(hash, r)
            && o.state.batches.Keys == s.batches.Keys + {r.batchId}
            && (r.batchId !in s.batches ==> o.state.batches[r.batchId].request == r))
  {
    hide StoreEntries, ValidRequest, RequestPreimage;
  }

  /** Replaying a stored request, at any time, returns the original
      acknowledgement with only the replay flag changed, and stores nothing. */
  lemma ReplayReturnsOriginal(hash: Hash, environment: Text, s: Ingest, r: Request, first: I64, more: Ingest,
                              again: I64)
    requires ValidRequest(r) && r.batchId !in s.batches && again >= 0
    requires var o := Process(hash, environment, s, r, first, Operational); o.result.Ok? && IngestEvolves(o.state, more)
    ensures var o := Process(hash, environment, s, r, first, Operational);
      Process(hash, environment, more, r, again, Operational) == Processed(more, Ok(o.result.value.(replayed := true)))
  {
    hide StoreEntries, ValidRequest, RequestPreimage, RecordsEvolve;
    ProcessResult(hash, environment, s, r, first, Operational);
  }

  // ---- What one request writes, field by field --------------------------

  /** The record of a transaction seen for the first time. */
  predicate FirstRecord(hash: Hash, t: Record, r: Request, e: RequestEntry, receivedAt: I64) {
    && t.readerId == r.readerId && t.sequence == e.key.sequence && t.envelope == e.envelope
    && t.fingerprint == hash(EnvelopePreimage(e.envelope)) && t.firstSeen == r.batchId && t.resolution == Acknowledged
    && t.firstReceivedAt == receivedAt && t.lastResolvedAt == receivedAt
  }

  /** The record of a transaction seen before: only its last resolution may
      move, and only forward in time. */
  predicate SeenAgain(t: Record, u: Record, receivedAt: I64) {
    && u.readerId == t.readerId
    && u.sequence == t.sequence
    && u.envelope == t.envelope
    && u.fingerprint == t.fingerprint
    && u.firstSeen == t.firstSeen && u.firstReceivedAt == t.firstReceivedAt
    && if receivedAt >= t.lastResolvedAt then u.resolution == Acknowledged && u.lastResolvedAt == receivedAt
       else u.resolution == t.resolution && u.lastResolvedAt == t.lastResolvedAt
  }

  predicate EntryWritten(hash: Hash, ts: Records, us: Records, r: Request, e: RequestEntry, receivedAt: I64) {
    && e.key.transactionId in us
    && if e.key.transactionId in ts then SeenAgain(ts[e.key.transactionId], us[e.key.transactionId], receivedAt)
       else FirstRecord(hash, us[e.key.transactionId], r, e, receivedAt)
  }

  predicate AmongFirst(r: Request, k: nat, id: TransactionId)
    requires k <= |r.entries|
  {
    exists j :: 0 <= j < k && r.entries[j].key.transactionId == id
  }

  /** The first k entries are written, and nothing else. */
  ghost predicate WrittenUpTo(hash: Hash, ts: Records, us: Records, r: Request, receivedAt: I64, k: nat)
    requires k <= |r.entries|
  {
    && (forall j :: 0 <= j < k ==> EntryWritten(hash, ts, us, r, r.entries[j], receivedAt))
    && (forall id :: id in us <==> id in ts || AmongFirst(r, k, id))
    && (forall id :: id in ts && !AmongFirst(r, k, id) ==> us[id] == ts[id])
  }

  predicate DistinctEntries(r: Request) {
    forall i, j :: 0 <= i < j < |r.entries| ==>
      r.entries[i].key.transactionId != r.entries[j].key.transactionId
      && r.entries[i].key.sequence != r.entries[j].key.sequence
  }

  lemma ValidIsDistinct(r: Request)
    requires ValidRequest(r)
    ensures DistinctEntries(r)
  {
    var keys := RequestKeys(r.entries);
    forall i, j | 0 <= i < j < |r.entries|
      ensures r.entries[i].key.transactionId != r.entries[j].key.transactionId
      ensures r.entries[i].key.sequence != r.entries[j].key.sequence
    {
      assert keys[i].transactionId != keys[j].transactionId && keys[i].sequence < keys[j].sequence;
    }
  }

  lemma NotAmongEarlier(r: Request, k: nat)
    requires DistinctEntries(r) && k < |r.entries|
    ensures !AmongFirst(r, k, r.entries[k].key.transactionId)
  {
  }

  lemma OneMoreAmong(r: Request, k: nat, id: TransactionId)
    requires k < |r.entries|
    ensures AmongFirst(r, k + 1, id) <==> AmongFirst(r, k, id) || r.entries[k].key.transactionId == id
  {
    if AmongFirst(r, k, id) {
      var j :| 0 <= j < k && r.entries[j].key.transactionId == id;
      assert j < k + 1;
    }
  }

  lemma StoreTouchesOne(hash: Hash, before: Records, r: Request, e: RequestEntry, receivedAt: I64)
    ensures var us := StoreTransaction(hash, before, r, e, receivedAt);
      && us.Keys == before.Keys + {e.key.transactionId}
      && forall id :: id in before && id != e.key.transactionId ==> us[id] == before[id]
  {
    hide EnvelopePreimage;
  }

  lemma WrittenStays(hash: Hash, ts: Records, us: Records, vs: Records, r: Request, e: RequestEntry, receivedAt: I64)
    requires EntryWritten(hash, ts, us, r, e, receivedAt)
    requires e.key.transactionId in vs && vs[e.key.transactionId] == us[e.key.transactionId]
    ensures EntryWritten(hash, ts, vs, r, e, receivedAt)
  {
    hide FirstRecord, SeenAgain;
  }

  lemma WriteOne(hash: Hash, ts: Records, before: Records, r: Request, receivedAt: I64, k: nat)
    requires DistinctEntries(r) && k < |r.entries| && WrittenUpTo(hash, ts, before, r, receivedAt, k)
    ensures WrittenUpTo(hash, ts, StoreTransaction(hash, before, r, r.entries[k], receivedAt), r, receivedAt, k + 1)
  {
    hide EntryWritten, StoreTransaction, AmongFirst;
    var us := StoreTransaction(hash, before, r, r.entries[k], receivedAt);
    NotAmongEarlier(r, k);
    WritesEntry(hash, ts, before, r, receivedAt, k);
    StoreTouchesOne(hash, before, r, r.entries[k], receivedAt);
    forall id ensures AmongFirst(r, k + 1, id) <==> AmongFirst(r, k, id) || r.entries[k].key.transactionId == id {
      OneMoreAmong(r, k, id);
    }
    forall j | 0 <= j < k ensures EntryWritten(hash, ts, us, r, r.entries[j], receivedAt) {
      assert r.entries[j].key.transactionId != r.entries[k].key.transactionId;
      EntryIsIn(hash, ts, before, r, r.entries[j], receivedAt);
      WrittenStays(hash, ts, before, us, r, r.entries[j], receivedAt);
    }
  }

  lemma EntryIsIn(hash: Hash, ts: Records, us: Records, r: Request, e: RequestEntry, receivedAt: I64)
    requires EntryWritten(hash, ts, us, r, e, receivedAt)
    ensures e.key.transactionId in us
  {
    hide FirstRecord, SeenAgain;
  }

  lemma WritesEntry(hash: Hash, ts: Records, before: Records, r: Request, receivedAt: I64, k: nat)
    requires k < |r.entries| && WrittenUpTo(hash, ts, before, r, receivedAt, k)
    requires !AmongFirst(r, k, r.entries[k].key.transactionId)
    ensures EntryWritten(hash, ts, StoreTransaction(hash, before, r, r.entries[k], receivedAt), r, r.entries[k],
                         receivedAt)
  {
    hide EnvelopePreimage;
  }

  lemma {:induction false} StoreEntriesWrite(hash: Hash, ts: Records, r: Request, receivedAt: I64, k: nat)
    requires DistinctEntries(r) && k <= |r.entries| && StoreEntries(hash, ts, r, receivedAt, k).Ok?
    ensures WrittenUpTo(hash, ts, StoreEntries(hash, ts, r, receivedAt, k).value, r, receivedAt, k)
  {
    hide Admissible, Writable, StoreTransaction, EntryWritten, DistinctEntries;
    if k > 0 {
      StoreEntriesWrite(hash, ts, r, receivedAt, k - 1);
      WriteOne(hash, ts, StoreEntries(hash, ts, r, receivedAt, k - 1).value, r, receivedAt, k - 1);
    }
  }

  /** A stored record that stands against the entry: it has the identity or
      the reader's sequence, but is not this very transaction. */
  predicate StandsAgainst(hash: Hash, ts: Records, r: Request, e: RequestEntry, id: TransactionId) {
    && id in ts
    && (id == e.key.transactionId || (ts[id].readerId == r.readerId && ts[id].sequence == e.key.sequence))
    && !(id == e.key.transactionId && ts[id].readerId == r.readerId && ts[id].sequence == e.key.sequence
         && ts[id].fingerprint == hash(EnvelopePreimage(e.envelope)))
  }

  ghost predicate Conflicts(hash: Hash, ts: Records, r: Request, e: RequestEntry) {
    exists id :: StandsAgainst(hash, ts, r, e, id)
  }

  lemma AdmissibleMeaning(hash: Hash, ts: Records, r: Request, e: RequestEntry)
    ensures Admissible(hash, ts, r, e) <==> !Conflicts(hash, ts, r, e)
  {
    hide EnvelopePreimage;
    var found := Matching(ts, r.readerId, e.key);
    if !Conflicts(hash, ts, r, e) {
      forall id | id in found ensures id == e.key.transactionId {
        assert !StandsAgainst(hash, ts, r, e, id);
      }
      if e.key.transactionId in ts {
        assert !StandsAgainst(hash, ts, r, e, e.key.transactionId);
        assert found == {e.key.transactionId};
      } else {
        assert found == {};
      }
    } else {
      var id :| StandsAgainst(hash, ts, r, e, id);
      assert id in found;
    }
  }

  /** Earlier entries of the same request do not stand in the way. */
  lemma ConflictsBefore(hash: Hash, ts: Records, before: Records, r: Request, receivedAt: I64, k: nat)
    requires DistinctEntries(r) && k < |r.entries| && WrittenUpTo(hash, ts, before, r, receivedAt, k)
    ensures Conflicts(hash, before, r, r.entries[k]) <==> Conflicts(hash, ts, r, r.entries[k])
    ensures r.entries[k].key.transactionId in before <==> r.entries[k].key.transactionId in ts
  {
    NotAmongEarlier(r, k);
    hide EnvelopePreimage;
    forall id
      ensures StandsAgainst(hash, before, r, r.entries[k], id) <==> StandsAgainst(hash, ts, r, r.entries[k], id)
    {
      if AmongFirst(r, k, id) {
        var j :| 0 <= j < k && r.entries[j].key.transactionId == id;
        assert EntryWritten(hash, ts, before, r, r.entries[j], receivedAt);
        assert r.entries[j].key.sequence != r.entries[k].key.sequence;
      }
    }
  }

  /** No stored record stands against the entry, and a new one can be
      stored. */
  ghost predicate EntryFits(hash: Hash, ts: Records, r: Request, e: RequestEntry) {
    !Conflicts(hash, ts, r, e) && (e.key.transactionId in ts || Storable(e.envelope))
  }

  lemma {:induction false} StoreEntriesFit(hash: Hash, ts: Records, r: Request, receivedAt: I64, k: nat)
    requires DistinctEntries(r) && k <= |r.entries|
    ensures var o := StoreEntries(hash, ts, r, receivedAt, k);
      && (o.Ok? <==> forall j :: 0 <= j < k ==> EntryFits(hash, ts, r, r.entries[j]))
      && (o.Err? ==> match o.error
            case TransactionConflict(id) =>
              exists j :: 0 <= j < k && r.entries[j].key.transactionId == id && Conflicts(hash, ts, r, r.entries[j])
            case Unavailable => exists j :: 0 <= j < k && !Storable(r.entries[j].envelope)
            case _ => false)
  {
    hide Admissible, StoreTransaction, WrittenUpTo, Conflicts, DistinctEntries, Storable;
    if k > 0 {
      StoreEntriesFit(hash, ts, r, receivedAt, k - 1);
      var before := StoreEntries(hash, ts, r, receivedAt, k - 1);
      if before.Ok? {
        StoreEntriesWrite(hash, ts, r, receivedAt, k - 1);
        ConflictsBefore(hash, ts, before.value, r, receivedAt, k - 1);
        AdmissibleMeaning(hash, before.value, r, r.entries[k - 1]);
      }
    }
  }

  /** A request under a new batch identity is stored exactly when its
      sequences fit 64 bits and every entry fits; then the batch keeps the
      request, its digest and the acknowledgement, every entry is written
      with its own envelope, and nothing else changes. */
  lemma ProcessStores(hash: Hash, environment: Text, s: Ingest, r: Request, receivedAt: I64)
    requires ValidRequest(r) && r.batchId !in s.batches
    requires r.protocol == 1 && r.environment == environment && receivedAt >= 0
    ensures var o := Process(hash, environment, s, r, receivedAt, Operational);
      && (o.result.Ok? <==>
            r.last <= I64_MAX && forall k :: 0 <= k < |r.entries| ==> EntryFits(hash, s.transactions, r, r.entries[k]))
      && (o.result.Ok? ==>
            && Answers(o.result.value, r) && AcceptsAll(o.result.value, r, receivedAt)
            && o.state.batches
               == s.batches[r.batchId := StoredBatch(r.readerId, hash(RequestPreimage(r)), r, o.result.value)]
            && WrittenUpTo(hash, s.transactions, o.state.transactions, r, receivedAt, |r.entries|))
  {
    ValidIsDistinct(r);
    BuiltAckAnswers(r, receivedAt);
    StoreEntriesFit(hash, s.transactions, r, receivedAt, |r.entries|);
    hide StoreEntries, EntryFits, RequestPreimage, ValidRequest, Answers, AcceptsAll, AcceptingAck, WrittenUpTo,
         DistinctEntries, Conflicts, Storable;
    if StoreEntries(hash, s.transactions, r, receivedAt, |r.entries|).Ok? {
      StoreEntriesWrite(hash, s.transactions, r, receivedAt, |r.entries|);
    }
  }

  /** Processing fails for these reasons only, and then stores nothing. */
  lemma ProcessErrors(hash: Hash, environment: Text, s: Ingest, r: Request, receivedAt: I64, status: ReaderStatus)
    requires ValidRequest(r) && Process(hash, environment, s, r, receivedAt, status).result.Err?
    ensures var o := Process(hash, environment, s, r, receivedAt, status);
      o.state == s && match o.result.error
        case Unsupported => r.protocol != 1
        case WrongEnvironment => r.environment != environment
        case Invalid(e) => e == NegativeTimestamp && receivedAt < 0
        case NotRegistered => status == Unregistered
        case NotOperational => status == OutOfService
        case BatchConflict =>
          && r.batchId in s.batches
          && (s.batches[r.batchId].readerId != r.readerId
              || s.batches[r.batchId].fingerprint != hash(RequestPreimage(r)))
        case TransactionConflict(id) =>
          exists k :: 0 <= k < |r.entries| && r.entries[k].key.transactionId == id
                      && Conflicts(hash, s.transactions, r, r.entries[k])
        case Unavailable => r.last > I64_MAX || exists k :: 0 <= k < |r.entries| && !Storable(r.entries[k].envelope)
        case IngestRecord => false
  {
    ValidIsDistinct(r);
    StoreEntriesFit(hash, s.transactions, r, receivedAt, |r.entries|);
    hide StoreEntries, EntryFits, RequestPreimage, ValidRequest, AcceptingAck, DistinctEntries, Conflicts, Storable;
  }
}
