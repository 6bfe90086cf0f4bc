/** Rebuilding the protocol request of a durable batch. */
module ReaderRequest {
  import opened Basics
  import opened ReaderTables
  import opened ReaderSteps
  import opened ReaderInvariant
  import opened ReaderRuns
  import opened ReaderCoupling
  import Protocol

  const MAX_TEXT_BYTES: nat := 128

  /** No control character: U+0000 to U+001F and U+007F to U+009F, in UTF-8. */
  predicate Printable(t: Text) {
    && (forall i :: 0 <= i < |t| ==> t[i] >= 0x20 && t[i] != 0x7F)
    && (forall i :: 0 <= i < |t| - 1 ==> !(t[i] == 0xC2 && 0x80 <= t[i + 1] <= 0x9F))
  }

  /** Environment and software texts are stored trimmed; the protocol also
      bounds their length and refuses control characters. */
  predicate TextFits(t: Text) {
    1 <= |t| <= MAX_TEXT_BYTES && Printable(t)
  }

  predicate EnvelopeFits(e: Envelope) {
    e.JsonObject? && |e.canonical| <= Protocol.MAX_ENVELOPE_BYTES
  }

  predicate IdentityFits(identity: Identity, protocol: int) {
    identity.protocol == protocol && TextFits(identity.environment) && TextFits(identity.software)
  }

  /** The row an entry refers to carries a transportable envelope. */
  predicate EntrySends(queue: seq<Row>, e: EntryRow) {
    EntryOk(queue, e) && EnvelopeFits(queue[e.sequence - 1].envelope)
  }

  predicate EntriesSend(queue: seq<Row>, entries: seq<EntryRow>) {
    forall k :: 0 <= k < |entries| ==> EntrySends(queue, entries[k])
  }

  /** The batch was submitted at least once and fits the protocol's limits. */
  predicate Sendable(db: Database, batchId: BatchId) {
    && batchId in db.batches
    && db.batches[batchId].submittedAt.Some?
    && IdentityFits(db.identity, db.batches[batchId].protocol)
    && |db.batches[batchId].entries| <= Protocol.MAX_ENTRIES
    && EntriesSend(db.queue, db.batches[batchId].entries)
  }

  /** ... and is in flight now. */
  predicate Transportable(db: Database, batchId: BatchId) {
    Sendable(db, batchId) && db.batches[batchId].state.Submitted?
  }

  function RequestLine(queue: seq<Row>, e: EntryRow): Protocol.RequestEntry
    requires EntrySends(queue, e) && |queue| <= I64_MAX
  {
    Protocol.RequestEntry(Protocol.Key(e.transactionId, e.sequence), queue[e.sequence - 1].envelope.canonical)
  }

  function RequestLines(queue: seq<Row>, entries: seq<EntryRow>): (lines: seq<Protocol.RequestEntry>)
    requires EntriesSend(queue, entries) && |queue| <= I64_MAX
    ensures |lines| == |entries| && forall k :: 0 <= k < |entries| ==> lines[k] == RequestLine(queue, entries[k])
  {
    seq(|entries|, k requires 0 <= k < |entries| => RequestLine(queue, entries[k]))
  }

  /** The request of a batch of sane rows. */
  ghost function RequestOf(db: Database, batchId: BatchId): Protocol.Request
    requires Inv(db) && Sendable(db, batchId)
  {
    var b := db.batches[batchId];
    assert BatchOk(db.queue, b) && EntryOk(db.queue, b.entries[0]) && EntryOk(db.queue, b.entries[|b.entries| - 1]);
    Protocol.Request(b.protocol, db.identity.environment, db.identity.readerId, db.identity.software, batchId,
                     b.first, b.last, b.submittedAt.value, RequestLines(db.queue, b.entries))
  }

  lemma RequestFields(db: Database, batchId: BatchId)
    requires Inv(db) && Sendable(db, batchId)
    ensures var r := RequestOf(db, batchId); var b := db.batches[batchId];
      && r.protocol == b.protocol == db.identity.protocol && r.environment == db.identity.environment
      && r.readerId == db.identity.readerId && r.softwareVersion == db.identity.software && r.batchId == batchId
      && r.first == b.first && r.last == b.last && r.submittedAt == b.submittedAt.value
      && |db.queue| <= I64_MAX && r.entries == RequestLines(db.queue, b.entries)
  {
    hide QueueOk, BatchesOk, AcksOk, AllEvidenced, EntriesSend, TextFits;
  }

  lemma RequestEntryRow(db: Database, batchId: BatchId, j: nat)
    requires Inv(db) && Sendable(db, batchId) && j < |RequestOf(db, batchId).entries|
    ensures var r := RequestOf(db, batchId); var b := db.batches[batchId];
      && |r.entries| == |b.entries| && |db.queue| <= I64_MAX && EntrySends(db.queue, b.entries[j])
      && r.entries[j] == RequestLine(db.queue, b.entries[j])
  {
    hide Inv, RequestOf, EntrySends, TextFits;
    RequestFields(db, batchId);
  }

  lemma BatchShape(db: Database, batchId: BatchId)
    requires Inv(db) && batchId in db.batches
    ensures BatchOk(db.queue, db.batches[batchId]) && QueueOk(db.queue)
  {
    hide QueueOk, BatchOk, Exclusive, AcksOk, AllEvidenced;
  }

  lemma LineKeys(queue: seq<Row>, entries: seq<EntryRow>)
    requires QueueOk(queue) && |queue| <= I64_MAX && EntriesOk(queue, entries) && EntriesSend(queue, entries)
    requires 1 <= |entries|
    ensures var keys := Protocol.RequestKeys(RequestLines(queue, entries));
      && |keys| == |entries| && Protocol.DistinctIds(keys) && Protocol.Increasing(keys)
      && keys[0].sequence == entries[0].sequence && keys[|keys| - 1].sequence == entries[|entries| - 1].sequence
  {
    EntryIdsDistinct(queue, entries);
    hide QueueOk, EntryOk, EnvelopeFits;
    var keys := Protocol.RequestKeys(RequestLines(queue, entries));
    forall k | 0 <= k < |entries| ensures keys[k] == RequestLine(queue, entries[k]).key {
      assert EntrySends(queue, entries[k]);
    }
  }

  /** Whatever is rebuilt passes the request constructor. */
  lemma RequestIsValid(db: Database, batchId: BatchId)
    requires Inv(db) && Sendable(db, batchId)
    ensures Protocol.ValidRequest(RequestOf(db, batchId))
  {
    hide Inv, QueueOk, EntriesOk, EntriesSend, TextFits, RequestOf, Protocol.DistinctIds, Protocol.Increasing;
    RequestFields(db, batchId);
    BatchShape(db, batchId);
    LineKeys(db.queue, db.batches[batchId].entries);
  }

  /** Short and without control characters, byte by byte of its UTF-8 form. */
  predicate CleanText(t: Text) {
    && 1 <= |t| <= 128
    && forall i :: 0 <= i < |t| ==>
         t[i] >= 32 && t[i] != 127 && !(t[i] == 194 && i + 1 < |t| && 128 <= t[i + 1] <= 159)
  }

  /** The entry's row carries a JSON object of at most 64 KiB. */
  predicate SmallObject(queue: seq<Row>, e: EntryRow) {
    && 1 <= e.sequence <= |queue| && queue[e.sequence - 1].envelope.JsonObject?
    && |queue[e.sequence - 1].envelope.canonical| <= 65_536
  }

  lemma CleanIsFit(t: Text)
    ensures TextFits(t) <==> CleanText(t)
  {
    if CleanText(t) {
      forall i | 0 <= i < |t| - 1 ensures !(t[i] == 0xC2 && 0x80 <= t[i + 1] <= 0x9F) {
      }
    }
  }

  /** What makes a batch transportable: it is in flight under the reader's
      protocol, with at most 256 entries, small objects and clean texts. */
  lemma TransportableMeaning(db: Database, batchId: BatchId)
    requires Inv(db)
    ensures Transportable(db, batchId) <==>
      && batchId in db.batches && db.batches[batchId].state == Submitted
      && db.identity.protocol == db.batches[batchId].protocol
      && CleanText(db.identity.environment) && CleanText(db.identity.software)
      && |db.batches[batchId].entries| <= 256
      && forall k :: 0 <= k < |db.batches[batchId].entries| ==> SmallObject(db.queue, db.batches[batchId].entries[k])
  {
    hide Inv, QueueOk, TextFits, CleanText;
    CleanIsFit(db.identity.environment);
    CleanIsFit(db.identity.software);
    if batchId in db.batches {
      BatchShape(db, batchId);
      var entries := db.batches[batchId].entries;
      forall k | 0 <= k < |entries| ensures EntrySends(db.queue, entries[k]) <==> SmallObject(db.queue, entries[k]) {
        assert EntryOk(db.queue, entries[k]);
      }
    }
  }

  // ---- Stability --------------------------------------------------------

  lemma LinesStable(q: seq<Row>, r: seq<Row>, entries: seq<EntryRow>)
    requires QueueEvolves(q, r) && EntriesSend(q, entries) && |r| <= I64_MAX
    ensures EntriesSend(r, entries) && RequestLines(r, entries) == RequestLines(q, entries)
  {
    forall k | 0 <= k < |entries|
      ensures EntrySends(r, entries[k]) && RequestLine(r, entries[k]) == RequestLine(q, entries[k])
    {
      assert EntrySends(q, entries[k]);
      assert RowEvolves(q[entries[k].sequence - 1], r[entries[k].sequence - 1]);
    }
  }

  lemma BatchKept(db: Database, later: Database, batchId: BatchId)
    requires Evolves(db, later) && batchId in db.batches
    ensures batchId in later.batches && BatchEvolves(db.batches[batchId], later.batches[batchId])
    ensures later.identity == db.identity && QueueEvolves(db.queue, later.queue)
  {
    hide QueueEvolves, BatchEvolves, AcksEvolve;
  }

  /** However the database evolves, a sent batch keeps its request. */
  lemma RequestStable(db: Database, later: Database, batchId: BatchId)
    requires Inv(db) && Inv(later) && Evolves(db, later) && Sendable(db, batchId)
    ensures Sendable(later, batchId) && RequestOf(later, batchId) == RequestOf(db, batchId)
  {
    hide Evolves, QueueEvolves, Inv, EntriesSend, TextFits, RequestOf;
    BatchKept(db, later, batchId);
    RequestFields(db, batchId);
    QueueFits(later);
    LinesStable(db.queue, later.queue, db.batches[batchId].entries);
    RequestFields(later, batchId);
  }

  lemma QueueFits(db: Database)
    requires Inv(db)
    ensures |db.queue| < I64_MAX
  {
    hide QueueOk, BatchesOk, AcksOk, AllEvidenced, ResolvedUpTo;
  }

  /** Over any run, every request ever rebuilt for a batch is the same one:
      retries carry the same bytes to the fingerprint. */
  lemma RetriesSendTheSameRequest(db: Database, batchId: BatchId, more: seq<Operation>)
    requires Reachable(db) && Sane(more) && Transportable(db, batchId)
    ensures Inv(db) && Inv(Run(db, more)) && Sendable(Run(db, more), batchId)
    ensures RequestOf(Run(db, more), batchId) == RequestOf(db, batchId)
    ensures Transportable(Run(db, more), batchId) <==> Run(db, more).batches[batchId].state.Submitted?
  {
    hide Evolves, Inv, Sendable, RequestOf, Reachable, Run;
    ReachableInv(db);
    RunKeepsInv(db, more);
    RequestStable(db, Run(db, more), batchId);
  }

  /** Batch creation does not bound the number of entries, so a batch of more
      than 256 is never transportable, whatever runs follow. */
  lemma OversizeNeverTransportable(db: Database, batchId: BatchId, more: seq<Operation>)
    requires Reachable(db) && Sane(more) && batchId in db.batches
    requires |db.batches[batchId].entries| > Protocol.MAX_ENTRIES
    ensures !Transportable(Run(db, more), batchId)
  {
    hide Evolves, Inv, Reachable, Run;
    ReachableInv(db);
    RunKeepsInv(db, more);
    BatchKept(db, Run(db, more), batchId);
  }

  // ---- Assembly ---------------------------------------------------------

  datatype RequestError =
    | NotFound
    | NotInFlight
    | MissingSubmissionTime
    | InvalidValue
    | Mismatch
    | EnvelopeRefused(position: nat)
    | TextRefused
    | RequestRefused(error: Protocol.ProtocolError)

  /** The assembly loop returns the request exactly when the batch is in
      flight and fits the protocol; no stored value is ever found corrupt. */
  method Assemble(db: Database, batchId: BatchId) returns (result: Result<Protocol.Request, RequestError>)
    requires Inv(db)
    ensures result.Ok? <==> Transportable(db, batchId)
    ensures result.Ok? ==> result.value == RequestOf(db, batchId)
    ensures result.Err? ==> match result.error
      case NotFound => batchId !in db.batches
      case NotInFlight => batchId in db.batches && db.batches[batchId].state != Submitted
      case Mismatch => batchId in db.batches && db.identity.protocol != db.batches[batchId].protocol
      case EnvelopeRefused(_) => batchId in db.batches
      case TextRefused => !TextFits(db.identity.environment) || !TextFits(db.identity.software)
      case RequestRefused(e) =>
        e == Protocol.TooManyEntries && batchId in db.batches && |db.batches[batchId].entries| > 256
      case _ => false
    ensures result.Err? && result.error.EnvelopeRefused? ==>
      && batchId in db.batches && result.error.position < |db.batches[batchId].entries|
      && !EntrySends(db.queue, db.batches[batchId].entries[result.error.position])
      && EntriesSend(db.queue, db.batches[batchId].entries[..result.error.position])
  {
    hide Inv, QueueOk, EntryOk, Protocol.DistinctIds, Protocol.Increasing, TextFits, Printable, EnvelopeFits;
    if batchId !in db.batches {
      return Err(NotFound);
    }
    var b := db.batches[batchId];
    BatchShape(db, batchId);
    QueueFits(db);
    if !b.state.Submitted? {
      return Err(NotInFlight);
    }
    if b.submittedAt.None? {
      return Err(MissingSubmissionTime);
    }
    if b.submittedAt.value < 0 {
      return Err(InvalidValue);
    }
    if db.identity.protocol != b.protocol {
      return Err(Mismatch);
    }
    if b.entries == [] {
      return Err(InvalidValue);
    }
    var lines: seq<Protocol.RequestEntry> := [];
    for k := 0 to |b.entries|
      invariant |lines| == k && EntriesSend(db.queue, b.entries[..k])
      invariant forall j :: 0 <= j < k ==>
        EntrySends(db.queue, b.entries[j]) && lines[j] == RequestLine(db.queue, b.entries[j])
    {
      var e := b.entries[k];
      EntryInRange(db.queue, e);
      if e.position != k || e.sequence <= 0 {
        return Err(InvalidValue);
      }
      if !EnvelopeFits(db.queue[e.sequence - 1].envelope) {
        return Err(EnvelopeRefused(k));
      }
      lines := lines + [RequestLine(db.queue, e)];
    }
    assert b.entries[..|b.entries|] == b.entries;
    assert lines == RequestLines(db.queue, b.entries);
    EntryInRange(db.queue, b.entries[0]);
    EntryInRange(db.queue, b.entries[|b.entries| - 1]);
    LineKeys(db.queue, b.entries);
    if !TextFits(db.identity.environment) || !TextFits(db.identity.software) {
      return Err(TextRefused);
    }
    var request := Protocol.Request(b.protocol, db.identity.environment, db.identity.readerId, db.identity.software,
                                    batchId, b.first, b.last, b.submittedAt.value, lines);
    var made := Protocol.NewRequest(request);
    if made.Err? {
      return Err(RequestRefused(made.error));
    }
    return Ok(made.value);
  }

  lemma EntryInRange(queue: seq<Row>, e: EntryRow)
    requires EntryOk(queue, e)
    ensures 1 <= e.sequence <= |queue|
  {
  }
}
