/** The byte layout of everything that is hashed: which field stands where,
    how wide it is and how it is framed. */
module FingerprintLayout {
  import opened Basics
  import opened Protocol
  import opened Fingerprint

  /** Eight bytes, the highest first. */
  function Wide(n: U64): seq<Byte> {
    var n1 := n / 256;
    var n2 := n1 / 256;
    var n3 := n2 / 256;
    var n4 := n3 / 256;
    var n5 := n4 / 256;
    var n6 := n5 / 256;
    var n7 := n6 / 256;
    [n7 % 256, n6 % 256, n5 % 256, n4 % 256, n3 % 256, n2 % 256, n1 % 256, n % 256]
  }

  /** Two bytes, the higher first. */
  function Narrow(n: Version): seq<Byte> {
    [n / 256, n % 256]
  }

  /** Two's complement in eight bytes. */
  function Time(t: I64): seq<Byte> {
    Wide(if t < 0 then 0x1_0000_0000_0000_0000 + t else t)
  }

  /** A text after its length. */
  function Framed(t: Text): seq<Byte> {
    Wide(|t|) + t
  }

  function Flatten(chunks: seq<seq<Byte>>): seq<Byte> {
    if chunks == [] then [] else chunks[0] + Flatten(chunks[1..])
  }

  lemma WideIsBigEndian(n: U64)
    ensures BigEndian(n, 8) == Wide(n)
  {
    var n1 := n / 256;
    var n2 := n1 / 256;
    var n3 := n2 / 256;
    var n4 := n3 / 256;
    var n5 := n4 / 256;
    var n6 := n5 / 256;
    var n7 := n6 / 256;
    assert BigEndian(n7, 1) == BigEndian(n7 / 256, 0) + [n7 % 256] == [n7 % 256];
    assert BigEndian(n6, 2) == [n7 % 256, n6 % 256];
    assert BigEndian(n5, 3) == [n7 % 256, n6 % 256, n5 % 256];
    assert BigEndian(n4, 4) == [n7 % 256, n6 % 256, n5 % 256, n4 % 256];
    assert BigEndian(n3, 5) == [n7 % 256, n6 % 256, n5 % 256, n4 % 256, n3 % 256];
    assert BigEndian(n2, 6) == [n7 % 256, n6 % 256, n5 % 256, n4 % 256, n3 % 256, n2 % 256];
    assert BigEndian(n1, 7) == [n7 % 256, n6 % 256, n5 % 256, n4 % 256, n3 % 256, n2 % 256, n1 % 256];
  }

  lemma NarrowIsBigEndian(n: Version)
    ensures BigEndian(n, 2) == Narrow(n)
  {
    assert BigEndian(n / 256, 1) == BigEndian(n / 256 / 256, 0) + [n / 256 % 256] == [n / 256];
  }

  /** The bytes of one hasher update. */
  function Chunk(f: Field): seq<Byte> {
    match f
    case Short(v) => Narrow(v)
    case Long(v) => Wide(v)
    case Signed(v) => Time(v)
    case Tag(b) => [b]
    case Textual(t) => Framed(t)
  }

  lemma ChunkOf(f: Field)
    ensures FieldBytes(f) == Chunk(f)
  {
    hide BigEndian, Wide, Narrow;
    match f {
      case Short(v) => NarrowIsBigEndian(v);
      case Long(v) => WideIsBigEndian(v);
      case Signed(v) => WideIsBigEndian(Unsigned(v));
      case Tag(b) =>
      case Textual(t) => WideIsBigEndian(|t|);
    }
  }

  lemma {:induction false} ChunksOf(fs: seq<Field>, chunks: seq<seq<Byte>>)
    requires |fs| == |chunks| && forall k :: 0 <= k < |fs| ==> chunks[k] == Chunk(fs[k])
    ensures Bytes(fs) == Flatten(chunks)
  {
    hide Chunk, FieldBytes;
    if fs != [] {
      ChunkOf(fs[0]);
      ChunksOf(fs[1..], chunks[1..]);
    }
  }

  // ---- Requests ---------------------------------------------------------

  function EntryChunks(e: RequestEntry): seq<seq<Byte>> {
    [Framed(e.key.transactionId.text), Wide(e.key.sequence), Framed(e.envelope)]
  }

  function EntriesChunks(entries: seq<RequestEntry>): (chunks: seq<seq<Byte>>)
    ensures |chunks| == 3 * |entries|
  {
    if entries == [] then []
    else EntriesChunks(entries[..|entries| - 1]) + EntryChunks(entries[|entries| - 1])
  }

  function RequestChunks(r: Request): seq<seq<Byte>>
    requires |r.entries| <= U64_MAX
  {
    [Framed(AsciiText("transitguard.reader-synchronization.request.v1")),
     Narrow(r.protocol),
     Framed(r.environment),
     Framed(r.readerId.text),
     Framed(r.softwareVersion),
     Framed(r.batchId.text),
     Wide(r.first),
     Wide(r.last),
     Time(r.submittedAt),
     Wide(|r.entries|)]
    + EntriesChunks(r.entries)
  }

  lemma {:induction false} EntriesLaidOut(entries: seq<RequestEntry>)
    ensures |RequestEntriesFields(entries)| == |EntriesChunks(entries)|
    ensures forall k :: 0 <= k < |RequestEntriesFields(entries)| ==>
      EntriesChunks(entries)[k] == Chunk(RequestEntriesFields(entries)[k])
  {
    hide Wide, Framed;
    if entries != [] {
      EntriesLaidOut(entries[..|entries| - 1]);
    }
  }

  /** A request is hashed as its domain, protocol, environment, reader,
      software, batch, first and last sequence, submission time and entry
      count, then each entry's identity, sequence and envelope. */
  lemma RequestLayout(r: Request)
    requires |r.entries| <= U64_MAX
    ensures RequestPreimage(r) == Flatten(RequestChunks(r))
  {
    hide Wide, Framed, Narrow, Time, Ascii, AsciiText, Bytes, Flatten;
    EntriesLaidOut(r.entries);
    var fields := RequestHeader(r) + RequestEntriesFields(r.entries);
    hide RequestEntriesFields, EntriesChunks;
    forall k | 0 <= k < |fields| ensures RequestChunks(r)[k] == Chunk(fields[k]) {
      if k < 10 {
        HeaderLaidOut(r, k);
      } else {
        assert fields[k] == RequestEntriesFields(r.entries)[k - 10];
        assert RequestChunks(r)[k] == EntriesChunks(r.entries)[k - 10];
      }
    }
    ChunksOf(fields, RequestChunks(r));
  }

  lemma HeaderLaidOut(r: Request, k: nat)
    requires |r.entries| <= U64_MAX && k < 10
    ensures RequestChunks(r)[k] == Chunk(RequestHeader(r)[k])
  {
    hide Wide, Framed, Narrow, Time, Ascii, EntriesChunks;
  }

  lemma EnvelopeLayout(envelope: Text)
    ensures var domain := AsciiText("transitguard.reader-synchronization.transaction-envelope.v1");
      EnvelopePreimage(envelope) == Flatten([Framed(domain), Framed(envelope)])
  {
    hide Framed, Ascii;
    ChunksOf([Textual(ENVELOPE_DOMAIN), Textual(envelope)],
             [Framed(AsciiText("transitguard.reader-synchronization.transaction-envelope.v1")), Framed(envelope)]);
  }

  // ---- Acknowledgements -------------------------------------------------

  /** 1 acknowledged, 2 to be retried, 3 failed, 4 under review. */
  function OutcomeByte(o: EntryOutcome): Byte {
    if o == Acknowledged then 1 else if o == RetryableFailure then 2 else if o == PermanentFailure then 3 else 4
  }

  function OptionalCategory(c: Option<Category>): seq<seq<Byte>> {
    if c == None then [[0]] else CategoryTextShort(c.value); [[1], Framed(AsciiText(CategoryText(c.value)))]
  }

  function OptionalTime(t: Option<I64>): seq<seq<Byte>> {
    if t == None then [[0]] else [[1], Time(t.value)]
  }

  function AckEntryChunks(e: AckEntry): seq<seq<Byte>> {
    [Framed(e.key.transactionId.text), Wide(e.key.sequence), [OutcomeByte(e.outcome)]]
    + OptionalCategory(e.category) + OptionalTime(e.retryAt)
  }

  function AckEntriesChunks(entries: seq<AckEntry>): seq<seq<Byte>> {
    if entries == [] then []
    else AckEntriesChunks(entries[..|entries| - 1]) + AckEntryChunks(entries[|entries| - 1])
  }

  function AckChunks(a: BatchAck): seq<seq<Byte>>
    requires |a.entries| <= U64_MAX
  {
    [Framed(AsciiText("transitguard.reader-synchronization.acknowledgement.v1")),
     Narrow(a.protocol),
     Framed(a.environment),
     Framed(a.readerId.text),
     Framed(a.batchId.text),
     Wide(a.first),
     Wide(a.last),
     Time(a.receivedAt),
     Wide(|a.entries|)]
    + AckEntriesChunks(a.entries)
  }

  predicate LaidOut(fs: seq<Field>, chunks: seq<seq<Byte>>) {
    |fs| == |chunks| && forall k :: 0 <= k < |fs| ==> chunks[k] == Chunk(fs[k])
  }

  lemma LaidOutConcat(fs: seq<Field>, gs: seq<Field>, a: seq<seq<Byte>>, b: seq<seq<Byte>>)
    requires LaidOut(fs, a) && LaidOut(gs, b)
    ensures LaidOut(fs + gs, a + b)
  {
    hide Chunk;
  }

  lemma AckEntryLaidOut(e: AckEntry)
    ensures LaidOut(AckEntryFields(e), AckEntryChunks(e))
  {
    hide Wide, Framed, Time, Ascii, CategoryText;
    assert LaidOut(AckEntryFixed(e),
                   [Framed(e.key.transactionId.text), Wide(e.key.sequence), [OutcomeByte(e.outcome)]]);
    assert LaidOut(CategoryFields(e.category), OptionalCategory(e.category));
    assert LaidOut(RetryFields(e.retryAt), OptionalTime(e.retryAt));
    hide LaidOut, AckEntryFixed, CategoryFields, RetryFields;
    LaidOutConcat(AckEntryFixed(e), CategoryFields(e.category),
                  [Framed(e.key.transactionId.text), Wide(e.key.sequence), [OutcomeByte(e.outcome)]],
                  OptionalCategory(e.category));
    LaidOutConcat(AckEntryFixed(e) + CategoryFields(e.category), RetryFields(e.retryAt),
                  [Framed(e.key.transactionId.text), Wide(e.key.sequence), [OutcomeByte(e.outcome)]]
                  + OptionalCategory(e.category), OptionalTime(e.retryAt));
  }

  lemma {:induction false} AckEntriesLaidOut(entries: seq<AckEntry>)
    ensures LaidOut(AckEntriesFields(entries), AckEntriesChunks(entries))
  {
    hide AckEntryFields, AckEntryChunks;
    if entries != [] {
      hide LaidOut;
      var n := |entries| - 1;
      AckEntriesLaidOut(entries[..n]);
      AckEntryLaidOut(entries[n]);
      LaidOutConcat(AckEntriesFields(entries[..n]), AckEntryFields(entries[n]),
                    AckEntriesChunks(entries[..n]), AckEntryChunks(entries[n]));
    }
  }

  lemma AckHeaderLaidOut(a: BatchAck)
    requires |a.entries| <= U64_MAX
    ensures LaidOut(AckHeader(a), AckChunks(a)[..9])
  {
    hide Wide, Framed, Narrow, Time, Ascii, AckEntriesChunks;
  }

  /** An acknowledgement is hashed as its domain, protocol, environment,
      reader, batch, first and last sequence, receipt time and entry count,
      then each entry's identity, sequence, outcome, and optional category
      and retry time; the replay flag is not hashed. */
  lemma AckLayout(a: BatchAck)
    requires |a.entries| <= U64_MAX
    ensures AckPreimage(a) == Flatten(AckChunks(a))
  {
    AckHeaderLaidOut(a);
    AckEntriesLaidOut(a.entries);
    LaidOutConcat(AckHeader(a), AckEntriesFields(a.entries), AckChunks(a)[..9], AckEntriesChunks(a.entries));
    assert AckChunks(a) == AckChunks(a)[..9] + AckEntriesChunks(a.entries);
    hide Chunk, Wide, Framed, AckHeader, AckChunks, AckEntriesChunks, AckEntriesFields, Bytes, Flatten;
    ChunksOf(AckHeader(a) + AckEntriesFields(a.entries), AckChunks(a));
  }

  // ---- Category names ---------------------------------------------------

  /** The category with this name. */
  function CategoryNamed(name: string): Option<Category> {
    if name == "network_timeout" then Some(NetworkTimeout)
    else if name == "connection_failure" then Some(ConnectionFailure)
    else if name == "response_decode_failure" then Some(ResponseDecodeFailure)
    else if name == "payload_too_large" then Some(PayloadTooLarge)
    else if name == "unsupported_protocol" then Some(UnsupportedProtocol)
    else if name == "reader_not_registered" then Some(ReaderNotRegistered)
    else if name == "reader_not_operational" then Some(ReaderNotOperational)
    else if name == "environment_mismatch" then Some(EnvironmentMismatch)
    else if name == "batch_identity_conflict" then Some(BatchIdentityConflict)
    else if name == "batch_range_mismatch" then Some(BatchRangeMismatch)
    else if name == "entry_order_mismatch" then Some(EntryOrderMismatch)
    else if name == "transaction_identity_conflict" then Some(TransactionIdentityConflict)
    else if name == "backend_temporarily_unavailable" then Some(BackendTemporarilyUnavailable)
    else if name == "backend_validation_failure" then Some(BackendValidationFailure)
    else if name == "manual_review_required" then Some(ManualReviewRequired)
    else None
  }

  /** The names, one by one. */
  predicate NamesOf(text: Category -> string) {
    && text(NetworkTimeout) == "network_timeout" && text(ConnectionFailure) == "connection_failure"
    && text(ResponseDecodeFailure) == "response_decode_failure" && text(PayloadTooLarge) == "payload_too_large"
    && text(UnsupportedProtocol) == "unsupported_protocol" && text(ReaderNotRegistered) == "reader_not_registered"
    && text(ReaderNotOperational) == "reader_not_operational" && text(EnvironmentMismatch) == "environment_mismatch"
    && text(BatchIdentityConflict) == "batch_identity_conflict" && text(BatchRangeMismatch) == "batch_range_mismatch"
    && text(EntryOrderMismatch) == "entry_order_mismatch"
    && text(TransactionIdentityConflict) == "transaction_identity_conflict"
    && text(BackendTemporarilyUnavailable) == "backend_temporarily_unavailable"
    && text(BackendValidationFailure) == "backend_validation_failure"
    && text(ManualReviewRequired) == "manual_review_required"
  }

  lemma NamesHold()
    ensures NamesOf(CategoryText)
  {
  }

  lemma ReadsBack(text: Category -> string, c: Category)
    requires NamesOf(text) && forall x, y :: text(x) == text(y) ==> x == y
    ensures CategoryNamed(text(c)) == Some(c)
  {
  }

  /** Reading a category's name gives the category back. */
  lemma CategoryNameRoundTrip(c: Category)
    ensures CategoryNamed(CategoryText(c)) == Some(c)
  {
    hide CategoryText, NamesOf, CategoryNamed;
    NamesHold();
    forall x, y | CategoryText(x) == CategoryText(y) ensures x == y {
      CategoryTextUnique(x, y);
    }
    ReadsBack(CategoryText, c);
  }
}
