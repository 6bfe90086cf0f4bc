/** The byte strings fed to SHA-256, and the hexadecimal form of the digest.
    The hash itself is not modelled. */
module Fingerprint {
  import opened Basics
  import opened Protocol

  // ---- Fixed-width integers ---------------------------------------------

  function Pow256(w: nat): nat {
    if w == 0 then 1 else 256 * Pow256(w - 1)
  }

  function BigEndian(n: nat, w: nat): (bytes: seq<Byte>)
    ensures |bytes| == w
  {
    if w == 0 then [] else BigEndian(n / 256, w - 1) + [n % 256]
  }

  function FromBigEndian(bytes: seq<Byte>): nat {
    if bytes == [] then 0 else 256 * FromBigEndian(bytes[..|bytes| - 1]) + bytes[|bytes| - 1]
  }

  lemma {:induction false} BigEndianRoundTrip(n: nat, w: nat)
    requires n < Pow256(w)
    ensures FromBigEndian(BigEndian(n, w)) == n
  {
    if w > 0 {
      BigEndianRoundTrip(n / 256, w - 1);
      assert BigEndian(n, w)[..w - 1] == BigEndian(n / 256, w - 1);
    }
  }

  lemma PowValues()
    ensures Pow256(1) == 0x100 && Pow256(2) == 0x1_0000 && Pow256(8) == TWO_64
  {
    assert Pow256(1) == 0x100;
    assert Pow256(2) == 0x1_0000;
    assert Pow256(3) == 0x100_0000;
    assert Pow256(4) == 0x1_0000_0000;
    assert Pow256(5) == 0x100_0000_0000;
    assert Pow256(6) == 0x1_0000_0000_0000;
    assert Pow256(7) == 0x100_0000_0000_0000;
  }

  /** Two's complement. */
  function Unsigned(v: I64): U64 {
    if v < 0 then v + TWO_64 else v
  }

  // ---- Fields -----------------------------------------------------------

  /** One `update` call on the hasher. */
  datatype Field =
    | Short(short: Version)
    | Long(long: U64)
    | Signed(signed: I64)
    | Tag(tag: Byte)
    | Textual(text: Text)

  function FieldBytes(f: Field): seq<Byte> {
    match f
    case Short(v) => BigEndian(v, 2)
    case Long(v) => BigEndian(v, 8)
    case Signed(v) => BigEndian(Unsigned(v), 8)
    case Tag(b) => [b]
    case Textual(t) => BigEndian(|t|, 8) + t
  }

  predicate SameKind(f: Field, g: Field) {
    f.Short? == g.Short? && f.Long? == g.Long? && f.Signed? == g.Signed? && f.Tag? == g.Tag?
  }

  predicate SameKinds(fs: seq<Field>, gs: seq<Field>) {
    |fs| == |gs| && forall k :: 0 <= k < |fs| ==> SameKind(fs[k], gs[k])
  }

  function Bytes(fs: seq<Field>): seq<Byte> {
    if fs == [] then [] else FieldBytes(fs[0]) + Bytes(fs[1..])
  }

  lemma {:induction false} BytesConcat(fs: seq<Field>, gs: seq<Field>)
    ensures Bytes(fs + gs) == Bytes(fs) + Bytes(gs)
  {
    if fs == [] {
      assert fs + gs == gs;
    } else {
      assert (fs + gs)[1..] == fs[1..] + gs;
      BytesConcat(fs[1..], gs);
    }
  }

  lemma SplitConcat(a: seq<Byte>, b: seq<Byte>, s: seq<Byte>, t: seq<Byte>)
    requires |a| == |b| && a + s == b + t
    ensures a == b && s == t
  {
    assert a == (a + s)[..|a|] && b == (b + t)[..|a|];
    assert s == (a + s)[|a|..] && t == (b + t)[|a|..];
  }

  lemma FixedWidth(m: nat, n: nat, w: nat, s: seq<Byte>, t: seq<Byte>)
    requires m < Pow256(w) && n < Pow256(w) && BigEndian(m, w) + s == BigEndian(n, w) + t
    ensures m == n && s == t
  {
    SplitConcat(BigEndian(m, w), BigEndian(n, w), s, t);
    BigEndianRoundTrip(m, w);
    BigEndianRoundTrip(n, w);
  }

  lemma Assoc(a: seq<Byte>, b: seq<Byte>, c: seq<Byte>)
    ensures (a + b) + c == a + (b + c)
  {
  }

  lemma TextPrefixFree(a: Text, b: Text, s: seq<Byte>, t: seq<Byte>)
    requires (BigEndian(|a|, 8) + a) + s == (BigEndian(|b|, 8) + b) + t
    ensures a == b && s == t
  {
    Assoc(BigEndian(|a|, 8), a, s);
    Assoc(BigEndian(|b|, 8), b, t);
    PowValues();
    FixedWidth(|a|, |b|, 8, a + s, b + t);
    SplitConcat(a, b, s, t);
  }

  /** No field's bytes are a prefix of another field of the same kind. */
  lemma FieldPrefixFree(f: Field, g: Field, s: seq<Byte>, t: seq<Byte>)
    requires SameKind(f, g) && FieldBytes(f) + s == FieldBytes(g) + t
    ensures f == g && s == t
  {
    match f {
      case Short(_) => PowValues(); FixedWidth(f.short, g.short, 2, s, t);
      case Long(_) => PowValues(); FixedWidth(f.long, g.long, 8, s, t);
      case Signed(_) => PowValues(); FixedWidth(Unsigned(f.signed), Unsigned(g.signed), 8, s, t);
      case Tag(_) => SplitConcat([f.tag], [g.tag], s, t);
      case Textual(_) => TextPrefixFree(f.text, g.text, s, t);
    }
  }

  /** Field lists of one shape decode uniquely, whatever follows them. */
  lemma {:induction false} FieldsPrefixFree(fs: seq<Field>, gs: seq<Field>, s: seq<Byte>, t: seq<Byte>)
    requires SameKinds(fs, gs) && Bytes(fs) + s == Bytes(gs) + t
    ensures fs == gs && s == t
    decreases |fs|
  {
    if fs == [] {
      assert Bytes(fs) + s == s && Bytes(gs) + t == t;
    } else {
      Assoc(FieldBytes(fs[0]), Bytes(fs[1..]), s);
      Assoc(FieldBytes(gs[0]), Bytes(gs[1..]), t);
      FieldPrefixFree(fs[0], gs[0], Bytes(fs[1..]) + s, Bytes(gs[1..]) + t);
      FieldsPrefixFree(fs[1..], gs[1..], s, t);
      assert fs == [fs[0]] + fs[1..] && gs == [gs[0]] + gs[1..];
    }
  }

  // ---- The three preimages ----------------------------------------------

  function Ascii(s: string): seq<Byte> {
    seq(|s|, k requires 0 <= k < |s| => (s[k] as int) % 256)
  }

  function AsciiText(s: string): Text
    requires |s| <= 64
  {
    Ascii(s)
  }

  const REQUEST_DOMAIN: Text := AsciiText("transitguard.reader-synchronization.request.v1")
  const ENVELOPE_DOMAIN: Text := AsciiText("transitguard.reader-synchronization.transaction-envelope.v1")
  const ACK_DOMAIN: Text := AsciiText("transitguard.reader-synchronization.acknowledgement.v1")

  function RequestHeader(r: Request): seq<Field>
    requires |r.entries| <= U64_MAX
  {
    [Textual(REQUEST_DOMAIN), Short(r.protocol), Textual(r.environment), Textual(r.readerId.text),
     Textual(r.softwareVersion), Textual(r.batchId.text), Long(r.first), Long(r.last), Signed(r.submittedAt),
     Long(|r.entries|)]
  }

  function RequestEntryFields(e: RequestEntry): seq<Field> {
    [Textual(e.key.transactionId.text), Long(e.key.sequence), Textual(e.envelope)]
  }

  function RequestEntriesFields(entries: seq<RequestEntry>): seq<Field> {
    if entries == [] then []
    else RequestEntriesFields(entries[..|entries| - 1]) + RequestEntryFields(entries[|entries| - 1])
  }

  function RequestPreimage(r: Request): seq<Byte>
    requires |r.entries| <= U64_MAX
  {
    Bytes(RequestHeader(r) + RequestEntriesFields(r.entries))
  }

  function EnvelopePreimage(envelope: Text): seq<Byte> {
    Bytes([Textual(ENVELOPE_DOMAIN), Textual(envelope)])
  }

  function OutcomeCode(o: EntryOutcome): Byte {
    match o
    case Acknowledged => 1
    case RetryableFailure => 2
    case PermanentFailure => 3
    case ManualReview => 4
  }

  function AckHeader(a: BatchAck): seq<Field>
    requires |a.entries| <= U64_MAX
  {
    [Textual(ACK_DOMAIN), Short(a.protocol), Textual(a.environment), Textual(a.readerId.text), Textual(a.batchId.text),
     Long(a.first), Long(a.last), Signed(a.receivedAt), Long(|a.entries|)]
  }

  function CategoryFields(c: Option<Category>): seq<Field> {
    match c
    case Some(category) => CategoryTextShort(category); [Tag(1), Textual(AsciiText(CategoryText(category)))]
    case None => [Tag(0)]
  }

  function RetryFields(retryAt: Option<I64>): seq<Field> {
    match retryAt
    case Some(t) => [Tag(1), Signed(t)]
    case None => [Tag(0)]
  }

  function AckEntryFixed(e: AckEntry): seq<Field> {
    [Textual(e.key.transactionId.text), Long(e.key.sequence), Tag(OutcomeCode(e.outcome))]
  }

  function AckEntryFields(e: AckEntry): seq<Field> {
    AckEntryFixed(e) + CategoryFields(e.category) + RetryFields(e.retryAt)
  }

  function AckEntriesFields(entries: seq<AckEntry>): seq<Field> {
    if entries == [] then []
    else AckEntriesFields(entries[..|entries| - 1]) + AckEntryFields(entries[|entries| - 1])
  }

  function AckPreimage(a: BatchAck): seq<Byte>
    requires |a.entries| <= U64_MAX
  {
    Bytes(AckHeader(a) + AckEntriesFields(a.entries))
  }

  lemma CategoryTextShort(c: Category)
    ensures |CategoryText(c)| <= 64
  {
  }

  // ---- The hashing loops ------------------------------------------------

  /** Feeds a request to the hasher; the result is everything it absorbed. */
  method FeedRequest(r: Request) returns (fed: seq<Byte>)
    requires |r.entries| <= U64_MAX
    ensures fed == RequestPreimage(r)
  {
    hide Bytes, RequestEntryFields, RequestHeader;
    var header := RequestHeader(r);
    fed := Feed(header);
    assert header + [] == header;
    for k := 0 to |r.entries|
      invariant fed == Bytes(header + RequestEntriesFields(r.entries[..k]))
    {
      var fields := RequestEntryFields(r.entries[k]);
      var more := Feed(fields);
      fed := fed + more;
      assert r.entries[..k + 1][..k] == r.entries[..k];
      assert header + RequestEntriesFields(r.entries[..k + 1])
          == header + RequestEntriesFields(r.entries[..k]) + fields;
      BytesConcat(header + RequestEntriesFields(r.entries[..k]), fields);
    }
    assert r.entries[..|r.entries|] == r.entries;
  }

  method FeedAck(a: BatchAck) returns (fed: seq<Byte>)
    requires |a.entries| <= U64_MAX
    ensures fed == AckPreimage(a)
  {
    hide Bytes, AckEntryFields, AckHeader;
    var header := AckHeader(a);
    fed := Feed(header);
    assert header + [] == header;
    for k := 0 to |a.entries|
      invariant fed == Bytes(header + AckEntriesFields(a.entries[..k]))
    {
      var fields := AckEntryFields(a.entries[k]);
      var more := Feed(fields);
      fed := fed + more;
      assert a.entries[..k + 1][..k] == a.entries[..k];
      assert header + AckEntriesFields(a.entries[..k + 1]) == header + AckEntriesFields(a.entries[..k]) + fields;
      BytesConcat(header + AckEntriesFields(a.entries[..k]), fields);
    }
    assert a.entries[..|a.entries|] == a.entries;
  }

  /** The successive `update` calls. */
  method Feed(fields: seq<Field>) returns (fed: seq<Byte>)
    ensures fed == Bytes(fields)
  {
    fed := [];
    for k := 0 to |fields|
      invariant fed == Bytes(fields[..k])
    {
      fed := fed + FieldBytes(fields[k]);
      assert fields[..k + 1] == fields[..k] + [fields[k]];
      BytesConcat(fields[..k], [fields[k]]);
      assert Bytes([fields[k]]) == FieldBytes(fields[k]) + Bytes([]);
    }
    assert fields[..|fields|] == fields;
  }

  // ---- Unique decodability ----------------------------------------------

  lemma SplitTail(a: seq<Field>, x: seq<Field>, b: seq<Field>, y: seq<Field>)
    requires |x| == |y| && a + x == b + y
    ensures a == b && x == y
  {
    assert |a| == |a + x| - |x| == |b|;
    assert a == (a + x)[..|a|] && b == (b + y)[..|b|];
    assert x == (a + x)[|a|..] && y == (b + y)[|b|..];
  }

  lemma EntryFieldsUnique(e: RequestEntry, f: RequestEntry)
    requires RequestEntryFields(e) == RequestEntryFields(f)
    ensures e == f
  {
    var x, y := RequestEntryFields(e), RequestEntryFields(f);
    assert x[0] == y[0] && x[1] == y[1] && x[2] == y[2];
  }

  lemma {:induction false} RequestEntriesUnique(es: seq<RequestEntry>, fs: seq<RequestEntry>)
    requires |es| == |fs| && RequestEntriesFields(es) == RequestEntriesFields(fs)
    ensures es == fs
    decreases |es|
  {
    if es != [] {
      var n := |es| - 1;
      var a, b := RequestEntriesFields(es[..n]), RequestEntriesFields(fs[..n]);
      var x, y := RequestEntryFields(es[n]), RequestEntryFields(fs[n]);
      assert a + x == b + y && |x| == 3 == |y|;
      hide RequestEntriesFields, RequestEntryFields;
      SplitTail(a, x, b, y);
      RequestEntriesUnique(es[..n], fs[..n]);
      EntryFieldsUnique(es[n], fs[n]);
      assert es == es[..n] + [es[n]] && fs == fs[..n] + [fs[n]];
    }
  }

  lemma {:induction false} RequestEntriesKinds(es: seq<RequestEntry>, fs: seq<RequestEntry>)
    requires |es| == |fs|
    ensures SameKinds(RequestEntriesFields(es), RequestEntriesFields(fs))
    decreases |es|
  {
    if es != [] {
      RequestEntriesKinds(es[..|es| - 1], fs[..|fs| - 1]);
    }
  }

  /** Two requests feed the hasher the same bytes only if they are equal. */
  lemma RequestPreimageInjective(r: Request, q: Request)
    requires |r.entries| <= U64_MAX && |q.entries| <= U64_MAX
    ensures RequestPreimage(r) == RequestPreimage(q) <==> r == q
  {
    hide Bytes, RequestEntriesFields;
    if RequestPreimage(r) == RequestPreimage(q) {
      BytesConcat(RequestHeader(r), RequestEntriesFields(r.entries));
      BytesConcat(RequestHeader(q), RequestEntriesFields(q.entries));
      FieldsPrefixFree(RequestHeader(r), RequestHeader(q), Bytes(RequestEntriesFields(r.entries)),
                       Bytes(RequestEntriesFields(q.entries)));
      RequestHeaderUnique(r, q);
      RequestEntriesKinds(r.entries, q.entries);
      FieldsPrefixFree(RequestEntriesFields(r.entries), RequestEntriesFields(q.entries), [], []);
      RequestEntriesUnique(r.entries, q.entries);
    }
  }

  lemma RequestHeaderUnique(r: Request, q: Request)
    requires |r.entries| <= U64_MAX && |q.entries| <= U64_MAX && RequestHeader(r) == RequestHeader(q)
    ensures r.(entries := q.entries) == q && |r.entries| == |q.entries|
  {
    var h, g := RequestHeader(r), RequestHeader(q);
    assert h[1] == g[1] && h[2] == g[2] && h[3] == g[3] && h[4] == g[4] && h[5] == g[5];
    assert h[6] == g[6] && h[7] == g[7] && h[8] == g[8] && h[9] == g[9];
  }

  lemma EnvelopePreimageInjective(a: Text, b: Text)
    ensures EnvelopePreimage(a) == EnvelopePreimage(b) <==> a == b
  {
    if EnvelopePreimage(a) == EnvelopePreimage(b) {
      FieldsPrefixFree([Textual(ENVELOPE_DOMAIN), Textual(a)], [Textual(ENVELOPE_DOMAIN), Textual(b)], [], []);
      assert [Textual(ENVELOPE_DOMAIN), Textual(a)][1] == [Textual(ENVELOPE_DOMAIN), Textual(b)][1];
    }
  }

  /** The category texts differ in their length, first or third character. */
  lemma CategoryTextUnique(c: Category, d: Category)
    requires Ascii(CategoryText(c)) == Ascii(CategoryText(d))
    ensures c == d
  {
    hide CategoryText, Ascii;
    CategoryMarks(c);
    CategoryMarks(d);
    AsciiMarks(CategoryText(c));
    AsciiMarks(CategoryText(d));
  }

  /** Length, first and third character of each category text. */
  function Marks(c: Category): (int, int, int) {
    match c
    case NetworkTimeout => (15, 110, 116)
    case ConnectionFailure => (18, 99, 110)
    case ResponseDecodeFailure => (23, 114, 115)
    case PayloadTooLarge => (17, 112, 121)
    case UnsupportedProtocol => (20, 117, 115)
    case ReaderNotRegistered => (21, 114, 97)
    case ReaderNotOperational => (22, 114, 97)
    case EnvironmentMismatch => (20, 101, 118)
    case BatchIdentityConflict => (23, 98, 116)
    case BatchRangeMismatch => (20, 98, 116)
    case EntryOrderMismatch => (20, 101, 116)
    case TransactionIdentityConflict => (29, 116, 97)
    case BackendTemporarilyUnavailable => (31, 98, 99)
    case BackendValidationFailure => (26, 98, 99)
    case ManualReviewRequired => (22, 109, 110)
  }

  lemma CategoryMarks(c: Category)
    ensures var s := CategoryText(c);
      |s| > 2 && Marks(c) == (|s|, s[0] as int, s[2] as int)
  {
  }

  lemma AsciiMarks(s: string)
    requires |s| > 2 && s[0] as int < 256 && s[2] as int < 256
    ensures |Ascii(s)| == |s| && Ascii(s)[0] == s[0] as int && Ascii(s)[2] == s[2] as int
  {
  }

  /** One acknowledgement entry decodes uniquely, whatever follows it. */
  lemma AckEntryUnique(e: AckEntry, f: AckEntry, s: seq<Byte>, t: seq<Byte>)
    requires Bytes(AckEntryFields(e)) + s == Bytes(AckEntryFields(f)) + t
    ensures e == f && s == t
  {
    hide Bytes, CategoryText, Ascii;
    var ce, cf := CategoryFields(e.category), CategoryFields(f.category);
    var re, rf := RetryFields(e.retryAt), RetryFields(f.retryAt);
    ThreePieces(AckEntryFixed(e), ce, re, s);
    ThreePieces(AckEntryFixed(f), cf, rf, t);
    FieldsPrefixFree(AckEntryFixed(e), AckEntryFixed(f), Bytes(ce) + (Bytes(re) + s), Bytes(cf) + (Bytes(rf) + t));
    assert AckEntryFixed(e)[0] == AckEntryFixed(f)[0] && AckEntryFixed(e)[1] == AckEntryFixed(f)[1];
    assert AckEntryFixed(e)[2] == AckEntryFixed(f)[2];
    TaggedUnique(ce, cf, Bytes(re) + s, Bytes(rf) + t);
    assert ce[0] == cf[0];
    if e.category.Some? {
      assert ce[1] == cf[1];
      CategoryTextUnique(e.category.value, f.category.value);
    }
    TaggedUnique(re, rf, s, t);
    assert re[0] == rf[0];
    if e.retryAt.Some? {
      assert re[1] == rf[1];
    }
  }

  lemma ThreePieces(a: seq<Field>, b: seq<Field>, c: seq<Field>, s: seq<Byte>)
    ensures Bytes(a + b + c) + s == Bytes(a) + (Bytes(b) + (Bytes(c) + s))
  {
    BytesConcat(a + b, c);
    BytesConcat(a, b);
    Assoc(Bytes(a), Bytes(b), Bytes(c));
    Assoc(Bytes(a), Bytes(b) + Bytes(c), s);
    Assoc(Bytes(b), Bytes(c), s);
  }

  /** An optional field: its tag tells whether a value of the given kind
      follows. */
  lemma TaggedUnique(fs: seq<Field>, gs: seq<Field>, s: seq<Byte>, t: seq<Byte>)
    requires Tagged(fs) && Tagged(gs) && (|fs| == |gs| == 2 ==> SameKind(fs[1], gs[1]))
    requires Bytes(fs) + s == Bytes(gs) + t
    ensures fs == gs && s == t
  {
    Assoc(FieldBytes(fs[0]), Bytes(fs[1..]), s);
    Assoc(FieldBytes(gs[0]), Bytes(gs[1..]), t);
    FieldPrefixFree(fs[0], gs[0], Bytes(fs[1..]) + s, Bytes(gs[1..]) + t);
    FieldsPrefixFree(fs, gs, s, t);
  }

  predicate Tagged(fs: seq<Field>) {
    || fs == [Tag(0)]
    || (|fs| == 2 && fs[0] == Tag(1))
  }

  /** Entry lists of one length decode uniquely, from the back: the bytes of
      the entries before the last one are a prefix of both. */
  lemma {:induction false} AckEntriesUnique(es: seq<AckEntry>, fs: seq<AckEntry>, s: seq<Byte>, t: seq<Byte>)
    requires |es| == |fs| && Bytes(AckEntriesFields(es)) + s == Bytes(AckEntriesFields(fs)) + t
    ensures es == fs && s == t
    decreases |es|
  {
    hide Bytes, AckEntryFields;
    if es == [] {
      NoBytes(s);
      NoBytes(t);
    } else {
      var n := |es| - 1;
      BytesConcat(AckEntriesFields(es[..n]), AckEntryFields(es[n]));
      BytesConcat(AckEntriesFields(fs[..n]), AckEntryFields(fs[n]));
      var x, y := Bytes(AckEntryFields(es[n])) + s, Bytes(AckEntryFields(fs[n])) + t;
      Assoc(Bytes(AckEntriesFields(es[..n])), Bytes(AckEntryFields(es[n])), s);
      Assoc(Bytes(AckEntriesFields(fs[..n])), Bytes(AckEntryFields(fs[n])), t);
      AckEntriesUnique(es[..n], fs[..n], x, y);
      AckEntryUnique(es[n], fs[n], s, t);
      assert es == es[..n] + [es[n]] && fs == fs[..n] + [fs[n]];
    }
  }

  lemma NoBytes(s: seq<Byte>)
    ensures Bytes([]) + s == s
  {
  }

  lemma AckHeaderUnique(a: BatchAck, b: BatchAck)
    requires |a.entries| <= U64_MAX && |b.entries| <= U64_MAX && AckHeader(a) == AckHeader(b)
    ensures a.(entries := b.entries, replayed := b.replayed) == b && |a.entries| == |b.entries|
  {
    var h, g := AckHeader(a), AckHeader(b);
    assert h[1] == g[1] && h[2] == g[2] && h[3] == g[3] && h[4] == g[4];
    assert h[5] == g[5] && h[6] == g[6] && h[7] == g[7] && h[8] == g[8];
  }

  /** Two acknowledgements feed the same bytes exactly when they agree on
      everything but the replay marker. */
  lemma AckPreimageInjectiveUpToReplay(a: BatchAck, b: BatchAck)
    requires |a.entries| <= U64_MAX && |b.entries| <= U64_MAX
    ensures AckPreimage(a) == AckPreimage(b) <==> a.(replayed := b.replayed) == b
  {
    hide Bytes, AckEntriesFields;
    if AckPreimage(a) == AckPreimage(b) {
      var x, y := AckEntriesFields(a.entries), AckEntriesFields(b.entries);
      BytesConcat(AckHeader(a), x);
      BytesConcat(AckHeader(b), y);
      FieldsPrefixFree(AckHeader(a), AckHeader(b), Bytes(x), Bytes(y));
      AckHeaderUnique(a, b);
      assert Bytes(x) + [] == Bytes(y) + [];
      AckEntriesUnique(a.entries, b.entries, [], []);
    }
  }

  lemma DomainFirst(fs: seq<Field>, gs: seq<Field>)
    requires fs != [] && gs != [] && fs[0].Textual? && gs[0].Textual? && |fs[0].text| != |gs[0].text|
    ensures Bytes(fs) != Bytes(gs)
  {
    if Bytes(fs) == Bytes(gs) {
      FieldPrefixFree(fs[0], gs[0], Bytes(fs[1..]), Bytes(gs[1..]));
    }
  }

  /** The three kinds of preimage never coincide. */
  lemma DomainsSeparate(r: Request, envelope: Text, a: BatchAck)
    requires |r.entries| <= U64_MAX && |a.entries| <= U64_MAX
    ensures RequestPreimage(r) != EnvelopePreimage(envelope)
    ensures RequestPreimage(r) != AckPreimage(a)
    ensures EnvelopePreimage(envelope) != AckPreimage(a)
  {
    assert |REQUEST_DOMAIN| == 46 && |ENVELOPE_DOMAIN| == 59 && |ACK_DOMAIN| == 54;
    var rf, ef := RequestHeader(r) + RequestEntriesFields(r.entries), [Textual(ENVELOPE_DOMAIN), Textual(envelope)];
    var af := AckHeader(a) + AckEntriesFields(a.entries);
    DomainFirst(rf, ef);
    DomainFirst(rf, af);
    DomainFirst(ef, af);
  }

  // ---- Hexadecimal form -------------------------------------------------

  const DIGEST_BYTES: nat := 32
  const HEX_LENGTH: nat := 64

  datatype ParseError = InvalidLength(actual: nat) | InvalidHexadecimalCharacter(position: nat)

  function HexDigit(v: int): Byte
    requires 0 <= v < 16
  {
    if v < 10 then 48 + v else 87 + v
  }

  function DigitValue(c: Byte): Option<int> {
    if 48 <= c <= 57 then Some(c - 48)
    else if 97 <= c <= 102 then Some(c - 87)
    else if 65 <= c <= 70 then Some(c - 55)
    else None
  }

  predicate HexOf(text: seq<Byte>, bytes: seq<Byte>) {
    && |text| == 2 * |bytes|
    && forall k :: 0 <= k < |bytes| ==>
         text[2 * k] == HexDigit(bytes[k] / 16) && text[2 * k + 1] == HexDigit(bytes[k] % 16)
  }

  /** The printed form: digits and lower-case letters only. */
  method ToHex(bytes: seq<Byte>) returns (text: seq<Byte>)
    ensures HexOf(text, bytes)
    ensures forall i :: 0 <= i < |text| ==> '0' as int <= text[i] <= '9' as int || 'a' as int <= text[i] <= 'f' as int
  {
    text := [];
    for k := 0 to |bytes|
      invariant HexOf(text, bytes[..k])
      invariant forall i :: 0 <= i < |text| ==>
        '0' as int <= text[i] <= '9' as int || 'a' as int <= text[i] <= 'f' as int
    {
      text := text + [HexDigit(bytes[k] / 16)] + [HexDigit(bytes[k] % 16)];
    }
  }

  /** Parsing fills the digest in place and succeeds exactly on 64 hexadecimal
      digits; a failure reports the length or the first bad position. */
  method ParseHex(text: seq<Byte>) returns (result: Result<seq<Byte>, ParseError>)
    ensures result.Ok? <==> |text| == HEX_LENGTH && forall k :: 0 <= k < |text| ==> DigitValue(text[k]).Some?
    ensures result.Ok? ==> |result.value| == DIGEST_BYTES && forall k :: 0 <= k < DIGEST_BYTES ==>
      result.value[k] == 16 * DigitValue(text[2 * k]).value + DigitValue(text[2 * k + 1]).value
    ensures result.Err? && result.error.InvalidLength? ==> result.error.actual == |text| != HEX_LENGTH
    ensures result.Err? && result.error.InvalidHexadecimalCharacter? ==>
      var p := result.error.position;
      p < |text| && DigitValue(text[p]).None? && forall k :: 0 <= k < p ==> DigitValue(text[k]).Some?
  {
    if |text| != HEX_LENGTH {
      return Err(InvalidLength(|text|));
    }
    var decoded := new Byte[DIGEST_BYTES](_ => 0);
    for k := 0 to DIGEST_BYTES
      invariant forall j :: 0 <= j < 2 * k ==> DigitValue(text[j]).Some?
      invariant forall j :: 0 <= j < k ==>
        decoded[j] == 16 * DigitValue(text[2 * j]).value + DigitValue(text[2 * j + 1]).value
    {
      var high := DigitValue(text[2 * k]);
      if high.None? {
        return Err(InvalidHexadecimalCharacter(2 * k));
      }
      var low := DigitValue(text[2 * k + 1]);
      if low.None? {
        return Err(InvalidHexadecimalCharacter(2 * k + 1));
      }
      decoded[k] := 16 * high.value + low.value;
    }
    return Ok(decoded[..]);
  }

  /** The digits in either case, and their values. */
  lemma DigitMeaning(c: Byte)
    ensures DigitValue(c).Some? <==>
      || '0' as int <= c <= '9' as int || 'a' as int <= c <= 'f' as int || 'A' as int <= c <= 'F' as int
    ensures '0' as int <= c <= '9' as int ==> DigitValue(c) == Some(c - '0' as int)
    ensures 'a' as int <= c <= 'f' as int ==> DigitValue(c) == Some(c - 'a' as int + 10)
    ensures 'A' as int <= c <= 'F' as int ==> DigitValue(c) == Some(c - 'A' as int + 10)
  {
  }

  lemma DigitRoundTrip(v: int)
    requires 0 <= v < 16
    ensures DigitValue(HexDigit(v)) == Some(v)
  {
  }

  /** The printed form of any bytes parses: every character is a digit, and
      the digit pairs give the bytes back. */
  lemma HexRoundTrip(bytes: seq<Byte>, text: seq<Byte>)
    requires HexOf(text, bytes)
    ensures forall i :: 0 <= i < |text| ==> DigitValue(text[i]).Some?
    ensures forall k :: 0 <= k < |bytes| ==>
      bytes[k] == 16 * DigitValue(text[2 * k]).value + DigitValue(text[2 * k + 1]).value
  {
    forall i | 0 <= i < |text|
      ensures DigitValue(text[i]) == Some(if i % 2 == 0 then bytes[i / 2] / 16 else bytes[i / 2] % 16)
    {
      var k := i / 2;
      assert i == 2 * k || i == 2 * k + 1;
      DigitRoundTrip(bytes[k] / 16);
      DigitRoundTrip(bytes[k] % 16);
    }
    forall k | 0 <= k < |bytes|
      ensures bytes[k] == 16 * DigitValue(text[2 * k]).value + DigitValue(text[2 * k + 1]).value
    {
      assert (2 * k) / 2 == k && (2 * k + 1) / 2 == k;
    }
  }
}
