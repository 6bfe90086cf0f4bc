/** Durable acknowledgements: construction, canonical payload, decoding, and
    translation from the protocol form. */
module ReaderAcknowledgement {
  import opened Basics
  import opened Texts
  import opened ReaderTables
  import Protocol

  datatype AckLine = AckLine(transactionId: TransactionId, sequence: int, resolution: Resolution)

  datatype Acknowledgement = Acknowledgement(
    readerId: ReaderId, batchId: BatchId, protocol: int, first: int, last: int, receivedAt: int,
    lines: seq<AckLine>)

  datatype AckError =
    | NegativeReceivedTime
    | InvalidSequenceRange
    | EmptyEntries
    | DuplicateTransaction(id: TransactionId)
    | DuplicateSequence(sequence: int)
    | EmptyFailureCategory(id: TransactionId)
    | RetryBeforeAcknowledgement(id: TransactionId)
    | MissingFailureCategory(id: TransactionId)
    | MissingRetryTime(id: TransactionId)
    | InvalidStoredValue

  // ---- Construction -----------------------------------------------------

  function ResolutionError(id: TransactionId, r: Resolution, receivedAt: int): Option<AckError> {
    match r
    case Accepted => None
    case RetryLater(category, retryAt) =>
      if Blank(category) then Some(EmptyFailureCategory(id))
      else if retryAt < receivedAt then Some(RetryBeforeAcknowledgement(id))
      else None
    case Refused(category) => if Blank(category) then Some(EmptyFailureCategory(id)) else None
    case Review(category) => if Blank(category) then Some(EmptyFailureCategory(id)) else None
  }

  predicate LinesDistinct(lines: seq<AckLine>) {
    forall i, j :: 0 <= i < j < |lines| ==>
      lines[i].transactionId != lines[j].transactionId && lines[i].sequence != lines[j].sequence
  }

  predicate LinesResolve(lines: seq<AckLine>, receivedAt: int) {
    forall k :: 0 <= k < |lines| ==>
      ResolutionError(lines[k].transactionId, lines[k].resolution, receivedAt).None?
  }

  /** The acknowledgements the constructor admits. */
  predicate Constructible(a: Acknowledgement) {
    && a.receivedAt >= 0 && a.first <= a.last && a.lines != []
    && LinesDistinct(a.lines) && LinesResolve(a.lines, a.receivedAt)
  }

  /** A failure whose category is blank. */
  predicate Uncategorized(r: Resolution) {
    !r.Accepted? && Trim(r.category) == []
  }

  /** A retry before the receipt. */
  predicate Early(r: Resolution, receivedAt: int) {
    r.RetryLater? && r.retryAt < receivedAt
  }

  /** What the constructor admits, said of each line. */
  lemma ConstructibleMeaning(a: Acknowledgement)
    ensures Constructible(a) <==>
      && a.receivedAt >= 0 && a.first <= a.last && |a.lines| >= 1
      && (forall i, j :: 0 <= i < j < |a.lines| ==> a.lines[i].transactionId != a.lines[j].transactionId)
      && (forall i, j :: 0 <= i < j < |a.lines| ==> a.lines[i].sequence != a.lines[j].sequence)
      && (forall k :: 0 <= k < |a.lines| ==>
            !Uncategorized(a.lines[k].resolution) && !Early(a.lines[k].resolution, a.receivedAt))
  {
    hide Trim;
    forall k | 0 <= k < |a.lines|
      ensures ResolutionError(a.lines[k].transactionId, a.lines[k].resolution, a.receivedAt).None? <==>
        !Uncategorized(a.lines[k].resolution) && !Early(a.lines[k].resolution, a.receivedAt)
    {
    }
  }

  /** The constructor's hash-set loop accepts exactly the constructible
      values; its error names the first line that repeats an identity or a
      sequence or carries bad metadata. */
  method NewAcknowledgement(a: Acknowledgement) returns (result: Result<Acknowledgement, AckError>)
    ensures result.Ok? <==> Constructible(a)
    ensures result.Ok? ==> result.value == a
    ensures result.Err? ==> match result.error
      case NegativeReceivedTime => a.receivedAt < 0
      case InvalidSequenceRange => a.first > a.last
      case EmptyEntries => a.lines == []
      case DuplicateTransaction(id) =>
        exists i, j :: 0 <= i < j < |a.lines| && a.lines[i].transactionId == a.lines[j].transactionId == id
      case DuplicateSequence(sequence) =>
        exists i, j :: 0 <= i < j < |a.lines| && a.lines[i].sequence == a.lines[j].sequence == sequence
      case EmptyFailureCategory(id) =>
        exists k :: 0 <= k < |a.lines| && a.lines[k].transactionId == id && Uncategorized(a.lines[k].resolution)
      case RetryBeforeAcknowledgement(id) =>
        exists k :: 0 <= k < |a.lines| && a.lines[k].transactionId == id && Early(a.lines[k].resolution, a.receivedAt)
      case _ => false
  {
    hide Trim;
    if a.receivedAt < 0 {
      return Err(NegativeReceivedTime);
    }
    if a.last < a.first {
      return Err(InvalidSequenceRange);
    }
    if a.lines == [] {
      return Err(EmptyEntries);
    }
    var ids: set<TransactionId>, sequences: set<int> := {}, {};
    for k := 0 to |a.lines|
      invariant forall id :: id in ids <==> exists j :: 0 <= j < k && a.lines[j].transactionId == id
      invariant forall s :: s in sequences <==> exists j :: 0 <= j < k && a.lines[j].sequence == s
      invariant LinesDistinct(a.lines[..k]) && LinesResolve(a.lines[..k], a.receivedAt)
    {
      var line := a.lines[k];
      if line.transactionId in ids {
        return Err(DuplicateTransaction(line.transactionId));
      }
      ids := ids + {line.transactionId};
      if line.sequence in sequences {
        return Err(DuplicateSequence(line.sequence));
      }
      sequences := sequences + {line.sequence};
      var error := ResolutionError(line.transactionId, line.resolution, a.receivedAt);
      if error.Some? {
        return Err(error.value);
      }
    }
    assert a.lines[..|a.lines|] == a.lines;
    return Ok(a);
  }

  // ---- Stored form ------------------------------------------------------

  function StoredResolution(r: Resolution): (string, Option<string>, Option<int>) {
    match r
    case Accepted => ("acknowledged", None, None)
    case RetryLater(category, retryAt) => ("retryable_failure", Some(category), Some(retryAt))
    case Refused(category) => ("permanent_failure", Some(category), None)
    case Review(category) => ("manual_review", Some(category), None)
  }

  function StoredLine(line: AckLine, position: nat): AckEntryRow {
    var (outcome, failure, retryAt) := StoredResolution(line.resolution);
    AckEntryRow(line.transactionId, line.sequence, position, outcome, failure, retryAt)
  }

  function StoredLines(lines: seq<AckLine>): (rows: seq<AckEntryRow>)
    ensures |rows| == |lines| && forall k :: 0 <= k < |lines| ==> rows[k] == StoredLine(lines[k], k)
  {
    seq(|lines|, k requires 0 <= k < |lines| => StoredLine(lines[k], k))
  }

  /** The canonical JSON document, as the record it serializes. */
  function CanonicalPayload(a: Acknowledgement): Payload {
    Payload(a.readerId, a.batchId, a.protocol, a.first, a.last, a.receivedAt, StoredLines(a.lines))
  }

  lemma OutcomeTextsDiffer()
    ensures |"acknowledged"| == 12 && |"retryable_failure"| == 17 && "permanent_failure"[0] == 'p'
    ensures |"permanent_failure"| == 17 && |"manual_review"| == 13 && "retryable_failure"[0] == 'r'
  {
  }

  lemma StoredResolutionInjective(a: Resolution, b: Resolution)
    ensures StoredResolution(a) == StoredResolution(b) <==> a == b
  {
    OutcomeTextsDiffer();
  }

  /** Two acknowledgements have one canonical payload exactly when they are
      equal, so payload comparison detects every difference. */
  lemma PayloadInjective(a: Acknowledgement, b: Acknowledgement)
    ensures CanonicalPayload(a) == CanonicalPayload(b) <==> a == b
  {
    if CanonicalPayload(a) == CanonicalPayload(b) {
      var x, y := StoredLines(a.lines), StoredLines(b.lines);
      assert |a.lines| == |x| == |y| == |b.lines|;
      forall k | 0 <= k < |a.lines| ensures a.lines[k] == b.lines[k] {
        assert x[k] == y[k];
        StoredResolutionInjective(a.lines[k].resolution, b.lines[k].resolution);
      }
    }
  }

  // ---- Decoding ---------------------------------------------------------

  function DecodeCategory(failure: Option<string>): Result<string, AckError> {
    match failure
    case None => Err(InvalidStoredValue)
    case Some(text) => if Blank(text) then Err(InvalidStoredValue) else Ok(Trim(text))
  }

  function DecodeResolution(outcome: string, failure: Option<string>, retryAt: Option<int>, receivedAt: int):
    Result<Resolution, AckError>
  {
    if outcome == "acknowledged" then
      if failure.Some? || retryAt.Some? then Err(InvalidStoredValue) else Ok(Accepted)
    else if outcome == "retryable_failure" then
      var category :- DecodeCategory(failure);
      if retryAt.None? || retryAt.value < receivedAt then Err(InvalidStoredValue)
      else Ok(RetryLater(category, retryAt.value))
    else if outcome == "permanent_failure" then
      if retryAt.Some? then Err(InvalidStoredValue) else
      var category :- DecodeCategory(failure);
      Ok(Refused(category))
    else if outcome == "manual_review" then
      if retryAt.Some? then Err(InvalidStoredValue) else
      var category :- DecodeCategory(failure);
      Ok(Review(category))
    else Err(InvalidStoredValue)
  }

  function DecodeRow(row: AckEntryRow, position: nat, receivedAt: int): Result<AckLine, AckError> {
    if row.position != position || row.sequence <= 0 then Err(InvalidStoredValue)
    else
      var resolution :- DecodeResolution(row.outcome, row.failure, row.retryAt, receivedAt);
      Ok(AckLine(row.transactionId, row.sequence, resolution))
  }

  /** Every row decodes, and this is what the rows say. */
  ghost predicate DecodesTo(rows: seq<AckEntryRow>, receivedAt: int, lines: seq<AckLine>) {
    |rows| == |lines| && forall k :: 0 <= k < |rows| ==> DecodeRow(rows[k], k, receivedAt) == Ok(lines[k])
  }

  ghost predicate Decodable(rows: seq<AckEntryRow>, receivedAt: int) {
    forall k :: 0 <= k < |rows| ==> DecodeRow(rows[k], k, receivedAt).Ok?
  }

  /** The decoded lines of decodable rows. */
  ghost function Decoded(rows: seq<AckEntryRow>, receivedAt: int): (lines: seq<AckLine>)
    requires Decodable(rows, receivedAt)
    ensures DecodesTo(rows, receivedAt, lines)
  {
    seq(|rows|, k requires 0 <= k < |rows| => DecodeRow(rows[k], k, receivedAt).value)
  }

  /** What a stored acknowledgement says about its transactions. */
  ghost function Lines(p: Payload): (lines: seq<AckLine>)
    ensures Decodable(p.entries, p.receivedAt) ==> DecodesTo(p.entries, p.receivedAt, lines)
  {
    if Decodable(p.entries, p.receivedAt) then Decoded(p.entries, p.receivedAt) else []
  }

  /** The decoding loop succeeds exactly on decodable rows. */
  method DecodeRows(rows: seq<AckEntryRow>, receivedAt: int) returns (result: Result<seq<AckLine>, AckError>)
    ensures result.Ok? <==> Decodable(rows, receivedAt)
    ensures result.Ok? ==> result.value == Decoded(rows, receivedAt)
    ensures result.Err? ==> result.error == InvalidStoredValue
  {
    var lines: seq<AckLine> := [];
    for k := 0 to |rows|
      invariant DecodesTo(rows[..k], receivedAt, lines)
    {
      var line := DecodeRow(rows[k], k, receivedAt);
      if line.Err? {
        return Err(InvalidStoredValue);
      }
      lines := lines + [line.value];
    }
    return Ok(lines);
  }

  function TrimResolution(r: Resolution): Resolution {
    match r
    case Accepted => Accepted
    case RetryLater(category, retryAt) => RetryLater(Trim(category), retryAt)
    case Refused(category) => Refused(Trim(category))
    case Review(category) => Review(Trim(category))
  }

  lemma StoredResolutionDecodes(id: TransactionId, r: Resolution, receivedAt: int)
    requires ResolutionError(id, r, receivedAt).None?
    ensures var (outcome, failure, retryAt) := StoredResolution(r);
      DecodeResolution(outcome, failure, retryAt, receivedAt) == Ok(TrimResolution(r))
  {
    hide Trim;
    OutcomeTextsDiffer();
  }

  /** Storing and decoding recovers every line, with its failure text
      trimmed. */
  lemma StoredLinesDecode(a: Acknowledgement)
    requires Constructible(a) && forall k :: 0 <= k < |a.lines| ==> a.lines[k].sequence > 0
    ensures Decodable(StoredLines(a.lines), a.receivedAt)
    ensures var lines := Decoded(StoredLines(a.lines), a.receivedAt);
      |lines| == |a.lines| && forall k :: 0 <= k < |lines| ==>
        lines[k] == a.lines[k].(resolution := TrimResolution(a.lines[k].resolution))
  {
    hide StoredResolution, DecodeResolution, TrimResolution, ResolutionError;
    forall k | 0 <= k < |a.lines|
      ensures DecodeRow(StoredLines(a.lines)[k], k, a.receivedAt)
           == Ok(a.lines[k].(resolution := TrimResolution(a.lines[k].resolution)))
    {
      StoredResolutionDecodes(a.lines[k].transactionId, a.lines[k].resolution, a.receivedAt);
    }
  }

  // ---- Translation from the protocol ------------------------------------

  function TranslateEntry(e: Protocol.AckEntry): (r: Result<AckLine, AckError>)
    ensures Protocol.MetadataFits(e) ==>
      r.Ok? && r.value.transactionId == e.key.transactionId && r.value.sequence == e.key.sequence
  {
    var id, sequence := e.key.transactionId, e.key.sequence;
    match e.outcome
    case Acknowledged => Ok(AckLine(id, sequence, Accepted))
    case RetryableFailure =>
      if e.category.None? then Err(MissingFailureCategory(id))
      else if e.retryAt.None? then Err(MissingRetryTime(id))
      else Ok(AckLine(id, sequence, RetryLater(Protocol.CategoryText(e.category.value), e.retryAt.value)))
    case PermanentFailure =>
      if e.category.None? then Err(MissingFailureCategory(id))
      else Ok(AckLine(id, sequence, Refused(Protocol.CategoryText(e.category.value))))
    case ManualReview =>
      if e.category.None? then Err(MissingFailureCategory(id))
      else Ok(AckLine(id, sequence, Review(Protocol.CategoryText(e.category.value))))
  }

  /** The value handed to the constructor when no metadata is missing. */
  function TranslatedLines(entries: seq<Protocol.AckEntry>): (lines: seq<AckLine>)
    requires forall k :: 0 <= k < |entries| ==> Protocol.MetadataFits(entries[k])
    ensures |lines| == |entries| && forall k :: 0 <= k < |entries| ==> Ok(lines[k]) == TranslateEntry(entries[k])
  {
    seq(|entries|, k requires 0 <= k < |entries| => TranslateEntry(entries[k]).value)
  }

  function Translated(a: Protocol.BatchAck): Acknowledgement
    requires forall k :: 0 <= k < |a.entries| ==> Protocol.MetadataFits(a.entries[k])
  {
    Acknowledgement(a.readerId, a.batchId, a.protocol, a.first, a.last, a.receivedAt, TranslatedLines(a.entries))
  }

  /** The line says what the entry says. */
  predicate LineSays(line: AckLine, e: Protocol.AckEntry) {
    && line.transactionId == e.key.transactionId && line.sequence == e.key.sequence
    && match e.outcome
       case Acknowledged => line.resolution == Accepted
       case RetryableFailure =>
         && e.category.Some? && e.retryAt.Some?
         && line.resolution == RetryLater(Protocol.CategoryText(e.category.value), e.retryAt.value)
       case PermanentFailure =>
         e.category.Some? && line.resolution == Refused(Protocol.CategoryText(e.category.value))
       case ManualReview =>
         e.category.Some? && line.resolution == Review(Protocol.CategoryText(e.category.value))
  }

  /** The durable acknowledgement says what the message says. */
  predicate Says(t: Acknowledgement, a: Protocol.BatchAck) {
    && t.readerId == a.readerId && t.batchId == a.batchId && t.protocol == a.protocol
    && t.first == a.first && t.last == a.last && t.receivedAt == a.receivedAt && |t.lines| == |a.entries|
    && forall k :: 0 <= k < |a.entries| ==> LineSays(t.lines[k], a.entries[k])
  }

  lemma TranslatedSays(a: Protocol.BatchAck)
    requires forall k :: 0 <= k < |a.entries| ==> Protocol.MetadataFits(a.entries[k])
    ensures Says(Translated(a), a)
  {
    hide Protocol.CategoryText;
    var lines := TranslatedLines(a.entries);
    forall k | 0 <= k < |a.entries| ensures LineSays(lines[k], a.entries[k]) {
      assert Protocol.MetadataFits(a.entries[k]) && Ok(lines[k]) == TranslateEntry(a.entries[k]);
    }
  }

  predicate RetriesAfterReceipt(a: Protocol.BatchAck) {
    forall k :: 0 <= k < |a.entries| && a.entries[k].retryAt.Some? ==> a.entries[k].retryAt.value >= a.receivedAt
  }

  lemma CategoryTextTrimmed(c: Protocol.Category)
    ensures !Blank(Protocol.CategoryText(c)) && Trim(Protocol.CategoryText(c)) == Protocol.CategoryText(c)
  {
    hide Trim;
    TrimmedFixed(Protocol.CategoryText(c));
  }

  lemma TranslatedEntryResolves(a: Protocol.BatchAck, k: nat)
    requires k < |a.entries| && forall j :: 0 <= j < |a.entries| ==> Protocol.MetadataFits(a.entries[j])
    ensures var line := TranslatedLines(a.entries)[k];
      && (ResolutionError(line.transactionId, line.resolution, a.receivedAt).None? <==>
            a.entries[k].retryAt.None? || a.entries[k].retryAt.value >= a.receivedAt)
      && TrimResolution(line.resolution) == line.resolution
  {
    hide Trim, Protocol.CategoryText;
    if a.entries[k].category.Some? {
      CategoryTextTrimmed(a.entries[k].category.value);
    }
  }

  /** A valid protocol acknowledgement is constructible exactly when every
      retry time is at or after receipt. */
  lemma TranslationExact(a: Protocol.BatchAck)
    requires Protocol.ValidAck(a)
    ensures Constructible(Translated(a)) <==> RetriesAfterReceipt(a)
  {
    var keys, lines := Protocol.AckKeys(a.entries), TranslatedLines(a.entries);
    forall k | 0 <= k < |lines|
      ensures lines[k].transactionId == keys[k].transactionId && lines[k].sequence == keys[k].sequence
    {
    }
    hide Protocol.MetadataFits, TranslateEntry, ResolutionError;
    assert LinesDistinct(lines);
    forall k | 0 <= k < |lines|
      ensures ResolutionError(lines[k].transactionId, lines[k].resolution, a.receivedAt).None? <==>
        a.entries[k].retryAt.None? || a.entries[k].retryAt.value >= a.receivedAt
    {
      TranslatedEntryResolves(a, k);
    }
    if |keys| > 1 {
      assert keys[0].sequence < keys[|keys| - 1].sequence;
    }
  }

  /** Nothing but an early retry can be wrong with a translated valid
      acknowledgement. */
  lemma TranslatedSound(a: Protocol.BatchAck)
    requires Protocol.ValidAck(a)
    ensures var t := Translated(a);
      && t.receivedAt >= 0 && t.first <= t.last && t.lines != [] && LinesDistinct(t.lines)
      && forall k :: 0 <= k < |t.lines| ==> !Uncategorized(t.lines[k].resolution)
  {
    hide Trim, Protocol.CategoryText;
    var keys, t := Protocol.AckKeys(a.entries), Translated(a);
    TranslatedSays(a);
    forall k | 0 <= k < |t.lines|
      ensures t.lines[k].transactionId == keys[k].transactionId && t.lines[k].sequence == keys[k].sequence
      ensures !Uncategorized(t.lines[k].resolution)
    {
      assert LineSays(t.lines[k], a.entries[k]);
      if a.entries[k].category.Some? {
        CategoryTextTrimmed(a.entries[k].category.value);
      }
    }
    if |keys| > 1 {
      assert keys[0].sequence < keys[|keys| - 1].sequence;
    }
  }

  /** Translation of any message value; on valid ones the missing-metadata
      errors never occur and it succeeds exactly when every retry time is at
      or after receipt, the only fault it reports. */
  method Translate(a: Protocol.BatchAck) returns (result: Result<Acknowledgement, AckError>)
    ensures Protocol.ValidAck(a) ==>
      && (result.Ok? <==> RetriesAfterReceipt(a))
      && (result.Ok? ==> result.value == Translated(a) && Says(result.value, a))
      && (result.Err? ==> result.error.RetryBeforeAcknowledgement?)
    ensures result.Ok? ==> Constructible(result.value)
  {
    hide TranslateEntry, Protocol.MetadataFits, Constructible, RetriesAfterReceipt, LineSays;
    var lines: seq<AckLine> := [];
    for k := 0 to |a.entries|
      invariant |lines| == k && forall j :: 0 <= j < k ==> TranslateEntry(a.entries[j]) == Ok(lines[j])
    {
      var line := TranslateEntry(a.entries[k]);
      if line.Err? {
        return Err(line.error);
      }
      lines := lines + [line.value];
    }
    ghost var valid := Protocol.ValidAck(a);
    if valid {
      assert lines == TranslatedLines(a.entries);
      TranslationExact(a);
      TranslatedSays(a);
      TranslatedSound(a);
    }
    result := NewAcknowledgement(
      Acknowledgement(a.readerId, a.batchId, a.protocol, a.first, a.last, a.receivedAt, lines));
  }

  /** The round trip: storing a translated acknowledgement and decoding it
      gives back exactly the translated lines. */
  lemma TranslatedRoundTrip(a: Protocol.BatchAck)
    requires Protocol.ValidAck(a) && RetriesAfterReceipt(a)
    ensures var rows := CanonicalPayload(Translated(a)).entries;
      && Decodable(rows, a.receivedAt) && Decoded(rows, a.receivedAt) == Translated(a).lines
      && |rows| == |a.entries|
      && forall k :: 0 <= k < |rows| ==> LineSays(Decoded(rows, a.receivedAt)[k], a.entries[k])
  {
    TranslatedSays(a);
    hide LineSays;
    TranslationExact(a);
    var t := Translated(a);
    forall k | 0 <= k < |t.lines| ensures t.lines[k].sequence > 0 {
      assert Ok(t.lines[k]) == TranslateEntry(a.entries[k]);
    }
    StoredLinesDecode(t);
    forall k | 0 <= k < |t.lines| ensures TrimResolution(t.lines[k].resolution) == t.lines[k].resolution {
      TranslatedEntryResolves(a, k);
    }
  }
}
