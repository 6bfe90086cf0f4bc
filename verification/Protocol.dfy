/** The versioned synchronization messages and their validators. */
module Protocol {
  import opened Basics

  const MAX_ENTRIES: nat := 256
  const MAX_ENVELOPE_BYTES: nat := 64 * 1024

  datatype Category =
    | NetworkTimeout | ConnectionFailure | ResponseDecodeFailure | PayloadTooLarge | UnsupportedProtocol
    | ReaderNotRegistered | ReaderNotOperational | EnvironmentMismatch | BatchIdentityConflict | BatchRangeMismatch
    | EntryOrderMismatch | TransactionIdentityConflict | BackendTemporarilyUnavailable | BackendValidationFailure
    | ManualReviewRequired

  function CategoryText(c: Category): string {
    match c
    case NetworkTimeout => "network_timeout"
    case ConnectionFailure => "connection_failure"
    case ResponseDecodeFailure => "response_decode_failure"
    case PayloadTooLarge => "payload_too_large"
    case UnsupportedProtocol => "unsupported_protocol"
    case ReaderNotRegistered => "reader_not_registered"
    case ReaderNotOperational => "reader_not_operational"
    case EnvironmentMismatch => "environment_mismatch"
    case BatchIdentityConflict => "batch_identity_conflict"
    case BatchRangeMismatch => "batch_range_mismatch"
    case EntryOrderMismatch => "entry_order_mismatch"
    case TransactionIdentityConflict => "transaction_identity_conflict"
    case BackendTemporarilyUnavailable => "backend_temporarily_unavailable"
    case BackendValidationFailure => "backend_validation_failure"
    case ManualReviewRequired => "manual_review_required"
  }

  /** What identifies an entry inside a batch. */
  datatype Key = Key(transactionId: TransactionId, sequence: Sequence)

  datatype RequestEntry = RequestEntry(key: Key, envelope: Text)

  datatype Request = Request(
    protocol: Version, environment: Text, readerId: ReaderId, softwareVersion: Text, batchId: BatchId,
    first: Sequence, last: Sequence, submittedAt: I64, entries: seq<RequestEntry>)

  datatype EntryOutcome = Acknowledged | RetryableFailure | PermanentFailure | ManualReview

  datatype AckEntry = AckEntry(key: Key, outcome: EntryOutcome, category: Option<Category>, retryAt: Option<I64>)

  datatype BatchAck = BatchAck(
    protocol: Version, environment: Text, readerId: ReaderId, batchId: BatchId,
    first: Sequence, last: Sequence, receivedAt: I64, replayed: bool, entries: seq<AckEntry>)

  datatype ProtocolError =
    | NegativeTimestamp
    | EmptyBatch
    | TooManyEntries
    | InvalidSequenceRange
    | FirstSequenceMismatch
    | LastSequenceMismatch
    | EntrySequenceNotIncreasing(previous: Sequence, current: Sequence)
    | DuplicateTransaction(id: TransactionId)
    | InvalidOutcomeMetadata(outcome: EntryOutcome)
    | IdentityMismatch(field: MatchedField)
    | EntryCountMismatch
    | TransactionMismatch(position: nat)
    | SequenceMismatch(position: nat)

  datatype MatchedField = ProtocolField | EnvironmentField | ReaderField | BatchField | FirstField | LastField

  function RequestKeys(entries: seq<RequestEntry>): (keys: seq<Key>)
    ensures |keys| == |entries| && forall k :: 0 <= k < |entries| ==> keys[k] == entries[k].key
  {
    seq(|entries|, k requires 0 <= k < |entries| => entries[k].key)
  }

  function AckKeys(entries: seq<AckEntry>): (keys: seq<Key>)
    ensures |keys| == |entries| && forall k :: 0 <= k < |entries| ==> keys[k] == entries[k].key
  {
    seq(|entries|, k requires 0 <= k < |entries| => entries[k].key)
  }

  // ---- Entry validation -------------------------------------------------

  predicate DistinctIds(keys: seq<Key>) {
    forall i, j :: 0 <= i < j < |keys| ==> keys[i].transactionId != keys[j].transactionId
  }

  predicate Increasing(keys: seq<Key>) {
    forall i, j :: 0 <= i < j < |keys| ==> keys[i].sequence < keys[j].sequence
  }

  /** The entry lists the protocol admits. */
  predicate WellFormedEntries(first: Sequence, last: Sequence, keys: seq<Key>) {
    && 1 <= |keys| <= MAX_ENTRIES
    && first == keys[0].sequence && last == keys[|keys| - 1].sequence
    && DistinctIds(keys) && Increasing(keys)
  }

  predicate SeenBefore(keys: seq<Key>, k: nat)
    requires k < |keys|
  {
    exists j :: 0 <= j < k && keys[j].transactionId == keys[k].transactionId
  }

  /** The identity of the first entry, from position k on, that repeats an
      earlier identity. */
  ghost function FirstDuplicate(keys: seq<Key>, k: nat): Option<TransactionId>
    requires k <= |keys|
    decreases |keys| - k
  {
    if k == |keys| then None
    else if SeenBefore(keys, k) then Some(keys[k].transactionId)
    else FirstDuplicate(keys, k + 1)
  }

  /** The first position, from k on, whose sequence does not exceed its
      predecessor's. */
  ghost function FirstDrop(keys: seq<Key>, k: nat): Option<nat>
    requires k <= |keys|
    decreases |keys| - k
  {
    if k == |keys| then None
    else if k > 0 && keys[k].sequence <= keys[k - 1].sequence then Some(k)
    else FirstDrop(keys, k + 1)
  }

  ghost function EntriesError(first: Sequence, last: Sequence, keys: seq<Key>): Option<ProtocolError> {
    if |keys| == 0 then Some(EmptyBatch)
    else if |keys| > MAX_ENTRIES then Some(TooManyEntries)
    else if first > last then Some(InvalidSequenceRange)
    else if first != keys[0].sequence then Some(FirstSequenceMismatch)
    else if last != keys[|keys| - 1].sequence then Some(LastSequenceMismatch)
    else if FirstDuplicate(keys, 0).Some? then Some(DuplicateTransaction(FirstDuplicate(keys, 0).value))
    else DropError(keys, FirstDrop(keys, 0))
  }

  ghost function DropError(keys: seq<Key>, drop: Option<nat>): Option<ProtocolError> {
    match drop
    case None => None
    case Some(k) =>
      if 0 < k < |keys| then Some(EntrySequenceNotIncreasing(keys[k - 1].sequence, keys[k].sequence)) else None
  }

  /** The request and acknowledgement validation loops. */
  method ValidateEntries(first: Sequence, last: Sequence, keys: seq<Key>) returns (error: Option<ProtocolError>)
    ensures error == EntriesError(first, last, keys)
  {
    if |keys| == 0 {
      return Some(EmptyBatch);
    }
    if |keys| > MAX_ENTRIES {
      return Some(TooManyEntries);
    }
    if first > last {
      return Some(InvalidSequenceRange);
    }
    if first != keys[0].sequence {
      return Some(FirstSequenceMismatch);
    }
    if last != keys[|keys| - 1].sequence {
      return Some(LastSequenceMismatch);
    }
    var seen: set<TransactionId> := {};
    for k := 0 to |keys|
      invariant forall id :: id in seen <==> exists j :: 0 <= j < k && keys[j].transactionId == id
      invariant FirstDuplicate(keys, 0) == FirstDuplicate(keys, k)
    {
      if keys[k].transactionId in seen {
        return Some(DuplicateTransaction(keys[k].transactionId));
      }
      assert !SeenBefore(keys, k);
      seen := seen + {keys[k].transactionId};
    }
    var previous: Option<Sequence> := None;
    for k := 0 to |keys|
      invariant previous == if k == 0 then None else Some(keys[k - 1].sequence)
      invariant FirstDrop(keys, 0) == FirstDrop(keys, k)
    {
      if previous.Some? && keys[k].sequence <= previous.value {
        return Some(EntrySequenceNotIncreasing(previous.value, keys[k].sequence));
      }
      previous := Some(keys[k].sequence);
    }
    return None;
  }

  lemma {:induction false} NoDuplicate(keys: seq<Key>, k: nat)
    requires k <= |keys|
    ensures FirstDuplicate(keys, k).None? <==> forall j :: k <= j < |keys| ==> !SeenBefore(keys, j)
    decreases |keys| - k
  {
    if k < |keys| {
      NoDuplicate(keys, k + 1);
    }
  }

  lemma {:induction false} NoDrop(keys: seq<Key>, k: nat)
    requires k <= |keys|
    ensures FirstDrop(keys, k).None? <==>
      forall j :: k <= j < |keys| && 0 < j ==> keys[j - 1].sequence < keys[j].sequence
    ensures FirstDrop(keys, k).Some? ==> 0 < FirstDrop(keys, k).value < |keys|
    decreases |keys| - k
  {
    if k < |keys| {
      NoDrop(keys, k + 1);
    }
  }

  lemma {:induction false} StepwiseIncreasing(keys: seq<Key>, i: nat, j: nat)
    requires forall m :: 0 < m < |keys| ==> keys[m - 1].sequence < keys[m].sequence
    requires i < j < |keys|
    ensures keys[i].sequence + (j - i) <= keys[j].sequence
    decreases j - i
  {
    if i + 1 < j {
      StepwiseIncreasing(keys, i, j - 1);
    }
    assert keys[j - 1].sequence < keys[j].sequence;
  }

  /** The validators accept exactly the well-formed entry lists. */
  lemma EntriesErrorExact(first: Sequence, last: Sequence, keys: seq<Key>)
    ensures EntriesError(first, last, keys).None? <==> WellFormedEntries(first, last, keys)
  {
    NoDuplicate(keys, 0);
    NoDrop(keys, 0);
    assert FirstDuplicate(keys, 0).None? <==> DistinctIds(keys) by {
      if !DistinctIds(keys) {
        var i, j :| 0 <= i < j < |keys| && keys[i].transactionId == keys[j].transactionId;
        assert SeenBefore(keys, j);
      }
    }
    if FirstDrop(keys, 0).None? {
      forall i, j | 0 <= i < j < |keys| ensures keys[i].sequence < keys[j].sequence {
        StepwiseIncreasing(keys, i, j);
      }
    } else {
      var k := FirstDrop(keys, 0).value;
      assert !Increasing(keys) by {
        DropIsFound(keys, 0);
        assert keys[k].sequence <= keys[k - 1].sequence;
      }
    }
    if WellFormedEntries(first, last, keys) && |keys| > 1 {
      assert keys[0].sequence < keys[|keys| - 1].sequence;
    }
  }

  lemma {:induction false} DropIsFound(keys: seq<Key>, k: nat)
    requires k <= |keys| && FirstDrop(keys, k).Some?
    ensures var d := FirstDrop(keys, k).value; 0 < d < |keys| && keys[d].sequence <= keys[d - 1].sequence
    decreases |keys| - k
  {
    if !(k > 0 && keys[k].sequence <= keys[k - 1].sequence) {
      DropIsFound(keys, k + 1);
    }
  }

  /** Each error of the validators names a real fault. */
  lemma EntriesErrorMeaning(first: Sequence, last: Sequence, keys: seq<Key>)
    requires EntriesError(first, last, keys).Some?
    ensures match EntriesError(first, last, keys).value
      case EmptyBatch => |keys| == 0
      case TooManyEntries => |keys| > 256
      case InvalidSequenceRange => first > last
      case FirstSequenceMismatch => |keys| > 0 && first != keys[0].sequence
      case LastSequenceMismatch => |keys| > 0 && last != keys[|keys| - 1].sequence
      case DuplicateTransaction(id) =>
        exists i, j :: 0 <= i < j < |keys| && keys[i].transactionId == id && keys[j].transactionId == id
      case EntrySequenceNotIncreasing(previous, current) =>
        && current <= previous
        && exists k :: 0 < k < |keys| && keys[k - 1].sequence == previous && keys[k].sequence == current
      case _ => false
  {
    NoDrop(keys, 0);
    if FirstDuplicate(keys, 0).Some? {
      DuplicateIsFound(keys, 0);
    }
    if FirstDrop(keys, 0).Some? {
      DropIsFound(keys, 0);
    }
  }

  lemma {:induction false} DuplicateIsFound(keys: seq<Key>, k: nat)
    requires k <= |keys| && FirstDuplicate(keys, k).Some?
    ensures var id := FirstDuplicate(keys, k).value;
      exists i, j :: 0 <= i < j < |keys| && keys[i].transactionId == id && keys[j].transactionId == id
    decreases |keys| - k
  {
    if SeenBefore(keys, k) {
      var j :| 0 <= j < k && keys[j].transactionId == keys[k].transactionId;
    } else {
      DuplicateIsFound(keys, k + 1);
    }
  }

  /** A declared range is never shorter than its entries. */
  lemma EntriesFitRange(first: Sequence, last: Sequence, keys: seq<Key>)
    requires WellFormedEntries(first, last, keys)
    ensures 1 <= |keys| <= 256 && |keys| <= last - first + 1
  {
    if |keys| > 1 {
      StepwiseIncreasing(keys, 0, |keys| - 1);
    }
  }

  // ---- Message constructors ---------------------------------------------

  /** A request that the constructor can produce. */
  predicate ValidRequest(r: Request) {
    r.submittedAt >= 0 && WellFormedEntries(r.first, r.last, RequestKeys(r.entries))
  }

  predicate MetadataFits(e: AckEntry) {
    match e.outcome
    case Acknowledged => e.category.None? && e.retryAt.None?
    case RetryableFailure => e.category.Some? && e.retryAt.Some? && e.retryAt.value >= 0
    case PermanentFailure => e.category.Some? && e.retryAt.None?
    case ManualReview => e.category.Some? && e.retryAt.None?
  }

  /** An acknowledgement that the constructors can produce. */
  predicate ValidAck(a: BatchAck) {
    && a.receivedAt >= 0
    && WellFormedEntries(a.first, a.last, AckKeys(a.entries))
    && forall k :: 0 <= k < |a.entries| ==> MetadataFits(a.entries[k])
  }

  method NewRequest(r: Request) returns (result: Result<Request, ProtocolError>)
    ensures result == Ok(r) <==> ValidRequest(r)
    ensures result.Ok? ==> result.value == r
    ensures r.submittedAt < 0 ==> result == Err(NegativeTimestamp)
    ensures r.submittedAt >= 0 && result.Err? ==>
      EntriesError(r.first, r.last, RequestKeys(r.entries)) == Some(result.error)
  {
    EntriesErrorExact(r.first, r.last, RequestKeys(r.entries));
    if r.submittedAt < 0 {
      return Err(NegativeTimestamp);
    }
    var error := ValidateEntries(r.first, r.last, RequestKeys(r.entries));
    return if error.Some? then Err(error.value) else Ok(r);
  }

  function NewAckEntry(key: Key, outcome: EntryOutcome, category: Option<Category>, retryAt: Option<I64>):
    (r: Result<AckEntry, ProtocolError>)
    ensures r.Ok? <==> MetadataFits(AckEntry(key, outcome, category, retryAt))
    ensures r.Ok? ==> r.value == AckEntry(key, outcome, category, retryAt)
    ensures r.Ok? <==>
      && (category == None <==> outcome == Acknowledged)
      && (retryAt == None <==> outcome != RetryableFailure)
      && (retryAt == None || retryAt.value >= 0)
    ensures r.Err? ==>
      || (r.error == NegativeTimestamp && retryAt.Some? && retryAt.value < 0)
      || r.error == InvalidOutcomeMetadata(outcome)
  {
    if retryAt.Some? && retryAt.value < 0 then Err(NegativeTimestamp)
    else
      var valid := match outcome
        case Acknowledged => category.None? && retryAt.None?
        case RetryableFailure => category.Some? && retryAt.Some?
        case PermanentFailure => category.Some? && retryAt.None?
        case ManualReview => category.Some? && retryAt.None?;
      if valid then Ok(AckEntry(key, outcome, category, retryAt)) else Err(InvalidOutcomeMetadata(outcome))
  }

  method NewAck(a: BatchAck) returns (result: Result<BatchAck, ProtocolError>)
    requires forall k :: 0 <= k < |a.entries| ==> MetadataFits(a.entries[k])
    ensures result == Ok(a) <==> ValidAck(a)
    ensures result.Ok? ==> result.value == a
    ensures a.receivedAt < 0 ==> result == Err(NegativeTimestamp)
  {
    EntriesErrorExact(a.first, a.last, AckKeys(a.entries));
    if a.receivedAt < 0 {
      return Err(NegativeTimestamp);
    }
    var error := ValidateEntries(a.first, a.last, AckKeys(a.entries));
    return if error.Some? then Err(error.value) else Ok(a);
  }

  // ---- Matching an acknowledgement with its request ---------------------

  predicate Answers(a: BatchAck, r: Request) {
    && a.protocol == r.protocol && a.environment == r.environment
    && a.readerId == r.readerId && a.batchId == r.batchId
    && a.first == r.first && a.last == r.last
    && AckKeys(a.entries) == RequestKeys(r.entries)
  }

  /** The comparison loop accepts exactly the answers and otherwise names the
      first position that differs. */
  method ValidateAgainstRequest(a: BatchAck, r: Request) returns (error: Option<ProtocolError>)
    ensures error.None? <==> Answers(a, r)
    ensures error.Some? ==> match error.value
      case IdentityMismatch(field) => (match field
        case ProtocolField => a.protocol != r.protocol
        case EnvironmentField => a.environment != r.environment
        case ReaderField => a.readerId != r.readerId
        case BatchField => a.batchId != r.batchId
        case FirstField => a.first != r.first
        case LastField => a.last != r.last)
      case EntryCountMismatch => |a.entries| != |r.entries|
      case TransactionMismatch(k) =>
        && k < |a.entries| && k < |r.entries|
        && a.entries[k].key.transactionId != r.entries[k].key.transactionId
      case SequenceMismatch(k) =>
        && k < |a.entries| && k < |r.entries| && a.entries[k].key.sequence != r.entries[k].key.sequence
      case _ => false
    ensures error.Some? && (error.value.TransactionMismatch? || error.value.SequenceMismatch?) ==>
      var k := error.value.position;
      && k < |a.entries| && k < |r.entries| && a.entries[k].key != r.entries[k].key
      && AckKeys(a.entries)[..k] == RequestKeys(r.entries)[..k]
  {
    if a.protocol != r.protocol {
      return Some(IdentityMismatch(ProtocolField));
    }
    if a.environment != r.environment {
      return Some(IdentityMismatch(EnvironmentField));
    }
    if a.readerId != r.readerId {
      return Some(IdentityMismatch(ReaderField));
    }
    if a.batchId != r.batchId {
      return Some(IdentityMismatch(BatchField));
    }
    if a.first != r.first {
      return Some(IdentityMismatch(FirstField));
    }
    if a.last != r.last {
      return Some(IdentityMismatch(LastField));
    }
    if |a.entries| != |r.entries| {
      return Some(EntryCountMismatch);
    }
    for k := 0 to |a.entries|
      invariant AckKeys(a.entries)[..k] == RequestKeys(r.entries)[..k]
    {
      if a.entries[k].key.transactionId != r.entries[k].key.transactionId {
        assert AckKeys(a.entries)[k] != RequestKeys(r.entries)[k];
        return Some(TransactionMismatch(k));
      }
      if a.entries[k].key.sequence != r.entries[k].key.sequence {
        assert AckKeys(a.entries)[k] != RequestKeys(r.entries)[k];
        return Some(SequenceMismatch(k));
      }
    }
    return None;
  }
}
