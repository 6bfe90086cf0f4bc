/** Currency-tagged integer money with checked 64-bit arithmetic. */
module Money {
  import opened Basics

  datatype Currency = Usd | Cad | Eur | Gbp

  datatype Money = Money(minorUnits: I64, currency: Currency)

  datatype MoneyError = CurrencyMismatch(left: Currency, right: Currency) | ArithmeticOverflow

  function Zero(currency: Currency): Money {
    Money(0, currency)
  }

  function CheckedAdd(a: Money, b: Money): Result<Money, MoneyError> {
    if a.currency != b.currency then Err(CurrencyMismatch(a.currency, b.currency))
    else if I64_MIN <= a.minorUnits + b.minorUnits <= I64_MAX then
      Ok(Money(a.minorUnits + b.minorUnits, a.currency))
    else Err(ArithmeticOverflow)
  }

  function CheckedSubtract(a: Money, b: Money): Result<Money, MoneyError> {
    if a.currency != b.currency then Err(CurrencyMismatch(a.currency, b.currency))
    else if I64_MIN <= a.minorUnits - b.minorUnits <= I64_MAX then
      Ok(Money(a.minorUnits - b.minorUnits, a.currency))
    else Err(ArithmeticOverflow)
  }

  /** The sign of the comparison, when both amounts share a currency. */
  function CheckedCompare(a: Money, b: Money): Result<int, MoneyError> {
    if a.currency != b.currency then Err(CurrencyMismatch(a.currency, b.currency))
    else Ok(if a.minorUnits < b.minorUnits then -1 else if a.minorUnits == b.minorUnits then 0 else 1)
  }

  /** Two's-complement addition: what the unchecked `+` computes in a release
      build. */
  function WrappingAdd(a: I64, b: I64): I64 {
    var s := a + b;
    if s > I64_MAX then s - TWO_64 else if s < I64_MIN then s + TWO_64 else s
  }
}

/** Fare policies: the raw definition, its validation and the validated type. */
module FarePolicies {
  import opened Basics
  import opened Money

  type BasisPoints = r: int | 0 <= r <= 10_000
  type ZoneId = z: int | 1 <= z <= 65535 witness 1
  type EventTime = t: int | 0 <= t <= I64_MAX
  type TransferWindow = w: int | 1 <= w <= U64_MAX witness 1

  datatype Eligibility = Standard | Youth | Senior | ReducedFare | EmployeeTestAccount

  datatype EligibilityDiscounts = EligibilityDiscounts(
    youth: BasisPoints, senior: BasisPoints, reducedFare: BasisPoints, employee: BasisPoints)
  {
    function RateFor(e: Eligibility): BasisPoints {
      match e
      case Standard => 0
      case Youth => youth
      case Senior => senior
      case ReducedFare => reducedFare
      case EmployeeTestAccount => employee
    }
  }

  datatype PolicyDefinition = PolicyDefinition(
    id: nat, version: nat, currency: Currency,
    baseFare: Money, zoneSurcharge: Money, transferWindow: TransferWindow,
    transferDiscount: Money, dailyCap: Money, weeklyCap: Money,
    discounts: EligibilityDiscounts)

  datatype PolicyField = BaseFare | ZoneSurcharge | TransferDiscount | DailyCap | WeeklyCap

  datatype PolicyError =
    | FieldCurrencyMismatch(field: PolicyField, expected: Currency, actual: Currency)
    | NegativeField(field: PolicyField, amount: Money)
    | DailyCapBelowBaseFare
    | WeeklyCapBelowDailyCap
    | TransferDiscountExceedsBaseFare

  function ValidateMoney(field: PolicyField, amount: Money, expected: Currency): Option<PolicyError> {
    if amount.currency != expected then Some(FieldCurrencyMismatch(field, expected, amount.currency))
    else if amount.minorUnits < 0 then Some(NegativeField(field, amount))
    else None
  }

  /** The first failing check over the monetary fields, in source order. */
  function FirstFieldError(fields: seq<(PolicyField, Money)>, expected: Currency): Option<PolicyError> {
    if fields == [] then None
    else match ValidateMoney(fields[0].0, fields[0].1, expected)
      case Some(e) => Some(e)
      case None => FirstFieldError(fields[1..], expected)
  }

  function MonetaryFields(d: PolicyDefinition): seq<(PolicyField, Money)> {
    [(BaseFare, d.baseFare), (ZoneSurcharge, d.zoneSurcharge), (TransferDiscount, d.transferDiscount),
     (DailyCap, d.dailyCap), (WeeklyCap, d.weeklyCap)]
  }

  function Validate(d: PolicyDefinition): Result<PolicyDefinition, PolicyError> {
    match FirstFieldError(MonetaryFields(d), d.currency)
    case Some(e) => Err(e)
    case None =>
      if d.dailyCap.minorUnits < d.baseFare.minorUnits then Err(DailyCapBelowBaseFare)
      else if d.weeklyCap.minorUnits < d.dailyCap.minorUnits then Err(WeeklyCapBelowDailyCap)
      else if d.transferDiscount.minorUnits > d.baseFare.minorUnits then Err(TransferDiscountExceedsBaseFare)
      else Ok(d)
  }

  predicate NonNegativeIn(m: Money, c: Currency) {
    m.currency == c && m.minorUnits >= 0
  }

  /** What a validated policy guarantees. */
  predicate WellFormed(d: PolicyDefinition) {
    && NonNegativeIn(d.baseFare, d.currency)
    && NonNegativeIn(d.zoneSurcharge, d.currency)
    && NonNegativeIn(d.transferDiscount, d.currency)
    && NonNegativeIn(d.dailyCap, d.currency)
    && NonNegativeIn(d.weeklyCap, d.currency)
    && d.transferDiscount.minorUnits <= d.baseFare.minorUnits
       <= d.dailyCap.minorUnits <= d.weeklyCap.minorUnits
  }

  const FREE_RIDES := PolicyDefinition(0, 1, Usd, Zero(Usd), Zero(Usd), 1, Zero(Usd), Zero(Usd), Zero(Usd),
    EligibilityDiscounts(0, 0, 0, 0))

  type FarePolicy = d: PolicyDefinition | WellFormed(d) witness FREE_RIDES

  /** The amount an error's field names. */
  function AmountOf(d: PolicyDefinition, field: PolicyField): Money {
    match field
    case BaseFare => d.baseFare
    case ZoneSurcharge => d.zoneSurcharge
    case TransferDiscount => d.transferDiscount
    case DailyCap => d.dailyCap
    case WeeklyCap => d.weeklyCap
  }

  lemma {:induction false} FieldErrorMeaning(d: PolicyDefinition, fields: seq<(PolicyField, Money)>)
    requires forall k :: 0 <= k < |fields| ==> fields[k].1 == AmountOf(d, fields[k].0)
    ensures FirstFieldError(fields, d.currency).Some? ==> match FirstFieldError(fields, d.currency).value
      case FieldCurrencyMismatch(field, expected, actual) =>
        expected == d.currency && actual == AmountOf(d, field).currency && actual != expected
      case NegativeField(field, amount) => amount == AmountOf(d, field) && amount.minorUnits < 0
      case _ => false
  {
    if fields != [] {
      FieldErrorMeaning(d, fields[1..]);
    }
  }

  /** Each validation error names a real fault. */
  lemma ValidateErrors(d: PolicyDefinition)
    ensures Validate(d).Err? ==> match Validate(d).error
      case FieldCurrencyMismatch(field, expected, actual) =>
        expected == d.currency && actual == AmountOf(d, field).currency && actual != expected
      case NegativeField(field, amount) => amount == AmountOf(d, field) && amount.minorUnits < 0
      case DailyCapBelowBaseFare => d.dailyCap.minorUnits < d.baseFare.minorUnits
      case WeeklyCapBelowDailyCap => d.weeklyCap.minorUnits < d.dailyCap.minorUnits
      case TransferDiscountExceedsBaseFare => d.transferDiscount.minorUnits > d.baseFare.minorUnits
  {
    FieldErrorMeaning(d, MonetaryFields(d));
    hide FirstFieldError;
  }

  /** Validation accepts exactly the well-formed definitions, unchanged. */
  lemma ValidateExact(d: PolicyDefinition)
    ensures Validate(d) == Ok(d) <==> WellFormed(d)
    ensures Validate(d).Ok? ==> Validate(d).value == d
  {
    var f, c := MonetaryFields(d), d.currency;
    assert f[1..][1..] == f[2..] && f[2..][1..] == f[3..] && f[3..][1..] == f[4..] && f[4..][1..] == [];
    assert FirstFieldError([], c) == None;
    assert FirstFieldError(f[4..], c) == None <==> NonNegativeIn(d.weeklyCap, c);
    assert FirstFieldError(f[3..], c) == None
      <==> NonNegativeIn(d.dailyCap, c) && FirstFieldError(f[4..], c) == None;
    assert FirstFieldError(f[2..], c) == None
      <==> NonNegativeIn(d.transferDiscount, c) && FirstFieldError(f[3..], c) == None;
    assert FirstFieldError(f[1..], c) == None
      <==> NonNegativeIn(d.zoneSurcharge, c) && FirstFieldError(f[2..], c) == None;
  }
}

/** The staged fare pipeline: transfer, caps, product, evaluation, offline. */
module FareEngine {
  import opened Basics
  import opened Money
  import opened FarePolicies

  // ---- Transfer benefit -------------------------------------------------

  datatype TransferError =
    | TransferCurrencyMismatch(expected: Currency, actual: Currency)
    | TransferNegativeFare(fare: Money)
    | PreviousFareOccursAfterCurrent(previous: EventTime, current: EventTime)
    | TransferArithmeticFailure

  datatype TransferApplication = TransferApplication(eligible: bool, discount: Money, fare: Money)

  function TransferIsEligible(p: FarePolicy, now: EventTime, previous: Option<EventTime>): Result<bool, TransferError> {
    match previous
    case None => Ok(false)
    case Some(t) =>
      if t > now then Err(PreviousFareOccursAfterCurrent(t, now))
      else Ok(now - t <= p.transferWindow)
  }

  function ApplyTransfer(p: FarePolicy, now: EventTime, previous: Option<EventTime>, fare: Money):
    Result<TransferApplication, TransferError>
  {
    if fare.currency != p.currency then Err(TransferCurrencyMismatch(p.currency, fare.currency))
    else if fare.minorUnits < 0 then Err(TransferNegativeFare(fare))
    else
      var eligible :- TransferIsEligible(p, now, previous);
      var discount := if eligible
        then Money(Min(p.transferDiscount.minorUnits, fare.minorUnits), p.currency)
        else Zero(p.currency);
      var after := CheckedSubtract(fare, discount);
      if after.Err? then Err(TransferArithmeticFailure)
      else Ok(TransferApplication(eligible, discount, after.value))
  }

  // ---- Daily and weekly caps --------------------------------------------

  datatype CapField = DailyCharged | WeeklyCharged | FareAfterTransfer

  datatype CapError =
    | CapCurrencyMismatch(field: CapField, expected: Currency, actual: Currency)
    | CapNegativeAmount(field: CapField, amount: Money)
    | DailyChargedExceedsWeeklyCharged(daily: Money, weekly: Money)
    | CapArithmeticFailure

  datatype CapHistory = CapHistory(daily: Money, weekly: Money)

  datatype CapApplication = CapApplication(
    dailyRemaining: Money, weeklyRemaining: Money, discount: Money, fare: Money,
    dailyCapReached: bool, weeklyCapReached: bool)

  function ValidateAmount(p: FarePolicy, field: CapField, amount: Money): Result<(), CapError> {
    if amount.currency != p.currency then Err(CapCurrencyMismatch(field, p.currency, amount.currency))
    else if amount.minorUnits < 0 then Err(CapNegativeAmount(field, amount))
    else Ok(())
  }

  function RemainingAllowance(cap: Money, charged: Money): Result<Money, CapError> {
    if charged.minorUnits >= cap.minorUnits then Ok(Zero(cap.currency))
    else
      var left := CheckedSubtract(cap, charged);
      if left.Err? then Err(CapArithmeticFailure) else Ok(left.value)
  }

  function ApplyFareCaps(p: FarePolicy, h: CapHistory, fare: Money): Result<CapApplication, CapError> {
    var _ :- ValidateAmount(p, DailyCharged, h.daily);
    var _ :- ValidateAmount(p, WeeklyCharged, h.weekly);
    var _ :- ValidateAmount(p, FareAfterTransfer, fare);
    if h.daily.minorUnits > h.weekly.minorUnits then Err(DailyChargedExceedsWeeklyCharged(h.daily, h.weekly))
    else
      var dailyLeft :- RemainingAllowance(p.dailyCap, h.daily);
      var weeklyLeft :- RemainingAllowance(p.weeklyCap, h.weekly);
      var units: I64 := Min(Min(fare.minorUnits, dailyLeft.minorUnits), weeklyLeft.minorUnits);
      var capped := Money(units, p.currency);
      var discount := CheckedSubtract(fare, capped);
      if discount.Err? then Err(CapArithmeticFailure)
      else Ok(CapApplication(dailyLeft, weeklyLeft, discount.value, capped,
                        WrappingAdd(h.daily.minorUnits, units) >= p.dailyCap.minorUnits,
                        WrappingAdd(h.weekly.minorUnits, units) >= p.weeklyCap.minorUnits))
  }

  // ---- Transit products -------------------------------------------------

  datatype Coverage = AllZones | ZoneRange(first: ZoneId, last: ZoneId) {
    predicate Covers(z: ZoneId) {
      match this
      case AllZones => true
      case ZoneRange(first, last) => first <= z <= last
    }
  }

  datatype Product = Product(validFrom: EventTime, validUntil: EventTime, coverage: Coverage)

  datatype ProductInvalidReason = NotYetValid | Expired | OutsideZoneCoverage

  datatype ProductOutcome = NotPresented | Covered | Invalid(reason: ProductInvalidReason)

  datatype ProductError =
    | ProductCurrencyMismatch(expected: Currency, actual: Currency)
    | ProductNegativeFare(fare: Money)
    | ProductArithmeticFailure

  datatype ProductApplication = ProductApplication(outcome: ProductOutcome, discount: Money, fare: Money)

  function DetermineOutcome(product: Product, now: EventTime, origin: ZoneId, destination: ZoneId): ProductOutcome {
    if now < product.validFrom then Invalid(NotYetValid)
    else if now > product.validUntil then Invalid(Expired)
    else if !product.coverage.Covers(origin) || !product.coverage.Covers(destination) then
      Invalid(OutsideZoneCoverage)
    else Covered
  }

  function ApplyProduct(p: FarePolicy, product: Option<Product>, now: EventTime, origin: ZoneId, destination: ZoneId,
                        fare: Money): Result<ProductApplication, ProductError>
  {
    if fare.currency != p.currency then Err(ProductCurrencyMismatch(p.currency, fare.currency))
    else if fare.minorUnits < 0 then Err(ProductNegativeFare(fare))
    else match product
      case None => Ok(ProductApplication(NotPresented, Zero(p.currency), fare))
      case Some(presented) =>
        var outcome := DetermineOutcome(presented, now, origin, destination);
        var discount := if outcome.Covered? then fare else Zero(p.currency);
        var after := CheckedSubtract(fare, discount);
        if after.Err? then Err(ProductArithmeticFailure)
        else Ok(ProductApplication(outcome, discount, after.value))
  }

  // ---- Online evaluation ------------------------------------------------

  datatype Stage = ZoneSurchargeStage | BaseAndZoneFareStage | EligibilityDiscountStage | DiscountedFareStage

  datatype EvaluationError =
    | BalanceCurrencyMismatch(expected: Currency, actual: Currency)
    | NegativeAvailableBalance(balance: Money)
    | TransferFailed(transfer: TransferError)
    | CapFailed(cap: CapError)
    | ProductFailed(product: ProductError)
    | EvaluationOverflow(stage: Stage)

  datatype Input = Input(
    eventTime: EventTime, origin: ZoneId, destination: ZoneId, eligibility: Eligibility,
    previousPaidFare: Option<EventTime>, caps: CapHistory, product: Option<Product>, balance: Money)

  datatype ApprovalReason = StandardFare | TransferReason | FareCapReason | TransitProduct | OfflineProvisional

  datatype RejectionReason =
    | InsufficientStoredValue | ProductInvalid | StalePolicy | StaleRevocationData | OfflineLimitExceeded

  datatype Outcome = Approved(charged: Money, approval: ApprovalReason) | Rejected(rejection: RejectionReason)

  datatype Evidence = Evidence(
    baseFare: Money, zones: nat, zoneSurcharge: Money, fareBeforeDiscount: Money,
    rate: BasisPoints, eligibilityDiscount: Money, fareAfterEligibility: Money,
    transfer: TransferApplication, cap: CapApplication, product: ProductApplication, finalFare: Money)

  datatype Evaluation = Evaluation(policyId: nat, policyVersion: nat, eventTime: EventTime,
                                   outcome: Outcome, evidence: Evidence)

  function ZoneCount(i: Input): nat {
    if i.origin <= i.destination then i.destination - i.origin else i.origin - i.destination
  }

  function CalculateZoneSurcharge(perZone: Money, zones: nat): Result<Money, EvaluationError> {
    var units := perZone.minorUnits * zones;
    if I64_MIN <= units <= I64_MAX then Ok(Money(units, perZone.currency))
    else Err(EvaluationOverflow(ZoneSurchargeStage))
  }

  /** i128 division truncates toward zero. */
  function TruncatedQuotient(a: int, b: int): int
    requires b > 0
  {
    if a >= 0 then a / b else -((-a) / b)
  }

  function CalculatePercentage(amount: Money, rate: BasisPoints): Result<Money, EvaluationError> {
    var units := TruncatedQuotient(amount.minorUnits * rate, 10_000);
    if I64_MIN <= units <= I64_MAX then Ok(Money(units, amount.currency))
    else Err(EvaluationOverflow(EligibilityDiscountStage))
  }

  function StoredValueReason(transferDiscount: Money, capDiscount: Money): ApprovalReason {
    if capDiscount.minorUnits > 0 then FareCapReason
    else if transferDiscount.minorUnits > 0 then TransferReason
    else StandardFare
  }

  function EvaluateStoredValue(balance: Money, fare: Money, reason: ApprovalReason): Result<Outcome, EvaluationError> {
    match CheckedCompare(balance, fare)
    case Err(_) => Err(BalanceCurrencyMismatch(fare.currency, balance.currency))
    case Ok(c) => Ok(if c < 0 then Rejected(InsufficientStoredValue) else Approved(fare, reason))
  }

  function EvaluateFare(p: FarePolicy, i: Input): Result<Evaluation, EvaluationError> {
    if i.balance.currency != p.currency then Err(BalanceCurrencyMismatch(p.currency, i.balance.currency))
    else if i.balance.minorUnits < 0 then Err(NegativeAvailableBalance(i.balance))
    else
      var surcharge :- CalculateZoneSurcharge(p.zoneSurcharge, ZoneCount(i));
      var before := CheckedAdd(p.baseFare, surcharge);
      if before.Err? then Err(EvaluationOverflow(BaseAndZoneFareStage)) else
      var rate := p.discounts.RateFor(i.eligibility);
      var discount :- CalculatePercentage(before.value, rate);
      var discounted := CheckedSubtract(before.value, discount);
      if discounted.Err? then Err(EvaluationOverflow(DiscountedFareStage)) else
      var transfer := ApplyTransfer(p, i.eventTime, i.previousPaidFare, discounted.value);
      if transfer.Err? then Err(TransferFailed(transfer.error)) else
      var cap := ApplyFareCaps(p, i.caps, transfer.value.fare);
      if cap.Err? then Err(CapFailed(cap.error)) else
      var product := ApplyProduct(p, i.product, i.eventTime, i.origin, i.destination, cap.value.fare);
      if product.Err? then Err(ProductFailed(product.error)) else
      var outcome :- DecideOutcome(p, i, transfer.value, cap.value, product.value);
      Ok(Evaluation(p.id, p.version, i.eventTime, outcome,
                    Evidence(p.baseFare, ZoneCount(i), surcharge, before.value, rate, discount, discounted.value,
                             transfer.value, cap.value, product.value, product.value.fare)))
  }

  function DecideOutcome(p: FarePolicy, i: Input, transfer: TransferApplication, cap: CapApplication,
                         product: ProductApplication): Result<Outcome, EvaluationError>
  {
    match product.outcome
    case Covered => Ok(Approved(Zero(p.currency), TransitProduct))
    case Invalid(_) => Ok(Rejected(ProductInvalid))
    case NotPresented =>
      EvaluateStoredValue(i.balance, product.fare, StoredValueReason(transfer.discount, cap.discount))
  }

  // ---- Offline evaluation -----------------------------------------------

  datatype Snapshot = PolicySnapshot | RevocationSnapshot

  datatype OfflineContext = OfflineContext(
    policyCachedAt: EventTime, maxPolicyAge: U64,
    revocationCachedAt: EventTime, maxRevocationAge: U64, limit: Money)

  datatype OfflineError =
    | OfflineEvaluationFailed(evaluation: EvaluationError)
    | LimitCurrencyMismatch(expected: Currency, actual: Currency)
    | NegativeLimit(limit: Money)
    | SnapshotOccursAfterEvent(snapshot: Snapshot, cachedAt: EventTime, event: EventTime)

  datatype OfflineEvaluation = OfflineEvaluation(
    evaluation: Evaluation, policyAge: U64, revocationAge: U64, limit: Money)

  function SnapshotAge(kind: Snapshot, cachedAt: EventTime, event: EventTime): Result<U64, OfflineError> {
    if cachedAt > event then Err(SnapshotOccursAfterEvent(kind, cachedAt, event))
    else Ok(event - cachedAt)
  }

  function ApplyOfflineLimit(e: Evaluation, limit: Money): Result<Evaluation, OfflineError> {
    match e.outcome
    case Rejected(_) => Ok(e)
    case Approved(charged, _) =>
      match CheckedCompare(charged, limit)
      case Err(_) => Err(LimitCurrencyMismatch(limit.currency, charged.currency))
      case Ok(c) =>
        Ok(e.(outcome := if c > 0 then Rejected(OfflineLimitExceeded) else Approved(charged, OfflineProvisional)))
  }

  function EvaluateFareOffline(p: FarePolicy, i: Input, c: OfflineContext): Result<OfflineEvaluation, OfflineError> {
    if c.limit.currency != p.currency then Err(LimitCurrencyMismatch(p.currency, c.limit.currency))
    else if c.limit.minorUnits < 0 then Err(NegativeLimit(c.limit))
    else
      var policyAge :- SnapshotAge(PolicySnapshot, c.policyCachedAt, i.eventTime);
      var revocationAge :- SnapshotAge(RevocationSnapshot, c.revocationCachedAt, i.eventTime);
      var online := EvaluateFare(p, i);
      if online.Err? then Err(OfflineEvaluationFailed(online.error)) else
      var decided :-
        if policyAge > c.maxPolicyAge then Ok(online.value.(outcome := Rejected(StalePolicy)))
        else if revocationAge > c.maxRevocationAge then Ok(online.value.(outcome := Rejected(StaleRevocationData)))
        else ApplyOfflineLimit(online.value, c.limit);
      Ok(OfflineEvaluation(decided, policyAge, revocationAge, c.limit))
  }
}
