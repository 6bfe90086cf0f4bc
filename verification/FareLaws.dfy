/** What the fare pipeline guarantees, for every validated policy and input. */
module FareLaws {
  import opened Basics
  import opened Money
  import opened FarePolicies
  import opened FareEngine

  // ---- Floor rounding ---------------------------------------------------

  /** The fare left after a floor-rounded percentage discount. */
  function Net(x: nat, rate: BasisPoints): int {
    x - x * rate / 10_000
  }

  lemma DivisionMonotone(a: nat, b: nat)
    requires a <= b
    ensures a / 10_000 <= b / 10_000
  {
  }

  /** The computed discount is the exact percentage rounded down: never more
      than the amount and less than one minor unit below the exact value. */
  lemma PercentageRoundsDown(amount: Money, rate: BasisPoints)
    requires amount.minorUnits >= 0
    ensures CalculatePercentage(amount, rate).Ok?
    ensures var d := CalculatePercentage(amount, rate).value;
      && d.currency == amount.currency
      && 0 <= d.minorUnits <= amount.minorUnits
      && d.minorUnits * 10_000 <= amount.minorUnits * rate < (d.minorUnits + 1) * 10_000
      && amount.minorUnits - d.minorUnits == Net(amount.minorUnits, rate)
  {
    var x := amount.minorUnits;
    assert 0 <= x * rate <= x * 10_000 by {
      MulMonotone(x, rate, 10_000);
    }
    DivisionMonotone(x * rate, x * 10_000);
  }

  lemma MulMonotone(x: nat, a: nat, b: nat)
    requires a <= b
    ensures 0 <= x * a <= x * b && x * b - x * a == x * (b - a)
  {
    assert x * (b - a) >= 0;
  }

  /** A larger price never nets less: the floor drops the discount by at most
      what the price grew. */
  lemma NetMonotoneInPrice(x: nat, y: nat, rate: BasisPoints)
    requires x <= y
    ensures 0 <= Net(x, rate) <= Net(y, rate)
  {
    var g := y - x;
    assert y * rate == x * rate + g * rate;
    MulMonotone(g, rate, 10_000);
    MulMonotone(x, rate, 10_000);
    DivisionMonotone(x * rate, x * 10_000);
    DivisionMonotone(y * rate, x * rate + g * 10_000);
    assert (x * rate + g * 10_000) / 10_000 == x * rate / 10_000 + g;
  }

  lemma NetAntitoneInRate(x: nat, low: BasisPoints, high: BasisPoints)
    requires low <= high
    ensures Net(x, high) <= Net(x, low)
  {
    MulMonotone(x, low, high);
    DivisionMonotone(x * low, x * high);
  }

  // ---- Exactness of evaluation ------------------------------------------

  /** Zones apart. */
  function Distance(i: Input): nat {
    Max(i.origin - i.destination, i.destination - i.origin)
  }

  /** Basis points off for the rider's class; standard riders pay in full. */
  function ClassRate(p: FarePolicy, i: Input): BasisPoints {
    match i.eligibility
    case Standard => 0
    case Youth => p.discounts.youth
    case Senior => p.discounts.senior
    case ReducedFare => p.discounts.reducedFare
    case EmployeeTestAccount => p.discounts.employee
  }

  predicate PreviousFareInOrder(i: Input) {
    i.previousPaidFare.None? || i.previousPaidFare.value <= i.eventTime
  }

  /** The inputs on which evaluation succeeds, said over the raw values. */
  predicate Evaluable(p: FarePolicy, i: Input) {
    && NonNegativeIn(i.balance, p.currency)
    && p.zoneSurcharge.minorUnits * Distance(i) <= I64_MAX
    && p.baseFare.minorUnits + p.zoneSurcharge.minorUnits * Distance(i) <= I64_MAX
    && PreviousFareInOrder(i)
    && NonNegativeIn(i.caps.daily, p.currency)
    && NonNegativeIn(i.caps.weekly, p.currency)
    && i.caps.daily.minorUnits <= i.caps.weekly.minorUnits
  }

  /** Every error a caller can observe, with its cause: a bad balance, one of
      the two price overflows, or a bad history. */
  predicate InputError(p: FarePolicy, i: Input, e: EvaluationError) {
    match e
    case BalanceCurrencyMismatch(expected, actual) =>
      expected == p.currency && actual == i.balance.currency && actual != expected
    case NegativeAvailableBalance(balance) => balance == i.balance && balance.minorUnits < 0
    case EvaluationOverflow(stage) =>
      var zones := p.zoneSurcharge.minorUnits * Distance(i);
      || (stage == ZoneSurchargeStage && zones > I64_MAX)
      || (stage == BaseAndZoneFareStage && zones <= I64_MAX && p.baseFare.minorUnits + zones > I64_MAX)
    case TransferFailed(t) =>
      && t.PreviousFareOccursAfterCurrent? && i.previousPaidFare == Some(t.previous) && t.current == i.eventTime
      && t.previous > t.current
    case CapFailed(c) => HistoryError(p, i.caps, c)
    case ProductFailed(_) => false
  }

  /** What is wrong with the charges of the day or the week. */
  predicate HistoryError(p: FarePolicy, h: CapHistory, e: CapError) {
    match e
    case CapCurrencyMismatch(field, expected, actual) =>
      && expected == p.currency && actual != expected
      && ((field == DailyCharged && actual == h.daily.currency)
          || (field == WeeklyCharged && actual == h.weekly.currency))
    case CapNegativeAmount(field, amount) =>
      && amount.minorUnits < 0
      && ((field == DailyCharged && amount == h.daily) || (field == WeeklyCharged && amount == h.weekly))
    case DailyChargedExceedsWeeklyCharged(daily, weekly) =>
      daily == h.daily && weekly == h.weekly && daily.minorUnits > weekly.minorUnits
    case CapArithmeticFailure => false
  }

  predicate TransferEligible(p: FarePolicy, i: Input) {
    i.previousPaidFare.Some? && 0 <= i.eventTime - i.previousPaidFare.value <= p.transferWindow
  }

  function GrossFare(p: FarePolicy, i: Input): nat {
    p.baseFare.minorUnits + p.zoneSurcharge.minorUnits * Distance(i)
  }

  /** The fare before any product, as one formula over the raw values. */
  function CappedFare(p: FarePolicy, i: Input): int {
    var net := Net(GrossFare(p, i), ClassRate(p, i));
    var moved := if TransferEligible(p, i) then Max(0, net - p.transferDiscount.minorUnits) else net;
    Min(moved, Min(Max(0, p.dailyCap.minorUnits - i.caps.daily.minorUnits),
                   Max(0, p.weeklyCap.minorUnits - i.caps.weekly.minorUnits)))
  }

  lemma TransferStage(p: FarePolicy, i: Input, fare: Money)
    requires NonNegativeIn(fare, p.currency)
    ensures var r := ApplyTransfer(p, i.eventTime, i.previousPaidFare, fare);
      && (r.Ok? <==> PreviousFareInOrder(i))
      && (r.Err? ==> InputError(p, i, TransferFailed(r.error)))
      && (r.Ok? ==>
            && NonNegativeIn(r.value.discount, p.currency) && NonNegativeIn(r.value.fare, p.currency)
            && r.value.eligible == TransferEligible(p, i)
            && fare.minorUnits == r.value.fare.minorUnits + r.value.discount.minorUnits
            && r.value.fare.minorUnits == (if TransferEligible(p, i)
                                           then Max(0, fare.minorUnits - p.transferDiscount.minorUnits)
                                           else fare.minorUnits))
  {
  }

  /** The unchecked additions of the cap code stay inside 64 bits, so the
      reached flags compare true sums; the capped fare is the least of the
      fare and the two remaining allowances. */
  lemma CapStage(p: FarePolicy, h: CapHistory, fare: Money)
    requires NonNegativeIn(fare, p.currency)
    ensures var r := ApplyFareCaps(p, h, fare);
      && (r.Ok? <==> NonNegativeIn(h.daily, p.currency) && NonNegativeIn(h.weekly, p.currency)
                     && h.daily.minorUnits <= h.weekly.minorUnits)
      && (r.Err? ==> HistoryError(p, h, r.error))
      && (r.Ok? ==>
            var c := r.value;
            && NonNegativeIn(c.discount, p.currency) && NonNegativeIn(c.fare, p.currency)
            && c.dailyRemaining == Money(Max(0, p.dailyCap.minorUnits - h.daily.minorUnits), p.currency)
            && c.weeklyRemaining == Money(Max(0, p.weeklyCap.minorUnits - h.weekly.minorUnits), p.currency)
            && fare.minorUnits == c.fare.minorUnits + c.discount.minorUnits
            && c.fare.minorUnits == Min(fare.minorUnits,
                 Min(Max(0, p.dailyCap.minorUnits - h.daily.minorUnits),
                     Max(0, p.weeklyCap.minorUnits - h.weekly.minorUnits)))
            && h.daily.minorUnits + c.fare.minorUnits <= I64_MAX
            && h.weekly.minorUnits + c.fare.minorUnits <= I64_MAX
            && (c.dailyCapReached <==> h.daily.minorUnits + c.fare.minorUnits >= p.dailyCap.minorUnits)
            && (c.weeklyCapReached <==> h.weekly.minorUnits + c.fare.minorUnits >= p.weeklyCap.minorUnits))
  {
  }

  lemma GrossStage(p: FarePolicy, i: Input)
    ensures p.zoneSurcharge.minorUnits * Distance(i) >= 0
    ensures var s := CalculateZoneSurcharge(p.zoneSurcharge, ZoneCount(i));
      && (s.Ok? <==> p.zoneSurcharge.minorUnits * Distance(i) <= I64_MAX)
      && (s.Err? ==> s.error == EvaluationOverflow(ZoneSurchargeStage))
      && (s.Ok? ==>
            && s.value == Money(p.zoneSurcharge.minorUnits * Distance(i), p.currency)
            && (CheckedAdd(p.baseFare, s.value).Ok? <==> GrossFare(p, i) <= I64_MAX)
            && (GrossFare(p, i) <= I64_MAX ==>
                  CheckedAdd(p.baseFare, s.value) == Ok(Money(GrossFare(p, i), p.currency))))
  {
    MulMonotone(Distance(i), 0, p.zoneSurcharge.minorUnits);
  }

  /** The zone lies in the product's coverage. */
  predicate Inside(c: Coverage, z: ZoneId) {
    c == AllZones || (c.ZoneRange? && c.first <= z && z <= c.last)
  }

  /** What a presented product is worth for this journey. */
  predicate CoveredByProduct(i: Input) {
    && i.product.Some? && i.product.value.validFrom <= i.eventTime <= i.product.value.validUntil
    && Inside(i.product.value.coverage, i.origin) && Inside(i.product.value.coverage, i.destination)
  }

  /** The reason why a presented product does not cover: it is early, else
      late, else out of its zones. */
  predicate ProductFault(i: Input, reason: ProductInvalidReason)
    requires i.product.Some?
  {
    match reason
    case NotYetValid => i.eventTime < i.product.value.validFrom
    case Expired => i.product.value.validFrom <= i.eventTime && i.product.value.validUntil < i.eventTime
    case OutsideZoneCoverage =>
      && i.product.value.validFrom <= i.eventTime <= i.product.value.validUntil
      && !(Inside(i.product.value.coverage, i.origin) && Inside(i.product.value.coverage, i.destination))
  }

  lemma ProductStage(p: FarePolicy, i: Input, fare: Money)
    requires NonNegativeIn(fare, p.currency)
    ensures var r := ApplyProduct(p, i.product, i.eventTime, i.origin, i.destination, fare);
      && r.Ok?
      && NonNegativeIn(r.value.discount, p.currency) && NonNegativeIn(r.value.fare, p.currency)
      && fare.minorUnits == r.value.fare.minorUnits + r.value.discount.minorUnits
      && r.value.fare == (if CoveredByProduct(i) then Zero(p.currency) else fare)
      && match r.value.outcome
         case NotPresented => i.product.None?
         case Covered => CoveredByProduct(i)
         case Invalid(reason) => i.product.Some? && ProductFault(i, reason)
  {
  }

  /** Evaluation succeeds on exactly the evaluable inputs; every other input
      gets an input error, so all the later arithmetic, currency and
      negative-fare errors are unreachable. */
  lemma EvaluateFareExact(p: FarePolicy, i: Input)
    ensures EvaluateFare(p, i).Ok? <==> Evaluable(p, i)
    ensures EvaluateFare(p, i).Err? ==> InputError(p, i, EvaluateFare(p, i).error)
    ensures EvaluateFare(p, i).Ok? ==>
      var capped := EvaluateFare(p, i).value.evidence.cap.fare;
      capped.minorUnits == CappedFare(p, i) && capped.currency == p.currency
  {
    hide CalculateZoneSurcharge, CalculatePercentage, ApplyTransfer, ApplyFareCaps, ApplyProduct, Net;
    GrossStage(p, i);
    if p.zoneSurcharge.minorUnits * Distance(i) <= I64_MAX && GrossFare(p, i) <= I64_MAX {
      var before := Money(GrossFare(p, i), p.currency);
      var rate := ClassRate(p, i);
      PercentageRoundsDown(before, rate);
      var discounted := CheckedSubtract(before, CalculatePercentage(before, rate).value).value;
      TransferStage(p, i, discounted);
      var transfer := ApplyTransfer(p, i.eventTime, i.previousPaidFare, discounted);
      if transfer.Ok? {
        CapStage(p, i.caps, transfer.value.fare);
        var cap := ApplyFareCaps(p, i.caps, transfer.value.fare);
        if cap.Ok? {
          ProductStage(p, i, cap.value.fare);
        }
      }
    }
  }

  /** Each stage hands on what it does not discount. */
  lemma StagesBalance(p: FarePolicy, i: Input)
    requires EvaluateFare(p, i).Ok?
    ensures var v := EvaluateFare(p, i).value.evidence;
      && NonNegativeIn(v.zoneSurcharge, p.currency) && NonNegativeIn(v.eligibilityDiscount, p.currency)
      && NonNegativeIn(v.transfer.discount, p.currency) && NonNegativeIn(v.cap.discount, p.currency)
      && NonNegativeIn(v.cap.fare, p.currency)
      && v.baseFare == p.baseFare && v.zoneSurcharge.minorUnits == p.zoneSurcharge.minorUnits * Distance(i)
      && v.zones == Distance(i) && v.rate == ClassRate(p, i)
      && v.eligibilityDiscount.minorUnits == v.fareBeforeDiscount.minorUnits * ClassRate(p, i) / 10_000
      && v.transfer.eligible == TransferEligible(p, i)
      && v.baseFare.minorUnits + v.zoneSurcharge.minorUnits == v.fareBeforeDiscount.minorUnits
      && v.fareBeforeDiscount.minorUnits == v.fareAfterEligibility.minorUnits + v.eligibilityDiscount.minorUnits
      && v.fareAfterEligibility.minorUnits == v.transfer.fare.minorUnits + v.transfer.discount.minorUnits
      && v.transfer.fare.minorUnits == v.cap.fare.minorUnits + v.cap.discount.minorUnits
      && Ok(v.product) == ApplyProduct(p, i.product, i.eventTime, i.origin, i.destination, v.cap.fare)
      && v.finalFare == v.product.fare && v.cap.fare.minorUnits == CappedFare(p, i)
  {
    hide CalculateZoneSurcharge, CalculatePercentage, ApplyTransfer, ApplyFareCaps, ApplyProduct, Net;
    EvaluateFareExact(p, i);
    GrossStage(p, i);
    var before := Money(GrossFare(p, i), p.currency);
    var rate := p.discounts.RateFor(i.eligibility);
    PercentageRoundsDown(before, rate);
    var discounted := CheckedSubtract(before, CalculatePercentage(before, rate).value).value;
    TransferStage(p, i, discounted);
    CapStage(p, i.caps, ApplyTransfer(p, i.eventTime, i.previousPaidFare, discounted).value.fare);
  }

  /** Conservation: the gross price is what is finally charged plus every
      discount, all non-negative and in the policy currency. */
  lemma FareConservation(p: FarePolicy, i: Input)
    requires EvaluateFare(p, i).Ok?
    ensures var v := EvaluateFare(p, i).value.evidence;
      && NonNegativeIn(v.eligibilityDiscount, p.currency) && NonNegativeIn(v.transfer.discount, p.currency)
      && NonNegativeIn(v.cap.discount, p.currency) && NonNegativeIn(v.product.discount, p.currency)
      && NonNegativeIn(v.zoneSurcharge, p.currency) && NonNegativeIn(v.finalFare, p.currency)
      && v.baseFare == p.baseFare && v.zoneSurcharge.minorUnits == p.zoneSurcharge.minorUnits * Distance(i)
      && v.baseFare.minorUnits + v.zoneSurcharge.minorUnits
         == v.finalFare.minorUnits + v.eligibilityDiscount.minorUnits + v.transfer.discount.minorUnits
            + v.cap.discount.minorUnits + v.product.discount.minorUnits
  {
    StagesBalance(p, i);
    ProductStage(p, i, EvaluateFare(p, i).value.evidence.cap.fare);
  }

  lemma OutcomeOf(p: FarePolicy, i: Input)
    requires EvaluateFare(p, i).Ok?
    ensures var e := EvaluateFare(p, i).value;
      DecideOutcome(p, i, e.evidence.transfer, e.evidence.cap, e.evidence.product) == Ok(e.outcome)
  {
  }

  /** An approval charges exactly the final fare, which lies within both cap
      allowances and within the balance or is waived by a product; its reason
      tells whether the cap, else the transfer, lowered the fare. Each
      rejection has exactly its cause: a presented product that does not
      cover the journey, or no product and a short balance. */
  lemma DecisionExact(p: FarePolicy, i: Input)
    requires EvaluateFare(p, i).Ok?
    ensures var e := EvaluateFare(p, i).value; var fare := e.evidence.finalFare;
      && e.policyId == p.id && e.policyVersion == p.version && e.eventTime == i.eventTime
      && (e.outcome.Approved? ==>
            && e.outcome.charged == fare
            && fare.minorUnits <= i.balance.minorUnits
            && i.caps.daily.minorUnits + fare.minorUnits <= Max(i.caps.daily.minorUnits, p.dailyCap.minorUnits)
            && i.caps.weekly.minorUnits + fare.minorUnits <= Max(i.caps.weekly.minorUnits, p.weeklyCap.minorUnits))
      && (e.outcome == Rejected(InsufficientStoredValue) <==>
            i.product.None? && i.balance.minorUnits < fare.minorUnits)
      && (e.outcome == Rejected(ProductInvalid) <==> i.product.Some? && !CoveredByProduct(i))
      && (e.outcome.Rejected? ==> e.outcome.rejection.InsufficientStoredValue? || e.outcome.rejection.ProductInvalid?)
      && (e.outcome.Approved? ==> match e.outcome.approval
            case TransitProduct => CoveredByProduct(i)
            case FareCapReason => i.product.None? && fare.minorUnits < e.evidence.transfer.fare.minorUnits
            case TransferReason => i.product.None? && fare == e.evidence.transfer.fare
                                   && fare.minorUnits < e.evidence.fareAfterEligibility.minorUnits
            case StandardFare => i.product.None? && fare.minorUnits == e.evidence.fareAfterEligibility.minorUnits
            case OfflineProvisional => false)
  {
    EvaluateFareExact(p, i);
    StagesBalance(p, i);
    ProductStage(p, i, EvaluateFare(p, i).value.evidence.cap.fare);
    OutcomeOf(p, i);
  }

  /** Without a product the final fare is the capped fare. */
  lemma StoredValueFare(p: FarePolicy, i: Input)
    requires EvaluateFare(p, i).Ok? && i.product.None?
    ensures EvaluateFare(p, i).value.evidence.finalFare.minorUnits == CappedFare(p, i)
  {
    StagesBalance(p, i);
    ProductStage(p, i, EvaluateFare(p, i).value.evidence.cap.fare);
  }

  /** Two inputs that differ only in where the journey starts and ends. */
  predicate SameExceptZones(i: Input, j: Input) {
    i.(origin := j.origin, destination := j.destination) == j
  }

  predicate SameExceptDiscounts(p: FarePolicy, q: FarePolicy) {
    var d: PolicyDefinition := p;
    d.(discounts := q.discounts) == q
  }

  /** Without a product, a longer journey never costs less. */
  lemma FareMonotoneInDistance(p: FarePolicy, near: Input, far: Input)
    requires SameExceptZones(near, far) && Distance(near) <= Distance(far) && near.product.None?
    requires EvaluateFare(p, far).Ok?
    ensures EvaluateFare(p, near).Ok?
    ensures EvaluateFare(p, near).value.evidence.finalFare.minorUnits
         <= EvaluateFare(p, far).value.evidence.finalFare.minorUnits
  {
    hide EvaluateFare, CappedFare;
    EvaluateFareExact(p, near);
    EvaluateFareExact(p, far);
    MulMonotone(p.zoneSurcharge.minorUnits, Distance(near), Distance(far));
    StoredValueFare(p, near);
    StoredValueFare(p, far);
    CappedFareMonotone(p, near, far);
  }

  lemma CappedFareMonotone(p: FarePolicy, near: Input, far: Input)
    requires SameExceptZones(near, far) && Distance(near) <= Distance(far)
    ensures CappedFare(p, near) <= CappedFare(p, far)
  {
    MulMonotone(p.zoneSurcharge.minorUnits, Distance(near), Distance(far));
    NetMonotoneInPrice(GrossFare(p, near), GrossFare(p, far), ClassRate(p, near));
  }

  /** Without a product, a larger eligibility discount never costs more. */
  lemma FareAntitoneInRate(p: FarePolicy, q: FarePolicy, i: Input)
    requires SameExceptDiscounts(p, q) && i.product.None?
    requires ClassRate(p, i) <= ClassRate(q, i)
    ensures EvaluateFare(p, i).Ok? <==> EvaluateFare(q, i).Ok?
    ensures EvaluateFare(p, i).Ok? ==>
      EvaluateFare(q, i).value.evidence.finalFare.minorUnits <= EvaluateFare(p, i).value.evidence.finalFare.minorUnits
  {
    EvaluateFareExact(p, i);
    EvaluateFareExact(q, i);
    if Evaluable(p, i) {
      StoredValueFare(p, i);
      StoredValueFare(q, i);
      CappedFareAntitone(p, q, i);
    }
  }

  lemma CappedFareAntitone(p: FarePolicy, q: FarePolicy, i: Input)
    requires SameExceptDiscounts(p, q)
    requires ClassRate(p, i) <= ClassRate(q, i)
    ensures CappedFare(q, i) <= CappedFare(p, i)
  {
    NetAntitoneInRate(GrossFare(p, i), ClassRate(p, i), ClassRate(q, i));
  }

  // ---- Caps over whole days and weeks -----------------------------------

  function Sum(fares: seq<int>): int {
    if fares == [] then 0 else fares[0] + Sum(fares[1..])
  }

  /** Non-negative 64-bit amounts. */
  predicate Amounts(fares: seq<int>) {
    forall k :: 0 <= k < |fares| ==> 0 <= fares[k] <= I64_MAX
  }

  /** Charges one fare after another, feeding each capped charge back into
      the history; None once a charge is refused or the history overflows. */
  function ChargeAll(p: FarePolicy, h: CapHistory, fares: seq<int>): Option<CapHistory>
    requires Amounts(fares)
    decreases |fares|
  {
    if fares == [] then Some(h)
    else match ApplyFareCaps(p, h, Money(fares[0], p.currency))
      case Err(_) => None
      case Ok(c) =>
        match (CheckedAdd(h.daily, c.fare), CheckedAdd(h.weekly, c.fare))
        case (Ok(d), Ok(w)) => ChargeAll(p, CapHistory(d, w), fares[1..])
        case (_, _) => None
  }

  predicate HistoryWithin(p: FarePolicy, h: CapHistory) {
    && NonNegativeIn(h.daily, p.currency) && NonNegativeIn(h.weekly, p.currency)
    && h.daily.minorUnits <= p.dailyCap.minorUnits
    && h.daily.minorUnits <= h.weekly.minorUnits <= p.weeklyCap.minorUnits
  }

  /** Any list of fares charges, in total, the least of their sum and the two
      allowances left at the start. */
  lemma {:induction false} ChargeAllClosedForm(p: FarePolicy, h: CapHistory, fares: seq<int>)
    requires HistoryWithin(p, h) && Amounts(fares)
    ensures Sum(fares) >= 0
    ensures ChargeAll(p, h, fares).Some? && HistoryWithin(p, ChargeAll(p, h, fares).value)
    ensures var total := Min(Sum(fares), Min(p.dailyCap.minorUnits - h.daily.minorUnits,
                                             p.weeklyCap.minorUnits - h.weekly.minorUnits));
      && ChargeAll(p, h, fares).value.daily.minorUnits == h.daily.minorUnits + total
      && ChargeAll(p, h, fares).value.weekly.minorUnits == h.weekly.minorUnits + total
    decreases |fares|
  {
    if fares != [] {
      var fare := Money(fares[0], p.currency);
      CapStage(p, h, fare);
      var c := ApplyFareCaps(p, h, fare).value;
      ChargeAllClosedForm(p, CapHistory(CheckedAdd(h.daily, c.fare).value, CheckedAdd(h.weekly, c.fare).value),
                          fares[1..]);
    }
  }

  lemma WithoutOne(s: seq<int>, k: nat)
    requires k < |s|
    ensures multiset(s[..k] + s[k + 1..]) == multiset(s) - multiset{s[k]}
  {
    assert s == s[..k] + ([s[k]] + s[k + 1..]);
  }

  lemma SumWithoutOne(s: seq<int>, k: nat)
    requires k < |s|
    ensures Sum(s) == s[k] + Sum(s[..k] + s[k + 1..])
  {
    assert s == s[..k] + ([s[k]] + s[k + 1..]) && ([s[k]] + s[k + 1..])[1..] == s[k + 1..];
    SumSplit(s[..k], [s[k]] + s[k + 1..]);
    SumSplit(s[..k], s[k + 1..]);
  }

  lemma {:induction false} SumOfPermutation(a: seq<int>, b: seq<int>)
    requires multiset(a) == multiset(b)
    ensures Sum(a) == Sum(b)
    decreases |a|
  {
    hide Sum;
    if a == [] {
      assert b == [] by { assert |b| == |multiset(b)|; }
    } else {
      assert a[0] in multiset(b);
      var k :| 0 <= k < |b| && b[k] == a[0];
      WithoutOne(a, 0);
      WithoutOne(b, k);
      SumWithoutOne(a, 0);
      SumWithoutOne(b, k);
      SumOfPermutation(a[..0] + a[1..], b[..k] + b[k + 1..]);
    }
  }

  lemma {:induction false} SumSplit(a: seq<int>, b: seq<int>)
    ensures Sum(a + b) == Sum(a) + Sum(b)
    decreases |a|
  {
    if a == [] {
      assert a + b == b;
    } else {
      assert (a + b)[1..] == a[1..] + b;
      SumSplit(a[1..], b);
    }
  }

  /** The day's total charge does not depend on the order of its fares. */
  lemma ChargeOrderIrrelevant(p: FarePolicy, h: CapHistory, a: seq<int>, b: seq<int>)
    requires HistoryWithin(p, h) && Amounts(a) && multiset(a) == multiset(b)
    ensures Amounts(b) && ChargeAll(p, h, a) == ChargeAll(p, h, b)
  {
    hide ChargeAll, Sum;
    SumOfPermutation(a, b);
    forall k | 0 <= k < |b| ensures 0 <= b[k] <= I64_MAX {
      assert b[k] in multiset(b);
      assert b[k] in multiset(a);
    }
    ChargeAllClosedForm(p, h, a);
    ChargeAllClosedForm(p, h, b);
  }

  /** Runs a week day by day: the daily total restarts, the weekly one does
      not. */
  function ChargeWeek(p: FarePolicy, weekly: Money, days: seq<seq<int>>): Option<Money>
    requires forall k :: 0 <= k < |days| ==> Amounts(days[k])
    decreases |days|
  {
    if days == [] then Some(weekly)
    else match ChargeAll(p, CapHistory(Zero(p.currency), weekly), days[0])
      case None => None
      case Some(h) => ChargeWeek(p, h.weekly, days[1..])
  }

  function CappedDays(p: FarePolicy, days: seq<seq<int>>): int {
    if days == [] then 0 else Min(Sum(days[0]), p.dailyCap.minorUnits) + CappedDays(p, days[1..])
  }

  lemma ChargeDay(p: FarePolicy, weekly: Money, fares: seq<int>)
    requires NonNegativeIn(weekly, p.currency) && weekly.minorUnits <= p.weeklyCap.minorUnits && Amounts(fares)
    ensures Sum(fares) >= 0
    ensures var h := ChargeAll(p, CapHistory(Zero(p.currency), weekly), fares);
      && h.Some? && NonNegativeIn(h.value.weekly, p.currency)
      && h.value.weekly.minorUnits
         == Min(weekly.minorUnits + Min(Sum(fares), p.dailyCap.minorUnits), p.weeklyCap.minorUnits)
  {
    hide ChargeAll, Sum, Amounts;
    ChargeAllClosedForm(p, CapHistory(Zero(p.currency), weekly), fares);
  }

  /** Over any list of days the week charges the least of the weekly allowance
      and the sum of the days, each day limited to the daily cap. */
  lemma {:induction false} ChargeWeekClosedForm(p: FarePolicy, weekly: Money, days: seq<seq<int>>)
    requires NonNegativeIn(weekly, p.currency) && weekly.minorUnits <= p.weeklyCap.minorUnits
    requires forall k :: 0 <= k < |days| ==> Amounts(days[k])
    ensures CappedDays(p, days) >= 0
    ensures var total := ChargeWeek(p, weekly, days);
      && total.Some? && total.value.currency == p.currency
      && total.value.minorUnits == Min(weekly.minorUnits + CappedDays(p, days), p.weeklyCap.minorUnits)
    decreases |days|
  {
    hide ChargeAll, Sum, Amounts;
    if days != [] {
      ChargeDay(p, weekly, days[0]);
      var next := ChargeAll(p, CapHistory(Zero(p.currency), weekly), days[0]).value.weekly;
      ChargeWeekClosedForm(p, next, days[1..]);
    }
  }

  // ---- Offline refines online -------------------------------------------

  predicate Fresh(i: Input, c: OfflineContext) {
    && 0 <= i.eventTime - c.policyCachedAt <= c.maxPolicyAge
    && 0 <= i.eventTime - c.revocationCachedAt <= c.maxRevocationAge
  }

  /** Offline evaluation succeeds exactly when the context is usable and the
      online one succeeds; its evidence is the online evidence, and it
      approves exactly the fresh online approvals within the limit, for the
      same charge. Stale policy data, stale revocation data and the limit are
      each given as the reason exactly when they are the first obstacle. */
  lemma OfflineRefinesOnline(p: FarePolicy, i: Input, c: OfflineContext)
    ensures EvaluateFareOffline(p, i, c).Ok? <==>
      && NonNegativeIn(c.limit, p.currency)
      && c.policyCachedAt <= i.eventTime && c.revocationCachedAt <= i.eventTime
      && EvaluateFare(p, i).Ok?
    ensures EvaluateFareOffline(p, i, c).Err? ==> match EvaluateFareOffline(p, i, c).error
      case OfflineEvaluationFailed(e) => EvaluateFare(p, i) == Err(e)
      case LimitCurrencyMismatch(expected, actual) =>
        expected == p.currency && actual == c.limit.currency && actual != expected
      case NegativeLimit(limit) => limit == c.limit && limit.minorUnits < 0
      case SnapshotOccursAfterEvent(snapshot, cachedAt, event) =>
        && event == i.eventTime && cachedAt > event
        && cachedAt == if snapshot == PolicySnapshot then c.policyCachedAt else c.revocationCachedAt
    ensures EvaluateFareOffline(p, i, c).Ok? ==>
      && EvaluateFareOffline(p, i, c).value.policyAge == i.eventTime - c.policyCachedAt
      && EvaluateFareOffline(p, i, c).value.revocationAge == i.eventTime - c.revocationCachedAt
      && EvaluateFareOffline(p, i, c).value.limit == c.limit
    ensures EvaluateFareOffline(p, i, c).Ok? ==>
      var off := EvaluateFareOffline(p, i, c).value.evaluation;
      var on := EvaluateFare(p, i).value;
      && off == on.(outcome := off.outcome)
      && (off.outcome.Approved? <==>
            Fresh(i, c) && on.outcome.Approved? && on.outcome.charged.minorUnits <= c.limit.minorUnits)
      && (off.outcome.Approved? ==> off.outcome == Approved(on.outcome.charged, OfflineProvisional))
      && (off.outcome == Rejected(StalePolicy) <==> i.eventTime - c.policyCachedAt > c.maxPolicyAge)
      && (off.outcome == Rejected(StaleRevocationData) <==>
            i.eventTime - c.policyCachedAt <= c.maxPolicyAge && i.eventTime - c.revocationCachedAt > c.maxRevocationAge)
      && (off.outcome == Rejected(OfflineLimitExceeded) <==>
            Fresh(i, c) && on.outcome.Approved? && on.outcome.charged.minorUnits > c.limit.minorUnits)
      && (Fresh(i, c) && on.outcome.Rejected? ==> off.outcome == on.outcome)
  {
    hide EvaluateFare, GrossFare, CappedFare, Evaluable;
    EvaluateFareExact(p, i);
    if EvaluateFare(p, i).Ok? {
      FareConservation(p, i);
      DecisionExact(p, i);
    }
  }
}
