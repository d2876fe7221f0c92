/** services/estimator/domain: the price of a voyage leg. */
module Estimate {
  import opened Int64
  import opened Wrappers
  import opened Money

  datatype EstimateError = NegativeDistance | NonPositiveRate | Arithmetic(cause: MoneyError)

  function EstimateCost(distanceNm: int32, fees: Money, ratePerNm: Money): Result<Money, EstimateError> {
    if distanceNm < 0 then
      Err(NegativeDistance)
    else if ratePerNm.minor <= 0 then
      Err(NonPositiveRate)
    else
      match Mul(ratePerNm, distanceNm)
      case Err(e) => Err(Arithmetic(e))
      case Ok(base) =>
        match Add(base, fees)
        case Err(e) => Err(Arithmetic(e))
        case Ok(total) => Ok(total)
  }

  /** What a leg costs over the unbounded integers. */
  function TrueCost(distanceNm: int32, fees: Money, ratePerNm: Money): int {
    ratePerNm.minor * distanceNm + fees.minor
  }

  /** The inputs that can be priced: those whose every intermediate value is representable. */
  predicate Priceable(distanceNm: int32, fees: Money, ratePerNm: Money) {
    && distanceNm >= 0
    && ratePerNm.minor > 0
    && fees.currency == ratePerNm.currency
    && Fits(ratePerNm.minor * distanceNm)
    && Fits(TrueCost(distanceNm, fees, ratePerNm))
  }

  /** `EstimateCost` succeeds exactly on the priceable inputs and then returns the true cost; the
      pair on which `Mul` errs cannot reach it. */
  lemma EstimateCostExact(distanceNm: int32, fees: Money, ratePerNm: Money)
    ensures EstimateCost(distanceNm, fees, ratePerNm).Ok? <==> Priceable(distanceNm, fees, ratePerNm)
    ensures EstimateCost(distanceNm, fees, ratePerNm).Ok? ==>
              EstimateCost(distanceNm, fees, ratePerNm).value
              == Money(TrueCost(distanceNm, fees, ratePerNm), ratePerNm.currency)
    ensures distanceNm < 0 <==> EstimateCost(distanceNm, fees, ratePerNm) == Err(NegativeDistance)
    ensures distanceNm >= 0 && ratePerNm.minor <= 0 <==>
              EstimateCost(distanceNm, fees, ratePerNm) == Err(NonPositiveRate)
    ensures distanceNm >= 0 && ratePerNm.minor > 0 && !Fits(ratePerNm.minor * distanceNm) ==>
              EstimateCost(distanceNm, fees, ratePerNm) == Err(Arithmetic(Overflow))
    ensures distanceNm >= 0 && ratePerNm.minor > 0 && Fits(ratePerNm.minor * distanceNm)
            && fees.currency != ratePerNm.currency ==>
              EstimateCost(distanceNm, fees, ratePerNm) == Err(Arithmetic(CurrencyMismatch))
  {
    MulExact(ratePerNm, distanceNm);
    if distanceNm >= 0 && ratePerNm.minor > 0 && Fits(ratePerNm.minor * distanceNm) {
      AddExact(Mul(ratePerNm, distanceNm).value, fees);
    }
  }

  lemma Scaling(rate: int, a: int, b: int)
    requires rate > 0 && 0 <= a <= b
    ensures 0 <= rate * a <= rate * b
    ensures a < b ==> rate * a < rate * b
  {
    var gap := b - a;
    assert rate * b == rate * a + rate * gap;
    assert gap > 0 ==> rate * gap > 0;
  }

  /** A shorter leg under the same fees and rate is priceable too and never costs more. */
  lemma EstimateCostMonotone(shorter: int32, longer: int32, fees: Money, ratePerNm: Money)
    requires 0 <= shorter <= longer
    requires EstimateCost(longer, fees, ratePerNm).Ok?
    ensures EstimateCost(shorter, fees, ratePerNm).Ok?
    ensures EstimateCost(shorter, fees, ratePerNm).value.minor <= EstimateCost(longer, fees, ratePerNm).value.minor
    ensures shorter < longer ==>
              EstimateCost(shorter, fees, ratePerNm).value.minor < EstimateCost(longer, fees, ratePerNm).value.minor
  {
    EstimateCostExact(longer, fees, ratePerNm);
    Scaling(ratePerNm.minor, shorter, longer);
    EstimateCostExact(shorter, fees, ratePerNm);
  }
}
