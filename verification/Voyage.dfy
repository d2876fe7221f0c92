/** services/voyage/domain: the voyage value and its validation, and the two events. */
module Voyages {
  import opened Int64
  import opened Wrappers
  import opened Money
  import Estimate

  /** What a client supplies about a sailing, as opposed to its identity and version. */
  datatype Content = Content(origin: string, dest: string, distanceNm: int32, feesMinor: int64)

  datatype Voyage = Voyage(id: string, content: Content, version: int64, estimateMinor: int64)

  datatype Invalid = MissingClientRequestID | MissingPort | NegativeDistance

  function Validate(v: Voyage): Option<Invalid> {
    if v.id == "" then Some(MissingClientRequestID)
    else if v.content.origin == "" || v.content.dest == "" then Some(MissingPort)
    else if v.content.distanceNm < 0 then Some(NegativeDistance)
    else None
  }

  /** The voyage.created and estimate.ready events. */
  datatype VoyageCreated = VoyageCreated(id: string, content: Content, version: int64)

  datatype EstimateReady = EstimateReady(id: string, version: int64, amountMinor: int64, currency: string)

  /** A topic holds what its producer encoded, or bytes that nothing can decode. */
  datatype Record<+T> = Garbage(raw: nat) | Event(value: T)

  function ToVoyageCreated(v: Voyage): VoyageCreated {
    VoyageCreated(v.id, v.content, v.version)
  }

  function BuildEstimateReady(vc: VoyageCreated, cost: Money): EstimateReady {
    EstimateReady(vc.id, vc.version, cost.minor, cost.currency)
  }

  /** The price both estimate paths put on a content, if it has one. */
  function PriceOf(content: Content, rate: Money): Result<Money, Estimate.EstimateError> {
    Estimate.EstimateCost(content.distanceNm, FromUSD(content.feesMinor), rate)
  }

  /** The same price over the unbounded integers, and when it is one that can be computed. */
  function Cost(rate: Money, c: Content): int { rate.minor * c.distanceNm + c.feesMinor }

  predicate HasPrice(rate: Money, c: Content) {
    Estimate.Priceable(c.distanceNm, FromUSD(c.feesMinor), rate)
  }

  lemma PriceExact(rate: Money, c: Content)
    ensures PriceOf(c, rate).Ok? <==> HasPrice(rate, c)
    ensures PriceOf(c, rate).Ok? ==> PriceOf(c, rate).value == Money(Cost(rate, c), rate.currency)
  {
    Estimate.EstimateCostExact(c.distanceNm, FromUSD(c.feesMinor), rate);
  }
}
