/** The two interest rate models a market may use. */
module RateModels {
  import opened Base
  import opened FixedPoint

  datatype DynamicParams = DynamicParams(
    minBorrowRate: nat,
    maxBorrowRate: nat,
    optimalUtilizationRate: nat,
    kp1: nat,
    kp2: nat,
    kpAugmentationThreshold: nat,
    updateThresholdTxs: nat,
    updateThresholdSeconds: nat)

  datatype LinearParams = LinearParams(
    optimalUtilizationRate: nat,
    base: nat,
    slope1: nat,
    slope2: nat)

  datatype Params = DynamicModelParams(dynamic: DynamicParams) | LinearModelParams(linear: LinearParams) {

    predicate Valid() {
      match this
      case DynamicModelParams(p) => p.minBorrowRate <= p.maxBorrowRate && p.optimalUtilizationRate <= ONE
      case LinearModelParams(p) => p.optimalUtilizationRate <= ONE
    }

    /** The model a market starts with, its counters reset. */
    function Init(now: nat): RateModel {
      match this
      case DynamicModelParams(p) => Dynamic(p, 0, now)
      case LinearModelParams(p) => Linear(p)
    }
  }

  datatype RateModel =
    | Dynamic(params: DynamicParams, txsSinceUpdate: nat, lastUpdated: nat)
    | Linear(linear: LinearParams)

  /** A proportional controller pushes the rate towards the optimal utilization. */
  function DynamicBorrowRate(p: DynamicParams, utilization: nat, current: nat): nat {
    var below := p.optimalUtilizationRate > utilization;
    var distance :=
      if below then p.optimalUtilizationRate - utilization else utilization - p.optimalUtilizationRate;
    var kp := if distance >= p.kpAugmentationThreshold then p.kp2 else p.kp1;
    var step := MulDecimal(kp, distance);
    var rate :=
      if below then (if current > step then current - step else 0) else current + step;
    if rate < p.minBorrowRate then p.minBorrowRate
    else if rate > p.maxBorrowRate then p.maxBorrowRate
    else rate
  }

  /** Two slopes that meet at the optimal utilization. Above an optimum of one there is nothing to
      divide by. */
  function LinearBorrowRate(p: LinearParams, utilization: nat): Result<nat> {
    if utilization <= p.optimalUtilizationRate then
      if utilization == 0 then Ok(p.base)
      else Ok(p.base + MulDecimal(p.slope1, DivDecimal(utilization, p.optimalUtilizationRate)))
    else if p.optimalUtilizationRate > ONE then Err(Overflow)
    else if p.optimalUtilizationRate == ONE then Err(DivideByZero)
    else
      Ok(p.base + p.slope1
         + DivDecimal(MulDecimal(p.slope2, utilization - p.optimalUtilizationRate), ONE - p.optimalUtilizationRate))
  }

  /** The next borrow rate and the model's own next state. */
  function NextBorrowRate(model: RateModel, utilization: nat, current: nat, now: nat): Result<(nat, RateModel)> {
    match model
    case Dynamic(p, txs, last) =>
      if now < last then Err(Overflow)
      else if (txs + 1 >= p.updateThresholdTxs || now - last >= p.updateThresholdSeconds) && now != last then
        Ok((DynamicBorrowRate(p, utilization, current), Dynamic(p, 0, now)))
      else
        Ok((current, Dynamic(p, txs + 1, last)))
    case Linear(p) =>
      var rate :- LinearBorrowRate(p, utilization);
      Ok((rate, model))
  }

  /** What depositors earn: the borrow rate on the utilized part, less the protocol's share. */
  function LiquidityRate(borrowRate: nat, utilization: nat, reserveFactor: nat): Result<nat> {
    if reserveFactor > ONE then Err(Overflow)
    else Ok(MulDecimal(MulDecimal(borrowRate, utilization), ONE - reserveFactor))
  }

  /** A dynamic model that moves its rate was last updated in an earlier block, and moves the rate only to
      within its bounds. */
  lemma DynamicRateMoves(p: DynamicParams, txs: nat, last: nat, utilization: nat, current: nat, now: nat)
    requires NextBorrowRate(Dynamic(p, txs, last), utilization, current, now).Ok?
    ensures var (rate, model) := NextBorrowRate(Dynamic(p, txs, last), utilization, current, now).value;
            && model.Dynamic? && model.params == p
            && (rate != current ==> last < now == model.lastUpdated)
            && (rate != current && DynamicModelParams(p).Valid() ==> p.minBorrowRate <= rate <= p.maxBorrowRate)
  {
  }
}
