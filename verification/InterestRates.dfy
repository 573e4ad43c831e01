/** Scaled amounts, growing indexes and the accrual of interest on one market. */
module InterestRates {
  import opened Base
  import opened FixedPoint
  import opened RateModels

  /** Kept between an amount and its scaled form for precision. */
  const SCALING_FACTOR: nat := 1_000_000

  const SECONDS_PER_YEAR: nat := 31_536_000

  /** Amounts times UNIT are what scaled amounts times an index are compared with. */
  const UNIT: nat := SCALING_FACTOR * ONE

  /** Indexes start at one and, as the operations below show, only ever grow. */
  type Index = i: nat | ONE <= i witness ONE

  datatype Market = Market(
    maxLoanToValue: nat,
    liquidationThreshold: nat,
    liquidationBonus: nat,
    reserveFactor: nat,
    model: RateModel,
    borrowIndex: Index,
    liquidityIndex: Index,
    borrowRate: nat,
    liquidityRate: nat,
    indexesLastUpdated: nat,
    debtTotalScaled: nat,
    active: bool,
    depositEnabled: bool,
    borrowEnabled: bool)
  {
    predicate Valid() {
      && maxLoanToValue <= ONE
      && liquidationThreshold <= ONE
      && liquidationBonus <= ONE
      && maxLoanToValue < liquidationThreshold
    }
  }

  // ---------- scaling ----------

  function ScaledDown(amount: nat, index: Index): nat {
    DivFloor(amount * SCALING_FACTOR, index)
  }

  function ScaledUp(amount: nat, index: Index): nat {
    DivCeil(amount * SCALING_FACTOR, index)
  }

  function UnderlyingDown(scaled: nat, index: Index): nat {
    MulFloor(scaled, index) / SCALING_FACTOR
  }

  function UnderlyingUp(scaled: nat, index: Index): nat {
    DivUp(MulFloor(scaled, index), SCALING_FACTOR)
  }

  // ---------- indexes ----------

  /** Simple interest over the elapsed time, each product rounded down. */
  function AppliedLinearInterest(index: Index, rate: nat, elapsed: nat): Index {
    GrowthNotBelow(index, MulDecimal(rate, FromRatio(elapsed, SECONDS_PER_YEAR)));
    MulDecimal(index, ONE + MulDecimal(rate, FromRatio(elapsed, SECONDS_PER_YEAR)))
  }

  lemma GrowthNotBelow(index: nat, factor: nat)
    ensures index <= MulDecimal(index, ONE + factor)
  {
    MulMonotone(ONE, ONE + factor, index);
    FloorMonotone(index * ONE, index * (ONE + factor), ONE);
    FloorAtMostSelf(index);
  }

  function UpdatedBorrowIndex(m: Market, now: nat): Index {
    if m.indexesLastUpdated < now && m.borrowRate > 0 then
      AppliedLinearInterest(m.borrowIndex, m.borrowRate, now - m.indexesLastUpdated)
    else
      m.borrowIndex
  }

  /** Unlike its borrow counterpart this refuses a time before the last update. */
  function UpdatedLiquidityIndex(m: Market, now: nat): Result<Index> {
    if m.indexesLastUpdated > now then Err(Overflow)
    else if m.indexesLastUpdated < now && m.liquidityRate > 0 then
      Ok(AppliedLinearInterest(m.liquidityIndex, m.liquidityRate, now - m.indexesLastUpdated))
    else
      Ok(m.liquidityIndex)
  }

  function ScaledLiquidity(amount: nat, m: Market, now: nat): Result<nat> {
    var index :- UpdatedLiquidityIndex(m, now);
    Ok(ScaledDown(amount, index))
  }

  function UnderlyingLiquidity(scaled: nat, m: Market, now: nat): Result<nat> {
    var index :- UpdatedLiquidityIndex(m, now);
    Ok(UnderlyingDown(scaled, index))
  }

  function ScaledDebt(amount: nat, m: Market, now: nat): nat {
    ScaledUp(amount, UpdatedBorrowIndex(m, now))
  }

  function UnderlyingDebt(scaled: nat, m: Market, now: nat): nat {
    UnderlyingUp(scaled, UpdatedBorrowIndex(m, now))
  }

  // ---------- accrual ----------

  /** The market after `apply_accumulated_interests` at time `now`. */
  function Accrued(m: Market, now: nat): Market {
    if m.indexesLastUpdated < now then
      var elapsed := now - m.indexesLastUpdated;
      m.(
      borrowIndex :=
        if m.borrowRate > 0 then AppliedLinearInterest(m.borrowIndex, m.borrowRate, elapsed) else m.borrowIndex,
      liquidityIndex :=
        if m.liquidityRate > 0 then AppliedLinearInterest(m.liquidityIndex, m.liquidityRate, elapsed)
        else m.liquidityIndex,
      indexesLastUpdated := now)
    else
      m
  }

  /** The protocol's share of the borrow interest accrued up to `now`, in underlying units. */
  function ProtocolRewards(m: Market, now: nat): nat {
    var before := UnderlyingUp(m.debtTotalScaled, m.borrowIndex);
    var after := UnderlyingUp(m.debtTotalScaled, Accrued(m, now).borrowIndex);
    MulFloor(if after > before then after - before else 0, m.reserveFactor)
  }

  /** The scaled amount minted for those rewards. */
  function RewardMint(m: Market, now: nat): nat {
    ScaledDown(ProtocolRewards(m, now), Accrued(m, now).liquidityIndex)
  }

  /** The market after `update_interest_rates`, given the cash held and the part of it that is
      about to leave. */
  function Repriced(m: Market, cash: nat, taken: nat, now: nat): Result<Market> {
    if cash < taken then Err(OperationExceedsAvailableLiquidity)
    else
      var utilization := Utilization(cash - taken, UnderlyingDebt(m.debtTotalScaled, m, now));
      var (borrowRate, model) :- NextBorrowRate(m.model, utilization, m.borrowRate, now);
      var liquidityRate :- LiquidityRate(borrowRate, utilization, m.reserveFactor);
      Ok(m.(borrowRate := borrowRate, model := model, liquidityRate := liquidityRate))
  }

  function Utilization(available: nat, debt: nat): nat {
    if debt > 0 then FromRatio(debt, available + debt) else 0
  }

  /** Applies interest to a market and reports what the protocol earned. */
  method ApplyAccumulatedInterests(market: Market, now: nat) returns (updated: Market, rewards: nat, minted: nat)
    ensures updated == Accrued(market, now)
    ensures rewards == ProtocolRewards(market, now)
    ensures minted == RewardMint(market, now)
  {
    updated := market;
    var previousBorrowIndex := market.borrowIndex;
    if updated.indexesLastUpdated < now {
      var elapsed := now - updated.indexesLastUpdated;
      if updated.borrowRate > 0 {
        updated := updated.(
        borrowIndex := AppliedLinearInterest(updated.borrowIndex, updated.borrowRate, elapsed));
      }
      if updated.liquidityRate > 0 {
        updated := updated.(
        liquidityIndex := AppliedLinearInterest(updated.liquidityIndex, updated.liquidityRate, elapsed));
      }
      updated := updated.(indexesLastUpdated := now);
    }
    var previousDebt := UnderlyingUp(updated.debtTotalScaled, previousBorrowIndex);
    var newDebt := UnderlyingUp(updated.debtTotalScaled, updated.borrowIndex);
    var interest: nat := 0;
    if newDebt > previousDebt {
      interest := newDebt - previousDebt;
    }
    rewards := MulFloor(interest, updated.reserveFactor);
    minted := ScaledDown(rewards, updated.liquidityIndex);
  }

  // ---------- properties of scaling ----------

  lemma ScaledDownBounds(amount: nat, index: Index)
    ensures ScaledDown(amount, index) * index <= amount * UNIT < ScaledDown(amount, index) * index + index
  {
    FloorBounds(amount * SCALING_FACTOR * ONE, index);
  }

  lemma ScaledUpBounds(amount: nat, index: Index)
    ensures amount * UNIT <= ScaledUp(amount, index) * index < amount * UNIT + index
  {
    CeilBounds(amount * SCALING_FACTOR * ONE, index);
  }

  lemma UnderlyingDownBounds(scaled: nat, index: Index)
    ensures UnderlyingDown(scaled, index) * UNIT <= scaled * index < (UnderlyingDown(scaled, index) + 1) * UNIT
  {
    FloorBounds(scaled * index, ONE);
    FloorBounds(MulFloor(scaled, index), SCALING_FACTOR);
  }

  lemma UnderlyingUpBounds(scaled: nat, index: Index)
    ensures UnderlyingUp(scaled, index) * UNIT > scaled * index - ONE
    ensures UnderlyingUp(scaled, index) * UNIT < scaled * index + UNIT
  {
    FloorBounds(scaled * index, ONE);
    CeilBounds(MulFloor(scaled, index), SCALING_FACTOR);
  }

  /** Scaling a deposit and reading it back loses at most one unit, up to an index of a million. */
  lemma LiquidityRoundTrip(amount: nat, index: Index)
    requires index <= UNIT
    ensures UnderlyingDown(ScaledDown(amount, index), index) <= amount <= UnderlyingDown(ScaledDown(amount, index), index) + 1
  {
    var scaled := ScaledDown(amount, index);
    ScaledDownBounds(amount, index);
    UnderlyingDownBounds(scaled, index);
    var back := UnderlyingDown(scaled, index);
  }

  /** Scaling a debt and reading it back adds at most one unit, up to an index of 999,999. */
  lemma DebtRoundTrip(amount: nat, index: Index)
    requires index <= UNIT - ONE
    ensures amount <= UnderlyingUp(ScaledUp(amount, index), index) <= amount + 1
  {
    var scaled := ScaledUp(amount, index);
    ScaledUpBounds(amount, index);
    var raw := MulFloor(scaled, index);
    FloorAtLeast(scaled * index, ONE, amount * SCALING_FACTOR);
    FloorBounds(scaled * index, ONE);
    CeilBounds(raw, SCALING_FACTOR);
    CeilAtMost(raw, SCALING_FACTOR, amount + 1);
  }

  /** Reading `scaled` back as underlying and scaling that much or less again cannot exceed `scaled`. */
  lemma RescaleDown(scaled: nat, index: Index, amount: nat)
    requires amount <= UnderlyingDown(scaled, index)
    ensures ScaledDown(amount, index) <= scaled
    ensures amount < UnderlyingDown(scaled, index) ==> ScaledDown(amount, index) < scaled
  {
    ScaledDownBounds(amount, index);
    UnderlyingDownBounds(scaled, index);
    CancelFactor(ScaledDown(amount, index), scaled, index);
  }

  /** Paying off at least one unit never makes a scaled debt larger, in spite of both roundings
      going up. */
  lemma RescaleUp(scaled: nat, index: Index, amount: nat)
    requires amount < UnderlyingUp(scaled, index)
    ensures ScaledUp(amount, index) <= scaled
  {
    ScaledUpBounds(amount, index);
    UnderlyingUpBounds(scaled, index);
    AddMultiples(scaled, 1, index);
    CancelFactor(ScaledUp(amount, index), scaled + 1, index);
  }

  /** A positive debt is worth at least one unit, and one unit of debt is never scaled to nothing. */
  lemma DebtNeverVanishes(scaled: nat, amount: nat, index: Index)
    ensures scaled > 0 ==> UnderlyingUp(scaled, index) > 0
    ensures amount > 0 ==> ScaledUp(amount, index) > 0
    ensures ScaledUp(0, index) == 0
  {
    ScaledUpBounds(amount, index);
    if scaled > 0 {
      MulMonotone(1, scaled, index);
      FloorAtLeast(scaled * index, ONE, 1);
      CeilBounds(MulFloor(scaled, index), SCALING_FACTOR);
    }
  }

  // ---------- properties of accrual ----------

  /** What a query previews is what accrual commits, and indexes never fall. */
  lemma PreviewEqualsCommit(m: Market, now: nat)
    ensures Accrued(m, now).borrowIndex == UpdatedBorrowIndex(m, now) >= m.borrowIndex
    ensures UpdatedLiquidityIndex(m, now).Ok? <==> m.indexesLastUpdated <= now
    ensures m.indexesLastUpdated <= now ==>
              && Accrued(m, now).liquidityIndex == UpdatedLiquidityIndex(m, now).value >= m.liquidityIndex
              && Accrued(m, now).indexesLastUpdated == now
  {
    if m.indexesLastUpdated < now {
      var elapsed := FromRatio(now - m.indexesLastUpdated, SECONDS_PER_YEAR);
      GrowthNotBelow(m.borrowIndex, MulDecimal(m.borrowRate, elapsed));
      GrowthNotBelow(m.liquidityIndex, MulDecimal(m.liquidityRate, elapsed));
    }
  }

  /** Once the indexes are up to date a further accrual in the same block changes nothing and mints
      nothing, whatever rates were set in between. */
  lemma AccrualIsIdempotent(m: Market, now: nat)
    requires m.indexesLastUpdated == now
    ensures Accrued(m, now) == m
    ensures UpdatedBorrowIndex(m, now) == m.borrowIndex
    ensures UpdatedLiquidityIndex(m, now) == Ok(m.liquidityIndex)
    ensures ProtocolRewards(m, now) == 0 && RewardMint(m, now) == 0
  {
    assert ScaledDown(0, m.liquidityIndex) == 0;
  }

  /** Repricing writes the two rates and the model's state, and nothing else. */
  lemma RepricedFrame(m: Market, cash: nat, taken: nat, now: nat)
    requires Repriced(m, cash, taken, now).Ok?
    ensures var r := Repriced(m, cash, taken, now).value;
            r == m.(borrowRate := r.borrowRate, liquidityRate := r.liquidityRate, model := r.model)
    ensures taken <= cash && m.reserveFactor <= ONE
  {
  }
}
