/** How interest grows and how the rates are set, between exact bounds on both sides. */
module RateMath {
  import opened Base
  import opened FixedPoint
  import opened RateModels
  import opened InterestRates

  // ---------- the indexes ----------

  /** The growth of an index over `elapsed` seconds at a yearly rate: simple interest, short of it by the
      roundings of the period, of the growth and of the index itself. */
  ghost predicate GrowsLinearly(index: nat, after: nat, rate: nat, elapsed: nat) {
    && after * (ONE * SECONDS_PER_YEAR) <= index * (ONE * SECONDS_PER_YEAR + rate * elapsed)
    && index * (ONE * (ONE * SECONDS_PER_YEAR + rate * elapsed))
       < after * (ONE * ONE * SECONDS_PER_YEAR) + index * ((rate + ONE) * SECONDS_PER_YEAR) + ONE * ONE * SECONDS_PER_YEAR
  }

  /** `period` years, rounded down, at `rate`. */
  lemma GrowthBounds(rate: nat, elapsed: nat, period: nat, growth: nat)
    requires period == FromRatio(elapsed, SECONDS_PER_YEAR) && growth == MulDecimal(rate, period)
    ensures growth * SECONDS_PER_YEAR <= rate * elapsed
    ensures ONE * (rate * elapsed) < growth * (ONE * SECONDS_PER_YEAR) + (rate + ONE) * SECONDS_PER_YEAR
  {
    FloorBounds(elapsed * ONE, SECONDS_PER_YEAR);
    FloorBounds(rate * period, ONE);
    GrowthFromBounds(rate, elapsed, period, growth);
  }

  lemma GrowthFromBounds(rate: nat, elapsed: nat, period: nat, growth: nat)
    requires period * SECONDS_PER_YEAR <= elapsed * ONE < period * SECONDS_PER_YEAR + SECONDS_PER_YEAR
    requires growth * ONE <= rate * period < growth * ONE + ONE
    ensures growth * SECONDS_PER_YEAR <= rate * elapsed
    ensures ONE * (rate * elapsed) < growth * (ONE * SECONDS_PER_YEAR) + (rate + ONE) * SECONDS_PER_YEAR
  {
    MulMonotone(period * SECONDS_PER_YEAR, elapsed * ONE, rate);
    assert (period * SECONDS_PER_YEAR) * rate == (rate * period) * SECONDS_PER_YEAR;
    assert (elapsed * ONE) * rate == (rate * elapsed) * ONE;
    MulMonotone(elapsed * ONE, period * SECONDS_PER_YEAR + SECONDS_PER_YEAR, rate);
    AddMultiples(period * SECONDS_PER_YEAR, SECONDS_PER_YEAR, rate);
  }

  lemma AppliedIsLinear(index: Index, rate: nat, elapsed: nat)
    ensures GrowsLinearly(index, AppliedLinearInterest(index, rate, elapsed), rate, elapsed)
  {
    var period := FromRatio(elapsed, SECONDS_PER_YEAR);
    var growth := MulDecimal(rate, period);
    GrowthBounds(rate, elapsed, period, growth);
    FloorBounds(index * (ONE + growth), ONE);
    LinearFromGrowth(index, MulDecimal(index, ONE + growth), rate * elapsed, growth, rate);
  }

  lemma LinearFromGrowth(index: nat, after: nat, interest: nat, growth: nat, rate: nat)
    requires growth * SECONDS_PER_YEAR <= interest
    requires ONE * interest < growth * (ONE * SECONDS_PER_YEAR) + (rate + ONE) * SECONDS_PER_YEAR
    requires after * ONE <= index * (ONE + growth) < after * ONE + ONE
    ensures after * (ONE * SECONDS_PER_YEAR) <= index * (ONE * SECONDS_PER_YEAR + interest)
    ensures index * (ONE * (ONE * SECONDS_PER_YEAR + interest))
            < after * (ONE * ONE * SECONDS_PER_YEAR) + index * ((rate + ONE) * SECONDS_PER_YEAR)
              + ONE * ONE * SECONDS_PER_YEAR
  {
    MulMonotone(growth * SECONDS_PER_YEAR, interest, index);
    MulMonotone(ONE * interest, growth * (ONE * SECONDS_PER_YEAR) + (rate + ONE) * SECONDS_PER_YEAR, index);
    AddMultiples(ONE, growth, index);
    AddMultiples(growth * (ONE * SECONDS_PER_YEAR), (rate + ONE) * SECONDS_PER_YEAR, index);
  }

  lemma UnchangedIsLinear(index: nat, rate: nat, elapsed: nat)
    requires rate * elapsed == 0
    ensures GrowsLinearly(index, index, rate, elapsed)
  {
  }

  lemma IndexGrows(index: Index, rate: nat, elapsed: nat) returns (after: Index)
    ensures after == if elapsed > 0 && rate > 0 then AppliedLinearInterest(index, rate, elapsed) else index
    ensures GrowsLinearly(index, after, rate, elapsed)
  {
    if elapsed > 0 && rate > 0 {
      after := AppliedLinearInterest(index, rate, elapsed);
      AppliedIsLinear(index, rate, elapsed);
    } else {
      after := index;
      UnchangedIsLinear(index, rate, elapsed);
    }
  }

  /** Accrual grows each index by its own rate for the time since the last update, and changes nothing
      else. */
  lemma AccruedIsLinear(m: Market, now: nat) returns (elapsed: nat, borrowIndex: Index, liquidityIndex: Index)
    ensures elapsed == if m.indexesLastUpdated < now then now - m.indexesLastUpdated else 0
    ensures GrowsLinearly(m.borrowIndex, borrowIndex, m.borrowRate, elapsed)
    ensures GrowsLinearly(m.liquidityIndex, liquidityIndex, m.liquidityRate, elapsed)
    ensures Accrued(m, now) == m.(borrowIndex := borrowIndex, liquidityIndex := liquidityIndex,
                                  indexesLastUpdated := m.indexesLastUpdated + elapsed)
  {
    elapsed := if m.indexesLastUpdated < now then now - m.indexesLastUpdated else 0;
    borrowIndex := IndexGrows(m.borrowIndex, m.borrowRate, elapsed);
    liquidityIndex := IndexGrows(m.liquidityIndex, m.liquidityRate, elapsed);
  }

  // ---------- the protocol's share ----------

  /** The protocol is due the reserve factor's share of the growth of the whole debt, rounded down, and is
      minted what that is worth at the accrued index, rounded down. */
  lemma RewardsAreTheShare(m: Market, now: nat) returns (interest: int, rewards: nat, minted: nat)
    ensures rewards == ProtocolRewards(m, now) && minted == RewardMint(m, now)
    ensures interest == UnderlyingUp(m.debtTotalScaled, Accrued(m, now).borrowIndex)
                        - UnderlyingUp(m.debtTotalScaled, m.borrowIndex)
    ensures interest >= 0
    ensures rewards * ONE <= interest * m.reserveFactor < rewards * ONE + ONE
    ensures var index := Accrued(m, now).liquidityIndex;
            minted * index <= rewards * UNIT < minted * index + index
  {
    PreviewEqualsCommit(m, now);
    var before, after := m.borrowIndex, Accrued(m, now).borrowIndex;
    DebtGrowsWithIndex(m.debtTotalScaled, before, after);
    interest := UnderlyingUp(m.debtTotalScaled, after) - UnderlyingUp(m.debtTotalScaled, before);
    rewards := ProtocolRewards(m, now);
    minted := RewardMint(m, now);
    FloorBounds(interest * m.reserveFactor, ONE);
    ScaledDownBounds(rewards, Accrued(m, now).liquidityIndex);
  }

  lemma DebtGrowsWithIndex(scaled: nat, index: Index, later: Index)
    requires index <= later
    ensures UnderlyingUp(scaled, index) <= UnderlyingUp(scaled, later)
  {
    MulFloorMonotoneRate(scaled, index, later);
    CeilBounds(MulFloor(scaled, later), SCALING_FACTOR);
    CeilAtMost(MulFloor(scaled, index), SCALING_FACTOR, UnderlyingUp(scaled, later));
  }

  // ---------- the liquidity rate ----------

  /** Depositors earn the borrow rate on what is utilized, less the protocol's share, short of it by less
      than two steps of a decimal. It is refused exactly for a share above one. */
  lemma LiquidityRateBounds(borrowRate: nat, utilization: nat, reserveFactor: nat)
    ensures LiquidityRate(borrowRate, utilization, reserveFactor).Ok? <==> reserveFactor <= ONE
    ensures reserveFactor <= ONE ==>
              var rate := LiquidityRate(borrowRate, utilization, reserveFactor).value;
              rate * ONE * ONE <= borrowRate * utilization * (ONE - reserveFactor) < (rate + 2) * ONE * ONE
  {
    if reserveFactor <= ONE {
      var part := MulDecimal(borrowRate, utilization);
      var left: nat := ONE - reserveFactor;
      FloorBounds(borrowRate * utilization, ONE);
      FloorBounds(part * left, ONE);
      MulMonotone(part * ONE, borrowRate * utilization, left);
      MulMonotone(borrowRate * utilization, part * ONE + ONE, left);
      AddMultiples(part * ONE, ONE, left);
      assert (part * ONE) * left == (part * left) * ONE;
      MulMonotone(left, ONE, ONE);
    }
  }

  // ---------- the dynamic model ----------

  /** What the controller moves the rate by: its constant times the distance from the optimum, rounded
      down, and the greater constant from the threshold on. */
  ghost predicate IsStep(p: DynamicParams, utilization: nat, step: nat) {
    var distance :=
      if utilization < p.optimalUtilizationRate then p.optimalUtilizationRate - utilization
      else utilization - p.optimalUtilizationRate;
    var kp := if distance < p.kpAugmentationThreshold then p.kp1 else p.kp2;
    step * ONE <= kp * distance < step * ONE + ONE
  }

  /** Below the optimum the rate falls by the step, at or above it rises by the step, but not out of the
      bounds. */
  lemma DynamicRateIsControlled(p: DynamicParams, utilization: nat, current: nat) returns (step: nat)
    requires DynamicModelParams(p).Valid()
    ensures IsStep(p, utilization, step)
    ensures var wanted := if utilization < p.optimalUtilizationRate then current - step else current + step;
            var rate := DynamicBorrowRate(p, utilization, current);
            && p.minBorrowRate <= rate <= p.maxBorrowRate
            && (p.minBorrowRate <= wanted <= p.maxBorrowRate ==> rate == wanted)
            && (wanted < p.minBorrowRate ==> rate == p.minBorrowRate)
            && (wanted > p.maxBorrowRate ==> rate == p.maxBorrowRate)
  {
    var distance: nat :=
      if utilization < p.optimalUtilizationRate then p.optimalUtilizationRate - utilization
      else utilization - p.optimalUtilizationRate;
    var kp := if distance < p.kpAugmentationThreshold then p.kp1 else p.kp2;
    step := MulDecimal(kp, distance);
    FloorBounds(kp * distance, ONE);
  }

  /** The rate is due for a move after enough transactions or enough time, and never twice in a block. */
  lemma DynamicRateIsDue(p: DynamicParams, txs: nat, last: nat, utilization: nat, current: nat, now: nat)
    requires last <= now
    ensures var r := NextBorrowRate(Dynamic(p, txs, last), utilization, current, now);
            r == if now > last && (txs + 1 >= p.updateThresholdTxs || now >= last + p.updateThresholdSeconds) then
                   Ok((DynamicBorrowRate(p, utilization, current), Dynamic(p, 0, now)))
                 else Ok((current, Dynamic(p, txs + 1, last)))
  {
  }

  // ---------- the linear model ----------

  /** `rate` is `slope * part / whole` in units of one, short of it by its two roundings. */
  ghost predicate OnSlope(rate: nat, slope: nat, part: nat, whole: nat) {
    rate * whole <= slope * part && ONE * (slope * part) < ONE * (rate * whole + whole) + slope * whole + ONE * ONE
  }

  lemma FirstSlope(slope: nat, utilization: nat, best: nat)
    requires best > 0
    ensures OnSlope(MulDecimal(slope, DivDecimal(utilization, best)), slope, utilization, best)
  {
    var x := DivDecimal(utilization, best);
    var rate := MulDecimal(slope, x);
    FloorBounds(utilization * ONE, best);
    FloorBounds(slope * x, ONE);
    FirstSlopeFromBounds(slope, utilization, best, x, rate);
  }

  lemma FirstSlopeFromBounds(slope: nat, utilization: nat, best: nat, x: nat, rate: nat)
    requires x * best <= utilization * ONE < x * best + best
    requires rate * ONE <= slope * x < rate * ONE + ONE
    ensures OnSlope(rate, slope, utilization, best)
  {
    MulMonotone(x * best, utilization * ONE, slope);
    MulMonotone(utilization * ONE, x * best + best, slope);
    MulMonotone(rate * ONE, slope * x, best);
    MulMonotone(slope * x, rate * ONE + ONE, best);
    assert (x * best) * slope == (slope * x) * best;
    assert (utilization * ONE) * slope == ONE * (slope * utilization);
    assert (rate * ONE) * best == ONE * (rate * best);
    AddMultiples(x * best, best, slope);
    AddMultiples(rate * ONE, ONE, best);
  }

  lemma SecondSlope(slope: nat, excess: nat, rest: nat)
    requires rest > 0
    ensures OnSlope(DivDecimal(MulDecimal(slope, excess), rest), slope, excess, rest)
  {
    var y := MulDecimal(slope, excess);
    FloorBounds(slope * excess, ONE);
    FloorBounds(y * ONE, rest);
  }

  /** With a validated optimum a rate is found for every utilization: up to the optimum it rises from the
      base along the first slope, beyond it along the second from where the first ends. */
  lemma LinearRateFollows(p: LinearParams, utilization: nat) returns (rise: nat)
    requires LinearModelParams(p).Valid() && utilization <= ONE
    ensures utilization <= p.optimalUtilizationRate ==>
              && LinearBorrowRate(p, utilization) == Ok(p.base + rise)
              && (utilization == 0 ==> rise == 0)
              && (utilization > 0 ==> OnSlope(rise, p.slope1, utilization, p.optimalUtilizationRate))
    ensures utilization > p.optimalUtilizationRate ==>
              && LinearBorrowRate(p, utilization) == Ok(p.base + p.slope1 + rise)
              && OnSlope(rise, p.slope2, utilization - p.optimalUtilizationRate, ONE - p.optimalUtilizationRate)
  {
    var best := p.optimalUtilizationRate;
    if utilization > best {
      rise := DivDecimal(MulDecimal(p.slope2, utilization - best), ONE - best);
      SecondSlope(p.slope2, utilization - best, ONE - best);
    } else if utilization > 0 {
      rise := MulDecimal(p.slope1, DivDecimal(utilization, best));
      FirstSlope(p.slope1, utilization, best);
    } else {
      rise := 0;
    }
  }

  // ---------- repricing ----------

  /** New rates follow from the utilization once `taken` has left: what is owed over what is owed and held. */
  lemma RepricedFollows(m: Market, cash: nat, taken: nat, now: nat, after: Market) returns (utilization: nat, debt: nat)
    requires Repriced(m, cash, taken, now) == Ok(after)
    ensures taken <= cash && debt == UnderlyingUp(m.debtTotalScaled, UpdatedBorrowIndex(m, now))
    ensures debt == 0 ==> utilization == 0
    ensures utilization <= ONE
    ensures var whole := cash - taken + debt;
            debt > 0 ==> utilization * whole <= debt * ONE < utilization * whole + whole
    ensures NextBorrowRate(m.model, utilization, m.borrowRate, now) == Ok((after.borrowRate, after.model))
    ensures LiquidityRate(after.borrowRate, utilization, m.reserveFactor) == Ok(after.liquidityRate)
    ensures after == m.(borrowRate := after.borrowRate, liquidityRate := after.liquidityRate, model := after.model)
  {
    debt := UnderlyingDebt(m.debtTotalScaled, m, now);
    utilization := Utilization(cash - taken, debt);
    if debt > 0 {
      FloorBounds(debt * ONE, cash - taken + debt);
      MulMonotone(debt, cash - taken + debt, ONE);
      FloorBelow(debt * ONE, cash - taken + debt, ONE + 1);
    }
  }
}
