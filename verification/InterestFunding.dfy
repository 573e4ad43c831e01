/** Interest credited to depositors and the protocol against interest charged to borrowers. */
module InterestFunding {
  import opened Base
  import opened FixedPoint
  import opened RateModels
  import opened InterestRates
  import opened Position
  import opened MarketSurplus

  function DebtValue(b: Book): nat {
    b.market.debtTotalScaled * b.market.borrowIndex
  }

  function Claims(b: Book): nat {
    b.token.supply * b.market.liquidityIndex
  }

  /** The rates were set by the utilization of at least the cash that is there now. */
  ghost predicate Priced(b: Book) {
    exists available: nat :: b.cash <= available && PricedFor(b, available)
  }

  predicate PricedFor(b: Book, available: nat) {
    var debt := UnderlyingUp(b.market.debtTotalScaled, b.market.borrowIndex);
    LiquidityRate(b.market.borrowRate, Utilization(available, debt), b.market.reserveFactor) == Ok(b.market.liquidityRate)
  }

  /** What is credited on all claims is at most the depositors' part of what is charged on the debt, on
      one unit more, and on a deficit of at most `slack`. */
  predicate Funded(b: Book, slack: nat) {
    && b.market.reserveFactor <= ONE
    && b.market.liquidityRate * Claims(b) * ONE
       <= b.market.borrowRate * (ONE - b.market.reserveFactor) * (DebtValue(b) + UNIT + slack)
  }

  // ---------- the rates that are set are funded ----------

  /** The utilized part of all claims is at most the debt, a unit and the deficit. */
  lemma UtilizedClaims(available: nat, debt: nat, debtValue: nat, claims: nat, slack: nat)
    requires debtValue < debt * UNIT + ONE
    requires debt * UNIT < debtValue + UNIT
    requires claims <= available * UNIT + debtValue + slack
    ensures Utilization(available, debt) * claims <= ONE * (debtValue + UNIT + ONE + slack)
  {
    var u := Utilization(available, debt);
    if debt > 0 {
      FloorBounds(debt * ONE, available + debt);
      assert u * (available + debt) <= debt * ONE;
      FloorBelow(debt * ONE, available + debt, ONE + 1);
      var rest := ONE + slack;
      assert claims <= (available + debt) * UNIT + rest;
      MulMonotone(claims, (available + debt) * UNIT + rest, u);
      assert ((available + debt) * UNIT + rest) * u == (u * (available + debt)) * UNIT + rest * u;
      MulMonotone(u, ONE, rest);
    }
  }

  /** Two roundings down of the liquidity rate. */
  lemma LiquidityRateBound(borrowRate: nat, u: nat, share: nat)
    ensures MulDecimal(MulDecimal(borrowRate, u), share) * ONE * ONE <= borrowRate * u * share
  {
    var x := MulDecimal(borrowRate, u);
    FloorBounds(borrowRate * u, ONE);
    FloorBounds(x * share, ONE);
    MulMonotone(x * ONE, borrowRate * u, share);
    assert (x * share) * ONE == (x * ONE) * share;
  }

  lemma ProductOfBounds(rate: nat, claims: nat, borrowRate: nat, u: nat, share: nat, value: nat)
    requires rate * ONE * ONE <= borrowRate * u * share
    requires u * claims <= ONE * value
    ensures rate * claims * ONE <= borrowRate * share * value
  {
    MulMonotone(rate * ONE * ONE, borrowRate * u * share, claims);
    MulMonotone(u * claims, ONE * value, borrowRate * share);
    assert (borrowRate * u * share) * claims == (u * claims) * (borrowRate * share);
    assert (ONE * value) * (borrowRate * share) == (borrowRate * share * value) * ONE;
    assert (rate * ONE * ONE) * claims == (rate * claims * ONE) * ONE;
  }

  /** A market whose surplus is no lower than `-slack` when its rates are set has them funded. */
  lemma PricedIsFunded(b: Book, slack: nat)
    requires Priced(b)
    requires Stored(b) >= -(slack as int)
    ensures Funded(b, ONE + slack)
  {
    var available: nat :| b.cash <= available && PricedFor(b, available);
    var debt := UnderlyingUp(b.market.debtTotalScaled, b.market.borrowIndex);
    var u := Utilization(available, debt);
    var share := ONE - b.market.reserveFactor;
    UnderlyingUpBounds(b.market.debtTotalScaled, b.market.borrowIndex);
    UtilizedClaims(available, debt, DebtValue(b), Claims(b), slack);
    LiquidityRateBound(b.market.borrowRate, u, share);
    ProductOfBounds(b.market.liquidityRate, Claims(b), b.market.borrowRate, u, share,
                    DebtValue(b) + UNIT + ONE + slack);
  }

  /** Funds that suffice in spite of a deficit suffice for a larger allowance. */
  lemma FundedWithMore(b: Book, slack: nat, more: nat)
    requires Funded(b, slack) && slack <= more
    ensures Funded(b, more)
  {
    MulMonotone(DebtValue(b) + UNIT + slack, DebtValue(b) + UNIT + more,
                b.market.borrowRate * (ONE - b.market.reserveFactor));
  }

  // ---------- growth over a period ----------

  /** How an index grows by simple interest, within its two roundings. */
  lemma IndexGrowth(index: Index, rate: nat, elapsed: nat)
    ensures var period := FromRatio(elapsed, SECONDS_PER_YEAR);
            var grown := AppliedLinearInterest(index, rate, elapsed);
            && (grown - index) * ONE * ONE <= index * rate * period
            && (grown - index) * ONE * ONE + index * ONE + ONE * ONE >= index * rate * period
  {
    var period := FromRatio(elapsed, SECONDS_PER_YEAR);
    var factor := MulDecimal(rate, period);
    var grown := AppliedLinearInterest(index, rate, elapsed);
    FloorBounds(rate * period, ONE);
    FloorBounds(index * (ONE + factor), ONE);
    assert index * (ONE + factor) == index * ONE + index * factor;
    assert (grown - index) * ONE <= index * factor;
    assert (grown - index) * ONE > index * factor - ONE;
    MulMonotone(factor * ONE, rate * period, index);
    assert (index * factor) * ONE == (factor * ONE) * index;
    MulMonotone(rate * period, factor * ONE + ONE, index);
    assert (rate * period) * index == index * rate * period;
    assert (factor * ONE + ONE) * index == (index * factor) * ONE + index * ONE;
  }

  /** What borrowers are charged. */
  lemma DebtGrowth(scaled: nat, index: Index, rate: nat, elapsed: nat)
    ensures var period := FromRatio(elapsed, SECONDS_PER_YEAR);
            var growth := scaled * (AppliedLinearInterest(index, rate, elapsed) - index);
            growth * ONE * ONE + scaled * index * ONE + scaled * ONE * ONE >= scaled * index * rate * period
  {
    var period := FromRatio(elapsed, SECONDS_PER_YEAR);
    var d := AppliedLinearInterest(index, rate, elapsed) - index;
    IndexGrowth(index, rate, elapsed);
    MulMonotone(index * rate * period, d * ONE * ONE + index * ONE + ONE * ONE, scaled);
    assert (d * ONE * ONE + index * ONE + ONE * ONE) * scaled
        == (scaled * d) * ONE * ONE + (scaled * index) * ONE + scaled * ONE * ONE;
    assert (index * rate * period) * scaled == scaled * index * rate * period;
  }

  /** What depositors are credited. */
  lemma ClaimsGrowth(scaled: nat, index: Index, rate: nat, elapsed: nat)
    ensures var period := FromRatio(elapsed, SECONDS_PER_YEAR);
            var growth := scaled * (AppliedLinearInterest(index, rate, elapsed) - index);
            growth * ONE * ONE <= rate * (scaled * index) * period
  {
    var period := FromRatio(elapsed, SECONDS_PER_YEAR);
    var d := AppliedLinearInterest(index, rate, elapsed) - index;
    IndexGrowth(index, rate, elapsed);
    MulMonotone(d * ONE * ONE, index * rate * period, scaled);
    assert (d * ONE * ONE) * scaled == (scaled * d) * ONE * ONE;
    assert (index * rate * period) * scaled == rate * (scaled * index) * period;
  }

  /** Two roundings up may overstate the interest on a debt by a unit and a bit. */
  lemma InterestRead(scaled: nat, index: Index, grown: Index)
    requires index <= grown
    ensures (UnderlyingUp(scaled, grown) - UnderlyingUp(scaled, index)) * UNIT
            <= scaled * (grown - index) + UNIT + ONE
  {
    DifferenceOfProducts(grown, index, scaled);
    UnderlyingUpBounds(scaled, index);
    UnderlyingUpBounds(scaled, grown);
  }

  lemma RewardRead(interest: nat, reserve: nat, index: Index, bound: nat)
    requires interest * UNIT <= bound
    ensures ScaledDown(MulFloor(interest, reserve), index) * index * ONE <= bound * reserve
  {
    var rewards := MulFloor(interest, reserve);
    FloorBounds(interest * reserve, ONE);
    ScaledDownBounds(rewards, index);
    MulMonotone(interest * UNIT, bound, reserve);
    assert (interest * UNIT) * reserve == (interest * reserve) * UNIT;
  }

  /** The most a period of interest can take from a market's surplus, in units of UNIT * ONE * ONE: the
      roundings of the borrow index, interest on one unit and on the deficit, and a unit and a bit of
      overstated rewards. */
  function InterestLoss(b: Book, slack: nat, now: nat): nat {
    if now <= b.market.indexesLastUpdated then 0
    else
      var period := FromRatio(now - b.market.indexesLastUpdated, SECONDS_PER_YEAR);
      DebtValue(b) * ONE + b.market.debtTotalScaled * ONE * ONE
      + b.market.borrowRate * (UNIT + slack) * period + (UNIT + ONE) * ONE * ONE
  }

  /** Depositors get at most their share of what is charged, roundings included, and of the extra. */
  lemma CreditedShare(credited: nat, share: nat, value: nat, rate: nat, period: nat, slack: nat, charges: nat)
    requires credited * ONE * ONE * ONE <= rate * share * (value + UNIT + slack) * period
    requires value * rate * period <= charges
    ensures credited * ONE * ONE * ONE <= charges * share + (rate * (UNIT + slack) * period) * share
  {
    assert value + UNIT + slack == value + (UNIT + slack);
    Expand(rate, share, value, UNIT + slack, period);
    MulMonotone(value * rate * period, charges, share);
  }

  /** The protocol keeps at most its share of what is charged and of a bit. */
  lemma KeptShare(kept: nat, charged: nat, reserve: nat, charges: nat)
    requires kept * ONE <= (charged + UNIT + ONE) * reserve
    requires charged * ONE * ONE <= charges
    ensures kept * ONE * ONE * ONE <= charges * reserve + ((UNIT + ONE) * ONE * ONE) * reserve
  {
    MulMonotone(charged * ONE * ONE, charges, reserve);
    AddMultiples(charged, UNIT + ONE, reserve);
    assert (charged * ONE * ONE) * reserve == (charged * reserve) * ONE * ONE;
  }

  lemma SharesOfCharges(charges: nat, charged: nat, credited: nat, kept: nat, value: nat, rate: nat, period: nat,
                        reserve: nat, slack: nat)
    requires reserve <= ONE
    requires value * rate * period <= charges && charged * ONE * ONE <= charges
    requires credited * ONE * ONE * ONE <= rate * (ONE - reserve) * (value + UNIT + slack) * period
    requires kept * ONE <= (charged + UNIT + ONE) * reserve
    ensures credited * ONE * ONE + kept * ONE * ONE
            <= charges + rate * (UNIT + slack) * period + (UNIT + ONE) * ONE * ONE
  {
    var extra: nat := rate * (UNIT + slack) * period;
    CreditedShare(credited, ONE - reserve, value, rate, period, slack, charges);
    KeptShare(kept, charged, reserve, charges);
    SharesAddUp(credited * ONE * ONE, kept * ONE * ONE, ONE - reserve, reserve, charges, extra, (UNIT + ONE) * ONE * ONE);
  }

  lemma SharesAddUp(credited: nat, kept: nat, share: nat, reserve: nat, charges: nat, extra: nat, bit: nat)
    requires share + reserve == ONE
    requires credited * ONE <= charges * share + extra * share
    requires kept * ONE <= charges * reserve + bit * reserve
    ensures credited + kept <= charges + extra + bit
  {
    MulMonotone(share, ONE, extra);
    MulMonotone(reserve, ONE, bit);
    assert charges * share + charges * reserve == charges * ONE;
  }

  /** The three flows of a period combined. `charged`, `credited` and `kept` are what borrowers are
      charged, depositors credited and the protocol given. */
  lemma FlowsBalance(charged: nat, credited: nat, kept: nat, value: nat, scaled: nat, rate: nat, period: nat,
                     reserve: nat, slack: nat)
    requires reserve <= ONE
    requires charged * ONE * ONE + value * ONE + scaled * ONE * ONE >= value * rate * period
    requires credited * ONE * ONE * ONE <= rate * (ONE - reserve) * (value + UNIT + slack) * period
    requires kept * ONE <= (charged + UNIT + ONE) * reserve
    ensures credited * ONE * ONE + kept * ONE * ONE
            <= charged * ONE * ONE + value * ONE + scaled * ONE * ONE + rate * (UNIT + slack) * period
               + (UNIT + ONE) * ONE * ONE
  {
    var charges: nat := charged * ONE * ONE + value * ONE + scaled * ONE * ONE;
    SharesOfCharges(charges, charged, credited, kept, value, rate, period, reserve, slack);
  }

  lemma Expand(rate: nat, share: nat, value: nat, more: nat, period: nat)
    ensures rate * share * (value + more) * period == share * (value * rate * period) + share * (rate * more * period)
  {
    assert rate * share * (value + more) == rate * share * value + rate * share * more;
    assert (rate * share * value) * period == share * (value * rate * period);
    assert (rate * share * more) * period == share * (rate * more * period);
  }

  // ---------- the flows of one market ----------

  function Charged(b: Book, now: nat): nat {
    PreviewEqualsCommit(b.market, now);
    b.market.debtTotalScaled * (Accrued(b.market, now).borrowIndex - b.market.borrowIndex)
  }

  function Credited(b: Book, now: nat): nat
    requires b.market.indexesLastUpdated <= now
  {
    PreviewEqualsCommit(b.market, now);
    b.token.supply * (Accrued(b.market, now).liquidityIndex - b.market.liquidityIndex)
  }

  function Kept(b: Book, now: nat): nat {
    RewardMint(b.market, now) * Accrued(b.market, now).liquidityIndex
  }

  function Period(b: Book, now: nat): nat
    requires b.market.indexesLastUpdated <= now
  {
    FromRatio(now - b.market.indexesLastUpdated, SECONDS_PER_YEAR)
  }

  /** A rate of zero, which accrual skips, would have left the index as it is. */
  lemma RateZeroKeepsIndex(index: Index, elapsed: nat)
    ensures AppliedLinearInterest(index, 0, elapsed) == index
  {
    var factor := MulDecimal(0, FromRatio(elapsed, SECONDS_PER_YEAR));
    assert factor == 0;
    FloorAtMostSelf(index);
  }

  lemma AccruedIndexes(m: Market, now: nat)
    requires m.indexesLastUpdated < now
    ensures Accrued(m, now).borrowIndex
         == AppliedLinearInterest(m.borrowIndex, m.borrowRate, now - m.indexesLastUpdated)
    ensures Accrued(m, now).liquidityIndex
         == AppliedLinearInterest(m.liquidityIndex, m.liquidityRate, now - m.indexesLastUpdated)
  {
    RateZeroKeepsIndex(m.borrowIndex, now - m.indexesLastUpdated);
    RateZeroKeepsIndex(m.liquidityIndex, now - m.indexesLastUpdated);
  }

  lemma ChargedBound(b: Book, now: nat)
    requires b.market.indexesLastUpdated < now
    ensures Charged(b, now) * ONE * ONE + DebtValue(b) * ONE + b.market.debtTotalScaled * ONE * ONE
            >= DebtValue(b) * b.market.borrowRate * Period(b, now)
  {
    var m := b.market;
    AccruedIndexes(m, now);
    DebtGrowth(m.debtTotalScaled, m.borrowIndex, m.borrowRate, now - m.indexesLastUpdated);
  }

  lemma CreditedBound(b: Book, slack: nat, now: nat)
    requires Funded(b, slack)
    requires b.market.indexesLastUpdated < now
    ensures Credited(b, now) * ONE * ONE * ONE
            <= b.market.borrowRate * (ONE - b.market.reserveFactor) * (DebtValue(b) + UNIT + slack) * Period(b, now)
  {
    var m := b.market;
    AccruedIndexes(m, now);
    ClaimsGrowth(b.token.supply, m.liquidityIndex, m.liquidityRate, now - m.indexesLastUpdated);
    ScaleFunding(Credited(b, now) * ONE * ONE, m.liquidityRate * Claims(b),
                 m.borrowRate * (ONE - m.reserveFactor) * (DebtValue(b) + UNIT + slack), Period(b, now));
  }

  lemma ScaleFunding(growth: nat, credit: nat, funds: nat, period: nat)
    requires growth <= credit * period
    requires credit * ONE <= funds
    ensures growth * ONE <= funds * period
  {
    MulMonotone(credit * ONE, funds, period);
    assert (credit * ONE) * period == (credit * period) * ONE;
  }

  lemma KeptBound(b: Book, now: nat)
    requires b.market.indexesLastUpdated <= now
    ensures Kept(b, now) * ONE <= (Charged(b, now) + UNIT + ONE) * b.market.reserveFactor
  {
    var m, after := b.market, Accrued(b.market, now);
    PreviewEqualsCommit(m, now);
    InterestRead(m.debtTotalScaled, m.borrowIndex, after.borrowIndex);
    var before, later := UnderlyingUp(m.debtTotalScaled, m.borrowIndex), UnderlyingUp(m.debtTotalScaled, after.borrowIndex);
    RewardRead(if later > before then later - before else 0, m.reserveFactor, after.liquidityIndex,
               Charged(b, now) + UNIT + ONE);
  }

  lemma FlowsAddUp(debt: nat, borrowIndex: nat, grownBorrow: nat, supply: nat, minted: nat, index: nat, grown: nat)
    requires borrowIndex <= grownBorrow && index <= grown
    ensures debt * grownBorrow - (supply + minted) * grown
         == debt * borrowIndex - supply * index
            + debt * (grownBorrow - borrowIndex) - supply * (grown - index) - minted * grown
  {
    DifferenceOfProducts(grownBorrow, borrowIndex, debt);
    DifferenceOfProducts(grown, index, supply);
    AddMultiples(supply, minted, grown);
  }

  lemma SurplusByFlows(b: Book, now: nat)
    requires b.market.indexesLastUpdated <= now
    ensures Surplus(b, now) == Stored(b) + Charged(b, now) - Credited(b, now) - Kept(b, now)
  {
    var m, after := b.market, Accrued(b.market, now);
    PreviewEqualsCommit(m, now);
    FlowsAddUp(m.debtTotalScaled, m.borrowIndex, after.borrowIndex, b.token.supply, RewardMint(m, now),
               m.liquidityIndex, after.liquidityIndex);
  }

  /** Time alone: from the moment the indexes were last updated until `now`, a market with funded rates
      loses no more than the roundings counted above. */
  lemma TimeCostsOnlyRounding(b: Book, slack: nat, now: nat)
    requires Funded(b, slack)
    requires b.market.indexesLastUpdated <= now
    ensures Surplus(b, now) * ONE * ONE >= Stored(b) * ONE * ONE - InterestLoss(b, slack, now)
  {
    if b.market.indexesLastUpdated == now {
      SurplusWhenCurrent(b, now);
    } else {
      ChargedBound(b, now);
      CreditedBound(b, slack, now);
      KeptBound(b, now);
      FlowsBalance(Charged(b, now), Credited(b, now), Kept(b, now), DebtValue(b), b.market.debtTotalScaled,
                   b.market.borrowRate, Period(b, now), b.market.reserveFactor, slack);
      SurplusByFlows(b, now);
      FlowsFitLoss(Surplus(b, now), Stored(b), Charged(b, now), Credited(b, now), Kept(b, now), InterestLoss(b, slack, now));
    }
  }

  lemma FlowsFitLoss(after: int, before: int, charged: nat, credited: nat, kept: nat, loss: nat)
    requires after == before + charged - credited - kept
    requires credited * ONE * ONE + kept * ONE * ONE <= charged * ONE * ONE + loss
    ensures after * ONE * ONE >= before * ONE * ONE - loss
  {
  }
}
