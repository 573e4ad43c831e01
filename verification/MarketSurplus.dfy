/** What a market owns against what it owes, message by message. */
module MarketSurplus {
  import opened Base
  import opened FixedPoint
  import opened InterestRates
  import opened MaToken
  import opened Position
  import opened Ledger
  import opened Invariants
  import opened Runs

  /** Cash plus debt less the claims of token holders, at the stored indexes. One underlying unit
      counts UNIT. */
  function Stored(b: Book): int {
    b.cash * UNIT + b.market.debtTotalScaled * b.market.borrowIndex - b.token.supply * b.market.liquidityIndex
  }

  /** The same at the indexes in force once interest is accrued at `now`, the protocol's share of it
      included among the claims. */
  function Surplus(b: Book, now: nat): int {
    var m := Accrued(b.market, now);
    b.cash * UNIT + b.market.debtTotalScaled * m.borrowIndex
    - (b.token.supply + RewardMint(b.market, now)) * m.liquidityIndex
  }

  lemma SurplusWhenCurrent(b: Book, now: nat)
    requires b.market.indexesLastUpdated == now
    ensures Surplus(b, now) == Stored(b)
  {
    AccrualIsIdempotent(b.market, now);
  }

  lemma MoreCash(b: Book, cash: nat, now: nat)
    ensures Surplus(b.(cash := cash), now) == Surplus(b, now) + (cash - b.cash) * UNIT
    ensures Stored(b.(cash := cash)) == Stored(b) + (cash - b.cash) * UNIT
  {
  }

  lemma MoreSupply(b: Book, token: Token)
    ensures Stored(b.(token := token)) == Stored(b) - (token.supply - b.token.supply) * b.market.liquidityIndex
  {
    AddMultiples(b.token.supply, token.supply - b.token.supply, b.market.liquidityIndex);
  }

  lemma LessSupply(b: Book, token: Token, burned: nat)
    requires token.supply + burned == b.token.supply
    ensures Stored(b.(token := token)) == Stored(b) + burned * b.market.liquidityIndex
  {
    AddMultiples(token.supply, burned, b.market.liquidityIndex);
  }

  lemma LessDebt(b: Book, total: nat, debts: map<Addr, Debt>)
    ensures Stored(b.(market := b.market.(debtTotalScaled := total), debts := debts))
         == Stored(b) - (b.market.debtTotalScaled - total) * b.market.borrowIndex
  {
    DifferenceOfProducts(b.market.debtTotalScaled, total, b.market.borrowIndex);
  }

  /** Accrual itself neither gains nor loses: it realizes what the indexes already said. */
  lemma AccrueKeepsSurplus(b: Book, env: Env)
    requires SoundBook(b, env.now)
    requires AccrueBook(b, env).Ok?
    ensures Stored(AccrueBook(b, env).value) == Surplus(b, env.now)
    ensures AccrueBook(b, env).value.market.indexesLastUpdated == env.now
  {
    AccrueBookSound(b, env);
  }

  /** Repricing and paying out costs exactly what is paid. */
  lemma PayingCosts(b: Book, taken: nat, now: nat)
    requires SoundBook(b, now)
    requires RepriceAndPay(b, taken, now).Ok?
    ensures Stored(RepriceAndPay(b, taken, now).value) == Stored(b) - taken * UNIT
  {
    RepriceAndPaySound(b, taken, now, now);
  }

  // ---------- deposit, withdraw, borrow ----------

  lemma DepositNeverLosesSurplus(b: Book, env: Env, user: Addr, amount: nat)
    requires SoundBook(b, env.now)
    requires DepositedBook(b, env, user, amount).Ok?
    ensures Surplus(DepositedBook(b, env, user, amount).value, env.now) >= Surplus(b, env.now)
  {
    var b0 := b.(cash := b.cash + amount);
    SoundWithToken(b, b.token, b0.cash, env.now);
    MoreCash(b, b0.cash, env.now);
    AccrueKeepsSurplus(b0, env);
    AccrueBookSound(b0, env);
    var b1 := AccrueBook(b0, env).value;
    PayingCosts(b1, 0, env.now);
    RepriceAndPaySound(b1, 0, env.now, env.now);
    var b2 := RepriceAndPay(b1, 0, env.now).value;
    AccrualIsIdempotent(b2.market, env.now);
    var minted := ScaledLiquidity(amount, b2.market, env.now).value;
    ScaledDownBounds(amount, b2.market.liquidityIndex);
    var token := Mint(b2.token, user, minted).value;
    MoreSupply(b2, token);
    SurplusWhenCurrent(b2.(token := token), env.now);
  }

  /** Burning down to the rounded-down remainder covers what leaves. */
  lemma BurnCoversWithdrawal(scaled: nat, index: Index, balance: nat, amount: nat)
    requires balance == UnderlyingDown(scaled, index) && amount <= balance
    ensures ScaledDown(balance - amount, index) <= scaled
    ensures (scaled - ScaledDown(balance - amount, index)) * index >= amount * UNIT
  {
    var after := ScaledDown(balance - amount, index);
    RescaleDown(scaled, index, balance - amount);
    ScaledDownBounds(balance - amount, index);
    UnderlyingDownBounds(scaled, index);
    DifferenceOfProducts(scaled, after, index);
  }

  lemma WithdrawnBookParts(b: Book, env: Env, who: Addr, balance: nat, amount: nat)
    returns (accrued: Book, repriced: Book, burned: nat, token: Token)
    requires amount <= balance
    requires WithdrawnBook(b, env, who, balance, amount).Ok?
    ensures AccrueBook(b, env) == Ok(accrued)
    ensures RepriceAndPay(accrued, amount, env.now) == Ok(repriced)
    ensures burned <= BalanceOf(b.token, who)
    ensures ScaledLiquidity(balance - amount, repriced.market, env.now) == Ok(BalanceOf(b.token, who) - burned)
    ensures Burn(repriced.token, who, burned) == Ok(token)
    ensures WithdrawnBook(b, env, who, balance, amount) == Ok(repriced.(token := token))
  {
    accrued := AccrueBook(b, env).value;
    repriced := RepriceAndPay(accrued, amount, env.now).value;
    burned := BalanceOf(b.token, who) - ScaledLiquidity(balance - amount, repriced.market, env.now).value;
    token := Burn(repriced.token, who, burned).value;
  }

  lemma WithdrawNeverLosesSurplus(b: Book, env: Env, who: Addr, balance: nat, amount: nat)
    requires SoundBook(b, env.now)
    requires UnderlyingLiquidity(BalanceOf(b.token, who), b.market, env.now) == Ok(balance)
    requires amount <= balance
    requires WithdrawnBook(b, env, who, balance, amount).Ok?
    ensures Surplus(WithdrawnBook(b, env, who, balance, amount).value, env.now) >= Surplus(b, env.now)
  {
    var accrued, repriced, burned, token := WithdrawnBookParts(b, env, who, balance, amount);
    AccrueKeepsSurplus(b, env);
    AccrueBookSound(b, env);
    PreviewEqualsCommit(b.market, env.now);
    PayingCosts(accrued, amount, env.now);
    RepriceAndPaySound(accrued, amount, env.now, env.now);
    AccrualIsIdempotent(repriced.market, env.now);
    BurnCoversWithdrawal(BalanceOf(b.token, who), repriced.market.liquidityIndex, balance, amount);
    LessSupply(repriced, token, burned);
    SurplusWhenCurrent(repriced.(token := token), env.now);
  }

  lemma BorrowNeverLosesSurplus(b: Book, env: Env, who: Addr, amount: nat)
    requires SoundBook(b, env.now)
    requires BorrowedBook(b, env, who, amount).Ok?
    ensures Surplus(BorrowedBook(b, env, who, amount).value, env.now) >= Surplus(b, env.now)
  {
    AccrueKeepsSurplus(b, env);
    AccrueBookSound(b, env);
    var b1 := AccrueBook(b, env).value;
    AccrualIsIdempotent(b1.market, env.now);
    var raised := RaiseDebt(b1, who, amount, env.now);
    ScaledUpBounds(amount, b1.market.borrowIndex);
    AddMultiples(b1.market.debtTotalScaled, ScaledUp(amount, b1.market.borrowIndex), b1.market.borrowIndex);
    RepricedFrame(raised.market, raised.cash, amount, env.now);
    SurplusWhenCurrent(RepriceAndPay(raised, amount, env.now).value, env.now);
  }

  // ---------- repayment and liquidation ----------

  /** Lowering a debt read as `owed` to `left` takes at most the difference off the scaled debt, up to
      one in UNITs, a millionth of an underlying unit. */
  lemma DebtFallsByPayment(scaled: nat, index: Index, left: nat)
    requires left <= UnderlyingUp(scaled, index)
    requires ScaledUp(left, index) <= scaled
    ensures (scaled - ScaledUp(left, index)) * index < (UnderlyingUp(scaled, index) - left) * UNIT + ONE
  {
    ScaledUpBounds(left, index);
    UnderlyingUpBounds(scaled, index);
    DifferenceOfProducts(scaled, ScaledUp(left, index), index);
  }

  lemma LoweringCosts(b: Book, who: Addr, left: nat, now: nat)
    requires SoundBook(b, now) && b.market.indexesLastUpdated == now
    requires LowerDebt(b, who, left, now).Ok?
    requires left <= UnderlyingDebt(DebtOf(b, who).amountScaled, b.market, now)
    ensures var owed := UnderlyingDebt(DebtOf(b, who).amountScaled, b.market, now);
            Stored(LowerDebt(b, who, left, now).value) > Stored(b) - (owed - left) * UNIT - ONE
  {
    AccrualIsIdempotent(b.market, now);
    LowerDebtSound(b, who, left, now, now);
    var after := LowerDebt(b, who, left, now).value;
    DebtFallsByPayment(DebtOf(b, who).amountScaled, b.market.borrowIndex, left);
    LessDebt(b, after.market.debtTotalScaled, after.debts);
  }

  lemma PaidInAndRefunded(lowered: Book, amount: nat, now: nat, repriced: Book, refund: nat)
    requires SoundBook(lowered, now) && lowered.market.indexesLastUpdated == now
    requires RepriceAndPay(lowered.(cash := lowered.cash + amount), 0, now) == Ok(repriced)
    requires refund <= amount && refund <= repriced.cash
    ensures Surplus(repriced.(cash := repriced.cash - refund), now) == Stored(lowered) + (amount - refund) * UNIT
  {
    var paid := lowered.(cash := lowered.cash + amount);
    MoreCash(lowered, paid.cash, now);
    SoundWithToken(lowered, lowered.token, paid.cash, now);
    PayingCosts(paid, 0, now);
    RepriceAndPaySound(paid, 0, now, now);
    MoreCash(repriced, repriced.cash - refund, now);
    SurplusWhenCurrent(repriced.(cash := repriced.cash - refund), now);
  }

  /** Interest is accrued and then a debt lowered to `left`. */
  lemma LoweredCosts(b: Book, env: Env, who: Addr, accrued: Book, left: nat, lowered: Book)
    requires SoundBook(b, env.now)
    requires AccrueBook(b, env) == Ok(accrued) && LowerDebt(accrued, who, left, env.now) == Ok(lowered)
    requires left <= UnderlyingDebt(DebtOf(b, who).amountScaled, accrued.market, env.now)
    ensures SoundBook(lowered, env.now) && lowered.market.indexesLastUpdated == env.now
    ensures var owed := UnderlyingDebt(DebtOf(b, who).amountScaled, accrued.market, env.now);
            Stored(lowered) > Surplus(b, env.now) - (owed - left) * UNIT - ONE
  {
    AccrueKeepsSurplus(b, env);
    AccrueBookSound(b, env);
    assert DebtOf(accrued, who) == DebtOf(b, who);
    LoweringCosts(accrued, who, left, env.now);
    LowerDebtSound(accrued, who, left, env.now, env.now);
  }

  lemma RepaymentMoves(b: Book, env: Env, who: Addr, amount: nat) returns (after: Book)
    requires SoundBook(b, env.now)
    requires RepaidBook(b, env, who, amount).Ok?
    ensures RepaidBook(b, env, who, amount) == Ok(after)
    ensures Surplus(after, env.now) > Surplus(b, env.now) - ONE
  {
    var accrued, left, lowered, repriced, refund := RepaidBookParts(b, env, who, amount);
    LoweredCosts(b, env, who, accrued, left, lowered);
    PaidInAndRefunded(lowered, amount, env.now, repriced, refund);
    after := repriced.(cash := repriced.cash - refund);
  }

  lemma RepayLosesLessThanOne(b: Book, env: Env, who: Addr, amount: nat)
    requires SoundBook(b, env.now)
    requires RepaidBook(b, env, who, amount).Ok?
    ensures Surplus(RepaidBook(b, env, who, amount).value, env.now) > Surplus(b, env.now) - ONE
  {
    var after := RepaymentMoves(b, env, who, amount);
  }

  lemma PaidOut(b: Book, taken: nat, now: nat)
    requires SoundBook(b, now) && b.market.indexesLastUpdated == now
    requires RepriceAndPay(b, taken, now).Ok?
    ensures Surplus(RepriceAndPay(b, taken, now).value, now) == Stored(b) - taken * UNIT
  {
    PayingCosts(b, taken, now);
    RepriceAndPaySound(b, taken, now, now);
    SurplusWhenCurrent(RepriceAndPay(b, taken, now).value, now);
  }

  lemma SettleDebtParts(b: Book, env: Env, who: Addr, repaid: nat, taken: nat)
    returns (accrued: Book, left: nat, lowered: Book)
    requires SettleDebt(b, env, who, repaid, taken).Ok?
    ensures AccrueBook(b, env) == Ok(accrued)
    ensures left + repaid == UnderlyingDebt(DebtOf(b, who).amountScaled, b.market, env.now)
    ensures LowerDebt(accrued, who, left, env.now) == Ok(lowered)
    ensures SettleDebt(b, env, who, repaid, taken) == RepriceAndPay(lowered, taken, env.now)
  {
    accrued := AccrueBook(b, env).value;
    left := UnderlyingDebt(DebtOf(b, who).amountScaled, b.market, env.now) - repaid;
    lowered := LowerDebt(accrued, who, left, env.now).value;
  }

  lemma SettleLosesLessThanOne(b: Book, env: Env, who: Addr, repaid: nat, taken: nat)
    requires SoundBook(b, env.now)
    requires SettleDebt(b, env, who, repaid, taken).Ok?
    ensures Surplus(SettleDebt(b, env, who, repaid, taken).value, env.now)
            > Surplus(b, env.now) - repaid * UNIT - taken * UNIT - ONE
  {
    var accrued, left, lowered := SettleDebtParts(b, env, who, repaid, taken);
    AccruedPreview(b, env, accrued);
    LoweredCosts(b, env, who, accrued, left, lowered);
    PaidOut(lowered, taken, env.now);
  }

  lemma AccruedPreview(b: Book, env: Env, accrued: Book)
    requires SoundBook(b, env.now) && AccrueBook(b, env) == Ok(accrued)
    ensures UpdatedBorrowIndex(accrued.market, env.now) == UpdatedBorrowIndex(b.market, env.now)
  {
    AccrueBookSound(b, env);
    AccrualIsIdempotent(accrued.market, env.now);
  }

  /** Seizing tokens for the underlying asset burns the rounded-down scaled amount: the claims fall by
      less than one index short of what will be paid out. Tokens that change hands leave them alone. */
  lemma SeizureFreesClaims(b: Book, env: Env, c: LiquidationCall, seized: nat)
    requires SoundBook(b, env.now)
    requires SeizeTokens(b, env, c, seized).Ok?
    ensures var after := SeizeTokens(b, env, c, seized).value;
            var index := Accrued(b.market, env.now).liquidityIndex;
            if c.receiveMaToken then Surplus(after, env.now) == Surplus(b, env.now)
            else Surplus(after, env.now) > Surplus(b, env.now) + seized * UNIT - index
  {
    PreviewEqualsCommit(b.market, env.now);
    var index := Accrued(b.market, env.now).liquidityIndex;
    var scaled := ScaledDown(seized, index);
    ScaledDownBounds(seized, index);
    DifferenceOfProducts(b.token.supply + RewardMint(b.market, env.now), scaled, index);
  }

  lemma CollateralSideLosesLessThanIndex(b: Book, env: Env, c: LiquidationCall, seized: nat)
    requires SoundBook(b, env.now)
    requires CollateralAfter(b, env, c, seized).Ok?
    requires seized <= UnderlyingDown(BalanceOf(b.token, c.user), UpdatedLiquidityIndex(b.market, env.now).value)
    ensures var after := CollateralAfter(b, env, c, seized).value;
            if c.receiveMaToken then Surplus(after, env.now) == Surplus(b, env.now)
            else Surplus(after, env.now) > Surplus(b, env.now) - Accrued(b.market, env.now).liquidityIndex
  {
    SeizureFreesClaims(b, env, c, seized);
    SeizeTokensSound(b, env, c, seized);
    var c1 := SeizeTokens(b, env, c, seized).value;
    if !c.receiveMaToken {
      AccrueKeepsSurplus(c1, env);
      AccrueBookSound(c1, env);
      var c2 := AccrueBook(c1, env).value;
      PayingCosts(c2, seized, env.now);
      RepriceAndPaySound(c2, seized, env.now, env.now);
      SurplusWhenCurrent(RepriceAndPay(c2, seized, env.now).value, env.now);
    }
  }

  lemma DebtSideLosesLessThanOne(b: Book, env: Env, c: LiquidationCall, t: Seizure)
    requires SoundBook(b, env.now)
    requires t.repaid + t.refund == c.sent
    requires SettleDebt(b.(cash := b.cash + c.sent), env, c.user, t.repaid, t.refund).Ok?
    ensures Surplus(SettleDebt(b.(cash := b.cash + c.sent), env, c.user, t.repaid, t.refund).value, env.now)
            > Surplus(b, env.now) - ONE
  {
    SoundWithToken(b, b.token, b.cash + c.sent, env.now);
    MoreCash(b, b.cash + c.sent, env.now);
    SettleLosesLessThanOne(b.(cash := b.cash + c.sent), env, c.user, t.repaid, t.refund);
    AddMultiples(t.repaid, t.refund, UNIT);
  }

  lemma SameAssetLosesLess(b: Book, env: Env, c: LiquidationCall, t: Seizure, seized: Book, taken: nat, after: Book)
    requires SoundBook(b, env.now)
    requires t.repaid + t.refund == c.sent
    requires SeizeTokens(b.(cash := b.cash + c.sent), env, c, t.seized) == Ok(seized)
    requires taken == t.refund + if c.receiveMaToken then 0 else t.seized
    requires SettleDebt(seized, env, c.user, t.repaid, taken) == Ok(after)
    requires t.seized <= UnderlyingDown(BalanceOf(b.token, c.user), UpdatedLiquidityIndex(b.market, env.now).value)
    ensures Surplus(after, env.now)
            > Surplus(b, env.now) - ONE - if c.receiveMaToken then 0 else Accrued(b.market, env.now).liquidityIndex
  {
    var b0 := b.(cash := b.cash + c.sent);
    SoundWithToken(b, b.token, b0.cash, env.now);
    MoreCash(b, b0.cash, env.now);
    SeizureFreesClaims(b0, env, c, t.seized);
    SeizeTokensSound(b0, env, c, t.seized);
    SettleLosesLessThanOne(seized, env, c.user, t.repaid, taken);
    AddMultiples(t.repaid, t.refund, UNIT);
    AddMultiples(t.refund, taken - t.refund, UNIT);
  }
}
