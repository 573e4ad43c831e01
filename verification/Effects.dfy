/** What each message of the lending contract does to balances, debts, cash and bits, written out from
    what its caller sees. */
module Effects {
  import opened Base
  import opened FixedPoint
  import opened InterestRates
  import opened MaToken
  import opened Position
  import opened Ledger
  import opened Invariants
  import opened LiquidationMath
  import opened MarketSurplus
  import opened Reachability
  import Runs

  /** What accrual mints to `x`: the protocol's share of the interest goes to the rewards collector. */
  function Share(b: Book, env: Env, x: Addr): nat {
    if x == env.collector then RewardMint(b.market, env.now) else 0
  }

  /** Everything but the market `a` and the bits of users is as it was. */
  ghost predicate OnlyMarket(s: Ledger, t: Ledger, a: AssetId) {
    && |t.books| == |s.books|
    && (forall j :: 0 <= j < |s.books| && j != a ==> t.books[j] == s.books[j])
    && t.closeFactor == s.closeFactor && t.time == s.time
  }

  ghost predicate SameDebts(b: Book, after: Book) {
    after.debts == b.debts && after.limits == b.limits
    && after.market.debtTotalScaled == b.market.debtTotalScaled
  }

  lemma AccruedEffect(b: Book, env: Env, after: Book)
    requires AccrueBook(b, env) == Ok(after)
    ensures after.market == Accrued(b.market, env.now)
    ensures after.cash == b.cash && SameDebts(b, after)
    ensures forall x :: BalanceOf(after.token, x) == BalanceOf(b.token, x) + Share(b, env, x)
  {
    if ProtocolRewards(b.market, env.now) == 0 {
      assert ScaledDown(0, Accrued(b.market, env.now).liquidityIndex) == 0;
    }
  }

  lemma PaidEffect(b: Book, taken: nat, now: nat, after: Book)
    requires RepriceAndPay(b, taken, now) == Ok(after)
    ensures taken <= b.cash && after.cash == b.cash - taken
    ensures SameDebts(b, after) && after.token == b.token
    ensures after.market.borrowIndex == b.market.borrowIndex && after.market.liquidityIndex == b.market.liquidityIndex
    ensures after.market.indexesLastUpdated == b.market.indexesLastUpdated
  {
    RepricedFrame(b.market, b.cash, taken, now);
  }

  // ---------- deposits ----------

  lemma DepositedParts(b: Book, env: Env, user: Addr, amount: nat, after: Book) returns (accrued: Book, repriced: Book)
    requires SoundBook(b, env.now)
    requires DepositedBook(b, env, user, amount) == Ok(after)
    ensures AccrueBook(b.(cash := b.cash + amount), env) == Ok(accrued)
    ensures RepriceAndPay(accrued, 0, env.now) == Ok(repriced)
    ensures after == repriced.(token := after.token)
    ensures Mint(repriced.token, user, ScaledDown(amount, repriced.market.liquidityIndex)) == Ok(after.token)
  {
    accrued := AccrueBook(b.(cash := b.cash + amount), env).value;
    repriced := RepriceAndPay(accrued, 0, env.now).value;
    PaidEffect(accrued, 0, env.now, repriced);
    PreviewEqualsCommit(b.market, env.now);
    AccrualIsIdempotent(repriced.market, env.now);
  }

  lemma DepositedEffect(b: Book, env: Env, user: Addr, amount: nat, after: Book) returns (index: Index, minted: nat)
    requires SoundBook(b, env.now)
    requires DepositedBook(b, env, user, amount) == Ok(after)
    ensures index == Accrued(b.market, env.now).liquidityIndex
    ensures minted * index <= amount * UNIT < minted * index + index
    ensures forall x :: BalanceOf(after.token, x) ==
                        BalanceOf(b.token, x) + Share(b, env, x) + if x == user then minted else 0
    ensures after.cash == b.cash + amount && SameDebts(b, after)
  {
    var accrued, repriced := DepositedParts(b, env, user, amount, after);
    AccruedEffect(b.(cash := b.cash + amount), env, accrued);
    PaidEffect(accrued, 0, env.now, repriced);
    index := repriced.market.liquidityIndex;
    minted := ScaledDown(amount, index);
    ScaledDownBounds(amount, index);
  }

  /** A deposit mints what the amount is worth at the accrued index, less than one index short of it, to
      the user and to nobody else, and switches the user's collateral on. */
  lemma DepositEffect(s: Ledger, env: Env, user: Addr, a: AssetId, amount: nat)
    returns (t: Ledger, index: Index, minted: nat)
    requires Sound(s) && env.now == s.time
    requires Deposit(s, env, user, a, amount).Ok?
    ensures Deposit(s, env, user, a, amount) == Ok(t)
    ensures a < |s.books| && OnlyMarket(s, t, a)
    ensures index == Accrued(s.books[a].market, env.now).liquidityIndex
    ensures minted * index <= amount * UNIT < minted * index + index
    ensures forall x :: BalanceOf(t.books[a].token, x) ==
                        BalanceOf(s.books[a].token, x) + Share(s.books[a], env, x) + if x == user then minted else 0
    ensures t.books[a].cash == s.books[a].cash + amount && SameDebts(s.books[a], t.books[a])
    ensures AgreeExcept(s.users, t.users, a) && SameBorrowed(s.users, t.users)
    ensures forall x :: a in UserOf(t.users, x).collateral <==> x == user || a in UserOf(s.users, x).collateral
  {
    var b := s.books[a];
    assert SoundBook(b, env.now);
    var after := DepositedBook(b, env, user, amount).value;
    index, minted := DepositedEffect(b, env, user, amount, after);
    WithCollateralFrame(s.users, user, a);
    t := s.(books := s.books[a := after], users := WithCollateral(s.users, user, a));
  }

  // ---------- withdrawals ----------

  /** The burn covers what leaves, by less than one unit and one index. */
  lemma BurnBounds(scaled: nat, index: Index, balance: nat, amount: nat)
    requires balance == UnderlyingDown(scaled, index) && amount <= balance
    ensures ScaledDown(balance - amount, index) <= scaled
    ensures var burned := scaled - ScaledDown(balance - amount, index);
            amount * UNIT <= burned * index < (amount + 1) * UNIT + index
  {
    BurnCoversWithdrawal(scaled, index, balance, amount);
    ScaledDownBounds(balance - amount, index);
    UnderlyingDownBounds(scaled, index);
    DifferenceOfProducts(scaled, ScaledDown(balance - amount, index), index);
  }

  lemma WithdrawnEffect(b: Book, env: Env, who: Addr, balance: nat, amount: nat, after: Book)
    returns (index: Index, burned: nat)
    requires SoundBook(b, env.now)
    requires UnderlyingLiquidity(BalanceOf(b.token, who), b.market, env.now) == Ok(balance) && amount <= balance
    requires WithdrawnBook(b, env, who, balance, amount) == Ok(after)
    ensures index == Accrued(b.market, env.now).liquidityIndex
    ensures amount * UNIT <= burned * index < (amount + 1) * UNIT + index
    ensures burned <= BalanceOf(b.token, who)
    ensures forall x :: BalanceOf(after.token, x) ==
                        BalanceOf(b.token, x) + Share(b, env, x) - if x == who then burned else 0
    ensures amount <= b.cash && after.cash == b.cash - amount && SameDebts(b, after)
  {
    var accrued, repriced, token;
    accrued, repriced, burned, token := WithdrawnBookParts(b, env, who, balance, amount);
    AccruedEffect(b, env, accrued);
    PaidEffect(accrued, amount, env.now, repriced);
    PreviewEqualsCommit(b.market, env.now);
    AccrualIsIdempotent(repriced.market, env.now);
    index := repriced.market.liquidityIndex;
    BurnBounds(BalanceOf(b.token, who), index, balance, amount);
  }

  /** A withdrawal pays out what it names, or the whole balance, and burns what that is worth of the
      owner's tokens; only a whole balance switches the collateral off. */
  lemma WithdrawEffect(s: Ledger, env: Env, who: Addr, a: AssetId, requested: Option<nat>)
    returns (t: Ledger, index: Index, balance: nat, amount: nat, burned: nat)
    requires Sound(s) && env.now == s.time
    requires Withdraw(s, env, who, a, requested).Ok?
    ensures Withdraw(s, env, who, a, requested) == Ok(t)
    ensures a < |s.books| && OnlyMarket(s, t, a)
    ensures index == Accrued(s.books[a].market, env.now).liquidityIndex
    ensures balance == UnderlyingDown(BalanceOf(s.books[a].token, who), index)
    ensures amount == (if requested.Some? then requested.value else balance) <= balance
    ensures amount * UNIT <= burned * index < (amount + 1) * UNIT + index
    ensures burned <= BalanceOf(s.books[a].token, who)
    ensures forall x :: BalanceOf(t.books[a].token, x) ==
                        BalanceOf(s.books[a].token, x) + Share(s.books[a], env, x) - if x == who then burned else 0
    ensures amount <= s.books[a].cash && t.books[a].cash == s.books[a].cash - amount
    ensures SameDebts(s.books[a], t.books[a])
    ensures AgreeExcept(s.users, t.users, a) && SameBorrowed(s.users, t.users)
    ensures forall x :: a in UserOf(t.users, x).collateral <==>
                        a in UserOf(s.users, x).collateral && !(x == who && amount == balance)
  {
    WithdrawTermsFit(s, env, who, a, requested);
    var w := WithdrawTerms(s, env, who, a, requested).value;
    var b := s.books[a];
    assert SoundBook(b, env.now);
    PreviewEqualsCommit(b.market, env.now);
    balance, amount := w.balance, w.amount;
    t := Withdraw(s, env, who, a, requested).value;
    index, burned := WithdrawnEffect(b, env, who, balance, amount, t.books[a]);
    WithoutCollateralFrame(s.users, who, a);
  }

  // ---------- loans ----------

  /** Nobody's debt but that of `who` differs. */
  ghost predicate OnlyDebtOf(b: Book, after: Book, who: Addr) {
    && after.limits == b.limits
    && (forall x :: x != who ==> DebtOf(after, x) == DebtOf(b, x))
    && DebtOf(after, who).uncollateralized == DebtOf(b, who).uncollateralized
  }

  lemma RaisedEffect(b: Book, who: Addr, amount: nat, now: nat) returns (raised: Book, scaled: nat)
    requires SoundBook(b, now) && b.market.indexesLastUpdated == now
    ensures raised == RaiseDebt(b, who, amount, now)
    ensures amount * UNIT <= scaled * b.market.borrowIndex < amount * UNIT + b.market.borrowIndex
    ensures OnlyDebtOf(b, raised, who)
    ensures DebtOf(raised, who).amountScaled == DebtOf(b, who).amountScaled + scaled
    ensures raised.market == b.market.(debtTotalScaled := b.market.debtTotalScaled + scaled)
    ensures raised.cash == b.cash && raised.token == b.token
  {
    AccrualIsIdempotent(b.market, now);
    scaled := ScaledUp(amount, b.market.borrowIndex);
    ScaledUpBounds(amount, b.market.borrowIndex);
    raised := RaiseDebt(b, who, amount, now);
    assert DebtOf(b, who).uncollateralized <==> LimitOf(b, who) > 0;
  }

  lemma BorrowedEffect(b: Book, env: Env, who: Addr, amount: nat, after: Book) returns (index: Index, scaled: nat)
    requires SoundBook(b, env.now)
    requires BorrowedBook(b, env, who, amount) == Ok(after)
    ensures index == Accrued(b.market, env.now).borrowIndex
    ensures amount * UNIT <= scaled * index < amount * UNIT + index
    ensures OnlyDebtOf(b, after, who)
    ensures DebtOf(after, who).amountScaled == DebtOf(b, who).amountScaled + scaled
    ensures after.market.debtTotalScaled == b.market.debtTotalScaled + scaled
    ensures amount <= b.cash && after.cash == b.cash - amount
    ensures forall x :: BalanceOf(after.token, x) == BalanceOf(b.token, x) + Share(b, env, x)
  {
    var accrued := AccrueBook(b, env).value;
    AccruedEffect(b, env, accrued);
    AccrueBookSound(b, env);
    index := accrued.market.borrowIndex;
    var raised;
    raised, scaled := RaisedEffect(accrued, who, amount, env.now);
    PaidEffect(raised, amount, env.now, after);
  }

  /** A loan adds what the amount is worth at the accrued index, rounded up by less than one index, to the
      borrower's debt and to nobody else's; the amount leaves. */
  lemma BorrowEffect(s: Ledger, env: Env, who: Addr, a: AssetId, amount: nat)
    returns (t: Ledger, index: Index, scaled: nat)
    requires Sound(s) && env.now == s.time
    requires Borrow(s, env, who, a, amount).Ok?
    ensures Borrow(s, env, who, a, amount) == Ok(t)
    ensures a < |s.books| && OnlyMarket(s, t, a)
    ensures index == Accrued(s.books[a].market, env.now).borrowIndex
    ensures amount * UNIT <= scaled * index < amount * UNIT + index
    ensures OnlyDebtOf(s.books[a], t.books[a], who)
    ensures DebtOf(t.books[a], who).amountScaled == DebtOf(s.books[a], who).amountScaled + scaled
    ensures t.books[a].market.debtTotalScaled == s.books[a].market.debtTotalScaled + scaled
    ensures amount <= s.books[a].cash && t.books[a].cash == s.books[a].cash - amount
    ensures forall x :: BalanceOf(t.books[a].token, x) == BalanceOf(s.books[a].token, x) + Share(s.books[a], env, x)
    ensures AgreeExcept(s.users, t.users, a) && SameCollateral(s.users, t.users)
    ensures forall x :: a in UserOf(t.users, x).borrowed <==> x == who || a in UserOf(s.users, x).borrowed
  {
    var b := s.books[a];
    assert SoundBook(b, env.now);
    t := Borrow(s, env, who, a, amount).value;
    index, scaled := BorrowedEffect(b, env, who, amount, t.books[a]);
    WithBorrowedFrame(s.users, who, a);
  }

  // ---------- repayments ----------

  /** One debt is read as underlying units at the accrued index, lowered to `left` of them and scaled again. */
  lemma LoweredEffect(b: Book, env: Env, accrued: Book, who: Addr, left: nat, lowered: Book) returns (index: Index)
    requires SoundBook(b, env.now)
    requires AccrueBook(b, env) == Ok(accrued) && LowerDebt(accrued, who, left, env.now) == Ok(lowered)
    ensures index == Accrued(b.market, env.now).borrowIndex == accrued.market.borrowIndex
    ensures OnlyDebtOf(b, lowered, who)
    ensures DebtOf(lowered, who).amountScaled == ScaledUp(left, index) <= DebtOf(b, who).amountScaled
    ensures lowered.market.debtTotalScaled + DebtOf(b, who).amountScaled
         == b.market.debtTotalScaled + DebtOf(lowered, who).amountScaled
    ensures lowered.cash == b.cash
    ensures forall x :: BalanceOf(lowered.token, x) == BalanceOf(b.token, x) + Share(b, env, x)
    ensures lowered.market.indexesLastUpdated == env.now
  {
    AccruedEffect(b, env, accrued);
    AccrueBookSound(b, env);
    AccrualIsIdempotent(accrued.market, env.now);
    index := accrued.market.borrowIndex;
  }

  lemma RepaidEffect(b: Book, env: Env, who: Addr, amount: nat, after: Book)
    returns (index: Index, owed: nat, left: nat)
    requires SoundBook(b, env.now)
    requires RepaidBook(b, env, who, amount) == Ok(after)
    ensures index == Accrued(b.market, env.now).borrowIndex
    ensures owed == UnderlyingUp(DebtOf(b, who).amountScaled, index)
    ensures left == if amount > owed then 0 else owed - amount
    ensures OnlyDebtOf(b, after, who)
    ensures DebtOf(after, who).amountScaled == ScaledUp(left, index)
    ensures after.market.debtTotalScaled + DebtOf(b, who).amountScaled
         == b.market.debtTotalScaled + DebtOf(after, who).amountScaled
    ensures after.cash == b.cash + owed - left
    ensures forall x :: BalanceOf(after.token, x) == BalanceOf(b.token, x) + Share(b, env, x)
  {
    var accrued, lowered, repriced, refund;
    accrued, left, lowered, repriced, refund := RepaidBookParts(b, env, who, amount);
    index := LoweredEffect(b, env, accrued, who, left, lowered);
    AccrualIsIdempotent(accrued.market, env.now);
    owed := UnderlyingUp(DebtOf(b, who).amountScaled, index);
    PaidEffect(lowered.(cash := lowered.cash + amount), 0, env.now, repriced);
  }

  /** A repayment lowers the debt of the user it names, or of the sender if it names nobody, by the amount
      or to nothing, and nobody else's; what exceeds the debt is handed back. */
  lemma RepayEffect(s: Ledger, env: Env, sender: Addr, onBehalfOf: Option<Addr>, a: AssetId, amount: nat)
    returns (t: Ledger, who: Addr, index: Index, owed: nat, left: nat)
    requires Sound(s) && env.now == s.time
    requires Repay(s, env, sender, onBehalfOf, a, amount).Ok?
    ensures Repay(s, env, sender, onBehalfOf, a, amount) == Ok(t)
    ensures a < |s.books| && OnlyMarket(s, t, a)
    ensures who == if onBehalfOf.Some? then onBehalfOf.value else sender
    ensures index == Accrued(s.books[a].market, env.now).borrowIndex
    ensures owed == UnderlyingUp(DebtOf(s.books[a], who).amountScaled, index)
    ensures left == if amount > owed then 0 else owed - amount
    ensures OnlyDebtOf(s.books[a], t.books[a], who)
    ensures DebtOf(t.books[a], who).amountScaled == ScaledUp(left, index)
    ensures t.books[a].market.debtTotalScaled + DebtOf(s.books[a], who).amountScaled
         == s.books[a].market.debtTotalScaled + DebtOf(t.books[a], who).amountScaled
    ensures t.books[a].cash == s.books[a].cash + owed - left
    ensures forall x :: BalanceOf(t.books[a].token, x) == BalanceOf(s.books[a].token, x) + Share(s.books[a], env, x)
    ensures AgreeExcept(s.users, t.users, a) && SameCollateral(s.users, t.users)
    ensures forall x :: a in UserOf(t.users, x).borrowed <==>
                        a in UserOf(s.users, x).borrowed && !(x == who && DebtOf(t.books[a], who).amountScaled == 0)
  {
    var b := s.books[a];
    assert SoundBook(b, env.now);
    who := Beneficiary(b, sender, onBehalfOf).value;
    t := Repay(s, env, sender, onBehalfOf, a, amount).value;
    index, owed, left := RepaidEffect(b, env, who, amount, t.books[a]);
    WithoutBorrowedFrame(s.users, who, a);
  }

  // ---------- liquidations ----------

  /** What a liquidation may come to: repaid and seized match at the oracle's prices, with bonus, up to
      their roundings, unless the user has no more to seize. */
  ghost predicate Fair(x: LiquidationInputs, closeFactor: nat, sent: nat, t: Seizure) {
    var most := Min(sent, MulFloor(x.owed, closeFactor));
    var price, bonus := x.debtPrice, ONE + x.bonus;
    && t.repaid <= most && t.repaid + t.refund == sent && t.seized <= x.balance
    && t.seized * x.collateralPrice * ONE < t.repaid * price * bonus + ONE * ONE + price * (ONE + bonus)
    && (t.seized < x.balance ==>
          && t.repaid == most
          && t.repaid * price * bonus
          < t.seized * x.collateralPrice * ONE + x.collateralPrice * ONE + ONE * ONE + ONE * bonus)
    && (t.repaid < most ==> t.seized == x.balance && t.repaid * price * bonus <= x.balance * x.collateralPrice * ONE)
  }

  lemma AmountsAreFair(x: LiquidationInputs, closeFactor: nat, sent: nat) returns (t: Seizure)
    requires x.collateralPrice > 0
    ensures LiquidationAmounts(x.collateralPrice, x.debtPrice, closeFactor, x.balance, x.bonus, x.owed, sent) == Ok(t)
    ensures Fair(x, closeFactor, sent, t)
  {
    AmountsWithinBounds(x.collateralPrice, x.debtPrice, closeFactor, x.balance, x.bonus, x.owed, sent);
    t := LiquidationAmounts(x.collateralPrice, x.debtPrice, closeFactor, x.balance, x.bonus, x.owed, sent).value;
    SeizedWorthBound(x.collateralPrice, x.debtPrice, closeFactor, x.balance, x.bonus, x.owed, sent);
    SeizedWorthFloor(x.collateralPrice, x.debtPrice, closeFactor, x.balance, x.bonus, x.owed, sent);
    CappedRepaymentIsCovered(x.collateralPrice, x.debtPrice, closeFactor, x.balance, x.bonus, x.owed, sent);
  }

  /** The inputs of a liquidation: the oracle's prices, and the user's balance and debt at the accrued
      indexes. */
  ghost predicate InputsOf(s: Ledger, env: Env, c: LiquidationCall, x: LiquidationInputs) {
    && c.debt < |s.books| && c.collateral < |s.books|
    && c.collateral in env.prices && x.collateralPrice == env.prices[c.collateral]
    && c.debt in env.prices && x.debtPrice == env.prices[c.debt]
    && var cb, db := s.books[c.collateral], s.books[c.debt];
       && x.balance == UnderlyingDown(BalanceOf(cb.token, c.user), Accrued(cb.market, env.now).liquidityIndex)
       && x.bonus == cb.market.liquidationBonus
       && x.owed == UnderlyingUp(DebtOf(db, c.user).amountScaled, Accrued(db.market, env.now).borrowIndex)
  }

  /** The terms of a liquidation are fair for the user's balance and debt at the accrued indexes. */
  lemma TermsAreFair(s: Ledger, env: Env, c: LiquidationCall) returns (x: LiquidationInputs, t: Seizure)
    requires Sound(s) && env.now == s.time
    requires LiquidationTerms(s, env, c).Ok?
    ensures LiquidationTerms(s, env, c) == Ok(t)
    ensures InputsOf(s, env, c, x) && Fair(x, s.closeFactor, c.sent, t)
    ensures t.refund <= c.sent
    ensures var cb := s.books[c.collateral];
            t.seized <= UnderlyingDown(BalanceOf(cb.token, c.user), UpdatedLiquidityIndex(cb.market, env.now).value)
  {
    Runs.LiquidationTermsFit(s, env, c);
    assert SoundBook(s.books[c.collateral], env.now) && Linked(s.books[c.debt], c.debt, s.users);
    x := UnderwaterInputs(s, env, c, s.users[c.user]);
    PreviewEqualsCommit(s.books[c.collateral].market, env.now);
    PreviewEqualsCommit(s.books[c.debt].market, env.now);
    AmountsWithinBounds(x.collateralPrice, x.debtPrice, s.closeFactor, x.balance, x.bonus, x.owed, c.sent);
    t := AmountsAreFair(x, s.closeFactor, c.sent);
  }

  /** Tokens a liquidation moves: `scaled` from the user, and to the liquidator if tokens are wanted. */
  function Gain(c: LiquidationCall, scaled: nat, x: Addr): int {
    (if x == c.user then -(scaled as int) else 0) + if c.receiveMaToken && x == c.liquidator then scaled else 0
  }

  lemma SeizedEffect(b: Book, env: Env, c: LiquidationCall, seized: nat, after: Book) returns (index: Index, scaled: nat)
    requires SoundBook(b, env.now)
    requires SeizeTokens(b, env, c, seized) == Ok(after)
    ensures index == Accrued(b.market, env.now).liquidityIndex && scaled == ScaledDown(seized, index)
    ensures c.receiveMaToken ==> c.user != c.liquidator
    ensures after == b.(token := after.token)
    ensures forall x :: BalanceOf(after.token, x) == BalanceOf(b.token, x) + Gain(c, scaled, x)
  {
    PreviewEqualsCommit(b.market, env.now);
    index := Accrued(b.market, env.now).liquidityIndex;
    scaled := ScaledDown(seized, index);
  }

  lemma SettledEffect(b: Book, env: Env, who: Addr, repaid: nat, taken: nat, after: Book)
    returns (index: Index, owed: nat)
    requires SoundBook(b, env.now)
    requires SettleDebt(b, env, who, repaid, taken) == Ok(after)
    ensures index == Accrued(b.market, env.now).borrowIndex
    ensures owed == UnderlyingUp(DebtOf(b, who).amountScaled, index) && repaid <= owed
    ensures OnlyDebtOf(b, after, who)
    ensures DebtOf(after, who).amountScaled == ScaledUp(owed - repaid, index)
    ensures after.market.debtTotalScaled + DebtOf(b, who).amountScaled
         == b.market.debtTotalScaled + DebtOf(after, who).amountScaled
    ensures taken <= b.cash && after.cash == b.cash - taken
    ensures forall x :: BalanceOf(after.token, x) == BalanceOf(b.token, x) + Share(b, env, x)
  {
    var accrued, left, lowered := SettleDebtParts(b, env, who, repaid, taken);
    index := LoweredEffect(b, env, accrued, who, left, lowered);
    PreviewEqualsCommit(b.market, env.now);
    owed := left + repaid;
    PaidEffect(lowered, taken, env.now, after);
  }

  lemma CollateralEffect(b: Book, env: Env, c: LiquidationCall, seized: nat, after: Book)
    returns (index: Index, scaled: nat)
    requires SoundBook(b, env.now)
    requires seized <= UnderlyingDown(BalanceOf(b.token, c.user), UpdatedLiquidityIndex(b.market, env.now).value)
    requires CollateralAfter(b, env, c, seized) == Ok(after)
    ensures index == Accrued(b.market, env.now).liquidityIndex && scaled == ScaledDown(seized, index)
    ensures c.receiveMaToken ==> c.user != c.liquidator
    ensures SameDebts(b, after)
    ensures forall x :: BalanceOf(after.token, x) ==
                        BalanceOf(b.token, x) + Gain(c, scaled, x) + if c.receiveMaToken then 0 else Share(b, env, x)
    ensures after.cash == b.cash - if c.receiveMaToken then 0 else seized
  {
    var taken := SeizeTokens(b, env, c, seized).value;
    index, scaled := SeizedEffect(b, env, c, seized, taken);
    if !c.receiveMaToken {
      var accrued := AccrueBook(taken, env).value;
      AccruedEffect(taken, env, accrued);
      PaidEffect(accrued, seized, env.now, after);
    }
  }

  /** What leaves the collateral market as assets. */
  function Leaving(c: LiquidationCall, t: Seizure): nat {
    if c.receiveMaToken then 0 else t.seized
  }

  /** The market of the debt: only the user's debt falls, to what is left of it scaled again. */
  ghost predicate DebtFalls(db: Book, after: Book, env: Env, c: LiquidationCall, owed: nat, repaid: nat) {
    var index := Accrued(db.market, env.now).borrowIndex;
    && OnlyDebtOf(db, after, c.user)
    && owed == UnderlyingUp(DebtOf(db, c.user).amountScaled, index) && repaid <= owed
    && DebtOf(after, c.user).amountScaled == ScaledUp(owed - repaid, index)
    && after.market.debtTotalScaled + DebtOf(db, c.user).amountScaled
    == db.market.debtTotalScaled + DebtOf(after, c.user).amountScaled
  }

  /** The market of the collateral: the user's tokens worth what is seized change hands or are burned. */
  ghost predicate CollateralMoves(cb: Book, after: Book, env: Env, c: LiquidationCall, seized: nat, scaled: nat,
                                  accrues: bool)
  {
    var index := Accrued(cb.market, env.now).liquidityIndex;
    && scaled == ScaledDown(seized, index)
    && (c.receiveMaToken ==> c.user != c.liquidator)
    && (forall x :: BalanceOf(after.token, x) ==
                    BalanceOf(cb.token, x) + Gain(c, scaled, x) + if accrues then Share(cb, env, x) else 0)
  }

  lemma PaidSeizedEffect(b: Book, env: Env, c: LiquidationCall, seized: nat, after: Book) returns (scaled: nat)
    requires SoundBook(b, env.now)
    requires seized <= UnderlyingDown(BalanceOf(b.token, c.user), UpdatedLiquidityIndex(b.market, env.now).value)
    requires SeizeTokens(b.(cash := b.cash + c.sent), env, c, seized) == Ok(after)
    ensures SoundBook(after, env.now)
    ensures after == b.(cash := b.cash + c.sent, token := after.token)
    ensures CollateralMoves(b, after, env, c, seized, scaled, false)
  {
    var paid := b.(cash := b.cash + c.sent);
    SoundWithToken(b, b.token, paid.cash, env.now);
    var index;
    index, scaled := SeizedEffect(paid, env, c, seized, after);
    Runs.SeizeTokensSound(paid, env, c, seized);
  }

  lemma OneMarketEffect(b: Book, env: Env, c: LiquidationCall, t: Seizure, after: Book) returns (owed: nat, scaled: nat)
    requires SoundBook(b, env.now)
    requires t.seized <= UnderlyingDown(BalanceOf(b.token, c.user), UpdatedLiquidityIndex(b.market, env.now).value)
    requires SingleMarketAfter(b, env, c, t) == Ok(after)
    ensures DebtFalls(b, after, env, c, owed, t.repaid)
    ensures CollateralMoves(b, after, env, c, t.seized, scaled, true)
    ensures after.cash == b.cash + c.sent - t.refund - Leaving(c, t)
  {
    var seized, taken := Runs.SingleMarketParts(b, env, c, t, after);
    scaled := PaidSeizedEffect(b, env, c, t.seized, seized);
    owed := SettledAfterSeizure(b, seized, env, c, t, taken, after);
  }

  lemma SettledAfterSeizure(b: Book, seized: Book, env: Env, c: LiquidationCall, t: Seizure, taken: nat, after: Book)
    returns (owed: nat)
    requires SoundBook(seized, env.now) && seized == b.(cash := seized.cash, token := seized.token)
    requires SettleDebt(seized, env, c.user, t.repaid, taken) == Ok(after)
    ensures DebtFalls(b, after, env, c, owed, t.repaid)
    ensures taken <= seized.cash && after.cash == seized.cash - taken
    ensures forall x :: BalanceOf(after.token, x) == BalanceOf(seized.token, x) + Share(b, env, x)
  {
    var index;
    index, owed := SettledEffect(seized, env, c.user, t.repaid, taken, after);
  }

  lemma PaidDebtEffect(b: Book, env: Env, c: LiquidationCall, t: Seizure, after: Book) returns (owed: nat)
    requires SoundBook(b, env.now) && t.refund <= c.sent
    requires SettleDebt(b.(cash := b.cash + c.sent), env, c.user, t.repaid, t.refund) == Ok(after)
    ensures DebtFalls(b, after, env, c, owed, t.repaid)
    ensures after.cash == b.cash + c.sent - t.refund
    ensures forall x :: BalanceOf(after.token, x) == BalanceOf(b.token, x) + Share(b, env, x)
  {
    var paid := b.(cash := b.cash + c.sent);
    SoundWithToken(b, b.token, paid.cash, env.now);
    var index;
    index, owed := SettledEffect(paid, env, c.user, t.repaid, t.refund, after);
  }

  /** The two markets of a liquidation across assets. */
  ghost predicate SidesSettle(cb: Book, db: Book, env: Env, c: LiquidationCall, t: Seizure, ca: Book, da: Book,
                              owed: nat, scaled: nat)
  {
    && DebtFalls(db, da, env, c, owed, t.repaid)
    && CollateralMoves(cb, ca, env, c, t.seized, scaled, !c.receiveMaToken)
    && SameDebts(cb, ca)
    && ca.cash == cb.cash - Leaving(c, t)
    && da.cash == db.cash + c.sent - t.refund
    && forall x :: BalanceOf(da.token, x) == BalanceOf(db.token, x) + Share(db, env, x)
  }

  lemma SidesEffect(cb: Book, db: Book, env: Env, c: LiquidationCall, t: Seizure, ca: Book, da: Book)
    returns (owed: nat, scaled: nat)
    requires SoundBook(db, env.now) && SoundBook(cb, env.now) && t.refund <= c.sent
    requires t.seized <= UnderlyingDown(BalanceOf(cb.token, c.user), UpdatedLiquidityIndex(cb.market, env.now).value)
    requires CollateralAfter(cb, env, c, t.seized) == Ok(ca)
    requires SettleDebt(db.(cash := db.cash + c.sent), env, c.user, t.repaid, t.refund) == Ok(da)
    ensures SidesSettle(cb, db, env, c, t, ca, da, owed, scaled)
  {
    var index;
    index, scaled := CollateralEffect(cb, env, c, t.seized, ca);
    owed := PaidDebtEffect(db, env, c, t, da);
  }

  lemma LiquidatedBits(s: Ledger, env: Env, c: LiquidationCall, t: Seizure, balance: nat, users: map<Addr, User>)
    requires c.collateral < |s.books|
    requires var cb := s.books[c.collateral];
             UnderlyingLiquidity(BalanceOf(cb.token, c.user), cb.market, env.now) == Ok(balance)
    requires LiquidatedUsers(s, env, c, t) == Ok(users)
    requires c.receiveMaToken ==> c.user != c.liquidator
    ensures AgreeExcept(s.users, users, c.collateral) && SameBorrowed(s.users, users)
    ensures forall x :: c.collateral in UserOf(users, x).collateral <==>
                        if c.receiveMaToken && x == c.liquidator then true
                        else c.collateral in UserOf(s.users, x).collateral && !(x == c.user && t.seized == balance)
  {
    var given := if c.receiveMaToken then WithCollateral(s.users, c.liquidator, c.collateral) else s.users;
    WithCollateralFrame(s.users, c.liquidator, c.collateral);
    WithoutCollateralFrame(given, c.user, c.collateral);
  }

  lemma LiquidateParts(s: Ledger, env: Env, c: LiquidationCall, z: Seizure) returns (t: Ledger)
    requires Liquidate(s, env, c).Ok? && LiquidationTerms(s, env, c) == Ok(z)
    ensures Liquidate(s, env, c) == Ok(t)
    ensures c.debt < |s.books| && c.collateral < |s.books|
    ensures LiquidatedBooks(s.books, env, c, z) == Ok(t.books)
    ensures LiquidatedUsers(s, env, c, z) == Ok(t.users)
    ensures t == s.(books := t.books, users := t.users)
  {
    t := Liquidate(s, env, c).value;
  }

  /** What a liquidation does to two markets, for some scaled amount of tokens. */
  ghost predicate AcrossSettled(books: seq<Book>, after: seq<Book>, env: Env, c: LiquidationCall, t: Seizure, owed: nat)
    requires c.collateral < |books| && c.debt < |books|
  {
    && |after| == |books|
    && (forall j :: 0 <= j < |books| && j != c.collateral && j != c.debt ==> after[j] == books[j])
    && exists scaled: nat ::
         SidesSettle(books[c.collateral], books[c.debt], env, c, t, after[c.collateral], after[c.debt], owed, scaled)
  }

  lemma AcrossMarkets(books: seq<Book>, cb: Book, db: Book, env: Env, c: LiquidationCall, t: Seizure, after: seq<Book>)
    returns (owed: nat)
    requires c.collateral < |books| && c.debt < |books| && c.collateral != c.debt && t.refund <= c.sent
    requires cb == books[c.collateral] && db == books[c.debt]
    requires SoundBook(db, env.now) && SoundBook(cb, env.now)
    requires t.seized <= UnderlyingDown(BalanceOf(cb.token, c.user), UpdatedLiquidityIndex(cb.market, env.now).value)
    requires LiquidatedBooks(books, env, c, t) == Ok(after)
    ensures AcrossSettled(books, after, env, c, t, owed)
    ensures owed == UnderlyingUp(DebtOf(db, c.user).amountScaled, Accrued(db.market, env.now).borrowIndex)
  {
    var ca, da := Runs.CrossAssetSides(books, env, c, t);
    owed := SidesInBooks(books, cb, db, env, c, t, ca, da, after);
  }

  lemma SidesInBooks(books: seq<Book>, cb: Book, db: Book, env: Env, c: LiquidationCall, t: Seizure, ca: Book, da: Book,
                     after: seq<Book>) returns (owed: nat)
    requires c.collateral < |books| && c.debt < |books| && c.collateral != c.debt && t.refund <= c.sent
    requires cb == books[c.collateral] && db == books[c.debt]
    requires after == books[c.collateral := ca][c.debt := da]
    requires SoundBook(db, env.now) && SoundBook(cb, env.now)
    requires t.seized <= UnderlyingDown(BalanceOf(cb.token, c.user), UpdatedLiquidityIndex(cb.market, env.now).value)
    requires CollateralAfter(cb, env, c, t.seized) == Ok(ca)
    requires SettleDebt(db.(cash := db.cash + c.sent), env, c.user, t.repaid, t.refund) == Ok(da)
    ensures AcrossSettled(books, after, env, c, t, owed)
    ensures owed == UnderlyingUp(DebtOf(db, c.user).amountScaled, Accrued(db.market, env.now).borrowIndex)
  {
    var scaled;
    owed, scaled := SidesEffect(cb, db, env, c, t, ca, da);
    assert after[c.collateral] == ca && after[c.debt] == da;
  }

  /** A liquidation across two markets lowers the user's debt in one by what is repaid, and in the other
      takes tokens worth what is seized from the user: for the liquidator, or for assets that leave. What
      was sent beyond the repayment goes back. The terms are fair. */
  lemma LiquidateAcross(s: Ledger, env: Env, c: LiquidationCall) returns (t: Ledger, x: LiquidationInputs, z: Seizure)
    requires Sound(s) && env.now == s.time && c.collateral != c.debt
    requires Liquidate(s, env, c).Ok?
    ensures Liquidate(s, env, c) == Ok(t) && LiquidationTerms(s, env, c) == Ok(z)
    ensures InputsOf(s, env, c, x) && Fair(x, s.closeFactor, c.sent, z)
    ensures AcrossSettled(s.books, t.books, env, c, z, x.owed)
  {
    x, z := TermsAreFair(s, env, c);
    t := LiquidateParts(s, env, c, z);
    assert SoundBook(s.books[c.collateral], env.now) && SoundBook(s.books[c.debt], env.now);
    var owed := AcrossMarkets(s.books, s.books[c.collateral], s.books[c.debt], env, c, z, t.books);
  }

  /** In one market the same liquidation does both. */
  lemma LiquidateWithin(s: Ledger, env: Env, c: LiquidationCall)
    returns (t: Ledger, x: LiquidationInputs, z: Seizure, scaled: nat)
    requires Sound(s) && env.now == s.time && c.collateral == c.debt
    requires Liquidate(s, env, c).Ok?
    ensures Liquidate(s, env, c) == Ok(t) && LiquidationTerms(s, env, c) == Ok(z)
    ensures InputsOf(s, env, c, x) && Fair(x, s.closeFactor, c.sent, z)
    ensures OnlyMarket(s, t, c.debt)
    ensures var b, after := s.books[c.debt], t.books[c.debt];
            && DebtFalls(b, after, env, c, x.owed, z.repaid)
            && CollateralMoves(b, after, env, c, z.seized, scaled, true)
            && after.cash == b.cash + c.sent - z.refund - Leaving(c, z)
  {
    x, z := TermsAreFair(s, env, c);
    t := LiquidateParts(s, env, c, z);
    var after := Runs.SingleMarketOf(s.books, env, c, z);
    var owed;
    owed, scaled := OneMarketEffect(s.books[c.debt], env, c, z, after);
  }

  /** A liquidation switches the user's collateral off exactly if all of it was seized, the liquidator's on
      exactly if tokens were wanted, and leaves all other bits. */
  lemma LiquidateSwitches(s: Ledger, env: Env, c: LiquidationCall) returns (t: Ledger, x: LiquidationInputs, z: Seizure)
    requires Sound(s) && env.now == s.time
    requires Liquidate(s, env, c).Ok?
    ensures Liquidate(s, env, c) == Ok(t) && LiquidationTerms(s, env, c) == Ok(z)
    ensures InputsOf(s, env, c, x)
    ensures AgreeExcept(s.users, t.users, c.collateral) && SameBorrowed(s.users, t.users)
    ensures forall y :: c.collateral in UserOf(t.users, y).collateral <==>
                        if c.receiveMaToken && y == c.liquidator then true
                        else c.collateral in UserOf(s.users, y).collateral && !(y == c.user && z.seized == x.balance)
  {
    x, z := TermsAreFair(s, env, c);
    t := LiquidateParts(s, env, c, z);
    PreviewEqualsCommit(s.books[c.collateral].market, env.now);
    assert SoundBook(s.books[c.collateral], env.now);
    if c.receiveMaToken {
      LiquidatorIsAnother(s.books, env, c, z);
    }
    LiquidatedBits(s, env, c, z, x.balance, t.users);
  }

  lemma LiquidatorIsAnother(books: seq<Book>, env: Env, c: LiquidationCall, t: Seizure)
    requires c.collateral < |books| && c.debt < |books|
    requires LiquidatedBooks(books, env, c, t).Ok? && c.receiveMaToken
    ensures c.user != c.liquidator
  {
  }
}
