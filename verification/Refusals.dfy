/** The complete lists of reasons for refusing a deposit, a withdrawal, a loan or a liquidation in a reachable state.
    A subtraction that fails is never among them. */
module Refusals {
  import opened Base
  import opened FixedPoint
  import opened InterestRates
  import opened MaToken
  import opened Position
  import opened Ledger
  import opened LiquidationMath
  import opened Invariants
  import opened MarketSurplus
  import opened Reachability
  import Runs
  import Solvency
  import Bitmap

  /** Interest can be accrued and new rates set: no reward is too small to mint, and the reserve factor
      makes sense. */
  ghost predicate Repriceable(m: Market, now: nat) {
    RewardIsMintable(m, now) && m.reserveFactor <= ONE
  }

  /** A user's position can be computed exactly if the markets fit the bitmap and every flagged one has a
      price. */
  lemma PositionRefusals(s: Ledger, who: Addr, env: Env)
    requires Sound(s) && s.time <= env.now
    ensures var u := UserOf(s.users, who);
            PositionOf(s.books, u, who, env).Ok? <==>
              |s.books| <= Bitmap.WIDTH && forall i: nat :: i < |s.books| && Flags(u, i) ==> i in env.prices
  {
    var u := UserOf(s.users, who);
    PositionsListFlagged(s.books, u, who, env, |s.books|);
    forall i: nat | i < |s.books| && Flags(u, i)
      ensures AssetPositionIn(s.books[i], i, u, who, env).Ok? <==> i in env.prices
    {
      assert SoundBook(s.books[i], s.time) && Linked(s.books[i], i, s.users);
    }
  }

  lemma RepriceRefusals(b: Book, taken: nat, now: nat)
    requires SoundBook(b, now)
    ensures RepriceAndPay(b, taken, now).Ok? <==> taken <= b.cash && b.market.reserveFactor <= ONE
  {
    RepricingRefusals(b.market, b.cash, taken, now);
  }

  // ---------- deposits ----------

  lemma DepositedBookRefusals(b: Book, env: Env, user: Addr, amount: nat)
    requires SoundBook(b, env.now)
    ensures DepositedBook(b, env, user, amount).Ok? <==>
              && Repriceable(b.market, env.now)
              && ScaledDown(amount, Accrued(b.market, env.now).liquidityIndex) > 0
  {
    var paid := b.(cash := b.cash + amount);
    SoundWithToken(b, b.token, paid.cash, env.now);
    AccrueRefusals(paid, env);
    if AccrueBook(paid, env).Ok? {
      AccrueBookSound(paid, env);
      var accrued := AccrueBook(paid, env).value;
      RepriceRefusals(accrued, 0, env.now);
      if RepriceAndPay(accrued, 0, env.now).Ok? {
        RepriceAndPaySound(accrued, 0, env.now, env.now);
        AccrualIsIdempotent(RepriceAndPay(accrued, 0, env.now).value.market, env.now);
      }
    }
  }

  /** A deposit is refused only for a market that does not take any or cannot be repriced, and for an
      amount too small to be worth a scaled token. */
  lemma DepositRefusals(s: Ledger, env: Env, user: Addr, a: AssetId, amount: nat)
    requires Sound(s) && env.now == s.time
    ensures Deposit(s, env, user, a, amount).Ok? <==>
              && a < |s.books| && a < Bitmap.WIDTH
              && s.books[a].market.active && s.books[a].market.depositEnabled
              && amount > 0
              && Repriceable(s.books[a].market, env.now)
              && ScaledDown(amount, Accrued(s.books[a].market, env.now).liquidityIndex) > 0
  {
    if a < |s.books| {
      assert SoundBook(s.books[a], env.now);
      DepositedBookRefusals(s.books[a], env, user, amount);
    }
  }

  // ---------- withdrawals ----------

  function BalanceIn(b: Book, who: Addr, now: nat): nat
    requires b.market.indexesLastUpdated <= now
  {
    UnderlyingDown(BalanceOf(b.token, who), UpdatedLiquidityIndex(b.market, now).value)
  }

  /** After accrual and repricing what is burned is positive and there. */
  lemma BurnOfWithdrawal(b: Book, repriced: Book, env: Env, who: Addr, balance: nat, amount: nat)
    requires SoundBook(b, env.now) && SoundBook(repriced, env.now)
    requires repriced.market.indexesLastUpdated == env.now
    requires Ok(repriced.market.liquidityIndex) == UpdatedLiquidityIndex(b.market, env.now)
    requires BalanceOf(repriced.token, who) >= BalanceOf(b.token, who) > 0
    requires balance == BalanceIn(b, who, env.now) && amount <= balance
    requires amount == 0 ==> balance == 0
    ensures var left := ScaledLiquidity(balance - amount, repriced.market, env.now);
            && left.Ok? && left.value <= BalanceOf(b.token, who)
            && Burn(repriced.token, who, BalanceOf(b.token, who) - left.value).Ok?
  {
    AccrualIsIdempotent(repriced.market, env.now);
    RescaleDown(BalanceOf(b.token, who), repriced.market.liquidityIndex, balance - amount);
    assert ScaledDown(0, repriced.market.liquidityIndex) == 0;
    BurnOfHoldingSucceeds(repriced.token, who,
                          BalanceOf(b.token, who) - ScaledDown(balance - amount, repriced.market.liquidityIndex));
  }

  lemma WithdrawnBookRefusals(b: Book, env: Env, who: Addr, balance: nat, amount: nat)
    requires SoundBook(b, env.now) && BalanceOf(b.token, who) > 0
    requires balance == BalanceIn(b, who, env.now) && amount <= balance
    requires amount == 0 ==> balance == 0
    ensures WithdrawnBook(b, env, who, balance, amount).Ok? <==> Repriceable(b.market, env.now) && amount <= b.cash
  {
    AccrueRefusals(b, env);
    if AccrueBook(b, env).Ok? {
      AccrueBookSound(b, env);
      PreviewEqualsCommit(b.market, env.now);
      var accrued := AccrueBook(b, env).value;
      RepriceRefusals(accrued, amount, env.now);
      if RepriceAndPay(accrued, amount, env.now).Ok? {
        RepriceAndPaySound(accrued, amount, env.now, env.now);
        BurnOfWithdrawal(b, RepriceAndPay(accrued, amount, env.now).value, env, who, balance, amount);
      }
    }
  }

  /** What the health check asks for, without its roundings. */
  ghost predicate WithdrawalCovered(s: Ledger, env: Env, who: Addr, a: AssetId, amount: nat)
    requires a < |s.books|
  {
    var p := PositionOf(s.books, UserOf(s.users, who), who, env);
    && p.Ok?
    && a in env.prices
    && p.value.totals.collateralizedDebt > 0
    && p.value.totals.collateralizedDebt
       + MulFloor(MulFloor(amount, env.prices[a]), s.books[a].market.liquidationThreshold)
       <= p.value.totals.weightedThreshold
  }

  /** A user with collateral whose borrowings are all uncollateralized has nothing to divide by, and is
      refused whatever the amount: `WithdrawalCovered` fails for want of collateralized debt. */
  lemma WithdrawalRefusals(s: Ledger, env: Env, who: Addr, a: AssetId, requested: Option<nat>)
    requires Sound(s) && env.now == s.time
    ensures Withdraw(s, env, who, a, requested).Ok? <==>
              && a < |s.books| && a < Bitmap.WIDTH
              && s.books[a].market.active
              && BalanceOf(s.books[a].token, who) > 0
              && s.books[a].market.indexesLastUpdated <= env.now
              && var balance := BalanceIn(s.books[a], who, env.now);
                 var amount := Or(requested, balance);
                 && (requested.Some? ==> 0 < amount <= balance)
                 && (who in s.users || who == env.collector)
                 && (a in UserOf(s.users, who).collateral && UserOf(s.users, who).borrowed != {} ==>
                       WithdrawalCovered(s, env, who, a, amount))
                 && Repriceable(s.books[a].market, env.now)
                 && amount <= s.books[a].cash
  {
    if a < |s.books| && BalanceOf(s.books[a].token, who) > 0 {
      var b := s.books[a];
      assert SoundBook(b, env.now);
      var balance := BalanceIn(b, who, env.now);
      var amount := Or(requested, balance);
      if requested.Some? ==> 0 < amount <= balance {
        WithdrawnBookRefusals(b, env, who, balance, amount);
        WithdrawalTermsExact(s, env, who, a, requested, balance, amount);
      }
    }
  }

  lemma WithdrawalTermsExact(s: Ledger, env: Env, who: Addr, a: AssetId, requested: Option<nat>, balance: nat, amount: nat)
    requires Sound(s) && env.now == s.time && a < |s.books|
    requires BalanceOf(s.books[a].token, who) > 0
    requires UnderlyingLiquidity(BalanceOf(s.books[a].token, who), s.books[a].market, env.now) == Ok(balance)
    requires amount == Or(requested, balance) && (requested.Some? ==> 0 < amount <= balance)
    ensures WithdrawTerms(s, env, who, a, requested).Ok? <==>
              && s.books[a].market.active
              && (who in s.users || who == env.collector)
              && a < Bitmap.WIDTH
              && (a in UserOf(s.users, who).collateral && UserOf(s.users, who).borrowed != {} ==>
                    WithdrawalCovered(s, env, who, a, amount))
    ensures WithdrawTerms(s, env, who, a, requested).Ok? ==>
              WithdrawTerms(s, env, who, a, requested).value == Withdrawal(balance, amount)
  {
    if a in UserOf(s.users, who).collateral && PositionOf(s.books, UserOf(s.users, who), who, env).Ok? {
      WithdrawCheckExact(s, env, who, a, amount, s.books[a].market.liquidationThreshold);
    }
  }

  // ---------- loans ----------

  lemma BorrowedBookRefusals(b: Book, env: Env, who: Addr, amount: nat)
    requires SoundBook(b, env.now)
    ensures BorrowedBook(b, env, who, amount).Ok? <==> Repriceable(b.market, env.now) && amount <= b.cash
  {
    AccrueRefusals(b, env);
    if AccrueBook(b, env).Ok? {
      AccrueBookSound(b, env);
      var accrued := AccrueBook(b, env).value;
      var raised := RaiseDebt(accrued, who, amount, env.now);
      RepricingRefusals(raised.market, raised.cash, amount, env.now);
    }
  }

  /** The total debt a loan leads to is within what the collateral allows. */
  ghost predicate LoanCovered(s: Ledger, env: Env, who: Addr, a: AssetId, amount: nat) {
    var p := PositionOf(s.books, UserOf(s.users, who), who, env);
    && p.Ok?
    && a in env.prices
    && p.value.totals.debt + MulFloor(amount, env.prices[a]) <= p.value.totals.maxDebt
  }

  lemma BorrowCheckIff(s: Ledger, env: Env, who: Addr, a: AssetId, amount: nat)
    requires a < |s.books|
    ensures BorrowCheck(s, env, who, a, amount).Ok? <==> LoanCovered(s, env, who, a, amount)
  {
    if PositionOf(s.books, UserOf(s.users, who), who, env).Ok? {
      PriceOfFlagged(s.books, UserOf(s.users, who), who, env, a);
    }
  }

  lemma BorrowRefusals(s: Ledger, env: Env, who: Addr, a: AssetId, amount: nat)
    requires Sound(s) && env.now == s.time
    ensures Borrow(s, env, who, a, amount).Ok? <==>
              && amount > 0
              && a < |s.books| && a < Bitmap.WIDTH
              && var b := s.books[a];
                 && b.market.active && b.market.borrowEnabled
                 && (who in s.users || LimitOf(b, who) > 0)
                 && (if LimitOf(b, who) == 0 then LoanCovered(s, env, who, a, amount)
                     else UnderlyingDebt(DebtOf(b, who).amountScaled, b.market, env.now) + amount <= LimitOf(b, who))
                 && Repriceable(b.market, env.now)
                 && amount <= b.cash
  {
    if a < |s.books| {
      assert SoundBook(s.books[a], env.now);
      BorrowCheckIff(s, env, who, a, amount);
      BorrowedBookRefusals(s.books[a], env, who, amount);
    }
  }

  // ---------- liquidations ----------

  /** The user's position has less weighted collateral than collateralized debt. */
  ghost predicate Underwater(s: Ledger, env: Env, u: User, who: Addr) {
    var p := PositionOf(s.books, u, who, env);
    p.Ok? && p.value.totals.weightedThreshold < p.value.totals.collateralizedDebt
  }

  lemma UnderwaterTermsExact(s: Ledger, env: Env, c: LiquidationCall, u: User)
    requires c.debt < |s.books| && c.collateral < |s.books|
    requires SoundBook(s.books[c.collateral], env.now)
    requires c.collateral in u.collateral
    requires DebtOf(s.books[c.debt], c.user).amountScaled > 0 ==> c.debt in u.borrowed
    ensures UnderwaterTerms(s, env, c, u).Ok? <==>
              && BalanceIn(s.books[c.collateral], c.user, env.now) > 0
              && DebtOf(s.books[c.debt], c.user).amountScaled > 0
              && Underwater(s, env, u, c.user)
              && s.books[c.debt].market.active
              && c.collateral in env.prices && env.prices[c.collateral] > 0
  {
    if DebtOf(s.books[c.debt], c.user).amountScaled > 0 && PositionOf(s.books, u, c.user, env).Ok? {
      PriceOfFlagged(s.books, u, c.user, env, c.collateral);
      PriceOfFlagged(s.books, u, c.user, env, c.debt);
      HealthyIffBacked(PositionOf(s.books, u, c.user, env).value.totals);
      var cb, db := s.books[c.collateral], s.books[c.debt];
      AmountsWithinBounds(env.prices[c.collateral], env.prices[c.debt], s.closeFactor,
                          BalanceIn(cb, c.user, env.now), cb.market.liquidationBonus,
                          UnderlyingDebt(DebtOf(db, c.user).amountScaled, db.market, env.now), c.sent);
    }
  }

  lemma LiquidationTermsExact(s: Ledger, env: Env, c: LiquidationCall)
    requires Sound(s) && env.now == s.time
    ensures LiquidationTerms(s, env, c).Ok? <==>
              && c.debt < |s.books| && c.collateral < |s.books| && c.collateral < Bitmap.WIDTH
              && LimitOf(s.books[c.debt], c.user) == 0
              && c.sent > 0
              && s.books[c.collateral].market.active && s.books[c.debt].market.active
              && c.user in s.users && c.collateral in s.users[c.user].collateral
              && s.books[c.collateral].market.indexesLastUpdated <= env.now
              && BalanceIn(s.books[c.collateral], c.user, env.now) > 0
              && DebtOf(s.books[c.debt], c.user).amountScaled > 0
              && Underwater(s, env, s.users[c.user], c.user)
              && c.collateral in env.prices && env.prices[c.collateral] > 0
  {
    if c.debt < |s.books| && c.collateral < |s.books| && c.user in s.users
       && c.collateral in s.users[c.user].collateral {
      assert SoundBook(s.books[c.collateral], env.now) && Linked(s.books[c.debt], c.debt, s.users);
      UnderwaterTermsExact(s, env, c, s.users[c.user]);
    }
  }

  /** Some scaled tokens change hands, to somebody else, or the assets they stand for are there. */
  ghost predicate Seizable(b: Book, env: Env, c: LiquidationCall, seized: nat)
    requires b.market.indexesLastUpdated <= env.now
  {
    && ScaledDown(seized, UpdatedLiquidityIndex(b.market, env.now).value) > 0
    && (if c.receiveMaToken then c.user != c.liquidator else seized <= b.cash)
  }

  lemma SeizureRefusals(b: Book, env: Env, c: LiquidationCall, seized: nat)
    requires SoundBook(b, env.now)
    requires seized <= BalanceIn(b, c.user, env.now)
    ensures SeizeTokens(b, env, c, seized).Ok? <==> Seizable(b, env, c, seized)
  {
    var index := UpdatedLiquidityIndex(b.market, env.now).value;
    RescaleDown(BalanceOf(b.token, c.user), index, seized);
    BurnOfHoldingSucceeds(b.token, c.user, ScaledDown(seized, index));
  }

  /** A repayment of nothing leaves a debt that is scaled up again, which may exceed what it was. */
  ghost predicate Settleable(b: Book, env: Env, who: Addr, repaid: nat) {
    var scaled := DebtOf(b, who).amountScaled;
    && Repriceable(b.market, env.now)
    && (repaid > 0 || ScaledDebt(UnderlyingDebt(scaled, b.market, env.now), b.market, env.now) <= scaled)
  }

  lemma LoweringRefusals(b: Book, who: Addr, repaid: nat, now: nat)
    requires SoundBook(b, now)
    requires repaid <= UnderlyingDebt(DebtOf(b, who).amountScaled, b.market, now)
    ensures var scaled := DebtOf(b, who).amountScaled;
            var owed := UnderlyingDebt(scaled, b.market, now);
            LowerDebt(b, who, owed - repaid, now).Ok? <==> repaid > 0 || ScaledDebt(owed, b.market, now) <= scaled
  {
    var owed := UnderlyingDebt(DebtOf(b, who).amountScaled, b.market, now);
    if repaid > 0 {
      LowerDebtSucceeds(b, who, owed - repaid, now, now);
    }
    SoundWithDebt(b, who, DebtOf(b, who), b.market.debtTotalScaled, now);
  }

  lemma SettleRefusals(b: Book, env: Env, who: Addr, repaid: nat, taken: nat)
    requires SoundBook(b, env.now)
    requires repaid <= UnderlyingDebt(DebtOf(b, who).amountScaled, b.market, env.now)
    ensures SettleDebt(b, env, who, repaid, taken).Ok? <==> Settleable(b, env, who, repaid) && taken <= b.cash
  {
    AccrueRefusals(b, env);
    if AccrueBook(b, env).Ok? {
      var accrued := AccrueBook(b, env).value;
      AccrueBookSound(b, env);
      AccruedPreview(b, env, accrued);
      LoweringRefusals(accrued, who, repaid, env.now);
      SettleAfterAccrual(b, env, who, repaid, taken, accrued);
    }
  }

  lemma SettleAfterAccrual(b: Book, env: Env, who: Addr, repaid: nat, taken: nat, accrued: Book)
    requires SoundBook(accrued, env.now) && AccrueBook(b, env) == Ok(accrued)
    requires repaid <= UnderlyingDebt(DebtOf(b, who).amountScaled, b.market, env.now)
    ensures var left := UnderlyingDebt(DebtOf(b, who).amountScaled, b.market, env.now) - repaid;
            SettleDebt(b, env, who, repaid, taken).Ok? <==>
              && LowerDebt(accrued, who, left, env.now).Ok?
              && b.market.reserveFactor <= ONE && taken <= b.cash
  {
    var left := UnderlyingDebt(DebtOf(b, who).amountScaled, b.market, env.now) - repaid;
    var lowered := LowerDebt(accrued, who, left, env.now);
    if lowered.Ok? {
      LowerDebtSound(accrued, who, left, env.now, env.now);
      RepriceRefusals(lowered.value, taken, env.now);
    }
  }

  lemma CollateralRefusals(b: Book, env: Env, c: LiquidationCall, seized: nat) returns (r: Result<Book>)
    requires SoundBook(b, env.now)
    requires seized <= BalanceIn(b, c.user, env.now)
    ensures r == CollateralAfter(b, env, c, seized)
    ensures r.Ok? <==> Seizable(b, env, c, seized) && (c.receiveMaToken || Repriceable(b.market, env.now))
  {
    r := CollateralAfter(b, env, c, seized);
    SeizureRefusals(b, env, c, seized);
    if SeizeTokens(b, env, c, seized).Ok? && !c.receiveMaToken {
      var c1 := SeizeTokens(b, env, c, seized).value;
      Runs.SeizeTokensSound(b, env, c, seized);
      AccrueRefusals(c1, env);
      if AccrueBook(c1, env).Ok? {
        AccrueBookSound(c1, env);
        RepriceRefusals(AccrueBook(c1, env).value, seized, env.now);
      }
    }
  }

  /** What the markets of a liquidation on terms `t` need, beyond the terms. */
  ghost predicate Payable(books: seq<Book>, env: Env, c: LiquidationCall, t: Seizure)
    requires c.collateral < |books| && c.debt < |books|
    requires books[c.collateral].market.indexesLastUpdated <= env.now
  {
    var cb, db := books[c.collateral], books[c.debt];
    if c.collateral == c.debt then
      && Seizable(db.(cash := db.cash + c.sent), env, c, t.seized)
      && Settleable(db, env, c.user, t.repaid)
      && LeavingWith(c, t) <= db.cash + c.sent
    else
      && Seizable(cb, env, c, t.seized)
      && (c.receiveMaToken || Repriceable(cb.market, env.now))
      && Settleable(db, env, c.user, t.repaid)
  }

  /** Tokens and cash have no part in whether a debt can be settled. */
  lemma SettleElsewhere(b: Book, other: Book, env: Env, who: Addr, repaid: nat, taken: nat)
    requires SoundBook(other, env.now) && other.market == b.market && other.debts == b.debts
    requires repaid <= UnderlyingDebt(DebtOf(b, who).amountScaled, b.market, env.now)
    ensures SettleDebt(other, env, who, repaid, taken).Ok? <==> Settleable(b, env, who, repaid) && taken <= other.cash
  {
    SettleRefusals(other, env, who, repaid, taken);
  }

  /** The payment arrives before the collateral is taken, and taking it only changes the token. */
  lemma PaidThenSeized(b: Book, env: Env, c: LiquidationCall, seized: nat) returns (r: Result<Book>)
    requires SoundBook(b, env.now) && seized <= BalanceIn(b, c.user, env.now)
    ensures r == SeizeTokens(b.(cash := b.cash + c.sent), env, c, seized)
    ensures r.Ok? <==> Seizable(b.(cash := b.cash + c.sent), env, c, seized)
    ensures r.Ok? ==> SoundBook(r.value, env.now) && r.value == b.(cash := b.cash + c.sent, token := r.value.token)
  {
    var paid := b.(cash := b.cash + c.sent);
    SoundWithToken(b, b.token, paid.cash, env.now);
    r := SeizeTokens(paid, env, c, seized);
    SeizureRefusals(paid, env, c, seized);
    if r.Ok? {
      Runs.SeizeTokensSound(paid, env, c, seized);
    }
  }

  lemma SettleSeizedRefusals(b: Book, seized: Result<Book>, env: Env, c: LiquidationCall, t: Seizure)
    returns (r: Result<Book>)
    requires seized.Ok? ==>
               && SoundBook(seized.value, env.now)
               && seized.value == b.(cash := b.cash + c.sent, token := seized.value.token)
    requires t.repaid <= UnderlyingDebt(DebtOf(b, c.user).amountScaled, b.market, env.now)
    ensures r == SettleSeized(seized, env, c, t)
    ensures r.Ok? <==> seized.Ok? && Settleable(b, env, c.user, t.repaid) && LeavingWith(c, t) <= b.cash + c.sent
  {
    r := SettleSeized(seized, env, c, t);
    if seized.Ok? {
      SettleElsewhere(b, seized.value, env, c.user, t.repaid, LeavingWith(c, t));
    }
  }

  lemma SingleMarketRefusals(b: Book, env: Env, c: LiquidationCall, t: Seizure) returns (r: Result<Book>)
    requires SoundBook(b, env.now)
    requires t.seized <= BalanceIn(b, c.user, env.now)
    requires t.repaid <= UnderlyingDebt(DebtOf(b, c.user).amountScaled, b.market, env.now)
    ensures r == SingleMarketAfter(b, env, c, t)
    ensures r.Ok? <==>
              && Seizable(b.(cash := b.cash + c.sent), env, c, t.seized)
              && Settleable(b, env, c.user, t.repaid)
              && LeavingWith(c, t) <= b.cash + c.sent
  {
    var seized := PaidThenSeized(b, env, c, t.seized);
    r := SettleSeizedRefusals(b, seized, env, c, t);
  }

  lemma BothSides(books: seq<Book>, env: Env, c: LiquidationCall, t: Seizure, cb: Result<Book>, db: Result<Book>)
    returns (r: Result<seq<Book>>)
    requires c.collateral < |books| && c.debt < |books| && c.collateral != c.debt
    requires cb == CollateralAfter(books[c.collateral], env, c, t.seized)
    requires db == SettleDebt(books[c.debt].(cash := books[c.debt].cash + c.sent), env, c.user, t.repaid, t.refund)
    ensures r == LiquidatedBooks(books, env, c, t)
    ensures r.Ok? <==> cb.Ok? && db.Ok?
  {
    r := WithBoth(books, c, cb, db);
  }

  lemma TwoMarketRefusals(books: seq<Book>, env: Env, c: LiquidationCall, t: Seizure) returns (r: Result<seq<Book>>)
    requires c.collateral < |books| && c.debt < |books| && c.collateral != c.debt
    requires SoundBook(books[c.collateral], env.now) && SoundBook(books[c.debt], env.now)
    requires t.seized <= BalanceIn(books[c.collateral], c.user, env.now)
    requires t.repaid <= UnderlyingDebt(DebtOf(books[c.debt], c.user).amountScaled, books[c.debt].market, env.now)
    requires t.refund <= c.sent
    ensures r == LiquidatedBooks(books, env, c, t)
    ensures r.Ok? <==>
              && Seizable(books[c.collateral], env, c, t.seized)
              && (c.receiveMaToken || Repriceable(books[c.collateral].market, env.now))
              && Settleable(books[c.debt], env, c.user, t.repaid)
  {
    var seized := CollateralRefusals(books[c.collateral], env, c, t.seized);
    var settled := SettlePaidRefusals(books[c.debt], env, c, t);
    r := BothSides(books, env, c, t, seized, settled);
  }

  lemma SettlePaidRefusals(b: Book, env: Env, c: LiquidationCall, t: Seizure) returns (r: Result<Book>)
    requires SoundBook(b, env.now) && t.refund <= c.sent
    requires t.repaid <= UnderlyingDebt(DebtOf(b, c.user).amountScaled, b.market, env.now)
    ensures r == SettleDebt(b.(cash := b.cash + c.sent), env, c.user, t.repaid, t.refund)
    ensures r.Ok? <==> Settleable(b, env, c.user, t.repaid)
  {
    var paid := b.(cash := b.cash + c.sent);
    SoundWithToken(b, b.token, paid.cash, env.now);
    SettleElsewhere(b, paid, env, c.user, t.repaid, t.refund);
    r := SettleDebt(paid, env, c.user, t.repaid, t.refund);
  }

  lemma LiquidatedBooksRefusals(books: seq<Book>, env: Env, c: LiquidationCall, t: Seizure)
    requires c.collateral < |books| && c.debt < |books|
    requires SoundBook(books[c.collateral], env.now) && SoundBook(books[c.debt], env.now)
    requires t.seized <= BalanceIn(books[c.collateral], c.user, env.now)
    requires t.repaid <= UnderlyingDebt(DebtOf(books[c.debt], c.user).amountScaled, books[c.debt].market, env.now)
    requires t.refund <= c.sent
    ensures LiquidatedBooks(books, env, c, t).Ok? <==> Payable(books, env, c, t)
  {
    if c.collateral == c.debt {
      var r := SingleMarketRefusals(books[c.debt], env, c, t);
    } else {
      var r := TwoMarketRefusals(books, env, c, t);
    }
  }

  /** A liquidation goes through exactly if it passes the checks, for which see `LiquidationTermsExact`,
      and its markets can pay what it comes to. */
  lemma LiquidationRefusals(s: Ledger, env: Env, c: LiquidationCall)
    requires Sound(s) && env.now == s.time
    ensures Liquidate(s, env, c).Ok? <==>
              && LiquidationTerms(s, env, c).Ok?
              && c.debt < |s.books| && c.collateral < |s.books|
              && s.books[c.collateral].market.indexesLastUpdated <= env.now
              && Payable(s.books, env, c, LiquidationTerms(s, env, c).value)
  {
    if LiquidationTerms(s, env, c).Ok? {
      Runs.LiquidationTermsFit(s, env, c);
      RepaidWithinDebt(s, env, c);
      assert SoundBook(s.books[c.collateral], env.now) && SoundBook(s.books[c.debt], env.now);
      var t := LiquidationTerms(s, env, c).value;
      Solvency.TermsSplitSent(s, env, c);
      LiquidatedBooksRefusals(s.books, env, c, t);
    }
  }

  // ---------- within a million ----------

  /** While the index is within a million, whoever owes can repay: only the owner of the market can stop
      it, by deactivating it or by a reserve factor above one. */
  lemma DebtorsCanRepay(s: Ledger, env: Env, who: Addr, a: AssetId, amount: nat)
    requires Sound(s) && env.now == s.time && a < |s.books|
    requires Accrued(s.books[a].market, env.now).liquidityIndex <= UNIT
    requires DebtOf(s.books[a], who).amountScaled > 0 && amount > 0
    ensures Repay(s, env, who, None, a, amount).Ok? <==>
              s.books[a].market.active && s.books[a].market.reserveFactor <= ONE
  {
    RewardsMintableWithinMillion(s.books[a].market, env.now);
    RepaymentRefusals(s, env, who, None, a, amount);
  }
}
