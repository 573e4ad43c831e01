/** Which refusals can happen in sound states, and which cannot. */
module Reachability {
  import opened Base
  import opened FixedPoint
  import opened RateModels
  import opened InterestRates
  import opened MaToken
  import opened Position
  import opened Ledger
  import opened LiquidationMath
  import opened Invariants
  import opened Runs

  // ---------- repricing and repayment ----------

  lemma UtilizationAtMostOne(available: nat, debt: nat)
    ensures Utilization(available, debt) <= ONE
  {
    if debt > 0 {
      FloorBelow(debt * ONE, available + debt, ONE + 1);
    }
  }

  /** With validated parameters the rate models never fail; the rates are refused exactly for want of
      liquidity, or for a reserve factor above one, which nothing else checks. */
  lemma RepricingRefusals(m: Market, cash: nat, taken: nat, now: nat)
    requires ModelSound(m.model, now)
    ensures Repriced(m, cash, taken, now).Ok? <==> taken <= cash && m.reserveFactor <= ONE
  {
    if taken <= cash {
      var u := Utilization(cash - taken, UnderlyingDebt(m.debtTotalScaled, m, now));
      UtilizationAtMostOne(cash - taken, UnderlyingDebt(m.debtTotalScaled, m, now));
      assert NextBorrowRate(m.model, u, m.borrowRate, now).Ok?;
    }
  }

  /** A repayment of at least one unit is never refused by a subtraction. */
  lemma LowerDebtSucceeds(b: Book, who: Addr, owed: nat, now: nat, time: nat)
    requires SoundBook(b, time)
    requires owed < UnderlyingDebt(DebtOf(b, who).amountScaled, b.market, now)
    ensures LowerDebt(b, who, owed, now).Ok?
  {
    RescaleUp(DebtOf(b, who).amountScaled, UpdatedBorrowIndex(b.market, now), owed);
    SoundWithDebt(b, who, DebtOf(b, who), b.market.debtTotalScaled, time);
  }

  ghost predicate RewardIsMintable(m: Market, now: nat) {
    ProtocolRewards(m, now) > 0 ==> RewardMint(m, now) > 0
  }

  /** The rewards can be minted in every market whose liquidity index is within a million. */
  lemma RewardsMintableWithinMillion(m: Market, now: nat)
    requires Accrued(m, now).liquidityIndex <= UNIT
    ensures RewardIsMintable(m, now)
  {
    if ProtocolRewards(m, now) > 0 {
      PartOfBalanceStaysScaled(ProtocolRewards(m, now), Accrued(m, now).liquidityIndex);
    }
  }

  lemma AccrueRefusals(b: Book, env: Env)
    ensures AccrueBook(b, env).Ok? <==> RewardIsMintable(b.market, env.now)
  {
  }

  lemma RepaidBookSucceeds(b: Book, env: Env, who: Addr, amount: nat)
    requires SoundBook(b, env.now)
    requires amount > 0 && DebtOf(b, who).amountScaled > 0
    ensures RepaidBook(b, env, who, amount).Ok? <==>
              RewardIsMintable(b.market, env.now) && b.market.reserveFactor <= ONE
  {
    AccrueRefusals(b, env);
    if AccrueBook(b, env).Ok? {
      AccrueBookSound(b, env);
      var accrued := AccrueBook(b, env).value;
      var scaled := DebtOf(b, who).amountScaled;
      assert DebtOf(accrued, who) == DebtOf(b, who);
      var owed := UnderlyingDebt(scaled, accrued.market, env.now);
      DebtNeverVanishes(scaled, 0, UpdatedBorrowIndex(accrued.market, env.now));
      var left := if amount > owed then 0 else owed - amount;
      LowerDebtSucceeds(accrued, who, left, env.now, env.now);
      LowerDebtSound(accrued, who, left, env.now, env.now);
      var lowered := LowerDebt(accrued, who, left, env.now).value;
      RepricingRefusals(lowered.market, lowered.cash + amount, 0, env.now);
    }
  }

  /** Whoever owes can repay: the complete list of reasons for refusing a repayment. A loan with a limit
      can only be repaid by its borrower. */
  lemma RepaymentRefusals(s: Ledger, env: Env, sender: Addr, onBehalfOf: Option<Addr>, a: AssetId, amount: nat)
    requires Sound(s) && env.now == s.time
    ensures Repay(s, env, sender, onBehalfOf, a, amount).Ok? <==>
              && a < |s.books|
              && (onBehalfOf.Some? ==> LimitOf(s.books[a], onBehalfOf.value) == 0)
              && s.books[a].market.active
              && amount > 0
              && DebtOf(s.books[a], if onBehalfOf.Some? then onBehalfOf.value else sender).amountScaled > 0
              && RewardIsMintable(s.books[a].market, env.now)
              && s.books[a].market.reserveFactor <= ONE
  {
    if a < |s.books| {
      var who := if onBehalfOf.Some? then onBehalfOf.value else sender;
      assert Linked(s.books[a], a, s.users);
      if DebtOf(s.books[a], who).amountScaled > 0 && amount > 0 {
        assert Flags(UserOf(s.users, who), a);
        RepaidBookSucceeds(s.books[a], env, who, amount);
      }
    }
  }

  lemma RepaidDebtLowers(b: Book, db: Book, who: Addr, repaid: nat, now: nat) returns (owed: nat)
    requires SoundBook(b, now) && b.debts == db.debts
    requires UpdatedBorrowIndex(b.market, now) == UpdatedBorrowIndex(db.market, now)
    requires 0 < repaid <= UnderlyingDebt(DebtOf(db, who).amountScaled, db.market, now)
    ensures owed == UnderlyingDebt(DebtOf(b, who).amountScaled, b.market, now)
    ensures repaid <= owed && LowerDebt(b, who, owed - repaid, now).Ok?
  {
    owed := UnderlyingDebt(DebtOf(b, who).amountScaled, b.market, now);
    LowerDebtSucceeds(b, who, owed - repaid, now, now);
  }

  /** Nor does a liquidation that repays at least one unit fail on its debt side. */
  lemma LiquidationDebtNeverUnderflows(s: Ledger, env: Env, c: LiquidationCall, b: Book) returns (repaid: nat, owed: nat)
    requires Sound(s) && env.now == s.time
    requires LiquidationTerms(s, env, c).Ok?
    requires LiquidationTerms(s, env, c).value.repaid > 0
    requires c.debt < |s.books|
    requires SoundBook(b, env.now) && b.debts == s.books[c.debt].debts
    requires UpdatedBorrowIndex(b.market, env.now) == UpdatedBorrowIndex(s.books[c.debt].market, env.now)
    ensures repaid == LiquidationTerms(s, env, c).value.repaid
    ensures owed == UnderlyingDebt(DebtOf(b, c.user).amountScaled, b.market, env.now)
    ensures repaid <= owed && LowerDebt(b, c.user, owed - repaid, env.now).Ok?
  {
    repaid := LiquidationTerms(s, env, c).value.repaid;
    RepaidWithinDebt(s, env, c);
    owed := RepaidDebtLowers(b, s.books[c.debt], c.user, repaid, env.now);
  }

  /** What a liquidation repays, against the debt it is called for. */
  lemma RepaidWithinDebt(s: Ledger, env: Env, c: LiquidationCall)
    requires s.closeFactor <= ONE
    requires LiquidationTerms(s, env, c).Ok?
    ensures c.debt < |s.books|
    ensures DebtOf(s.books[c.debt], c.user).amountScaled > 0
    ensures var db := s.books[c.debt];
            var debt := UnderlyingDebt(DebtOf(db, c.user).amountScaled, db.market, env.now);
            var repaid := LiquidationTerms(s, env, c).value.repaid;
            && repaid <= MulFloor(debt, s.closeFactor) <= debt
            && (s.closeFactor < ONE ==> repaid < debt)
  {
    var db, cb := s.books[c.debt], s.books[c.collateral];
    var debt := UnderlyingDebt(DebtOf(db, c.user).amountScaled, db.market, env.now);
    var balance := UnderlyingLiquidity(BalanceOf(cb.token, c.user), cb.market, env.now).value;
    var p := PositionOf(s.books, s.users[c.user], c.user, env).value;
    var cp, dp := PriceIn(p.assets, c.collateral).value, PriceIn(p.assets, c.debt).value;
    AmountsWithinBounds(cp, dp, s.closeFactor, balance, cb.market.liquidationBonus, debt, c.sent);
    DebtNeverVanishes(DebtOf(db, c.user).amountScaled, 0, UpdatedBorrowIndex(db.market, env.now));
    MulFloorAtMost(debt, s.closeFactor);
    if s.closeFactor < ONE {
      SomeDebtRemains(cp, dp, s.closeFactor, balance, cb.market.liquidationBonus, debt, c.sent);
    }
  }

  // ---------- prices and the not-borrowing branch ----------

  lemma {:induction false} PositionsMissNoPrice(books: seq<Book>, u: User, who: Addr, env: Env, n: nat)
    requires n <= |books|
    ensures AssetPositions(books, u, who, env, n) != Err(PriceNotFound)
  {
    if n > 0 {
      PositionsMissNoPrice(books, u, who, env, n - 1);
    }
  }

  /** A withdrawal, a loan or a liquidation never fails for want of a price it looked up before:
      whatever market is asked about is flagged in the bitmaps. */
  lemma NoPriceIsMissing(s: Ledger, env: Env, who: Addr, a: AssetId, amount: nat, threshold: nat, c: LiquidationCall)
    requires Sound(s) && a < |s.books|
    ensures a in UserOf(s.users, who).collateral ==> WithdrawCheck(s, env, who, a, amount, threshold) != Err(PriceNotFound)
    ensures BorrowCheck(s, env, who, a, amount) != Err(PriceNotFound)
    ensures LiquidationTerms(s, env, c) != Err(PriceNotFound)
  {
    var u := UserOf(s.users, who);
    PositionsMissNoPrice(s.books, u, who, env, |s.books|);
    if PositionOf(s.books, u, who, env).Ok? {
      PriceOfFlagged(s.books, u, who, env, a);
    }
    LiquidationFindsPrices(s, env, c);
  }

  lemma LiquidationFindsPrices(s: Ledger, env: Env, c: LiquidationCall)
    requires Sound(s)
    ensures LiquidationTerms(s, env, c) != Err(PriceNotFound)
  {
    if c.user in s.users && c.debt < |s.books| && c.collateral < |s.books| {
      var u := s.users[c.user];
      assert Linked(s.books[c.debt], c.debt, s.users);
      if c.collateral in u.collateral {
        UnderwaterFindsPrices(s, env, c, u);
      }
    }
  }

  lemma UnderwaterFindsPrices(s: Ledger, env: Env, c: LiquidationCall, u: User)
    requires c.debt < |s.books| && c.collateral < |s.books|
    requires c.collateral in u.collateral
    requires DebtOf(s.books[c.debt], c.user).amountScaled > 0 ==> c.debt in u.borrowed
    ensures UnderwaterTerms(s, env, c, u) != Err(PriceNotFound)
  {
    PositionsMissNoPrice(s.books, u, c.user, env, |s.books|);
    if PositionOf(s.books, u, c.user, env).Ok? {
      PriceOfFlagged(s.books, u, c.user, env, c.collateral);
      PriceOfFlagged(s.books, u, c.user, env, c.debt);
    }
  }

  lemma {:induction false} SumIncludes(books: seq<Book>, u: User, who: Addr, env: Env, n: nat, i: nat)
    requires i < n <= |books|
    ensures ValueIn(books[i], i, u, who, env).collateralizedDebt <= SumOfValues(books, u, who, env, n).collateralizedDebt
  {
    if i < n - 1 {
      SumIncludes(books, u, who, env, n - 1, i);
    }
  }

  /** A debtor without a loan limit whose debt is worth at least one uusd counts as borrowing, so
      the branch of a liquidation for users who do not is dead for such debts. */
  lemma DebtorsAreBorrowing(s: Ledger, env: Env, who: Addr, d: AssetId)
    requires Sound(s) && d < |s.books|
    requires PositionOf(s.books, UserOf(s.users, who), who, env).Ok?
    requires LimitOf(s.books[d], who) == 0
    requires DebtOf(s.books[d], who).amountScaled > 0
    ensures d in env.prices
    ensures MulFloor(UnderlyingDebt(DebtOf(s.books[d], who).amountScaled, s.books[d].market, env.now), env.prices[d]) > 0 ==>
              PositionOf(s.books, UserOf(s.users, who), who, env).value.health.Borrowing?
  {
    var u := UserOf(s.users, who);
    assert Linked(s.books[d], d, s.users);
    assert SoundBook(s.books[d], s.time);
    assert Flags(u, d);
    PriceOfFlagged(s.books, u, who, env, d);
    PositionsListFlagged(s.books, u, who, env, |s.books|);
    TotalsAreSums(s.books, u, who, env, |s.books|);
    SumIncludes(s.books, u, who, env, |s.books|, d);
  }

  /** The health check of a withdrawal, exactly. It asks for more than the health of what stays
      behind: a user whose only debt is uncollateralized has nothing to divide by and is refused. */
  lemma WithdrawCheckExact(s: Ledger, env: Env, who: Addr, a: AssetId, amount: nat, threshold: nat)
    requires a < |s.books| && a in UserOf(s.users, who).collateral
    requires PositionOf(s.books, UserOf(s.users, who), who, env).Ok?
    ensures a in env.prices
    ensures var v := PositionOf(s.books, UserOf(s.users, who), who, env).value.totals;
            var leaving := MulFloor(MulFloor(amount, env.prices[a]), threshold);
            WithdrawCheck(s, env, who, a, amount, threshold).Ok? <==>
              v.collateralizedDebt > 0 && v.collateralizedDebt + leaving <= v.weightedThreshold
  {
    PriceOfFlagged(s.books, UserOf(s.users, who), who, env, a);
    var v := PositionOf(s.books, UserOf(s.users, who), who, env).value.totals;
    var leaving := MulFloor(MulFloor(amount, env.prices[a]), threshold);
    if leaving <= v.weightedThreshold {
      HealthyIffBacked(Valuation(0, 0, v.collateralizedDebt, 0, v.weightedThreshold - leaving));
    }
  }

  // ---------- the borrowed bit against the debt ----------

  /** Every bit in the borrowed map stands for a positive debt. */
  ghost predicate Exact(s: Ledger) {
    forall i, a :: 0 <= i < |s.books| && i in UserOf(s.users, a).borrowed ==> DebtOf(s.books[i], a).amountScaled > 0
  }

  lemma ExactAfterDebtChange(s: Ledger, i: AssetId, after: Book, users: map<Addr, User>, who: Addr)
    requires Exact(s) && i < |s.books|
    requires after.debts == s.books[i].debts[who := DebtOf(after, who)] || after.debts == s.books[i].debts
    requires AgreeExcept(s.users, users, i)
    requires forall a :: a != who ==> (i in UserOf(s.users, a).borrowed <==> i in UserOf(users, a).borrowed)
    requires i in UserOf(users, who).borrowed ==> DebtOf(after, who).amountScaled > 0
    ensures Exact(s.(books := s.books[i := after], users := users))
  {
    var t := s.(books := s.books[i := after], users := users);
    forall j, a | 0 <= j < |t.books| && j in UserOf(t.users, a).borrowed
      ensures DebtOf(t.books[j], a).amountScaled > 0
    {
      if j == i && a != who {
        assert DebtOf(after, a) == DebtOf(s.books[i], a);
      }
    }
  }

  lemma BorrowExact(s: Ledger, env: Env, who: Addr, a: AssetId, amount: nat)
    requires Sound(s) && Exact(s) && env.now == s.time
    requires Borrow(s, env, who, a, amount).Ok?
    ensures Exact(Borrow(s, env, who, a, amount).value)
  {
    BorrowedBookSound(s.books[a], env, who, amount);
    DebtNeverVanishes(0, amount, UpdatedBorrowIndex(s.books[a].market, env.now));
    WithBorrowedFrame(s.users, who, a);
    ExactAfterDebtChange(s, a, BorrowedBook(s.books[a], env, who, amount).value, WithBorrowed(s.users, who, a), who);
  }

  lemma RepayExact(s: Ledger, env: Env, sender: Addr, onBehalfOf: Option<Addr>, a: AssetId, amount: nat)
    requires Sound(s) && Exact(s) && env.now == s.time
    requires Repay(s, env, sender, onBehalfOf, a, amount).Ok?
    ensures Exact(Repay(s, env, sender, onBehalfOf, a, amount).value)
  {
    var who := Beneficiary(s.books[a], sender, onBehalfOf).value;
    RepaidBookSound(s.books[a], env, who, amount);
    var after := RepaidBook(s.books[a], env, who, amount).value;
    WithoutBorrowedFrame(s.users, who, a);
    ExactAfterDebtChange(s, a, after, Repay(s, env, sender, onBehalfOf, a, amount).value.users, who);
  }

  /** What is left of a debt after a liquidation: nothing exactly when all of it was repaid. */
  lemma SettledDebt(b: Book, env: Env, who: Addr, repaid: nat, taken: nat)
    requires SoundBook(b, env.now)
    requires SettleDebt(b, env, who, repaid, taken).Ok?
    ensures var owed := UnderlyingDebt(DebtOf(b, who).amountScaled, b.market, env.now);
            var after := SettleDebt(b, env, who, repaid, taken).value;
            && repaid <= owed
            && after.debts == b.debts[who := DebtOf(after, who)]
            && DebtOf(after, who).uncollateralized == DebtOf(b, who).uncollateralized
            && (DebtOf(after, who).amountScaled == 0 <==> repaid == owed)
  {
    AccrueBookSound(b, env);
    var b1 := AccrueBook(b, env).value;
    AccrualIsIdempotent(b1.market, env.now);
    var owed := UnderlyingDebt(DebtOf(b, who).amountScaled, b.market, env.now);
    LowerDebtSound(b1, who, owed - repaid, env.now, env.now);
    var b2 := LowerDebt(b1, who, owed - repaid, env.now).value;
    RepriceAndPaySound(b2, taken, env.now, env.now);
    DebtNeverVanishes(0, owed - repaid, b1.market.borrowIndex);
  }

  /** The debt market of a liquidation on terms `t`: only the user's debt record differs, it keeps its
      kind, and it is empty exactly when everything owed was repaid. */
  ghost predicate DebtPaid(before: Book, after: Book, env: Env, who: Addr, repaid: nat) {
    && after.debts == before.debts[who := DebtOf(after, who)]
    && DebtOf(after, who).uncollateralized == DebtOf(before, who).uncollateralized
    && (DebtOf(after, who).amountScaled == 0 <==>
          repaid == UnderlyingDebt(DebtOf(before, who).amountScaled, before.market, env.now))
  }

  lemma SameAssetDebts(b: Book, env: Env, c: LiquidationCall, t: Seizure, seized: Book, taken: nat, after: Book)
    requires SoundBook(b, env.now)
    requires SeizeTokens(b.(cash := b.cash + c.sent), env, c, t.seized) == Ok(seized)
    requires SettleDebt(seized, env, c.user, t.repaid, taken) == Ok(after)
    requires t.seized <= UnderlyingDown(BalanceOf(b.token, c.user), UpdatedLiquidityIndex(b.market, env.now).value)
    ensures DebtPaid(b, after, env, c.user, t.repaid)
  {
    SoundWithToken(b, b.token, b.cash + c.sent, env.now);
    SeizeTokensSound(b.(cash := b.cash + c.sent), env, c, t.seized);
    SettledDebt(seized, env, c.user, t.repaid, taken);
  }

  lemma CrossAssetDebts(b: Book, env: Env, c: LiquidationCall, t: Seizure, after: Book)
    requires SoundBook(b, env.now)
    requires SettleDebt(b.(cash := b.cash + c.sent), env, c.user, t.repaid, t.refund) == Ok(after)
    ensures DebtPaid(b, after, env, c.user, t.repaid)
  {
    SoundWithToken(b, b.token, b.cash + c.sent, env.now);
    SettledDebt(b.(cash := b.cash + c.sent), env, c.user, t.repaid, t.refund);
  }

  lemma OneBookReplaced(books: seq<Book>, i: AssetId, b: Book)
    requires i < |books|
    ensures var after := books[i := b];
            && |after| == |books| && after[i] == b
            && (forall k :: 0 <= k < |books| && k != i ==> after[k].debts == books[k].debts)
  {
  }

  lemma SameAssetBooksDebts(books: seq<Book>, env: Env, c: LiquidationCall, t: Seizure) returns (after: seq<Book>)
    requires c.collateral == c.debt < |books|
    requires SoundBook(books[c.debt], env.now)
    requires LiquidatedBooks(books, env, c, t).Ok?
    requires var cb := books[c.collateral];
             t.seized <= UnderlyingDown(BalanceOf(cb.token, c.user), UpdatedLiquidityIndex(cb.market, env.now).value)
    ensures LiquidatedBooks(books, env, c, t) == Ok(after)
    ensures |after| == |books|
    ensures DebtPaid(books[c.debt], after[c.debt], env, c.user, t.repaid)
    ensures forall i :: 0 <= i < |books| && i != c.debt ==> after[i].debts == books[i].debts
  {
    var seized, taken, settled := SameAssetParts(books, env, c, t);
    SameAssetDebts(books[c.debt], env, c, t, seized, taken, settled);
    OneBookReplaced(books, c.debt, settled);
    after := books[c.debt := settled];
  }

  lemma CollateralKeepsDebts(b: Book, env: Env, c: LiquidationCall, seized: nat, after: Book)
    requires CollateralAfter(b, env, c, seized) == Ok(after)
    ensures after.debts == b.debts
  {
  }

  lemma TwoBooksReplaced(books: seq<Book>, i: AssetId, b: Book, j: AssetId, c: Book) returns (after: seq<Book>)
    requires i != j && i < |books| && j < |books|
    requires b.debts == books[i].debts
    ensures after == books[i := b][j := c]
    ensures |after| == |books| && after[j] == c
    ensures forall k :: 0 <= k < |books| && k != j ==> after[k].debts == books[k].debts
  {
    after := books[i := b][j := c];
  }

  lemma CrossAssetBooksDebts(books: seq<Book>, env: Env, c: LiquidationCall, t: Seizure, cb: Book, settled: Book)
    returns (after: seq<Book>)
    requires c.collateral != c.debt && c.collateral < |books| && c.debt < |books|
    requires SoundBook(books[c.debt], env.now)
    requires CollateralAfter(books[c.collateral], env, c, t.seized) == Ok(cb)
    requires SettleDebt(books[c.debt].(cash := books[c.debt].cash + c.sent), env, c.user, t.repaid, t.refund) == Ok(settled)
    ensures after == books[c.collateral := cb][c.debt := settled]
    ensures |after| == |books| && after[c.debt] == settled
    ensures DebtPaid(books[c.debt], settled, env, c.user, t.repaid)
    ensures forall i :: 0 <= i < |books| && i != c.debt ==> after[i].debts == books[i].debts
  {
    CollateralKeepsDebts(books[c.collateral], env, c, t.seized, cb);
    CrossAssetDebts(books[c.debt], env, c, t, settled);
    after := TwoBooksReplaced(books, c.collateral, cb, c.debt, settled);
  }

  lemma TwoMarketsDebts(books: seq<Book>, env: Env, c: LiquidationCall, t: Seizure) returns (after: seq<Book>)
    requires c.collateral != c.debt && c.collateral < |books| && c.debt < |books|
    requires SoundBook(books[c.debt], env.now)
    requires LiquidatedBooks(books, env, c, t).Ok?
    ensures LiquidatedBooks(books, env, c, t) == Ok(after)
    ensures |after| == |books|
    ensures DebtPaid(books[c.debt], after[c.debt], env, c.user, t.repaid)
    ensures forall i :: 0 <= i < |books| && i != c.debt ==> after[i].debts == books[i].debts
  {
    var cb, settled := CrossAssetSides(books, env, c, t);
    after := CrossAssetBooksDebts(books, env, c, t, cb, settled);
  }

  lemma LiquidatedUsersKeepBorrowed(s: Ledger, env: Env, c: LiquidationCall, t: Seizure)
    requires c.collateral < |s.books|
    requires LiquidatedUsers(s, env, c, t).Ok?
    ensures SameBorrowed(s.users, LiquidatedUsers(s, env, c, t).value)
  {
    WithCollateralFrame(s.users, c.liquidator, c.collateral);
    WithoutCollateralFrame(WithCollateral(s.users, c.liquidator, c.collateral), c.user, c.collateral);
    WithoutCollateralFrame(s.users, c.user, c.collateral);
  }

  /** The debt side of a whole liquidation, whichever markets are involved. */
  lemma LiquidatedDebts(s: Ledger, env: Env, c: LiquidationCall)
    requires Sound(s) && env.now == s.time
    requires Liquidate(s, env, c).Ok?
    ensures c.debt < |s.books|
    ensures var t := Liquidate(s, env, c).value;
            && |t.books| == |s.books|
            && SameBorrowed(s.users, t.users)
            && DebtPaid(s.books[c.debt], t.books[c.debt], env, c.user, LiquidationTerms(s, env, c).value.repaid)
            && (forall i :: 0 <= i < |s.books| && i != c.debt ==> t.books[i].debts == s.books[i].debts)
  {
    LiquidationTermsFit(s, env, c);
    var terms := LiquidationTerms(s, env, c).value;
    if c.collateral == c.debt {
      var _ := SameAssetBooksDebts(s.books, env, c, terms);
    } else {
      var _ := TwoMarketsDebts(s.books, env, c, terms);
    }
    LiquidatedUsersKeepBorrowed(s, env, c, terms);
  }

  lemma LiquidateExact(s: Ledger, env: Env, c: LiquidationCall)
    requires Sound(s) && Exact(s) && env.now == s.time
    requires s.closeFactor < ONE
    requires Liquidate(s, env, c).Ok?
    ensures Exact(Liquidate(s, env, c).value)
  {
    var t := Liquidate(s, env, c).value;
    LiquidatedDebts(s, env, c);
    RepaidWithinDebt(s, env, c);
    forall i, a | 0 <= i < |t.books| && i in UserOf(t.users, a).borrowed
      ensures DebtOf(t.books[i], a).amountScaled > 0
    {
      assert i in UserOf(s.users, a).borrowed;
      if i != c.debt || a != c.user {
        assert DebtOf(t.books[i], a) == DebtOf(s.books[i], a);
      }
    }
  }

  /** What the user of a liquidation has and owes, and the oracle's prices. */
  datatype LiquidationInputs = LiquidationInputs(collateralPrice: nat, debtPrice: nat, balance: nat, bonus: nat, owed: nat)

  /** The amounts of a liquidation come from the oracle's prices. */
  lemma UnderwaterInputs(s: Ledger, env: Env, c: LiquidationCall, u: User) returns (x: LiquidationInputs)
    requires c.debt < |s.books| && c.collateral < |s.books|
    requires c.collateral in u.collateral
    requires DebtOf(s.books[c.debt], c.user).amountScaled > 0 ==> c.debt in u.borrowed
    requires UnderwaterTerms(s, env, c, u).Ok?
    ensures c.collateral in env.prices && c.debt in env.prices
    ensures x.collateralPrice == env.prices[c.collateral] && x.debtPrice == env.prices[c.debt]
    ensures var cb, db := s.books[c.collateral], s.books[c.debt];
            && UnderlyingLiquidity(BalanceOf(cb.token, c.user), cb.market, env.now) == Ok(x.balance)
            && x.bonus == cb.market.liquidationBonus
            && x.owed == UnderlyingDebt(DebtOf(db, c.user).amountScaled, db.market, env.now)
            && DebtOf(db, c.user).amountScaled > 0
    ensures UnderwaterTerms(s, env, c, u)
         == LiquidationAmounts(x.collateralPrice, x.debtPrice, s.closeFactor, x.balance, x.bonus, x.owed, c.sent)
  {
    PriceOfFlagged(s.books, u, c.user, env, c.collateral);
    PriceOfFlagged(s.books, u, c.user, env, c.debt);
    var cb, db := s.books[c.collateral], s.books[c.debt];
    x := LiquidationInputs(env.prices[c.collateral], env.prices[c.debt],
                           UnderlyingLiquidity(BalanceOf(cb.token, c.user), cb.market, env.now).value,
                           cb.market.liquidationBonus,
                           UnderlyingDebt(DebtOf(db, c.user).amountScaled, db.market, env.now));
  }

  /** A liquidation never clears the borrowed bit. So the bit outlives the debt exactly when the close
      factor is one, the liquidator sends at least what is owed, and the collateral asked for is there or
      what is there is worth the debt with bonus. */
  lemma FullLiquidationLeavesBit(s: Ledger, env: Env, c: LiquidationCall) returns (x: LiquidationInputs)
    requires Sound(s) && env.now == s.time
    requires Liquidate(s, env, c).Ok?
    ensures c.debt < |s.books| && c.collateral < |s.books|
    ensures c.collateral in env.prices && c.debt in env.prices
    ensures x.collateralPrice == env.prices[c.collateral] > 0 && x.debtPrice == env.prices[c.debt]
    ensures var cb, db := s.books[c.collateral], s.books[c.debt];
            && UnderlyingLiquidity(BalanceOf(cb.token, c.user), cb.market, env.now) == Ok(x.balance)
            && x.bonus == cb.market.liquidationBonus
            && x.owed == UnderlyingDebt(DebtOf(db, c.user).amountScaled, db.market, env.now)
    ensures var t := Liquidate(s, env, c).value;
            && |t.books| == |s.books|
            && c.debt in UserOf(t.users, c.user).borrowed
            && (DebtOf(t.books[c.debt], c.user).amountScaled == 0 <==>
                  && s.closeFactor == ONE
                  && c.sent >= x.owed
                  && (WantedFor(x.owed, x.collateralPrice, x.debtPrice, x.bonus) <= x.balance
                      || Covers(x.balance, x.collateralPrice, x.debtPrice, x.bonus, x.owed)))
  {
    LiquidatedDebts(s, env, c);
    LiquidationTermsFit(s, env, c);
    assert Linked(s.books[c.debt], c.debt, s.users);
    x := UnderwaterInputs(s, env, c, s.users[c.user]);
    DebtNeverVanishes(DebtOf(s.books[c.debt], c.user).amountScaled, 0,
                      UpdatedBorrowIndex(s.books[c.debt].market, env.now));
    AmountsWithinBounds(x.collateralPrice, x.debtPrice, s.closeFactor, x.balance, x.bonus, x.owed, c.sent);
    FullRepaymentExactly(x.collateralPrice, x.debtPrice, s.closeFactor, x.balance, x.bonus, x.owed, c.sent);
  }

  lemma TermsNeedNoLimit(s: Ledger, env: Env, c: LiquidationCall)
    requires LiquidationTerms(s, env, c).Ok?
    ensures c.debt < |s.books| && LimitOf(s.books[c.debt], c.user) == 0 && c.user in s.users
  {
  }

  lemma LimitFollowsFlag(b: Book, after: Book, time: nat, who: Addr)
    requires SoundBook(b, time) && SoundBook(after, time)
    requires DebtOf(b, who).uncollateralized == DebtOf(after, who).uncollateralized
    ensures LimitOf(b, who) == 0 <==> LimitOf(after, who) == 0
  {
  }

  /** From then on the owner can set no loan limit for that user and asset, although nothing is owed. */
  lemma StaleBitBlocksLimit(s: Ledger, env: Env, c: LiquidationCall, limit: nat)
    requires Sound(s) && env.now == s.time
    requires Liquidate(s, env, c).Ok?
    ensures UpdateLoanLimit(Liquidate(s, env, c).value, c.user, c.debt, limit) == Err(UserHasCollateralizedDebt)
  {
    var t := Liquidate(s, env, c).value;
    var _ := FullLiquidationLeavesBit(s, env, c);
    LiquidatedDebts(s, env, c);
    LiquidateSound(s, env, c);
    TermsNeedNoLimit(s, env, c);
    LimitFollowsFlag(s.books[c.debt], t.books[c.debt], s.time, c.user);
    RefusedWhileFlagged(t, c.user, c.debt, limit);
  }

  lemma RefusedWhileFlagged(t: Ledger, who: Addr, d: AssetId, limit: nat)
    requires Sound(t) && d < |t.books|
    requires d in UserOf(t.users, who).borrowed && LimitOf(t.books[d], who) == 0
    ensures UpdateLoanLimit(t, who, d, limit) == Err(UserHasCollateralizedDebt)
  {
    assert Flags(UserOf(t.users, who), d);
  }
}
