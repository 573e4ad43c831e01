/** The checks that admit a withdrawal or a loan, against the position as it is computed afresh once the
    message is done: they are sound up to a few units of rounding. */
module Admission {
  import opened Base
  import opened FixedPoint
  import opened InterestRates
  import opened MaToken
  import opened Position
  import opened Ledger
  import opened Invariants
  import opened MarketSurplus
  import opened Reachability
  import Runs

  // ---------- positions that differ in one market ----------

  ghost predicate SameElsewhere(u: User, v: User, a: AssetId) {
    forall i: nat :: i != a ==> (i in u.collateral <==> i in v.collateral) && (i in u.borrowed <==> i in v.borrowed)
  }

  lemma SameElsewhereSameValue(b: Book, i: AssetId, u: User, v: User, who: Addr, env: Env, a: nat)
    requires SameElsewhere(u, v, a) && i != a
    ensures ValueIn(b, i, v, who, env) == ValueIn(b, i, u, who, env)
  {
  }

  lemma {:induction false} SumBefore(books: seq<Book>, after: Book, u: User, v: User, who: Addr, env: Env, n: nat,
                                     a: nat)
    requires n <= a < |books| && SameElsewhere(u, v, a)
    ensures SumOfValues(books[a := after], v, who, env, n) == SumOfValues(books, u, who, env, n)
  {
    if n > 0 {
      SumBefore(books, after, u, v, who, env, n - 1, a);
      SumUnfolds(books, u, who, env, n);
      SumUnfolds(books[a := after], v, who, env, n);
      SameElsewhereSameValue(books[n - 1], n - 1, u, v, who, env, a);
    }
  }

  lemma PlusBoth(x: Valuation, p: Valuation, y: Valuation, q: Valuation, more: Valuation)
    requires x.Plus(p) == y.Plus(q)
    ensures x.Plus(more).Plus(p) == y.Plus(more).Plus(q)
  {
  }

  lemma PlusSwaps(x: Valuation, p: Valuation, q: Valuation)
    ensures x.Plus(p).Plus(q) == x.Plus(q).Plus(p)
  {
  }

  /** Replacing one market replaces its contribution. */
  lemma {:induction false} SumReplaced(books: seq<Book>, after: Book, u: User, v: User, who: Addr, env: Env, n: nat,
                                       a: nat)
    requires a < n <= |books| && SameElsewhere(u, v, a)
    ensures SumOfValues(books[a := after], v, who, env, n).Plus(ValueIn(books[a], a, u, who, env))
         == SumOfValues(books, u, who, env, n).Plus(ValueIn(after, a, v, who, env))
  {
    var before, later := ValueIn(books[a], a, u, who, env), ValueIn(after, a, v, who, env);
    SumUnfolds(books, u, who, env, n);
    SumUnfolds(books[a := after], v, who, env, n);
    if n - 1 == a {
      SumBefore(books, after, u, v, who, env, a, a);
      PlusSwaps(SumOfValues(books, u, who, env, a), later, before);
    } else {
      SumReplaced(books, after, u, v, who, env, n - 1, a);
      SameElsewhereSameValue(books[n - 1], n - 1, u, v, who, env, a);
      PlusBoth(SumOfValues(books[a := after], v, who, env, n - 1), before, SumOfValues(books, u, who, env, n - 1),
               later, ValueIn(books[n - 1], n - 1, u, who, env));
    }
  }

  lemma ReplacedPosition(books: seq<Book>, after: Book, u: User, v: User, who: Addr, env: Env, a: nat)
    requires a < |books| && SameElsewhere(u, v, a)
    requires PositionOf(books, u, who, env).Ok?
    requires Flags(v, a) ==> AssetPositionIn(after, a, v, who, env).Ok?
    ensures PositionOf(books[a := after], v, who, env).Ok?
    ensures PositionOf(books[a := after], v, who, env).value.totals.Plus(ValueIn(books[a], a, u, who, env))
         == PositionOf(books, u, who, env).value.totals.Plus(ValueIn(after, a, v, who, env))
  {
    PositionsListFlagged(books, u, who, env, |books|);
    PositionsListFlagged(books[a := after], v, who, env, |books|);
    forall i: nat | i < |books| && Flags(v, i)
      ensures AssetPositionIn(books[a := after][i], i, v, who, env).Ok?
    {
      if i != a {
        assert Flags(u, i);
      }
    }
    TotalsAreSums(books, u, who, env, |books|);
    TotalsAreSums(books[a := after], v, who, env, |books|);
    SumReplaced(books, after, u, v, who, env, |books|, a);
  }

  /** The market is up to date, at the indexes a query would have previewed, and weighs as before. */
  ghost predicate BroughtUpToDate(b: Book, after: Book, now: nat) {
    && after.market.indexesLastUpdated == now
    && after.market.borrowIndex == UpdatedBorrowIndex(b.market, now)
    && Ok(after.market.liquidityIndex) == UpdatedLiquidityIndex(b.market, now)
    && after.market.maxLoanToValue == b.market.maxLoanToValue
    && after.market.liquidationThreshold == b.market.liquidationThreshold
  }

  lemma AccruedUpToDate(b: Book, env: Env)
    requires SoundBook(b, env.now) && AccrueBook(b, env).Ok?
    ensures BroughtUpToDate(b, AccrueBook(b, env).value, env.now)
  {
    PreviewEqualsCommit(b.market, env.now);
  }

  // ---------- withdrawals ----------

  lemma WithdrawnUpToDate(b: Book, env: Env, who: Addr, balance: nat, amount: nat)
    requires SoundBook(b, env.now) && amount <= balance
    requires WithdrawnBook(b, env, who, balance, amount).Ok?
    ensures BroughtUpToDate(b, WithdrawnBook(b, env, who, balance, amount).value, env.now)
  {
    var accrued, repriced, burned, token := WithdrawnBookParts(b, env, who, balance, amount);
    AccruedUpToDate(b, env);
    AccrueBookSound(b, env);
    RepriceAndPaySound(accrued, amount, env.now, env.now);
  }

  lemma FloorOfThree(x: nat, y: nat, z: nat, d: nat)
    requires d <= ONE
    ensures MulFloor(x + y + z, d) <= MulFloor(x, d) + MulFloor(y, d) + z + 2
  {
    MulFloorOfSum(x, y, d);
    MulFloorOfSum(x + y, z, d);
    MulFloorAtMost(z, d);
  }

  /** What leaves and what stays are worth, in collateral, what there was, up to the price of one unit and
      four. */
  lemma WithdrawalRounding(balance: nat, amount: nat, left: nat, price: nat, threshold: nat)
    requires balance <= amount + left + 1 && threshold <= ONE
    ensures MulFloor(MulFloor(balance, price), threshold) <=
            MulFloor(MulFloor(amount, price), threshold) + MulFloor(MulFloor(left, price), threshold) + price / ONE + 4
  {
    MulFloorMonotone(balance, amount + left + 1, price);
    MulFloorOfSum(amount, left, price);
    MulFloorOfSum(amount + left, 1, price);
    assert MulFloor(1, price) == price / ONE;
    var extra := price / ONE + 2;
    MulFloorMonotone(MulFloor(balance, price), MulFloor(amount, price) + MulFloor(left, price) + extra, threshold);
    FloorOfThree(MulFloor(amount, price), MulFloor(left, price), extra, threshold);
  }

  /** What is left of a balance, read back after rescaling. */
  lemma LeftAfterWithdrawal(b: Book, env: Env, who: Addr, balance: nat, amount: nat)
    requires SoundBook(b, env.now) && amount <= balance
    requires UnderlyingLiquidity(BalanceOf(b.token, who), b.market, env.now) == Ok(balance)
    requires WithdrawnBook(b, env, who, balance, amount).Ok?
    requires Accrued(b.market, env.now).liquidityIndex <= UNIT
    ensures var after := WithdrawnBook(b, env, who, balance, amount).value;
            var left := UnderlyingLiquidity(BalanceOf(after.token, who), after.market, env.now);
            left.Ok? && balance <= amount + left.value + 1
  {
    WithdrawnBookSound(b, env, who, balance, amount);
    WithdrawnUpToDate(b, env, who, balance, amount);
    PreviewEqualsCommit(b.market, env.now);
    var after := WithdrawnBook(b, env, who, balance, amount).value;
    AccrualIsIdempotent(after.market, env.now);
    var index := after.market.liquidityIndex;
    LiquidityRoundTrip(balance - amount, index);
    UnderlyingDownMonotone(ScaledDown(balance - amount, index), BalanceOf(after.token, who), index);
  }

  lemma UnderlyingDownMonotone(scaled: nat, more: nat, index: Index)
    requires scaled <= more
    ensures UnderlyingDown(scaled, index) <= UnderlyingDown(more, index)
  {
    MulFloorMonotone(scaled, more, index);
    FloorMonotone(MulFloor(scaled, index), MulFloor(more, index), SCALING_FACTOR);
  }

  /** One market before and after a withdrawal of `amount` from it, for a user whose collateral bit is
      kept or, with nothing left, cleared. */
  lemma WithdrawalValue(b: Book, after: Book, a: AssetId, u: User, v: User, who: Addr, env: Env, amount: nat, left: nat)
    requires BroughtUpToDate(b, after, env.now) && after.debts == b.debts && b.market.liquidationThreshold <= ONE
    requires a in u.collateral && (a in v.borrowed <==> a in u.borrowed)
    requires AssetPositionIn(b, a, u, who, env).Ok?
    requires UnderlyingLiquidity(BalanceOf(after.token, who), after.market, env.now) == Ok(left)
    requires AssetPositionIn(b, a, u, who, env).value.collateral <= amount + (if a in v.collateral then left else 0) + 1
    ensures a in env.prices
    ensures Flags(v, a) ==> AssetPositionIn(after, a, v, who, env).Ok?
    ensures var before, later := ValueIn(b, a, u, who, env), ValueIn(after, a, v, who, env);
            && later.collateralizedDebt == before.collateralizedDebt
            && before.weightedThreshold <=
               MulFloor(MulFloor(amount, env.prices[a]), b.market.liquidationThreshold) + later.weightedThreshold
               + env.prices[a] / ONE + 4
  {
    AccrualIsIdempotent(after.market, env.now);
    var balance := AssetPositionIn(b, a, u, who, env).value.collateral;
    var kept := if a in v.collateral then left else 0;
    WithdrawalRounding(balance, amount, kept, env.prices[a], b.market.liquidationThreshold);
    NothingIsWorthNothing(env.prices[a], b.market.liquidationThreshold);
    var p := AssetPositionIn(b, a, u, who, env).value;
    assert Value(p).weightedThreshold == MulFloor(MulFloor(balance, env.prices[a]), b.market.liquidationThreshold);
  }

  lemma NothingIsWorthNothing(price: nat, d: nat)
    ensures MulFloor(0, price) == 0 && MulFloor(MulFloor(0, price), d) == 0 && MulFloor(0, 0) == 0
  {
  }

  lemma WithdrawParts(s: Ledger, env: Env, who: Addr, a: AssetId, requested: Option<nat>)
    returns (balance: nat, amount: nat, after: Book)
    requires Withdraw(s, env, who, a, requested).Ok?
    requires a in UserOf(s.users, who).collateral && UserOf(s.users, who).borrowed != {}
    ensures a < |s.books| && amount <= balance
    ensures UnderlyingLiquidity(BalanceOf(s.books[a].token, who), s.books[a].market, env.now) == Ok(balance)
    ensures WithdrawCheck(s, env, who, a, amount, s.books[a].market.liquidationThreshold).Ok?
    ensures WithdrawnBook(s.books[a], env, who, balance, amount) == Ok(after)
    ensures Withdraw(s, env, who, a, requested)
         == Ok(s.(books := s.books[a := after],
               users := if amount == balance then WithoutCollateral(s.users, who, a) else s.users))
  {
    var w := WithdrawTerms(s, env, who, a, requested).value;
    balance, amount := w.balance, w.amount;
    after := WithdrawnBook(s.books[a], env, who, balance, amount).value;
  }

  /** A user who borrows and passes the check of a withdrawal is, position computed afresh, backed by
      weighted collateral up to the price of one unit and four. */
  lemma WithdrawalStaysBacked(s: Ledger, env: Env, who: Addr, a: AssetId, requested: Option<nat>)
    requires Sound(s) && env.now == s.time
    requires a < |s.books| && Accrued(s.books[a].market, env.now).liquidityIndex <= UNIT
    requires a in UserOf(s.users, who).collateral && UserOf(s.users, who).borrowed != {}
    requires Withdraw(s, env, who, a, requested).Ok?
    ensures a in env.prices
    ensures var t := Withdraw(s, env, who, a, requested).value;
            var p := PositionOf(t.books, UserOf(t.users, who), who, env);
            p.Ok? && p.value.totals.collateralizedDebt <= p.value.totals.weightedThreshold + env.prices[a] / ONE + 4
  {
    var u := UserOf(s.users, who);
    var b := s.books[a];
    var balance, amount, after := WithdrawParts(s, env, who, a, requested);
    var users := if amount == balance then WithoutCollateral(s.users, who, a) else s.users;
    var v := UserOf(users, who);
    assert SoundBook(b, env.now);
    WithdrawCheckExact(s, env, who, a, amount, b.market.liquidationThreshold);
    FlaggedIsComputable(s.books, u, who, env, a);
    WithdrawnBookSound(b, env, who, balance, amount);
    WithdrawnUpToDate(b, env, who, balance, amount);
    LeftAfterWithdrawal(b, env, who, balance, amount);
    var left := UnderlyingLiquidity(BalanceOf(after.token, who), after.market, env.now).value;
    WithdrawalValue(b, after, a, u, v, who, env, amount, left);
    ReplacedPosition(s.books, after, u, v, who, env, a);
  }

  lemma FlaggedIsComputable(books: seq<Book>, u: User, who: Addr, env: Env, a: AssetId)
    requires PositionOf(books, u, who, env).Ok? && a < |books| && Flags(u, a)
    ensures AssetPositionIn(books[a], a, u, who, env).Ok?
  {
    PositionsListFlagged(books, u, who, env, |books|);
  }

  // ---------- loans ----------

  /** Adding a loan to a debt adds at most one unit to what is owed. */
  lemma LoanRounding(scaled: nat, amount: nat, index: Index)
    requires index <= UNIT - ONE
    ensures UnderlyingUp(scaled + ScaledUp(amount, index), index) <= UnderlyingUp(scaled, index) + amount + 1
  {
    var more := ScaledUp(amount, index);
    ScaledUpBounds(amount, index);
    FloorBelow(more * index, ONE, amount * SCALING_FACTOR + SCALING_FACTOR - 1);
    MulFloorOfSum(scaled, more, index);
    CeilBounds(MulFloor(scaled, index), SCALING_FACTOR);
    CeilAtMost(MulFloor(scaled + more, index), SCALING_FACTOR, UnderlyingUp(scaled, index) + amount + 1);
  }

  /** The worth of a debt that grew by `amount` and one unit. */
  lemma LoanWorth(debt: nat, amount: nat, later: nat, price: nat)
    requires later <= debt + amount + 1
    ensures MulFloor(later, price) <= MulFloor(debt, price) + MulFloor(amount, price) + price / ONE + 2
  {
    MulFloorMonotone(later, debt + amount + 1, price);
    MulFloorOfSum(debt, amount, price);
    MulFloorOfSum(debt + amount, 1, price);
    assert MulFloor(1, price) == price / ONE;
  }

  lemma BorrowedUpToDate(b: Book, env: Env, who: Addr, amount: nat)
    requires SoundBook(b, env.now) && BorrowedBook(b, env, who, amount).Ok?
    ensures BroughtUpToDate(b, BorrowedBook(b, env, who, amount).value, env.now)
  {
    AccruedUpToDate(b, env);
    var b2 := RaiseDebt(AccrueBook(b, env).value, who, amount, env.now);
    RepricedFrame(b2.market, b2.cash, amount, env.now);
  }

  /** One market before and after a loan from it. */
  lemma LoanValue(b: Book, after: Book, a: AssetId, u: User, v: User, who: Addr, env: Env, amount: nat)
    requires SoundBook(b, env.now) && BroughtUpToDate(b, after, env.now)
    requires UpdatedBorrowIndex(b.market, env.now) <= UNIT - ONE
    requires after.debts == b.debts[who := DebtOf(after, who)]
    requires DebtOf(after, who).amountScaled ==
             DebtOf(b, who).amountScaled + ScaledUp(amount, UpdatedBorrowIndex(b.market, env.now))
    requires BalanceOf(after.token, who) >= BalanceOf(b.token, who)
    requires a in env.prices && a in v.borrowed && (a in v.collateral <==> a in u.collateral)
    requires Flags(u, a) ==> AssetPositionIn(b, a, u, who, env).Ok?
    requires a !in u.borrowed ==> DebtOf(b, who).amountScaled == 0
    ensures AssetPositionIn(after, a, v, who, env).Ok?
    ensures var before, later := ValueIn(b, a, u, who, env), ValueIn(after, a, v, who, env);
            && later.debt <= before.debt + MulFloor(amount, env.prices[a]) + env.prices[a] / ONE + 2
            && later.maxDebt >= before.maxDebt
  {
    AccrualIsIdempotent(after.market, env.now);
    var index := UpdatedBorrowIndex(b.market, env.now);
    var scaled := DebtOf(b, who).amountScaled;
    LoanRounding(scaled, amount, index);
    LoanWorth(UnderlyingUp(scaled, index), amount, UnderlyingUp(DebtOf(after, who).amountScaled, index), env.prices[a]);
    assert UnderlyingUp(0, index) == 0;
    NothingIsWorthNothing(env.prices[a], b.market.maxLoanToValue);
    if a in u.collateral {
      CollateralNotLess(b, after, a, u, v, who, env);
    }
  }

  lemma CollateralNotLess(b: Book, after: Book, a: AssetId, u: User, v: User, who: Addr, env: Env)
    requires BroughtUpToDate(b, after, env.now)
    requires BalanceOf(after.token, who) >= BalanceOf(b.token, who)
    requires a in u.collateral && a in v.collateral
    requires AssetPositionIn(b, a, u, who, env).Ok? && AssetPositionIn(after, a, v, who, env).Ok?
    ensures ValueIn(after, a, v, who, env).maxDebt >= ValueIn(b, a, u, who, env).maxDebt
  {
    AccrualIsIdempotent(after.market, env.now);
    var index := after.market.liquidityIndex;
    UnderlyingDownMonotone(BalanceOf(b.token, who), BalanceOf(after.token, who), index);
    var c, d := AssetPositionIn(b, a, u, who, env).value.collateral, AssetPositionIn(after, a, v, who, env).value.collateral;
    MulFloorMonotone(c, d, env.prices[a]);
    MulFloorMonotone(MulFloor(c, env.prices[a]), MulFloor(d, env.prices[a]), b.market.maxLoanToValue);
  }

  lemma BorrowParts(s: Ledger, env: Env, who: Addr, a: AssetId, amount: nat) returns (after: Book)
    requires a < |s.books| && LimitOf(s.books[a], who) == 0
    requires Borrow(s, env, who, a, amount).Ok?
    ensures BorrowCheck(s, env, who, a, amount).Ok?
    ensures BorrowedBook(s.books[a], env, who, amount) == Ok(after)
    ensures Borrow(s, env, who, a, amount) == Ok(s.(books := s.books[a := after], users := WithBorrowed(s.users, who, a)))
  {
    after := BorrowedBook(s.books[a], env, who, amount).value;
  }

  /** What the check of a collateralized loan says, with the oracle's price whichever way it was found. */
  lemma BorrowCheckExact(s: Ledger, env: Env, who: Addr, a: AssetId, amount: nat)
    requires a < |s.books| && BorrowCheck(s, env, who, a, amount).Ok?
    ensures a in env.prices && PositionOf(s.books, UserOf(s.users, who), who, env).Ok?
    ensures var v := PositionOf(s.books, UserOf(s.users, who), who, env).value.totals;
            v.debt + MulFloor(amount, env.prices[a]) <= v.maxDebt
  {
    PriceOfFlagged(s.books, UserOf(s.users, who), who, env, a);
  }

  /** After a collateralized loan the total debt, computed afresh, is within what the collateral allows,
      up to the price of one unit and two. */
  lemma LoanStaysWithinLimit(s: Ledger, env: Env, who: Addr, a: AssetId, amount: nat)
    requires Sound(s) && env.now == s.time
    requires a < |s.books| && LimitOf(s.books[a], who) == 0
    requires UpdatedBorrowIndex(s.books[a].market, env.now) <= UNIT - ONE
    requires Borrow(s, env, who, a, amount).Ok?
    ensures a in env.prices
    ensures var t := Borrow(s, env, who, a, amount).value;
            var p := PositionOf(t.books, UserOf(t.users, who), who, env);
            p.Ok? && p.value.totals.debt <= p.value.totals.maxDebt + env.prices[a] / ONE + 2
  {
    var u, v := UserOf(s.users, who), UserOf(WithBorrowed(s.users, who, a), who);
    var b := s.books[a];
    var after := BorrowParts(s, env, who, a, amount);
    BorrowCheckExact(s, env, who, a, amount);
    assert SoundBook(b, env.now) && Linked(b, a, s.users);
    BorrowedBookSound(b, env, who, amount);
    BorrowedUpToDate(b, env, who, amount);
    if Flags(u, a) {
      FlaggedIsComputable(s.books, u, who, env, a);
    }
    LoanValue(b, after, a, u, v, who, env, amount);
    ReplacedPosition(s.books, after, u, v, who, env, a);
  }

  // ---------- token transfers ----------

  /** Without a balance it makes no difference to the user's debt or threshold whether the collateral bit
      is set. */
  lemma EmptyCollateralWeighsNothing(b: Book, a: AssetId, u: User, v: User, who: Addr, env: Env)
    requires BalanceOf(b.token, who) == 0
    requires a in u.borrowed <==> a in v.borrowed
    requires a in u.collateral
    requires AssetPositionIn(b, a, u, who, env).Ok?
    ensures Flags(v, a) ==> AssetPositionIn(b, a, v, who, env).Ok?
    ensures var before, later := ValueIn(b, a, u, who, env), ValueIn(b, a, v, who, env);
            later.collateralizedDebt == before.collateralizedDebt && later.weightedThreshold == before.weightedThreshold
  {
    var p := AssetPositionIn(b, a, u, who, env).value;
    assert p.collateral == 0;
    NothingIsWorthNothing(p.price, b.market.liquidationThreshold);
    NothingIsWorthNothing(p.price, 0);
  }

  /** After a transfer of liquidity tokens the sender, position computed afresh, cannot be liquidated. */
  lemma TransferLeavesSenderHealthy(s: Ledger, env: Env, a: AssetId, from: Addr, to: Addr, amount: nat)
    requires TransferToken(s, env, a, from, to, amount).Ok?
    ensures var t := TransferToken(s, env, a, from, to, amount).value;
            var p := PositionOf(t.books, UserOf(t.users, from), from, env);
            p.Ok? && !Unhealthy(p.value.health)
  {
    var after, users := Runs.TransferParts(s, env, a, from, to, amount);
    var u, v := s.users[from], UserOf(users, from);
    var books := s.books[a := after];
    if a in u.collateral && v != u {
      FlaggedIsComputable(books, u, from, env, a);
      EmptyCollateralWeighsNothing(after, a, u, v, from, env);
      ReplacedPosition(books, after, u, v, from, env, a);
      assert books[a := after] == books;
      HealthyIffBacked(PositionOf(books, u, from, env).value.totals);
      HealthyIffBacked(PositionOf(books, v, from, env).value.totals);
    } else {
      assert v == u;
    }
  }
}
