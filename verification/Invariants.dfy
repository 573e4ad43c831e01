/** What holds of the lending contract after every run. */
module Invariants {
  import opened Base
  import opened Totals
  import opened FixedPoint
  import opened RateModels
  import opened InterestRates
  import opened MaToken
  import opened Position
  import opened Ledger
  import Bitmap

  function Amounts(debts: map<Addr, Debt>): map<Addr, nat> {
    map a | a in debts :: debts[a].amountScaled
  }

  ghost function DebtTotal(debts: map<Addr, Debt>): nat {
    Total(Amounts(debts))
  }

  lemma DebtTotalUpdate(debts: map<Addr, Debt>, a: Addr, d: Debt)
    ensures DebtTotal(debts[a := d]) == DebtTotal(debts) - Lookup(Amounts(debts), a) + d.amountScaled
    ensures Lookup(Amounts(debts), a) <= DebtTotal(debts)
  {
    assert Amounts(debts[a := d]) == Amounts(debts)[a := d.amountScaled];
    TotalUpdate(Amounts(debts), a, d.amountScaled);
  }

  /** A rate model has validated parameters, and was not last updated in the future. */
  ghost predicate ModelSound(model: RateModel, time: nat) {
    match model
    case Dynamic(p, _, last) => DynamicModelParams(p).Valid() && last <= time
    case Linear(p) => LinearModelParams(p).Valid()
  }

  /** The books agree with themselves: the market's debt is what its users owe, its tokens are what
      holders have, and exactly the loans with a limit are uncollateralized. */
  ghost predicate SoundBook(b: Book, time: nat) {
    && b.market.debtTotalScaled == DebtTotal(b.debts)
    && Balanced(b.token)
    && b.market.indexesLastUpdated <= time
    && b.market.Valid()
    && ModelSound(b.market.model, time)
    && (forall a :: DebtOf(b, a).uncollateralized <==> LimitOf(b, a) > 0)
  }

  /** Debt shows in the borrower's bitmap, and the bitmap shows no market without a debt record. */
  ghost predicate Linked(b: Book, i: AssetId, users: map<Addr, User>) {
    && (forall a :: DebtOf(b, a).amountScaled > 0 ==> i in UserOf(users, a).borrowed)
    && (forall a :: i in UserOf(users, a).borrowed ==> a in b.debts)
  }

  /** While the liquidity index stays within a million, collateral that is switched on is there. */
  ghost predicate Backed(b: Book, i: AssetId, users: map<Addr, User>) {
    b.market.liquidityIndex <= UNIT ==>
      forall a :: i in UserOf(users, a).collateral ==> BalanceOf(b.token, a) > 0
  }

  ghost predicate Sound(s: Ledger) {
    && s.closeFactor <= ONE
    && (forall i :: 0 <= i < |s.books| ==> SoundBook(s.books[i], s.time))
    && (forall i :: 0 <= i < |s.books| ==> Linked(s.books[i], i, s.users))
    && (forall i :: 0 <= i < |s.books| ==> Backed(s.books[i], i, s.users))
    && (forall a, i: nat :: Flags(UserOf(s.users, a), i) ==> i < |s.books| && i < Bitmap.WIDTH)
  }

  /** Bits of other markets are left alone. */
  ghost predicate AgreeExcept(users: map<Addr, User>, after: map<Addr, User>, i: AssetId) {
    forall a, j: nat :: j != i ==>
                          && (j in UserOf(users, a).collateral <==> j in UserOf(after, a).collateral)
                          && (j in UserOf(users, a).borrowed <==> j in UserOf(after, a).borrowed)
  }

  ghost predicate SameBorrowed(users: map<Addr, User>, after: map<Addr, User>) {
    forall a :: UserOf(users, a).borrowed == UserOf(after, a).borrowed
  }

  ghost predicate SameCollateral(users: map<Addr, User>, after: map<Addr, User>) {
    forall a :: UserOf(users, a).collateral == UserOf(after, a).collateral
  }

  /** A change confined to one market keeps the whole contract sound if that market is. */
  lemma SoundAfterTouching(s: Ledger, i: AssetId, b: Book, users: map<Addr, User>)
    requires Sound(s) && i < |s.books|
    requires SoundBook(b, s.time) && Linked(b, i, users) && Backed(b, i, users)
    requires AgreeExcept(s.users, users, i)
    requires forall a :: Flags(UserOf(users, a), i) && !Flags(UserOf(s.users, a), i) ==> i < Bitmap.WIDTH
    ensures Sound(s.(books := s.books[i := b], users := users))
  {
    var t := s.(books := s.books[i := b], users := users);
    forall j | 0 <= j < |t.books|
      ensures SoundBook(t.books[j], t.time) && Linked(t.books[j], j, t.users) && Backed(t.books[j], j, t.users)
    {
      if j != i {
        assert t.books[j] == s.books[j];
      }
    }
    forall a, j: nat | Flags(UserOf(t.users, a), j)
      ensures j < |t.books| && j < Bitmap.WIDTH
    {
      if j != i || Flags(UserOf(s.users, a), i) {
        assert Flags(UserOf(s.users, a), j);
      }
    }
  }

  // ---------- the parts of a message ----------

  lemma AccrueBookSound(b: Book, env: Env)
    requires SoundBook(b, env.now)
    requires AccrueBook(b, env).Ok?
    ensures var after := AccrueBook(b, env).value;
            && SoundBook(after, env.now)
            && after == b.(market := Accrued(b.market, env.now), token := after.token)
            && after.market.indexesLastUpdated == env.now
            && after.market.liquidityIndex >= b.market.liquidityIndex
            && after.market.borrowIndex == UpdatedBorrowIndex(b.market, env.now)
            && after.token.supply == b.token.supply + RewardMint(b.market, env.now)
            && (forall a :: BalanceOf(after.token, a) >= BalanceOf(b.token, a))
  {
    var after := AccrueBook(b, env).value;
    PreviewEqualsCommit(b.market, env.now);
    if ProtocolRewards(b.market, env.now) > 0 {
      MintKeepsBalanced(b.token, env.collector, RewardMint(b.market, env.now));
    } else {
      assert ScaledDown(0, after.market.liquidityIndex) == 0;
    }
    forall a
      ensures DebtOf(after, a).uncollateralized <==> LimitOf(after, a) > 0
    {
      assert DebtOf(b, a) == DebtOf(after, a) && LimitOf(b, a) == LimitOf(after, a);
    }
  }

  lemma RepriceAndPaySound(b: Book, taken: nat, now: nat, time: nat)
    requires SoundBook(b, time) && now <= time
    requires RepriceAndPay(b, taken, now).Ok?
    ensures var after := RepriceAndPay(b, taken, now).value;
            && SoundBook(after, time)
            && taken <= b.cash
            && after == b.(market := after.market, cash := b.cash - taken)
            && after.market.borrowIndex == b.market.borrowIndex
            && after.market.liquidityIndex == b.market.liquidityIndex
            && after.market.indexesLastUpdated == b.market.indexesLastUpdated
            && after.market.debtTotalScaled == b.market.debtTotalScaled
            && after.market.liquidationThreshold == b.market.liquidationThreshold
            && after.market.maxLoanToValue == b.market.maxLoanToValue
  {
    RepricedFrame(b.market, b.cash, taken, now);
    var after := RepriceAndPay(b, taken, now).value;
    forall a
      ensures DebtOf(after, a).uncollateralized <==> LimitOf(after, a) > 0
    {
      assert DebtOf(b, a) == DebtOf(after, a) && LimitOf(b, a) == LimitOf(after, a);
    }
  }

  lemma SoundWithToken(b: Book, token: Token, cash: nat, time: nat)
    requires SoundBook(b, time) && Balanced(token)
    ensures SoundBook(b.(token := token, cash := cash), time)
  {
    var after := b.(token := token, cash := cash);
    forall a
      ensures DebtOf(after, a).uncollateralized <==> LimitOf(after, a) > 0
    {
      assert DebtOf(b, a) == DebtOf(after, a) && LimitOf(b, a) == LimitOf(after, a);
    }
  }

  /** Changing one user's debt together with the market's total keeps the two in step. */
  lemma SoundWithDebt(b: Book, who: Addr, d: Debt, total: nat, time: nat)
    requires SoundBook(b, time)
    requires total == b.market.debtTotalScaled - DebtOf(b, who).amountScaled + d.amountScaled
    requires d.uncollateralized <==> LimitOf(b, who) > 0
    ensures SoundBook(b.(market := b.market.(debtTotalScaled := total), debts := b.debts[who := d]), time)
    ensures DebtOf(b, who).amountScaled <= b.market.debtTotalScaled
  {
    DebtTotalUpdate(b.debts, who, d);
    var after := b.(market := b.market.(debtTotalScaled := total), debts := b.debts[who := d]);
    forall a
      ensures DebtOf(after, a).uncollateralized <==> LimitOf(after, a) > 0
    {
      assert a != who ==> DebtOf(b, a) == DebtOf(after, a);
      assert LimitOf(b, a) == LimitOf(after, a);
    }
  }

  lemma LowerDebtSound(b: Book, who: Addr, owed: nat, now: nat, time: nat)
    requires SoundBook(b, time)
    requires LowerDebt(b, who, owed, now).Ok?
    ensures var after := LowerDebt(b, who, owed, now).value;
            var scaled := ScaledDebt(owed, b.market, now);
            && SoundBook(after, time)
            && scaled <= DebtOf(b, who).amountScaled
            && after == b.(market := b.market.(debtTotalScaled := after.market.debtTotalScaled),
                         debts := b.debts[who := DebtOf(b, who).(amountScaled := scaled)])
            && after.market.debtTotalScaled == b.market.debtTotalScaled - DebtOf(b, who).amountScaled + scaled
  {
    var after := LowerDebt(b, who, owed, now).value;
    var scaled := ScaledDebt(owed, b.market, now);
    var d := DebtOf(b, who).(amountScaled := scaled);
    SoundWithDebt(b, who, d, after.market.debtTotalScaled, time);
  }

  // ---------- bits ----------

  lemma WithCollateralFrame(users: map<Addr, User>, who: Addr, i: AssetId)
    ensures var after := WithCollateral(users, who, i);
            && AgreeExcept(users, after, i)
            && SameBorrowed(users, after)
            && (forall a :: i in UserOf(after, a).collateral <==> a == who || i in UserOf(users, a).collateral)
  {
  }

  lemma WithoutCollateralFrame(users: map<Addr, User>, who: Addr, i: AssetId)
    ensures var after := WithoutCollateral(users, who, i);
            && AgreeExcept(users, after, i)
            && SameBorrowed(users, after)
            && (forall a :: i in UserOf(after, a).collateral <==> a != who && i in UserOf(users, a).collateral)
  {
  }

  lemma WithBorrowedFrame(users: map<Addr, User>, who: Addr, i: AssetId)
    ensures var after := WithBorrowed(users, who, i);
            && AgreeExcept(users, after, i)
            && SameCollateral(users, after)
            && (forall a :: i in UserOf(after, a).borrowed <==> a == who || i in UserOf(users, a).borrowed)
  {
  }

  lemma WithoutBorrowedFrame(users: map<Addr, User>, who: Addr, i: AssetId)
    ensures var after := WithoutBorrowed(users, who, i);
            && AgreeExcept(users, after, i)
            && SameCollateral(users, after)
            && (forall a :: i in UserOf(after, a).borrowed <==> a != who && i in UserOf(users, a).borrowed)
  {
  }

  lemma LinkedSameDebts(b: Book, after: Book, i: AssetId, users: map<Addr, User>, usersAfter: map<Addr, User>)
    requires Linked(b, i, users) && after.debts == b.debts && SameBorrowed(users, usersAfter)
    ensures Linked(after, i, usersAfter)
  {
    forall a
      ensures DebtOf(after, a).amountScaled > 0 ==> i in UserOf(usersAfter, a).borrowed
    {
      assert DebtOf(after, a) == DebtOf(b, a);
    }
  }

  lemma LinkedWithDebt(b: Book, after: Book, i: AssetId, users: map<Addr, User>, usersAfter: map<Addr, User>, who: Addr,
                       d: Debt)
    requires Linked(b, i, users) && after.debts == b.debts[who := d]
    requires forall a :: a != who ==> (i in UserOf(users, a).borrowed <==> i in UserOf(usersAfter, a).borrowed)
    requires d.amountScaled > 0 ==> i in UserOf(usersAfter, who).borrowed
    ensures Linked(after, i, usersAfter)
  {
    forall a
      ensures DebtOf(after, a).amountScaled > 0 ==> i in UserOf(usersAfter, a).borrowed
    {
      assert a != who ==> DebtOf(after, a) == DebtOf(b, a);
    }
  }

  // ---------- the messages ----------

  lemma BackedWhenHoldingsRise(b: Book, after: Book, i: AssetId, users: map<Addr, User>, usersAfter: map<Addr, User>,
                               who: Addr)
    requires Backed(b, i, users)
    requires after.market.liquidityIndex >= b.market.liquidityIndex
    requires forall a :: a != who ==> BalanceOf(after.token, a) >= BalanceOf(b.token, a)
    requires forall a :: a != who && i in UserOf(usersAfter, a).collateral ==> i in UserOf(users, a).collateral
    requires after.market.liquidityIndex <= UNIT && i in UserOf(usersAfter, who).collateral ==> BalanceOf(after.token, who) > 0
    ensures Backed(after, i, usersAfter)
  {
    if after.market.liquidityIndex <= UNIT {
      forall a | i in UserOf(usersAfter, a).collateral
        ensures BalanceOf(after.token, a) > 0
      {
        assert a != who ==> BalanceOf(after.token, a) >= BalanceOf(b.token, a);
      }
    }
  }

  lemma PartOfBalanceStaysScaled(amount: nat, index: Index)
    requires amount > 0 && index <= UNIT
    ensures ScaledDown(amount, index) > 0
  {
    MulMonotone(1, amount, UNIT);
    FloorAtLeast(amount * SCALING_FACTOR * ONE, index, 1);
  }

  lemma DepositedBookSound(b: Book, env: Env, user: Addr, amount: nat)
    requires SoundBook(b, env.now)
    requires DepositedBook(b, env, user, amount).Ok?
    ensures var after := DepositedBook(b, env, user, amount).value;
            && SoundBook(after, env.now)
            && after.debts == b.debts
            && after.market.liquidityIndex >= b.market.liquidityIndex
            && (forall a :: BalanceOf(after.token, a) >= BalanceOf(b.token, a))
            && BalanceOf(after.token, user) > 0
  {
    SoundWithToken(b, b.token, b.cash + amount, env.now);
    var b0 := b.(cash := b.cash + amount);
    AccrueBookSound(b0, env);
    var b1 := AccrueBook(b0, env).value;
    RepriceAndPaySound(b1, 0, env.now, env.now);
    var b2 := RepriceAndPay(b1, 0, env.now).value;
    var minted := ScaledLiquidity(amount, b2.market, env.now).value;
    MintKeepsBalanced(b2.token, user, minted);
    SoundWithToken(b2, Mint(b2.token, user, minted).value, b2.cash, env.now);
  }

  lemma DepositSound(s: Ledger, env: Env, user: Addr, a: AssetId, amount: nat)
    requires Sound(s) && env.now == s.time
    requires Deposit(s, env, user, a, amount).Ok?
    ensures Sound(Deposit(s, env, user, a, amount).value)
  {
    var b := s.books[a];
    DepositedBookSound(b, env, user, amount);
    var after := DepositedBook(b, env, user, amount).value;
    var users := WithCollateral(s.users, user, a);
    WithCollateralFrame(s.users, user, a);
    LinkedSameDebts(b, after, a, s.users, users);
    BackedWhenHoldingsRise(b, after, a, s.users, users, user);
    SoundAfterTouching(s, a, after, users);
  }

  lemma WithdrawnBookSound(b: Book, env: Env, who: Addr, balance: nat, amount: nat)
    requires SoundBook(b, env.now)
    requires amount <= balance
    requires WithdrawnBook(b, env, who, balance, amount).Ok?
    ensures var after := WithdrawnBook(b, env, who, balance, amount).value;
            && SoundBook(after, env.now)
            && after.debts == b.debts
            && after.market.liquidityIndex >= b.market.liquidityIndex
            && (forall a :: a != who ==> BalanceOf(after.token, a) >= BalanceOf(b.token, a))
            && BalanceOf(after.token, who) >= ScaledDown(balance - amount, after.market.liquidityIndex)
  {
    AccrueBookSound(b, env);
    var b1 := AccrueBook(b, env).value;
    RepriceAndPaySound(b1, amount, env.now, env.now);
    var b2 := RepriceAndPay(b1, amount, env.now).value;
    AccrualIsIdempotent(b2.market, env.now);
    var burned := BalanceOf(b.token, who) - ScaledLiquidity(balance - amount, b2.market, env.now).value;
    BurnKeepsBalanced(b2.token, who, burned);
    SoundWithToken(b2, Burn(b2.token, who, burned).value, b2.cash, env.now);
  }

  /** The collateral bit goes exactly when nothing is left behind it. */
  lemma WithdrawalCloses(s: Ledger, who: Addr, a: AssetId, after: Book, emptied: bool)
    requires Sound(s) && a < |s.books|
    requires SoundBook(after, s.time)
    requires after.debts == s.books[a].debts
    requires after.market.liquidityIndex >= s.books[a].market.liquidityIndex
    requires forall o :: o != who ==> BalanceOf(after.token, o) >= BalanceOf(s.books[a].token, o)
    requires a in UserOf(s.users, who).collateral && !emptied && after.market.liquidityIndex <= UNIT ==>
               BalanceOf(after.token, who) > 0
    ensures Sound(s.(books := s.books[a := after],
                  users := if emptied then WithoutCollateral(s.users, who, a) else s.users))
  {
    var users := if emptied then WithoutCollateral(s.users, who, a) else s.users;
    WithoutCollateralFrame(s.users, who, a);
    LinkedSameDebts(s.books[a], after, a, s.users, users);
    BackedWhenHoldingsRise(s.books[a], after, a, s.users, users, who);
    SoundAfterTouching(s, a, after, users);
  }

  lemma WithdrawSound(s: Ledger, env: Env, who: Addr, a: AssetId, requested: Option<nat>)
    requires Sound(s) && env.now == s.time
    requires Withdraw(s, env, who, a, requested).Ok?
    ensures Sound(Withdraw(s, env, who, a, requested).value)
  {
    WithdrawTermsFit(s, env, who, a, requested);
    var w := WithdrawTerms(s, env, who, a, requested).value;
    WithdrawnBookSound(s.books[a], env, who, w.balance, w.amount);
    var after := WithdrawnBook(s.books[a], env, who, w.balance, w.amount).value;
    var emptied := a in UserOf(s.users, who).collateral && w.amount == w.balance;
    if w.amount < w.balance && after.market.liquidityIndex <= UNIT {
      PartOfBalanceStaysScaled(w.balance - w.amount, after.market.liquidityIndex);
    }
    WithdrawalCloses(s, who, a, after, emptied);
  }

  lemma BorrowedBookSound(b: Book, env: Env, who: Addr, amount: nat)
    requires SoundBook(b, env.now)
    requires BorrowedBook(b, env, who, amount).Ok?
    ensures var after := BorrowedBook(b, env, who, amount).value;
            && SoundBook(after, env.now)
            && after.debts == b.debts[who := DebtOf(after, who)]
            && DebtOf(after, who).amountScaled
               == DebtOf(b, who).amountScaled + ScaledUp(amount, UpdatedBorrowIndex(b.market, env.now))
            && after.market.liquidityIndex >= b.market.liquidityIndex
            && (forall a :: BalanceOf(after.token, a) >= BalanceOf(b.token, a))
  {
    AccrueBookSound(b, env);
    var b1 := AccrueBook(b, env).value;
    AccrualIsIdempotent(b1.market, env.now);
    var b2 := RaiseDebt(b1, who, amount, env.now);
    assert who in b1.debts ==> b1.debts[who] == DebtOf(b1, who);
    SoundWithDebt(b1, who, b2.debts[who], b2.market.debtTotalScaled, env.now);
    RepriceAndPaySound(b2, amount, env.now, env.now);
  }

  lemma BorrowSound(s: Ledger, env: Env, who: Addr, a: AssetId, amount: nat)
    requires Sound(s) && env.now == s.time
    requires Borrow(s, env, who, a, amount).Ok?
    ensures Sound(Borrow(s, env, who, a, amount).value)
  {
    var b := s.books[a];
    BorrowedBookSound(b, env, who, amount);
    var after := BorrowedBook(b, env, who, amount).value;
    var users := WithBorrowed(s.users, who, a);
    WithBorrowedFrame(s.users, who, a);
    SoundAfterDebtChange(s, a, after, users, who);
  }

  lemma RepaidBookParts(b: Book, env: Env, who: Addr, amount: nat)
    returns (accrued: Book, left: nat, lowered: Book, repriced: Book, refund: nat)
    requires RepaidBook(b, env, who, amount).Ok?
    ensures AccrueBook(b, env) == Ok(accrued)
    ensures LowerDebt(accrued, who, left, env.now) == Ok(lowered)
    ensures RepriceAndPay(lowered.(cash := lowered.cash + amount), 0, env.now) == Ok(repriced)
    ensures refund <= amount && refund <= repriced.cash
    ensures var owed := UnderlyingDebt(DebtOf(b, who).amountScaled, accrued.market, env.now);
            left == (if amount > owed then 0 else owed - amount) && amount - refund == owed - left
    ensures RepaidBook(b, env, who, amount) == Ok(repriced.(cash := repriced.cash - refund))
  {
    accrued := AccrueBook(b, env).value;
    var owed := UnderlyingDebt(DebtOf(b, who).amountScaled, accrued.market, env.now);
    left := if amount > owed then 0 else owed - amount;
    lowered := LowerDebt(accrued, who, left, env.now).value;
    repriced := RepriceAndPay(lowered.(cash := lowered.cash + amount), 0, env.now).value;
    refund := if amount > owed then amount - owed else 0;
  }

  lemma RepaidBookSound(b: Book, env: Env, who: Addr, amount: nat)
    requires SoundBook(b, env.now)
    requires RepaidBook(b, env, who, amount).Ok?
    ensures var after := RepaidBook(b, env, who, amount).value;
            && SoundBook(after, env.now)
            && after.debts == b.debts[who := DebtOf(after, who)]
            && after.market.liquidityIndex >= b.market.liquidityIndex
            && (forall a :: BalanceOf(after.token, a) >= BalanceOf(b.token, a))
  {
    var accrued, left, lowered, repriced, refund := RepaidBookParts(b, env, who, amount);
    AccrueBookSound(b, env);
    LowerDebtSound(accrued, who, left, env.now, env.now);
    SoundWithToken(lowered, lowered.token, lowered.cash + amount, env.now);
    RepriceAndPaySound(lowered.(cash := lowered.cash + amount), 0, env.now, env.now);
    SoundWithToken(repriced, repriced.token, repriced.cash - refund, env.now);
  }

  /** A change to one user's debt in one market, no holder of the token being worse off. */
  lemma SoundAfterDebtChange(s: Ledger, i: AssetId, after: Book, users: map<Addr, User>, who: Addr)
    requires Sound(s) && i < |s.books|
    requires SoundBook(after, s.time)
    requires after.debts == s.books[i].debts[who := DebtOf(after, who)]
    requires after.market.liquidityIndex >= s.books[i].market.liquidityIndex
    requires forall a :: BalanceOf(after.token, a) >= BalanceOf(s.books[i].token, a)
    requires AgreeExcept(s.users, users, i) && SameCollateral(s.users, users)
    requires forall a :: a != who ==> (i in UserOf(s.users, a).borrowed <==> i in UserOf(users, a).borrowed)
    requires DebtOf(after, who).amountScaled > 0 ==> i in UserOf(users, who).borrowed
    requires i in UserOf(users, who).borrowed && i !in UserOf(s.users, who).borrowed ==> i < Bitmap.WIDTH
    ensures Sound(s.(books := s.books[i := after], users := users))
  {
    LinkedWithDebt(s.books[i], after, i, s.users, users, who, DebtOf(after, who));
    BackedWhenHoldingsRise(s.books[i], after, i, s.users, users, who);
    SoundAfterTouching(s, i, after, users);
  }

  lemma RepaySound(s: Ledger, env: Env, sender: Addr, onBehalfOf: Option<Addr>, a: AssetId, amount: nat)
    requires Sound(s) && env.now == s.time
    requires Repay(s, env, sender, onBehalfOf, a, amount).Ok?
    ensures Sound(Repay(s, env, sender, onBehalfOf, a, amount).value)
  {
    var b := s.books[a];
    var who := Beneficiary(b, sender, onBehalfOf).value;
    RepaidBookSound(b, env, who, amount);
    var after := RepaidBook(b, env, who, amount).value;
    var cleared := DebtOf(after, who).amountScaled == 0;
    var users := if cleared then WithoutBorrowed(s.users, who, a) else s.users;
    WithoutBorrowedFrame(s.users, who, a);
    SoundAfterDebtChange(s, a, after, users, who);
  }
}
