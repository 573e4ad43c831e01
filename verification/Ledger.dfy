/** The lending contract as one state machine: every successful message, together with the token
    messages it sends, is one step. */
module Ledger {
  import opened Base
  import opened FixedPoint
  import opened RateModels
  import opened InterestRates
  import opened MaToken
  import opened Position
  import Bitmap

  /** Market `i` has index `i` and is kept in `books[i]`. */
  datatype Ledger = Ledger(books: seq<Book>, users: map<Addr, User>, closeFactor: nat, time: nat)

  datatype AssetParams = AssetParams(
    initialBorrowRate: Option<nat>,
    maxLoanToValue: Option<nat>,
    reserveFactor: Option<nat>,
    liquidationThreshold: Option<nat>,
    liquidationBonus: Option<nat>,
    model: Option<RateModels.Params>,
    active: Option<bool>,
    depositEnabled: Option<bool>,
    borrowEnabled: Option<bool>)

  function UserOf(users: map<Addr, User>, a: Addr): User {
    if a in users then users[a] else NewUser
  }

  function BookAt(books: seq<Book>, a: AssetId): Result<Book> {
    if a < |books| then Ok(books[a]) else Err(NotFound)
  }

  /** `users` after `set_bit` on a collateral map that may already have the bit. */
  function WithCollateral(users: map<Addr, User>, who: Addr, a: AssetId): map<Addr, User> {
    var u := UserOf(users, who);
    if a in u.collateral then users else users[who := u.(collateral := u.collateral + {a})]
  }

  function WithoutCollateral(users: map<Addr, User>, who: Addr, a: AssetId): map<Addr, User> {
    var u := UserOf(users, who);
    users[who := u.(collateral := u.collateral - {a})]
  }

  function WithBorrowed(users: map<Addr, User>, who: Addr, a: AssetId): map<Addr, User> {
    var u := UserOf(users, who);
    if a in u.borrowed then users else users[who := u.(borrowed := u.borrowed + {a})]
  }

  function WithoutBorrowed(users: map<Addr, User>, who: Addr, a: AssetId): map<Addr, User> {
    var u := UserOf(users, who);
    users[who := u.(borrowed := u.borrowed - {a})]
  }

  // ---------- the market part of a message ----------

  /** Accrues interest; the protocol's share is minted to the rewards collector, and a share too
      small to mint fails the message. */
  function AccrueBook(b: Book, env: Env): Result<Book> {
    var token :-
      if ProtocolRewards(b.market, env.now) > 0 then Mint(b.token, env.collector, RewardMint(b.market, env.now))
      else Ok(b.token);
    Ok(b.(market := Accrued(b.market, env.now), token := token))
  }

  /** Sets the rates for the cash that stays once `taken` has left, and lets it leave. */
  function RepriceAndPay(b: Book, taken: nat, now: nat): Result<Book> {
    var market :- Repriced(b.market, b.cash, taken, now);
    Ok(b.(market := market, cash := b.cash - taken))
  }

  // ---------- administration ----------

  function CreateMarket(p: AssetParams, now: nat): Result<Market> {
    if p.initialBorrowRate.None? || p.maxLoanToValue.None? || p.reserveFactor.None? || p.liquidationThreshold.None?
       || p.liquidationBonus.None? || p.model.None? || p.active.None? || p.depositEnabled.None?
       || p.borrowEnabled.None? then Err(InvalidParams)
    else
      :- Need(p.model.value.Valid(), InvalidParams);
      var m := Market(p.maxLoanToValue.value, p.liquidationThreshold.value, p.liquidationBonus.value,
                      p.reserveFactor.value, p.model.value.Init(now), ONE, ONE, p.initialBorrowRate.value, 0, now, 0,
                      p.active.value, p.depositEnabled.value, p.borrowEnabled.value);
      :- Need(m.Valid(), InvalidParams);
      Ok(m)
  }

  function InitAsset(s: Ledger, env: Env, p: AssetParams): Result<Ledger> {
    var m :- CreateMarket(p, env.now);
    Ok(s.(books := s.books + [Book(m, EmptyToken, map[], map[], 0)]))
  }

  function Or<T>(o: Option<T>, default: T): T {
    if o.Some? then o.value else default
  }

  function WithParams(m: Market, p: AssetParams, now: nat): Result<Market> {
    if p.model.Some? && !p.model.value.Valid() then Err(InvalidParams)
    else
      var updated := m.(
      maxLoanToValue := Or(p.maxLoanToValue, m.maxLoanToValue),
      reserveFactor := Or(p.reserveFactor, m.reserveFactor),
      liquidationThreshold := Or(p.liquidationThreshold, m.liquidationThreshold),
      liquidationBonus := Or(p.liquidationBonus, m.liquidationBonus),
      active := Or(p.active, m.active),
      depositEnabled := Or(p.depositEnabled, m.depositEnabled),
      borrowEnabled := Or(p.borrowEnabled, m.borrowEnabled),
      model := if p.model.Some? then p.model.value.Init(now) else m.model);
      :- Need(updated.Valid(), InvalidParams);
      Ok(updated)
  }

  /** New rate parameters only apply from now on: interest is accrued before they are set. */
  function UpdatedAsset(b: Book, env: Env, p: AssetParams): Result<Book> {
    if (p.reserveFactor.Some? && p.reserveFactor.value != b.market.reserveFactor) || p.model.Some? then
      var b1 :- AccrueBook(b, env);
      var m :- WithParams(b1.market, p, env.now);
      RepriceAndPay(b1.(market := m), 0, env.now)
    else
      var m :- WithParams(b.market, p, env.now);
      Ok(b.(market := m))
  }

  function UpdateAsset(s: Ledger, env: Env, a: AssetId, p: AssetParams): Result<Ledger> {
    var b :- BookAt(s.books, a);
    var after :- UpdatedAsset(b, env, p);
    Ok(s.(books := s.books[a := after]))
  }

  /** A limit can be given only to a user without collateralized debt in the asset. */
  function UpdateLoanLimit(s: Ledger, user: Addr, a: AssetId, limit: nat): Result<Ledger> {
    var b :- BookAt(s.books, a);
    :- Need(user in s.users && LimitOf(b, user) == 0 ==> a < Bitmap.WIDTH, IndexOutOfRange);
    :- Need(user in s.users && LimitOf(b, user) == 0 ==> a !in s.users[user].borrowed, UserHasCollateralizedDebt);
    var b1 := b.(limits := b.limits[user := limit],
    debts := b.debts[user := DebtOf(b, user).(uncollateralized := limit != 0)]);
    Ok(s.(books := s.books[a := b1]))
  }

  function UpdateCloseFactor(s: Ledger, closeFactor: nat): Result<Ledger> {
    if closeFactor > ONE then Err(InvalidParams)
    else
      Ok(s.(closeFactor := closeFactor))
  }

  // ---------- deposit and withdraw ----------

  /** The assets arrive before the message runs. */
  function DepositedBook(b: Book, env: Env, user: Addr, amount: nat): Result<Book> {
    var b1 :- AccrueBook(b.(cash := b.cash + amount), env);
    var b2 :- RepriceAndPay(b1, 0, env.now);
    var minted :- ScaledLiquidity(amount, b2.market, env.now);
    var token :- Mint(b2.token, user, minted);
    Ok(b2.(token := token))
  }

  function Deposit(s: Ledger, env: Env, user: Addr, a: AssetId, amount: nat): Result<Ledger> {
    var b :- BookAt(s.books, a);
    :- Need(b.market.active, MarketNotActive);
    :- Need(b.market.depositEnabled, DepositNotEnabled);
    :- Need(amount > 0, InvalidDepositAmount);
    :- Need(a < Bitmap.WIDTH, IndexOutOfRange);
    var after :- DepositedBook(b, env, user, amount);
    Ok(s.(books := s.books[a := after], users := WithCollateral(s.users, user, a)))
  }

  /** The health check of a withdrawal. With no collateralized debt there is nothing to divide by,
      and the withdrawal fails. */
  function WithdrawCheck(s: Ledger, env: Env, who: Addr, a: AssetId, amount: nat, threshold: nat): Result<()> {
    var p :- PositionOf(s.books, UserOf(s.users, who), who, env);
    var price :- PriceIn(p.assets, a);
    var leaving := MulFloor(MulFloor(amount, price), threshold);
    :- Need(leaving <= p.totals.weightedThreshold, Overflow);
    :- Need(p.totals.collateralizedDebt > 0, DivideByZero);
    :- Need(FromRatio(p.totals.weightedThreshold - leaving, p.totals.collateralizedDebt) >= ONE,
            InvalidHealthFactorAfterWithdraw);
    Ok(())
  }

  /** The amount a withdrawal asks for: what it names, or everything. */
  function WithdrawAmount(requested: Option<nat>, balance: nat): Result<nat> {
    match requested
    case Some(amount) =>
      :- Need(0 < amount <= balance, InvalidWithdrawAmount);
      Ok(amount)
    case None => Ok(balance)
  }

  /** Burns the tokens by which the scaled balance has to fall for `amount` to leave. */
  function WithdrawnBook(b: Book, env: Env, who: Addr, balance: nat, amount: nat): Result<Book>
    requires amount <= balance
  {
    var scaledBefore := BalanceOf(b.token, who);
    var b1 :- AccrueBook(b, env);
    var b2 :- RepriceAndPay(b1, amount, env.now);
    var scaledAfter :- ScaledLiquidity(balance - amount, b2.market, env.now);
    :- Need(scaledAfter <= scaledBefore, Overflow);
    var token :- Burn(b2.token, who, scaledBefore - scaledAfter);
    Ok(b2.(token := token))
  }

  datatype Withdrawal = Withdrawal(balance: nat, amount: nat)

  /** The checks a withdrawal has to pass, and what it comes to. */
  function WithdrawTerms(s: Ledger, env: Env, who: Addr, a: AssetId, requested: Option<nat>): Result<Withdrawal> {
    var b :- BookAt(s.books, a);
    :- Need(b.market.active, MarketNotActive);
    var balance :- UnderlyingLiquidity(BalanceOf(b.token, who), b.market, env.now);
    :- Need(BalanceOf(b.token, who) > 0, UserNoBalance);
    var amount :- WithdrawAmount(requested, balance);
    :- Need(who in s.users || who == env.collector, ExistingUserPositionRequired);
    :- Need(a < Bitmap.WIDTH, IndexOutOfRange);
    var u := UserOf(s.users, who);
    var _ :-
      if a in u.collateral && u.borrowed != {} then
        WithdrawCheck(s, env, who, a, amount, b.market.liquidationThreshold)
      else Ok(());
    Ok(Withdrawal(balance, amount))
  }

  lemma WithdrawTermsFit(s: Ledger, env: Env, who: Addr, a: AssetId, requested: Option<nat>)
    requires WithdrawTerms(s, env, who, a, requested).Ok?
    ensures a < |s.books|
    ensures WithdrawTerms(s, env, who, a, requested).value.amount <= WithdrawTerms(s, env, who, a, requested).value.balance
  {
  }

  /** Withdrawing the whole balance switches the collateral off. */
  function Withdraw(s: Ledger, env: Env, who: Addr, a: AssetId, requested: Option<nat>): Result<Ledger> {
    var w :- WithdrawTerms(s, env, who, a, requested);
    WithdrawTermsFit(s, env, who, a, requested);
    var after :- WithdrawnBook(s.books[a], env, who, w.balance, w.amount);
    var emptied := a in UserOf(s.users, who).collateral && w.amount == w.balance;
    Ok(s.(books := s.books[a := after], users := if emptied then WithoutCollateral(s.users, who, a) else s.users))
  }

  // ---------- borrow and repay ----------

  /** A collateralized loan must leave total debt within what the collateral allows. */
  function BorrowCheck(s: Ledger, env: Env, who: Addr, a: AssetId, amount: nat): Result<()> {
    var u := UserOf(s.users, who);
    var p :- PositionOf(s.books, u, who, env);
    var price :-
      if a in u.borrowed then PriceIn(p.assets, a)
      else if a in env.prices then Ok(env.prices[a])
      else Err(OracleFailure);
    :- Need(p.totals.debt + MulFloor(amount, price) <= p.totals.maxDebt, BorrowAmountExceedsGivenCollateral);
    Ok(())
  }

  /** An uncollateralized loan must stay within its limit. */
  function LimitCheck(b: Book, env: Env, who: Addr, amount: nat): Result<()> {
    if UnderlyingDebt(DebtOf(b, who).amountScaled, b.market, env.now) + amount > LimitOf(b, who) then
      Err(BorrowAmountExceedsUncollateralizedLoanLimit)
    else
      Ok(())
  }

  /** Adds the scaled loan to the borrower's debt and to the market's. */
  function RaiseDebt(b: Book, who: Addr, amount: nat, now: nat): Book {
    var debt := if who in b.debts then b.debts[who] else Debt(0, LimitOf(b, who) > 0);
    var scaled := ScaledDebt(amount, b.market, now);
    b.(market := b.market.(debtTotalScaled := b.market.debtTotalScaled + scaled),
    debts := b.debts[who := debt.(amountScaled := debt.amountScaled + scaled)])
  }

  function BorrowedBook(b: Book, env: Env, who: Addr, amount: nat): Result<Book> {
    var b1 :- AccrueBook(b, env);
    RepriceAndPay(RaiseDebt(b1, who, amount, env.now), amount, env.now)
  }

  function Borrow(s: Ledger, env: Env, who: Addr, a: AssetId, amount: nat): Result<Ledger> {
    if amount == 0 then Err(InvalidBorrowAmount)
    else
      var b :- BookAt(s.books, a);
      :- Need(b.market.active, MarketNotActive);
      :- Need(b.market.borrowEnabled, BorrowNotEnabled);
      :- Need(who in s.users || LimitOf(b, who) > 0, UserNoCollateral);
      :- Need(a < Bitmap.WIDTH, IndexOutOfRange);
      var _ :- if LimitOf(b, who) == 0 then BorrowCheck(s, env, who, a, amount) else LimitCheck(b, env, who, amount);
      var after :- BorrowedBook(b, env, who, amount);
      Ok(s.(books := s.books[a := after], users := WithBorrowed(s.users, who, a)))
  }

  /** Whose debt a repayment reduces. A loan with a limit can only be repaid by its borrower. */
  function Beneficiary(b: Book, sender: Addr, onBehalfOf: Option<Addr>): Result<Addr> {
    match onBehalfOf
    case Some(other) =>
      :- Need(LimitOf(b, other) == 0, CannotRepayUncollateralizedLoanOnBehalfOf);
      Ok(other)
    case None => Ok(sender)
  }

  /** Lowers a debt to `owed` underlying units and the market's total accordingly. */
  function LowerDebt(b: Book, who: Addr, owed: nat, now: nat): Result<Book> {
    var debt := DebtOf(b, who);
    var after := ScaledDebt(owed, b.market, now);
    :- Need(after <= debt.amountScaled, Overflow);
    :- Need(debt.amountScaled - after <= b.market.debtTotalScaled, Overflow);
    Ok(b.(market := b.market.(debtTotalScaled := b.market.debtTotalScaled - (debt.amountScaled - after)),
       debts := b.debts[who := debt.(amountScaled := after)]))
  }

  /** Excess payment is refunded after the rates were set, so it still counts as cash for them. */
  function RepaidBook(b: Book, env: Env, who: Addr, amount: nat): Result<Book> {
    var b1 :- AccrueBook(b, env);
    var owed := UnderlyingDebt(DebtOf(b, who).amountScaled, b1.market, env.now);
    var b2 :- LowerDebt(b1, who, if amount > owed then 0 else owed - amount, env.now);
    var b3 :- RepriceAndPay(b2.(cash := b2.cash + amount), 0, env.now);
    Ok(b3.(cash := b3.cash - if amount > owed then amount - owed else 0))
  }

  function Repay(s: Ledger, env: Env, sender: Addr, onBehalfOf: Option<Addr>, a: AssetId, amount: nat): Result<Ledger> {
    var b :- BookAt(s.books, a);
    var who :- Beneficiary(b, sender, onBehalfOf);
    :- Need(b.market.active, MarketNotActive);
    :- Need(amount > 0, InvalidRepayAmount);
    :- Need(who in b.debts, NotFound);
    :- Need(b.debts[who].amountScaled > 0, CannotRepayZeroDebt);
    var after :- RepaidBook(b, env, who, amount);
    var cleared := DebtOf(after, who).amountScaled == 0;
    :- Need(cleared ==> who in s.users, NotFound);
    :- Need(cleared ==> a < Bitmap.WIDTH, IndexOutOfRange);
    Ok(s.(books := s.books[a := after],
       users := if cleared then WithoutBorrowed(s.users, who, a) else s.users))
  }

  // ---------- liquidation ----------

  datatype Seizure = Seizure(repaid: nat, seized: nat, refund: nat)

  /** What a liquidator pays, gets and is handed back. */
  function LiquidationAmounts(collateralPrice: nat, debtPrice: nat, closeFactor: nat, balance: nat, bonus: nat,
                              debt: nat, sent: nat): Result<Seizure>
  {
    var most := MulFloor(debt, closeFactor);
    var repaid := if sent > most then most else sent;
    :- Need(collateralPrice > 0, DivideByZero);
    var wanted := DivFloor(MulFloor(MulFloor(repaid, debtPrice), ONE + bonus), collateralPrice);
    if wanted > balance then
      :- Need(debtPrice > 0, DivideByZero);
      var capped := DivFloor(DivFloor(MulFloor(balance, collateralPrice), debtPrice), ONE + bonus);
      :- Need(capped <= sent, Overflow);
      Ok(Seizure(capped, balance, sent - capped))
    else
      Ok(Seizure(repaid, wanted, sent - repaid))
  }

  datatype LiquidationCall = LiquidationCall(
    liquidator: Addr,
    collateral: AssetId,
    debt: AssetId,
    user: Addr,
    sent: nat,
    receiveMaToken: bool)

  /** The part of a liquidation's checks that looks at the user's balances and position, and the amounts
      it comes to. */
  function UnderwaterTerms(s: Ledger, env: Env, c: LiquidationCall, u: User): Result<Seizure>
    requires c.debt < |s.books| && c.collateral < |s.books|
  {
    var cb, db := s.books[c.collateral], s.books[c.debt];
    var balance :- UnderlyingLiquidity(BalanceOf(cb.token, c.user), cb.market, env.now);
    :- Need(balance > 0, CannotLiquidateWhenNoCollateralBalance);
    :- Need(c.user in db.debts, NotFound);
    :- Need(db.debts[c.user].amountScaled > 0, CannotLiquidateWhenNoDebtBalance);
    var p :- PositionOf(s.books, u, c.user, env);
    :- Need(p.health.Borrowing?, CannotLiquidateWhenNoDebtBalance);
    :- Need(p.health.healthFactor < ONE, CannotLiquidateHealthyPosition);
    :- Need(db.market.active, MarketNotActive);
    var collateralPrice :- PriceIn(p.assets, c.collateral);
    var debtPrice :- PriceIn(p.assets, c.debt);
    LiquidationAmounts(collateralPrice, debtPrice, s.closeFactor, balance, cb.market.liquidationBonus,
                       UnderlyingDebt(db.debts[c.user].amountScaled, db.market, env.now), c.sent)
  }

  /** The checks a liquidation has to pass, and the amounts it comes to. */
  function LiquidationTerms(s: Ledger, env: Env, c: LiquidationCall): Result<Seizure> {
    var db :- BookAt(s.books, c.debt);
    :- Need(LimitOf(db, c.user) == 0, CannotLiquidateWhenPositiveUncollateralizedLoanLimit);
    :- Need(c.sent > 0, InvalidLiquidateAmount);
    var cb :- BookAt(s.books, c.collateral);
    :- Need(cb.market.active, MarketNotActive);
    :- Need(c.user in s.users, NotFound);
    :- Need(c.collateral < Bitmap.WIDTH, IndexOutOfRange);
    var u := s.users[c.user];
    :- Need(c.collateral in u.collateral, CannotLiquidateWhenCollateralUnset);
    UnderwaterTerms(s, env, c, u)
  }

  /** Collateral changes hands: as tokens, or burned for the underlying asset. */
  function SeizeTokens(b: Book, env: Env, c: LiquidationCall, seized: nat): Result<Book> {
    var scaled :- ScaledLiquidity(seized, b.market, env.now);
    :- Need(c.receiveMaToken || seized <= b.cash, CannotLiquidateWhenNotEnoughCollateral);
    var token :-
      if c.receiveMaToken then Transfer(b.token, c.user, c.liquidator, scaled)
      else Burn(b.token, c.user, scaled);
    Ok(b.(token := token))
  }

  /** Lowers the debt on a book whose interest is accrued in the same step. */
  function SettleDebt(b: Book, env: Env, who: Addr, repaid: nat, taken: nat): Result<Book> {
    var owed := UnderlyingDebt(DebtOf(b, who).amountScaled, b.market, env.now);
    :- Need(repaid <= owed, Overflow);
    var b1 :- AccrueBook(b, env);
    var b2 :- LowerDebt(b1, who, owed - repaid, env.now);
    RepriceAndPay(b2, taken, env.now)
  }

  /** The collateral side of a liquidation across two markets. */
  function CollateralAfter(b: Book, env: Env, c: LiquidationCall, seized: nat): Result<Book> {
    var c1 :- SeizeTokens(b, env, c, seized);
    if c.receiveMaToken then Ok(c1)
    else
      var c2 :- AccrueBook(c1, env);
      RepriceAndPay(c2, seized, env.now)
  }

  /** A liquidation in which debt and collateral are the same asset. */
  function SingleMarketAfter(b: Book, env: Env, c: LiquidationCall, t: Seizure): Result<Book> {
    SettleSeized(SeizeTokens(b.(cash := b.cash + c.sent), env, c, t.seized), env, c, t)
  }

  /** Settles the debt once the collateral was taken from the same market, if it could be. */
  function SettleSeized(seized: Result<Book>, env: Env, c: LiquidationCall, t: Seizure): Result<Book> {
    var b :- seized;
    SettleDebt(b, env, c.user, t.repaid, LeavingWith(c, t))
  }

  /** What leaves a market that is both sides of a liquidation. */
  function LeavingWith(c: LiquidationCall, t: Seizure): nat {
    t.refund + if c.receiveMaToken then 0 else t.seized
  }

  /** The books after a liquidation on the given terms. Debt and collateral may be the same asset;
      a market whose tokens merely change hands is not repriced. */
  function LiquidatedBooks(books: seq<Book>, env: Env, c: LiquidationCall, t: Seizure): Result<seq<Book>>
    requires c.collateral < |books| && c.debt < |books|
  {
    if c.collateral == c.debt then
      var b :- SingleMarketAfter(books[c.debt], env, c, t);
      Ok(books[c.debt := b])
    else
      WithBoth(books, c, CollateralAfter(books[c.collateral], env, c, t.seized),
               SettleDebt(books[c.debt].(cash := books[c.debt].cash + c.sent), env, c.user, t.repaid, t.refund))
  }

  /** Saves both markets of a liquidation, if both sides went through. */
  function WithBoth(books: seq<Book>, c: LiquidationCall, collateral: Result<Book>, debt: Result<Book>):
    Result<seq<Book>>
    requires c.collateral < |books| && c.debt < |books|
  {
    var cb :- collateral;
    var db :- debt;
    Ok(books[c.collateral := cb][c.debt := db])
  }

  function LiquidatedUsers(s: Ledger, env: Env, c: LiquidationCall, t: Seizure): Result<map<Addr, User>>
    requires c.collateral < |s.books|
  {
    var cb := s.books[c.collateral];
    var balance :- UnderlyingLiquidity(BalanceOf(cb.token, c.user), cb.market, env.now);
    var users := if c.receiveMaToken then WithCollateral(s.users, c.liquidator, c.collateral) else s.users;
    Ok(if t.seized == balance then WithoutCollateral(users, c.user, c.collateral) else users)
  }

  function Liquidate(s: Ledger, env: Env, c: LiquidationCall): Result<Ledger> {
    var t :- LiquidationTerms(s, env, c);
    var users :- LiquidatedUsers(s, env, c, t);
    var books :- LiquidatedBooks(s.books, env, c, t);
    Ok(s.(books := books, users := users))
  }

  // ---------- collateral status and token transfers ----------

  function SetCollateralStatus(s: Ledger, env: Env, who: Addr, a: AssetId, enable: bool): Result<Ledger> {
    var b :- BookAt(s.books, a);
    :- Need(a < Bitmap.WIDTH, IndexOutOfRange);
    var u := UserOf(s.users, who);
    if a !in u.collateral && enable then
      :- Need(BalanceOf(b.token, who) > 0, UserNoCollateralBalance);
      Ok(s.(users := WithCollateral(s.users, who, a)))
    else if a in u.collateral && !enable then
      var p :- PositionOf(s.books, u.(collateral := u.collateral - {a}), who, env);
      :- Need(!Unhealthy(p.health), InvalidHealthFactorAfterDisablingCollateral);
      Ok(s.(users := WithoutCollateral(s.users, who, a)))
    else
      Ok(s)
  }

  /** The lending contract's answer to a transfer of liquidity tokens that has just been made. */
  function FinalizeTransfer(s: Ledger, env: Env, a: AssetId, from: Addr, to: Addr, fromBefore: nat, toBefore: nat,
                            amount: nat): Result<Ledger>
  {
    if from !in s.users then Err(NotFound)
    else
      var p :- PositionOf(s.books, s.users[from], from, env);
      :- Need(!Unhealthy(p.health), CannotTransferTokenWhenInvalidHealthFactor);
      if from == to then Ok(s)
      else
        :- Need(amount <= fromBefore, Overflow);
        :- Need(fromBefore == amount || (toBefore == 0 && amount > 0) ==> a < Bitmap.WIDTH, IndexOutOfRange);
        var users := if fromBefore == amount then WithoutCollateral(s.users, from, a) else s.users;
        Ok(s.(users := if toBefore == 0 && amount > 0 then WithCollateral(users, to, a) else users))
  }

  function TransferToken(s: Ledger, env: Env, a: AssetId, from: Addr, to: Addr, amount: nat): Result<Ledger> {
    var b :- BookAt(s.books, a);
    var token :- Transfer(b.token, from, to, amount);
    FinalizeTransfer(s.(books := s.books[a := b.(token := token)]), env, a, from, to,
                     BalanceOf(b.token, from), BalanceOf(b.token, to), amount)
  }

  /** Anyone may send assets to the contract outside its messages. */
  function Donate(s: Ledger, a: AssetId, amount: nat): Result<Ledger> {
    var b :- BookAt(s.books, a);
    Ok(s.(books := s.books[a := b.(cash := b.cash + amount)]))
  }

  // ---------- runs ----------

  datatype Msg =
    | MsgInitAsset(params: AssetParams)
    | MsgUpdateAsset(asset: AssetId, params: AssetParams)
    | MsgUpdateLoanLimit(user: Addr, asset: AssetId, limit: nat)
    | MsgUpdateCloseFactor(closeFactor: nat)
    | MsgDeposit(user: Addr, asset: AssetId, amount: nat)
    | MsgWithdraw(user: Addr, asset: AssetId, requested: Option<nat>)
    | MsgBorrow(user: Addr, asset: AssetId, amount: nat)
    | MsgRepay(sender: Addr, onBehalfOf: Option<Addr>, asset: AssetId, amount: nat)
    | MsgLiquidate(call: LiquidationCall)
    | MsgSetCollateralStatus(user: Addr, asset: AssetId, enable: bool)
    | MsgTransferToken(asset: AssetId, sender: Addr, recipient: Addr, amount: nat)
    | MsgDonate(asset: AssetId, amount: nat)

  function Handle(s: Ledger, env: Env, msg: Msg): Result<Ledger> {
    match msg
    case MsgInitAsset(p) => InitAsset(s, env, p)
    case MsgUpdateAsset(a, p) => UpdateAsset(s, env, a, p)
    case MsgUpdateLoanLimit(u, a, limit) => UpdateLoanLimit(s, u, a, limit)
    case MsgUpdateCloseFactor(f) => UpdateCloseFactor(s, f)
    case MsgDeposit(u, a, amount) => Deposit(s, env, u, a, amount)
    case MsgWithdraw(u, a, requested) => Withdraw(s, env, u, a, requested)
    case MsgBorrow(u, a, amount) => Borrow(s, env, u, a, amount)
    case MsgRepay(sender, other, a, amount) => Repay(s, env, sender, other, a, amount)
    case MsgLiquidate(c) => Liquidate(s, env, c)
    case MsgSetCollateralStatus(u, a, enable) => SetCollateralStatus(s, env, u, a, enable)
    case MsgTransferToken(a, from, to, amount) => TransferToken(s, env, a, from, to, amount)
    case MsgDonate(a, amount) => Donate(s, a, amount)
  }

  /** One transaction: block time moves on, and a failed message changes nothing else. */
  function Step(s: Ledger, env: Env, msg: Msg): Ledger {
    var timed := s.(time := if env.now > s.time then env.now else s.time);
    var r := Handle(timed, env.(now := timed.time), msg);
    if r.Ok? then r.value else timed
  }

  datatype Tx = Tx(env: Env, msg: Msg)

  function Run(s: Ledger, txs: seq<Tx>): Ledger {
    if txs == [] then s
    else Step(Run(s, txs[..|txs| - 1]), txs[|txs| - 1].env, txs[|txs| - 1].msg)
  }

  /** A freshly instantiated contract. */
  predicate Fresh(s: Ledger) {
    s.books == [] && s.users == map[] && s.closeFactor <= ONE
  }
}
