/** The lending contract as it works: records with bitmaps that are loaded, changed and saved, and loops
    over the markets. Each operation is proved to do what the state machine of `Ledger` says. */
module RedBank {
  import opened Base
  import opened FixedPoint
  import opened RateModels
  import opened InterestRates
  import opened Bitmap
  import opened MaToken
  import opened Position
  import opened Ledger
  import L = Ledger

  /** A user's stored record. */
  datatype UserRecord = UserRecord(collateralAssets: Bits, borrowedAssets: Bits)

  function NewRecord(): UserRecord {
    PowPositive(WIDTH);
    UserRecord(0, 0)
  }

  /** The sets of markets a record stands for. */
  ghost function Flagged(r: UserRecord): User {
    User(Members(r.collateralAssets), Members(r.borrowedAssets))
  }

  ghost function FlaggedUsers(users: map<Addr, UserRecord>): map<Addr, User> {
    map a | a in users :: Flagged(users[a])
  }

  function RecordOf(users: map<Addr, UserRecord>, a: Addr): UserRecord {
    if a in users then users[a] else NewRecord()
  }

  lemma RecordFlags(users: map<Addr, UserRecord>, a: Addr)
    ensures Flagged(RecordOf(users, a)) == UserOf(FlaggedUsers(users), a)
  {
    ZeroIsEmpty(NewRecord().collateralAssets);
  }

  lemma RecordSaved(users: map<Addr, UserRecord>, a: Addr, r: UserRecord)
    ensures FlaggedUsers(users[a := r]) == FlaggedUsers(users)[a := Flagged(r)]
  {
  }

  lemma FlagIsBit(r: UserRecord, i: nat)
    requires i < WIDTH
    ensures i in Flagged(r).collateral <==> GetBit(r.collateralAssets, i)
    ensures i in Flagged(r).borrowed <==> GetBit(r.borrowedAssets, i)
  {
  }

  // ---------- changes to a record, as sets ----------

  function SetCollateral(r: UserRecord, i: nat): UserRecord
    requires i < WIDTH
  {
    SetStaysWithin(r.collateralAssets, i, WIDTH);
    r.(collateralAssets := SetBit(r.collateralAssets, i))
  }

  function SetBorrowed(r: UserRecord, i: nat): UserRecord
    requires i < WIDTH
  {
    SetStaysWithin(r.borrowedAssets, i, WIDTH);
    r.(borrowedAssets := SetBit(r.borrowedAssets, i))
  }

  function UnsetCollateral(r: UserRecord, i: nat): UserRecord {
    r.(collateralAssets := UnsetBit(r.collateralAssets, i))
  }

  function UnsetBorrowed(r: UserRecord, i: nat): UserRecord {
    r.(borrowedAssets := UnsetBit(r.borrowedAssets, i))
  }

  lemma CollateralSet(users: map<Addr, UserRecord>, a: Addr, i: nat)
    requires i < WIDTH
    ensures var r := RecordOf(users, a);
            WithCollateral(FlaggedUsers(users), a, i)
            == FlaggedUsers(if GetBit(r.collateralAssets, i) then users else users[a := SetCollateral(r, i)])
  {
    var r := RecordOf(users, a);
    RecordFlags(users, a);
    FlagIsBit(r, i);
    SetInserts(r.collateralAssets, i);
    RecordSaved(users, a, SetCollateral(r, i));
  }

  lemma BorrowedSet(users: map<Addr, UserRecord>, a: Addr, i: nat)
    requires i < WIDTH
    ensures var r := RecordOf(users, a);
            WithBorrowed(FlaggedUsers(users), a, i)
            == FlaggedUsers(if GetBit(r.borrowedAssets, i) then users else users[a := SetBorrowed(r, i)])
  {
    var r := RecordOf(users, a);
    RecordFlags(users, a);
    FlagIsBit(r, i);
    SetInserts(r.borrowedAssets, i);
    RecordSaved(users, a, SetBorrowed(r, i));
  }

  lemma CollateralUnset(users: map<Addr, UserRecord>, a: Addr, i: nat)
    requires i < WIDTH
    ensures WithoutCollateral(FlaggedUsers(users), a, i)
         == FlaggedUsers(users[a := UnsetCollateral(RecordOf(users, a), i)])
  {
    RecordFlags(users, a);
    UnsetDeletes(RecordOf(users, a).collateralAssets, i);
    RecordSaved(users, a, UnsetCollateral(RecordOf(users, a), i));
  }

  lemma BorrowedUnset(users: map<Addr, UserRecord>, a: Addr, i: nat)
    requires i < WIDTH
    ensures WithoutBorrowed(FlaggedUsers(users), a, i)
         == FlaggedUsers(users[a := UnsetBorrowed(RecordOf(users, a), i)])
  {
    RecordFlags(users, a);
    UnsetDeletes(RecordOf(users, a).borrowedAssets, i);
    RecordSaved(users, a, UnsetBorrowed(RecordOf(users, a), i));
  }

  // ---------- the position of a user ----------

  lemma {:induction false} PositionErrorSticks(books: seq<Book>, u: User, who: Addr, env: Env, m: nat, n: nat)
    requires m <= n <= |books|
    requires AssetPositions(books, u, who, env, m).Err?
    ensures AssetPositions(books, u, who, env, n) == AssetPositions(books, u, who, env, m)
    decreases n
  {
    if m < n {
      PositionErrorSticks(books, u, who, env, m, n - 1);
    }
  }

  /** One flagged market, read from the two bits. */
  method GetUserAssetPosition(b: Book, i: AssetId, r: UserRecord, who: Addr, env: Env) returns (p: Result<AssetPosition>)
    requires i < WIDTH
    ensures p == AssetPositionIn(b, i, Flagged(r), who, env)
  {
    FlagIsBit(r, i);
    var collateral, maxLtv, threshold := 0, 0, 0;
    if GetBit(r.collateralAssets, i) {
      collateral :- UnderlyingLiquidity(BalanceOf(b.token, who), b.market, env.now);
      maxLtv, threshold := b.market.maxLoanToValue, b.market.liquidationThreshold;
    }
    var debt, uncollateralized := 0, false;
    if GetBit(r.borrowedAssets, i) {
      if who !in b.debts {
        return Err(NotFound);
      }
      debt := UnderlyingDebt(b.debts[who].amountScaled, b.market, env.now);
      uncollateralized := b.debts[who].uncollateralized;
    }
    if i !in env.prices {
      return Err(OracleFailure);
    }
    return Ok(AssetPosition(i, collateral, debt, uncollateralized, maxLtv, threshold, env.prices[i]));
  }

  /** The loop over all market indexes. */
  method GetUserAssetPositions(books: seq<Book>, r: UserRecord, who: Addr, env: Env)
    returns (ps: Result<seq<AssetPosition>>)
    ensures ps == AssetPositions(books, Flagged(r), who, env, |books|)
  {
    var ret: seq<AssetPosition> := [];
    for i := 0 to |books|
      invariant AssetPositions(books, Flagged(r), who, env, i) == Ok(ret)
    {
      if i >= WIDTH {
        PositionErrorSticks(books, Flagged(r), who, env, i + 1, |books|);
        return Err(IndexOutOfRange);
      }
      FlagIsBit(r, i);
      if !GetBit(r.collateralAssets, i) && !GetBit(r.borrowedAssets, i) {
        continue;
      }
      var p := GetUserAssetPosition(books[i], i, r, who, env);
      if p.Err? {
        PositionErrorSticks(books, Flagged(r), who, env, i + 1, |books|);
        return Err(p.error);
      }
      ret := ret + [p.value];
    }
    return Ok(ret);
  }

  /** The loop over the positions with its running totals. */
  method GetUserPosition(books: seq<Book>, r: UserRecord, who: Addr, env: Env) returns (position: Result<UserPosition>)
    ensures position == PositionOf(books, Flagged(r), who, env)
  {
    var ps :- GetUserAssetPositions(books, r, who, env);
    var totalCollateral: nat, totalDebt: nat, collateralizedDebt: nat := 0, 0, 0;
    var maxDebt: nat, weightedThreshold: nat := 0, 0;
    for k := 0 to |ps|
      invariant Valuation(totalCollateral, totalDebt, collateralizedDebt, maxDebt, weightedThreshold) == Position.Totals(ps[..k])
    {
      assert ps[..k + 1][..k] == ps[..k];
      var collateral := MulFloor(ps[k].collateral, ps[k].price);
      totalCollateral := totalCollateral + collateral;
      maxDebt := maxDebt + MulFloor(collateral, ps[k].maxLoanToValue);
      weightedThreshold := weightedThreshold + MulFloor(collateral, ps[k].liquidationThreshold);
      var debt := MulFloor(ps[k].debt, ps[k].price);
      totalDebt := totalDebt + debt;
      if !ps[k].uncollateralizedDebt {
        collateralizedDebt := collateralizedDebt + debt;
      }
    }
    assert ps[..|ps|] == ps;
    var health := NotBorrowing;
    if collateralizedDebt != 0 {
      health := Borrowing(FromRatio(weightedThreshold, collateralizedDebt));
    }
    return Ok(UserPosition(Valuation(totalCollateral, totalDebt, collateralizedDebt, maxDebt, weightedThreshold), health,
                           ps));
  }

  // ---------- liquidation amounts ----------

  /** Works with values that are recomputed when the user's balance caps the seizure. */
  method LiquidationComputeAmounts(collateralPrice: nat, debtPrice: nat, closeFactor: nat, balance: nat, bonus: nat,
                                   debt: nat, sent: nat) returns (r: Result<Seizure>)
    ensures r == LiquidationAmounts(collateralPrice, debtPrice, closeFactor, balance, bonus, debt, sent)
  {
    var most := MulFloor(debt, closeFactor);
    var toRepay := most;
    if sent <= most {
      toRepay := sent;
    }
    if collateralPrice == 0 {
      return Err(DivideByZero);
    }
    var toLiquidate := DivFloor(MulFloor(MulFloor(toRepay, debtPrice), ONE + bonus), collateralPrice);
    if toLiquidate > balance {
      toLiquidate := balance;
      if debtPrice == 0 {
        return Err(DivideByZero);
      }
      toRepay := DivFloor(DivFloor(MulFloor(toLiquidate, collateralPrice), debtPrice), ONE + bonus);
    }
    if sent < toRepay {
      return Err(Overflow);
    }
    return Ok(Seizure(toRepay, toLiquidate, sent - toRepay));
  }

  // ---------- interest ----------

  /** Interest is applied, and the protocol's share minted, if there is any. */
  method ApplyInterest(b: Book, env: Env) returns (r: Result<Book>)
    ensures r == AccrueBook(b, env)
  {
    var market, rewards, minted := ApplyAccumulatedInterests(b.market, env.now);
    var token := b.token;
    if rewards > 0 {
      token :- Mint(token, env.collector, minted);
    }
    return Ok(b.(market := market, token := token));
  }

  /** The rates are set for the liquidity that stays, and the rest is sent away. */
  method UpdateInterestRates(b: Book, lessLiquidity: nat, now: nat) returns (r: Result<Book>)
    ensures r == RepriceAndPay(b, lessLiquidity, now)
  {
    var market := b.market;
    if b.cash < lessLiquidity {
      return Err(OperationExceedsAvailableLiquidity);
    }
    var available := b.cash - lessLiquidity;
    var totalDebt := UnderlyingDebt(market.debtTotalScaled, market, now);
    var utilization := 0;
    if totalDebt > 0 {
      utilization := FromRatio(totalDebt, available + totalDebt);
    }
    var next :- NextBorrowRate(market.model, utilization, market.borrowRate, now);
    market := market.(borrowRate := next.0, model := next.1);
    var liquidityRate :- LiquidityRate(market.borrowRate, utilization, market.reserveFactor);
    market := market.(liquidityRate := liquidityRate);
    return Ok(b.(market := market, cash := available));
  }

  /** Outcome of a handler: what the state machine makes of the same message. */
  ghost function Outcome(r: Result<Ledger>): Check {
    if r.Ok? then Pass else Fail(r.error)
  }

  method ProcessParams(before: Book, env: Env, params: AssetParams) returns (r: Result<Book>)
    ensures r == UpdatedAsset(before, env, params)
  {
    var book := before;
    var updateRates :=
      (params.reserveFactor.Some? && params.reserveFactor.value != book.market.reserveFactor) || params.model.Some?;
    if updateRates {
      book :- ApplyInterest(book, env);
    }
    var market :- WithParams(book.market, params, env.now);
    book := book.(market := market);
    if updateRates {
      book :- UpdateInterestRates(book, 0, env.now);
    }
    return Ok(book);
  }

  /** The market part of a deposit; the assets have arrived before. */
  method ProcessDeposit(before: Book, env: Env, user: Addr, amount: nat) returns (r: Result<Book>)
    ensures r == DepositedBook(before, env, user, amount)
  {
    var book := before.(cash := before.cash + amount);
    book :- ApplyInterest(book, env);
    book :- UpdateInterestRates(book, 0, env.now);
    var mintAmount :- ScaledLiquidity(amount, book.market, env.now);
    var token :- Mint(book.token, user, mintAmount);
    return Ok(book.(token := token));
  }

  method ProcessWithdrawal(before: Book, env: Env, who: Addr, balance: nat, amount: nat) returns (r: Result<Book>)
    requires amount <= balance
    ensures r == WithdrawnBook(before, env, who, balance, amount)
  {
    var balanceScaled := BalanceOf(before.token, who);
    var book :- ApplyInterest(before, env);
    book :- UpdateInterestRates(book, amount, env.now);
    var balanceAfter := balance - amount;
    var balanceScaledAfter :- ScaledLiquidity(balanceAfter, book.market, env.now);
    if balanceScaled < balanceScaledAfter {
      return Err(Overflow);
    }
    var token :- Burn(book.token, who, balanceScaled - balanceScaledAfter);
    return Ok(book.(token := token));
  }

  method ProcessLoan(before: Book, env: Env, who: Addr, amount: nat) returns (r: Result<Book>)
    ensures r == BorrowedBook(before, env, who, amount)
  {
    var book :- ApplyInterest(before, env);
    var debt := Debt(0, LimitOf(book, who) > 0);
    if who in book.debts {
      debt := book.debts[who];
    }
    var scaled := ScaledDebt(amount, book.market, env.now);
    debt := debt.(amountScaled := debt.amountScaled + scaled);
    var market := book.market;
    market := market.(debtTotalScaled := market.debtTotalScaled + scaled);
    book := book.(market := market, debts := book.debts[who := debt]);
    r := UpdateInterestRates(book, amount, env.now);
  }

  /** What exceeds the debt is handed back once the rates are set. */
  method ProcessRepayment(before: Book, env: Env, who: Addr, amount: nat) returns (r: Result<Book>)
    ensures r == RepaidBook(before, env, who, amount)
  {
    var book :- ApplyInterest(before, env);
    var owed := UnderlyingDebt(DebtOf(book, who).amountScaled, book.market, env.now);
    var owedAfter: nat, refund: nat := 0, 0;
    if amount > owed {
      refund := amount - owed;
    } else {
      owedAfter := owed - amount;
    }
    book :- ReduceDebt(book, who, owedAfter, env.now);
    book :- UpdateInterestRates(book.(cash := book.cash + amount), 0, env.now);
    return Ok(book.(cash := book.cash - refund));
  }

  /** Lowers the user's debt and the market's by the same scaled amount. */
  method ReduceDebt(book: Book, who: Addr, owedAfter: nat, now: nat) returns (r: Result<Book>)
    ensures r == LowerDebt(book, who, owedAfter, now)
  {
    var debt := DebtOf(book, who);
    var scaledAfter := ScaledDebt(owedAfter, book.market, now);
    if debt.amountScaled < scaledAfter {
      return Err(Overflow);
    }
    var delta := debt.amountScaled - scaledAfter;
    debt := debt.(amountScaled := scaledAfter);
    var market := book.market;
    if market.debtTotalScaled < delta {
      return Err(Overflow);
    }
    market := market.(debtTotalScaled := market.debtTotalScaled - delta);
    return Ok(book.(market := market, debts := book.debts[who := debt]));
  }

  /** Tokens to the liquidator, or burned for the underlying asset. */
  method ProcessSeizure(b: Book, env: Env, c: LiquidationCall, seized: nat) returns (r: Result<Book>)
    ensures r == SeizeTokens(b, env, c, seized)
  {
    var scaled :- ScaledLiquidity(seized, b.market, env.now);
    var token := b.token;
    if c.receiveMaToken {
      token :- Transfer(token, c.user, c.liquidator, scaled);
    } else {
      if b.cash < seized {
        return Err(CannotLiquidateWhenNotEnoughCollateral);
      }
      token :- Burn(token, c.user, scaled);
    }
    return Ok(b.(token := token));
  }

  /** The collateral market of a liquidation across two; its rates only change if assets leave it. */
  method ProcessCollateral(b: Book, env: Env, c: LiquidationCall, seized: nat) returns (r: Result<Book>)
    ensures r == CollateralAfter(b, env, c, seized)
  {
    var book :- ProcessSeizure(b, env, c, seized);
    if !c.receiveMaToken {
      book :- ApplyInterest(book, env);
      book :- UpdateInterestRates(book, seized, env.now);
    }
    return Ok(book);
  }

  method ProcessSettlement(b: Book, env: Env, who: Addr, repaid: nat, lessLiquidity: nat) returns (r: Result<Book>)
    ensures r == SettleDebt(b, env, who, repaid, lessLiquidity)
  {
    var owed := UnderlyingDebt(DebtOf(b, who).amountScaled, b.market, env.now);
    if owed < repaid {
      return Err(Overflow);
    }
    var book :- ApplyInterest(b, env);
    book :- ReduceDebt(book, who, owed - repaid, env.now);
    r := UpdateInterestRates(book, lessLiquidity, env.now);
  }

  /** A liquidation in which debt and collateral are the same asset. */
  method ProcessOneMarket(b: Book, env: Env, c: LiquidationCall, t: Seizure) returns (r: Result<Book>)
    ensures r == SingleMarketAfter(b, env, c, t)
  {
    var seized := ProcessSeizure(b.(cash := b.cash + c.sent), env, c, t.seized);
    r := ProcessSeized(seized, env, c, t);
  }

  method ProcessSeized(seized: Result<Book>, env: Env, c: LiquidationCall, t: Seizure) returns (r: Result<Book>)
    ensures r == SettleSeized(seized, env, c, t)
  {
    var book :- seized;
    var lessLiquidity := t.refund;
    if !c.receiveMaToken {
      lessLiquidity := lessLiquidity + t.seized;
    }
    r := ProcessSettlement(book, env, c.user, t.repaid, lessLiquidity);
  }

  method ProcessTwoMarkets(before: seq<Book>, env: Env, c: LiquidationCall, t: Seizure) returns (r: Result<seq<Book>>)
    requires c.collateral < |before| && c.debt < |before| && c.collateral != c.debt
    ensures r == LiquidatedBooks(before, env, c, t)
  {
    var collateralBook := ProcessCollateral(before[c.collateral], env, c, t.seized);
    if collateralBook.Err? {
      return Err(collateralBook.error);
    }
    var debtBook := before[c.debt].(cash := before[c.debt].cash + c.sent);
    var settled := ProcessSettlement(debtBook, env, c.user, t.repaid, t.refund);
    return WithBoth(before, c, collateralBook, settled);
  }

  /** The markets of a liquidation. The amount sent has arrived before. */
  method ProcessLiquidation(before: seq<Book>, env: Env, c: LiquidationCall, t: Seizure) returns (r: Result<seq<Book>>)
    requires c.collateral < |before| && c.debt < |before|
    ensures r == LiquidatedBooks(before, env, c, t)
  {
    if c.collateral == c.debt {
      var book :- ProcessOneMarket(before[c.debt], env, c, t);
      return Ok(before[c.debt := book]);
    }
    r := ProcessTwoMarkets(before, env, c, t);
  }

  /** The lending contract's storage. */
  class RedBankStore {
    var books: seq<Book>
    var users: map<Addr, UserRecord>
    var closeFactor: nat
    var time: nat

    ghost function Contents(): Ledger
      reads this
    {
      Ledger(books, FlaggedUsers(users), closeFactor, time)
    }

    constructor (closeFactor: nat, time: nat)
      requires closeFactor <= ONE
      ensures Fresh(Contents()) && this.closeFactor == closeFactor && this.time == time
    {
      books, users := [], map[];
      this.closeFactor, this.time := closeFactor, time;
    }

    method ExecuteInitAsset(env: Env, params: AssetParams) returns (r: Check)
      modifies this
      ensures r == Outcome(InitAsset(old(Contents()), env, params))
      ensures r.Pass? ==> Ok(Contents()) == InitAsset(old(Contents()), env, params)
      ensures r.Fail? ==> Contents() == old(Contents())
    {
      var market := CreateMarket(params, env.now);
      if market.Err? {
        return Fail(market.error);
      }
      books := books + [Book(market.value, EmptyToken, map[], map[], 0)];
      return Pass;
    }

    /** Interest is applied before new rate parameters are set, and rates are set after. */
    method ExecuteUpdateAsset(env: Env, a: AssetId, params: AssetParams) returns (r: Check)
      modifies this`books
      ensures r == Outcome(UpdateAsset(old(Contents()), env, a, params))
      ensures r.Pass? ==> Ok(Contents()) == UpdateAsset(old(Contents()), env, a, params)
      ensures r.Fail? ==> Contents() == old(Contents())
    {
      if a >= |books| {
        return Fail(NotFound);
      }
      var updated := ProcessParams(books[a], env, params);
      if updated.Err? {
        return Fail(updated.error);
      }
      books := books[a := updated.value];
      return Pass;
    }

    method ExecuteDeposit(env: Env, user: Addr, a: AssetId, amount: nat) returns (r: Check)
      modifies this
      ensures r == Outcome(Deposit(old(Contents()), env, user, a, amount))
      ensures r.Pass? ==> Ok(Contents()) == Deposit(old(Contents()), env, user, a, amount)
      ensures r.Fail? ==> Contents() == old(Contents())
    {
      if a >= |books| {
        return Fail(NotFound);
      }
      var book := books[a];
      if !book.market.active {
        return Fail(MarketNotActive);
      }
      if !book.market.depositEnabled {
        return Fail(DepositNotEnabled);
      }
      if amount == 0 {
        return Fail(InvalidDepositAmount);
      }
      if a >= WIDTH {
        return Fail(IndexOutOfRange);
      }
      var deposited := ProcessDeposit(book, env, user, amount);
      if deposited.Err? {
        return Fail(deposited.error);
      }
      CollateralSet(users, user, a);
      var record := RecordOf(users, user);
      if !GetBit(record.collateralAssets, a) {
        users := users[user := SetCollateral(record, a)];
      }
      books := books[a := deposited.value];
      return Pass;
    }

    method ExecuteWithdraw(env: Env, who: Addr, a: AssetId, requested: Option<nat>) returns (r: Check)
      modifies this
      ensures r == Outcome(Withdraw(old(Contents()), env, who, a, requested))
      ensures r.Pass? ==> Ok(Contents()) == Withdraw(old(Contents()), env, who, a, requested)
      ensures r.Fail? ==> Contents() == old(Contents())
    {
      var terms := CheckWithdrawal(env, who, a, requested);
      if terms.Err? {
        return Fail(terms.error);
      }
      WithdrawTermsFit(Contents(), env, who, a, requested);
      WithdrawTermsFitWidth(Contents(), env, who, a, requested);
      var balance, amount := terms.value.balance, terms.value.amount;
      var withdrawn := ProcessWithdrawal(books[a], env, who, balance, amount);
      if withdrawn.Err? {
        return Fail(withdrawn.error);
      }
      RecordFlags(users, who);
      CollateralUnset(users, who, a);
      var record := RecordOf(users, who);
      FlagIsBit(record, a);
      if GetBit(record.collateralAssets, a) && amount == balance {
        users := users[who := UnsetCollateral(record, a)];
      }
      books := books[a := withdrawn.value];
      return Pass;
    }

    /** What has to hold for a withdrawal, and what it comes to. */
    method CheckWithdrawal(env: Env, who: Addr, a: AssetId, requested: Option<nat>) returns (r: Result<Withdrawal>)
      ensures r == WithdrawTerms(Contents(), env, who, a, requested)
    {
      if a >= |books| {
        return Err(NotFound);
      }
      var book := books[a];
      if !book.market.active {
        return Err(MarketNotActive);
      }
      var balanceScaled := BalanceOf(book.token, who);
      var balance :- UnderlyingLiquidity(balanceScaled, book.market, env.now);
      if balanceScaled == 0 {
        return Err(UserNoBalance);
      }
      var amount := balance;
      if requested.Some? {
        amount := requested.value;
        if amount == 0 || amount > balance {
          return Err(InvalidWithdrawAmount);
        }
      }
      if who !in users && who != env.collector {
        return Err(ExistingUserPositionRequired);
      }
      if a >= WIDTH {
        return Err(IndexOutOfRange);
      }
      RecordFlags(users, who);
      var record := RecordOf(users, who);
      FlagIsBit(record, a);
      ZeroIsEmpty(record.borrowedAssets);
      if GetBit(record.collateralAssets, a) && record.borrowedAssets != 0 {
        var _ :- CheckHealthAfter(env, who, a, amount, book.market.liquidationThreshold);
      }
      return Ok(Withdrawal(balance, amount));
    }

    /** The health factor of the owner once `amount` has left. */
    method CheckHealthAfter(env: Env, who: Addr, a: AssetId, amount: nat, threshold: nat) returns (r: Result<()>)
      ensures r == WithdrawCheck(Contents(), env, who, a, amount, threshold)
    {
      RecordFlags(users, who);
      var position :- GetUserPosition(books, RecordOf(users, who), who, env);
      var price :- PriceIn(position.assets, a);
      var leaving := MulFloor(MulFloor(amount, price), threshold);
      if position.totals.weightedThreshold < leaving {
        return Err(Overflow);
      }
      if position.totals.collateralizedDebt == 0 {
        return Err(DivideByZero);
      }
      if FromRatio(position.totals.weightedThreshold - leaving, position.totals.collateralizedDebt) < ONE {
        return Err(InvalidHealthFactorAfterWithdraw);
      }
      return Ok(());
    }

    method ExecuteBorrow(env: Env, who: Addr, a: AssetId, amount: nat) returns (r: Check)
      modifies this
      ensures r == Outcome(Borrow(old(Contents()), env, who, a, amount))
      ensures r.Pass? ==> Ok(Contents()) == Borrow(old(Contents()), env, who, a, amount)
      ensures r.Fail? ==> Contents() == old(Contents())
    {
      if amount == 0 {
        return Fail(InvalidBorrowAmount);
      }
      if a >= |books| {
        return Fail(NotFound);
      }
      var book := books[a];
      if !book.market.active {
        return Fail(MarketNotActive);
      }
      if !book.market.borrowEnabled {
        return Fail(BorrowNotEnabled);
      }
      var limit := LimitOf(book, who);
      if who !in users && limit == 0 {
        return Fail(UserNoCollateral);
      }
      if a >= WIDTH {
        return Fail(IndexOutOfRange);
      }
      var admitted: Result<()> := Ok(());
      if limit == 0 {
        admitted := CheckCollateral(env, who, a, amount);
      } else if UnderlyingDebt(DebtOf(book, who).amountScaled, book.market, env.now) + amount > limit {
        admitted := Err(BorrowAmountExceedsUncollateralizedLoanLimit);
      }
      if admitted.Err? {
        return Fail(admitted.error);
      }
      var borrowed := ProcessLoan(book, env, who, amount);
      if borrowed.Err? {
        return Fail(borrowed.error);
      }
      BorrowedSet(users, who, a);
      var record := RecordOf(users, who);
      if !GetBit(record.borrowedAssets, a) {
        users := users[who := SetBorrowed(record, a)];
      }
      books := books[a := borrowed.value];
      return Pass;
    }

    method CheckCollateral(env: Env, who: Addr, a: AssetId, amount: nat) returns (r: Result<()>)
      requires a < WIDTH
      ensures r == BorrowCheck(Contents(), env, who, a, amount)
    {
      RecordFlags(users, who);
      var record := RecordOf(users, who);
      FlagIsBit(record, a);
      var position :- GetUserPosition(books, record, who, env);
      var price := 0;
      if GetBit(record.borrowedAssets, a) {
        price :- PriceIn(position.assets, a);
      } else {
        if a !in env.prices {
          return Err(OracleFailure);
        }
        price := env.prices[a];
      }
      var totalAfter := position.totals.debt + MulFloor(amount, price);
      if totalAfter > position.totals.maxDebt {
        return Err(BorrowAmountExceedsGivenCollateral);
      }
      return Ok(());
    }

    method ExecuteRepay(env: Env, sender: Addr, onBehalfOf: Option<Addr>, a: AssetId, amount: nat) returns (r: Check)
      modifies this
      ensures r == Outcome(Repay(old(Contents()), env, sender, onBehalfOf, a, amount))
      ensures r.Pass? ==> Ok(Contents()) == Repay(old(Contents()), env, sender, onBehalfOf, a, amount)
      ensures r.Fail? ==> Contents() == old(Contents())
    {
      if a >= |books| {
        return Fail(NotFound);
      }
      var book := books[a];
      var who := sender;
      if onBehalfOf.Some? {
        if LimitOf(book, onBehalfOf.value) != 0 {
          return Fail(CannotRepayUncollateralizedLoanOnBehalfOf);
        }
        who := onBehalfOf.value;
      }
      if !book.market.active {
        return Fail(MarketNotActive);
      }
      if amount == 0 {
        return Fail(InvalidRepayAmount);
      }
      if who !in book.debts {
        return Fail(NotFound);
      }
      if book.debts[who].amountScaled == 0 {
        return Fail(CannotRepayZeroDebt);
      }
      var repaid := ProcessRepayment(book, env, who, amount);
      if repaid.Err? {
        return Fail(repaid.error);
      }
      if DebtOf(repaid.value, who).amountScaled == 0 {
        if who !in users {
          return Fail(NotFound);
        }
        if a >= WIDTH {
          return Fail(IndexOutOfRange);
        }
        BorrowedUnset(users, who, a);
        users := users[who := UnsetBorrowed(users[who], a)];
      }
      books := books[a := repaid.value];
      return Pass;
    }

    method ExecuteLiquidate(env: Env, c: LiquidationCall) returns (r: Check)
      modifies this
      ensures r == Outcome(Liquidate(old(Contents()), env, c))
      ensures r.Pass? ==> Ok(Contents()) == Liquidate(old(Contents()), env, c)
      ensures r.Fail? ==> Contents() == old(Contents())
    {
      var terms := CheckLiquidation(env, c);
      if terms.Err? {
        return Fail(terms.error);
      }
      TermsFit(Contents(), env, c);
      var t := terms.value;
      var balance := UnderlyingLiquidity(BalanceOf(books[c.collateral].token, c.user), books[c.collateral].market, env.now);
      if balance.Err? {
        return Fail(balance.error);
      }
      var settled := ProcessLiquidation(books, env, c, t);
      if settled.Err? {
        return Fail(settled.error);
      }
      ghost var before := users;
      CollateralSet(users, c.liquidator, c.collateral);
      var liquidator := RecordOf(users, c.liquidator);
      if c.receiveMaToken && !GetBit(liquidator.collateralAssets, c.collateral) {
        users := users[c.liquidator := SetCollateral(liquidator, c.collateral)];
      }
      assert FlaggedUsers(users) == if c.receiveMaToken then WithCollateral(FlaggedUsers(before), c.liquidator, c.collateral)
                                    else FlaggedUsers(before);
      CollateralUnset(users, c.user, c.collateral);
      if t.seized == balance.value {
        users := users[c.user := UnsetCollateral(RecordOf(users, c.user), c.collateral)];
      }
      books := settled.value;
      return Pass;
    }

    /** What has to hold for a liquidation, and the amounts it comes to. */
    method CheckLiquidation(env: Env, c: LiquidationCall) returns (r: Result<Seizure>)
      ensures r == LiquidationTerms(Contents(), env, c)
    {
      if c.debt >= |books| {
        return Err(NotFound);
      }
      var debtBook := books[c.debt];
      if LimitOf(debtBook, c.user) != 0 {
        return Err(CannotLiquidateWhenPositiveUncollateralizedLoanLimit);
      }
      if c.sent == 0 {
        return Err(InvalidLiquidateAmount);
      }
      if c.collateral >= |books| {
        return Err(NotFound);
      }
      var collateralBook := books[c.collateral];
      if !collateralBook.market.active {
        return Err(MarketNotActive);
      }
      if c.user !in users {
        return Err(NotFound);
      }
      if c.collateral >= WIDTH {
        return Err(IndexOutOfRange);
      }
      var record := users[c.user];
      FlagIsBit(record, c.collateral);
      if !GetBit(record.collateralAssets, c.collateral) {
        return Err(CannotLiquidateWhenCollateralUnset);
      }
      r := CheckUnderwater(env, c, record);
    }

    /** The rest of the checks, from the user's balances and position. */
    method CheckUnderwater(env: Env, c: LiquidationCall, record: UserRecord) returns (r: Result<Seizure>)
      requires c.debt < |books| && c.collateral < |books|
      ensures r == UnderwaterTerms(Contents(), env, c, Flagged(record))
    {
      var collateralBook, debtBook := books[c.collateral], books[c.debt];
      var balance :- UnderlyingLiquidity(BalanceOf(collateralBook.token, c.user), collateralBook.market, env.now);
      if balance == 0 {
        return Err(CannotLiquidateWhenNoCollateralBalance);
      }
      if c.user !in debtBook.debts {
        return Err(NotFound);
      }
      if debtBook.debts[c.user].amountScaled == 0 {
        return Err(CannotLiquidateWhenNoDebtBalance);
      }
      var position :- GetUserPosition(books, record, c.user, env);
      if position.health.NotBorrowing? {
        return Err(CannotLiquidateWhenNoDebtBalance);
      }
      if position.health.healthFactor >= ONE {
        return Err(CannotLiquidateHealthyPosition);
      }
      if !debtBook.market.active {
        return Err(MarketNotActive);
      }
      var collateralPrice :- PriceIn(position.assets, c.collateral);
      var debtPrice :- PriceIn(position.assets, c.debt);
      var debt := UnderlyingDebt(debtBook.debts[c.user].amountScaled, debtBook.market, env.now);
      r := LiquidationComputeAmounts(collateralPrice, debtPrice, closeFactor, balance,
                                     collateralBook.market.liquidationBonus, debt, c.sent);
    }

    method ExecuteUpdateAssetCollateralStatus(env: Env, who: Addr, a: AssetId, enable: bool) returns (r: Check)
      modifies this
      ensures r == Outcome(SetCollateralStatus(old(Contents()), env, who, a, enable))
      ensures r.Pass? ==> Ok(Contents()) == SetCollateralStatus(old(Contents()), env, who, a, enable)
      ensures r.Fail? ==> Contents() == old(Contents())
    {
      if a >= |books| {
        return Fail(NotFound);
      }
      if a >= WIDTH {
        return Fail(IndexOutOfRange);
      }
      RecordFlags(users, who);
      CollateralSet(users, who, a);
      CollateralUnset(users, who, a);
      var record := RecordOf(users, who);
      FlagIsBit(record, a);
      var hasBit := GetBit(record.collateralAssets, a);
      if !hasBit && enable {
        if BalanceOf(books[a].token, who) == 0 {
          return Fail(UserNoCollateralBalance);
        }
        users := users[who := SetCollateral(record, a)];
      } else if hasBit && !enable {
        UnsetDeletes(record.collateralAssets, a);
        record := UnsetCollateral(record, a);
        var position := GetUserPosition(books, record, who, env);
        if position.Err? {
          return Fail(position.error);
        }
        if Unhealthy(position.value.health) {
          return Fail(InvalidHealthFactorAfterDisablingCollateral);
        }
        users := users[who := record];
      }
      return Pass;
    }

    /** Answers a transfer that the token contract has just made, told the balances from before it. */
    method ExecuteFinalizeTransfer(env: Env, a: AssetId, from: Addr, to: Addr, fromBefore: nat, toBefore: nat, amount: nat)
      returns (r: Check)
      modifies this`users
      ensures r == Outcome(L.FinalizeTransfer(old(Contents()), env, a, from, to, fromBefore, toBefore, amount))
      ensures r.Pass? ==> Ok(Contents()) == L.FinalizeTransfer(old(Contents()), env, a, from, to, fromBefore, toBefore, amount)
      ensures r.Fail? ==> Contents() == old(Contents())
    {
      if from !in users {
        return Fail(NotFound);
      }
      var position := GetUserPosition(books, users[from], from, env);
      if position.Err? {
        return Fail(position.error);
      }
      if Unhealthy(position.value.health) {
        return Fail(CannotTransferTokenWhenInvalidHealthFactor);
      }
      if from == to {
        return Pass;
      }
      if fromBefore < amount {
        return Fail(Overflow);
      }
      if (fromBefore == amount || (toBefore == 0 && amount > 0)) && a >= WIDTH {
        return Fail(IndexOutOfRange);
      }
      if fromBefore - amount == 0 {
        CollateralUnset(users, from, a);
        users := users[from := UnsetCollateral(users[from], a)];
      }
      if toBefore == 0 && amount > 0 {
        CollateralSet(users, to, a);
        var record := RecordOf(users, to);
        if !GetBit(record.collateralAssets, a) {
          users := users[to := SetCollateral(record, a)];
        }
      }
      return Pass;
    }

    method ExecuteUpdateUncollateralizedLoanLimit(user: Addr, a: AssetId, limit: nat) returns (r: Check)
      modifies this`books
      ensures r == Outcome(UpdateLoanLimit(old(Contents()), user, a, limit))
      ensures r.Pass? ==> Ok(Contents()) == UpdateLoanLimit(old(Contents()), user, a, limit)
      ensures r.Fail? ==> Contents() == old(Contents())
    {
      if a >= |books| {
        return Fail(NotFound);
      }
      var book := books[a];
      if user in users && LimitOf(book, user) == 0 {
        if a >= WIDTH {
          return Fail(IndexOutOfRange);
        }
        FlagIsBit(users[user], a);
        if GetBit(users[user].borrowedAssets, a) {
          return Fail(UserHasCollateralizedDebt);
        }
      }
      book := book.(limits := book.limits[user := limit]);
      var debt := DebtOf(book, user);
      debt := debt.(uncollateralized := limit != 0);
      book := book.(debts := book.debts[user := debt]);
      books := books[a := book];
      return Pass;
    }
  }

  lemma TermsFit(s: Ledger, env: Env, c: LiquidationCall)
    requires LiquidationTerms(s, env, c).Ok?
    ensures c.debt < |s.books| && c.collateral < |s.books| && c.collateral < WIDTH && c.user in s.users
  {
  }

  lemma WithdrawTermsFitWidth(s: Ledger, env: Env, who: Addr, a: AssetId, requested: Option<nat>)
    requires WithdrawTerms(s, env, who, a, requested).Ok?
    ensures a < WIDTH
  {
  }
}
