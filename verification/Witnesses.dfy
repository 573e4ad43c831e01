/** Concrete runs in which the lending contract does not do what its documentation says. */
module Witnesses {
  import opened Base
  import opened FixedPoint
  import opened RateModels
  import opened InterestRates
  import opened MaToken
  import opened Position
  import opened Ledger
  import opened Invariants
  import opened Reachability
  import opened Refusals
  import Runs
  import Bitmap

  // ---------- markets in which borrowing is free, in one block ----------

  /** Half of collateral can be borrowed against, and three quarters of it protect from liquidation. */
  const Rules := LinearParams(ONE / 2, 0, 0, 0)

  function FreeTerms(reserveFactor: nat): AssetParams {
    AssetParams(Some(0), Some(ONE / 2), Some(reserveFactor), Some(3 * ONE / 4), Some(0), Some(LinearModelParams(Rules)),
                Some(true), Some(true), Some(true))
  }

  function FreeMarket(reserveFactor: nat, debtScaled: nat): Market {
    Market(ONE / 2, 3 * ONE / 4, 0, reserveFactor, Linear(Rules), ONE, ONE, 0, 0, 0, debtScaled, true, true, true)
  }

  const Start := Ledger([], map[], ONE, 0)

  function Quotes(price: nat): Env {
    Env(0, map[0 := ONE, 1 := price], "collector")
  }

  lemma RulesAreValid()
    ensures LinearModelParams(Rules).Valid() && FreeMarket(0, 0).Valid()
    ensures Rules.optimalUtilizationRate < ONE
  {
  }

  lemma RatesStayZero(debtScaled: nat, cash: nat, taken: nat)
    requires taken <= cash
    ensures Repriced(FreeMarket(0, debtScaled), cash, taken, 0) == Ok(FreeMarket(0, debtScaled))
  {
    var m := FreeMarket(0, debtScaled);
    var utilization := Utilization(cash - taken, UnderlyingDebt(debtScaled, m, 0));
    RulesAreValid();
    assert LinearBorrowRate(Rules, utilization) == Ok(0);
    assert LiquidityRate(0, utilization, 0) == Ok(0);
  }

  lemma ScalingAtOne(amount: nat)
    ensures ScaledDown(amount, ONE) == ScaledUp(amount, ONE) == amount * SCALING_FACTOR
    ensures UnderlyingDown(amount * SCALING_FACTOR, ONE) == UnderlyingUp(amount * SCALING_FACTOR, ONE) == amount
  {
    FloorAtMostSelf(amount * SCALING_FACTOR);
  }

  function Emptied(reserveFactor: nat): Book {
    Book(FreeMarket(reserveFactor, 0), EmptyToken, map[], map[], 0)
  }

  lemma Opens(s: Ledger, env: Env, reserveFactor: nat)
    requires env.now == 0
    ensures InitAsset(s, env, FreeTerms(reserveFactor)) == Ok(s.(books := s.books + [Emptied(reserveFactor)]))
  {
    RulesAreValid();
  }

  lemma NothingAccrues(b: Book, env: Env)
    requires b.market.indexesLastUpdated == env.now
    ensures AccrueBook(b, env) == Ok(b)
  {
    AccrualIsIdempotent(b.market, env.now);
  }

  lemma Pays(b: Book, debtScaled: nat, taken: nat)
    requires b.market == FreeMarket(0, debtScaled) && taken <= b.cash
    ensures RepriceAndPay(b, taken, 0) == Ok(b.(cash := b.cash - taken))
  {
    RatesStayZero(debtScaled, b.cash, taken);
  }

  function Deposited(b: Book, user: Addr, amount: nat): Book {
    var minted := amount * SCALING_FACTOR;
    b.(cash := b.cash + amount,
    token := Token(b.token.balances[user := BalanceOf(b.token, user) + minted], b.token.supply + minted))
  }

  lemma Deposits(s: Ledger, env: Env, user: Addr, a: AssetId, amount: nat, debtScaled: nat)
    requires env.now == 0 && a < |s.books| && a < Bitmap.WIDTH && amount > 0
    requires s.books[a].market == FreeMarket(0, debtScaled)
    ensures Deposit(s, env, user, a, amount)
         == Ok(s.(books := s.books[a := Deposited(s.books[a], user, amount)], users := WithCollateral(s.users, user, a)))
  {
    var paid := s.books[a].(cash := s.books[a].cash + amount);
    NothingAccrues(paid, env);
    Pays(paid, debtScaled, 0);
    ScalingAtOne(amount);
    AccrualIsIdempotent(paid.market, 0);
  }

  function Lent(b: Book, who: Addr, amount: nat): Book
    requires amount <= b.cash
  {
    var raised := RaiseDebt(b, who, amount, 0);
    raised.(cash := b.cash - amount)
  }

  lemma Lends(b: Book, env: Env, who: Addr, amount: nat, debtScaled: nat)
    requires env.now == 0 && amount <= b.cash
    requires b.market == FreeMarket(0, debtScaled)
    ensures BorrowedBook(b, env, who, amount) == Ok(Lent(b, who, amount))
    ensures Lent(b, who, amount).market == FreeMarket(0, debtScaled + amount * SCALING_FACTOR)
  {
    NothingAccrues(b, env);
    ScalingAtOne(amount);
    AccrualIsIdempotent(b.market, 0);
    Pays(RaiseDebt(b, who, amount, 0), debtScaled + amount * SCALING_FACTOR, amount);
  }

  lemma LastStep(s: Ledger, txs: seq<Tx>, tx: Tx, after: Ledger)
    requires Run(s, txs).time == tx.env.now
    requires Handle(Run(s, txs), tx.env, tx.msg) == Ok(after)
    ensures Run(s, txs + [tx]) == after
  {
    assert (txs + [tx])[..|txs|] == txs;
    var before := Run(s, txs);
    assert before.(time := before.time) == before;
    assert tx.env.(now := before.time) == tx.env;
  }

  // ---------- a withdrawal that divides by zero ----------

  const OneBook := Ledger([Emptied(0)], map[], ONE, 0)

  function Opening(env: Env): Tx {
    Tx(env, MsgInitAsset(FreeTerms(0)))
  }

  lemma FirstMarket(env: Env)
    requires env.now == 0
    ensures Run(Start, [Opening(env)]) == OneBook
  {
    Opens(Start, env, 0);
    assert Start.books + [Emptied(0)] == [Emptied(0)];
    LastStep(Start, [], Opening(env), OneBook);
  }

  /** Someone with a deposit and, within a limit, an uncollateralized loan. */
  datatype Loan = Loan(who: Addr, deposit: nat, limit: nat, loan: nat)
  {
    predicate Valid() {
      0 < loan <= limit && loan <= deposit
    }

    function SavedBook(): Book {
      Deposited(Emptied(0), who, deposit)
    }

    function Saved(): Ledger {
      Ledger([SavedBook()], map[who := User({0}, {})], ONE, 0)
    }

    function LimitedBook(): Book {
      SavedBook().(limits := map[who := limit], debts := map[who := Debt(0, true)])
    }

    function Limited(): Ledger {
      Saved().(books := [LimitedBook()])
    }

    function OwedBook(): Book
      requires Valid()
    {
      Lent(LimitedBook(), who, loan)
    }

    function Owed(): Ledger
      requires Valid()
    {
      Ledger([OwedBook()], map[who := User({0}, {0})], ONE, 0)
    }

    function Txs(env: Env): seq<Tx> {
      [Opening(env)] + [Tx(env, MsgDeposit(who, 0, deposit))]
      + [Tx(env, MsgUpdateLoanLimit(who, 0, limit))] + [Tx(env, MsgBorrow(who, 0, loan))]
    }
  }

  lemma FirstBits(who: Addr)
    ensures WithCollateral(map[], who, 0) == map[who := User({0}, {})]
    ensures WithBorrowed(map[who := User({0}, {})], who, 0) == map[who := User({0}, {0})]
  {
    var bits: set<AssetId> := {};
    assert bits + {0} == {0};
  }

  lemma Saves(x: Loan, env: Env)
    requires x.Valid() && env.now == 0
    ensures Deposit(OneBook, env, x.who, 0, x.deposit) == Ok(x.Saved())
  {
    Deposits(OneBook, env, x.who, 0, x.deposit, 0);
    assert OneBook.books[0 := x.SavedBook()] == [x.SavedBook()];
    FirstBits(x.who);
  }

  lemma GetsLimit(x: Loan)
    requires x.Valid()
    ensures UpdateLoanLimit(x.Saved(), x.who, 0, x.limit) == Ok(x.Limited())
  {
    var b := x.SavedBook();
    assert x.Saved().books[0] == b;
    assert b.limits[x.who := x.limit] == map[x.who := x.limit];
    assert b.debts[x.who := DebtOf(b, x.who).(uncollateralized := true)] == map[x.who := Debt(0, true)];
    assert x.Saved().books[0 := x.LimitedBook()] == [x.LimitedBook()];
  }

  lemma Owes(x: Loan, env: Env)
    requires x.Valid() && env.now == 0
    ensures Borrow(x.Limited(), env, x.who, 0, x.loan) == Ok(x.Owed())
  {
    var s, b := x.Limited(), x.LimitedBook();
    assert s.books[0] == b;
    Lends(b, env, x.who, x.loan, 0);
    ScalingAtOne(0);
    AccrualIsIdempotent(b.market, 0);
    assert LimitCheck(b, env, x.who, x.loan) == Ok(());
    assert s.books[0 := x.OwedBook()] == [x.OwedBook()];
    FirstBits(x.who);
  }

  lemma LoanIsOwed(x: Loan, env: Env)
    requires x.Valid() && env.now == 0
    ensures Run(Start, x.Txs(env)) == x.Owed()
  {
    var txs := [Opening(env)];
    FirstMarket(env);
    Saves(x, env);
    LastStep(Start, txs, Tx(env, MsgDeposit(x.who, 0, x.deposit)), x.Saved());
    txs := txs + [Tx(env, MsgDeposit(x.who, 0, x.deposit))];
    GetsLimit(x);
    LastStep(Start, txs, Tx(env, MsgUpdateLoanLimit(x.who, 0, x.limit)), x.Limited());
    txs := txs + [Tx(env, MsgUpdateLoanLimit(x.who, 0, x.limit))];
    Owes(x, env);
    LastStep(Start, txs, Tx(env, MsgBorrow(x.who, 0, x.loan)), x.Owed());
  }

  /** Such a user flags one market, whose debt needs no collateral. */
  lemma OwedPosition(x: Loan, env: Env) returns (p: UserPosition)
    requires x.Valid() && env.now == 0 && 0 in env.prices
    ensures PositionOf(x.Owed().books, User({0}, {0}), x.who, env) == Ok(p)
    ensures PriceIn(p.assets, 0) == Ok(env.prices[0])
    ensures p.totals.collateralizedDebt == 0
    ensures p.totals.weightedThreshold == MulFloor(MulFloor(x.deposit, env.prices[0]), 3 * ONE / 4)
  {
    var b := x.OwedBook();
    var u := User({0}, {0});
    ScalingAtOne(x.deposit);
    AccrualIsIdempotent(b.market, 0);
    assert UnderlyingLiquidity(BalanceOf(b.token, x.who), b.market, 0) == Ok(x.deposit);
    var a := AssetPositionIn(b, 0, u, x.who, env).value;
    assert AssetPositions(x.Owed().books, u, x.who, env, 1) == WithNext(Ok([]), b, 0, u, x.who, env);
    p := PositionOf(x.Owed().books, u, x.who, env).value;
    assert p.assets == [a];
    TotalsAppend([], a);
  }

  lemma WithdrawalRefused(x: Loan, env: Env, amount: nat)
    requires x.Valid() && env.now == 0 && 0 in env.prices && 0 < amount <= x.deposit
    ensures Withdraw(x.Owed(), env, x.who, 0, Some(amount)) == Err(DivideByZero)
  {
    var p := OwedPosition(x, env);
    var price := env.prices[0];
    MulFloorMonotone(amount, x.deposit, price);
    MulFloorMonotone(MulFloor(amount, price), MulFloor(x.deposit, price), 3 * ONE / 4);
    var b := x.OwedBook();
    ScalingAtOne(x.deposit);
    AccrualIsIdempotent(b.market, 0);
    assert UnderlyingLiquidity(BalanceOf(b.token, x.who), b.market, 0) == Ok(x.deposit);
    assert WithdrawCheck(x.Owed(), env, x.who, 0, amount, 3 * ONE / 4) == Err(DivideByZero);
    assert WithdrawTerms(x.Owed(), env, x.who, 0, Some(amount)) == Err(DivideByZero);
  }

  /** After these four messages no withdrawal is possible, although no debt needs the collateral. */
  lemma WithdrawalDividesByZero(x: Loan, env: Env, amount: nat)
    requires x.Valid() && env.now == 0 && 0 in env.prices && 0 < amount <= x.deposit
    ensures Fresh(Start)
    ensures Withdraw(Run(Start, x.Txs(env)), env, x.who, 0, Some(amount)) == Err(DivideByZero)
  {
    LoanIsOwed(x, env);
    WithdrawalRefused(x, env, amount);
  }

  // ---------- a liquidation that leaves its bit ----------

  const TwoBooks := Ledger([Emptied(0), Emptied(0)], map[], ONE, 0)

  /** Someone borrows what another deposited, and then the price of the loan rises to `price`. */
  datatype Squeeze = Squeeze(owner: Addr, lender: Addr, deposit: nat, pool: nat, loan: nat, price: nat)
  {
    predicate Valid() {
      && owner != lender
      && 0 < deposit && 0 < loan <= pool
      && loan <= MulFloor(deposit, ONE / 2)
      && MulFloor(deposit, 3 * ONE / 4) < MulFloor(loan, price) <= deposit
    }

    function Collateral(): Book {
      Deposited(Emptied(0), owner, deposit)
    }

    function Pool(): Book {
      Deposited(Emptied(0), lender, pool)
    }

    function Owed(): Book
      requires Valid()
    {
      Lent(Pool(), owner, loan)
    }

    function Secured(): Ledger {
      Ledger([Collateral(), Emptied(0)], map[owner := User({0}, {})], ONE, 0)
    }

    function Funded(): Ledger {
      Ledger([Collateral(), Pool()], map[owner := User({0}, {}), lender := User({1}, {})], ONE, 0)
    }

    function Borrowed(): Ledger
      requires Valid()
    {
      Ledger([Collateral(), Owed()], map[owner := User({0}, {1}), lender := User({1}, {})], ONE, 0)
    }

    function Txs(): seq<Tx> {
      [Opening(Quotes(ONE))] + [Opening(Quotes(ONE))]
      + [Tx(Quotes(ONE), MsgDeposit(owner, 0, deposit))] + [Tx(Quotes(ONE), MsgDeposit(lender, 1, pool))]
      + [Tx(Quotes(ONE), MsgBorrow(owner, 1, loan))]
    }

    function Call(liquidator: Addr): LiquidationCall {
      LiquidationCall(liquidator, 0, 1, owner, loan, false)
    }
  }

  lemma SecondMarket(env: Env)
    requires env.now == 0
    ensures InitAsset(OneBook, env, FreeTerms(0)) == Ok(TwoBooks)
  {
    Opens(OneBook, env, 0);
    assert OneBook.books + [Emptied(0)] == TwoBooks.books;
  }

  lemma Secures(x: Squeeze, env: Env)
    requires x.Valid() && env.now == 0
    ensures Deposit(TwoBooks, env, x.owner, 0, x.deposit) == Ok(x.Secured())
  {
    Deposits(TwoBooks, env, x.owner, 0, x.deposit, 0);
    assert TwoBooks.books[0 := x.Collateral()] == x.Secured().books;
    FirstBits(x.owner);
  }

  lemma SecondBits(owner: Addr, lender: Addr)
    requires owner != lender
    ensures var users := map[owner := User({0}, {}), lender := User({1}, {})];
            && WithCollateral(map[owner := User({0}, {})], lender, 1) == users
            && WithBorrowed(users, owner, 1) == map[owner := User({0}, {1}), lender := User({1}, {})]
  {
    var bits: set<AssetId> := {};
    assert bits + {1} == {1};
  }

  lemma Funds(x: Squeeze, env: Env)
    requires x.Valid() && env.now == 0
    ensures Deposit(x.Secured(), env, x.lender, 1, x.pool) == Ok(x.Funded())
  {
    Deposits(x.Secured(), env, x.lender, 1, x.pool, 0);
    assert x.Secured().books[1 := x.Pool()] == x.Funded().books;
    SecondBits(x.owner, x.lender);
  }

  lemma CollateralPosition(x: Squeeze, u: User, env: Env)
    requires x.Valid() && env.now == 0 && 0 in env.prices && env.prices[0] == ONE
    requires u.collateral == {0} && 0 !in u.borrowed
    ensures var a := AssetPosition(0, x.deposit, 0, false, ONE / 2, 3 * ONE / 4, ONE);
            && AssetPositionIn(x.Collateral(), 0, u, x.owner, env) == Ok(a)
            && Value(a) == Valuation(x.deposit, 0, 0, MulFloor(x.deposit, ONE / 2), MulFloor(x.deposit, 3 * ONE / 4))
  {
    ScalingAtOne(x.deposit);
    AccrualIsIdempotent(x.Collateral().market, 0);
    FloorAtMostSelf(x.deposit);
  }

  lemma DebtPosition(x: Squeeze, u: User, env: Env)
    requires x.Valid() && env.now == 0 && 1 in env.prices
    requires u.borrowed == {1} && 1 !in u.collateral
    ensures var a := AssetPosition(1, 0, x.loan, false, 0, 0, env.prices[1]);
            var debt := MulFloor(x.loan, env.prices[1]);
            && AssetPositionIn(x.Owed(), 1, u, x.owner, env) == Ok(a)
            && Value(a) == Valuation(0, debt, debt, 0, 0)
  {
    ScalingAtOne(x.loan);
    AccrualIsIdempotent(x.Owed().market, 0);
  }

  lemma OneMorePosition(books: seq<Book>, u: User, who: Addr, env: Env, n: nat)
    requires n < |books|
    ensures AssetPositions(books, u, who, env, 0) == Ok([])
    ensures AssetPositions(books, u, who, env, n + 1) == WithNext(AssetPositions(books, u, who, env, n), books[n], n, u, who, env)
  {
  }

  lemma OnePosition(books: seq<Book>, u: User, who: Addr, env: Env, a: AssetPosition)
    requires |books| == 2 && Flags(u, 0) && !Flags(u, 1)
    requires AssetPositionIn(books[0], 0, u, who, env) == Ok(a)
    ensures AssetPositions(books, u, who, env, 2) == Ok([a])
    ensures Position.Totals([a]) == NoValue.Plus(Value(a))
  {
    OneMorePosition(books, u, who, env, 0);
    OneMorePosition(books, u, who, env, 1);
    assert [] + [a] == [a];
    TotalsAppend([], a);
  }

  lemma BothPositions(books: seq<Book>, u: User, who: Addr, env: Env, a: AssetPosition, d: AssetPosition)
    requires |books| == 2 && Flags(u, 0) && Flags(u, 1)
    requires AssetPositionIn(books[0], 0, u, who, env) == Ok(a)
    requires AssetPositionIn(books[1], 1, u, who, env) == Ok(d)
    ensures AssetPositions(books, u, who, env, 2) == Ok([a, d])
    ensures Position.Totals([a, d]) == NoValue.Plus(Value(a)).Plus(Value(d))
  {
    OneMorePosition(books, u, who, env, 0);
    OneMorePosition(books, u, who, env, 1);
    assert [] + [a] == [a] && [a] + [d] == [a, d];
    TotalsAppend([], a);
    TotalsAppend([a], d);
  }

  lemma PositionBefore(x: Squeeze, env: Env) returns (p: UserPosition)
    requires x.Valid() && env.now == 0 && 0 in env.prices && env.prices[0] == ONE
    ensures PositionOf(x.Funded().books, User({0}, {}), x.owner, env) == Ok(p)
    ensures p.totals.debt == 0 && p.totals.maxDebt == MulFloor(x.deposit, ONE / 2)
  {
    var books, u := x.Funded().books, User({0}, {});
    CollateralPosition(x, u, env);
    var a := AssetPositionIn(books[0], 0, u, x.owner, env).value;
    OnePosition(books, u, x.owner, env, a);
    p := PositionOf(books, u, x.owner, env).value;
  }

  lemma PositionAfter(x: Squeeze, env: Env) returns (p: UserPosition)
    requires x.Valid() && env.now == 0 && 0 in env.prices && env.prices[0] == ONE && 1 in env.prices
    ensures PositionOf(x.Borrowed().books, User({0}, {1}), x.owner, env) == Ok(p)
    ensures p.totals.weightedThreshold == MulFloor(x.deposit, 3 * ONE / 4)
    ensures p.totals.collateralizedDebt == MulFloor(x.loan, env.prices[1])
  {
    var books, u := x.Borrowed().books, User({0}, {1});
    CollateralPosition(x, u, env);
    DebtPosition(x, u, env);
    var a := AssetPositionIn(books[0], 0, u, x.owner, env).value;
    var d := AssetPositionIn(books[1], 1, u, x.owner, env).value;
    BothPositions(books, u, x.owner, env, a, d);
    p := PositionOf(books, u, x.owner, env).value;
  }

  lemma Borrows(x: Squeeze)
    requires x.Valid()
    ensures Borrow(x.Funded(), Quotes(ONE), x.owner, 1, x.loan) == Ok(x.Borrowed())
  {
    var s, env := x.Funded(), Quotes(ONE);
    var p := PositionBefore(x, env);
    FloorAtMostSelf(x.loan);
    assert BorrowCheck(s, env, x.owner, 1, x.loan) == Ok(());
    Lends(x.Pool(), env, x.owner, x.loan, 0);
    assert s.books[1 := x.Owed()] == x.Borrowed().books;
    SecondBits(x.owner, x.lender);
  }

  lemma BorrowHandled(x: Squeeze)
    requires x.Valid()
    ensures Handle(x.Funded(), Quotes(ONE), MsgBorrow(x.owner, 1, x.loan)) == Ok(x.Borrowed())
  {
    Borrows(x);
  }

  lemma MarketsOpen(env: Env)
    requires env.now == 0
    ensures Run(Start, [Opening(env)] + [Opening(env)]) == TwoBooks
  {
    FirstMarket(env);
    SecondMarket(env);
    LastStep(Start, [Opening(env)], Opening(env), TwoBooks);
  }

  lemma PoolIsFunded(x: Squeeze, env: Env, txs: seq<Tx>)
    requires x.Valid() && env.now == 0
    requires Run(Start, txs) == TwoBooks
    ensures Run(Start, txs + [Tx(env, MsgDeposit(x.owner, 0, x.deposit))] + [Tx(env, MsgDeposit(x.lender, 1, x.pool))])
         == x.Funded()
  {
    Secures(x, env);
    LastStep(Start, txs, Tx(env, MsgDeposit(x.owner, 0, x.deposit)), x.Secured());
    Funds(x, env);
    LastStep(Start, txs + [Tx(env, MsgDeposit(x.owner, 0, x.deposit))], Tx(env, MsgDeposit(x.lender, 1, x.pool)), x.Funded());
  }

  lemma LoanIsSqueezed(x: Squeeze)
    requires x.Valid()
    ensures Run(Start, x.Txs()) == x.Borrowed()
  {
    var env := Quotes(ONE);
    var created := [Opening(env)] + [Opening(env)];
    MarketsOpen(env);
    PoolIsFunded(x, env, created);
    var txs := created + [Tx(env, MsgDeposit(x.owner, 0, x.deposit))] + [Tx(env, MsgDeposit(x.lender, 1, x.pool))];
    BorrowHandled(x);
    LastStep(Start, txs, Tx(env, MsgBorrow(x.owner, 1, x.loan)), x.Borrowed());
  }

  lemma SqueezeTerms(x: Squeeze, liquidator: Addr)
    requires x.Valid() && Sound(x.Borrowed())
    ensures LiquidationTerms(x.Borrowed(), Quotes(x.price), x.Call(liquidator))
         == Ok(Seizure(x.loan, MulFloor(x.loan, x.price), 0))
  {
    var s, env, c := x.Borrowed(), Quotes(x.price), x.Call(liquidator);
    var u := User({0}, {1});
    var p := PositionAfter(x, env);
    ScalingAtOne(x.deposit);
    ScalingAtOne(x.loan);
    AccrualIsIdempotent(x.Collateral().market, 0);
    AccrualIsIdempotent(x.Owed().market, 0);
    LiquidationTermsExact(s, env, c);
    var inputs := UnderwaterInputs(s, env, c, u);
    FloorAtMostSelf(x.loan);
    FloorAtMostSelf(MulFloor(x.loan, x.price));
  }

  /** There are such loans, and such squeezes. */
  lemma WitnessesExist()
    ensures Loan("ann", 1000, 100, 50).Valid()
    ensures Squeeze("ann", "ben", 1000, 5000, 400, 2 * ONE).Valid()
  {
  }

  /** A liquidator who sends what is owed clears the debt. The bit stays, and with it the refusal of any
      loan limit. */
  lemma LiquidationLeavesBit(x: Squeeze, liquidator: Addr, limit: nat)
    requires x.Valid()
    ensures Fresh(Start)
    ensures var r := Liquidate(Run(Start, x.Txs()), Quotes(x.price), x.Call(liquidator));
            && r.Ok? && |r.value.books| == 2
            && DebtOf(r.value.books[1], x.owner).amountScaled == 0
            && 1 in UserOf(r.value.users, x.owner).borrowed
            && UpdateLoanLimit(r.value, x.owner, 1, limit) == Err(UserHasCollateralizedDebt)
  {
    Runs.EveryRunIsSound(Start, x.Txs());
    LoanIsSqueezed(x);
    SqueezeSucceeds(x, liquidator);
    StaleBitBlocksLimit(x.Borrowed(), Quotes(x.price), x.Call(liquidator), limit);
  }

  lemma SqueezeSucceeds(x: Squeeze, liquidator: Addr)
    requires x.Valid() && Sound(x.Borrowed())
    ensures var r := Liquidate(x.Borrowed(), Quotes(x.price), x.Call(liquidator));
            && r.Ok? && |r.value.books| == 2
            && DebtOf(r.value.books[1], x.owner).amountScaled == 0
            && 1 in UserOf(r.value.users, x.owner).borrowed
  {
    var s, env, c := x.Borrowed(), Quotes(x.price), x.Call(liquidator);
    SqueezeTerms(x, liquidator);
    ScalingAtOne(MulFloor(x.loan, x.price));
    AccrualIsIdempotent(x.Collateral().market, 0);
    AccrualIsIdempotent(x.Owed().market, 0);
    LiquidationRefusals(s, env, c);
    var inputs := FullLiquidationLeavesBit(s, env, c);
    ScalingAtOne(x.loan);
    ScalingAtOne(x.deposit);
    FloorAtMostSelf(MulFloor(x.loan, x.price));
  }

  // ---------- a reserve factor above one ----------

  lemma MarketIsAccepted(reserveFactor: nat, env: Env)
    requires env.now == 0
    ensures Run(Start, [Tx(env, MsgInitAsset(FreeTerms(reserveFactor)))]) == Start.(books := [Emptied(reserveFactor)])
  {
    Opens(Start, env, reserveFactor);
    assert Start.books + [Emptied(reserveFactor)] == [Emptied(reserveFactor)];
    LastStep(Start, [], Tx(env, MsgInitAsset(FreeTerms(reserveFactor))), Start.(books := [Emptied(reserveFactor)]));
  }

  lemma DepositRefused(s: Ledger, reserveFactor: nat, env: Env, who: Addr, amount: nat)
    requires s.books == [Emptied(reserveFactor)]
    requires env.now == 0 && reserveFactor > ONE && amount > 0
    ensures Deposit(s, env, who, 0, amount) == Err(Overflow)
  {
    var paid := s.books[0].(cash := amount);
    NothingAccrues(paid, env);
    assert RepriceAndPay(paid, 0, 0) == Err(Overflow);
  }

  /** A market with a reserve factor above one is accepted, and no deposit to it ever succeeds. */
  lemma ReserveFactorAccepted(reserveFactor: nat, env: Env, who: Addr, amount: nat)
    requires env.now == 0 && reserveFactor > ONE && amount > 0
    ensures Run(Start, [Tx(env, MsgInitAsset(FreeTerms(reserveFactor)))]).books == [Emptied(reserveFactor)]
    ensures Deposit(Run(Start, [Tx(env, MsgInitAsset(FreeTerms(reserveFactor)))]), env, who, 0, amount) == Err(Overflow)
  {
    MarketIsAccepted(reserveFactor, env);
    DepositRefused(Start.(books := [Emptied(reserveFactor)]), reserveFactor, env, who, amount);
  }
}
