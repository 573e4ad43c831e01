/** A user's position across all markets, as it is computed from the two bitmaps. */
module Position {
  import opened Base
  import opened FixedPoint
  import opened InterestRates
  import opened MaToken
  import Bitmap

  type AssetId = nat

  datatype Debt = Debt(amountScaled: nat, uncollateralized: bool)

  const NoDebt := Debt(0, false)

  /** The markets in which a user has collateral enabled, and those in which the user owes. */
  datatype User = User(collateral: set<AssetId>, borrowed: set<AssetId>)

  const NewUser := User({}, {})

  /** Everything the protocol stores about one asset. */
  datatype Book = Book(
    market: Market,
    token: Token,
    debts: map<Addr, Debt>,
    limits: map<Addr, nat>,
    cash: nat)

  /** What a transaction sees of the outside world. */
  datatype Env = Env(now: nat, prices: map<AssetId, nat>, collector: Addr)

  datatype AssetPosition = AssetPosition(
    asset: AssetId,
    collateral: nat,
    debt: nat,
    uncollateralizedDebt: bool,
    maxLoanToValue: nat,
    liquidationThreshold: nat,
    price: nat)

  /** Amounts in uusd. */
  datatype Valuation = Valuation(
    collateral: nat,
    debt: nat,
    collateralizedDebt: nat,
    maxDebt: nat,
    weightedThreshold: nat)
  {
    function Plus(v: Valuation): Valuation {
      Valuation(collateral + v.collateral, debt + v.debt, collateralizedDebt + v.collateralizedDebt,
                maxDebt + v.maxDebt, weightedThreshold + v.weightedThreshold)
    }
  }

  const NoValue := Valuation(0, 0, 0, 0, 0)

  datatype HealthStatus = NotBorrowing | Borrowing(healthFactor: nat)

  datatype UserPosition = UserPosition(totals: Valuation, health: HealthStatus, assets: seq<AssetPosition>)

  function DebtOf(b: Book, a: Addr): Debt {
    if a in b.debts then b.debts[a] else NoDebt
  }

  function LimitOf(b: Book, a: Addr): nat {
    if a in b.limits then b.limits[a] else 0
  }

  predicate Flags(u: User, i: AssetId) {
    i in u.collateral || i in u.borrowed
  }

  /** A user's position in one market the bitmaps flag. */
  function AssetPositionIn(b: Book, i: AssetId, u: User, who: Addr, env: Env): Result<AssetPosition> {
    var collateral :-
      if i in u.collateral then UnderlyingLiquidity(BalanceOf(b.token, who), b.market, env.now) else Ok(0);
    :- Need(i in u.borrowed ==> who in b.debts, NotFound);
    :- Need(i in env.prices, OracleFailure);
    Ok(AssetPosition(
         i,
         collateral,
         if i in u.borrowed then UnderlyingDebt(b.debts[who].amountScaled, b.market, env.now) else 0,
         i in u.borrowed && b.debts[who].uncollateralized,
         if i in u.collateral then b.market.maxLoanToValue else 0,
         if i in u.collateral then b.market.liquidationThreshold else 0,
         env.prices[i]))
  }

  /** One more market: its position is added to the list if it is flagged. Reading a bit beyond the width
      of the map is an error. */
  function WithNext(before: Result<seq<AssetPosition>>, b: Book, i: AssetId, u: User, who: Addr, env: Env):
    Result<seq<AssetPosition>>
  {
    var ps :- before;
    :- Need(i < Bitmap.WIDTH, IndexOutOfRange);
    if Flags(u, i) then
      var p :- AssetPositionIn(b, i, u, who, env);
      Ok(ps + [p])
    else
      Ok(ps)
  }

  /** The positions in the flagged markets among the first `n`, in order. */
  function AssetPositions(books: seq<Book>, u: User, who: Addr, env: Env, n: nat): Result<seq<AssetPosition>>
    requires n <= |books|
  {
    if n == 0 then Ok([])
    else WithNext(AssetPositions(books, u, who, env, n - 1), books[n - 1], n - 1, u, who, env)
  }

  function Value(p: AssetPosition): Valuation {
    var collateral := MulFloor(p.collateral, p.price);
    var debt := MulFloor(p.debt, p.price);
    Valuation(
      collateral,
      debt,
      if p.uncollateralizedDebt then 0 else debt,
      MulFloor(collateral, p.maxLoanToValue),
      MulFloor(collateral, p.liquidationThreshold))
  }

  function Totals(ps: seq<AssetPosition>): Valuation {
    if ps == [] then NoValue else Totals(ps[..|ps| - 1]).Plus(Value(ps[|ps| - 1]))
  }

  /** The health factor weighs collateral only against debt that collateral has to back. */
  function Health(v: Valuation): HealthStatus {
    if v.collateralizedDebt == 0 then NotBorrowing
    else Borrowing(FromRatio(v.weightedThreshold, v.collateralizedDebt))
  }

  predicate Unhealthy(h: HealthStatus) {
    h.Borrowing? && h.healthFactor < ONE
  }

  function PositionOf(books: seq<Book>, u: User, who: Addr, env: Env): Result<UserPosition> {
    var ps :- AssetPositions(books, u, who, env, |books|);
    Ok(UserPosition(Totals(ps), Health(Totals(ps)), ps))
  }

  /** The price used for an asset when the position was built. */
  function PriceIn(ps: seq<AssetPosition>, i: AssetId): Result<nat> {
    if ps == [] then Err(PriceNotFound)
    else if ps[0].asset == i then Ok(ps[0].price)
    else PriceIn(ps[1..], i)
  }

  // ---------- what one market contributes ----------

  /** A position in one market is what the user's tokens and debt come to at the indexes of the moment: the
      collateral rounded down where it is switched on, the debt rounded up where it is flagged. */
  lemma AssetPositionFollows(b: Book, i: AssetId, u: User, who: Addr, env: Env)
    ensures AssetPositionIn(b, i, u, who, env).Ok? <==>
              && (i in u.collateral ==> b.market.indexesLastUpdated <= env.now)
              && (i in u.borrowed ==> who in b.debts)
              && i in env.prices
    ensures AssetPositionIn(b, i, u, who, env).Ok? ==>
              var p := AssetPositionIn(b, i, u, who, env).value;
              var li, bi := Accrued(b.market, env.now).liquidityIndex, Accrued(b.market, env.now).borrowIndex;
              && p.asset == i && p.price == env.prices[i]
              && (i in u.collateral ==>
                    && p.collateral * UNIT <= BalanceOf(b.token, who) * li < (p.collateral + 1) * UNIT
                    && p.maxLoanToValue == b.market.maxLoanToValue
                    && p.liquidationThreshold == b.market.liquidationThreshold)
              && (i !in u.collateral ==> p.collateral == p.maxLoanToValue == p.liquidationThreshold == 0)
              && (i in u.borrowed ==>
                    && b.debts[who].amountScaled * bi - ONE < p.debt * UNIT < b.debts[who].amountScaled * bi + UNIT
                    && p.uncollateralizedDebt == b.debts[who].uncollateralized)
              && (i !in u.borrowed ==> p.debt == 0 && !p.uncollateralizedDebt)
  {
    PreviewEqualsCommit(b.market, env.now);
    var li, bi := Accrued(b.market, env.now).liquidityIndex, Accrued(b.market, env.now).borrowIndex;
    UnderlyingDownBounds(BalanceOf(b.token, who), li);
    if who in b.debts {
      UnderlyingUpBounds(b.debts[who].amountScaled, bi);
    }
  }

  /** Collateral and debt are valued at the price, rounded down; borrowing power and liquidation threshold
      are the market's shares of the collateral's value; debt within a limit needs no collateral. */
  lemma ValueFollows(p: AssetPosition)
    ensures var v := Value(p);
            && v.collateral * ONE <= p.collateral * p.price < v.collateral * ONE + ONE
            && v.debt * ONE <= p.debt * p.price < v.debt * ONE + ONE
            && v.collateralizedDebt == (if p.uncollateralizedDebt then 0 else v.debt)
            && v.maxDebt * ONE <= v.collateral * p.maxLoanToValue < v.maxDebt * ONE + ONE
            && v.weightedThreshold * ONE <= v.collateral * p.liquidationThreshold < v.weightedThreshold * ONE + ONE
  {
    var v := Value(p);
    FloorBounds(p.collateral * p.price, ONE);
    FloorBounds(p.debt * p.price, ONE);
    FloorBounds(v.collateral * p.maxLoanToValue, ONE);
    FloorBounds(v.collateral * p.liquidationThreshold, ONE);
  }

  // ---------- the loop against a sum over the flagged markets ----------

  /** What market `i` contributes to the user's totals: nothing unless it is flagged. */
  function ValueIn(b: Book, i: AssetId, u: User, who: Addr, env: Env): Valuation {
    if !Flags(u, i) then NoValue
    else
      var r := AssetPositionIn(b, i, u, who, env);
      if r.Ok? then Value(r.value) else NoValue
  }

  function SumOfValues(books: seq<Book>, u: User, who: Addr, env: Env, n: nat): Valuation
    requires n <= |books|
  {
    if n == 0 then NoValue
    else SumOfValues(books, u, who, env, n - 1).Plus(ValueIn(books[n - 1], n - 1, u, who, env))
  }

  /** The position can be computed exactly when the markets fit the bitmap and each flagged market
      has what it needs. */
  ghost predicate Computable(books: seq<Book>, u: User, who: Addr, env: Env, n: nat)
    requires n <= |books|
  {
    && n <= Bitmap.WIDTH
    && forall i: nat | i < n && Flags(u, i) :: AssetPositionIn(books[i], i, u, who, env).Ok?
  }

  /** `ps` holds the flagged markets below `n`, each once and in order. */
  ghost predicate Listing(ps: seq<AssetPosition>, books: seq<Book>, u: User, who: Addr, env: Env, n: nat)
    requires n <= |books|
  {
    && (forall k :: 0 <= k < |ps| ==>
                      && ps[k].asset < n
                      && Flags(u, ps[k].asset)
                      && AssetPositionIn(books[ps[k].asset], ps[k].asset, u, who, env) == Ok(ps[k]))
    && (forall j, k :: 0 <= j < k < |ps| ==> ps[j].asset < ps[k].asset)
    && (forall i: nat :: i < n && Flags(u, i) ==> Holds(ps, i))
  }

  ghost predicate Holds(ps: seq<AssetPosition>, i: AssetId) {
    exists k :: 0 <= k < |ps| && ps[k].asset == i
  }

  lemma ListingGrows(ps: seq<AssetPosition>, p: AssetPosition, books: seq<Book>, u: User, who: Addr, env: Env, n: nat)
    requires n < |books|
    requires Listing(ps, books, u, who, env, n)
    requires Flags(u, n) && AssetPositionIn(books[n], n, u, who, env) == Ok(p)
    ensures Listing(ps + [p], books, u, who, env, n + 1)
  {
    var longer := ps + [p];
    forall i: nat | i < n + 1 && Flags(u, i)
      ensures Holds(longer, i)
    {
      if i < n {
        var k :| 0 <= k < |ps| && ps[k].asset == i;
        assert longer[k].asset == i;
      } else {
        assert longer[|ps|].asset == i;
      }
    }
  }

  /** The list so far is computable as said, and it is the listing of the flagged markets. */
  ghost predicate ListedUpTo(r: Result<seq<AssetPosition>>, books: seq<Book>, u: User, who: Addr, env: Env, n: nat)
    requires n <= |books|
  {
    && (r.Ok? <==> Computable(books, u, who, env, n))
    && (r.Ok? ==> Listing(r.value, books, u, who, env, n))
  }

  lemma NextIsListed(r: Result<seq<AssetPosition>>, books: seq<Book>, u: User, who: Addr, env: Env, n: nat)
    requires n < |books| && ListedUpTo(r, books, u, who, env, n)
    ensures ListedUpTo(WithNext(r, books[n], n, u, who, env), books, u, who, env, n + 1)
  {
    if r.Ok? && n < Bitmap.WIDTH && Flags(u, n) {
      var p := AssetPositionIn(books[n], n, u, who, env);
      if p.Ok? {
        ListingGrows(r.value, p.value, books, u, who, env, n);
      }
    }
  }

  lemma {:induction false} PositionsListed(books: seq<Book>, u: User, who: Addr, env: Env, n: nat)
    requires n <= |books|
    ensures ListedUpTo(AssetPositions(books, u, who, env, n), books, u, who, env, n)
  {
    if n > 0 {
      PositionsListed(books, u, who, env, n - 1);
      NextIsListed(AssetPositions(books, u, who, env, n - 1), books, u, who, env, n - 1);
    }
  }

  /** The positions can be computed exactly when every flagged market has what it needs, and then they are
      the listing of the flagged markets. */
  lemma PositionsListFlagged(books: seq<Book>, u: User, who: Addr, env: Env, n: nat)
    requires n <= |books|
    ensures AssetPositions(books, u, who, env, n).Ok? <==> Computable(books, u, who, env, n)
    ensures Computable(books, u, who, env, n) ==>
              Listing(AssetPositions(books, u, who, env, n).value, books, u, who, env, n)
  {
    PositionsListed(books, u, who, env, n);
  }

  lemma TotalsAppend(ps: seq<AssetPosition>, p: AssetPosition)
    ensures Totals(ps + [p]) == Totals(ps).Plus(Value(p))
  {
    assert (ps + [p])[..|ps|] == ps;
  }

  lemma SumUnfolds(books: seq<Book>, u: User, who: Addr, env: Env, n: nat)
    requires 0 < n <= |books|
    ensures SumOfValues(books, u, who, env, n)
         == SumOfValues(books, u, who, env, n - 1).Plus(ValueIn(books[n - 1], n - 1, u, who, env))
  {
  }

  lemma NextFlagged(books: seq<Book>, u: User, who: Addr, env: Env, n: nat)
    returns (before: seq<AssetPosition>, p: AssetPosition)
    requires 0 < n <= |books| && Flags(u, n - 1)
    requires AssetPositions(books, u, who, env, n).Ok?
    ensures AssetPositions(books, u, who, env, n - 1) == Ok(before)
    ensures AssetPositions(books, u, who, env, n) == Ok(before + [p])
    ensures ValueIn(books[n - 1], n - 1, u, who, env) == Value(p)
  {
    before := AssetPositions(books, u, who, env, n - 1).value;
    p := AssetPositionIn(books[n - 1], n - 1, u, who, env).value;
  }

  lemma NextUnflagged(books: seq<Book>, u: User, who: Addr, env: Env, n: nat)
    requires 0 < n <= |books| && !Flags(u, n - 1)
    requires AssetPositions(books, u, who, env, n).Ok?
    ensures AssetPositions(books, u, who, env, n) == AssetPositions(books, u, who, env, n - 1)
    ensures SumOfValues(books, u, who, env, n) == SumOfValues(books, u, who, env, n - 1)
  {
  }

  lemma {:induction false} ListedWithTotal(books: seq<Book>, u: User, who: Addr, env: Env, n: nat)
    returns (ps: seq<AssetPosition>, total: Valuation)
    requires n <= |books|
    requires AssetPositions(books, u, who, env, n).Ok?
    ensures AssetPositions(books, u, who, env, n) == Ok(ps)
    ensures SumOfValues(books, u, who, env, n) == total
    ensures Totals(ps) == total
  {
    if n == 0 {
      ps, total := [], NoValue;
    } else if Flags(u, n - 1) {
      var before, p := NextFlagged(books, u, who, env, n);
      var listed, sum := ListedWithTotal(books, u, who, env, n - 1);
      SumUnfolds(books, u, who, env, n);
      TotalsAppend(before, p);
      ps, total := before + [p], sum.Plus(Value(p));
    } else {
      NextUnflagged(books, u, who, env, n);
      ps, total := ListedWithTotal(books, u, who, env, n - 1);
    }
  }

  /** The running totals are the sum of what the flagged markets contribute. */
  lemma TotalsAreSums(books: seq<Book>, u: User, who: Addr, env: Env, n: nat)
    requires n <= |books|
    requires AssetPositions(books, u, who, env, n).Ok?
    ensures Totals(AssetPositions(books, u, who, env, n).value) == SumOfValues(books, u, who, env, n)
  {
    var ps, total := ListedWithTotal(books, u, who, env, n);
  }

  /** A flagged market's price is always found, and it is the oracle's. */
  lemma PriceOfFlagged(books: seq<Book>, u: User, who: Addr, env: Env, i: AssetId)
    requires PositionOf(books, u, who, env).Ok?
    requires i < |books|
    ensures PriceIn(PositionOf(books, u, who, env).value.assets, i).Ok? <==> Flags(u, i)
    ensures Flags(u, i) ==> i in env.prices
                            && PriceIn(PositionOf(books, u, who, env).value.assets, i) == Ok(env.prices[i])
  {
    var ps := PositionOf(books, u, who, env).value.assets;
    PositionsListFlagged(books, u, who, env, |books|);
    PriceFound(ps, env, i);
    if Flags(u, i) {
      assert Holds(ps, i);
    }
  }

  lemma {:induction false} PriceFound(ps: seq<AssetPosition>, env: Env, i: AssetId)
    requires forall k :: 0 <= k < |ps| ==> ps[k].asset in env.prices && ps[k].price == env.prices[ps[k].asset]
    ensures PriceIn(ps, i).Ok? <==> Holds(ps, i)
    ensures PriceIn(ps, i).Ok? ==> i in env.prices && PriceIn(ps, i) == Ok(env.prices[i])
  {
    if ps != [] {
      PriceFound(ps[1..], env, i);
      if Holds(ps[1..], i) {
        var k :| 0 <= k < |ps[1..]| && ps[1..][k].asset == i;
        assert ps[k + 1].asset == i;
      }
      if Holds(ps, i) && ps[0].asset != i {
        var k :| 0 <= k < |ps| && ps[k].asset == i;
        assert ps[1..][k - 1].asset == i;
      }
    }
  }

  // ---------- borrowing power against liquidation ----------

  lemma {:induction false} MaxDebtBelowThreshold(books: seq<Book>, u: User, who: Addr, env: Env, n: nat)
    requires n <= |books|
    requires forall b <- books :: b.market.Valid()
    ensures var v := SumOfValues(books, u, who, env, n);
            v.maxDebt <= v.weightedThreshold && v.collateralizedDebt <= v.debt
  {
    if n > 0 {
      MaxDebtBelowThreshold(books, u, who, env, n - 1);
      var b := books[n - 1];
      var r := AssetPositionIn(b, n - 1, u, who, env);
      if Flags(u, n - 1) && r.Ok? {
        assert b in books;
        MulFloorMonotoneRate(MulFloor(r.value.collateral, r.value.price), r.value.maxLoanToValue,
                             r.value.liquidationThreshold);
      }
    }
  }

  /** Whoever stays within the borrowing limit cannot be liquidated. */
  lemma WithinLimitIsHealthy(books: seq<Book>, u: User, who: Addr, env: Env)
    requires PositionOf(books, u, who, env).Ok?
    requires forall b <- books :: b.market.Valid()
    ensures var p := PositionOf(books, u, who, env).value;
            p.totals.debt <= p.totals.maxDebt ==> !Unhealthy(p.health)
  {
    TotalsAreSums(books, u, who, env, |books|);
    MaxDebtBelowThreshold(books, u, who, env, |books|);
    HealthyIffBacked(PositionOf(books, u, who, env).value.totals);
  }

  /** The rounded health factor is below one exactly when the debt outweighs the threshold. */
  lemma HealthyIffBacked(v: Valuation)
    ensures Unhealthy(Health(v)) <==> v.weightedThreshold < v.collateralizedDebt
  {
    if v.collateralizedDebt > 0 {
      var x, d := v.weightedThreshold, v.collateralizedDebt;
      if d <= x {
        MulMonotone(d, x, ONE);
        FloorAtLeast(x * ONE, d, ONE);
      } else {
        FloorBelow(x * ONE, d, ONE);
      }
    }
  }
}
