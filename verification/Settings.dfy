/** What the owner's messages and the switches of a user do, and when they are refused. */
module Settings {
  import opened Base
  import opened FixedPoint
  import opened RateModels
  import opened InterestRates
  import opened MaToken
  import opened Position
  import opened Ledger
  import opened Invariants
  import opened Effects
  import Runs
  import Bitmap

  /** Everything that has to be given for a new asset. */
  predicate Complete(p: AssetParams) {
    && p.initialBorrowRate.Some? && p.maxLoanToValue.Some? && p.reserveFactor.Some?
    && p.liquidationThreshold.Some? && p.liquidationBonus.Some? && p.model.Some?
    && p.active.Some? && p.depositEnabled.Some? && p.borrowEnabled.Some?
  }

  function ParamsOf(model: RateModel): Params {
    match model
    case Dynamic(p, _, _) => DynamicModelParams(p)
    case Linear(p) => LinearModelParams(p)
  }

  // ---------- assets ----------

  /** A new asset gets exactly the parameters named, both indexes at one, and nothing owed or held. */
  lemma InitAssetEffect(s: Ledger, env: Env, p: AssetParams) returns (b: Book)
    ensures InitAsset(s, env, p).Ok? <==>
              && Complete(p) && p.model.value.Valid()
              && p.maxLoanToValue.value < p.liquidationThreshold.value <= ONE && p.liquidationBonus.value <= ONE
    ensures InitAsset(s, env, p).Ok? ==> InitAsset(s, env, p).value == s.(books := s.books + [b])
    ensures InitAsset(s, env, p).Ok? ==>
              && b.token == EmptyToken && b.debts == map[] && b.limits == map[] && b.cash == 0
              && b.market.maxLoanToValue == p.maxLoanToValue.value
              && b.market.liquidationThreshold == p.liquidationThreshold.value
              && b.market.liquidationBonus == p.liquidationBonus.value
              && b.market.reserveFactor == p.reserveFactor.value
              && b.market.active == p.active.value
              && b.market.depositEnabled == p.depositEnabled.value
              && b.market.borrowEnabled == p.borrowEnabled.value
              && b.market.borrowRate == p.initialBorrowRate.value && b.market.liquidityRate == 0
              && b.market.borrowIndex == b.market.liquidityIndex == ONE
              && b.market.debtTotalScaled == 0 && b.market.indexesLastUpdated == env.now
              && ParamsOf(b.market.model) == p.model.value
              && (b.market.model.Dynamic? ==>
                    b.market.model.txsSinceUpdate == 0 && b.market.model.lastUpdated == env.now)
  {
    var r := InitAsset(s, env, p);
    b := Book(FreshMarket, EmptyToken, map[], map[], 0);
    if r.Ok? {
      b := r.value.books[|s.books|];
    }
  }

  const FreshMarket := Market(0, 0, 0, 0, Linear(LinearParams(0, 0, 0, 0)), ONE, ONE, 0, 0, 0, 0, false, false, false)

  /** Each parameter is the one named, or as it was. */
  ghost predicate Reset(m: Market, after: Market, p: AssetParams) {
    && after.maxLoanToValue == (if p.maxLoanToValue.Some? then p.maxLoanToValue.value else m.maxLoanToValue)
    && after.liquidationThreshold ==
       (if p.liquidationThreshold.Some? then p.liquidationThreshold.value else m.liquidationThreshold)
    && after.liquidationBonus == (if p.liquidationBonus.Some? then p.liquidationBonus.value else m.liquidationBonus)
    && after.reserveFactor == (if p.reserveFactor.Some? then p.reserveFactor.value else m.reserveFactor)
    && after.active == (if p.active.Some? then p.active.value else m.active)
    && after.depositEnabled == (if p.depositEnabled.Some? then p.depositEnabled.value else m.depositEnabled)
    && after.borrowEnabled == (if p.borrowEnabled.Some? then p.borrowEnabled.value else m.borrowEnabled)
    && ParamsOf(after.model) == (if p.model.Some? then p.model.value else ParamsOf(m.model))
    && after.debtTotalScaled == m.debtTotalScaled
  }

  /** Whether new parameters make interest be charged first. */
  predicate Charges(m: Market, p: AssetParams) {
    (p.reserveFactor.Some? && p.reserveFactor.value != m.reserveFactor) || p.model.Some?
  }

  lemma RepricedKeepsParams(m: Market, cash: nat, now: nat)
    requires Repriced(m, cash, 0, now).Ok?
    ensures ParamsOf(Repriced(m, cash, 0, now).value.model) == ParamsOf(m.model)
  {
  }

  lemma UpdatedAssetEffect(b: Book, env: Env, p: AssetParams, after: Book)
    requires UpdatedAsset(b, env, p) == Ok(after)
    ensures Reset(b.market, after.market, p) && after.market.Valid()
    ensures after.cash == b.cash && after.debts == b.debts && after.limits == b.limits
    ensures forall x :: BalanceOf(after.token, x) ==
                        BalanceOf(b.token, x) + if Charges(b.market, p) then Share(b, env, x) else 0
  {
    if Charges(b.market, p) {
      var accrued := AccrueBook(b, env).value;
      AccruedEffect(b, env, accrued);
      var m := WithParams(accrued.market, p, env.now).value;
      var changed := accrued.(market := m);
      PaidEffect(changed, 0, env.now, after);
      RepricedFrame(m, changed.cash, 0, env.now);
      RepricedKeepsParams(m, changed.cash, env.now);
    }
  }

  /** New parameters replace those named and no others, and what results is validated again. */
  lemma UpdateAssetEffect(s: Ledger, env: Env, a: AssetId, p: AssetParams) returns (t: Ledger)
    requires UpdateAsset(s, env, a, p).Ok?
    ensures UpdateAsset(s, env, a, p) == Ok(t) && a < |s.books| && OnlyMarket(s, t, a) && t.users == s.users
    ensures var b, after := s.books[a], t.books[a];
            && Reset(b.market, after.market, p) && after.market.Valid()
            && after.cash == b.cash && after.debts == b.debts && after.limits == b.limits
            && forall x :: BalanceOf(after.token, x) ==
                           BalanceOf(b.token, x) + if Charges(b.market, p) then Share(b, env, x) else 0
  {
    t := UpdateAsset(s, env, a, p).value;
    UpdatedAssetEffect(s.books[a], env, p, t.books[a]);
  }

  // ---------- loan limits and the close factor ----------

  /** A limit is refused exactly to a user who shows a debt without one. It makes the user's debt
      uncollateralized, or with a limit of zero collateralized, and changes no amount. */
  lemma LoanLimitEffect(s: Ledger, user: Addr, a: AssetId, limit: nat)
    requires Sound(s)
    ensures UpdateLoanLimit(s, user, a, limit).Ok? <==>
              && a < |s.books|
              && (user in s.users && LimitOf(s.books[a], user) == 0 ==>
                    a < Bitmap.WIDTH && a !in s.users[user].borrowed)
    ensures UpdateLoanLimit(s, user, a, limit).Ok? ==>
              var t := UpdateLoanLimit(s, user, a, limit).value;
              && OnlyMarket(s, t, a) && t.users == s.users
              && var b, after := s.books[a], t.books[a];
                 && after.market == b.market && after.token == b.token && after.cash == b.cash
                 && LimitOf(after, user) == limit
                 && DebtOf(after, user) == Debt(DebtOf(b, user).amountScaled, limit > 0)
                 && forall x :: x != user ==> LimitOf(after, x) == LimitOf(b, x) && DebtOf(after, x) == DebtOf(b, x)
  {
  }

  lemma CloseFactorEffect(s: Ledger, closeFactor: nat)
    ensures UpdateCloseFactor(s, closeFactor).Ok? <==> closeFactor <= ONE
    ensures UpdateCloseFactor(s, closeFactor).Ok? ==>
              UpdateCloseFactor(s, closeFactor).value == Ledger(s.books, s.users, closeFactor, s.time)
  {
  }

  // ---------- switching collateral ----------

  /** The position can be computed and collateral backs the debt that it has to. */
  ghost predicate Afloat(books: seq<Book>, u: User, who: Addr, env: Env) {
    var p := PositionOf(books, u, who, env);
    p.Ok? && p.value.totals.collateralizedDebt <= p.value.totals.weightedThreshold
  }

  /** Collateral can be switched on exactly by those who have some, and off exactly by those whom that
      leaves with enough; no other bit and no market changes. */
  lemma CollateralStatusEffect(s: Ledger, env: Env, who: Addr, a: AssetId, enable: bool)
    ensures var u := UserOf(s.users, who);
            SetCollateralStatus(s, env, who, a, enable).Ok? <==>
              && a < |s.books| && a < Bitmap.WIDTH
              && (enable && a !in u.collateral ==> BalanceOf(s.books[a].token, who) > 0)
              && (!enable && a in u.collateral ==>
                    Afloat(s.books, u.(collateral := u.collateral - {a}), who, env))
    ensures SetCollateralStatus(s, env, who, a, enable).Ok? ==>
              var t := SetCollateralStatus(s, env, who, a, enable).value;
              && t.books == s.books && t.closeFactor == s.closeFactor && t.time == s.time
              && AgreeExcept(s.users, t.users, a) && SameBorrowed(s.users, t.users)
              && (forall x :: a in UserOf(t.users, x).collateral <==>
                                if x == who then enable else a in UserOf(s.users, x).collateral)
  {
    var u := UserOf(s.users, who);
    WithCollateralFrame(s.users, who, a);
    WithoutCollateralFrame(s.users, who, a);
    var p := PositionOf(s.books, u.(collateral := u.collateral - {a}), who, env);
    if p.Ok? {
      HealthyIffBacked(p.value.totals);
    }
  }

  /** Whoever has just switched collateral off cannot be liquidated, position computed afresh. */
  lemma DisablingLeavesAfloat(s: Ledger, env: Env, who: Addr, a: AssetId) returns (t: Ledger)
    requires SetCollateralStatus(s, env, who, a, false).Ok?
    requires a in UserOf(s.users, who).collateral
    ensures SetCollateralStatus(s, env, who, a, false) == Ok(t)
    ensures Afloat(t.books, UserOf(t.users, who), who, env)
  {
    t := SetCollateralStatus(s, env, who, a, false).value;
    var u := UserOf(s.users, who);
    HealthyIffBacked(PositionOf(s.books, u.(collateral := u.collateral - {a}), who, env).value.totals);
    assert UserOf(t.users, who) == u.(collateral := u.collateral - {a});
  }

  // ---------- token transfers ----------

  /** A transfer of liquidity tokens moves them, switches the sender's collateral off exactly if nothing is
      left, and the recipient's on exactly if there was nothing before. */
  lemma TransferEffect(s: Ledger, env: Env, a: AssetId, from: Addr, to: Addr, amount: nat)
    returns (t: Ledger)
    requires TransferToken(s, env, a, from, to, amount).Ok?
    ensures TransferToken(s, env, a, from, to, amount) == Ok(t) && a < |s.books| && OnlyMarket(s, t, a)
    ensures var b, after := s.books[a], t.books[a];
            && after == b.(token := after.token) && after.token.supply == b.token.supply
            && from != to && 0 < amount <= BalanceOf(b.token, from)
            && BalanceOf(after.token, from) == BalanceOf(b.token, from) - amount
            && BalanceOf(after.token, to) == BalanceOf(b.token, to) + amount
            && (forall x :: x != from && x != to ==> BalanceOf(after.token, x) == BalanceOf(b.token, x))
    ensures AgreeExcept(s.users, t.users, a) && SameBorrowed(s.users, t.users)
    ensures forall x :: a in UserOf(t.users, x).collateral <==>
                        if x == to && BalanceOf(s.books[a].token, to) == 0 then true
                        else a in UserOf(s.users, x).collateral
                             && !(x == from && BalanceOf(s.books[a].token, from) == amount)
  {
    var after, users := Runs.TransferParts(s, env, a, from, to, amount);
    var b := s.books[a];
    t := s.(books := s.books[a := after], users := users);
    var cleared := if BalanceOf(b.token, from) == amount then WithoutCollateral(s.users, from, a) else s.users;
    WithoutCollateralFrame(s.users, from, a);
    WithCollateralFrame(cleared, to, a);
  }

  /** The complete list of reasons for refusing a transfer. */
  lemma TransferRefusals(s: Ledger, env: Env, a: AssetId, from: Addr, to: Addr, amount: nat)
    ensures TransferToken(s, env, a, from, to, amount).Ok? <==>
              && a < |s.books| && from != to && from in s.users
              && var b := s.books[a];
                 && 0 < amount <= BalanceOf(b.token, from)
                 && (BalanceOf(b.token, from) == amount || BalanceOf(b.token, to) == 0 ==> a < Bitmap.WIDTH)
                 && var moved := b.token.balances[from := BalanceOf(b.token, from) - amount]
                                                 [to := BalanceOf(b.token, to) + amount];
                    Afloat(s.books[a := b.(token := Token(moved, b.token.supply))], s.users[from], from, env)
  {
    if a < |s.books| && from in s.users && Transfer(s.books[a].token, from, to, amount).Ok? {
      var b := s.books[a];
      var token := Transfer(b.token, from, to, amount).value;
      var p := PositionOf(s.books[a := b.(token := token)], s.users[from], from, env);
      if p.Ok? {
        HealthyIffBacked(p.value.totals);
      }
    }
  }
}
