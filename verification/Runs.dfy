/** Soundness of the remaining messages, and of every run of the lending contract. */
module Runs {
  import opened Base
  import opened InterestRates
  import opened MaToken
  import opened Position
  import opened Ledger
  import opened Invariants
  import Bitmap

  // ---------- liquidation ----------

  lemma LiquidationTermsFit(s: Ledger, env: Env, c: LiquidationCall)
    requires LiquidationTerms(s, env, c).Ok?
    ensures c.collateral < |s.books| && c.debt < |s.books| && c.collateral < Bitmap.WIDTH
    ensures var cb := s.books[c.collateral];
            var balance := UnderlyingLiquidity(BalanceOf(cb.token, c.user), cb.market, env.now);
            && balance.Ok?
            && LiquidationTerms(s, env, c).value.seized <= balance.value
  {
  }

  lemma SeizeTokensSound(b: Book, env: Env, c: LiquidationCall, seized: nat)
    requires SoundBook(b, env.now)
    requires SeizeTokens(b, env, c, seized).Ok?
    requires seized <= UnderlyingDown(BalanceOf(b.token, c.user), UpdatedLiquidityIndex(b.market, env.now).value)
    ensures var after := SeizeTokens(b, env, c, seized).value;
            && SoundBook(after, env.now)
            && after == b.(token := after.token)
            && (forall a :: a != c.user ==> BalanceOf(after.token, a) >= BalanceOf(b.token, a))
            && (c.receiveMaToken ==> c.liquidator != c.user && BalanceOf(after.token, c.liquidator) > 0)
            && (seized < UnderlyingDown(BalanceOf(b.token, c.user), UpdatedLiquidityIndex(b.market, env.now).value) ==>
                  BalanceOf(after.token, c.user) > 0)
  {
    var index := UpdatedLiquidityIndex(b.market, env.now).value;
    var scaled := ScaledDown(seized, index);
    RescaleDown(BalanceOf(b.token, c.user), index, seized);
    if c.receiveMaToken {
      TransferKeepsBalanced(b.token, c.user, c.liquidator, scaled);
      SoundWithToken(b, Transfer(b.token, c.user, c.liquidator, scaled).value, b.cash, env.now);
    } else {
      BurnKeepsBalanced(b.token, c.user, scaled);
      SoundWithToken(b, Burn(b.token, c.user, scaled).value, b.cash, env.now);
    }
  }

  lemma SettleDebtSound(b: Book, env: Env, who: Addr, repaid: nat, taken: nat)
    requires SoundBook(b, env.now)
    requires SettleDebt(b, env, who, repaid, taken).Ok?
    ensures var after := SettleDebt(b, env, who, repaid, taken).value;
            && SoundBook(after, env.now)
            && after.debts == b.debts[who := DebtOf(after, who)]
            && DebtOf(after, who).amountScaled <= DebtOf(b, who).amountScaled
            && after.market.liquidityIndex >= b.market.liquidityIndex
            && (forall a :: BalanceOf(after.token, a) >= BalanceOf(b.token, a))
  {
    AccrueBookSound(b, env);
    var b1 := AccrueBook(b, env).value;
    var owed := UnderlyingDebt(DebtOf(b, who).amountScaled, b.market, env.now);
    LowerDebtSound(b1, who, owed - repaid, env.now, env.now);
    var b2 := LowerDebt(b1, who, owed - repaid, env.now).value;
    RepriceAndPaySound(b2, taken, env.now, env.now);
  }

  /** The bits after a liquidation go with what the two parties hold. */
  lemma LiquidatedBacked(s: Ledger, env: Env, c: LiquidationCall, t: Seizure, after: Book)
    requires Sound(s) && c.collateral < |s.books|
    requires LiquidatedUsers(s, env, c, t).Ok?
    requires var cb := s.books[c.collateral];
             var balance := UnderlyingLiquidity(BalanceOf(cb.token, c.user), cb.market, env.now).value;
             && after.market.liquidityIndex >= cb.market.liquidityIndex
             && (forall a :: a != c.user ==> BalanceOf(after.token, a) >= BalanceOf(cb.token, a))
             && (c.receiveMaToken ==> c.liquidator != c.user && BalanceOf(after.token, c.liquidator) > 0)
             && (t.seized != balance ==> BalanceOf(after.token, c.user) > 0)
    ensures var users := LiquidatedUsers(s, env, c, t).value;
            && Backed(after, c.collateral, users)
            && AgreeExcept(s.users, users, c.collateral)
            && SameBorrowed(s.users, users)
  {
    var users := LiquidatedUsers(s, env, c, t).value;
    var cb := s.books[c.collateral];
    var shared := if c.receiveMaToken then WithCollateral(s.users, c.liquidator, c.collateral) else s.users;
    WithCollateralFrame(s.users, c.liquidator, c.collateral);
    WithoutCollateralFrame(shared, c.user, c.collateral);
    assert Backed(cb, c.collateral, s.users);
    if after.market.liquidityIndex <= UNIT {
      forall a | c.collateral in UserOf(users, a).collateral
        ensures BalanceOf(after.token, a) > 0
      {
        if a != c.user && !(c.receiveMaToken && a == c.liquidator) {
          assert c.collateral in UserOf(s.users, a).collateral;
          assert BalanceOf(after.token, a) >= BalanceOf(cb.token, a);
        }
      }
    }
  }

  /** The seized market after a liquidation that left its debts alone or set the user's to `d`. */
  lemma SoundAfterSeizure(s: Ledger, env: Env, c: LiquidationCall, t: Seizure, after: Book, d: Debt)
    requires Sound(s) && c.collateral < |s.books|
    requires LiquidatedUsers(s, env, c, t).Ok?
    requires SoundBook(after, s.time)
    requires var cb := s.books[c.collateral];
             var balance := UnderlyingLiquidity(BalanceOf(cb.token, c.user), cb.market, env.now).value;
             && (after.debts == cb.debts
                 || (after.debts == cb.debts[c.user := d] && d.amountScaled <= DebtOf(cb, c.user).amountScaled))
             && after.market.liquidityIndex >= cb.market.liquidityIndex
             && (forall a :: a != c.user ==> BalanceOf(after.token, a) >= BalanceOf(cb.token, a))
             && (c.receiveMaToken ==> c.liquidator != c.user && BalanceOf(after.token, c.liquidator) > 0)
             && (t.seized != balance ==> BalanceOf(after.token, c.user) > 0)
    requires c.collateral < Bitmap.WIDTH
    ensures Sound(s.(books := s.books[c.collateral := after], users := LiquidatedUsers(s, env, c, t).value))
  {
    var cb := s.books[c.collateral];
    LiquidatedBacked(s, env, c, t, after);
    var users := LiquidatedUsers(s, env, c, t).value;
    if after.debts == cb.debts {
      LinkedSameDebts(cb, after, c.collateral, s.users, users);
    } else {
      LinkedWithDebt(cb, after, c.collateral, s.users, users, c.user, d);
    }
    SoundAfterTouching(s, c.collateral, after, users);
  }

  lemma SingleMarketOf(books: seq<Book>, env: Env, c: LiquidationCall, t: Seizure) returns (settled: Book)
    requires c.collateral == c.debt < |books|
    requires LiquidatedBooks(books, env, c, t).Ok?
    ensures SingleMarketAfter(books[c.debt], env, c, t) == Ok(settled)
    ensures LiquidatedBooks(books, env, c, t) == Ok(books[c.debt := settled])
  {
    settled := SingleMarketAfter(books[c.debt], env, c, t).value;
  }

  lemma SingleMarketParts(b: Book, env: Env, c: LiquidationCall, t: Seizure, settled: Book)
    returns (seized: Book, taken: nat)
    requires SingleMarketAfter(b, env, c, t) == Ok(settled)
    ensures SeizeTokens(b.(cash := b.cash + c.sent), env, c, t.seized) == Ok(seized)
    ensures taken == t.refund + if c.receiveMaToken then 0 else t.seized
    ensures SettleDebt(seized, env, c.user, t.repaid, taken) == Ok(settled)
  {
    seized := SeizeTokens(b.(cash := b.cash + c.sent), env, c, t.seized).value;
    taken := LeavingWith(c, t);
  }

  lemma SameAssetParts(books: seq<Book>, env: Env, c: LiquidationCall, t: Seizure)
    returns (seized: Book, taken: nat, settled: Book)
    requires c.collateral == c.debt < |books|
    requires LiquidatedBooks(books, env, c, t).Ok?
    ensures SeizeTokens(books[c.debt].(cash := books[c.debt].cash + c.sent), env, c, t.seized) == Ok(seized)
    ensures taken == t.refund + if c.receiveMaToken then 0 else t.seized
    ensures SettleDebt(seized, env, c.user, t.repaid, taken) == Ok(settled)
    ensures LiquidatedBooks(books, env, c, t) == Ok(books[c.debt := settled])
  {
    settled := SingleMarketOf(books, env, c, t);
    seized, taken := SingleMarketParts(books[c.debt], env, c, t, settled);
  }

  lemma SameAssetBookSound(b: Book, env: Env, c: LiquidationCall, t: Seizure, seized: Book, taken: nat, after: Book)
    requires SoundBook(b, env.now)
    requires SeizeTokens(b, env, c, t.seized) == Ok(seized)
    requires SettleDebt(seized, env, c.user, t.repaid, taken) == Ok(after)
    requires t.seized <= UnderlyingDown(BalanceOf(b.token, c.user), UpdatedLiquidityIndex(b.market, env.now).value)
    ensures SoundBook(after, env.now)
    ensures after.debts == b.debts[c.user := DebtOf(after, c.user)]
    ensures DebtOf(after, c.user).amountScaled <= DebtOf(b, c.user).amountScaled
    ensures after.market.liquidityIndex >= b.market.liquidityIndex
    ensures forall a :: a != c.user ==> BalanceOf(after.token, a) >= BalanceOf(b.token, a)
    ensures c.receiveMaToken ==> c.liquidator != c.user && BalanceOf(after.token, c.liquidator) > 0
    ensures t.seized < UnderlyingDown(BalanceOf(b.token, c.user), UpdatedLiquidityIndex(b.market, env.now).value) ==>
              BalanceOf(after.token, c.user) > 0
  {
    SeizeTokensSound(b, env, c, t.seized);
    SettleDebtSound(seized, env, c.user, t.repaid, taken);
  }

  lemma SameAssetSideSound(s: Ledger, env: Env, c: LiquidationCall, t: Seizure, seized: Book, taken: nat, after: Book)
    requires Sound(s) && env.now == s.time
    requires c.collateral == c.debt < |s.books| && c.debt < Bitmap.WIDTH
    requires SeizeTokens(s.books[c.debt].(cash := s.books[c.debt].cash + c.sent), env, c, t.seized) == Ok(seized)
    requires SettleDebt(seized, env, c.user, t.repaid, taken) == Ok(after)
    requires LiquidatedUsers(s, env, c, t).Ok?
    requires var cb := s.books[c.collateral];
             t.seized <= UnderlyingLiquidity(BalanceOf(cb.token, c.user), cb.market, env.now).value
    ensures Sound(s.(books := s.books[c.debt := after], users := LiquidatedUsers(s, env, c, t).value))
  {
    var b := s.books[c.debt];
    SoundWithToken(b, b.token, b.cash + c.sent, env.now);
    SameAssetBookSound(b.(cash := b.cash + c.sent), env, c, t, seized, taken, after);
    SoundAfterSeizure(s, env, c, t, after, DebtOf(after, c.user));
  }

  lemma SameAssetLiquidationSound(s: Ledger, env: Env, c: LiquidationCall, t: Seizure)
    requires Sound(s) && env.now == s.time
    requires c.collateral == c.debt < |s.books| && c.debt < Bitmap.WIDTH
    requires LiquidatedUsers(s, env, c, t).Ok? && LiquidatedBooks(s.books, env, c, t).Ok?
    requires var cb := s.books[c.collateral];
             t.seized <= UnderlyingLiquidity(BalanceOf(cb.token, c.user), cb.market, env.now).value
    ensures Sound(s.(books := LiquidatedBooks(s.books, env, c, t).value, users := LiquidatedUsers(s, env, c, t).value))
  {
    var seized, taken, settled := SameAssetParts(s.books, env, c, t);
    SameAssetSideSound(s, env, c, t, seized, taken, settled);
  }

  lemma CollateralAfterSound(b: Book, env: Env, c: LiquidationCall, seized: nat)
    requires SoundBook(b, env.now)
    requires CollateralAfter(b, env, c, seized).Ok?
    requires seized <= UnderlyingDown(BalanceOf(b.token, c.user), UpdatedLiquidityIndex(b.market, env.now).value)
    ensures var after := CollateralAfter(b, env, c, seized).value;
            && SoundBook(after, env.now)
            && after.debts == b.debts
            && after.market.liquidityIndex >= b.market.liquidityIndex
            && (forall a :: a != c.user ==> BalanceOf(after.token, a) >= BalanceOf(b.token, a))
            && (c.receiveMaToken ==> c.liquidator != c.user && BalanceOf(after.token, c.liquidator) > 0)
            && (seized < UnderlyingDown(BalanceOf(b.token, c.user), UpdatedLiquidityIndex(b.market, env.now).value) ==>
                  BalanceOf(after.token, c.user) > 0)
  {
    SeizeTokensSound(b, env, c, seized);
    var c1 := SeizeTokens(b, env, c, seized).value;
    if !c.receiveMaToken {
      AccrueBookSound(c1, env);
      RepriceAndPaySound(AccrueBook(c1, env).value, seized, env.now, env.now);
    }
  }

  lemma DebtSideSound(s: Ledger, env: Env, c: LiquidationCall, t: Seizure, after: Book)
    requires Sound(s) && env.now == s.time && c.debt < |s.books|
    requires var db := s.books[c.debt];
             SettleDebt(db.(cash := db.cash + c.sent), env, c.user, t.repaid, t.refund) == Ok(after)
    ensures Sound(s.(books := s.books[c.debt := after]))
  {
    var db := s.books[c.debt];
    var d0 := db.(cash := db.cash + c.sent);
    SoundWithToken(db, db.token, d0.cash, env.now);
    SettleDebtSound(d0, env, c.user, t.repaid, t.refund);
    SoundAfterDebtChange(s, c.debt, after, s.users, c.user);
  }

  lemma CollateralSideSound(s: Ledger, env: Env, c: LiquidationCall, t: Seizure, after: Book)
    returns (s1: Ledger)
    requires Sound(s) && env.now == s.time && c.collateral < |s.books| && c.collateral < Bitmap.WIDTH
    requires LiquidatedUsers(s, env, c, t).Ok?
    requires CollateralAfter(s.books[c.collateral], env, c, t.seized) == Ok(after)
    requires var cb := s.books[c.collateral];
             t.seized <= UnderlyingLiquidity(BalanceOf(cb.token, c.user), cb.market, env.now).value
    ensures s1 == s.(books := s.books[c.collateral := after], users := LiquidatedUsers(s, env, c, t).value)
    ensures Sound(s1)
  {
    s1 := s.(books := s.books[c.collateral := after], users := LiquidatedUsers(s, env, c, t).value);
    var cb := s.books[c.collateral];
    CollateralAfterSound(cb, env, c, t.seized);
    SoundAfterSeizure(s, env, c, t, after, NoDebt);
  }

  lemma CrossAssetSides(books: seq<Book>, env: Env, c: LiquidationCall, t: Seizure) returns (cb: Book, db: Book)
    requires c.collateral != c.debt && c.collateral < |books| && c.debt < |books|
    requires LiquidatedBooks(books, env, c, t).Ok?
    ensures CollateralAfter(books[c.collateral], env, c, t.seized) == Ok(cb)
    ensures SettleDebt(books[c.debt].(cash := books[c.debt].cash + c.sent), env, c.user, t.repaid, t.refund) == Ok(db)
    ensures LiquidatedBooks(books, env, c, t) == Ok(books[c.collateral := cb][c.debt := db])
  {
    cb := CollateralAfter(books[c.collateral], env, c, t.seized).value;
    db := SettleDebt(books[c.debt].(cash := books[c.debt].cash + c.sent), env, c.user, t.repaid, t.refund).value;
  }

  lemma BothSidesSound(s: Ledger, env: Env, c: LiquidationCall, t: Seizure, cb: Book, db: Book)
    requires Sound(s) && env.now == s.time
    requires c.collateral != c.debt && c.collateral < |s.books| && c.debt < |s.books| && c.collateral < Bitmap.WIDTH
    requires LiquidatedUsers(s, env, c, t).Ok?
    requires CollateralAfter(s.books[c.collateral], env, c, t.seized) == Ok(cb)
    requires SettleDebt(s.books[c.debt].(cash := s.books[c.debt].cash + c.sent), env, c.user, t.repaid, t.refund) == Ok(db)
    requires var b := s.books[c.collateral];
             t.seized <= UnderlyingLiquidity(BalanceOf(b.token, c.user), b.market, env.now).value
    ensures Sound(s.(books := s.books[c.collateral := cb][c.debt := db], users := LiquidatedUsers(s, env, c, t).value))
  {
    var s1 := CollateralSideSound(s, env, c, t, cb);
    assert s1.books[c.debt] == s.books[c.debt];
    DebtSideSound(s1, env, c, t, db);
  }

  lemma CrossAssetLiquidationSound(s: Ledger, env: Env, c: LiquidationCall, t: Seizure)
    requires Sound(s) && env.now == s.time
    requires c.collateral != c.debt && c.collateral < |s.books| && c.debt < |s.books| && c.collateral < Bitmap.WIDTH
    requires LiquidatedUsers(s, env, c, t).Ok? && LiquidatedBooks(s.books, env, c, t).Ok?
    requires var cb := s.books[c.collateral];
             t.seized <= UnderlyingLiquidity(BalanceOf(cb.token, c.user), cb.market, env.now).value
    ensures Sound(s.(books := LiquidatedBooks(s.books, env, c, t).value, users := LiquidatedUsers(s, env, c, t).value))
  {
    var cb, db := CrossAssetSides(s.books, env, c, t);
    BothSidesSound(s, env, c, t, cb, db);
  }

  lemma LiquidateSound(s: Ledger, env: Env, c: LiquidationCall)
    requires Sound(s) && env.now == s.time
    requires Liquidate(s, env, c).Ok?
    ensures Sound(Liquidate(s, env, c).value)
  {
    LiquidationTermsFit(s, env, c);
    var t := LiquidationTerms(s, env, c).value;
    if c.collateral == c.debt {
      SameAssetLiquidationSound(s, env, c, t);
    } else {
      CrossAssetLiquidationSound(s, env, c, t);
    }
  }

  // ---------- collateral status and transfers ----------

  lemma SetCollateralStatusSound(s: Ledger, env: Env, who: Addr, a: AssetId, enable: bool)
    requires Sound(s)
    requires SetCollateralStatus(s, env, who, a, enable).Ok?
    ensures Sound(SetCollateralStatus(s, env, who, a, enable).value)
  {
    var b := s.books[a];
    WithCollateralFrame(s.users, who, a);
    WithoutCollateralFrame(s.users, who, a);
    var after := SetCollateralStatus(s, env, who, a, enable).value;
    LinkedSameDebts(b, b, a, s.users, after.users);
    BackedWhenHoldingsRise(b, b, a, s.users, after.users, who);
    SoundAfterTouching(s, a, b, after.users);
    assert s.books[a := b] == s.books;
  }

  /** The market and the bits after tokens were moved. */
  lemma TransferParts(s: Ledger, env: Env, a: AssetId, from: Addr, to: Addr, amount: nat)
    returns (after: Book, users: map<Addr, User>)
    requires TransferToken(s, env, a, from, to, amount).Ok?
    ensures a < |s.books| && from in s.users && from != to
    ensures TransferToken(s, env, a, from, to, amount) == Ok(s.(books := s.books[a := after], users := users))
    ensures Transfer(s.books[a].token, from, to, amount) == Ok(after.token)
    ensures after == s.books[a].(token := after.token)
    ensures var cleared := if BalanceOf(s.books[a].token, from) == amount then WithoutCollateral(s.users, from, a) else s.users;
            users == if BalanceOf(s.books[a].token, to) == 0 then WithCollateral(cleared, to, a) else cleared
    ensures Flags(UserOf(users, to), a) && !Flags(UserOf(s.users, to), a) ==> a < Bitmap.WIDTH
    ensures var p := PositionOf(s.books[a := after], s.users[from], from, env);
            p.Ok? && !Unhealthy(p.value.health)
  {
    var t := TransferToken(s, env, a, from, to, amount).value;
    after, users := t.books[a], t.users;
  }

  lemma TransferBits(users: map<Addr, User>, a: AssetId, from: Addr, to: Addr, clear: bool, flag: bool)
    returns (after: map<Addr, User>)
    ensures var cleared := if clear then WithoutCollateral(users, from, a) else users;
            after == if flag then WithCollateral(cleared, to, a) else cleared
    ensures AgreeExcept(users, after, a) && SameBorrowed(users, after)
    ensures forall o :: a in UserOf(after, o).collateral ==> (o == to && flag) || a in UserOf(users, o).collateral
    ensures clear && from != to ==> a !in UserOf(after, from).collateral
  {
    var cleared := if clear then WithoutCollateral(users, from, a) else users;
    WithoutCollateralFrame(users, from, a);
    WithCollateralFrame(cleared, to, a);
    after := if flag then WithCollateral(cleared, to, a) else cleared;
  }

  /** Whoever has the bit after a transfer has tokens, if that was so before. */
  lemma TransferBacked(b: Book, after: Book, a: AssetId, users: map<Addr, User>, bits: map<Addr, User>, from: Addr,
                       to: Addr, amount: nat)
    requires Backed(b, a, users) && from != to
    requires Transfer(b.token, from, to, amount) == Ok(after.token) && after.market == b.market
    requires forall o :: a in UserOf(bits, o).collateral ==> o == to || a in UserOf(users, o).collateral
    requires BalanceOf(b.token, from) == amount ==> a !in UserOf(bits, from).collateral
    ensures Backed(after, a, bits)
  {
    if after.market.liquidityIndex <= UNIT {
      forall o | a in UserOf(bits, o).collateral
        ensures BalanceOf(after.token, o) > 0
      {
        if o != from && o != to {
          assert BalanceOf(after.token, o) == BalanceOf(b.token, o);
        }
      }
    }
  }

  /** Moving tokens and then the bits keeps every switched-on collateral backed. */
  lemma TransferTokenSound(s: Ledger, env: Env, a: AssetId, from: Addr, to: Addr, amount: nat)
    requires Sound(s)
    requires TransferToken(s, env, a, from, to, amount).Ok?
    ensures Sound(TransferToken(s, env, a, from, to, amount).value)
  {
    var after, users := TransferParts(s, env, a, from, to, amount);
    var b := s.books[a];
    var bits := TransferBits(s.users, a, from, to, BalanceOf(b.token, from) == amount, BalanceOf(b.token, to) == 0);
    TransferKeepsBalanced(b.token, from, to, amount);
    SoundWithToken(b, after.token, b.cash, s.time);
    LinkedSameDebts(b, after, a, s.users, users);
    TransferBacked(b, after, a, s.users, users, from, to, amount);
    SoundAfterTouching(s, a, after, users);
  }

  // ---------- administration ----------

  lemma InitAssetSound(s: Ledger, env: Env, p: AssetParams)
    requires Sound(s) && env.now == s.time
    requires InitAsset(s, env, p).Ok?
    ensures Sound(InitAsset(s, env, p).value)
  {
    var t := InitAsset(s, env, p).value;
    var n := |s.books|;
    var b := t.books[n];
    assert Amounts(b.debts) == map[];
    assert forall a :: DebtOf(b, a) == NoDebt && LimitOf(b, a) == 0;
    assert forall a :: !Flags(UserOf(s.users, a), n);
    forall i | 0 <= i < |t.books|
      ensures SoundBook(t.books[i], t.time) && Linked(t.books[i], i, t.users) && Backed(t.books[i], i, t.users)
    {
      if i < n {
        assert t.books[i] == s.books[i];
      }
    }
  }

  lemma WithParamsSound(b: Book, p: AssetParams, now: nat, time: nat)
    requires SoundBook(b, time) && now <= time
    requires WithParams(b.market, p, now).Ok?
    ensures var m := WithParams(b.market, p, now).value;
            && SoundBook(b.(market := m), time)
            && m.borrowIndex == b.market.borrowIndex
            && m.liquidityIndex == b.market.liquidityIndex
            && m.indexesLastUpdated == b.market.indexesLastUpdated
            && m.debtTotalScaled == b.market.debtTotalScaled
  {
    var after := b.(market := WithParams(b.market, p, now).value);
    forall a
      ensures DebtOf(after, a).uncollateralized <==> LimitOf(after, a) > 0
    {
      assert DebtOf(b, a) == DebtOf(after, a) && LimitOf(b, a) == LimitOf(after, a);
    }
  }

  lemma UpdateAssetSound(s: Ledger, env: Env, a: AssetId, p: AssetParams)
    requires Sound(s) && env.now == s.time
    requires UpdateAsset(s, env, a, p).Ok?
    ensures Sound(UpdateAsset(s, env, a, p).value)
  {
    var b := s.books[a];
    var after := UpdateAsset(s, env, a, p).value.books[a];
    if (p.reserveFactor.Some? && p.reserveFactor.value != b.market.reserveFactor) || p.model.Some? {
      AccrueBookSound(b, env);
      var b1 := AccrueBook(b, env).value;
      WithParamsSound(b1, p, env.now, env.now);
      var m := WithParams(b1.market, p, env.now).value;
      RepriceAndPaySound(b1.(market := m), 0, env.now, env.now);
    } else {
      WithParamsSound(b, p, env.now, env.now);
    }
    LinkedSameDebts(b, after, a, s.users, s.users);
    forall o
      ensures BalanceOf(after.token, o) >= BalanceOf(b.token, o)
    {
    }
    assert Backed(b, a, s.users);
    assert Backed(after, a, s.users);
    SoundAfterTouching(s, a, after, s.users);
  }

  lemma UpdateLoanLimitSound(s: Ledger, user: Addr, a: AssetId, limit: nat)
    requires Sound(s)
    requires UpdateLoanLimit(s, user, a, limit).Ok?
    ensures Sound(UpdateLoanLimit(s, user, a, limit).value)
  {
    var b := s.books[a];
    var after := UpdateLoanLimit(s, user, a, limit).value.books[a];
    var d := DebtOf(b, user).(uncollateralized := limit != 0);
    DebtTotalUpdate(b.debts, user, d);
    forall o
      ensures DebtOf(after, o).uncollateralized <==> LimitOf(after, o) > 0
    {
      assert o != user ==> DebtOf(b, o) == DebtOf(after, o) && LimitOf(b, o) == LimitOf(after, o);
    }
    LinkedWithDebt(b, after, a, s.users, s.users, user, d);
    assert Backed(b, a, s.users);
    SoundAfterTouching(s, a, after, s.users);
  }

  lemma DonateSound(s: Ledger, a: AssetId, amount: nat)
    requires Sound(s)
    requires Donate(s, a, amount).Ok?
    ensures Sound(Donate(s, a, amount).value)
  {
    var b := s.books[a];
    var after := b.(cash := b.cash + amount);
    SoundWithToken(b, b.token, after.cash, s.time);
    LinkedSameDebts(b, after, a, s.users, s.users);
    assert Backed(b, a, s.users);
    SoundAfterTouching(s, a, after, s.users);
  }

  // ---------- steps and runs ----------

  lemma HandleSound(s: Ledger, env: Env, msg: Msg)
    requires Sound(s) && env.now == s.time
    requires Handle(s, env, msg).Ok?
    ensures Sound(Handle(s, env, msg).value)
  {
    match msg
    case MsgInitAsset(p) => InitAssetSound(s, env, p);
    case MsgUpdateAsset(a, p) => UpdateAssetSound(s, env, a, p);
    case MsgUpdateLoanLimit(u, a, limit) => UpdateLoanLimitSound(s, u, a, limit);
    case MsgUpdateCloseFactor(f) =>
    case MsgDeposit(u, a, amount) => DepositSound(s, env, u, a, amount);
    case MsgWithdraw(u, a, requested) => WithdrawSound(s, env, u, a, requested);
    case MsgBorrow(u, a, amount) => BorrowSound(s, env, u, a, amount);
    case MsgRepay(sender, other, a, amount) => RepaySound(s, env, sender, other, a, amount);
    case MsgLiquidate(c) => LiquidateSound(s, env, c);
    case MsgSetCollateralStatus(u, a, enable) => SetCollateralStatusSound(s, env, u, a, enable);
    case MsgTransferToken(a, from, to, amount) => TransferTokenSound(s, env, a, from, to, amount);
    case MsgDonate(a, amount) => DonateSound(s, a, amount);
  }

  lemma HandleKeepsTime(s: Ledger, env: Env, msg: Msg)
    requires Handle(s, env, msg).Ok?
    ensures Handle(s, env, msg).value.time == s.time
  {
  }

  lemma TimePasses(s: Ledger, time: nat)
    requires Sound(s) && s.time <= time
    ensures Sound(s.(time := time))
  {
    forall i | 0 <= i < |s.books|
      ensures SoundBook(s.books[i], time)
    {
      assert SoundBook(s.books[i], s.time);
    }
  }

  lemma StepSound(s: Ledger, env: Env, msg: Msg)
    requires Sound(s)
    ensures Sound(Step(s, env, msg))
  {
    var timed := s.(time := if env.now > s.time then env.now else s.time);
    TimePasses(s, timed.time);
    if Handle(timed, env.(now := timed.time), msg).Ok? {
      HandleSound(timed, env.(now := timed.time), msg);
    }
  }

  /** Whatever is sent to a fresh contract, in whatever order, debts, balances, limits and both
      bitmaps stay consistent. */
  lemma {:induction false} EveryRunIsSound(s: Ledger, txs: seq<Tx>)
    requires Fresh(s)
    ensures Sound(Run(s, txs))
  {
    if txs != [] {
      EveryRunIsSound(s, txs[..|txs| - 1]);
      StepSound(Run(s, txs[..|txs| - 1]), txs[|txs| - 1].env, txs[|txs| - 1].msg);
    }
  }
}
