/** Over every run, each market owns what it owes, up to roundings that are counted. */
module Solvency {
  import opened Base
  import opened FixedPoint
  import opened InterestRates
  import opened MaToken
  import opened Position
  import opened Ledger
  import opened Invariants
  import opened Runs
  import opened MarketSurplus
  import opened InterestFunding

  // ---------- what one message does to one market ----------

  /** Nothing that interest depends on has changed. */
  predicate SameMarket(b: Book, after: Book) {
    && after.market.borrowIndex == b.market.borrowIndex
    && after.market.liquidityIndex == b.market.liquidityIndex
    && after.market.borrowRate == b.market.borrowRate
    && after.market.liquidityRate == b.market.liquidityRate
    && after.market.indexesLastUpdated == b.market.indexesLastUpdated
    && after.market.debtTotalScaled == b.market.debtTotalScaled
    && after.market.reserveFactor == b.market.reserveFactor
    && after.token.supply == b.token.supply
    && after.cash >= b.cash
  }

  /** Either nothing that interest depends on changed, or interest was accrued first, new rates were set
      for the cash that stays, and the surplus fell by at most `loss`. */
  ghost predicate Moved(b: Book, after: Book, now: nat, loss: nat) {
    || SameMarket(b, after)
    || (&& after.market.indexesLastUpdated == now
        && Priced(after)
        && Surplus(after, now) >= Surplus(b, now) - loss)
  }

  /** What a message may cost a market: a repayment rounds in the debtor's favour by less than one, a
      seizure of underlying assets by less than one index. */
  function Loss(s: Ledger, env: Env, msg: Msg, i: AssetId): nat {
    match msg
    case MsgRepay(_, _, a, _) => if i == a then ONE else 0
    case MsgLiquidate(c) =>
      (if i == c.debt then ONE else 0)
      + (if i == c.collateral && !c.receiveMaToken && i < |s.books| then Accrued(s.books[i].market, env.now).liquidityIndex
         else 0)
    case _ => 0
  }

  lemma RepricedIsPriced(b: Book, taken: nat, now: nat)
    requires b.market.indexesLastUpdated == now
    requires RepriceAndPay(b, taken, now).Ok?
    ensures var after := RepriceAndPay(b, taken, now).value;
            after.market.indexesLastUpdated == now && PricedFor(after, after.cash)
  {
    RepricedFrame(b.market, b.cash, taken, now);
    AccrualIsIdempotent(b.market, now);
  }

  lemma PricedAfterPayout(b: Book, cash: nat, token: Token)
    requires PricedFor(b, b.cash) && cash <= b.cash
    ensures Priced(b.(cash := cash, token := token))
  {
    assert PricedFor(b.(cash := cash, token := token), b.cash);
  }

  lemma DepositMoves(b: Book, env: Env, user: Addr, amount: nat)
    requires SoundBook(b, env.now)
    requires DepositedBook(b, env, user, amount).Ok?
    ensures Moved(b, DepositedBook(b, env, user, amount).value, env.now, 0)
  {
    DepositNeverLosesSurplus(b, env, user, amount);
    var b0 := b.(cash := b.cash + amount);
    SoundWithToken(b, b.token, b0.cash, env.now);
    AccrueBookSound(b0, env);
    var b1 := AccrueBook(b0, env).value;
    RepricedIsPriced(b1, 0, env.now);
    var b2 := RepriceAndPay(b1, 0, env.now).value;
    var after := DepositedBook(b, env, user, amount).value;
    PricedAfterPayout(b2, b2.cash, after.token);
  }

  lemma WithdrawMoves(b: Book, env: Env, who: Addr, balance: nat, amount: nat)
    requires SoundBook(b, env.now)
    requires UnderlyingLiquidity(BalanceOf(b.token, who), b.market, env.now) == Ok(balance)
    requires amount <= balance
    requires WithdrawnBook(b, env, who, balance, amount).Ok?
    ensures Moved(b, WithdrawnBook(b, env, who, balance, amount).value, env.now, 0)
  {
    WithdrawNeverLosesSurplus(b, env, who, balance, amount);
    var accrued, repriced, burned, token := WithdrawnBookParts(b, env, who, balance, amount);
    AccrueBookSound(b, env);
    RepricedIsPriced(accrued, amount, env.now);
    PricedAfterPayout(repriced, repriced.cash, token);
  }

  lemma BorrowMoves(b: Book, env: Env, who: Addr, amount: nat)
    requires SoundBook(b, env.now)
    requires BorrowedBook(b, env, who, amount).Ok?
    ensures Moved(b, BorrowedBook(b, env, who, amount).value, env.now, 0)
  {
    BorrowNeverLosesSurplus(b, env, who, amount);
    AccrueBookSound(b, env);
    var raised := RaiseDebt(AccrueBook(b, env).value, who, amount, env.now);
    RepricedIsPriced(raised, amount, env.now);
    var after := BorrowedBook(b, env, who, amount).value;
    PricedAfterPayout(after, after.cash, after.token);
  }

  lemma RepayMoves(b: Book, env: Env, who: Addr, amount: nat)
    requires SoundBook(b, env.now)
    requires RepaidBook(b, env, who, amount).Ok?
    ensures Moved(b, RepaidBook(b, env, who, amount).value, env.now, ONE)
  {
    RepayLosesLessThanOne(b, env, who, amount);
    var accrued, left, lowered, repriced, refund := RepaidBookParts(b, env, who, amount);
    AccrueBookSound(b, env);
    LowerDebtSound(accrued, who, left, env.now, env.now);
    RepricedIsPriced(lowered.(cash := lowered.cash + amount), 0, env.now);
    PricedAfterPayout(repriced, repriced.cash - refund, repriced.token);
  }

  lemma SettleIsPriced(b: Book, env: Env, who: Addr, repaid: nat, taken: nat)
    requires SoundBook(b, env.now)
    requires SettleDebt(b, env, who, repaid, taken).Ok?
    ensures var after := SettleDebt(b, env, who, repaid, taken).value;
            after.market.indexesLastUpdated == env.now && Priced(after)
  {
    var accrued, left, lowered := SettleDebtParts(b, env, who, repaid, taken);
    AccrueBookSound(b, env);
    LowerDebtSound(accrued, who, left, env.now, env.now);
    RepricedIsPriced(lowered, taken, env.now);
    var after := RepriceAndPay(lowered, taken, env.now).value;
    PricedAfterPayout(after, after.cash, after.token);
  }

  lemma CollateralSideMoves(b: Book, env: Env, c: LiquidationCall, seized: nat)
    requires SoundBook(b, env.now)
    requires CollateralAfter(b, env, c, seized).Ok?
    requires seized <= UnderlyingDown(BalanceOf(b.token, c.user), UpdatedLiquidityIndex(b.market, env.now).value)
    ensures Moved(b, CollateralAfter(b, env, c, seized).value, env.now,
                  if c.receiveMaToken then 0 else Accrued(b.market, env.now).liquidityIndex)
  {
    CollateralSideLosesLessThanIndex(b, env, c, seized);
    SeizeTokensSound(b, env, c, seized);
    if !c.receiveMaToken {
      var c1 := SeizeTokens(b, env, c, seized).value;
      AccrueBookSound(c1, env);
      RepricedIsPriced(AccrueBook(c1, env).value, seized, env.now);
      var after := CollateralAfter(b, env, c, seized).value;
      PricedAfterPayout(after, after.cash, after.token);
    }
  }

  // ---------- whole messages ----------

  /** Every market of `s`, as it fares under a message that leads to `t`. */
  ghost predicate AllMoved(s: Ledger, t: Ledger, env: Env, msg: Msg) {
    && |s.books| <= |t.books|
    && (forall i :: 0 <= i < |s.books| ==> Moved(s.books[i], t.books[i], env.now, Loss(s, env, msg, i)))
  }

  lemma OneBookMoves(s: Ledger, t: Ledger, env: Env, msg: Msg, a: AssetId, after: Book)
    requires a < |s.books| && t.books == s.books[a := after]
    requires Moved(s.books[a], after, env.now, Loss(s, env, msg, a))
    ensures AllMoved(s, t, env, msg)
  {
    forall i | 0 <= i < |s.books|
      ensures Moved(s.books[i], t.books[i], env.now, Loss(s, env, msg, i))
    {
      if i != a {
        assert SameMarket(s.books[i], t.books[i]);
      }
    }
  }

  /** The terms of a liquidation split what was sent. */
  lemma TermsSplitSent(s: Ledger, env: Env, c: LiquidationCall)
    requires LiquidationTerms(s, env, c).Ok?
    ensures LiquidationTerms(s, env, c).value.repaid + LiquidationTerms(s, env, c).value.refund == c.sent
  {
  }

  lemma LossInOneMarket(s: Ledger, env: Env, c: LiquidationCall)
    requires c.collateral == c.debt < |s.books|
    ensures Loss(s, env, MsgLiquidate(c), c.debt)
         == ONE + if c.receiveMaToken then 0 else Accrued(s.books[c.debt].market, env.now).liquidityIndex
  {
  }

  lemma OneMarketMoves(s: Ledger, env: Env, c: LiquidationCall, settled: Book) returns (after: Ledger)
    requires c.collateral == c.debt < |s.books|
    requires Moved(s.books[c.debt], settled, env.now,
                   ONE + if c.receiveMaToken then 0 else Accrued(s.books[c.debt].market, env.now).liquidityIndex)
    ensures after == s.(books := s.books[c.debt := settled])
    ensures AllMoved(s, after, env, MsgLiquidate(c))
  {
    after := s.(books := s.books[c.debt := settled]);
    LossInOneMarket(s, env, c);
    OneBookMoves(s, after, env, MsgLiquidate(c), c.debt, settled);
  }

  lemma SameAssetBooksMove(s: Ledger, env: Env, c: LiquidationCall, t: Seizure) returns (after: Ledger)
    requires c.collateral == c.debt
    requires Sound(s) && env.now == s.time
    requires c.collateral < |s.books| && c.debt < |s.books|
    requires t.repaid + t.refund == c.sent
    requires LiquidatedBooks(s.books, env, c, t).Ok?
    requires var cb := s.books[c.collateral];
             t.seized <= UnderlyingDown(BalanceOf(cb.token, c.user), UpdatedLiquidityIndex(cb.market, env.now).value)
    ensures LiquidatedBooks(s.books, env, c, t) == Ok(after.books)
    ensures AllMoved(s, after, env, MsgLiquidate(c))
  {
    var seized, taken, settled := SameAssetParts(s.books, env, c, t);
    SameAssetMoves(s.books[c.debt], env, c, t, seized, taken, settled);
    after := OneMarketMoves(s, env, c, settled);
  }

  lemma CrossAssetBooksMove(s: Ledger, env: Env, c: LiquidationCall, t: Seizure)
    requires c.collateral != c.debt
    requires Sound(s) && env.now == s.time
    requires c.collateral < |s.books| && c.debt < |s.books|
    requires t.repaid + t.refund == c.sent
    requires LiquidatedBooks(s.books, env, c, t).Ok?
    requires var cb := s.books[c.collateral];
             t.seized <= UnderlyingDown(BalanceOf(cb.token, c.user), UpdatedLiquidityIndex(cb.market, env.now).value)
    ensures AllMoved(s, s.(books := LiquidatedBooks(s.books, env, c, t).value), env, MsgLiquidate(c))
  {
    var cb, db := CrossAssetSides(s.books, env, c, t);
    CrossAssetPairMoves(s, env, c, t, cb, db);
  }

  lemma CrossAssetPairMoves(s: Ledger, env: Env, c: LiquidationCall, t: Seizure, cb: Book, db: Book)
    requires Sound(s) && env.now == s.time
    requires c.collateral != c.debt && c.collateral < |s.books| && c.debt < |s.books|
    requires t.repaid + t.refund == c.sent
    requires CollateralAfter(s.books[c.collateral], env, c, t.seized) == Ok(cb)
    requires SettleDebt(s.books[c.debt].(cash := s.books[c.debt].cash + c.sent), env, c.user, t.repaid, t.refund) == Ok(db)
    requires var b := s.books[c.collateral];
             t.seized <= UnderlyingDown(BalanceOf(b.token, c.user), UpdatedLiquidityIndex(b.market, env.now).value)
    ensures AllMoved(s, s.(books := s.books[c.collateral := cb][c.debt := db]), env, MsgLiquidate(c))
  {
    CollateralPartMoves(s, env, c, t, cb);
    DebtPartMoves(s, env, c, t, db);
    TwoBooksMove(s, env, MsgLiquidate(c), c.collateral, cb, c.debt, db);
  }

  lemma CollateralPartMoves(s: Ledger, env: Env, c: LiquidationCall, t: Seizure, after: Book)
    requires Sound(s) && env.now == s.time
    requires c.collateral != c.debt && c.collateral < |s.books|
    requires CollateralAfter(s.books[c.collateral], env, c, t.seized) == Ok(after)
    requires var b := s.books[c.collateral];
             t.seized <= UnderlyingDown(BalanceOf(b.token, c.user), UpdatedLiquidityIndex(b.market, env.now).value)
    ensures Moved(s.books[c.collateral], after, env.now, Loss(s, env, MsgLiquidate(c), c.collateral))
  {
    CollateralSideMoves(s.books[c.collateral], env, c, t.seized);
  }

  lemma DebtPartMoves(s: Ledger, env: Env, c: LiquidationCall, t: Seizure, after: Book)
    requires Sound(s) && env.now == s.time
    requires c.collateral != c.debt && c.debt < |s.books|
    requires t.repaid + t.refund == c.sent
    requires SettleDebt(s.books[c.debt].(cash := s.books[c.debt].cash + c.sent), env, c.user, t.repaid, t.refund) == Ok(after)
    ensures Moved(s.books[c.debt], after, env.now, Loss(s, env, MsgLiquidate(c), c.debt))
  {
    DebtSideMoves(s.books[c.debt], env, c, t);
  }

  lemma TwoBooksMove(s: Ledger, env: Env, msg: Msg, a: AssetId, first: Book, d: AssetId, second: Book)
    requires a != d && a < |s.books| && d < |s.books|
    requires Moved(s.books[a], first, env.now, Loss(s, env, msg, a))
    requires Moved(s.books[d], second, env.now, Loss(s, env, msg, d))
    ensures AllMoved(s, s.(books := s.books[a := first][d := second]), env, msg)
  {
    var books := s.books[a := first][d := second];
    forall i | 0 <= i < |s.books|
      ensures Moved(s.books[i], books[i], env.now, Loss(s, env, msg, i))
    {
      if i != a && i != d {
        assert SameMarket(s.books[i], books[i]);
      }
    }
  }

  lemma SameAssetMoves(b: Book, env: Env, c: LiquidationCall, t: Seizure, seized: Book, taken: nat, after: Book)
    requires SoundBook(b, env.now)
    requires t.repaid + t.refund == c.sent
    requires SeizeTokens(b.(cash := b.cash + c.sent), env, c, t.seized) == Ok(seized)
    requires taken == t.refund + if c.receiveMaToken then 0 else t.seized
    requires SettleDebt(seized, env, c.user, t.repaid, taken) == Ok(after)
    requires t.seized <= UnderlyingDown(BalanceOf(b.token, c.user), UpdatedLiquidityIndex(b.market, env.now).value)
    ensures Moved(b, after, env.now, ONE + if c.receiveMaToken then 0 else Accrued(b.market, env.now).liquidityIndex)
  {
    SameAssetLosesLess(b, env, c, t, seized, taken, after);
    SoundWithToken(b, b.token, b.cash + c.sent, env.now);
    SeizeTokensSound(b.(cash := b.cash + c.sent), env, c, t.seized);
    SettleIsPriced(seized, env, c.user, t.repaid, taken);
  }

  lemma DebtSideMoves(b: Book, env: Env, c: LiquidationCall, t: Seizure)
    requires SoundBook(b, env.now)
    requires t.repaid + t.refund == c.sent
    requires SettleDebt(b.(cash := b.cash + c.sent), env, c.user, t.repaid, t.refund).Ok?
    ensures Moved(b, SettleDebt(b.(cash := b.cash + c.sent), env, c.user, t.repaid, t.refund).value, env.now, ONE)
  {
    DebtSideLosesLessThanOne(b, env, c, t);
    SoundWithToken(b, b.token, b.cash + c.sent, env.now);
    SettleIsPriced(b.(cash := b.cash + c.sent), env, c.user, t.repaid, t.refund);
  }

  lemma LiquidateMoves(s: Ledger, env: Env, c: LiquidationCall)
    requires Sound(s) && env.now == s.time
    requires Liquidate(s, env, c).Ok?
    ensures AllMoved(s, Liquidate(s, env, c).value, env, MsgLiquidate(c))
  {
    LiquidationTermsFit(s, env, c);
    TermsSplitSent(s, env, c);
    var t := LiquidationTerms(s, env, c).value;
    if c.collateral == c.debt {
      var moved := SameAssetBooksMove(s, env, c, t);
      assert Liquidate(s, env, c).value.books == moved.books;
    } else {
      CrossAssetBooksMove(s, env, c, t);
    }
  }

  lemma WithdrawalTerms(s: Ledger, env: Env, who: Addr, a: AssetId, requested: Option<nat>)
    requires WithdrawTerms(s, env, who, a, requested).Ok?
    ensures a < |s.books|
    ensures UnderlyingLiquidity(BalanceOf(s.books[a].token, who), s.books[a].market, env.now)
         == Ok(WithdrawTerms(s, env, who, a, requested).value.balance)
  {
  }

  lemma UpdatedRatesMove(b: Book, env: Env, p: AssetParams)
    requires SoundBook(b, env.now)
    requires AccrueBook(b, env).Ok?
    requires WithParams(AccrueBook(b, env).value.market, p, env.now).Ok?
    requires var b1 := AccrueBook(b, env).value;
             RepriceAndPay(b1.(market := WithParams(b1.market, p, env.now).value), 0, env.now).Ok?
    ensures var b1 := AccrueBook(b, env).value;
            Moved(b, RepriceAndPay(b1.(market := WithParams(b1.market, p, env.now).value), 0, env.now).value, env.now, 0)
  {
    AccrueKeepsSurplus(b, env);
    AccrueBookSound(b, env);
    var b1 := AccrueBook(b, env).value;
    var b2 := b1.(market := WithParams(b1.market, p, env.now).value);
    WithParamsSound(b1, p, env.now, env.now);
    RepricedIsPriced(b2, 0, env.now);
    PaidOut(b2, 0, env.now);
    var after := RepriceAndPay(b2, 0, env.now).value;
    PricedAfterPayout(after, after.cash, after.token);
  }

  lemma UpdateAssetMoves(s: Ledger, env: Env, a: AssetId, p: AssetParams)
    requires Sound(s) && env.now == s.time
    requires UpdateAsset(s, env, a, p).Ok?
    ensures AllMoved(s, UpdateAsset(s, env, a, p).value, env, MsgUpdateAsset(a, p))
  {
    var b := s.books[a];
    var t := UpdateAsset(s, env, a, p).value;
    if (p.reserveFactor.Some? && p.reserveFactor.value != b.market.reserveFactor) || p.model.Some? {
      UpdatedRatesMove(b, env, p);
    }
    OneBookMoves(s, t, env, MsgUpdateAsset(a, p), a, t.books[a]);
  }

  lemma WithdrawMsgMoves(s: Ledger, env: Env, u: Addr, a: AssetId, requested: Option<nat>)
    requires Sound(s) && env.now == s.time
    requires Withdraw(s, env, u, a, requested).Ok?
    ensures AllMoved(s, Withdraw(s, env, u, a, requested).value, env, MsgWithdraw(u, a, requested))
  {
    WithdrawTermsFit(s, env, u, a, requested);
    WithdrawalTerms(s, env, u, a, requested);
    var w := WithdrawTerms(s, env, u, a, requested).value;
    WithdrawMoves(s.books[a], env, u, w.balance, w.amount);
    var t := Withdraw(s, env, u, a, requested).value;
    OneBookMoves(s, t, env, MsgWithdraw(u, a, requested), a, t.books[a]);
  }

  lemma RepayMsgMoves(s: Ledger, env: Env, sender: Addr, other: Option<Addr>, a: AssetId, amount: nat)
    requires Sound(s) && env.now == s.time
    requires Repay(s, env, sender, other, a, amount).Ok?
    ensures AllMoved(s, Repay(s, env, sender, other, a, amount).value, env, MsgRepay(sender, other, a, amount))
  {
    RepayMoves(s.books[a], env, Beneficiary(s.books[a], sender, other).value, amount);
    var t := Repay(s, env, sender, other, a, amount).value;
    OneBookMoves(s, t, env, MsgRepay(sender, other, a, amount), a, t.books[a]);
  }

  lemma DepositOrBorrowMoves(s: Ledger, env: Env, msg: Msg)
    requires Sound(s) && env.now == s.time
    requires msg.MsgDeposit? || msg.MsgBorrow?
    requires Handle(s, env, msg).Ok?
    ensures AllMoved(s, Handle(s, env, msg).value, env, msg)
  {
    if msg.MsgDeposit? {
      DepositMoves(s.books[msg.asset], env, msg.user, msg.amount);
    } else {
      BorrowMoves(s.books[msg.asset], env, msg.user, msg.amount);
    }
    var t := Handle(s, env, msg).value;
    OneBookMoves(s, t, env, msg, msg.asset, t.books[msg.asset]);
  }

  lemma OtherMessagesMoveNothing(s: Ledger, env: Env, msg: Msg)
    requires msg.MsgInitAsset? || msg.MsgUpdateLoanLimit? || msg.MsgUpdateCloseFactor?
             || msg.MsgSetCollateralStatus? || msg.MsgTransferToken? || msg.MsgDonate?
    requires Handle(s, env, msg).Ok?
    ensures AllMoved(s, Handle(s, env, msg).value, env, msg)
  {
    var t := Handle(s, env, msg).value;
    forall i | 0 <= i < |s.books|
      ensures Moved(s.books[i], t.books[i], env.now, Loss(s, env, msg, i))
    {
      assert SameMarket(s.books[i], t.books[i]);
    }
  }

  lemma HandleMoves(s: Ledger, env: Env, msg: Msg)
    requires Sound(s) && env.now == s.time
    requires Handle(s, env, msg).Ok?
    ensures AllMoved(s, Handle(s, env, msg).value, env, msg)
  {
    match msg
    case MsgUpdateAsset(a, p) => UpdateAssetMoves(s, env, a, p);
    case MsgDeposit(_, _, _) => DepositOrBorrowMoves(s, env, msg);
    case MsgWithdraw(u, a, requested) => WithdrawMsgMoves(s, env, u, a, requested);
    case MsgBorrow(_, _, _) => DepositOrBorrowMoves(s, env, msg);
    case MsgRepay(sender, other, a, amount) => RepayMsgMoves(s, env, sender, other, a, amount);
    case MsgLiquidate(c) => LiquidateMoves(s, env, c);
    case _ => OtherMessagesMoveNothing(s, env, msg);
  }

  // ---------- runs ----------

  /** What the last transaction of a run may have cost market `i`. Interest is charged for the whole
      period since the market's last accrual, once it is accrued. */
  function TxLoss(before: Ledger, tx: Tx, i: AssetId, slack: nat): nat {
    var timed := before.(time := if tx.env.now > before.time then tx.env.now else before.time);
    var env := tx.env.(now := timed.time);
    var r := Handle(timed, env, tx.msg);
    if r.Err? || i >= |before.books| || i >= |r.value.books| then 0
    else
      var b, after := before.books[i], r.value.books[i];
      Loss(timed, env, tx.msg, i) * ONE * ONE
      + if after.market.indexesLastUpdated == b.market.indexesLastUpdated then 0
        else InterestLoss(b, slack, env.now)
  }

  /** The deficit in UNITs that a counted loss can amount to. */
  function Deficit(loss: nat): nat {
    loss / (ONE * ONE)
  }

  /** A state, and what the run up to it may have cost market `i`; one in UNITs counts ONE * ONE. */
  datatype Tally = Tally(ledger: Ledger, loss: nat)

  /** Each period of interest is charged with the deficit there may have been before it. */
  function TallyStep(before: Tally, tx: Tx, i: AssetId): Tally {
    Tally(Step(before.ledger, tx.env, tx.msg),
          before.loss + TxLoss(before.ledger, tx, i, ONE + Deficit(before.loss)))
  }

  function RunTally(s: Ledger, txs: seq<Tx>, i: AssetId): Tally {
    if txs == [] then Tally(s, 0) else TallyStep(RunTally(s, txs[..|txs| - 1], i), txs[|txs| - 1], i)
  }

  lemma {:induction false} TallyFollowsRun(s: Ledger, txs: seq<Tx>, i: AssetId)
    ensures RunTally(s, txs, i).ledger == Run(s, txs)
  {
    if txs != [] {
      TallyFollowsRun(s, txs[..|txs| - 1], i);
    }
  }

  /** Nothing checks the reserve factor of a new asset. */
  predicate SensibleReserve(msg: Msg) {
    msg.MsgInitAsset? && msg.params.reserveFactor.Some? ==> msg.params.reserveFactor.value <= ONE
  }

  /** A market's deficit is covered by `loss`, and its rates are funded in spite of it. */
  ghost predicate SolventUpTo(b: Book, loss: nat) {
    Stored(b) * ONE * ONE >= -(loss as int) && Funded(b, ONE + Deficit(loss))
  }

  lemma DeficitBound(stored: int, loss: nat)
    requires stored * ONE * ONE >= -(loss as int)
    ensures stored >= -(Deficit(loss) as int)
  {
    if stored < 0 {
      FloorAtLeast(loss, ONE * ONE, -stored);
    }
  }

  lemma DeficitGrows(loss: nat, more: nat)
    ensures Deficit(loss) <= Deficit(loss + more)
  {
    FloorMonotone(loss, loss + more, ONE * ONE);
  }

  lemma SolventUpToMore(b: Book, loss: nat, more: nat)
    requires SolventUpTo(b, loss)
    ensures SolventUpTo(b, loss + more)
  {
    DeficitGrows(loss, more);
    FundedWithMore(b, ONE + Deficit(loss), ONE + Deficit(loss + more));
  }

  /** What a message costs a market whose loss so far is `loss`. */
  function StepLoss(b: Book, after: Book, now: nat, msgLoss: nat, loss: nat): nat {
    msgLoss * ONE * ONE
    + if after.market.indexesLastUpdated == b.market.indexesLastUpdated then 0
      else InterestLoss(b, ONE + Deficit(loss), now)
  }

  lemma SameMarketStaysSolvent(b: Book, after: Book, loss: nat)
    requires SameMarket(b, after) && SolventUpTo(b, loss)
    ensures SolventUpTo(after, loss)
  {
    MoreCash(b, after.cash, b.market.indexesLastUpdated);
  }

  lemma RepricedStaysSolvent(b: Book, after: Book, now: nat, msgLoss: nat, loss: nat)
    requires b.market.indexesLastUpdated <= now == after.market.indexesLastUpdated
    requires Priced(after) && Surplus(after, now) >= Surplus(b, now) - msgLoss
    requires SolventUpTo(b, loss)
    ensures SolventUpTo(after, loss + StepLoss(b, after, now, msgLoss, loss))
  {
    var total := loss + StepLoss(b, after, now, msgLoss, loss);
    TimeCostsOnlyRounding(b, ONE + Deficit(loss), now);
    SurplusWhenCurrent(after, now);
    assert Stored(after) * ONE * ONE >= -(total as int);
    DeficitBound(Stored(after), total);
    PricedIsFunded(after, Deficit(total));
  }

  lemma MovedStaysSolvent(b: Book, after: Book, now: nat, msgLoss: nat, loss: nat)
    requires b.market.indexesLastUpdated <= now
    requires Moved(b, after, now, msgLoss)
    requires SolventUpTo(b, loss)
    ensures SolventUpTo(after, loss + StepLoss(b, after, now, msgLoss, loss))
  {
    if SameMarket(b, after) {
      SameMarketStaysSolvent(b, after, loss);
      SolventUpToMore(after, loss, StepLoss(b, after, now, msgLoss, loss));
    } else {
      RepricedStaysSolvent(b, after, now, msgLoss, loss);
    }
  }

  lemma NewMarketIsSolvent(s: Ledger, env: Env, p: AssetParams, loss: nat)
    requires InitAsset(s, env, p).Ok?
    requires SensibleReserve(MsgInitAsset(p))
    ensures SolventUpTo(InitAsset(s, env, p).value.books[|s.books|], loss)
  {
    var b := InitAsset(s, env, p).value.books[|s.books|];
    assert Claims(b) == 0 && b.market.liquidityRate == 0;
    assert b.market.liquidityRate * Claims(b) * ONE == 0;
  }

  /** The market after a transaction, and what it cost. */
  lemma BookAfterStep(s: Ledger, tx: Tx, i: AssetId, loss: nat)
    returns (after: Book, now: nat, msgLoss: nat, cost: nat)
    requires Sound(s) && i < |s.books|
    ensures i < |Step(s, tx.env, tx.msg).books| && after == Step(s, tx.env, tx.msg).books[i]
    ensures cost == TxLoss(s, tx, i, ONE + Deficit(loss))
    ensures after == s.books[i] || CostOf(s.books[i], after, now, msgLoss, loss, cost)
  {
    var timed := s.(time := if tx.env.now > s.time then tx.env.now else s.time);
    var env := tx.env.(now := timed.time);
    TimePasses(s, timed.time);
    after, now, msgLoss := s.books[i], timed.time, Loss(timed, env, tx.msg, i);
    cost := TxLoss(s, tx, i, ONE + Deficit(loss));
    var r := Handle(timed, env, tx.msg);
    if r.Ok? {
      HandleMoves(timed, env, tx.msg);
      HandleKeepsTime(timed, env, tx.msg);
      assert SoundBook(timed.books[i], timed.time);
      after := r.value.books[i];
    }
  }

  ghost predicate CostOf(b: Book, after: Book, now: nat, msgLoss: nat, loss: nat, cost: nat) {
    && b.market.indexesLastUpdated <= now
    && Moved(b, after, now, msgLoss)
    && cost == StepLoss(b, after, now, msgLoss, loss)
  }

  lemma CostCoversStep(b: Book, after: Book, now: nat, msgLoss: nat, loss: nat, cost: nat)
    returns (total: nat)
    requires after == b || CostOf(b, after, now, msgLoss, loss, cost)
    requires SolventUpTo(b, loss)
    ensures total == loss + cost && SolventUpTo(after, total)
  {
    total := loss + cost;
    if after == b {
      SolventUpToMore(b, loss, cost);
    } else {
      MovedStaysSolvent(b, after, now, msgLoss, loss);
    }
  }

  lemma OldMarketStaysSolvent(s: Ledger, tx: Tx, i: AssetId, loss: nat) returns (after: Book, total: nat)
    requires Sound(s) && i < |s.books| && SolventUpTo(s.books[i], loss)
    ensures i < |Step(s, tx.env, tx.msg).books| && after == Step(s, tx.env, tx.msg).books[i]
    ensures total == loss + TxLoss(s, tx, i, ONE + Deficit(loss))
    ensures SolventUpTo(after, total)
  {
    var now, msgLoss, cost;
    after, now, msgLoss, cost := BookAfterStep(s, tx, i, loss);
    total := CostCoversStep(s.books[i], after, now, msgLoss, loss, cost);
  }

  ghost predicate MarketSolvent(s: Ledger, i: AssetId, loss: nat) {
    i < |s.books| ==> SolventUpTo(s.books[i], loss)
  }

  lemma NoSuchMarketYet(s: Ledger, tx: Tx, i: AssetId, loss: nat) returns (after: Ledger)
    requires SensibleReserve(tx.msg) && i >= |s.books|
    ensures after == Step(s, tx.env, tx.msg)
    ensures TxLoss(s, tx, i, ONE + Deficit(loss)) == 0
    ensures MarketSolvent(after, i, loss)
  {
    after := Step(s, tx.env, tx.msg);
    var timed := s.(time := if tx.env.now > s.time then tx.env.now else s.time);
    var env := tx.env.(now := timed.time);
    if Handle(timed, env, tx.msg).Ok? && i < |Handle(timed, env, tx.msg).value.books| {
      OnlyInitAdds(timed, env, tx.msg);
      NewMarketIsSolvent(timed, env, tx.msg.params, loss);
    }
  }

  lemma StepStaysSolvent(before: Tally, tx: Tx, i: AssetId) returns (after: Tally)
    requires Sound(before.ledger)
    requires SensibleReserve(tx.msg)
    requires MarketSolvent(before.ledger, i, before.loss)
    ensures after == TallyStep(before, tx, i)
    ensures MarketSolvent(after.ledger, i, after.loss)
  {
    if i < |before.ledger.books| {
      var b, total := OldMarketStaysSolvent(before.ledger, tx, i, before.loss);
      after := Tally(Step(before.ledger, tx.env, tx.msg), total);
    } else {
      var t := NoSuchMarketYet(before.ledger, tx, i, before.loss);
      after := Tally(t, before.loss);
    }
  }

  lemma OnlyInitAdds(s: Ledger, env: Env, msg: Msg)
    requires Handle(s, env, msg).Ok?
    ensures |Handle(s, env, msg).value.books| == |s.books| || (msg.MsgInitAsset? && |Handle(s, env, msg).value.books| == |s.books| + 1)
  {
    match msg
    case MsgWithdraw(_, _, _) =>
    case MsgBorrow(_, _, _) =>
    case MsgRepay(_, _, _, _) =>
    case MsgLiquidate(_) =>
    case MsgTransferToken(_, _, _, _) =>
    case _ =>
  }

  /** Every market of every run from a fresh contract: the counted roundings bound any deficit of cash and
      debt against the claims of token holders. */
  lemma {:induction false} EveryRunIsSolvent(s: Ledger, txs: seq<Tx>, i: AssetId) returns (end: Tally)
    requires Fresh(s)
    requires forall k :: 0 <= k < |txs| ==> SensibleReserve(txs[k].msg)
    ensures end == RunTally(s, txs, i) && end.ledger == Run(s, txs)
    ensures MarketSolvent(end.ledger, i, end.loss)
  {
    TallyFollowsRun(s, txs, i);
    if txs == [] {
      end := Tally(s, 0);
    } else {
      var before := EveryRunIsSolvent(s, txs[..|txs| - 1], i);
      EveryRunIsSound(s, txs[..|txs| - 1]);
      end := StepStaysSolvent(before, txs[|txs| - 1], i);
    }
  }

  lemma SolventLater(b: Book, loss: nat, later: nat)
    requires SolventUpTo(b, loss) && b.market.indexesLastUpdated <= later
    ensures Surplus(b, later) * ONE * ONE >= -((loss + InterestLoss(b, ONE + Deficit(loss), later)) as int)
  {
    TimeCostsOnlyRounding(b, ONE + Deficit(loss), later);
  }

  /** And so it remains while interest runs on after the last transaction. */
  lemma SolventWhileTimePasses(s: Ledger, txs: seq<Tx>, i: AssetId, later: nat) returns (b: Book, loss: nat)
    requires Fresh(s)
    requires forall k :: 0 <= k < |txs| ==> SensibleReserve(txs[k].msg)
    requires i < |Run(s, txs).books| && Run(s, txs).time <= later
    ensures b == Run(s, txs).books[i] && loss == RunTally(s, txs, i).loss
    ensures Surplus(b, later) * ONE * ONE >= -((loss + InterestLoss(b, ONE + Deficit(loss), later)) as int)
  {
    var end := EveryRunIsSolvent(s, txs, i);
    EveryRunIsSound(s, txs);
    assert SoundBook(end.ledger.books[i], end.ledger.time);
    b, loss := end.ledger.books[i], end.loss;
    SolventLater(b, loss, later);
  }
}
