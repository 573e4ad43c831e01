/** No period is charged a rate that was not in force: whoever changes a market's rates has charged the
    time since its last update at the old ones first, and indexes never fall. */
module RateDiscipline {
  import opened Base
  import opened RateModels
  import opened InterestRates
  import opened Position
  import opened Ledger
  import opened Invariants
  import opened Runs

  /** The market's rates and the indexes they accrue to are as they were. */
  predicate SameRates(m: Market, after: Market) {
    && after.borrowRate == m.borrowRate && after.liquidityRate == m.liquidityRate
    && after.borrowIndex == m.borrowIndex && after.liquidityIndex == m.liquidityIndex
    && after.indexesLastUpdated == m.indexesLastUpdated
    && after.model == m.model
  }

  /** The indexes have been brought up to `now` at the rates of `m`, whatever rates are set from here on. */
  predicate IndexesCharged(m: Market, after: Market, now: nat) {
    && after.borrowIndex == Accrued(m, now).borrowIndex
    && after.liquidityIndex == Accrued(m, now).liquidityIndex
    && after.indexesLastUpdated == Accrued(m, now).indexesLastUpdated
  }

  /** A rate under a dynamic model has moved only if the same model was last updated in an earlier block,
      and then to within its bounds. */
  predicate RateStepped(m: Market, after: Market, now: nat) {
    after.model.Dynamic? && after.borrowRate != m.borrowRate ==>
      var p := after.model.params;
      && m.model.Dynamic? && m.model.params == p
      && m.model.lastUpdated < now == after.model.lastUpdated
      && (DynamicModelParams(p).Valid() ==> p.minBorrowRate <= after.borrowRate <= p.maxBorrowRate)
  }

  predicate ChargedUpTo(m: Market, after: Market, now: nat) {
    IndexesCharged(m, after, now) && RateStepped(m, after, now)
  }

  /** Interest has been charged and the rate is the old one, under the old model or a new one. */
  predicate ReadyToReprice(m: Market, changed: Market, now: nat) {
    && IndexesCharged(m, changed, now)
    && changed.borrowRate == m.borrowRate
    && (changed.model == m.model || (changed.model.Dynamic? ==> changed.model.lastUpdated == now))
  }

  predicate Disciplined(b: Book, after: Book, now: nat) {
    SameRates(b.market, after.market) || ChargedUpTo(b.market, after.market, now)
  }

  // ---------- the parts of a message ----------

  lemma AccruedThenRepriced(b: Book, env: Env, changed: Book, taken: nat)
    requires AccrueBook(b, env).Ok?
    requires ReadyToReprice(b.market, changed.market, env.now)
    requires RepriceAndPay(changed, taken, env.now).Ok?
    ensures ChargedUpTo(b.market, RepriceAndPay(changed, taken, env.now).value.market, env.now)
  {
    RepricedFrame(changed.market, changed.cash, taken, env.now);
    RepricedSteps(changed.market, changed.cash, taken, env.now);
  }

  lemma RepricedSteps(m: Market, cash: nat, taken: nat, now: nat)
    requires Repriced(m, cash, taken, now).Ok?
    ensures RateStepped(m, Repriced(m, cash, taken, now).value, now)
    ensures Repriced(m, cash, taken, now).value.model.Dynamic? <==> m.model.Dynamic?
    ensures m.model.Dynamic? ==> Repriced(m, cash, taken, now).value.model.params == m.model.params
  {
    if m.model.Dynamic? {
      DynamicRateMoves(m.model.params, m.model.txsSinceUpdate, m.model.lastUpdated,
                       Utilization(cash - taken, UnderlyingDebt(m.debtTotalScaled, m, now)), m.borrowRate, now);
    }
  }

  lemma DepositDisciplined(b: Book, env: Env, user: Addr, amount: nat)
    requires DepositedBook(b, env, user, amount).Ok?
    ensures ChargedUpTo(b.market, DepositedBook(b, env, user, amount).value.market, env.now)
  {
    var paid := b.(cash := b.cash + amount);
    AccruedThenRepriced(paid, env, AccrueBook(paid, env).value, 0);
  }

  lemma WithdrawDisciplined(b: Book, env: Env, who: Addr, balance: nat, amount: nat)
    requires amount <= balance && WithdrawnBook(b, env, who, balance, amount).Ok?
    ensures ChargedUpTo(b.market, WithdrawnBook(b, env, who, balance, amount).value.market, env.now)
  {
    AccruedThenRepriced(b, env, AccrueBook(b, env).value, amount);
  }

  lemma BorrowDisciplined(b: Book, env: Env, who: Addr, amount: nat)
    requires BorrowedBook(b, env, who, amount).Ok?
    ensures ChargedUpTo(b.market, BorrowedBook(b, env, who, amount).value.market, env.now)
  {
    AccruedThenRepriced(b, env, RaiseDebt(AccrueBook(b, env).value, who, amount, env.now), amount);
  }

  lemma RepayDisciplined(b: Book, env: Env, who: Addr, amount: nat)
    requires RepaidBook(b, env, who, amount).Ok?
    ensures ChargedUpTo(b.market, RepaidBook(b, env, who, amount).value.market, env.now)
  {
    var accrued, left, lowered, repriced, refund := RepaidBookParts(b, env, who, amount);
    AccruedThenRepriced(b, env, lowered.(cash := lowered.cash + amount), 0);
  }

  lemma SettleDisciplined(b: Book, env: Env, who: Addr, repaid: nat, taken: nat)
    requires SettleDebt(b, env, who, repaid, taken).Ok?
    ensures ChargedUpTo(b.market, SettleDebt(b, env, who, repaid, taken).value.market, env.now)
  {
    var owed := UnderlyingDebt(DebtOf(b, who).amountScaled, b.market, env.now);
    var b2 := LowerDebt(AccrueBook(b, env).value, who, owed - repaid, env.now).value;
    AccruedThenRepriced(b, env, b2, taken);
  }

  lemma SeizureKeepsMarket(b: Book, env: Env, c: LiquidationCall, seized: nat)
    requires SeizeTokens(b, env, c, seized).Ok?
    ensures SeizeTokens(b, env, c, seized).value.market == b.market
  {
  }

  lemma CollateralDisciplined(b: Book, env: Env, c: LiquidationCall, seized: nat)
    requires CollateralAfter(b, env, c, seized).Ok?
    ensures Disciplined(b, CollateralAfter(b, env, c, seized).value, env.now)
  {
    SeizureKeepsMarket(b, env, c, seized);
    if !c.receiveMaToken {
      var c1 := SeizeTokens(b, env, c, seized).value;
      AccruedThenRepriced(c1, env, AccrueBook(c1, env).value, seized);
    }
  }

  lemma SingleMarketDisciplined(b: Book, env: Env, c: LiquidationCall, t: Seizure)
    requires SingleMarketAfter(b, env, c, t).Ok?
    ensures ChargedUpTo(b.market, SingleMarketAfter(b, env, c, t).value.market, env.now)
  {
    var b0 := b.(cash := b.cash + c.sent);
    SeizureKeepsMarket(b0, env, c, t.seized);
    SettleDisciplined(SeizeTokens(b0, env, c, t.seized).value, env, c.user, t.repaid, LeavingWith(c, t));
  }

  lemma ParamsDisciplined(b: Book, env: Env, p: AssetParams)
    requires AccrueBook(b, env).Ok?
    requires WithParams(AccrueBook(b, env).value.market, p, env.now).Ok?
    requires var b1 := AccrueBook(b, env).value;
             RepriceAndPay(b1.(market := WithParams(b1.market, p, env.now).value), 0, env.now).Ok?
    ensures var b1 := AccrueBook(b, env).value;
            var after := RepriceAndPay(b1.(market := WithParams(b1.market, p, env.now).value), 0, env.now).value;
            ChargedUpTo(b.market, after.market, env.now)
  {
    var b1 := AccrueBook(b, env).value;
    AccruedThenRepriced(b, env, b1.(market := WithParams(b1.market, p, env.now).value), 0);
  }

  // ---------- every message ----------

  ghost predicate AllDisciplined(s: Ledger, t: Ledger, now: nat) {
    && |s.books| <= |t.books|
    && (forall i :: 0 <= i < |s.books| ==> Disciplined(s.books[i], t.books[i], now))
  }

  lemma OneMarketLiquidation(books: seq<Book>, env: Env, c: LiquidationCall, t: Seizure) returns (after: Book)
    requires c.collateral == c.debt < |books| && LiquidatedBooks(books, env, c, t).Ok?
    ensures LiquidatedBooks(books, env, c, t) == Ok(books[c.debt := after])
    ensures Disciplined(books[c.debt], after, env.now)
  {
    after := SingleMarketAfter(books[c.debt], env, c, t).value;
    SingleMarketDisciplined(books[c.debt], env, c, t);
  }

  lemma TwoMarketLiquidation(books: seq<Book>, env: Env, c: LiquidationCall, t: Seizure) returns (cb: Book, db: Book)
    requires c.collateral < |books| && c.debt < |books| && c.collateral != c.debt
    requires LiquidatedBooks(books, env, c, t).Ok?
    ensures LiquidatedBooks(books, env, c, t) == Ok(books[c.collateral := cb][c.debt := db])
    ensures Disciplined(books[c.collateral], cb, env.now) && Disciplined(books[c.debt], db, env.now)
  {
    cb, db := CrossAssetSides(books, env, c, t);
    CollateralDisciplined(books[c.collateral], env, c, t.seized);
    SettleDisciplined(books[c.debt].(cash := books[c.debt].cash + c.sent), env, c.user, t.repaid, t.refund);
  }

  lemma LiquidateDisciplined(s: Ledger, env: Env, c: LiquidationCall)
    requires Liquidate(s, env, c).Ok?
    ensures AllDisciplined(s, Liquidate(s, env, c).value, env.now)
  {
    LiquidationTermsFit(s, env, c);
    var t := LiquidationTerms(s, env, c).value;
    if c.collateral == c.debt {
      var _ := OneMarketLiquidation(s.books, env, c, t);
    } else {
      var _, _ := TwoMarketLiquidation(s.books, env, c, t);
    }
  }

  lemma UpdateAssetDisciplined(s: Ledger, env: Env, a: AssetId, p: AssetParams)
    requires UpdateAsset(s, env, a, p).Ok?
    ensures AllDisciplined(s, UpdateAsset(s, env, a, p).value, env.now)
  {
    var b := s.books[a];
    if (p.reserveFactor.Some? && p.reserveFactor.value != b.market.reserveFactor) || p.model.Some? {
      ParamsDisciplined(b, env, p);
    }
  }

  lemma WithdrawMsgDisciplined(s: Ledger, env: Env, who: Addr, a: AssetId, requested: Option<nat>)
    requires Withdraw(s, env, who, a, requested).Ok?
    ensures AllDisciplined(s, Withdraw(s, env, who, a, requested).value, env.now)
  {
    WithdrawTermsFit(s, env, who, a, requested);
    var w := WithdrawTerms(s, env, who, a, requested).value;
    WithdrawDisciplined(s.books[a], env, who, w.balance, w.amount);
  }

  lemma RepayMsgDisciplined(s: Ledger, env: Env, sender: Addr, other: Option<Addr>, a: AssetId, amount: nat)
    requires Repay(s, env, sender, other, a, amount).Ok?
    ensures AllDisciplined(s, Repay(s, env, sender, other, a, amount).value, env.now)
  {
    RepayDisciplined(s.books[a], env, Beneficiary(s.books[a], sender, other).value, amount);
  }

  lemma DepositMsgDisciplined(s: Ledger, env: Env, user: Addr, a: AssetId, amount: nat)
    requires Deposit(s, env, user, a, amount).Ok?
    ensures AllDisciplined(s, Deposit(s, env, user, a, amount).value, env.now)
  {
    DepositDisciplined(s.books[a], env, user, amount);
  }

  lemma BorrowMsgDisciplined(s: Ledger, env: Env, who: Addr, a: AssetId, amount: nat)
    requires Borrow(s, env, who, a, amount).Ok?
    ensures AllDisciplined(s, Borrow(s, env, who, a, amount).value, env.now)
  {
    BorrowDisciplined(s.books[a], env, who, amount);
  }

  /** Every handler either leaves a market's rates, indexes and time of update alone, or has brought the
      indexes up to date at the rates that were in force. */
  lemma HandleDisciplined(s: Ledger, env: Env, msg: Msg)
    requires Handle(s, env, msg).Ok?
    ensures AllDisciplined(s, Handle(s, env, msg).value, env.now)
  {
    match msg
    case MsgUpdateAsset(a, p) => UpdateAssetDisciplined(s, env, a, p);
    case MsgDeposit(u, a, amount) => DepositMsgDisciplined(s, env, u, a, amount);
    case MsgWithdraw(u, a, requested) => WithdrawMsgDisciplined(s, env, u, a, requested);
    case MsgBorrow(u, a, amount) => BorrowMsgDisciplined(s, env, u, a, amount);
    case MsgRepay(sender, other, a, amount) => RepayMsgDisciplined(s, env, sender, other, a, amount);
    case MsgLiquidate(c) => LiquidateDisciplined(s, env, c);
    case _ => OthersDisciplined(s, env, msg);
  }

  lemma OthersDisciplined(s: Ledger, env: Env, msg: Msg)
    requires msg.MsgInitAsset? || msg.MsgUpdateLoanLimit? || msg.MsgUpdateCloseFactor?
             || msg.MsgSetCollateralStatus? || msg.MsgTransferToken? || msg.MsgDonate?
    requires Handle(s, env, msg).Ok?
    ensures AllDisciplined(s, Handle(s, env, msg).value, env.now)
  {
    match msg
    case MsgTransferToken(_, _, _, _) =>
    case MsgSetCollateralStatus(_, _, _) =>
    case _ =>
  }

  /** What a transaction at `time` may do to a market: new rates only at the moment up to which interest
      has been charged, charges only as a query would have previewed them, and under a dynamic model a rate
      within its bounds and once in a block. */
  ghost predicate MarketCharged(m: Market, m': Market, time: nat) {
    && (m'.borrowRate != m.borrowRate || m'.liquidityRate != m.liquidityRate ==> m'.indexesLastUpdated == time)
    && (m'.indexesLastUpdated == m.indexesLastUpdated ==>
          m'.borrowIndex == m.borrowIndex && m'.liquidityIndex == m.liquidityIndex)
    && (m'.indexesLastUpdated != m.indexesLastUpdated ==>
          && m'.indexesLastUpdated == time
          && m'.borrowIndex == UpdatedBorrowIndex(m, time)
          && Ok(m'.liquidityIndex) == UpdatedLiquidityIndex(m, time))
    && m'.borrowIndex >= m.borrowIndex && m'.liquidityIndex >= m.liquidityIndex
    && RateStepped(m, m', time)
  }

  /** So it is for every market in every transaction of every run. */
  lemma RatesChangeOnlyWhenCharged(s: Ledger, txs: seq<Tx>, tx: Tx, i: nat)
    requires Fresh(s) && i < |Run(s, txs).books|
    ensures var after := Run(s, txs + [tx]);
            && i < |after.books|
            && MarketCharged(Run(s, txs).books[i].market, after.books[i].market, after.time)
            && (after.books[i].market.model.Dynamic? ==> DynamicModelParams(after.books[i].market.model.params).Valid())
  {
    assert (txs + [tx])[..|txs|] == txs;
    EveryRunIsSound(s, txs);
    assert SoundBook(Run(s, txs).books[i], Run(s, txs).time);
    StepCharges(Run(s, txs), tx, i);
    EveryRunIsSound(s, txs + [tx]);
    assert SoundBook(Run(s, txs + [tx]).books[i], Run(s, txs + [tx]).time);
  }

  lemma StepCharges(s: Ledger, tx: Tx, i: nat)
    requires i < |s.books| && s.books[i].market.indexesLastUpdated <= s.time
    ensures var t := Step(s, tx.env, tx.msg);
            && i < |t.books|
            && s.time <= t.time
            && MarketCharged(s.books[i].market, t.books[i].market, t.time)
  {
    var timed := s.(time := if tx.env.now > s.time then tx.env.now else s.time);
    var env := tx.env.(now := timed.time);
    PreviewEqualsCommit(s.books[i].market, timed.time);
    if Handle(timed, env, tx.msg).Ok? {
      HandleDisciplined(timed, env, tx.msg);
      HandleKeepsTime(timed, env, tx.msg);
      assert Disciplined(timed.books[i], Handle(timed, env, tx.msg).value.books[i], timed.time);
      DisciplinedIsCharged(timed.books[i], Handle(timed, env, tx.msg).value.books[i], timed.time);
    }
  }

  lemma DisciplinedIsCharged(b: Book, after: Book, now: nat)
    requires Disciplined(b, after, now) && b.market.indexesLastUpdated <= now
    ensures MarketCharged(b.market, after.market, now)
  {
    PreviewEqualsCommit(b.market, now);
  }
}
