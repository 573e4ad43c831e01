/** Over every run with a close factor below one, the borrowed map shows exactly the positive debts. */
module ExactRuns {
  import opened Base
  import opened FixedPoint
  import opened MaToken
  import opened Position
  import opened Ledger
  import opened Invariants
  import opened Runs
  import opened Reachability

  ghost predicate SameDebtAmounts(s: Ledger, t: Ledger) {
    && |s.books| <= |t.books|
    && (forall i, a :: 0 <= i < |s.books| ==>
                         DebtOf(t.books[i], a).amountScaled == DebtOf(s.books[i], a).amountScaled)
  }

  lemma ExactWithSameDebts(s: Ledger, t: Ledger)
    requires Sound(s) && Exact(s)
    requires SameDebtAmounts(s, t) && SameBorrowed(s.users, t.users)
    ensures Exact(t)
  {
    forall i, a | 0 <= i < |t.books| && i in UserOf(t.users, a).borrowed
      ensures DebtOf(t.books[i], a).amountScaled > 0
    {
      assert Flags(UserOf(s.users, a), i);
    }
  }

  lemma DepositExact(s: Ledger, env: Env, user: Addr, a: AssetId, amount: nat)
    requires Sound(s) && Exact(s) && env.now == s.time
    requires Deposit(s, env, user, a, amount).Ok?
    ensures Exact(Deposit(s, env, user, a, amount).value)
  {
    DepositedBookSound(s.books[a], env, user, amount);
    WithCollateralFrame(s.users, user, a);
    ExactWithSameDebts(s, Deposit(s, env, user, a, amount).value);
  }

  lemma WithdrawExact(s: Ledger, env: Env, who: Addr, a: AssetId, requested: Option<nat>)
    requires Sound(s) && Exact(s) && env.now == s.time
    requires Withdraw(s, env, who, a, requested).Ok?
    ensures Exact(Withdraw(s, env, who, a, requested).value)
  {
    WithdrawTermsFit(s, env, who, a, requested);
    var w := WithdrawTerms(s, env, who, a, requested).value;
    WithdrawnBookSound(s.books[a], env, who, w.balance, w.amount);
    WithoutCollateralFrame(s.users, who, a);
    ExactWithSameDebts(s, Withdraw(s, env, who, a, requested).value);
  }

  lemma TransferTokenExact(s: Ledger, env: Env, a: AssetId, from: Addr, to: Addr, amount: nat)
    requires Sound(s) && Exact(s)
    requires TransferToken(s, env, a, from, to, amount).Ok?
    ensures Exact(TransferToken(s, env, a, from, to, amount).value)
  {
    var after, users := TransferParts(s, env, a, from, to, amount);
    var b := s.books[a];
    var bits := TransferBits(s.users, a, from, to, BalanceOf(b.token, from) == amount, BalanceOf(b.token, to) == 0);
    ExactWithSameDebts(s, s.(books := s.books[a := after], users := users));
  }

  lemma SetCollateralStatusExact(s: Ledger, env: Env, who: Addr, a: AssetId, enable: bool)
    requires Sound(s) && Exact(s)
    requires SetCollateralStatus(s, env, who, a, enable).Ok?
    ensures Exact(SetCollateralStatus(s, env, who, a, enable).value)
  {
    WithCollateralFrame(s.users, who, a);
    WithoutCollateralFrame(s.users, who, a);
    ExactWithSameDebts(s, SetCollateralStatus(s, env, who, a, enable).value);
  }

  lemma UpdateAssetExact(s: Ledger, env: Env, a: AssetId, p: AssetParams)
    requires Sound(s) && Exact(s)
    requires UpdateAsset(s, env, a, p).Ok?
    ensures Exact(UpdateAsset(s, env, a, p).value)
  {
    UpdatedKeepsDebts(s.books[a], env, p);
    ExactWithSameDebts(s, UpdateAsset(s, env, a, p).value);
  }

  lemma UpdatedKeepsDebts(b: Book, env: Env, p: AssetParams)
    requires UpdatedAsset(b, env, p).Ok?
    ensures UpdatedAsset(b, env, p).value.debts == b.debts
  {
  }

  lemma InitAssetExact(s: Ledger, env: Env, p: AssetParams)
    requires Sound(s) && Exact(s)
    requires InitAsset(s, env, p).Ok?
    ensures Exact(InitAsset(s, env, p).value)
  {
    ExactWithSameDebts(s, InitAsset(s, env, p).value);
  }

  lemma UpdateLoanLimitExact(s: Ledger, user: Addr, a: AssetId, limit: nat)
    requires Sound(s) && Exact(s)
    requires UpdateLoanLimit(s, user, a, limit).Ok?
    ensures Exact(UpdateLoanLimit(s, user, a, limit).value)
  {
    ExactWithSameDebts(s, UpdateLoanLimit(s, user, a, limit).value);
  }

  lemma DonateExact(s: Ledger, a: AssetId, amount: nat)
    requires Sound(s) && Exact(s)
    requires Donate(s, a, amount).Ok?
    ensures Exact(Donate(s, a, amount).value)
  {
    ExactWithSameDebts(s, Donate(s, a, amount).value);
  }

  lemma StepExact(s: Ledger, env: Env, msg: Msg)
    requires Sound(s) && Exact(s) && s.closeFactor < ONE
    ensures Exact(Step(s, env, msg))
  {
    var timed := s.(time := if env.now > s.time then env.now else s.time);
    TimePasses(s, timed.time);
    var at := env.(now := timed.time);
    if Handle(timed, at, msg).Ok? {
      match msg
      case MsgDeposit(u, a, amount) => DepositExact(timed, at, u, a, amount);
      case MsgWithdraw(u, a, requested) => WithdrawExact(timed, at, u, a, requested);
      case MsgBorrow(u, a, amount) => BorrowExact(timed, at, u, a, amount);
      case MsgRepay(sender, other, a, amount) => RepayExact(timed, at, sender, other, a, amount);
      case MsgLiquidate(c) => LiquidateExact(timed, at, c);
      case MsgTransferToken(a, from, to, amount) => TransferTokenExact(timed, at, a, from, to, amount);
      case MsgSetCollateralStatus(u, a, enable) => SetCollateralStatusExact(timed, at, u, a, enable);
      case MsgUpdateAsset(a, p) => UpdateAssetExact(timed, at, a, p);
      case MsgInitAsset(p) => InitAssetExact(timed, at, p);
      case MsgUpdateLoanLimit(u, a, limit) => UpdateLoanLimitExact(timed, u, a, limit);
      case MsgUpdateCloseFactor(f) =>
      case MsgDonate(a, amount) => DonateExact(timed, a, amount);
    }
  }

  /** The close factor of a contract changes only by the message for it. */
  lemma CloseFactorFrame(s: Ledger, env: Env, msg: Msg)
    ensures Step(s, env, msg).closeFactor == if msg.MsgUpdateCloseFactor? && msg.closeFactor <= ONE then msg.closeFactor else s.closeFactor
  {
  }

  /** A close factor of one is what breaks this: see FullLiquidationLeavesBit. */
  lemma {:induction false} EveryRunIsExact(s: Ledger, txs: seq<Tx>)
    requires Fresh(s) && s.closeFactor < ONE
    requires forall i :: 0 <= i < |txs| && txs[i].msg.MsgUpdateCloseFactor? ==> txs[i].msg.closeFactor < ONE
    ensures Run(s, txs).closeFactor < ONE && Exact(Run(s, txs))
  {
    if txs != [] {
      var before := txs[..|txs| - 1];
      EveryRunIsExact(s, before);
      EveryRunIsSound(s, before);
      var last := txs[|txs| - 1];
      StepExact(Run(s, before), last.env, last.msg);
      CloseFactorFrame(Run(s, before), last.env, last.msg);
    }
  }
}
