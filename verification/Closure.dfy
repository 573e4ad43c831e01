/** Winding up a market: the holders of its liquidity token are paid out of what the contract holds, in
    proportion to what is left, and their tokens are burned. */
module Closure {
  import opened Base
  import opened FixedPoint
  import opened MaToken
  import opened Totals

  datatype Holding = Holding(owner: Addr, balance: nat)

  /** What a refund orders for one holder. */
  datatype Payout = Payout(owner: Addr, burned: nat, paid: nat)

  datatype Refunded = Refunded(payouts: seq<Payout>, pot: nat, supply: nat)

  /** `pot * balance / supply`, rounded down. */
  function Share(pot: nat, balance: nat, supply: nat): nat
    requires supply > 0
  {
    pot * balance / supply
  }

  /** The payouts to a batch of holders one after another, and what remains of pot and supply. */
  function Refund(pot: nat, supply: nat, holders: seq<Holding>): Result<Refunded> {
    if holders == [] then Ok(Refunded([], pot, supply))
    else
      var h := holders[|holders| - 1];
      var before :- Refund(pot, supply, holders[..|holders| - 1]);
      :- Need(before.supply > 0, DivideByZero);
      var paid := Share(before.pot, h.balance, before.supply);
      :- Need(paid <= before.pot && h.balance <= before.supply, Overflow);
      Ok(Refunded(before.payouts + [Payout(h.owner, h.balance, paid)], before.pot - paid, before.supply - h.balance))
  }

  function Held(holders: seq<Holding>): nat {
    if holders == [] then 0 else Held(holders[..|holders| - 1]) + holders[|holders| - 1].balance
  }

  function PaidOut(payouts: seq<Payout>): nat {
    if payouts == [] then 0 else PaidOut(payouts[..|payouts| - 1]) + payouts[|payouts| - 1].paid
  }

  /** Some supply is left before each holder's turn, and the holders own no more than all of it. */
  ghost predicate FitsSupply(supply: nat, holders: seq<Holding>) {
    Held(holders) <= supply && forall k :: 0 <= k < |holders| ==> Held(holders[..k]) < supply
  }

  /** A share of at most everything is at most the pot. */
  lemma ShareWithinPot(pot: nat, balance: nat, supply: nat)
    requires supply > 0 && balance <= supply
    ensures Share(pot, balance, supply) <= pot
    ensures balance == supply ==> Share(pot, balance, supply) == pot
  {
    MulMonotone(balance, supply, pot);
    FloorBelow(pot * balance, supply, pot + 1);
    if balance == supply {
      FloorAtLeast(pot * balance, supply, pot);
    }
  }

  lemma FitsStep(supply: nat, holders: seq<Holding>)
    requires holders != []
    ensures var rest := holders[..|holders| - 1];
            FitsSupply(supply, holders) <==>
              FitsSupply(supply, rest) && Held(rest) < supply && Held(rest) + holders[|holders| - 1].balance <= supply
  {
    var n := |holders| - 1;
    assert forall k :: 0 <= k < n ==> holders[..n][..k] == holders[..k];
    if FitsSupply(supply, holders) {
      assert Held(holders[..n]) < supply;
    }
  }

  lemma RefundStep(pot: nat, supply: nat, holders: seq<Holding>, before: Refunded)
    requires holders != []
    requires Refund(pot, supply, holders[..|holders| - 1]) == Ok(before)
    ensures var h := holders[|holders| - 1];
            && (Refund(pot, supply, holders).Ok? <==> before.supply > 0 && h.balance <= before.supply)
            && (Refund(pot, supply, holders).Ok? ==>
                  var paid := Share(before.pot, h.balance, before.supply);
                  && paid <= before.pot
                  && Refund(pot, supply, holders)
                  == Ok(Refunded(before.payouts + [Payout(h.owner, h.balance, paid)], before.pot - paid,
                                 before.supply - h.balance)))
  {
    var h := holders[|holders| - 1];
    if before.supply > 0 && h.balance <= before.supply {
      ShareWithinPot(before.pot, h.balance, before.supply);
    }
  }

  /** The payouts list the holders, each with the whole balance burned. */
  ghost predicate Orders(payouts: seq<Payout>, holders: seq<Holding>) {
    && |payouts| == |holders|
    && forall k :: 0 <= k < |holders| ==>
                     payouts[k].owner == holders[k].owner && payouts[k].burned == holders[k].balance
  }

  /** A batch can be refunded exactly when it fits the supply. */
  lemma {:induction false} RefundFits(pot: nat, supply: nat, holders: seq<Holding>)
    ensures Refund(pot, supply, holders).Ok? <==> FitsSupply(supply, holders)
    ensures Refund(pot, supply, holders).Ok? ==> Held(holders) + Refund(pot, supply, holders).value.supply == supply
  {
    if holders != [] {
      var rest := holders[..|holders| - 1];
      RefundFits(pot, supply, rest);
      FitsStep(supply, holders);
      if Refund(pot, supply, rest).Ok? {
        RefundStep(pot, supply, holders, Refund(pot, supply, rest).value);
      }
    }
  }

  /** What is paid and what remains make up the pot. */
  lemma {:induction false} RefundConserves(pot: nat, supply: nat, holders: seq<Holding>)
    requires Refund(pot, supply, holders).Ok?
    ensures var r := Refund(pot, supply, holders).value;
            PaidOut(r.payouts) + r.pot == pot && Orders(r.payouts, holders)
  {
    if holders != [] {
      var rest := holders[..|holders| - 1];
      RefundConserves(pot, supply, rest);
      var before := Refund(pot, supply, rest).value;
      RefundStep(pot, supply, holders, before);
      assert Refund(pot, supply, holders).value.payouts[..|rest|] == before.payouts;
    }
  }

  /** Paying a share rounded down leaves at least as much per remaining token as before. */
  lemma ShareKeepsRatio(pot: nat, supply: nat, balance: nat)
    requires supply > 0 && balance <= supply
    ensures Share(pot, balance, supply) <= pot
    ensures (pot - Share(pot, balance, supply)) * supply >= pot * (supply - balance)
  {
    var paid := Share(pot, balance, supply);
    ShareWithinPot(pot, balance, supply);
    FloorBounds(pot * balance, supply);
    DifferenceOfProducts(pot, paid, supply);
    assert pot * (supply - balance) == pot * supply - pot * balance;
  }

  lemma RatioChains(pot: nat, supply: nat, pot1: nat, supply1: nat, pot2: nat, supply2: nat)
    requires supply1 > 0
    requires pot1 * supply >= pot * supply1
    requires pot2 * supply1 >= pot1 * supply2
    ensures pot2 * supply >= pot * supply2
  {
    MulMonotone(pot1 * supply2, pot2 * supply1, supply);
    MulMonotone(pot * supply1, pot1 * supply, supply2);
    assert (pot1 * supply2) * supply == (pot1 * supply) * supply2;
    assert (pot2 * supply1) * supply == (pot2 * supply) * supply1;
    assert (pot * supply1) * supply2 == (pot * supply2) * supply1;
    CancelFactor(pot * supply2, pot2 * supply, supply1);
  }

  /** What remains per remaining token never falls over a batch. */
  lemma {:induction false} RatioNeverFalls(pot: nat, supply: nat, holders: seq<Holding>)
    requires Refund(pot, supply, holders).Ok?
    ensures var r := Refund(pot, supply, holders).value;
            r.pot * supply >= pot * r.supply
  {
    if holders != [] {
      var before := Refund(pot, supply, holders[..|holders| - 1]).value;
      var balance := holders[|holders| - 1].balance;
      RatioNeverFalls(pot, supply, holders[..|holders| - 1]);
      RefundStep(pot, supply, holders, before);
      ShareKeepsRatio(before.pot, before.supply, balance);
      RatioChains(pot, supply, before.pot, before.supply, before.pot - Share(before.pot, balance, before.supply),
                  before.supply - balance);
    }
  }

  /** A better ratio gives at least as large a share. */
  lemma ShareAtBetterRatio(pot: nat, supply: nat, pot1: nat, supply1: nat, balance: nat)
    requires supply > 0 && supply1 > 0
    requires pot1 * supply >= pot * supply1
    ensures Share(pot1, balance, supply1) >= Share(pot, balance, supply)
  {
    var share := Share(pot, balance, supply);
    FloorBounds(pot * balance, supply);
    MulMonotone(share * supply, pot * balance, supply1);
    MulMonotone(pot * supply1, pot1 * supply, balance);
    assert (share * supply) * supply1 == (share * supply1) * supply;
    assert (pot * balance) * supply1 == (pot * supply1) * balance;
    assert (pot1 * supply) * balance == (pot1 * balance) * supply;
    CancelFactor(share * supply1, pot1 * balance, supply);
    FloorAtLeast(pot1 * balance, supply1, share);
  }

  /** No holder gets less than the share rounded down of the pot there was at the start, whatever the
      order of payment. */
  lemma {:induction false} EveryHolderGetsAShare(pot: nat, supply: nat, holders: seq<Holding>, k: nat)
    requires Refund(pot, supply, holders).Ok?
    requires k < |holders|
    ensures supply > 0
    ensures |Refund(pot, supply, holders).value.payouts| == |holders|
    ensures Refund(pot, supply, holders).value.payouts[k].paid >= Share(pot, holders[k].balance, supply)
  {
    var n := |holders| - 1;
    RefundFits(pot, supply, holders);
    RefundConserves(pot, supply, holders);
    assert Held(holders[..0]) < supply;
    var before := Refund(pot, supply, holders[..n]).value;
    RefundStep(pot, supply, holders, before);
    RefundConserves(pot, supply, holders[..n]);
    RefundFits(pot, supply, holders[..n]);
    if k < n {
      EveryHolderGetsAShare(pot, supply, holders[..n], k);
    } else {
      RatioNeverFalls(pot, supply, holders[..n]);
      ShareAtBetterRatio(pot, supply, before.pot, before.supply, holders[n].balance);
    }
  }

  /** A batch that covers the whole supply leaves exactly nothing in the pot. */
  lemma CompleteBatchEmptiesPot(pot: nat, supply: nat, holders: seq<Holding>)
    requires Refund(pot, supply, holders).Ok? && holders != []
    requires Held(holders) == supply
    ensures Refund(pot, supply, holders).value.pot == 0
  {
    var n := |holders| - 1;
    RefundFits(pot, supply, holders);
    RefundFits(pot, supply, holders[..n]);
    var before := Refund(pot, supply, holders[..n]).value;
    RefundStep(pot, supply, holders, before);
    ShareWithinPot(before.pot, holders[n].balance, before.supply);
  }

  /** The refund of one batch, refused while anything is still borrowed. */
  method ExecuteRefund(debtTotalScaled: nat, pot: nat, supply: nat, holders: seq<Holding>)
    returns (r: Result<seq<Payout>>)
    ensures r.Ok? <==> debtTotalScaled == 0 && FitsSupply(supply, holders)
    ensures r.Ok? ==> Refund(pot, supply, holders).Ok? && r.value == Refund(pot, supply, holders).value.payouts
    ensures r.Ok? ==> PaidOut(r.value) <= pot && Orders(r.value, holders)
  {
    RefundFits(pot, supply, holders);
    if debtTotalScaled != 0 {
      return Err(DebtOutstanding);
    }
    var totalToRefund: nat, remainingSupply: nat := pot, supply;
    var payouts: seq<Payout> := [];
    for k := 0 to |holders|
      invariant Refund(pot, supply, holders[..k]) == Ok(Refunded(payouts, totalToRefund, remainingSupply))
    {
      assert holders[..k + 1][..k] == holders[..k];
      RefundStep(pot, supply, holders[..k + 1], Refunded(payouts, totalToRefund, remainingSupply));
      var owner, balance := holders[k].owner, holders[k].balance;
      if remainingSupply == 0 {
        FailureSpreads(pot, supply, holders, k + 1);
        return Err(DivideByZero);
      }
      var amount := Share(totalToRefund, balance, remainingSupply);
      if totalToRefund < amount || remainingSupply < balance {
        FailureSpreads(pot, supply, holders, k + 1);
        return Err(Overflow);
      }
      totalToRefund := totalToRefund - amount;
      remainingSupply := remainingSupply - balance;
      payouts := payouts + [Payout(owner, balance, amount)];
    }
    assert holders[..|holders|] == holders;
    RefundConserves(pot, supply, holders);
    return Ok(payouts);
  }

  lemma {:induction false} FailureSpreads(pot: nat, supply: nat, holders: seq<Holding>, k: nat)
    requires k <= |holders| && Refund(pot, supply, holders[..k]).Err?
    ensures Refund(pot, supply, holders).Err?
    decreases |holders|
  {
    if k < |holders| {
      assert holders[..|holders| - 1][..k] == holders[..k];
      FailureSpreads(pot, supply, holders[..|holders| - 1], k);
    } else {
      assert holders[..k] == holders;
    }
  }

  // ---------- the messages of a refund ----------

  /** The burns a refund orders, one after another. */
  function BurnAll(t: Token, payouts: seq<Payout>): Result<Token> {
    if payouts == [] then Ok(t)
    else
      var before :- BurnAll(t, payouts[..|payouts| - 1]);
      Burn(before, payouts[|payouts| - 1].owner, payouts[|payouts| - 1].burned)
  }

  /** One address with an empty balance among the holders makes the token refuse its burn, and with it
      the whole batch. */
  lemma {:induction false} EmptyHolderBlocksBatch(t: Token, payouts: seq<Payout>, k: nat)
    requires k < |payouts| && payouts[k].burned == 0
    ensures BurnAll(t, payouts).Err?
  {
    if k < |payouts| - 1 {
      EmptyHolderBlocksBatch(t, payouts[..|payouts| - 1], k);
    }
  }

  ghost predicate Holds(t: Token, holders: seq<Holding>) {
    && (forall k :: 0 <= k < |holders| ==> holders[k].balance == BalanceOf(t, holders[k].owner))
    && (forall j, k :: 0 <= j < k < |holders| ==> holders[j].owner != holders[k].owner)
  }

  /** The holders have nothing any more, and everyone else has what they had. */
  ghost predicate Emptied(t: Token, after: Token, holders: seq<Holding>) {
    forall a :: BalanceOf(after, a) == if IsAmong(holders, a) then 0 else BalanceOf(t, a)
  }

  lemma NextBurn(t: Token, before: Token, holders: seq<Holding>)
    requires holders != [] && Holds(t, holders)
    requires Balanced(before) && Emptied(t, before, holders[..|holders| - 1])
    ensures var h := holders[|holders| - 1];
            && (Burn(before, h.owner, h.balance).Ok? <==> h.balance > 0)
            && (h.balance > 0 ==>
                  var after := Burn(before, h.owner, h.balance).value;
                  Balanced(after) && after.supply + h.balance == before.supply && Emptied(t, after, holders))
  {
    var n := |holders| - 1;
    var h := holders[n];
    assert !IsAmong(holders[..n], h.owner);
    BurnOfHoldingSucceeds(before, h.owner, h.balance);
    AmongLonger(holders);
    if h.balance > 0 {
      BurnKeepsBalanced(before, h.owner, h.balance);
    }
  }

  /** For distinct holders with their true balances the burns go through exactly when none of the
      balances is empty, and leave the holders with nothing. */
  lemma {:induction false} BurnsSucceed(t: Token, holders: seq<Holding>, payouts: seq<Payout>)
    requires Balanced(t) && Holds(t, holders)
    requires Orders(payouts, holders)
    ensures BurnAll(t, payouts).Ok? <==> forall k :: 0 <= k < |holders| ==> holders[k].balance > 0
    ensures BurnAll(t, payouts).Ok? ==>
              var after := BurnAll(t, payouts).value;
              Balanced(after) && after.supply + Held(holders) == t.supply && Emptied(t, after, holders)
  {
    if holders != [] {
      var n := |holders| - 1;
      BurnsSucceed(t, holders[..n], payouts[..n]);
      assert forall k :: 0 <= k < n ==> holders[..n][k] == holders[k];
      if BurnAll(t, payouts[..n]).Ok? {
        NextBurn(t, BurnAll(t, payouts[..n]).value, holders);
      }
    }
  }

  ghost predicate IsAmong(holders: seq<Holding>, a: Addr) {
    exists k :: 0 <= k < |holders| && holders[k].owner == a
  }

  lemma AmongLonger(holders: seq<Holding>)
    requires holders != []
    ensures forall a :: IsAmong(holders, a) <==> IsAmong(holders[..|holders| - 1], a) || a == holders[|holders| - 1].owner
  {
    forall a | IsAmong(holders[..|holders| - 1], a)
      ensures IsAmong(holders, a)
    {
      var k :| 0 <= k < |holders| - 1 && holders[..|holders| - 1][k].owner == a;
      assert holders[k].owner == a;
    }
    forall a | IsAmong(holders, a) && a != holders[|holders| - 1].owner
      ensures IsAmong(holders[..|holders| - 1], a)
    {
      var k :| 0 <= k < |holders| && holders[k].owner == a;
      assert holders[..|holders| - 1][k].owner == a;
    }
  }

  // ---------- refunding again and again ----------

  const PAGE := 10

  /** A market that is wound up. `accounts` is the token's listing of every address it stores a balance
      for, in the order of storage; an emptied account stays listed. */
  datatype Estate = Estate(debtTotalScaled: nat, pot: nat, token: Token, accounts: seq<Addr>)
  {
    ghost predicate Valid() {
      && Balanced(token)
      && (forall j, k :: 0 <= j < k < |accounts| ==> accounts[j] != accounts[k])
      && (forall a :: a in accounts <==> a in token.balances)
    }
  }

  function FirstHolders(e: Estate): seq<Holding> {
    seq(if |e.accounts| < PAGE then |e.accounts| else PAGE,
        i requires 0 <= i < |e.accounts| => Holding(e.accounts[i], BalanceOf(e.token, e.accounts[i])))
  }

  /** One refund with the messages it sends. */
  function RefundMessage(e: Estate): Result<Estate> {
    if e.debtTotalScaled != 0 then Err(DebtOutstanding)
    else
      var r :- Refund(e.pot, e.token.supply, FirstHolders(e));
      var token :- BurnAll(e.token, r.payouts);
      Ok(e.(pot := r.pot, token := token))
  }

  /** A refund that fails leaves everything as it was. */
  function Attempt(e: Estate): Estate {
    if RefundMessage(e).Ok? then RefundMessage(e).value else e
  }

  /** What `n` refunds in a row leave. */
  function After(e: Estate, n: nat): Estate {
    if n == 0 then e
    else
      var before := After(e, n - 1);
      Attempt(before)
  }

  ghost predicate NoneEmpty(holders: seq<Holding>) {
    forall k :: 0 <= k < |holders| ==> holders[k].balance > 0
  }

  lemma HeldWithinSupply(t: Token, holders: seq<Holding>)
    requires Balanced(t) && Holds(t, holders) && NoneEmpty(holders)
    ensures Held(holders) <= t.supply
  {
    var payouts := seq(|holders|, k requires 0 <= k < |holders| => Payout(holders[k].owner, holders[k].balance, 0));
    BurnsSucceed(t, holders, payouts);
  }

  lemma {:induction false} TrueHoldingsFit(t: Token, holders: seq<Holding>)
    requires Balanced(t) && Holds(t, holders) && NoneEmpty(holders)
    ensures FitsSupply(t.supply, holders)
  {
    HeldWithinSupply(t, holders);
    if holders != [] {
      TrueHoldingsFit(t, holders[..|holders| - 1]);
      FitsStep(t.supply, holders);
    }
  }

  lemma {:induction false} BurnsKeepListing(t: Token, payouts: seq<Payout>)
    requires BurnAll(t, payouts).Ok?
    ensures BurnAll(t, payouts).value.balances.Keys == t.balances.Keys
  {
    if payouts != [] {
      BurnsKeepListing(t, payouts[..|payouts| - 1]);
    }
  }

  /** A refund goes through exactly when nothing is borrowed and none of the first ten accounts is
      empty; these ten then have nothing. */
  lemma RefundsExactly(e: Estate)
    requires e.Valid()
    ensures RefundMessage(e).Ok? <==> e.debtTotalScaled == 0 && NoneEmpty(FirstHolders(e))
    ensures RefundMessage(e).Ok? ==>
              var after := RefundMessage(e).value;
              && after.Valid() && after.accounts == e.accounts
              && Emptied(e.token, after.token, FirstHolders(e))
              && after.token.supply + Held(FirstHolders(e)) == e.token.supply
  {
    var holders := FirstHolders(e);
    assert Holds(e.token, holders);
    if NoneEmpty(holders) {
      TrueHoldingsFit(e.token, holders);
    }
    RefundFits(e.pot, e.token.supply, holders);
    var r := Refund(e.pot, e.token.supply, holders);
    if r.Ok? {
      RefundConserves(e.pot, e.token.supply, holders);
      BurnsSucceed(e.token, holders, r.value.payouts);
      if BurnAll(e.token, r.value.payouts).Ok? {
        BurnsKeepListing(e.token, r.value.payouts);
      }
    }
  }

  lemma RefundBlocksItself(e: Estate)
    requires e.Valid() && RefundMessage(e).Ok? && e.accounts != []
    ensures RefundMessage(RefundMessage(e).value).Err?
  {
    RefundsExactly(e);
    var after := RefundMessage(e).value;
    assert FirstHolders(e)[0].owner == e.accounts[0];
    assert FirstHolders(after)[0].balance == 0;
    RefundsExactly(after);
  }

  /** However often the refund is repeated, it goes through at most once: the accounts it emptied stay
      the first ten that are listed. */
  lemma {:induction false} OnlyOneRefund(e: Estate, n: nat)
    requires e.Valid() && n > 0
    ensures After(e, n) == After(e, 1)
    ensures RefundMessage(e).Ok? && e.accounts != [] ==> RefundMessage(After(e, n)).Err?
  {
    if RefundMessage(e).Ok? && e.accounts != [] {
      RefundBlocksItself(e);
    }
    assert After(e, 0) == e;
    assert After(e, 1) == Attempt(e);
    if n > 1 {
      OnlyOneRefund(e, n - 1);
      if e.accounts == [] && RefundMessage(e).Ok? {
        assert FirstHolders(e) == [];
      }
    }
  }

  lemma SupplyIsGone(t: Token, accounts: seq<Addr>)
    requires Balanced(t) && forall a :: a in accounts <==> a in t.balances
    ensures t.supply == 0 <==> forall i :: 0 <= i < |accounts| ==> BalanceOf(t, accounts[i]) == 0
  {
    if t.supply == 0 {
      forall i | 0 <= i < |accounts|
        ensures BalanceOf(t, accounts[i]) == 0
      {
        HoldingsWithinSupply(t, accounts[i]);
      }
    }
    if forall i :: 0 <= i < |accounts| ==> BalanceOf(t, accounts[i]) == 0 {
      forall a | a in t.balances
        ensures t.balances[a] == 0
      {
        var i :| 0 <= i < |accounts| && accounts[i] == a;
        assert BalanceOf(t, accounts[i]) == 0;
      }
      TotalOfZeros(t.balances);
    }
  }

  lemma AmongFirst(e: Estate, i: nat)
    requires e.Valid() && i < |e.accounts|
    ensures IsAmong(FirstHolders(e), e.accounts[i]) <==> i < PAGE
  {
    if i < PAGE {
      assert FirstHolders(e)[i].owner == e.accounts[i];
    }
  }

  /** Exactly the first ten accounts have anything. */
  ghost predicate OnePage(e: Estate) {
    forall i: nat :: i < |e.accounts| ==> (BalanceOf(e.token, e.accounts[i]) > 0 <==> i < PAGE)
  }

  /** A refund that goes through takes the whole supply exactly when only the first ten had anything. */
  lemma RefundTakesAll(e: Estate) returns (after: Estate)
    requires e.Valid() && RefundMessage(e).Ok?
    ensures RefundMessage(e) == Ok(after)
    ensures after.token.supply == 0 <==> OnePage(e)
    ensures after.token.supply == 0 && e.token.supply > 0 ==> after.pot == 0
  {
    RefundsExactly(e);
    after := RefundMessage(e).value;
    forall i: nat | i < |e.accounts|
      ensures BalanceOf(after.token, e.accounts[i]) == if i < PAGE then 0 else BalanceOf(e.token, e.accounts[i])
      ensures i < PAGE ==> BalanceOf(e.token, e.accounts[i]) > 0
    {
      AmongFirst(e, i);
      if i < PAGE {
        assert FirstHolders(e)[i].balance > 0;
      }
    }
    SupplyIsGone(after.token, e.accounts);
    if after.token.supply == 0 && e.token.supply > 0 {
      CompleteBatchEmptiesPot(e.pot, e.token.supply, FirstHolders(e));
    }
  }

  lemma OneRefundPaysAll(e: Estate)
    requires e.Valid() && e.token.supply > 0
    ensures Attempt(e).token.supply == 0 <==> e.debtTotalScaled == 0 && OnePage(e)
    ensures Attempt(e).token.supply == 0 ==> Attempt(e).pot == 0
  {
    RefundsExactly(e);
    if RefundMessage(e).Ok? {
      var after := RefundTakesAll(e);
    } else if OnePage(e) {
      assert forall k :: 0 <= k < |FirstHolders(e)| ==> FirstHolders(e)[k].balance == BalanceOf(e.token, e.accounts[k]);
    }
  }

  /** After `n` refunds nobody holds the token any more. */
  ghost predicate AllPaid(e: Estate, n: nat) {
    After(e, n).token.supply == 0
  }

  /** Repeated refunds pay everybody exactly when there is nobody to pay, or nothing is borrowed and the
      accounts with a balance are exactly the first ten listed; the pot is then used up. */
  lemma RepeatedRefundsPayAll(e: Estate)
    requires e.Valid()
    ensures (exists n: nat :: AllPaid(e, n)) <==>
              e.token.supply == 0 || (e.debtTotalScaled == 0 && OnePage(e))
    ensures e.token.supply > 0 ==> forall n: nat :: AllPaid(e, n) ==> After(e, n).pot == 0
  {
    if e.token.supply == 0 {
      assert AllPaid(e, 0);
    } else {
      OneRefundPaysAll(e);
      assert After(e, 1) == Attempt(After(e, 0)) == Attempt(e);
      assert AllPaid(e, 1) <==> e.debtTotalScaled == 0 && OnePage(e);
      forall n: nat | AllPaid(e, n)
        ensures After(e, n) == After(e, 1)
      {
        if n > 0 {
          OnlyOneRefund(e, n);
        }
      }
    }
  }

  /** A token of which each of `names` has one. */
  function Issued(names: seq<Addr>): Token {
    if names == [] then EmptyToken
    else
      var before := Issued(names[..|names| - 1]);
      var name := names[|names| - 1];
      Token(before.balances[name := BalanceOf(before, name) + 1], before.supply + 1)
  }

  lemma {:induction false} IssuedToEach(names: seq<Addr>)
    requires forall j, k :: 0 <= j < k < |names| ==> names[j] != names[k]
    ensures Balanced(Issued(names)) && Issued(names).supply == |names|
    ensures forall a :: a in names <==> a in Issued(names).balances
    ensures forall a :: a in names ==> BalanceOf(Issued(names), a) == 1
  {
    if names != [] {
      var n := |names| - 1;
      var before := Issued(names[..n]);
      IssuedToEach(names[..n]);
      assert names == names[..n] + [names[n]];
      assert Mint(before, names[n], 1) == Ok(Issued(names));
      MintKeepsBalanced(before, names[n], 1);
    }
  }

  /** With more than ten holders one refund goes through, and then there is never another. */
  lemma ElevenHoldersNeverAllPaid(names: seq<Addr>, pot: nat, n: nat)
    requires forall j, k :: 0 <= j < k < |names| ==> names[j] != names[k]
    requires |names| > PAGE
    ensures var e := Estate(0, pot, Issued(names), names);
            e.Valid() && RefundMessage(e).Ok? && !AllPaid(e, n)
  {
    var e := Estate(0, pot, Issued(names), names);
    IssuedToEach(names);
    RefundsExactly(e);
    RepeatedRefundsPayAll(e);
    assert BalanceOf(e.token, names[PAGE]) > 0;
  }
}
