/** Who gets what in a liquidation, through up to six nested roundings. */
module LiquidationMath {
  import opened Base
  import opened FixedPoint
  import opened Ledger

  /** Valuing a balance, converting it into the debt asset and taking the bonus off again. */
  function CappedRepayment(balance: nat, collateralPrice: nat, debtPrice: nat, bonus: nat): nat
    requires debtPrice > 0
  {
    DivFloor(DivFloor(MulFloor(balance, collateralPrice), debtPrice), ONE + bonus)
  }

  /** If the wanted collateral exceeds the balance, the balance is worth no more than was offered. */
  lemma BalanceWorthLess(balance: nat, price: nat, offered: nat)
    requires price > 0
    requires DivFloor(offered, price) > balance
    ensures MulFloor(balance, price) <= offered
  {
    FloorBounds(offered * ONE, price);
    MulMonotone(balance, DivFloor(offered, price), price);
    FloorMonotone(balance * price, offered * ONE, ONE);
    FloorAtMostSelf(offered);
  }

  /** When the user's balance caps the seizure, the recomputed repayment is at most the first one. */
  lemma CappedRepaymentIsSmaller(repaid: nat, balance: nat, collateralPrice: nat, debtPrice: nat, bonus: nat)
    requires collateralPrice > 0 && debtPrice > 0
    requires DivFloor(MulFloor(MulFloor(repaid, debtPrice), ONE + bonus), collateralPrice) > balance
    ensures CappedRepayment(balance, collateralPrice, debtPrice, bonus) <= repaid
  {
    var inUusd := MulFloor(repaid, debtPrice);
    var withBonus := MulFloor(inUusd, ONE + bonus);
    var worth := MulFloor(balance, collateralPrice);
    BalanceWorthLess(balance, collateralPrice, withBonus);
    // Divide by the price first and by the bonus second; the order of the two roundings is immaterial.
    FloorBounds(repaid * debtPrice, ONE);
    FloorBounds(inUusd * (ONE + bonus), ONE);
    FloorBounds(worth * ONE, debtPrice);
    var inDebt := DivFloor(worth, debtPrice);
    ChainBound(repaid, debtPrice, ONE + bonus, inUusd, withBonus, worth, inDebt);
    FloorBounds(inDebt * ONE, ONE + bonus);
    CancelFactor(CappedRepayment(balance, collateralPrice, debtPrice, bonus), repaid, ONE + bonus);
  }

  /** `inDebt * ONE <= repaid * factor`, from the bounds of the roundings before it. */
  lemma ChainBound(repaid: nat, price: nat, factor: nat, inUusd: nat, withBonus: nat, worth: nat, inDebt: nat)
    requires price > 0
    requires inUusd * ONE <= repaid * price
    requires withBonus * ONE <= inUusd * factor
    requires worth <= withBonus
    requires inDebt * price <= worth * ONE
    ensures inDebt * ONE <= repaid * factor
  {
    MulMonotone(inUusd * ONE, repaid * price, factor);
    assert (inUusd * factor) * ONE == (inUusd * ONE) * factor;
    assert (repaid * price) * factor == (repaid * factor) * price;
    assert (inDebt * ONE) * price == (inDebt * price) * ONE;
    assert (inDebt * ONE) * price <= (repaid * factor) * price;
    CancelFactor(inDebt * ONE, repaid * factor, price);
  }

  /** The refund never underflows; a liquidator repays at most what was sent and at most the close
      factor's share of the debt, and gets at most the user's balance. The call is refused exactly
      for a zero price it has to divide by. */
  lemma AmountsWithinBounds(collateralPrice: nat, debtPrice: nat, closeFactor: nat, balance: nat, bonus: nat,
                            debt: nat, sent: nat)
    ensures var r := LiquidationAmounts(collateralPrice, debtPrice, closeFactor, balance, bonus, debt, sent);
            && (r.Ok? <==> collateralPrice > 0)
            && (r.Ok? ==>
                  && r.value.repaid <= Min(sent, MulFloor(debt, closeFactor))
                  && r.value.seized <= balance
                  && r.value.repaid + r.value.refund == sent)
  {
    var most := MulFloor(debt, closeFactor);
    var repaid := if sent > most then most else sent;
    if collateralPrice > 0 {
      var wanted := DivFloor(MulFloor(MulFloor(repaid, debtPrice), ONE + bonus), collateralPrice);
      if debtPrice == 0 {
        NothingIsWanted(repaid, bonus, collateralPrice);
      } else if wanted > balance {
        CappedRepaymentIsSmaller(repaid, balance, collateralPrice, debtPrice, bonus);
      }
    }
  }

  lemma NothingIsWanted(repaid: nat, bonus: nat, collateralPrice: nat)
    requires collateralPrice > 0
    ensures DivFloor(MulFloor(MulFloor(repaid, 0), ONE + bonus), collateralPrice) == 0
  {
    assert MulFloor(repaid, 0) == 0;
    assert MulFloor(0, ONE + bonus) == 0;
  }

  /** While the close factor is below one a liquidation leaves some of every debt. */
  lemma SomeDebtRemains(collateralPrice: nat, debtPrice: nat, closeFactor: nat, balance: nat, bonus: nat,
                        debt: nat, sent: nat)
    requires closeFactor < ONE && debt > 0
    requires LiquidationAmounts(collateralPrice, debtPrice, closeFactor, balance, bonus, debt, sent).Ok?
    ensures LiquidationAmounts(collateralPrice, debtPrice, closeFactor, balance, bonus, debt, sent).value.repaid < debt
  {
    AmountsWithinBounds(collateralPrice, debtPrice, closeFactor, balance, bonus, debt, sent);
    MulMonotone(closeFactor, ONE - 1, debt);
    FloorBelow(debt * closeFactor, ONE, debt);
  }

  /** What the collateral for a whole debt with bonus comes to. */
  function WantedFor(debt: nat, collateralPrice: nat, debtPrice: nat, bonus: nat): nat
    requires collateralPrice > 0
  {
    DivFloor(MulFloor(MulFloor(debt, debtPrice), ONE + bonus), collateralPrice)
  }

  /** The balance is worth the whole debt and the bonus, each rounded up. */
  predicate Covers(balance: nat, collateralPrice: nat, debtPrice: nat, bonus: nat, debt: nat) {
    MulFloor(balance, collateralPrice) * ONE >= DivUp(debt * (ONE + bonus), ONE) * debtPrice
  }

  /** A rounded-down quotient reaches a bound exactly when the dividend reaches its multiple. */
  lemma FloorReaches(x: nat, y: nat, q: nat)
    requires y > 0
    ensures x / y >= q <==> x >= q * y
  {
    if x >= q * y {
      FloorAtLeast(x, y, q);
    } else {
      FloorBelow(x, y, q);
    }
  }

  lemma CeilReaches(x: nat, y: nat, q: nat)
    requires y > 0
    ensures DivUp(x, y) <= q <==> x <= q * y
  {
    CeilBounds(x, y);
    if x <= q * y {
      CeilAtMost(x, y, q);
    } else if DivUp(x, y) <= q {
      MulMonotone(DivUp(x, y), q, y);
    }
  }

  /** The repayment recomputed from the balance reaches the debt exactly when the balance covers it. */
  lemma CappedReachesDebt(balance: nat, collateralPrice: nat, debtPrice: nat, bonus: nat, debt: nat)
    requires debtPrice > 0
    ensures CappedRepayment(balance, collateralPrice, debtPrice, bonus) >= debt <==>
              Covers(balance, collateralPrice, debtPrice, bonus, debt)
  {
    var worth := MulFloor(balance, collateralPrice);
    var inDebt := DivFloor(worth, debtPrice);
    FloorReaches(inDebt * ONE, ONE + bonus, debt);
    CeilReaches(debt * (ONE + bonus), ONE, inDebt);
    FloorReaches(worth * ONE, debtPrice, DivUp(debt * (ONE + bonus), ONE));
  }

  lemma WholeShare(debt: nat)
    ensures MulFloor(debt, ONE) == debt
  {
    FloorAtMostSelf(debt);
  }

  /** All of a debt is repaid exactly when the close factor allows it, enough was sent, and either the
      collateral asked for is there or what is there is worth the debt with bonus. */
  lemma FullRepaymentExactly(collateralPrice: nat, debtPrice: nat, closeFactor: nat, balance: nat, bonus: nat,
                             debt: nat, sent: nat)
    requires closeFactor <= ONE && debt > 0 && collateralPrice > 0
    ensures var r := LiquidationAmounts(collateralPrice, debtPrice, closeFactor, balance, bonus, debt, sent);
            && r.Ok?
            && (r.value.repaid == debt <==>
                  && closeFactor == ONE
                  && sent >= debt
                  && (WantedFor(debt, collateralPrice, debtPrice, bonus) <= balance
                      || Covers(balance, collateralPrice, debtPrice, bonus, debt)))
  {
    AmountsWithinBounds(collateralPrice, debtPrice, closeFactor, balance, bonus, debt, sent);
    if closeFactor < ONE {
      SomeDebtRemains(collateralPrice, debtPrice, closeFactor, balance, bonus, debt, sent);
    } else if sent >= debt {
      FullRepaymentFromBalance(collateralPrice, debtPrice, balance, bonus, debt, sent);
    }
  }

  lemma FullRepaymentFromBalance(collateralPrice: nat, debtPrice: nat, balance: nat, bonus: nat, debt: nat, sent: nat)
    requires collateralPrice > 0 && sent >= debt
    ensures var r := LiquidationAmounts(collateralPrice, debtPrice, ONE, balance, bonus, debt, sent);
            && r.Ok?
            && (r.value.repaid == debt <==>
                  || WantedFor(debt, collateralPrice, debtPrice, bonus) <= balance
                  || Covers(balance, collateralPrice, debtPrice, bonus, debt))
  {
    WholeShare(debt);
    AmountsWithinBounds(collateralPrice, debtPrice, ONE, balance, bonus, debt, sent);
    if WantedFor(debt, collateralPrice, debtPrice, bonus) > balance {
      if debtPrice == 0 {
        NothingIsWanted(debt, bonus, collateralPrice);
      } else {
        CappedRepaymentIsSmaller(debt, balance, collateralPrice, debtPrice, bonus);
        CappedReachesDebt(balance, collateralPrice, debtPrice, bonus, debt);
      }
    }
  }

  /** The worth of what is seized, against the worth of what is repaid plus the bonus. With p the
      debt price and 1+b the bonus, all in units of one:
      `seized * collateralPrice < repaid * p * (1+b) + 1 + p * (2+b)`. */
  lemma SeizedWorthBound(collateralPrice: nat, debtPrice: nat, closeFactor: nat, balance: nat, bonus: nat,
                         debt: nat, sent: nat)
    requires LiquidationAmounts(collateralPrice, debtPrice, closeFactor, balance, bonus, debt, sent).Ok?
    ensures var t := LiquidationAmounts(collateralPrice, debtPrice, closeFactor, balance, bonus, debt, sent).value;
            t.seized * collateralPrice * ONE
            < t.repaid * debtPrice * (ONE + bonus) + ONE * ONE + debtPrice * (2 * ONE + bonus)
  {
    var most := MulFloor(debt, closeFactor);
    var repaid := if sent > most then most else sent;
    var inUusd := MulFloor(repaid, debtPrice);
    var withBonus := MulFloor(inUusd, ONE + bonus);
    var wanted := DivFloor(withBonus, collateralPrice);
    if wanted > balance {
      if debtPrice == 0 {
        NothingIsWanted(repaid, bonus, collateralPrice);
      } else {
        CappedWorth(balance, collateralPrice, debtPrice, bonus);
      }
    } else {
      WantedWorth(repaid, collateralPrice, debtPrice, bonus);
    }
  }

  lemma WantedWorth(repaid: nat, collateralPrice: nat, debtPrice: nat, bonus: nat)
    requires collateralPrice > 0
    ensures DivFloor(MulFloor(MulFloor(repaid, debtPrice), ONE + bonus), collateralPrice) * collateralPrice * ONE
            <= repaid * debtPrice * (ONE + bonus)
  {
    var inUusd := MulFloor(repaid, debtPrice);
    var withBonus := MulFloor(inUusd, ONE + bonus);
    FloorBounds(repaid * debtPrice, ONE);
    FloorBounds(inUusd * (ONE + bonus), ONE);
    FloorBounds(withBonus * ONE, collateralPrice);
    MulMonotone(inUusd * ONE, repaid * debtPrice, ONE + bonus);
    assert (inUusd * (ONE + bonus)) * ONE == (inUusd * ONE) * (ONE + bonus);
  }

  lemma CappedWorth(balance: nat, collateralPrice: nat, debtPrice: nat, bonus: nat)
    requires debtPrice > 0
    ensures balance * collateralPrice * ONE
            < CappedRepayment(balance, collateralPrice, debtPrice, bonus) * debtPrice * (ONE + bonus)
              + ONE * ONE + debtPrice * (2 * ONE + bonus)
  {
    var worth := MulFloor(balance, collateralPrice);
    var inDebt := DivFloor(worth, debtPrice);
    var repaid := CappedRepayment(balance, collateralPrice, debtPrice, bonus);
    FloorBounds(balance * collateralPrice, ONE);
    FloorBounds(worth * ONE, debtPrice);
    FloorBounds(inDebt * ONE, ONE + bonus);
    assert inDebt * ONE < repaid * (ONE + bonus) + (ONE + bonus);
    assert worth * ONE < (inDebt + 1) * debtPrice;
    calc {
      balance * collateralPrice * ONE;
    <
      (worth + 1) * ONE * ONE;
    ==
      worth * ONE * ONE + ONE * ONE;
    <  { MulMonotone(worth * ONE + 1, (inDebt + 1) * debtPrice, ONE); }
      (inDebt + 1) * debtPrice * ONE + ONE * ONE;
    ==
      (inDebt * ONE + ONE) * debtPrice + ONE * ONE;
    <= { MulMonotone(inDebt * ONE, repaid * (ONE + bonus) + (ONE + bonus), debtPrice); }
      (repaid * (ONE + bonus) + (ONE + bonus) + ONE) * debtPrice + ONE * ONE;
    ==
      repaid * debtPrice * (ONE + bonus) + debtPrice * (2 * ONE + bonus) + ONE * ONE;
    }
  }

  /** Unless the balance caps the seizure the liquidator repays all that was sent, or the close factor's
      share if that is less, and is compensated with bonus: in units of one,
      `repaid * p * (1+b) < seized * collateralPrice + collateralPrice + 1 + (1+b)`. */
  lemma SeizedWorthFloor(collateralPrice: nat, debtPrice: nat, closeFactor: nat, balance: nat, bonus: nat,
                         debt: nat, sent: nat)
    requires LiquidationAmounts(collateralPrice, debtPrice, closeFactor, balance, bonus, debt, sent).Ok?
    ensures var t := LiquidationAmounts(collateralPrice, debtPrice, closeFactor, balance, bonus, debt, sent).value;
            t.seized < balance ==>
              && t.repaid == Min(sent, MulFloor(debt, closeFactor))
              && t.repaid * debtPrice * (ONE + bonus)
              < t.seized * collateralPrice * ONE + collateralPrice * ONE + ONE * ONE + ONE * (ONE + bonus)
  {
    var most := MulFloor(debt, closeFactor);
    var repaid := if sent > most then most else sent;
    WantedCovers(repaid, collateralPrice, debtPrice, bonus);
  }

  /** What the collateral asked for is worth falls short of the repayment with bonus by its roundings. */
  lemma WantedCovers(repaid: nat, collateralPrice: nat, debtPrice: nat, bonus: nat)
    requires collateralPrice > 0
    ensures repaid * debtPrice * (ONE + bonus)
            < DivFloor(MulFloor(MulFloor(repaid, debtPrice), ONE + bonus), collateralPrice) * collateralPrice * ONE
              + collateralPrice * ONE + ONE * ONE + ONE * (ONE + bonus)
  {
    var inUusd := MulFloor(repaid, debtPrice);
    var withBonus := MulFloor(inUusd, ONE + bonus);
    FloorBounds(repaid * debtPrice, ONE);
    FloorBounds(inUusd * (ONE + bonus), ONE);
    FloorBounds(withBonus * ONE, collateralPrice);
    MulMonotone(repaid * debtPrice, inUusd * ONE + ONE, ONE + bonus);
    AddMultiples(inUusd * ONE, ONE, ONE + bonus);
    assert (inUusd * ONE) * (ONE + bonus) == (inUusd * (ONE + bonus)) * ONE;
  }

  /** When the balance caps the seizure, nothing more could be seized, and the repayment is no more than
      the balance is worth without the bonus: in units of one,
      `repaid * p * (1+b) <= balance * collateralPrice`. */
  lemma CappedRepaymentIsCovered(collateralPrice: nat, debtPrice: nat, closeFactor: nat, balance: nat, bonus: nat,
                                 debt: nat, sent: nat)
    requires LiquidationAmounts(collateralPrice, debtPrice, closeFactor, balance, bonus, debt, sent).Ok?
    ensures var t := LiquidationAmounts(collateralPrice, debtPrice, closeFactor, balance, bonus, debt, sent).value;
            t.repaid < Min(sent, MulFloor(debt, closeFactor)) ==>
              t.seized == balance && t.repaid * debtPrice * (ONE + bonus) <= balance * collateralPrice * ONE
  {
    if debtPrice > 0 {
      CappedIsCovered(balance, collateralPrice, debtPrice, bonus);
    } else {
      NothingIsWanted(Min(sent, MulFloor(debt, closeFactor)), bonus, collateralPrice);
    }
  }

  lemma CappedIsCovered(balance: nat, collateralPrice: nat, debtPrice: nat, bonus: nat)
    requires debtPrice > 0
    ensures CappedRepayment(balance, collateralPrice, debtPrice, bonus) * debtPrice * (ONE + bonus)
            <= balance * collateralPrice * ONE
  {
    var worth := MulFloor(balance, collateralPrice);
    var inDebt := DivFloor(worth, debtPrice);
    var repaid := CappedRepayment(balance, collateralPrice, debtPrice, bonus);
    FloorBounds(balance * collateralPrice, ONE);
    FloorBounds(worth * ONE, debtPrice);
    FloorBounds(inDebt * ONE, ONE + bonus);
    MulMonotone(repaid * (ONE + bonus), inDebt * ONE, debtPrice);
    assert (repaid * (ONE + bonus)) * debtPrice == repaid * debtPrice * (ONE + bonus);
    assert (inDebt * ONE) * debtPrice == (inDebt * debtPrice) * ONE;
  }
}
