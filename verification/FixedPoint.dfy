/** Fixed-point decimals with 18 fractional digits, held as their numerators over ONE, and the
    rounding of the four operations on them. */
module FixedPoint {

  const ONE: nat := 1_000_000_000_000_000_000

  /** Integer division rounding up. */
  function DivUp(x: nat, y: nat): nat
    requires y > 0
  {
    if x % y > 0 then x / y + 1 else x / y
  }

  /** An amount times a decimal, rounded down. */
  function MulFloor(amount: nat, d: nat): nat {
    amount * d / ONE
  }

  /** The product of two decimals, rounded down. */
  function MulDecimal(a: nat, b: nat): nat {
    a * b / ONE
  }

  /** The quotient of two decimals, rounded down. */
  function DivDecimal(a: nat, b: nat): nat
    requires b > 0
  {
    a * ONE / b
  }

  /** An amount divided by a decimal, rounded down. */
  function DivFloor(amount: nat, d: nat): nat
    requires d > 0
  {
    amount * ONE / d
  }

  /** An amount divided by a decimal, rounded up. */
  function DivCeil(amount: nat, d: nat): nat
    requires d > 0
  {
    DivUp(amount * ONE, d)
  }

  /** `numerator / denominator` as a decimal. */
  function FromRatio(numerator: nat, denominator: nat): nat
    requires denominator > 0
  {
    numerator * ONE / denominator
  }

  lemma FloorBounds(x: nat, y: nat)
    requires y > 0
    ensures x / y * y <= x < x / y * y + y
  {
  }

  lemma AddMultiples(p: int, q: int, d: int)
    ensures (p + q) * d == p * d + q * d
  {
  }

  lemma SignOfProduct(a: int, f: nat)
    requires f > 0
    ensures a > 0 ==> a * f > 0
    ensures a < 0 ==> a * f < 0
  {
  }

  lemma DifferenceOfProducts(x: int, y: int, f: int)
    ensures (x - y) * f == x * f - y * f
  {
  }

  /** A common positive factor cancels from a comparison. */
  lemma CancelFactor(x: nat, y: nat, f: nat)
    requires f > 0
    ensures x * f <= y * f ==> x <= y
    ensures x * f < y * f ==> x < y
  {
    DifferenceOfProducts(x, y, f);
    SignOfProduct(x - y, f);
  }

  lemma FloorAtLeast(x: nat, y: nat, q: nat)
    requires y > 0 && q * y <= x
    ensures q <= x / y
  {
    var f := x / y;
    FloorBounds(x, y);
    AddMultiples(f, 1, y);
    CancelFactor(q, f + 1, y);
  }

  lemma FloorBelow(x: nat, y: nat, q: nat)
    requires y > 0 && x < q * y
    ensures x / y < q
  {
    FloorBounds(x, y);
    CancelFactor(x / y, q, y);
  }

  lemma FloorMonotone(x: nat, z: nat, y: nat)
    requires y > 0 && x <= z
    ensures x / y <= z / y
  {
    FloorBounds(x, y);
    FloorAtLeast(z, y, x / y);
  }

  lemma CeilBounds(x: nat, y: nat)
    requires y > 0
    ensures x <= DivUp(x, y) * y < x + y
  {
    FloorBounds(x, y);
    assert x == x / y * y + x % y;
    assert (x / y + 1) * y == x / y * y + y;
  }

  lemma CeilAtMost(x: nat, y: nat, q: nat)
    requires y > 0 && x <= q * y
    ensures DivUp(x, y) <= q
  {
    CeilBounds(x, y);
    AddMultiples(q, 1, y);
    CancelFactor(DivUp(x, y), q + 1, y);
  }

  lemma MulMonotone(a: nat, b: nat, f: nat)
    requires a <= b
    ensures a * f <= b * f
  {
  }

  /** Multiplying by at most one does not increase an amount. */
  lemma MulFloorAtMost(a: nat, d: nat)
    requires d <= ONE
    ensures MulFloor(a, d) <= a
  {
    MulMonotone(d, ONE, a);
    FloorMonotone(a * d, a * ONE, ONE);
    FloorAtMostSelf(a);
  }

  lemma FloorAtMostSelf(a: nat)
    ensures a * ONE / ONE == a
  {
  }

  lemma MulFloorMonotone(a: nat, b: nat, d: nat)
    requires a <= b
    ensures MulFloor(a, d) <= MulFloor(b, d)
  {
    MulMonotone(a, b, d);
    FloorMonotone(a * d, b * d, ONE);
  }

  lemma MulFloorMonotoneRate(a: nat, d: nat, e: nat)
    requires d <= e
    ensures MulFloor(a, d) <= MulFloor(a, e)
  {
    MulMonotone(d, e, a);
    FloorMonotone(a * d, a * e, ONE);
  }

  /** Rounding down splits over a sum up to one unit. */
  lemma FloorOfSum(x: nat, y: nat, d: nat)
    requires d > 0
    ensures x / d + y / d <= (x + y) / d <= x / d + y / d + 1
  {
    var p, q := x / d, y / d;
    FloorBounds(x, d);
    FloorBounds(y, d);
    AddMultiples(p, q, d);
    FloorAtLeast(x + y, d, p + q);
    AddMultiples(p + q, 2, d);
    FloorBelow(x + y, d, p + q + 2);
  }

  lemma MulFloorOfSum(a: nat, b: nat, d: nat)
    ensures MulFloor(a, d) + MulFloor(b, d) <= MulFloor(a + b, d) <= MulFloor(a, d) + MulFloor(b, d) + 1
  {
    AddMultiples(a, b, d);
    FloorOfSum(a * d, b * d, ONE);
  }
}
