/** The 128-bit maps in which a user's record keeps one bit per market, read as unsigned numbers,
    and the set of market indexes such a map stands for. */
module Bitmap {

  const WIDTH: nat := 128

  /** `1 << i` */
  function Pow2(i: nat): nat {
    if i == 0 then 1 else 2 * Pow2(i - 1)
  }

  /** `b >> i` */
  function ShiftRight(b: nat, i: nat): nat {
    if i == 0 then b else ShiftRight(b / 2, i - 1)
  }

  type Bits = b: nat | b < Pow2(WIDTH) witness (PowPositive(WIDTH); 0)

  predicate GetBit(bitmap: nat, index: nat) {
    ShiftRight(bitmap, index) % 2 == 1
  }

  /** `bitmap | (1 << index)`: adds the bit unless it is there. */
  function SetBit(bitmap: nat, index: nat): nat {
    if GetBit(bitmap, index) then bitmap else bitmap + Pow2(index)
  }

  /** `bitmap & !(1 << index)`: takes the bit away if it is there. */
  function UnsetBit(bitmap: nat, index: nat): nat
  {
    BitBelow(bitmap, index);
    if GetBit(bitmap, index) then bitmap - Pow2(index) else bitmap
  }

  /** The indexes whose bit is one. */
  function Members(bitmap: nat): set<nat> {
    set i: nat | i < WIDTH && GetBit(bitmap, i)
  }

  lemma {:induction false} PowPositive(i: nat)
    ensures Pow2(i) > 0
  {
    if i > 0 {
      PowPositive(i - 1);
    }
  }

  /** A map in which bit `i` is set is at least `2^i`. */
  lemma {:induction false} BitBelow(b: nat, i: nat)
    ensures GetBit(b, i) ==> Pow2(i) <= b
  {
    if i > 0 {
      BitBelow(b / 2, i - 1);
    }
  }

  lemma {:induction false} GetAfterSet(b: nat, i: nat, j: nat)
    ensures GetBit(SetBit(b, i), j) <==> j == i || GetBit(b, j)
  {
    if i > 0 && j > 0 {
      GetAfterSet(b / 2, i - 1, j - 1);
      assert SetBit(b, i) / 2 == SetBit(b / 2, i - 1);
    } else if i == 0 && j > 0 {
      assert SetBit(b, 0) / 2 == b / 2;
    }
  }

  lemma {:induction false} GetAfterUnset(b: nat, i: nat, j: nat)
    ensures GetBit(UnsetBit(b, i), j) <==> j != i && GetBit(b, j)
  {
    BitBelow(b, i);
    if i > 0 && j > 0 {
      BitBelow(b / 2, i - 1);
      GetAfterUnset(b / 2, i - 1, j - 1);
      assert UnsetBit(b, i) / 2 == UnsetBit(b / 2, i - 1);
    } else if i == 0 && j > 0 {
      assert UnsetBit(b, 0) / 2 == b / 2;
    }
  }

  /** Neither operation leaves the 128 bits. */
  lemma {:induction false} SetStaysWithin(b: nat, i: nat, n: nat)
    requires b < Pow2(n) && i < n
    ensures SetBit(b, i) < Pow2(n)
  {
    if i > 0 {
      SetStaysWithin(b / 2, i - 1, n - 1);
      assert SetBit(b, i) / 2 == SetBit(b / 2, i - 1);
    } else {
      assert SetBit(b, 0) / 2 == b / 2;
    }
  }

  /** Setting a bit inserts an index and nothing else. */
  lemma SetInserts(b: nat, i: nat)
    requires i < WIDTH
    ensures Members(SetBit(b, i)) == Members(b) + {i}
  {
    forall j: nat | j < WIDTH
      ensures j in Members(SetBit(b, i)) <==> j in Members(b) + {i}
    {
      GetAfterSet(b, i, j);
    }
  }

  /** Clearing a bit deletes an index and nothing else. */
  lemma UnsetDeletes(b: nat, i: nat)
    requires i < WIDTH
    ensures Members(UnsetBit(b, i)) == Members(b) - {i}
  {
    forall j: nat | j < WIDTH
      ensures j in Members(UnsetBit(b, i)) <==> j in Members(b) - {i}
    {
      GetAfterUnset(b, i, j);
    }
  }

  lemma {:induction false} NonzeroHasBit(b: nat, n: nat) returns (i: nat)
    requires 0 < b < Pow2(n)
    ensures i < n && GetBit(b, i)
  {
    if b % 2 == 1 {
      i := 0;
    } else {
      var k := NonzeroHasBit(b / 2, n - 1);
      i := k + 1;
    }
  }

  /** A map is zero exactly when it flags no market. */
  lemma ZeroIsEmpty(b: Bits)
    ensures b == 0 <==> Members(b) == {}
  {
    if b == 0 {
      forall i: nat | i < WIDTH
        ensures !GetBit(b, i)
      {
        BitBelow(b, i);
        PowPositive(i);
      }
    } else {
      var i := NonzeroHasBit(b, WIDTH);
      assert i in Members(b);
    }
  }
}
