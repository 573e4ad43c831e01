/** Sums over the values of a map, such as all balances of a token. */
module Totals {
  import opened FixedPoint

  /** The entry at `k`, or zero if there is none. */
  function Lookup<K>(m: map<K, nat>, k: K): nat {
    if k in m then m[k] else 0
  }

  ghost function Total<K>(m: map<K, nat>): nat {
    if m == map[] then 0
    else
      var k :| k in m;
      m[k] + Total(m - {k})
  }

  /** Any key may be taken out first. */
  lemma {:induction false} TotalWithout<K>(m: map<K, nat>, k: K)
    requires k in m
    ensures Total(m) == m[k] + Total(m - {k})
    decreases |m|
  {
    var j :| j in m && Total(m) == m[j] + Total(m - {j});
    if j != k {
      TotalWithout(m - {j}, k);
      TotalWithout(m - {k}, j);
      assert m - {j} - {k} == m - {k} - {j};
    }
  }

  lemma TotalUpdate<K>(m: map<K, nat>, k: K, v: nat)
    ensures Total(m[k := v]) == Total(m) - Lookup(m, k) + v
    ensures Lookup(m, k) <= Total(m)
  {
    TotalWithout(m[k := v], k);
    assert m[k := v] - {k} == m - {k};
    if k in m {
      TotalWithout(m, k);
    } else {
      assert m - {k} == m;
    }
  }

  lemma TotalExtend<K>(m: map<K, nat>, k: K, v: nat)
    requires k !in m
    ensures Total(m[k := v]) == Total(m) + v
    ensures m[k := v].Keys == m.Keys + {k}
  {
    TotalUpdate(m, k, v);
  }

  lemma {:induction false} TotalOfZeros<K>(m: map<K, nat>)
    requires forall k :: k in m ==> m[k] == 0
    ensures Total(m) == 0
    decreases |m|
  {
    if m != map[] {
      var k :| k in m;
      TotalWithout(m, k);
      TotalOfZeros(m - {k});
    }
  }

  /** A total is monotone in the entries. */
  lemma {:induction false} TotalMonotone<K>(m: map<K, nat>, n: map<K, nat>)
    requires forall k :: k in m ==> m[k] <= Lookup(n, k)
    ensures Total(m) <= Total(n)
    decreases |m|
  {
    if m != map[] {
      var k :| k in m;
      TotalWithout(m, k);
      TotalUpdate(n, k, 0);
      TotalMonotone(m - {k}, n[k := 0]);
    }
  }

  /** Totals add pointwise when every entry of the first is the sum of the other two. */
  lemma {:induction false} TotalSum<K>(m: map<K, nat>, a: map<K, nat>, b: map<K, nat>)
    requires m.Keys == a.Keys == b.Keys
    requires forall k :: k in m ==> m[k] == a[k] + b[k]
    ensures Total(m) == Total(a) + Total(b)
    decreases |m|
  {
    if m != map[] {
      var k :| k in m;
      TotalWithout(m, k);
      TotalWithout(a, k);
      TotalWithout(b, k);
      TotalSum(m - {k}, a - {k}, b - {k});
    } else {
      assert a == map[] && b == map[];
    }
  }

  function Scaled<K>(m: map<K, nat>, f: nat): map<K, nat> {
    map k | k in m :: m[k] * f
  }

  lemma ScaledWithout<K>(m: map<K, nat>, f: nat, k: K)
    requires k in m
    ensures Scaled(m, f) - {k} == Scaled(m - {k}, f) && Scaled(m, f)[k] == m[k] * f
  {
  }

  lemma Distributed(scaled: nat, x: nat, y: nat, sum: nat, f: nat)
    requires scaled == x * f + y * f && sum == x + y
    ensures scaled == sum * f
  {
    AddMultiples(x, y, f);
  }

  lemma ScaleStep<K>(m: map<K, nat>, f: nat, k: K)
    requires k in m && Total(Scaled(m - {k}, f)) == Total(m - {k}) * f
    ensures Total(Scaled(m, f)) == Total(m) * f
  {
    TotalWithout(m, k);
    TotalWithout(Scaled(m, f), k);
    ScaledWithout(m, f, k);
    Distributed(Total(Scaled(m, f)), m[k], Total(m - {k}), Total(m), f);
  }

  /** A common factor can be taken out of a total. */
  lemma {:induction false} TotalScale<K>(m: map<K, nat>, f: nat)
    ensures Total(Scaled(m, f)) == Total(m) * f
    decreases |m|
  {
    if m == map[] {
      assert Scaled(m, f) == map[];
    } else {
      var k :| k in m;
      TotalScale(m - {k}, f);
      ScaleStep(m, f, k);
    }
  }
}
