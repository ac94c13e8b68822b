/** Sums over the values of finite maps, in whole numbers and in reals. */
module Sums {

  /** A mapping whose missing entries read as zero. */
  function Get<K>(m: map<K, nat>, k: K): nat {
    if k in m then m[k] else 0
  }

  ghost function Pick<K, V>(m: map<K, V>): (k: K)
    requires |m| != 0
    ensures k in m
  {
    assert m.Keys != {};
    var k :| k in m; k
  }

  ghost function Sum<K>(m: map<K, int>): int
    decreases |m|
  {
    if |m| == 0 then 0 else
      var k := Pick(m);
      m[k] + Sum(m - {k})
  }

  /** Any entry can be the one split off. */
  lemma {:induction false} SumSplit<K>(m: map<K, int>, k: K)
    requires k in m
    ensures Sum(m) == m[k] + Sum(m - {k})
    decreases |m|
  {
    var j := Pick(m);
    if j != k {
      var rest := m - {j, k};
      assert (m - {j}) - {k} == rest && (m - {k}) - {j} == rest;
      assert Sum(m - {j}) == m[k] + Sum(rest) by { SumSplit(m - {j}, k); }
      assert Sum(m - {k}) == m[j] + Sum(rest) by { SumSplit(m - {k}, j); }
    }
  }

  lemma {:induction false} SumUpdate<K>(m: map<K, int>, k: K, v: int)
    ensures Sum(m[k := v]) == Sum(m) + v - (if k in m then m[k] else 0)
  {
    SumSplit(m[k := v], k);
    if k in m {
      SumSplit(m, k);
      assert m[k := v] - {k} == m - {k};
    } else {
      assert m[k := v] - {k} == m;
    }
  }

  lemma SumSet<K>(m: map<K, nat>, k: K, v: nat)
    ensures Sum(m[k := v]) == Sum(m) + v - Get(m, k)
  {
    SumUpdate(m, k, v);
  }

  /** Two maps with the same keys, compared entry by entry after scaling. */
  lemma {:induction false} SumScaled<K>(c: int, a: map<K, int>, d: int, b: map<K, int>)
    requires a.Keys == b.Keys && forall k :: k in a ==> c * a[k] <= d * b[k]
    ensures c * Sum(a) <= d * Sum(b)
    decreases |a|
  {
    assert |a.Keys| == |b.Keys|;
    if |a| != 0 {
      var k := Pick(a);
      SumSplit(b, k);
      assert forall j :: j in a - {k} ==> j in a && (a - {k})[j] == a[j] && (b - {k})[j] == b[j];
      SumScaled(c, a - {k}, d, b - {k});
      ScaledStep(c, a[k], Sum(a - {k}), d, b[k], Sum(b - {k}));
    }
  }

  lemma ScaledStep(c: int, x: int, rx: int, d: int, y: int, ry: int)
    requires c * x <= d * y && c * rx <= d * ry
    ensures c * (x + rx) <= d * (y + ry)
  {
  }

  /** Adding a multiple of one map to another, entry by entry. */
  lemma {:induction false} SumPlusScaled<K>(m: map<K, int>, a: map<K, int>, c: int, b: map<K, int>)
    requires m.Keys == a.Keys == b.Keys && forall k :: k in m ==> m[k] == a[k] + c * b[k]
    ensures Sum(m) == Sum(a) + c * Sum(b)
    decreases |m|
  {
    assert |m.Keys| == |a.Keys| == |b.Keys|;
    if |m| != 0 {
      var k := Pick(m);
      SumSplit(a, k);
      SumSplit(b, k);
      SumPlusScaled(m - {k}, a - {k}, c, b - {k});
      PlusScaledStep(m[k], a[k], b[k], Sum(m - {k}), Sum(a - {k}), Sum(b - {k}), c);
    }
  }

  lemma PlusScaledStep(x: int, y: int, z: int, rx: int, ry: int, rz: int, c: int)
    requires x == y + c * z && rx == ry + c * rz
    ensures x + rx == (y + ry) + c * (z + rz)
  {
  }

  lemma {:induction false} SumAtLeast<K>(m: map<K, int>, k: K)
    requires k in m && forall j :: j in m ==> 0 <= m[j]
    ensures m[k] <= Sum(m)
  {
    SumSplit(m, k);
    SumNonNegative(m - {k});
  }

  lemma {:induction false} SumNonNegative<K>(m: map<K, int>)
    requires forall j :: j in m ==> 0 <= m[j]
    ensures 0 <= Sum(m)
    decreases |m|
  {
    if |m| != 0 { SumNonNegative(m - {Pick(m)}); }
  }

  ghost function RealSum<K>(m: map<K, real>): real
    decreases |m|
  {
    if |m| == 0 then 0.0 else
      var k := Pick(m);
      m[k] + RealSum(m - {k})
  }

  lemma {:induction false} RealSumSplit<K>(m: map<K, real>, k: K)
    requires k in m
    ensures RealSum(m) == m[k] + RealSum(m - {k})
    decreases |m|
  {
    var j := Pick(m);
    if j != k {
      var rest := m - {j, k};
      assert (m - {j}) - {k} == rest && (m - {k}) - {j} == rest;
      assert RealSum(m - {j}) == m[k] + RealSum(rest) by { RealSumSplit(m - {j}, k); }
      assert RealSum(m - {k}) == m[j] + RealSum(rest) by { RealSumSplit(m - {k}, j); }
    }
  }

  lemma {:induction false} RealSumUpdate<K>(m: map<K, real>, k: K, v: real)
    ensures RealSum(m[k := v]) == RealSum(m) + v - (if k in m then m[k] else 0.0)
  {
    RealSumSplit(m[k := v], k);
    if k in m {
      RealSumSplit(m, k);
      assert m[k := v] - {k} == m - {k};
    } else {
      assert m[k := v] - {k} == m;
    }
  }

  lemma {:induction false} RealSumNonNegative<K>(m: map<K, real>)
    requires forall j :: j in m ==> 0.0 <= m[j]
    ensures 0.0 <= RealSum(m)
    decreases |m|
  {
    if |m| != 0 { RealSumNonNegative(m - {Pick(m)}); }
  }
}
