/** Sums over the values of a finite map, for records that a contract keeps one per account. */
module MapSums {
  ghost function Sum<K(!new)>(m: map<K, int>): int
    decreases |m|
  {
    if m == map[] then 0 else var k := Pick(m); Shrinks(m, k); m[k] + Sum(m - {k})
  }

  ghost function Pick<K(!new)>(m: map<K, int>): (k: K)
    requires m != map[]
    ensures k in m
  {
    var k :| k in m; k
  }

  lemma Shrinks<K(!new)>(m: map<K, int>, k: K)
    requires k in m
    ensures |m - {k}| < |m|
  {}

  /** The sum does not depend on the order in which entries are taken. */
  lemma {:induction false} SumTake<K(!new)>(m: map<K, int>, k: K)
    requires k in m
    ensures Sum(m) == m[k] + Sum(m - {k})
    decreases |m|
  {
    var j := Pick(m);
    if j != k {
      Shrinks(m, j);
      Shrinks(m, k);
      SumTake(m - {j}, k);
      SumTake(m - {k}, j);
      assert m - {j} - {k} == m - {k} - {j};
    }
  }

  function At<K>(m: map<K, int>, k: K): int {
    if k in m then m[k] else 0
  }

  lemma SumPut<K(!new)>(m: map<K, int>, k: K, v: int)
    ensures Sum(m[k := v]) == Sum(m) - At(m, k) + v
  {
    SumTake(m[k := v], k);
    assert m[k := v] - {k} == m - {k};
    if k in m {
      SumTake(m, k);
    } else {
      assert m - {k} == m;
    }
  }

  lemma SumDrop<K(!new)>(m: map<K, int>, k: K)
    ensures Sum(m - {k}) == Sum(m) - At(m, k)
  {
    if k in m {
      SumTake(m, k);
    } else {
      assert m - {k} == m;
    }
  }

  /** Sums are linear: c == a + f * b entry by entry gives the same relation for the sums. */
  lemma {:induction false} SumLinear<K(!new)>(c: map<K, int>, a: map<K, int>, b: map<K, int>, f: int)
    requires c.Keys == a.Keys == b.Keys
    requires forall k :: k in c ==> c[k] == a[k] + f * b[k]
    ensures Sum(c) == Sum(a) + f * Sum(b)
    decreases |c|
  {
    if c == map[] {
      assert a == map[] && b == map[];
    } else {
      var k :| k in c;
      Shrinks(c, k);
      SumTake(c, k);
      SumTake(a, k);
      SumTake(b, k);
      SumLinear(c - {k}, a - {k}, b - {k}, f);
      assert f * (b[k] + Sum(b - {k})) == f * b[k] + f * Sum(b - {k});
    }
  }

  lemma {:induction false} SumMonotone<K(!new)>(a: map<K, int>, b: map<K, int>)
    requires a.Keys == b.Keys
    requires forall k :: k in a ==> a[k] <= b[k]
    ensures Sum(a) <= Sum(b)
    decreases |a|
  {
    if a == map[] {
      assert b == map[];
    } else {
      var k :| k in a;
      Shrinks(a, k);
      SumTake(a, k);
      SumTake(b, k);
      SumMonotone(a - {k}, b - {k});
    }
  }

  lemma {:induction false} SumNonNegative<K(!new)>(m: map<K, int>)
    requires forall k :: k in m ==> 0 <= m[k]
    ensures 0 <= Sum(m)
    ensures forall k :: k in m ==> m[k] <= Sum(m)
    decreases |m|
  {
    forall k | k in m ensures 0 <= m[k] <= Sum(m) {
      Shrinks(m, k);
      SumTake(m, k);
      SumNonNegative(m - {k});
    }
    if m != map[] {
      assert Pick(m) in m;
    }
  }

  lemma {:induction false} SumOnes<K(!new)>(m: map<K, int>)
    requires forall k :: k in m ==> m[k] == 1
    ensures Sum(m) == |m.Keys|
    decreases |m|
  {
    if m != map[] {
      var k := Pick(m);
      Shrinks(m, k);
      SumTake(m, k);
      SumOnes(m - {k});
      assert (m - {k}).Keys == m.Keys - {k};
    }
  }
}
