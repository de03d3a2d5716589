/** Sums over the values of a map, for any commutative addition. */
module MapSums {

  ghost predicate Addition<V(!new)>(add: (V, V) -> V, zero: V) {
    && (forall x :: add(zero, x) == x)
    && (forall x, y :: add(x, y) == add(y, x))
    && (forall x, y, z :: add(x, add(y, z)) == add(add(x, y), z))
  }

  ghost function Sum<K, V>(m: map<K, V>, add: (V, V) -> V, zero: V): V
    decreases |m|
  {
    if m == map[] then zero
    else
      var k :| k in m;
      add(m[k], Sum(m - {k}, add, zero))
  }

  lemma Exchange<V(!new)>(a: V, b: V, rest: V, add: (V, V) -> V, zero: V)
    requires Addition(add, zero)
    ensures add(a, add(b, rest)) == add(b, add(a, rest))
  {
    assert add(a, add(b, rest)) == add(add(a, b), rest) == add(add(b, a), rest) == add(b, add(a, rest));
  }

  /** Any key can be taken out first. */
  lemma {:induction false} SumWithout<K, V(!new)>(m: map<K, V>, k: K, add: (V, V) -> V, zero: V)
    requires Addition(add, zero) && k in m
    ensures Sum(m, add, zero) == add(m[k], Sum(m - {k}, add, zero))
    decreases |m|
  {
    hide Addition;
    var j :| j in m && Sum(m, add, zero) == add(m[j], Sum(m - {j}, add, zero));
    if j != k {
      hide Sum;
      SumWithout(m - {j}, k, add, zero);
      SumWithout(m - {k}, j, add, zero);
      assert m - {j} - {k} == m - {k} - {j};
      Exchange(m[j], m[k], Sum(m - {k} - {j}, add, zero), add, zero);
    }
  }

  lemma SumUpdate<K, V(!new)>(m: map<K, V>, k: K, v: V, add: (V, V) -> V, zero: V)
    requires Addition(add, zero)
    ensures Sum(m[k := v], add, zero) == add(v, Sum(m - {k}, add, zero))
    ensures k !in m ==> m - {k} == m
  {
    hide Addition, Sum;
    SumWithout(m[k := v], k, add, zero);
    assert m[k := v] - {k} == m - {k};
  }

  function IntPlus(): (int, int) -> int {
    (x, y) => x + y
  }

  ghost function Total<K>(m: map<K, int>): int {
    Sum(m, IntPlus(), 0)
  }

  lemma TotalWithout<K>(m: map<K, int>, k: K)
    ensures k in m ==> Total(m) == m[k] + Total(m - {k})
    ensures k !in m ==> m - {k} == m
  {
    if k in m {
      SumWithout(m, k, IntPlus(), 0);
    }
  }

  lemma TotalUpdate<K>(m: map<K, int>, k: K, v: int)
    ensures Total(m[k := v]) == v + Total(m - {k})
  {
    SumUpdate(m, k, v, IntPlus(), 0);
  }

  /** With no negative value, no value exceeds the total. */
  lemma {:induction false} TotalBounds<K>(m: map<K, int>, k: K)
    requires forall j <- m :: m[j] >= 0
    ensures Total(m) >= 0 && (k in m ==> m[k] <= Total(m))
    decreases |m|
  {
    if k in m {
      TotalWithout(m, k);
      TotalBounds(m - {k}, k);
    } else if m != map[] {
      var j :| j in m;
      TotalWithout(m, j);
      TotalBounds(m - {j}, j);
    }
  }
}
