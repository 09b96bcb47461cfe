/** Sums of natural numbers over finite maps: what the credit windows conserve. */
module Sums {

  ghost function AnyKey<K>(m: map<K, nat>): (k: K)
    requires m != map[]
    ensures k in m
  {
    var k :| k in m;
    k
  }

  ghost function Sum(m: map<int, nat>): nat
    decreases |m|
  {
    if m == map[] then 0
    else
      var k := AnyKey(m);
      m[k] + Sum(m - {k})
  }

  /** The sum does not depend on which key is taken out first. */
  lemma {:induction false} SumTakesAnyKey(m: map<int, nat>, k: int)
    requires k in m
    ensures Sum(m) == m[k] + Sum(m - {k})
    decreases |m|
  {
    var first := AnyKey(m);
    if first != k {
      SumTakesAnyKey(m - {first}, k);
      SumTakesAnyKey(m - {k}, first);
      assert m - {first} - {k} == m - {k} - {first};
    }
  }

  lemma SumOfUpdate(m: map<int, nat>, k: int, v: nat)
    ensures Sum(m[k := v]) + (if k in m then m[k] else 0) == Sum(m) + v
  {
    var updated := m[k := v];
    SumTakesAnyKey(updated, k);
    assert updated - {k} == m - {k};
    if k in m {
      SumTakesAnyKey(m, k);
    } else {
      assert m - {k} == m;
    }
  }

  /** A map dominated by another, key by key, has a smaller sum; keys the other lacks must carry nothing. */
  lemma {:induction false} SumIsMonotone(low: map<int, nat>, high: map<int, nat>)
    requires forall k | k in low && k in high :: low[k] <= high[k]
    requires forall k | k in low && k !in high :: low[k] == 0
    ensures Sum(low) <= Sum(high)
    decreases |low|
  {
    if low != map[] {
      var k := AnyKey(low);
      SumTakesAnyKey(low, k);
      if k in high {
        SumTakesAnyKey(high, k);
      }
      SumIsMonotone(low - {k}, high - {k});
      assert k !in high ==> high - {k} == high;
    }
  }

  lemma SumBoundsEachKey(m: map<int, nat>, k: int)
    requires k in m
    ensures m[k] <= Sum(m)
  {
    SumTakesAnyKey(m, k);
  }
}
