/** Sums over finite maps. */
module Sums {

  /** Some key of a non-empty map. */
  ghost function Pick<K(!new), V>(m: map<K, V>): (k: K)
    requires |m| > 0
    ensures k in m
  {
    var k :| k in m;
    k
  }

  lemma Smaller<K, V>(m: map<K, V>, k: K)
    requires k in m
    ensures |m - {k}| == |m| - 1
  {
    assert (m - {k}).Keys == m.Keys - {k};
    assert |(m - {k}).Keys| == |m.Keys| - 1;
  }

  ghost function Sum<K(!new)>(m: map<K, int>): int
    decreases |m|
  {
    if |m| == 0 then 0
    else
      var k := Pick(m);
      Smaller(m, k);
      m[k] + Sum(m - {k})
  }

  lemma RemoveTwo<K, V>(m: map<K, V>, a: K, b: K)
    ensures (m - {a}) - {b} == (m - {b}) - {a}
  {
  }

  /** Any key may be taken first. */
  lemma {:induction false} SumRemove<K(!new)>(m: map<K, int>, k: K)
    requires k in m
    ensures Sum(m) == m[k] + Sum(m - {k})
    decreases |m|
  {
    Smaller(m, k);
    var q := Pick(m);
    if q != k {
      Smaller(m, q);
      SumRemove(m - {q}, k);
      SumRemove(m - {k}, q);
      RemoveTwo(m, q, k);
    }
  }

  lemma SumUpdate<K(!new)>(m: map<K, int>, k: K, v: int)
    ensures Sum(m[k := v]) == Sum(m) - (if k in m then m[k] else 0) + v
  {
    hide Sum;
    SumRemove(m[k := v], k);
    assert m[k := v] - {k} == m - {k};
    if k in m {
      SumRemove(m, k);
    } else {
      assert m - {k} == m;
    }
  }

  /** A sum of natural numbers is no smaller than any of them, and zero only if all are. */
  lemma {:induction false} SumBounds<K(!new)>(m: map<K, int>)
    requires forall k :: k in m ==> m[k] >= 0
    ensures Sum(m) >= 0 && (Sum(m) == 0 <==> forall k :: k in m ==> m[k] == 0)
    decreases |m|
  {
    if |m| > 0 {
      var q := Pick(m);
      Smaller(m, q);
      SumBounds(m - {q});
      assert Sum(m) == m[q] + Sum(m - {q});
      if Sum(m) == 0 {
        forall k | k in m ensures m[k] == 0 { assert k == q || (k in m - {q} && (m - {q})[k] == m[k]); }
      } else if m[q] == 0 {
        var k :| k in m - {q} && (m - {q})[k] != 0;
        assert m[k] != 0;
      }
    }
  }
}
