/** Sums over finite maps, independent of the order in which the keys are visited. */
module Sums {
  ghost function Pick<K>(s: set<K>): (k: K)
    requires s != {}
    ensures k in s
  {
    var k :| k in s;
    k
  }

  ghost function Total<K>(m: map<K, real>): real
    decreases |m|
  {
    if m == map[] then 0.0 else
      assert m.Keys != {};
      var k := Pick(m.Keys);
      m[k] + Total(m - {k})
  }

  /** Any key may be taken out first. */
  lemma {:induction false} TotalRemove<K>(m: map<K, real>, k: K)
    requires k in m
    ensures Total(m) == m[k] + Total(m - {k})
    decreases |m|
  {
    var first := Pick(m.Keys);
    if first != k {
      TotalRemove(m - {first}, k);
      TotalRemove(m - {k}, first);
      assert m - {first} - {k} == m - {k} - {first};
    }
  }

  /** Writing a key adds the new value and takes away the old one, if there was one. */
  lemma {:induction false} TotalUpdate<K>(m: map<K, real>, k: K, x: real)
    ensures Total(m[k := x]) == Total(m) + x - if k in m then m[k] else 0.0
  {
    TotalRemove(m[k := x], k);
    if k in m {
      TotalRemove(m, k);
      assert m[k := x] - {k} == m - {k};
    } else {
      assert m[k := x] - {k} == m;
    }
  }

  lemma {:induction false} TotalNonNegative<K>(m: map<K, real>)
    requires forall k :: k in m ==> m[k] >= 0.0
    ensures Total(m) >= 0.0
    decreases |m|
  {
    if m != map[] {
      assert m.Keys != {};
      TotalNonNegative(m - {Pick(m.Keys)});
    }
  }

  /** A map all of whose values are the same. */
  lemma {:induction false} TotalUniform<K>(m: map<K, real>, w: real)
    requires forall k :: k in m ==> m[k] == w
    ensures Total(m) == |m| as real * w
    decreases |m|
  {
    if m != map[] {
      assert m.Keys != {};
      var k := Pick(m.Keys);
      var rest := m - {k};
      assert rest.Keys == m.Keys - {k};
      assert |rest| == |m| - 1;
      TotalUniform(rest, w);
    }
  }
}
