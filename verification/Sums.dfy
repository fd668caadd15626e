/** Totals over the entries of a map. */
module Sums {

  ghost function Sum<K>(m: map<K, nat>): (s: nat)
    decreases |m|
  {
    if m == map[] then 0 else
      var k :| k in m;
      assert (m - {k}).Keys == m.Keys - {k};
      m[k] + Sum(m - {k})
  }

  /** A total splits at any key. */
  lemma {:induction false} SumSplit<K>(m: map<K, nat>, k: K)
    requires k in m
    ensures Sum(m) == m[k] + Sum(m - {k})
    decreases |m|
  {
    var j :| j in m && Sum(m) == m[j] + Sum(m - {j});
    if j != k {
      assert (m - {j}).Keys == m.Keys - {j} && (m - {k}).Keys == m.Keys - {k};
      SumSplit(m - {j}, k);
      SumSplit(m - {k}, j);
      assert m - {j} - {k} == m - {k} - {j};
    }
  }

  lemma SumPut<K>(m: map<K, nat>, k: K, v: nat)
    ensures Sum(m[k := v]) == v + Sum(m - {k})
    ensures k in m ==> Sum(m[k := v]) + m[k] == Sum(m) + v
    ensures k !in m ==> Sum(m[k := v]) == Sum(m) + v
  {
    SumSplit(m[k := v], k);
    assert m[k := v] - {k} == m - {k};
    if k in m { SumSplit(m, k); } else { assert m - {k} == m; }
  }

  lemma UnionWithout<K>(a: map<K, nat>, b: map<K, nat>, k: K)
    requires k !in a
    ensures (a + b) - {k} == a + (b - {k})
  {
  }

  /** A total over two maps that share no key. */
  lemma {:induction false} SumUnion<K>(a: map<K, nat>, b: map<K, nat>)
    requires a.Keys !! b.Keys
    ensures Sum(a + b) == Sum(a) + Sum(b)
    decreases |b|
  {
    if b == map[] {
      assert a + b == a;
    } else {
      var k :| k in b;
      assert (b - {k}).Keys == b.Keys - {k};
      SumUnion(a, b - {k});
      assert Sum(a + b) == b[k] + Sum((a + b) - {k}) by { SumSplit(a + b, k); }
      SumSplit(b, k);
      UnionWithout(a, b, k);
    }
  }

  /** Totals compare as their entries do, and are equal only if all entries are. */
  lemma {:induction false} SumLeq<K>(a: map<K, nat>, b: map<K, nat>)
    requires a.Keys == b.Keys && forall k :: k in a ==> a[k] <= b[k]
    ensures Sum(a) <= Sum(b)
    ensures Sum(a) == Sum(b) ==> forall k :: k in a ==> a[k] == b[k]
    decreases |a|
  {
    if a == map[] {
      assert b.Keys == {};
    } else {
      var k :| k in a;
      assert (a - {k}).Keys == a.Keys - {k} && (b - {k}).Keys == b.Keys - {k};
      SumLeq(a - {k}, b - {k});
      SumSplit(a, k);
      SumSplit(b, k);
      if Sum(a) == Sum(b) {
        forall j | j in a
          ensures a[j] == b[j]
        {
          assert j != k ==> j in a - {k};
        }
      }
    }
  }
}
