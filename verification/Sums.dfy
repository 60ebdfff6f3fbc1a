/** Sums over finite maps, used to say what a counter kept by the program should equal. */
module Sums {
  ghost function Sum<K(!new)>(m: map<K, nat>): nat
    decreases |m|
  {
    if m == map[] then 0 else
      var k :| k in m;
      m[k] + Sum(m - {k})
  }

  /** The sum does not depend on the order in which `Sum` picks the keys. */
  lemma {:induction false} SumPick<K(!new)>(m: map<K, nat>, k: K)
    requires k in m
    ensures Sum(m) == m[k] + Sum(m - {k})
    decreases |m|
  {
    var j :| j in m && Sum(m) == m[j] + Sum(m - {j});
    if j != k {
      SumPick(m - {j}, k);
      SumPick(m - {k}, j);
      assert m - {j} - {k} == m - {k} - {j};
    }
  }

  lemma SumPut<K(!new)>(m: map<K, nat>, k: K, v: nat)
    ensures Sum(m[k := v]) == v + Sum(m - {k})
  {
    SumPick(m[k := v], k);
    assert m[k := v] - {k} == m - {k};
  }

  lemma SumNew<K(!new)>(m: map<K, nat>, k: K, v: nat)
    requires k !in m
    ensures Sum(m[k := v]) == Sum(m) + v && |m[k := v]| == |m| + 1
  {
    SumPut(m, k, v);
    assert m - {k} == m;
    assert m[k := v].Keys == m.Keys + {k};
  }

  /** Raising the entries of `s` by at most one raises the sum by at most their number. */
  lemma {:induction false} SumRaisedIn<K(!new)>(m: map<K, nat>, n: map<K, nat>, s: set<K>)
    requires m.Keys == n.Keys && s <= m.Keys
    requires forall k :: k in m ==> n[k] <= m[k] + if k in s then 1 else 0
    ensures Sum(n) <= Sum(m) + |s|
    decreases |m|
  {
    if m == map[] {
      assert n == map[];
    } else {
      var k :| k in m;
      SumPick(m, k);
      SumPick(n, k);
      SumRaisedIn(m - {k}, n - {k}, s - {k});
    }
  }

  lemma {:induction false} SumAtMost<K(!new)>(m: map<K, nat>, c: nat)
    requires forall k :: k in m ==> m[k] <= c
    ensures Sum(m) <= |m| * c
    decreases |m|
  {
    if m != map[] {
      var k :| k in m;
      SumPick(m, k);
      assert (m - {k}).Keys == m.Keys - {k};
      SumAtMost(m - {k}, c);
      assert |m| * c == (|m| - 1) * c + c;
    }
  }

  /** Raising every entry by at most one raises the sum by at most the number of entries. */
  lemma SumRaised<K(!new)>(m: map<K, nat>, n: map<K, nat>)
    requires m.Keys == n.Keys
    requires forall k :: k in m ==> n[k] <= m[k] + 1
    ensures Sum(n) <= Sum(m) + |m|
  {
    SumRaisedIn(m, n, m.Keys);
  }
}
