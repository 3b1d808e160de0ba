/** Sums over finite maps, the common currency of quota and ledger. */
module Totals {

  ghost function Total<K>(m: map<K, int>): int {
    if m == map[] then 0
    else
      var k :| k in m;
      m[k] + Total(m - {k})
  }

  /** Any key can be taken out of the sum. */
  lemma {:induction false} TotalRemove<K>(m: map<K, int>, k: K)
    requires k in m
    ensures Total(m) == m[k] + Total(m - {k})
    decreases |m|
  {
    var j :| j in m && Total(m) == m[j] + Total(m - {j});
    if j != k {
      Shrinks(m, j);
      Shrinks(m, k);
      TotalRemove(m - {j}, k);
      TotalRemove(m - {k}, j);
      assert m - {j} - {k} == m - {k} - {j};
    }
  }

  lemma Shrinks<K>(m: map<K, int>, k: K)
    requires k in m
    ensures |m - {k}| < |m|
  {
    assert (m - {k}).Keys == m.Keys - {k};
    assert |m.Keys - {k}| == |m.Keys| - 1;
  }

  lemma TotalAdd<K>(m: map<K, int>, k: K, v: int)
    requires k !in m
    ensures Total(m[k := v]) == Total(m) + v
  {
    TotalRemove(m[k := v], k);
    assert m[k := v] - {k} == m;
  }

  lemma TotalUpdate<K>(m: map<K, int>, k: K, v: int)
    requires k in m
    ensures Total(m[k := v]) == Total(m) - m[k] + v
  {
    TotalRemove(m, k);
    TotalRemove(m[k := v], k);
    assert m[k := v] - {k} == m - {k};
  }

  /** Pointwise smaller maps have smaller totals. */
  lemma {:induction false} TotalMonotone<K>(a: map<K, int>, b: map<K, int>)
    requires a.Keys == b.Keys
    requires forall k :: k in a ==> a[k] <= b[k]
    ensures Total(a) <= Total(b)
    decreases |a|
  {
    if a == map[] {
      assert b == map[];
    } else {
      var k :| k in a;
      Shrinks(a, k);
      TotalRemove(a, k);
      TotalRemove(b, k);
      TotalMonotone(a - {k}, b - {k});
    }
  }

  /** Totals are additive when the maps are added pointwise. */
  lemma {:induction false} TotalPlus<K>(a: map<K, int>, b: map<K, int>, c: map<K, int>)
    requires a.Keys == b.Keys == c.Keys
    requires forall k :: k in a ==> c[k] == a[k] + b[k]
    ensures Total(c) == Total(a) + Total(b)
    decreases |a|
  {
    if a == map[] {
      assert b == map[] && c == map[];
    } else {
      var k :| k in a;
      Shrinks(a, k);
      TotalRemove(a, k);
      TotalRemove(b, k);
      TotalRemove(c, k);
      TotalPlus(a - {k}, b - {k}, c - {k});
    }
  }

  lemma {:induction false} TotalNonnegative<K>(m: map<K, int>)
    requires forall k :: k in m ==> m[k] >= 0
    ensures Total(m) >= 0
    decreases |m|
  {
    if m != map[] {
      var k :| k in m;
      Shrinks(m, k);
      TotalRemove(m, k);
      TotalNonnegative(m - {k});
    }
  }

  /** A map of zeros sums to zero. */
  lemma {:induction false} TotalZero<K>(m: map<K, int>)
    requires forall k :: k in m ==> m[k] == 0
    ensures Total(m) == 0
    decreases |m|
  {
    if m != map[] {
      var k :| k in m;
      Shrinks(m, k);
      TotalRemove(m, k);
      TotalZero(m - {k});
    }
  }

  /** Entries of zero do not count. */
  lemma {:induction false} TotalPads<K>(a: map<K, int>, b: map<K, int>)
    requires a.Keys <= b.Keys
    requires forall k :: k in a ==> a[k] == b[k]
    requires forall k :: k in b && k !in a ==> b[k] == 0
    ensures Total(a) == Total(b)
    decreases |b|
  {
    if a.Keys == b.Keys {
      assert a == b;
    } else {
      var k :| k in b && k !in a;
      TotalRemove(b, k);
      Shrinks(b, k);
      TotalPads(a, b - {k});
    }
  }

  /** The sum over a listing of the keys is the sum over the map. */
  ghost function ListTotal<K>(m: map<K, int>, keys: seq<K>): int
    requires forall k :: k in keys ==> k in m
  {
    if keys == [] then 0 else m[keys[|keys| - 1]] + ListTotal(m, keys[..|keys| - 1])
  }

  ghost predicate Distinct<K>(keys: seq<K>) {
    forall i, j :: 0 <= i < j < |keys| ==> keys[i] != keys[j]
  }

  lemma {:induction false} ListTotalIsTotal<K>(m: map<K, int>, keys: seq<K>)
    requires Distinct(keys)
    requires forall k :: k in keys <==> k in m
    ensures ListTotal(m, keys) == Total(m)
    decreases |keys|
  {
    if keys == [] {
      assert m == map[];
    } else {
      var last, front := keys[|keys| - 1], keys[..|keys| - 1];
      assert forall k :: k in keys <==> k in front || k == last;
      TotalRemove(m, last);
      ListTotalIsTotal(m - {last}, front);
      ListTotalDependsOnKeys(m, m - {last}, front);
    }
  }

  lemma {:induction false} ListTotalDependsOnKeys<K>(a: map<K, int>, b: map<K, int>, keys: seq<K>)
    requires forall k :: k in keys ==> k in a && k in b && a[k] == b[k]
    ensures ListTotal(a, keys) == ListTotal(b, keys)
  {
    if keys != [] {
      ListTotalDependsOnKeys(a, b, keys[..|keys| - 1]);
    }
  }
}
