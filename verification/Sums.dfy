/** Sums and counts over finite maps, in whatever order the rows come. */
module Sums {

  ghost function Total<K>(m: map<K, int>): int
    decreases |m|
  {
    if m == map[] then 0 else
      var k :| k in m;
      m[k] + Total(m - {k})
  }

  lemma {:induction false} TotalPick<K>(m: map<K, int>, k: K)
    requires k in m
    ensures Total(m) == m[k] + Total(m - {k})
    decreases |m|
  {
    var p :| p in m && Total(m) == m[p] + Total(m - {p});
    if p != k {
      TotalPick(m - {p}, k);
      TotalPick(m - {k}, p);
      assert m - {p} - {k} == m - {k} - {p};
    }
  }

  lemma TotalInsert<K>(m: map<K, int>, k: K, x: int)
    requires k !in m
    ensures Total(m[k := x]) == Total(m) + x
  {
    TotalPick(m[k := x], k);
    assert m[k := x] - {k} == m;
  }

  lemma {:induction false} TotalDisjoint<K>(a: map<K, int>, b: map<K, int>)
    requires a.Keys !! b.Keys
    ensures Total(a + b) == Total(a) + Total(b)
    decreases |b|
  {
    if b == map[] {
      assert a + b == a;
    } else {
      var k :| k in b;
      TotalDisjoint(a, b - {k});
      TotalPick(b, k);
      UnionWithout(a, b, k);
      TotalPick(a + b, k);
    }
  }

  lemma UnionWithout<K>(a: map<K, int>, b: map<K, int>, k: K)
    requires a.Keys !! b.Keys && k in b
    ensures k in a + b && (a + b)[k] == b[k] && a + b - {k} == a + (b - {k})
  {
  }

  /** Splitting the rows by a key set splits the sum. */
  lemma TotalSplit<K>(m: map<K, int>, part: set<K>)
    requires part <= m.Keys
    ensures Total(m) == Total(map k | k in part :: m[k]) + Total(m - part)
  {
    var a := map k | k in part :: m[k];
    assert m == a + (m - part);
    TotalDisjoint(a, m - part);
  }

  /** `pair` matches the rows of `a` and `b` one to one, with equal amounts. */
  ghost predicate Paired<A, B>(a: map<A, int>, b: map<B, int>, pair: map<A, B>) {
    && pair.Keys == a.Keys
    && (forall k :: k in a ==> pair[k] in b && b[pair[k]] == a[k])
    && (forall k, l :: k in a && l in a && pair[k] == pair[l] ==> k == l)
    && (forall l :: l in b ==> Hit(a, pair, l))
  }

  ghost predicate Hit<A, B>(a: map<A, int>, pair: map<A, B>, l: B)
    requires pair.Keys == a.Keys
  {
    exists k :: k in a && pair[k] == l
  }

  lemma PairedWithout<A, B>(a: map<A, int>, b: map<B, int>, pair: map<A, B>, k: A)
    requires Paired(a, b, pair) && k in a
    ensures Paired(a - {k}, b - {pair[k]}, pair - {k})
  {
    forall l | l in b - {pair[k]}
      ensures Hit(a - {k}, pair - {k}, l)
    {
      assert Hit(a, pair, l);
      var j :| j in a && pair[j] == l;
      assert j in a - {k} && (pair - {k})[j] == l;
    }
  }

  /** Rows paired one to one with equal amounts have equal sums and counts. */
  lemma {:induction false} TotalPaired<A, B>(a: map<A, int>, b: map<B, int>, pair: map<A, B>)
    requires Paired(a, b, pair)
    ensures Total(a) == Total(b) && |a| == |b|
    decreases |a|
  {
    if a == map[] {
      assert forall l :: l in b ==> Hit(a, pair, l);
      assert b == map[];
    } else {
      var k :| k in a;
      var l := pair[k];
      PairedWithout(a, b, pair, k);
      TotalPaired(a - {k}, b - {l}, pair - {k});
      TotalPick(a, k);
      TotalPick(b, l);
      SizeWithout(a, k);
      SizeWithout(b, l);
    }
  }

  lemma SizeWithout<K>(m: map<K, int>, k: K)
    requires k in m
    ensures |m| == |m - {k}| + 1
  {
    assert m.Keys == (m - {k}).Keys + {k};
  }

  lemma {:induction false} TotalPositive<K>(m: map<K, int>)
    requires forall k :: k in m ==> m[k] > 0
    ensures Total(m) >= 0 && (Total(m) == 0 <==> m == map[])
    decreases |m|
  {
    if m != map[] {
      var k :| k in m;
      TotalPick(m, k);
      TotalPositive(m - {k});
    }
  }
}
