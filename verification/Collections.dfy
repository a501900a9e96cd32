/** Listing the keys of a hash map, and how many items a map of queues holds. */
module Collections {
  predicate Distinct<T(==)>(s: seq<T>) {
    forall i, j :: 0 <= i < j < |s| ==> s[i] != s[j]
  }

  /** `order` lists the members of `items`, each once: some iteration of a hash map. */
  ghost predicate Enumerates<T(!new)>(order: seq<T>, items: set<T>) {
    Distinct(order) && forall x :: x in order <==> x in items
  }

  /** Some order in which a hash map yields its keys. */
  method Listed<T(!new,==)>(items: set<T>) returns (order: seq<T>)
    ensures Enumerates(order, items)
  {
    order := [];
    var todo := items;
    while todo != {}
      invariant todo <= items
      invariant Distinct(order)
      invariant forall x :: x in order <==> x in items && x !in todo
      decreases |todo|
    {
      var x :| x in todo;
      order := order + [x];
      todo := todo - {x};
    }
  }

  ghost function Total<K, V>(m: map<K, seq<V>>): nat {
    if m == map[] then 0
    else
      var k :| k in m;
      |m[k]| + Total(m - {k})
  }

  lemma {:induction false} TotalRemove<K, V>(m: map<K, seq<V>>, k: K)
    requires k in m
    ensures Total(m) == |m[k]| + Total(m - {k})
    decreases |m|
  {
    var c :| c in m && Total(m) == |m[c]| + Total(m - {c});
    if c != k {
      TotalRemove(m - {c}, k);
      TotalRemove(m - {k}, c);
      assert m - {c} - {k} == m - {k} - {c};
    }
  }

  lemma TotalUpdate<K, V>(m: map<K, seq<V>>, k: K, s: seq<V>)
    ensures Total(m[k := s]) == Total(m) - (if k in m then |m[k]| else 0) + |s|
  {
    TotalRemove(m[k := s], k);
    if k in m {
      TotalRemove(m, k);
      assert m[k := s] - {k} == m - {k};
    } else {
      assert m[k := s] - {k} == m;
    }
  }

  lemma {:induction false} SomeNonEmpty<K, V>(m: map<K, seq<V>>) returns (k: K)
    requires Total(m) > 0
    ensures k in m && m[k] != []
    decreases |m|
  {
    k :| k in m && Total(m) == |m[k]| + Total(m - {k});
    if m[k] == [] {
      k := SomeNonEmpty(m - {k});
    }
  }

  lemma {:induction false} TotalMonotone<K, V>(a: map<K, seq<V>>, b: map<K, seq<V>>)
    requires forall k :: k in a ==> k in b && |a[k]| <= |b[k]|
    ensures Total(a) <= Total(b)
    decreases |b|
  {
    if b == map[] {
      assert a == map[];
    } else {
      var k :| k in b;
      TotalRemove(b, k);
      TotalMonotone(a - {k}, b - {k});
      if k in a {
        TotalRemove(a, k);
      } else {
        assert a - {k} == a;
      }
    }
  }
}
