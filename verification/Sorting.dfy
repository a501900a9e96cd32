/** Stable sorting by a numeric key, as Rust's `sort_by_key`. */
module Sorting {
  /** Put `x` behind everything whose key is no higher. */
  function Insert<T>(s: seq<T>, x: T, key: T -> nat): seq<T> {
    if s != [] && key(s[|s| - 1]) > key(x) then Insert(s[..|s| - 1], x, key) + [s[|s| - 1]] else s + [x]
  }

  function Sort<T>(s: seq<T>, key: T -> nat): seq<T> {
    if s == [] then [] else Insert(Sort(s[..|s| - 1], key), s[|s| - 1], key)
  }

  predicate Sorted<T>(s: seq<T>, key: T -> nat) {
    forall i, j :: 0 <= i < j < |s| ==> key(s[i]) <= key(s[j])
  }

  function Filter<T>(s: seq<T>, p: T -> bool): seq<T> {
    if s == [] then []
    else if p(s[|s| - 1]) then Filter(s[..|s| - 1], p) + [s[|s| - 1]]
    else Filter(s[..|s| - 1], p)
  }

  lemma {:induction false} FilterIn<T>(s: seq<T>, p: T -> bool, x: T)
    ensures x in Filter(s, p) <==> x in s && p(x)
  {
    if s != [] {
      FilterIn(s[..|s| - 1], p, x);
      assert s == s[..|s| - 1] + [s[|s| - 1]];
    }
  }

  lemma {:induction false} FilterAll<T>(s: seq<T>, p: T -> bool)
    requires forall i :: 0 <= i < |s| ==> p(s[i])
    ensures Filter(s, p) == s
  {
    if s != [] {
      FilterAll(s[..|s| - 1], p);
      assert s == s[..|s| - 1] + [s[|s| - 1]];
    }
  }

  lemma FilterSnoc<T>(s: seq<T>, x: T, p: T -> bool)
    ensures Filter(s + [x], p) == if p(x) then Filter(s, p) + [x] else Filter(s, p)
  {
    assert (s + [x])[..|s|] == s;
  }

  lemma {:induction false} InsertHead<T>(s: seq<T>, x: T, key: T -> nat)
    requires Sorted(s, key)
    ensures Insert(s, x, key) != [] && Insert(s, x, key)[0] == if s == [] || key(s[0]) > key(x) then x else s[0]
  {
    if s != [] && key(s[|s| - 1]) > key(x) {
      InsertHead(s[..|s| - 1], x, key);
    }
  }

  /** The first of the sorted selection: the lowest key, and the earliest among equals. */
  lemma {:induction false} SelectedHead<T>(s: seq<T>, p: T -> bool, key: T -> nat) returns (i: nat)
    requires Filter(s, p) != []
    ensures i < |s| && p(s[i]) && Sort(Filter(s, p), key) != [] && Sort(Filter(s, p), key)[0] == s[i]
    ensures forall j :: 0 <= j < |s| && p(s[j]) ==> key(s[i]) < key(s[j]) || (key(s[i]) == key(s[j]) && i <= j)
  {
    var front, last := s[..|s| - 1], s[|s| - 1];
    assert s == front + [last];
    if Filter(front, p) == [] {
      i := |s| - 1;
      OnlyOneSelected(front, last, p, key);
    } else {
      i := SelectedHead(front, p, key);
      HeadOneMore(front, last, p, key);
      if p(last) && key(front[i]) > key(last) {
        i := |s| - 1;
      }
    }
  }

  lemma OnlyOneSelected<T>(front: seq<T>, x: T, p: T -> bool, key: T -> nat)
    requires Filter(front, p) == [] && Filter(front + [x], p) != []
    ensures p(x) && Sort(Filter(front + [x], p), key) == [x] && forall j :: 0 <= j < |front| ==> !p(front[j])
  {
    FilterSnoc(front, x, p);
    assert [x][..0] == [] && Filter(front + [x], p) == [x];
    forall j | 0 <= j < |front| ensures !p(front[j]) {
      FilterIn(front, p, front[j]);
    }
  }

  lemma HeadOneMore<T>(front: seq<T>, x: T, p: T -> bool, key: T -> nat)
    requires Sort(Filter(front, p), key) != []
    ensures var before, after := Sort(Filter(front, p), key), Sort(Filter(front + [x], p), key);
      after != [] && after[0] == if p(x) && key(before[0]) > key(x) then x else before[0]
  {
    FilterSnoc(front, x, p);
    if p(x) {
      HeadOfSnoc(Filter(front, p), x, key);
    }
  }

  lemma HeadOfSnoc<T>(q: seq<T>, x: T, key: T -> nat)
    requires Sort(q, key) != []
    ensures var before, after := Sort(q, key), Sort(q + [x], key);
      after != [] && after[0] == if key(before[0]) > key(x) then x else before[0]
  {
    SortSnoc(q, x, key);
    SortSorts(q, key);
    InsertHead(Sort(q, key), x, key);
  }

  lemma SortSnoc<T>(q: seq<T>, x: T, key: T -> nat)
    ensures Sort(q + [x], key) == Insert(Sort(q, key), x, key)
  {
    assert (q + [x])[..|q|] == q;
  }

  lemma {:induction false} InsertIn<T>(s: seq<T>, x: T, key: T -> nat)
    ensures multiset(Insert(s, x, key)) == multiset(s) + multiset{x}
  {
    if s != [] && key(s[|s| - 1]) > key(x) {
      InsertIn(s[..|s| - 1], x, key);
      assert s == s[..|s| - 1] + [s[|s| - 1]];
    }
  }

  lemma {:induction false} SortIsPermutation<T>(s: seq<T>, key: T -> nat)
    ensures multiset(Sort(s, key)) == multiset(s)
  {
    if s != [] {
      SortIsPermutation(s[..|s| - 1], key);
      InsertIn(Sort(s[..|s| - 1], key), s[|s| - 1], key);
      assert s == s[..|s| - 1] + [s[|s| - 1]];
    }
  }

  lemma SortKeepsMembers<T>(s: seq<T>, key: T -> nat, x: T)
    ensures x in Sort(s, key) <==> x in s
  {
    SortIsPermutation(s, key);
    assert x in multiset(Sort(s, key)) <==> x in multiset(s);
  }

  lemma {:induction false} InsertSorted<T>(s: seq<T>, x: T, key: T -> nat)
    requires Sorted(s, key)
    ensures Sorted(Insert(s, x, key), key)
  {
    if s != [] && key(s[|s| - 1]) > key(x) {
      var front, last := s[..|s| - 1], s[|s| - 1];
      InsertSorted(front, x, key);
      forall y | y in Insert(front, x, key) ensures key(y) <= key(last) {
        InsertIn(front, x, key);
        assert y in multiset(Insert(front, x, key));
        assert y in front || y == x;
      }
      var t := Insert(front, x, key);
      forall i | 0 <= i < |t| ensures key(t[i]) <= key(last) {
        assert t[i] in t;
      }
    }
  }

  lemma {:induction false} SortSorts<T>(s: seq<T>, key: T -> nat)
    ensures Sorted(Sort(s, key), key)
  {
    if s != [] {
      SortSorts(s[..|s| - 1], key);
      InsertSorted(Sort(s[..|s| - 1], key), s[|s| - 1], key);
    }
  }

  lemma {:induction false} InsertFilter<T>(s: seq<T>, x: T, key: T -> nat, p: T -> bool)
    requires Sorted(s, key)
    ensures Filter(Insert(s, x, key), p) == if p(x) then Insert(Filter(s, p), x, key) else Filter(s, p)
  {
    if s != [] && key(s[|s| - 1]) > key(x) {
      var front, last := s[..|s| - 1], s[|s| - 1];
      InsertFilter(front, x, key, p);
      FilterSnoc(Insert(front, x, key), last, p);
      if p(last) {
        assert (Filter(front, p) + [last])[..|Filter(front, p)|] == Filter(front, p);
      }
    } else {
      FilterSnoc(s, x, p);
      var f := Filter(s, p);
      if f != [] {
        FilterIn(s, p, f[|f| - 1]);
        var i :| 0 <= i < |s| && s[i] == f[|f| - 1];
        assert key(s[i]) <= key(s[|s| - 1]) || i == |s| - 1;
      }
    }
  }

  /** Being stable, sorting commutes with selecting. */
  lemma {:induction false} SortFilter<T>(s: seq<T>, key: T -> nat, p: T -> bool)
    ensures Filter(Sort(s, key), p) == Sort(Filter(s, p), key)
  {
    if s != [] {
      var front, last := s[..|s| - 1], s[|s| - 1];
      SortFilter(front, key, p);
      SortSorts(front, key);
      InsertFilter(Sort(front, key), last, key, p);
      if p(last) {
        assert (Filter(front, p) + [last])[..|Filter(front, p)|] == Filter(front, p);
      }
    }
  }
}
