/** The library's stable sort by an integer key. */
module StableSort {
  predicate SortedBy<T>(s: seq<T>, key: T -> int) {
    forall i, j | 0 <= i < j < |s| :: key(s[i]) <= key(s[j])
  }

  /** Put `x` behind every element whose key is not larger. */
  function Insert<T>(s: seq<T>, x: T, key: T -> int): seq<T> {
    if s == [] || key(s[|s| - 1]) <= key(x) then s + [x]
    else Insert(s[..|s| - 1], x, key) + [s[|s| - 1]]
  }

  function SortBy<T>(s: seq<T>, key: T -> int): seq<T> {
    if s == [] then [] else Insert(SortBy(s[..|s| - 1], key), s[|s| - 1], key)
  }

  function Filter<T>(s: seq<T>, p: T -> bool): seq<T> {
    if s == [] then [] else Filter(s[..|s| - 1], p) + if p(s[|s| - 1]) then [s[|s| - 1]] else []
  }

  function AtKey<T>(key: T -> int, k: int): T -> bool {
    x => key(x) == k
  }

  lemma {:induction false} InsertKeepsElements<T>(s: seq<T>, x: T, key: T -> int)
    ensures multiset(Insert(s, x, key)) == multiset(s) + multiset{x}
    ensures |Insert(s, x, key)| == |s| + 1
  {
    if !(s == [] || key(s[|s| - 1]) <= key(x)) {
      InsertKeepsElements(s[..|s| - 1], x, key);
      assert s == s[..|s| - 1] + [s[|s| - 1]];
    }
  }

  lemma {:induction false} InsertBounded<T>(s: seq<T>, x: T, key: T -> int, bound: int)
    requires key(x) <= bound && forall i | 0 <= i < |s| :: key(s[i]) <= bound
    ensures forall i | 0 <= i < |Insert(s, x, key)| :: key(Insert(s, x, key)[i]) <= bound
  {
    if !(s == [] || key(s[|s| - 1]) <= key(x)) {
      InsertBounded(s[..|s| - 1], x, key, bound);
    }
  }

  lemma {:induction false} InsertSorts<T>(s: seq<T>, x: T, key: T -> int)
    requires SortedBy(s, key)
    ensures SortedBy(Insert(s, x, key), key)
  {
    if !(s == [] || key(s[|s| - 1]) <= key(x)) {
      InsertSorts(s[..|s| - 1], x, key);
      InsertBounded(s[..|s| - 1], x, key, key(s[|s| - 1]));
    }
  }

  lemma {:induction false} Sorts<T>(s: seq<T>, key: T -> int)
    ensures SortedBy(SortBy(s, key), key)
    ensures multiset(SortBy(s, key)) == multiset(s)
    ensures |SortBy(s, key)| == |s|
  {
    if s != [] {
      var front, last := s[..|s| - 1], s[|s| - 1];
      Sorts(front, key);
      InsertSorts(SortBy(front, key), last, key);
      InsertKeepsElements(SortBy(front, key), last, key);
      assert s == front + [last];
    }
  }

  /** Elements with equal keys keep their order. */
  lemma {:induction false} SortIsStable<T>(s: seq<T>, key: T -> int, k: int)
    ensures Filter(SortBy(s, key), AtKey(key, k)) == Filter(s, AtKey(key, k))
  {
    if s != [] {
      var front, last := s[..|s| - 1], s[|s| - 1];
      SortIsStable(front, key, k);
      Sorts(front, key);
      InsertIsStable(SortBy(front, key), last, key, k);
    }
  }

  lemma {:induction false} InsertIsStable<T>(s: seq<T>, x: T, key: T -> int, k: int)
    requires SortedBy(s, key)
    ensures Filter(Insert(s, x, key), AtKey(key, k)) == Filter(s, AtKey(key, k)) + if key(x) == k then [x] else []
  {
    if s == [] || key(s[|s| - 1]) <= key(x) {
      assert (s + [x])[..|s|] == s;
    } else {
      var front, last := s[..|s| - 1], s[|s| - 1];
      InsertIsStable(front, x, key, k);
      assert (Insert(front, x, key) + [last])[..|Insert(front, x, key)|] == Insert(front, x, key);
    }
  }

  lemma {:induction false} SortedStays<T>(s: seq<T>, key: T -> int)
    requires SortedBy(s, key)
    ensures SortBy(s, key) == s
  {
    if s != [] {
      SortedStays(s[..|s| - 1], key);
      assert s[..|s| - 1] + [s[|s| - 1]] == s;
    }
  }

  /** Sorting does not break distinctness of names. */
  predicate DistinctBy<T, N(==)>(s: seq<T>, name: T -> N) {
    forall i, j | 0 <= i < j < |s| :: name(s[i]) != name(s[j])
  }

  lemma {:induction false} InsertKeepsDistinct<T, N>(s: seq<T>, x: T, key: T -> int, name: T -> N)
    requires SortedBy(s, key) && DistinctBy(s, name)
    requires forall i | 0 <= i < |s| :: name(s[i]) != name(x)
    ensures DistinctBy(Insert(s, x, key), name)
  {
    if !(s == [] || key(s[|s| - 1]) <= key(x)) {
      var front, last := s[..|s| - 1], s[|s| - 1];
      InsertKeepsDistinct(front, x, key, name);
      InsertKeepsElements(front, x, key);
      var inserted := Insert(front, x, key);
      forall i | 0 <= i < |inserted|
        ensures name(inserted[i]) != name(last)
      {
        assert inserted[i] in multiset(inserted);
        if inserted[i] != x {
          var k :| 0 <= k < |front| && front[k] == inserted[i];
          assert s[k] == inserted[i];
        }
      }
    }
  }

  lemma {:induction false} SortKeepsDistinct<T, N>(s: seq<T>, key: T -> int, name: T -> N)
    requires DistinctBy(s, name)
    ensures DistinctBy(SortBy(s, key), name)
  {
    if s != [] {
      var front, last := s[..|s| - 1], s[|s| - 1];
      SortKeepsDistinct(front, key, name);
      Sorts(front, key);
      var sorted := SortBy(front, key);
      forall i | 0 <= i < |sorted|
        ensures name(sorted[i]) != name(last)
      {
        assert sorted[i] in multiset(sorted);
        var k :| 0 <= k < |front| && front[k] == sorted[i];
        assert s[k] == sorted[i];
      }
      InsertKeepsDistinct(sorted, last, key, name);
    }
  }
}
