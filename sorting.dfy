/**
 * A stable sort by a real-valued key, the common meaning of Python's `sorted(key=...)` and of
 * the `ORDER BY` clauses of the query templates (ties are kept in input order), together with
 * the list filter that the comprehensions and `WHERE` clauses perform.
 */
module Sorting {

  /** `[y for y in xs if p(y)]` */
  function Filter<T>(xs: seq<T>, p: T -> bool): (r: seq<T>)
    ensures |r| <= |xs|
    ensures forall k :: 0 <= k < |r| ==> p(r[k])
    decreases |xs|
  {
    if xs == [] then []
    else
      (if p(xs[0]) then [xs[0]] else []) + Filter(xs[1..], p)
  }

  lemma {:induction false} FilterAppend<T>(a: seq<T>, b: seq<T>, p: T -> bool)
    ensures Filter(a + b, p) == Filter(a, p) + Filter(b, p)
    decreases |a|
  {
    if a == [] {
      assert a + b == b;
    } else {
      assert (a + b)[0] == a[0];
      assert (a + b)[1..] == a[1..] + b;
      FilterAppend(a[1..], b, p);
    }
  }

  /** A filter that rejects every element gives the empty list. */
  lemma {:induction false} FilterNone<T>(xs: seq<T>, p: T -> bool)
    requires forall k :: 0 <= k < |xs| ==> !p(xs[k])
    ensures Filter(xs, p) == []
    decreases |xs|
  {
    if xs != [] {
      FilterNone(xs[1..], p);
    }
  }

  /** Every element that passes the filter is kept. */
  lemma {:induction false} FilterKeeps<T>(xs: seq<T>, p: T -> bool, y: T)
    requires y in xs && p(y)
    ensures y in Filter(xs, p)
    decreases |xs|
  {
    if xs[0] != y {
      FilterKeeps(xs[1..], p, y);
    }
  }

  /** The filter keeps only elements of its input. */
  lemma {:induction false} FilterSubset<T>(xs: seq<T>, p: T -> bool, y: T)
    requires y in Filter(xs, p)
    ensures y in xs && p(y)
    decreases |xs|
  {
    if xs[0] != y {
      FilterSubset(xs[1..], p, y);
    }
  }

  ghost predicate SortedBy<T>(s: seq<T>, key: T -> real) {
    forall i, j :: 0 <= i < j < |s| ==> key(s[i]) <= key(s[j])
  }

  /** Places `x` after every element whose key is not greater than its own. */
  function Insert<T>(x: T, s: seq<T>, key: T -> real): seq<T>
    decreases |s|
  {
    if s == [] then [x]
    else if key(x) < key(s[0]) then [x] + s
    else [s[0]] + Insert(x, s[1..], key)
  }

  ghost predicate KeysAtLeast<T>(s: seq<T>, key: T -> real, lo: real) {
    forall k :: 0 <= k < |s| ==> lo <= key(s[k])
  }

  lemma {:induction false} InsertKeepsLowerBound<T>(x: T, s: seq<T>, key: T -> real, lo: real)
    requires KeysAtLeast(s, key, lo) && lo <= key(x)
    ensures KeysAtLeast(Insert(x, s, key), key, lo)
    decreases |s|
  {
    if s != [] && key(x) >= key(s[0]) {
      InsertKeepsLowerBound(x, s[1..], key, lo);
    }
  }

  lemma {:induction false} InsertSorted<T>(x: T, s: seq<T>, key: T -> real)
    requires SortedBy(s, key)
    ensures SortedBy(Insert(x, s, key), key)
    decreases |s|
  {
    if s == [] {
    } else if key(x) < key(s[0]) {
      var r := [x] + s;
      forall i, j | 0 <= i < j < |r| ensures key(r[i]) <= key(r[j]) {
        if i > 0 {
          assert r[i] == s[i - 1] && r[j] == s[j - 1];
        } else {
          assert r[j] == s[j - 1];
        }
      }
    } else {
      InsertSorted(x, s[1..], key);
      InsertKeepsLowerBound(x, s[1..], key, key(s[0]));
      var t := Insert(x, s[1..], key);
      var r := [s[0]] + t;
      forall i, j | 0 <= i < j < |r| ensures key(r[i]) <= key(r[j]) {
        if i > 0 {
          assert r[i] == t[i - 1] && r[j] == t[j - 1];
        } else {
          assert r[j] == t[j - 1];
        }
      }
    }
  }

  lemma {:induction false} InsertPermutes<T>(x: T, s: seq<T>, key: T -> real)
    ensures multiset(Insert(x, s, key)) == multiset(s) + multiset{x}
    ensures |Insert(x, s, key)| == |s| + 1
    decreases |s|
  {
    if s != [] && key(x) >= key(s[0]) {
      InsertPermutes(x, s[1..], key);
      assert s == [s[0]] + s[1..];
    }
  }

  lemma SnocMultiset<T>(xs: seq<T>)
    requires xs != []
    ensures multiset(xs) == multiset(xs[..|xs| - 1]) + multiset{xs[|xs| - 1]}
  {
    assert xs == xs[..|xs| - 1] + [xs[|xs| - 1]];
  }

  /** Stable insertion sort: elements enter in input order, each after its equals. */
  function SortBy<T>(xs: seq<T>, key: T -> real): (r: seq<T>)
    ensures SortedBy(r, key)
    ensures multiset(r) == multiset(xs)
    ensures |r| == |xs|
    decreases |xs|
  {
    if xs == [] then []
    else
      var init, last := xs[..|xs| - 1], xs[|xs| - 1];
      var sortedInit := SortBy(init, key);
      InsertSorted(last, sortedInit, key);
      InsertPermutes(last, sortedInit, key);
      SnocMultiset(xs);
      Insert(last, sortedInit, key)
  }

  lemma {:induction false} FilterKeepsLowerBound<T>(s: seq<T>, p: T -> bool, key: T -> real, lo: real)
    requires KeysAtLeast(s, key, lo)
    ensures KeysAtLeast(Filter(s, p), key, lo)
    decreases |s|
  {
    if s != [] {
      FilterKeepsLowerBound(s[1..], p, key, lo);
    }
  }

  lemma {:induction false} FilterCons<T>(y: T, s: seq<T>, p: T -> bool)
    ensures Filter([y] + s, p) == (if p(y) then [y] else []) + Filter(s, p)
  {
    assert ([y] + s)[0] == y;
    assert ([y] + s)[1..] == s;
  }

  lemma {:induction false} FilterInsertKept<T>(x: T, s: seq<T>, key: T -> real, p: T -> bool)
    requires SortedBy(s, key) && p(x)
    ensures Filter(Insert(x, s, key), p) == Insert(x, Filter(s, p), key)
    decreases |s|
  {
    if s == [] {
      FilterCons(x, [], p);
    } else {
      var f := Filter(s, p);
      assert s == [s[0]] + s[1..];
      FilterCons(s[0], s[1..], p);
      if key(x) < key(s[0]) {
        FilterCons(x, s, p);
        FilterKeepsLowerBound(s, p, key, key(s[0]));
        assert f != [] ==> key(s[0]) <= key(f[0]);
      } else {
        assert SortedBy(s[1..], key);
        FilterInsertKept(x, s[1..], key, p);
        var t := Insert(x, s[1..], key);
        assert Insert(x, s, key) == [s[0]] + t;
        FilterCons(s[0], t, p);
        if p(s[0]) {
          assert f == [s[0]] + Filter(s[1..], p);
          assert f[1..] == Filter(s[1..], p);
          assert Insert(x, f, key) == [s[0]] + Insert(x, f[1..], key);
        } else {
          assert f == Filter(s[1..], p);
          assert Filter([s[0]] + t, p) == Filter(t, p);
        }
      }
    }
  }

  lemma {:induction false} FilterInsertDropped<T>(x: T, s: seq<T>, key: T -> real, p: T -> bool)
    requires !p(x)
    ensures Filter(Insert(x, s, key), p) == Filter(s, p)
    decreases |s|
  {
    if s == [] {
      assert Filter([x], p) == [] + Filter([], p);
    } else if key(x) < key(s[0]) {
      assert ([x] + s)[1..] == s;
    } else {
      FilterInsertDropped(x, s[1..], key, p);
      assert ([s[0]] + Insert(x, s[1..], key))[1..] == Insert(x, s[1..], key);
    }
  }

  /** Filtering commutes with the stable sort: sorting a sub-list gives a sub-list of the sort. */
  lemma {:induction false} SortFilterCommute<T>(xs: seq<T>, key: T -> real, p: T -> bool)
    ensures SortBy(Filter(xs, p), key) == Filter(SortBy(xs, key), p)
    decreases |xs|
  {
    if xs != [] {
      var init := xs[..|xs| - 1];
      var x := xs[|xs| - 1];
      assert xs == init + [x];
      SortFilterCommute(init, key, p);
      FilterAppend(init, [x], p);
      assert Filter([x], p) == (if p(x) then [x] else []) + Filter([], p);
      if p(x) {
        var fi := Filter(init, p);
        assert Filter(xs, p) == fi + [x];
        assert (fi + [x])[..|fi + [x]| - 1] == fi;
        FilterInsertKept(x, SortBy(init, key), key, p);
      } else {
        assert Filter(xs, p) == Filter(init, p);
        FilterInsertDropped(x, SortBy(init, key), key, p);
      }
    }
  }

  ghost predicate AllKeysEqual<T>(xs: seq<T>, key: T -> real, k: real) {
    forall i :: 0 <= i < |xs| ==> key(xs[i]) == k
  }

  lemma {:induction false} InsertAfterEquals<T>(x: T, s: seq<T>, key: T -> real, k: real)
    requires AllKeysEqual(s, key, k) && key(x) == k
    ensures Insert(x, s, key) == s + [x]
    decreases |s|
  {
    if s != [] {
      InsertAfterEquals(x, s[1..], key, k);
      assert s == [s[0]] + s[1..];
    }
  }

  lemma {:induction false} SortEqualKeysIdentity<T>(xs: seq<T>, key: T -> real, k: real)
    requires AllKeysEqual(xs, key, k)
    ensures SortBy(xs, key) == xs
    decreases |xs|
  {
    if xs != [] {
      var init := xs[..|xs| - 1];
      SortEqualKeysIdentity(init, key, k);
      InsertAfterEquals(xs[|xs| - 1], init, key, k);
      assert xs == init + [xs[|xs| - 1]];
    }
  }

  function HasKey<T>(key: T -> real, k: real): T -> bool {
    y => key(y) == k
  }

  /**
   * Stability: the elements with any one key appear in the sorted list in the order they had
   * in the input.
   */
  lemma SortIsStable<T>(xs: seq<T>, key: T -> real, k: real)
    ensures Filter(SortBy(xs, key), HasKey(key, k)) == Filter(xs, HasKey(key, k))
  {
    var f := Filter(xs, HasKey(key, k));
    SortFilterCommute(xs, key, HasKey(key, k));
    SortEqualKeysIdentity(f, key, k);
  }

  function KeyAtMost<T>(key: T -> real, c: real): T -> bool {
    y => key(y) <= c
  }

  /** Sorting a sorted list cut at `c` changes nothing: the result is a sorted prefix within `c`. */
  lemma SortedCutShape<T>(s: seq<T>, key: T -> real, c: real)
    requires SortedBy(s, key)
    ensures var f := Filter(s, KeyAtMost(key, c));
      var r := SortBy(f, key);
      && r == f
      && |r| <= |s| && r == s[..|r|]
      && SortedBy(r, key)
      && (forall i :: 0 <= i < |r| ==> key(r[i]) <= c)
  {
    var f := Filter(s, KeyAtMost(key, c));
    SortedFilterIsPrefix(s, key, c);
    PrefixSorted(s, |f|, key);
    SortSortedIdentity(f, key);
    assert forall i :: 0 <= i < |f| ==> KeyAtMost(key, c)(f[i]);
  }

  lemma PrefixSorted<T>(s: seq<T>, n: nat, key: T -> real)
    requires n <= |s| && SortedBy(s, key)
    ensures SortedBy(s[..n], key)
  {
    forall i, j | 0 <= i < j < n ensures key(s[..n][i]) <= key(s[..n][j]) {
      assert s[..n][i] == s[i] && s[..n][j] == s[j];
    }
  }

  /** In a sorted list the elements whose key is at most `c` form a prefix. */
  lemma {:induction false} SortedFilterIsPrefix<T>(s: seq<T>, key: T -> real, c: real)
    requires SortedBy(s, key)
    ensures |Filter(s, KeyAtMost(key, c))| <= |s|
    ensures Filter(s, KeyAtMost(key, c)) == s[..|Filter(s, KeyAtMost(key, c))|]
    decreases |s|
  {
    if s != [] {
      var p := KeyAtMost(key, c);
      SortedFilterIsPrefix(s[1..], key, c);
      if !p(s[0]) {
        FilterNone(s[1..], p);
      }
    }
  }

  /** Filtering by a stronger condition after a weaker one is filtering by the stronger one. */
  lemma {:induction false} FilterFilter<T>(xs: seq<T>, strong: T -> bool, weak: T -> bool)
    requires forall y :: strong(y) ==> weak(y)
    ensures Filter(Filter(xs, weak), strong) == Filter(xs, strong)
    decreases |xs|
  {
    if xs != [] {
      FilterFilter(xs[1..], strong, weak);
      assert xs == [xs[0]] + xs[1..];
      FilterCons(xs[0], xs[1..], weak);
      FilterCons(xs[0], xs[1..], strong);
      if weak(xs[0]) {
        FilterCons(xs[0], Filter(xs[1..], weak), strong);
      } else {
        assert !strong(xs[0]);
        assert Filter(xs, weak) == Filter(xs[1..], weak);
        assert Filter(xs, strong) == Filter(xs[1..], strong);
      }
    }
  }

  /** An element whose key is not below any key of a list goes at its end. */
  lemma {:induction false} InsertAtEnd<T>(x: T, s: seq<T>, key: T -> real)
    requires forall i :: 0 <= i < |s| ==> key(s[i]) <= key(x)
    ensures Insert(x, s, key) == s + [x]
    decreases |s|
  {
    if s != [] {
      InsertAtEnd(x, s[1..], key);
      assert s == [s[0]] + s[1..];
    }
  }

  /** Sorting a list that is already sorted leaves it as it is. */
  lemma {:induction false} SortSortedIdentity<T>(xs: seq<T>, key: T -> real)
    requires SortedBy(xs, key)
    ensures SortBy(xs, key) == xs
    decreases |xs|
  {
    if xs != [] {
      var init := xs[..|xs| - 1];
      SortSortedIdentity(init, key);
      InsertAtEnd(xs[|xs| - 1], init, key);
      assert xs == init + [xs[|xs| - 1]];
    }
  }

  /** Sorting what passes a tighter bound gives a prefix of sorting what passes a looser one. */
  lemma SortedBoundPrefix<T>(xs: seq<T>, key: T -> real, tight: real, loose: real)
    requires tight <= loose
    ensures |SortBy(Filter(xs, KeyAtMost(key, tight)), key)| <= |SortBy(Filter(xs, KeyAtMost(key, loose)), key)|
    ensures SortBy(Filter(xs, KeyAtMost(key, tight)), key)
      == SortBy(Filter(xs, KeyAtMost(key, loose)), key)[..|SortBy(Filter(xs, KeyAtMost(key, tight)), key)|]
  {
    var b := SortBy(Filter(xs, KeyAtMost(key, loose)), key);
    forall y | KeyAtMost(key, tight)(y) ensures KeyAtMost(key, loose)(y) {
    }
    FilterFilter(xs, KeyAtMost(key, tight), KeyAtMost(key, loose));
    SortFilterCommute(Filter(xs, KeyAtMost(key, loose)), key, KeyAtMost(key, tight));
    SortedFilterIsPrefix(b, key, tight);
  }
}
