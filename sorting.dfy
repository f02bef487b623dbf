/**
 * JavaScript's `sort((a, b) => key(b) - key(a))`: a stable sort, largest key first, as an
 * insertion sort over the list, and the "first n" slice the dashboards take from it.
 */
module Sorting {
  import opened Common

  predicate SortedDesc<T>(s: seq<T>, key: T -> int)
  {
    forall i, j :: 0 <= i < j < |s| ==> key(s[i]) >= key(s[j])
  }

  /** Places `x` after the last element whose key is at least its own, so equal keys keep their order. */
  function InsertDesc<T>(x: T, s: seq<T>, key: T -> int): (r: seq<T>)
    ensures |r| == |s| + 1
  {
    if s == [] || key(s[|s| - 1]) >= key(x) then s + [x]
    else InsertDesc(x, s[..|s| - 1], key) + [s[|s| - 1]]
  }

  /** The stable sort: each element in turn is inserted into the sorted elements before it. */
  function SortDesc<T>(s: seq<T>, key: T -> int): (r: seq<T>)
    ensures |r| == |s|
    ensures SortedDesc(r, key)
  {
    if s == [] then []
    else
      var sorted := SortDesc(s[..|s| - 1], key);
      InsertDescOrdered(s[|s| - 1], sorted, key);
      InsertDesc(s[|s| - 1], sorted, key)
  }

  /** The insertion adds `x` and loses nothing. */
  lemma {:induction false} InsertDescPermutes<T>(x: T, s: seq<T>, key: T -> int)
    ensures multiset(InsertDesc(x, s, key)) == multiset(s) + multiset{x}
  {
    if s != [] && key(s[|s| - 1]) < key(x) {
      InsertDescPermutes(x, s[..|s| - 1], key);
      assert s == s[..|s| - 1] + [s[|s| - 1]];
    }
  }

  lemma InsertDescElements<T>(x: T, s: seq<T>, key: T -> int)
    ensures forall y :: y in InsertDesc(x, s, key) ==> y == x || y in s
  {
    var r := InsertDesc(x, s, key);
    InsertDescPermutes(x, s, key);
    forall y | y in r ensures y == x || y in s {
      assert y in multiset(r);
    }
  }

  /** Inserting into a sorted list keeps it sorted. */
  lemma {:induction false} InsertDescOrdered<T>(x: T, s: seq<T>, key: T -> int)
    requires SortedDesc(s, key)
    ensures SortedDesc(InsertDesc(x, s, key), key)
  {
    if s != [] && key(s[|s| - 1]) < key(x) {
      var init, last := s[..|s| - 1], s[|s| - 1];
      assert SortedDesc(init, key);
      InsertDescOrdered(x, init, key);
      InsertDescElements(x, init, key);
      var rest := InsertDesc(x, init, key);
      var r := rest + [last];
      forall i, j | 0 <= i < j < |r| ensures key(r[i]) >= key(r[j]) {
        if j == |r| - 1 {
          assert r[i] == rest[i] && r[i] in rest;
          if r[i] != x {
            var k :| 0 <= k < |init| && init[k] == r[i];
            assert s[k] == init[k];
          }
        } else {
          assert r[i] == rest[i] && r[j] == rest[j];
        }
      }
    }
  }

  /** Where the insertion lands: after the prefix with keys at least `x`'s, before the smaller suffix. */
  lemma {:induction false} InsertDescAt<T>(x: T, s: seq<T>, j: nat, key: T -> int)
    requires j <= |s|
    requires forall k :: j <= k < |s| ==> key(s[k]) < key(x)
    requires j == 0 || key(s[j - 1]) >= key(x)
    ensures InsertDesc(x, s, key) == s[..j] + [x] + s[j..]
    decreases |s|
  {
    if j == |s| {
      assert s[..j] == s && s[j..] == [];
    } else {
      var init, last := s[..|s| - 1], s[|s| - 1];
      assert key(last) < key(x);
      assert InsertDesc(x, s, key) == InsertDesc(x, init, key) + [last];
      forall k | j <= k < |init| ensures key(init[k]) < key(x) {
        assert init[k] == s[k];
      }
      if j > 0 {
        assert init[j - 1] == s[j - 1];
      }
      InsertDescAt(x, init, j, key);
      SplitAroundLast(s, x, j);
    }
  }

  lemma SplitAroundLast<T>(s: seq<T>, x: T, j: nat)
    requires j < |s|
    ensures s[..j] + [x] + s[j..] == s[..|s| - 1][..j] + [x] + s[..|s| - 1][j..] + [s[|s| - 1]]
  {
    assert s[..j] == s[..|s| - 1][..j];
    assert s[j..] == s[..|s| - 1][j..] + [s[|s| - 1]];
  }

  /** The sort is a permutation. */
  lemma {:induction false} SortDescPermutes<T>(s: seq<T>, key: T -> int)
    ensures multiset(SortDesc(s, key)) == multiset(s)
  {
    if s != [] {
      SortDescPermutes(s[..|s| - 1], key);
      InsertDescPermutes(s[|s| - 1], SortDesc(s[..|s| - 1], key), key);
      assert s == s[..|s| - 1] + [s[|s| - 1]];
    }
  }

  lemma SortDescSameElements<T>(s: seq<T>, key: T -> int)
    ensures forall x :: x in SortDesc(s, key) <==> x in s
  {
    var r := SortDesc(s, key);
    SortDescPermutes(s, key);
    forall x ensures x in r <==> x in s {
      assert x in r <==> x in multiset(r);
      assert x in s <==> x in multiset(s);
    }
  }

  /** The elements whose key is `v`. */
  function WithKey<T>(key: T -> int, v: int): T -> bool
  {
    (y: T) => key(y) == v
  }

  /** The insertion puts `x` after every element of the same key and moves no other element of that key. */
  lemma {:induction false} InsertDescKeepsTies<T(!new)>(x: T, s: seq<T>, key: T -> int, v: int)
    ensures Filter(InsertDesc(x, s, key), WithKey(key, v)) ==
      Filter(s, WithKey(key, v)) + (if key(x) == v then [x] else [])
  {
    var p := WithKey(key, v);
    var tie := if key(x) == v then [x] else [];
    if s == [] || key(s[|s| - 1]) >= key(x) {
      assert InsertDesc(x, s, key) == s + [x];
      assert p(x) == (key(x) == v);
      FilterLast(s + [x], p);
      assert (s + [x])[..|s|] == s;
    } else {
      var init, last := s[..|s| - 1], s[|s| - 1];
      var rest := InsertDesc(x, init, key);
      var own := if p(last) then [last] else [];
      assert own == [] || tie == [] by {
        assert p(last) == (key(last) == v);
      }
      calc {
        Filter(InsertDesc(x, s, key), p);
        Filter(rest + [last], p);
        { FilterLast(rest + [last], p);
          assert (rest + [last])[..|rest|] == rest; }
        Filter(rest, p) + own;
        { InsertDescKeepsTies(x, init, key, v); }
        Filter(init, p) + tie + own;
        { if tie == [] { assert Filter(init, p) + tie == Filter(init, p); }
          else { assert own == [] && Filter(init, p) + tie + own == Filter(init, p) + tie; } }
        Filter(init, p) + own + tie;
        { FilterLast(s, p); }
        Filter(s, p) + tie;
      }
    }
  }

  /** The sort is stable: the elements sharing any one key come out in the order they went in. */
  lemma {:induction false} SortDescStable<T(!new)>(s: seq<T>, key: T -> int, v: int)
    ensures Filter(SortDesc(s, key), WithKey(key, v)) == Filter(s, WithKey(key, v))
  {
    if s != [] {
      SortDescStable(s[..|s| - 1], key, v);
      InsertDescKeepsTies(s[|s| - 1], SortDesc(s[..|s| - 1], key), key, v);
      FilterLast(s, WithKey(key, v));
    }
  }

  /** Sorting one more element of a prefix inserts it into the sorted prefix. */
  lemma SortDescStep<T>(s: seq<T>, i: nat, key: T -> int)
    requires i < |s|
    ensures SortDesc(s[..i + 1], key) == InsertDesc(s[i], SortDesc(s[..i], key), key)
  {
    assert s[..i + 1][..i] == s[..i];
  }

  /** `sort(...).slice(0, n)`. */
  function TopDesc<T>(s: seq<T>, key: T -> int, n: nat): (r: seq<T>)
    ensures |r| == Min(n, |s|)
    ensures SortedDesc(r, key)
  {
    SortDesc(s, key)[..Min(n, |s|)]
  }

  /**
   * The first `n` after sorting: sorted, taken from `s`, and no element left out has a larger
   * key than the last one kept; when `s` has at most `n` elements every one of them is kept.
   */
  lemma TopDescIsLargest<T>(s: seq<T>, key: T -> int, n: nat)
    ensures SortedDesc(TopDesc(s, key, n), key)
    ensures forall x :: x in TopDesc(s, key, n) ==> x in s
    ensures var r := TopDesc(s, key, n);
      forall x :: x in s && x !in r && r != [] ==> key(x) <= key(r[|r| - 1])
    ensures |s| <= n ==> multiset(TopDesc(s, key, n)) == multiset(s)
  {
    var sorted := SortDesc(s, key);
    var r := TopDesc(s, key, n);
    SortDescSameElements(s, key);
    SortDescPermutes(s, key);
    assert r == sorted[..|r|];
    forall x | x in s && x !in r && r != [] ensures key(x) <= key(r[|r| - 1]) {
      var k :| 0 <= k < |sorted| && sorted[k] == x;
      assert sorted[|r| - 1] == r[|r| - 1];
    }
    forall x | x in r ensures x in s {
      var k :| 0 <= k < |r| && r[k] == x;
      assert sorted[k] == x;
      assert x in sorted;
      assert x in SortDesc(s, key);
      assert x in multiset(s);
    }
    if |s| <= n {
      assert r == sorted;
    }
  }
}
