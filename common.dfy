/** Values shared by every part of the model. */
module Common {

  /** A value that may be absent: a nullable column or an optional field. */
  datatype Option<T> = None | Some(value: T) {
    function GetOr(default: T): T {
      match this
      case Some(v) => v
      case None => default
    }
  }

  /** What a guarded server page does: send the visitor elsewhere, or render its view. */
  datatype PageGate<V> = RedirectLogin | RedirectHome | Render(view: V)

  /** A row of `profiles`, reduced to the role the gates read. */
  datatype Profile = Profile(id: string, userType: string)

  /** JavaScript's `x || fallback` on a nullable string: null and "" both give the fallback. */
  function OrElse(v: Option<string>, fallback: string): (r: string)
    ensures v.Some? && v.value != "" ==> r == v.value
    ensures v.None? || v.value == "" ==> r == fallback
    ensures r == fallback <==> v.None? || v.value == "" || v.value == fallback
  {
    if v.Some? && v.value != "" then v.value else fallback
  }

  function Min(a: int, b: int): int { if a <= b then a else b }

  function Max(a: int, b: int): int { if a >= b then a else b }

  /** Number of elements of `s` satisfying `p` (JavaScript's `s.filter(p).length`). */
  function CountWhere<T>(s: seq<T>, p: T -> bool): (n: nat)
    ensures n <= |s|
  {
    if s == [] then 0 else CountWhere(s[..|s| - 1], p) + (if p(s[|s| - 1]) then 1 else 0)
  }

  /** Either of two predicates. */
  function Either<T>(p: T -> bool, q: T -> bool): T -> bool
  {
    x => p(x) || q(x)
  }

  /** Counts of predicates that never hold together add up to the count of their disjunction. */
  lemma {:induction false} CountSplit<T>(s: seq<T>, p: T -> bool, q: T -> bool)
    requires forall x :: x in s ==> !(p(x) && q(x))
    ensures CountWhere(s, p) + CountWhere(s, q) == CountWhere(s, Either(p, q))
  {
    if s != [] {
      assert s[|s| - 1] in s;
      assert forall x :: x in s[..|s| - 1] ==> x in s;
      CountSplit(s[..|s| - 1], p, q);
    }
  }

  /** When `q` holds exactly where `p` does not, their counts add up to the length. */
  lemma {:induction false} CountComplement<T>(s: seq<T>, p: T -> bool, q: T -> bool)
    requires forall x :: x in s ==> (q(x) <==> !p(x))
    ensures CountWhere(s, p) + CountWhere(s, q) == |s|
  {
    if s != [] {
      assert s[|s| - 1] in s;
      assert forall x :: x in s[..|s| - 1] ==> x in s;
      CountComplement(s[..|s| - 1], p, q);
    }
  }

  /** JavaScript's `s.filter(p)`: the elements satisfying `p`, in their original order. */
  function Filter<T(!new)>(s: seq<T>, p: T -> bool): (r: seq<T>)
    ensures |r| == CountWhere(s, p)
    ensures forall x :: x in r <==> x in s && p(x)
  {
    if s == [] then [] else Filter(s[..|s| - 1], p) + (if p(s[|s| - 1]) then [s[|s| - 1]] else [])
  }

  /** Filtering with a predicate every element satisfies changes nothing. */
  lemma {:induction false} FilterAll<T(!new)>(s: seq<T>, p: T -> bool)
    requires forall x :: x in s ==> p(x)
    ensures Filter(s, p) == s
  {
    if s != [] {
      FilterAll(s[..|s| - 1], p);
      assert s == s[..|s| - 1] + [s[|s| - 1]];
    }
  }

  /** Filtering depends only on which elements the predicate accepts. */
  lemma {:induction false} FilterSame<T(!new)>(s: seq<T>, p: T -> bool, q: T -> bool)
    requires forall x :: x in s ==> p(x) == q(x)
    ensures Filter(s, p) == Filter(s, q)
  {
    if s != [] {
      FilterSame(s[..|s| - 1], p, q);
      assert s[|s| - 1] in s;
    }
  }

  /** The conjunction of two predicates. */
  function Both<T>(p: T -> bool, q: T -> bool): T -> bool
  {
    x => p(x) && q(x)
  }

  /** Filtering by `p` and then by `q` is filtering by both at once. */
  lemma {:induction false} FilterFilter<T(!new)>(s: seq<T>, p: T -> bool, q: T -> bool)
    ensures Filter(Filter(s, p), q) == Filter(s, Both(p, q))
  {
    if s != [] {
      var init := s[..|s| - 1];
      FilterFilter(init, p, q);
      var last := s[|s| - 1];
      var fp := Filter(s, p);
      assert fp == Filter(init, p) + (if p(last) then [last] else []);
      FilterAppend(Filter(init, p), if p(last) then [last] else [], q);
    }
  }

  /** A filter that no element passes keeps nothing. */
  lemma {:induction false} FilterNone<T(!new)>(s: seq<T>, p: T -> bool)
    requires forall k :: 0 <= k < |s| ==> !p(s[k])
    ensures Filter(s, p) == []
  {
    if s != [] {
      FilterNone(s[..|s| - 1], p);
    }
  }

  lemma {:induction false} FilterAppend<T(!new)>(a: seq<T>, b: seq<T>, p: T -> bool)
    ensures Filter(a + b, p) == Filter(a, p) + Filter(b, p)
    decreases |b|
  {
    if b == [] {
      assert a + b == a;
    } else {
      var b0, z := b[..|b| - 1], b[|b| - 1];
      var tail := if p(z) then [z] else [];
      assert Filter(a + b, p) == Filter(a + b0, p) + tail by {
        FilterLast(a + b, p);
        assert (a + b)[..|a + b| - 1] == a + b0 && (a + b)[|a + b| - 1] == z;
      }
      assert Filter(b, p) == Filter(b0, p) + tail by {
        FilterLast(b, p);
      }
      FilterAppend(a, b0, p);
      var fa, fb := Filter(a, p), Filter(b0, p);
      assert fa + fb + tail == fa + (fb + tail);
    }
  }

  /** `Filter` peels the last element off. */
  lemma FilterLast<T(!new)>(s: seq<T>, p: T -> bool)
    requires s != []
    ensures Filter(s, p) == Filter(s[..|s| - 1], p) + (if p(s[|s| - 1]) then [s[|s| - 1]] else [])
  {
  }

  predicate Distinct(es: seq<string>)
  {
    forall i, j :: 0 <= i < j < |es| ==> es[i] != es[j]
  }

  /** The strings in order of their first appearance, each once. */
  function FirstAppearances(es: seq<string>): seq<string>
  {
    if es == [] then []
    else
      var init := FirstAppearances(es[..|es| - 1]);
      if es[|es| - 1] in es[..|es| - 1] then init else init + [es[|es| - 1]]
  }

  /** The first appearances hold the same strings as the list, each once. */
  lemma {:induction false} FirstAppearancesSameElements(es: seq<string>)
    ensures forall e :: e in FirstAppearances(es) <==> e in es
    ensures Distinct(FirstAppearances(es))
  {
    if es != [] {
      var init := es[..|es| - 1];
      FirstAppearancesSameElements(init);
      assert es == init + [es[|es| - 1]];
    }
  }

  /** A list of distinct strings has as many elements as its set. */
  lemma {:induction false} DistinctCard(es: seq<string>)
    requires Distinct(es)
    ensures |set e | e in es| == |es|
  {
    if es != [] {
      var init := es[..|es| - 1];
      var last := es[|es| - 1];
      DistinctCard(init);
      assert (set e | e in es) == (set e | e in init) + {last};
      assert last !in init;
    }
  }

  /**
   * A store table the application only inserts into: each successful `insert` call adds
   * its whole batch at once; `fails` is the store's answer.
   */
  class InsertLog<T> {
    var batches: seq<seq<T>>

    constructor ()
      ensures batches == []
    {
      batches := [];
    }

    method Insert(rows: seq<T>, fails: bool) returns (ok: bool)
      modifies this
      ensures ok == !fails
      ensures batches == if ok then old(batches) + [rows] else old(batches)
    {
      ok := !fails;
      if ok {
        batches := batches + [rows];
      }
    }
  }
}
