/**
 * Small building blocks shared by the models of the front end's modules:
 * an optional value (the source's `T | null` / `undefined`), order-keeping
 * filtering, and the "first maximum" selection that a JavaScript
 * `reduce((best, cur) => key(cur) > key(best) ? cur : best)` performs.
 */
module Base {

  /** A value that may be missing: JavaScript's `null` / `undefined`. */
  datatype Option<+T> = None | Some(value: T) {

    /** The value, or `default` when it is missing (JavaScript's `x ?? default`). */
    function GetOr(default: T): T {
      match this
      case Some(v) => v
      case None => default
    }
  }

  /**
   * The elements of `xs` that satisfy `p`, in their original order
   * (`Array.prototype.filter`). Which elements are kept, and how often, is
   * stated by `FilterMultiset` and `FilterMembers`.
   */
  function Filter<T(!new)>(xs: seq<T>, p: T -> bool): (r: seq<T>)
    ensures |r| <= |xs|
    ensures forall i :: 0 <= i < |r| ==> p(r[i])
    ensures (forall i :: 0 <= i < |xs| ==> p(xs[i])) ==> r == xs
  {
    if |xs| == 0 then []
    else
      var rest := Filter(xs[1..], p);
      if p(xs[0]) then [xs[0]] + rest else rest
  }

  /** Filtering a concatenation filters each part and keeps them in order. */
  lemma {:induction false} FilterAppend<T(!new)>(xs: seq<T>, ys: seq<T>, p: T -> bool)
    ensures Filter(xs + ys, p) == Filter(xs, p) + Filter(ys, p)
    decreases |xs|
  {
    if |xs| == 0 {
      assert xs + ys == ys;
    } else {
      assert (xs + ys)[0] == xs[0] && (xs + ys)[1..] == xs[1..] + ys;
      FilterAppend(xs[1..], ys, p);
    }
  }

  /** Each satisfying element is kept as often as it occurs, and no other element is kept. */
  lemma {:induction false} FilterMultiset<T(!new)>(xs: seq<T>, p: T -> bool)
    ensures forall x :: multiset(Filter(xs, p))[x] == if p(x) then multiset(xs)[x] else 0
    decreases |xs|
  {
    if |xs| > 0 {
      FilterMultiset(xs[1..], p);
      assert xs == [xs[0]] + xs[1..];
      var head := if p(xs[0]) then [xs[0]] else [];
      assert Filter(xs, p) == head + Filter(xs[1..], p);
    }
  }

  /** An element is kept exactly when it occurs in the list and satisfies `p`. */
  lemma FilterMembers<T(!new)>(xs: seq<T>, p: T -> bool)
    ensures forall x :: x in Filter(xs, p) <==> x in xs && p(x)
  {
    FilterMultiset(xs, p);
    forall x ensures x in Filter(xs, p) <==> x in xs && p(x) {
      assert x in Filter(xs, p) <==> multiset(Filter(xs, p))[x] > 0;
      assert x in xs <==> multiset(xs)[x] > 0;
    }
  }

  /** Nothing is dropped exactly when every element satisfies `p`. */
  lemma {:induction false} FilterKeepsAllIff<T(!new)>(xs: seq<T>, p: T -> bool)
    ensures |Filter(xs, p)| == |xs| <==> forall i :: 0 <= i < |xs| ==> p(xs[i])
    decreases |xs|
  {
    if |xs| > 0 {
      FilterKeepsAllIff(xs[1..], p);
      assert forall i :: 1 <= i < |xs| ==> xs[i] == xs[1..][i - 1];
    }
  }

  /** The positions of `xs` whose element satisfies `p`. */
  ghost function IndicesWhere<T>(xs: seq<T>, p: T -> bool): set<int> {
    set i | 0 <= i < |xs| && p(xs[i])
  }

  /** The number of kept elements is the number of positions whose element satisfies `p`. */
  lemma {:induction false} FilterCount<T(!new)>(xs: seq<T>, p: T -> bool)
    ensures |Filter(xs, p)| == |IndicesWhere(xs, p)|
    decreases |xs|
  {
    if |xs| > 0 {
      var init, last := xs[..|xs| - 1], xs[|xs| - 1];
      assert xs == init + [last];
      FilterAppend(init, [last], p);
      FilterCount(init, p);
      var all := set i | 0 <= i < |xs| && p(xs[i]);
      var before := set i | 0 <= i < |init| && p(init[i]);
      if p(last) {
        assert all == before + {|xs| - 1};
      } else {
        assert all == before;
      }
    }
  }

  /** At most the first `n` elements of `xs` (`Array.prototype.slice(0, n)`). */
  function Take<T>(xs: seq<T>, n: nat): (r: seq<T>)
    ensures |r| == if |xs| < n then |xs| else n
    ensures r == xs[..|r|]
  {
    if |xs| <= n then xs else xs[..n]
  }

  /** What `Take` keeps is part of the list: no element more often than it occurs. */
  lemma TakeWithin<T>(xs: seq<T>, n: nat)
    ensures multiset(Take(xs, n)) <= multiset(xs)
  {
    assert xs == Take(xs, n) + xs[|Take(xs, n)|..];
  }

  /**
   * `x` sits at index `k` of `xs`, no element has a larger key, and every element
   * before `k` has a strictly smaller key: the first of the maximal elements.
   */
  ghost predicate IsFirstMaxAt<T>(xs: seq<T>, key: T -> real, k: int) {
    && 0 <= k < |xs|
    && (forall j :: 0 <= j < |xs| ==> key(xs[j]) <= key(xs[k]))
    && (forall j :: 0 <= j < k ==> key(xs[j]) < key(xs[k]))
  }

  /**
   * The index that `xs.reduce((best, cur) => key(cur) > key(best) ? cur : best)`
   * ends on: a left fold that starts with the first element and replaces the
   * running best only on a strictly larger key.
   */
  function FirstMaxIndex<T>(xs: seq<T>, key: T -> real): (k: nat)
    requires |xs| > 0
    ensures IsFirstMaxAt(xs, key, k)
    decreases |xs|
  {
    if |xs| == 1 then 0
    else
      var init := xs[..|xs| - 1];
      var k := FirstMaxIndex(init, key);
      assert forall j :: 0 <= j < |init| ==> init[j] == xs[j];
      if key(xs[|xs| - 1]) > key(xs[k]) then |xs| - 1 else k
  }

  /** Only one index can be the first maximum. */
  lemma FirstMaxUnique<T>(xs: seq<T>, key: T -> real, k1: int, k2: int)
    requires IsFirstMaxAt(xs, key, k1) && IsFirstMaxAt(xs, key, k2)
    ensures k1 == k2
  {
    var first, second := key(xs[k1]), key(xs[k2]);
  }
}
