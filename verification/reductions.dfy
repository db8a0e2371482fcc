/**
 * The reductions the scenario applies to lists of distances: Python's `min`,
 * `np.argmin`, a running sum, and `len(set(...))`.
 */
module Reductions {

  /** A running total, `total += x` over `xs` in order. */
  function Sum(xs: seq<real>): real {
    if |xs| == 0 then 0.0 else Sum(xs[..|xs| - 1]) + xs[|xs| - 1]
  }

  lemma {:induction false} SumNonNegative(xs: seq<real>)
    requires forall k :: 0 <= k < |xs| ==> 0.0 <= xs[k]
    ensures 0.0 <= Sum(xs)
  {
    if |xs| != 0 {
      SumNonNegative(xs[..|xs| - 1]);
    }
  }

  /** Python's `min` over a non-empty list: an element no larger than any other. */
  function MinOf(xs: seq<real>): (m: real)
    requires 0 < |xs|
    ensures exists k :: 0 <= k < |xs| && xs[k] == m
    ensures forall k :: 0 <= k < |xs| ==> m <= xs[k]
  {
    if |xs| == 1 then xs[0]
    else
      var m := MinOf(xs[..|xs| - 1]);
      if xs[|xs| - 1] < m then xs[|xs| - 1] else m
  }

  /** `np.argmin`: the FIRST index holding the minimum. */
  function ArgMin(xs: seq<real>): (i: nat)
    requires 0 < |xs|
    ensures i < |xs|
    ensures forall k :: 0 <= k < |xs| ==> xs[i] <= xs[k]
    ensures forall k :: 0 <= k < i ==> xs[i] < xs[k]
  {
    if |xs| == 1 then 0
    else
      var i := ArgMin(xs[..|xs| - 1]);
      if xs[|xs| - 1] < xs[i] then |xs| - 1 else i
  }

  /** The minimum `min` returns is the element `np.argmin` points at. */
  lemma MinAtArgMin(xs: seq<real>)
    requires 0 < |xs|
    ensures MinOf(xs) == xs[ArgMin(xs)]
  {
  }

  /** The first minimum is determined by the strict order of the entries
      alone: two lists that order their entries alike have the same argmin. */
  lemma ArgMinOrderInvariant(xs: seq<real>, ys: seq<real>)
    requires 0 < |xs| == |ys|
    requires forall j, k :: 0 <= j < |xs| && 0 <= k < |xs| ==> (xs[j] < xs[k] <==> ys[j] < ys[k])
    ensures ArgMin(xs) == ArgMin(ys)
  {
  }

  /** The distinct values of a list, `set(xs)`. */
  function Distinct(xs: seq<nat>): set<nat> {
    set x | x in xs
  }

  lemma {:induction false} DistinctAtMostLength(xs: seq<nat>)
    ensures |Distinct(xs)| <= |xs|
  {
    if |xs| != 0 {
      var init := xs[..|xs| - 1];
      DistinctAtMostLength(init);
      assert Distinct(xs) == Distinct(init) + {xs[|xs| - 1]};
    }
  }

  /** A set of naturals below `n` has at most `n` elements. */
  lemma {:induction false} BoundedSetSize(s: set<nat>, n: nat)
    requires forall x :: x in s ==> x < n
    ensures |s| <= n
  {
    if n != 0 {
      var s' := s - {n - 1};
      BoundedSetSize(s', n - 1);
    } else {
      assert s == {};
    }
  }

  /** `len(set(xs))` for a non-empty list of indices below `n`. */
  lemma DistinctBounds(xs: seq<nat>, n: nat)
    requires 0 < |xs|
    requires forall k :: 0 <= k < |xs| ==> xs[k] < n
    ensures 1 <= |Distinct(xs)| <= |xs|
    ensures |Distinct(xs)| <= n
  {
    assert xs[0] in Distinct(xs);
    DistinctAtMostLength(xs);
    BoundedSetSize(Distinct(xs), n);
  }
}
