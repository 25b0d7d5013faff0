/** Sums of a weight over a sequence of per-thread entries. */
module Sums {

  function Sum<T>(xs: seq<T>, w: T -> nat): nat {
    if xs == [] then 0 else Sum(xs[..|xs| - 1], w) + w(xs[|xs| - 1])
  }

  /** Changing one entry changes the sum by the difference of the two weights. */
  lemma {:induction false} SumUpdate<T>(xs: seq<T>, i: nat, x: T, w: T -> nat)
    requires i < |xs|
    ensures Sum(xs[i := x], w) + w(xs[i]) == Sum(xs, w) + w(x)
  {
    var last := |xs| - 1;
    if i == last {
      assert xs[i := x][..last] == xs[..last];
    } else {
      SumUpdate(xs[..last], i, x, w);
      assert xs[i := x][..last] == xs[..last][i := x];
    }
  }

  /** No entry weighs more than the whole. */
  lemma {:induction false} SumAtLeast<T>(xs: seq<T>, i: nat, w: T -> nat)
    requires i < |xs|
    ensures w(xs[i]) <= Sum(xs, w)
  {
    if i < |xs| - 1 {
      SumAtLeast(xs[..|xs| - 1], i, w);
    }
  }

  /** The sum vanishes exactly when every entry is weightless. */
  lemma {:induction false} SumZero<T>(xs: seq<T>, w: T -> nat)
    ensures Sum(xs, w) == 0 <==> forall i :: 0 <= i < |xs| ==> w(xs[i]) == 0
  {
    if xs != [] {
      var front := xs[..|xs| - 1];
      SumZero(front, w);
      assert forall i :: 0 <= i < |front| ==> front[i] == xs[i];
    }
  }

  /** Weights of at most one add up to at most the number of entries. */
  lemma {:induction false} SumBounded<T>(xs: seq<T>, w: T -> nat)
    requires forall x :: x in xs ==> w(x) <= 1
    ensures Sum(xs, w) <= |xs|
  {
    if xs != [] {
      SumBounded(xs[..|xs| - 1], w);
    }
  }

  lemma {:induction false} SumMonotone<T>(xs: seq<T>, w: T -> nat, v: T -> nat)
    requires forall x :: x in xs ==> w(x) <= v(x)
    ensures Sum(xs, w) <= Sum(xs, v)
  {
    if xs != [] {
      SumMonotone(xs[..|xs| - 1], w, v);
    }
  }

  /** A weight that is nowhere less, and somewhere more. */
  lemma {:induction false} SumExceeds<T>(xs: seq<T>, w: T -> nat, v: T -> nat, i: nat)
    requires i < |xs| && w(xs[i]) < v(xs[i]) && forall x :: x in xs ==> w(x) <= v(x)
    ensures Sum(xs, w) < Sum(xs, v)
  {
    var front := xs[..|xs| - 1];
    if i < |front| {
      SumExceeds(front, w, v, i);
      assert xs[|front|] in xs;
    } else {
      SumMonotone(front, w, v);
    }
  }
}
