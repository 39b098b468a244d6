/** Sums of an integer measure over a sequence, and how one update changes them. */
module Sums {

  function Total<T>(xs: seq<T>, f: T -> int): int {
    if xs == [] then 0 else f(xs[0]) + Total(xs[1..], f)
  }

  lemma {:induction false} TotalUpdate<T>(xs: seq<T>, i: nat, v: T, f: T -> int)
    requires i < |xs|
    ensures Total(xs[i := v], f) == Total(xs, f) - f(xs[i]) + f(v)
  {
    var ys := xs[i := v];
    if i == 0 {
      assert ys[1..] == xs[1..];
    } else {
      assert ys[1..] == xs[1..][i - 1 := v];
      TotalUpdate(xs[1..], i - 1, v, f);
    }
  }

  lemma {:induction false} TotalBounds<T>(xs: seq<T>, f: T -> int, lo: int, hi: int)
    requires forall k :: 0 <= k < |xs| ==> lo <= f(xs[k]) <= hi
    ensures lo * |xs| <= Total(xs, f) <= hi * |xs|
  {
    if xs != [] {
      TotalBounds(xs[1..], f, lo, hi);
    }
  }

  /** A sum of non-negative terms is at least any one of them. */
  lemma {:induction false} TotalAtLeastOne<T>(xs: seq<T>, i: nat, f: T -> int)
    requires i < |xs|
    requires forall k :: 0 <= k < |xs| ==> f(xs[k]) >= 0
    ensures Total(xs, f) >= f(xs[i])
  {
    if i == 0 {
      NonNegative(xs[1..], f);
    } else {
      TotalAtLeastOne(xs[1..], i - 1, f);
    }
  }

  lemma {:induction false} NonNegative<T>(xs: seq<T>, f: T -> int)
    requires forall k :: 0 <= k < |xs| ==> f(xs[k]) >= 0
    ensures Total(xs, f) >= 0
  {
    if xs != [] {
      NonNegative(xs[1..], f);
    }
  }

  lemma {:induction false} TotalSame<T>(xs: seq<T>, f: T -> int, g: T -> int)
    requires forall k :: 0 <= k < |xs| ==> f(xs[k]) == g(xs[k])
    ensures Total(xs, f) == Total(xs, g)
  {
    if xs != [] {
      TotalSame(xs[1..], f, g);
    }
  }

  lemma {:induction false} TotalAtMost<T>(xs: seq<T>, f: T -> int, hi: int)
    requires forall k :: 0 <= k < |xs| ==> f(xs[k]) <= hi
    ensures Total(xs, f) <= |xs| * hi
  {
    if xs != [] {
      TotalAtMost(xs[1..], f, hi);
    }
  }

  /** All terms but one. */
  lemma {:induction false} TotalOthers<T>(xs: seq<T>, i: nat, f: T -> int, hi: int)
    requires i < |xs| && forall k :: 0 <= k < |xs| ==> f(xs[k]) <= hi
    ensures Total(xs, f) - f(xs[i]) <= (|xs| - 1) * hi
  {
    if i == 0 {
      TotalAtMost(xs[1..], f, hi);
    } else {
      TotalOthers(xs[1..], i - 1, f, hi);
    }
  }
}
