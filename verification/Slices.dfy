/** The two sequential loops of the round manager: the check that all active tenants wait,
    and the division of a round into slices (floats modelled as exact reals). */
module Slices {
  import opened KillerGate

  const DEFAULT_ROUND_US := 100000

  /** all_waiting, on a memory that does not change during the loop. */
  method ComputeAllWaiting(active: array<bool>, gate: array<Gate>) returns (r: bool)
    requires active.Length == gate.Length
    ensures r <==> forall i :: 0 <= i < active.Length && active[i] ==> gate[i] == Waiting
  {
    var i := 0;
    while i < active.Length
      invariant 0 <= i <= active.Length
      invariant forall k :: 0 <= k < i && active[k] ==> gate[k] == Waiting
    {
      if active[i] && gate[i] != Waiting {
        return false;
      }
      i := i + 1;
    }
    return true;
  }

  /** Sum of the active weights among the first k. */
  function Weight(active: seq<bool>, w: seq<real>, k: nat): real
    requires k <= |active| == |w|
  {
    if k == 0 then 0.0 else Weight(active, w, k - 1) + (if active[k - 1] then w[k - 1] else 0.0)
  }

  function Duration(rd: int): (d: int)
    ensures d > 0
  {
    if rd > 0 then rd else DEFAULT_ROUND_US
  }

  function Divisor(total: real): real {
    if total <= 0.0 then 1.0 else total
  }

  /** Conversion to int64 truncates toward zero. */
  function Truncate(x: real): int {
    if x >= 0.0 then x.Floor else -((-x).Floor)
  }

  function Share(d: int, w: real, total: real): real
    requires total > 0.0
  {
    d as real * w / total
  }

  function Slice(active: seq<bool>, w: seq<real>, rd: int, i: nat): int
    requires i < |active| == |w|
  {
    Truncate(Share(Duration(rd), w[i], Divisor(Weight(active, w, |w|))))
  }

  /** calc_slice_us. */
  method ComputeSlice(active: array<bool>, w: array<real>, rd: int, idx: nat) returns (slice: int)
    requires idx < active.Length == w.Length
    ensures slice == Slice(active[..], w[..], rd, idx)
  {
    var total := 0.0;
    var i := 0;
    while i < active.Length
      invariant 0 <= i <= active.Length == |active[..]| == |w[..]|
      invariant total == Weight(active[..], w[..], i)
    {
      if active[i] {
        total := total + w[i];
      }
      i := i + 1;
    }
    if total <= 0.0 {
      total := 1.0;
    }
    assert total == Divisor(Weight(active[..], w[..], |w[..]|));
    slice := Truncate(Share(Duration(rd), w[idx], total));
  }

  // ---- Division of one round ----

  function CountActive(active: seq<bool>, k: nat): nat
    requires k <= |active|
  {
    if k == 0 then 0 else CountActive(active, k - 1) + (if active[k - 1] then 1 else 0)
  }

  /** What one round hands to the active tenants among the first k. */
  function Handed(active: seq<bool>, w: seq<real>, rd: int, k: nat): int
    requires k <= |active| == |w|
  {
    if k == 0 then 0 else Handed(active, w, rd, k - 1) + (if active[k - 1] then Slice(active, w, rd, k - 1) else 0)
  }

  lemma ShareAdds(d: int, a: real, b: real, total: real)
    requires total > 0.0
    ensures Share(d, a + b, total) == Share(d, a, total) + Share(d, b, total)
  {
    assert d as real * (a + b) == d as real * a + d as real * b;
  }

  lemma ShareNonNegative(d: int, a: real, total: real)
    requires d >= 0 && a >= 0.0 && total > 0.0
    ensures Share(d, a, total) >= 0.0
  {
    assert d as real * a >= 0.0;
  }

  lemma {:induction false} PrefixDivision(active: seq<bool>, w: seq<real>, rd: int, k: nat)
    requires k <= |active| == |w| && (forall i :: 0 <= i < |w| ==> w[i] >= 0.0)
    requires Weight(active, w, |w|) > 0.0
    ensures var share := Share(Duration(rd), Weight(active, w, k), Weight(active, w, |w|));
            var n := CountActive(active, k);
            && Handed(active, w, rd, k) as real <= share
            && share <= (Handed(active, w, rd, k) + n) as real
            && (n > 0 ==> share < (Handed(active, w, rd, k) + n) as real)
  {
    var d, total := Duration(rd), Weight(active, w, |w|);
    if k == 0 {
      assert Share(d, 0.0, total) == 0.0;
    } else {
      PrefixDivision(active, w, rd, k - 1);
      ShareAdds(d, Weight(active, w, k - 1), if active[k - 1] then w[k - 1] else 0.0, total);
      ShareNonNegative(d, w[k - 1], total);
      assert Share(d, 0.0, total) == 0.0;
    }
  }

  lemma FullShare(d: int, total: real)
    requires total > 0.0
    ensures Share(d, total, total) == d as real
  {
  }

  /** For any active set with non-negative weights and a positive total, the slices of one round sum to at most
      its duration, 100 ms unless it is set to a positive value, and fall short of it by less than one
      microsecond per active tenant. */
  lemma SliceDivision(active: seq<bool>, w: seq<real>, rd: int)
    requires |active| == |w| && (forall i :: 0 <= i < |w| ==> w[i] >= 0.0) && Weight(active, w, |w|) > 0.0
    ensures var d := if rd > 0 then rd else 100000;
            Handed(active, w, rd, |w|) <= d < Handed(active, w, rd, |w|) + CountActive(active, |w|)
  {
    PrefixDivision(active, w, rd, |w|);
    FullShare(Duration(rd), Weight(active, w, |w|));
    assert CountActive(active, |w|) > 0 by {
      if CountActive(active, |w|) == 0 {
        NoneActive(active, w, |w|);
      }
    }
  }

  /** x is p / total, rounded toward zero. */
  predicate Rounded(x: int, p: real, total: real) {
    && (p >= 0.0 ==> x >= 0 && x as real * total <= p < (x + 1) as real * total)
    && (p <= 0.0 ==> x <= 0 && (x - 1) as real * total < p <= x as real * total)
  }

  predicate RoundedShare(x: int, d: int, w: real, total: real) { Rounded(x, d as real * w, total) }

  /** The exact slice: duration times weight over the total of the active weights, or over 1 if that is not
      positive, rounded toward zero. */
  lemma SliceIsShare(active: seq<bool>, w: seq<real>, rd: int, i: nat)
    requires i < |active| == |w|
    ensures var d := if rd > 0 then rd else 100000;
            var total := if Weight(active, w, |w|) > 0.0 then Weight(active, w, |w|) else 1.0;
            RoundedShare(Slice(active, w, rd, i), d, w[i], total)
  {
    var d, total := Duration(rd), Divisor(Weight(active, w, |w|));
    ShareRounded(d, w[i], total);
    assert Slice(active, w, rd, i) == Truncate(Share(d, w[i], total));
  }

  lemma ShareRounded(d: int, w: real, total: real)
    requires total > 0.0
    ensures RoundedShare(Truncate(Share(d, w, total)), d, w, total)
  {
    QuotientRounded(d as real * w, total);
  }

  lemma Truncated(q: real)
    ensures var x := Truncate(q);
            && (q >= 0.0 ==> x >= 0 && x as real <= q < (x + 1) as real)
            && (q <= 0.0 ==> x <= 0 && (x - 1) as real < q <= x as real)
  {
  }

  lemma QuotientRounded(p: real, total: real)
    requires total > 0.0
    ensures Rounded(Truncate(p / total), p, total)
  {
    var q := p / total;
    var x := Truncate(q);
    Quotients(p, total);
    Truncated(q);
    if p >= 0.0 {
      Sandwich(x as real, q, total);
      SandwichBelow(q, (x + 1) as real, total);
    }
    if p <= 0.0 {
      Sandwich(q, x as real, total);
      SandwichBelow((x - 1) as real, q, total);
    }
  }

  lemma Quotients(p: real, total: real)
    requires total > 0.0
    ensures p / total * total == p && (p >= 0.0 ==> p / total >= 0.0) && (p <= 0.0 ==> p / total <= 0.0)
  {
  }

  lemma Sandwich(a: real, b: real, total: real)
    requires a <= b && total > 0.0
    ensures a * total <= b * total
  {
  }

  lemma SandwichBelow(a: real, b: real, total: real)
    requires a < b && total > 0.0
    ensures a * total < b * total
  {
  }

  /** Slices are never negative, which is what the overdraft bound asks of them. */
  lemma SliceNonNegative(active: seq<bool>, w: seq<real>, rd: int, i: nat)
    requires i < |active| == |w| && w[i] >= 0.0
    ensures Slice(active, w, rd, i) >= 0
  {
    ShareNonNegative(Duration(rd), w[i], Divisor(Weight(active, w, |w|)));
  }

  lemma {:induction false} NoneActive(active: seq<bool>, w: seq<real>, k: nat)
    requires k <= |active| == |w| && CountActive(active, k) == 0
    ensures Weight(active, w, k) == 0.0
  {
    if k > 0 {
      NoneActive(active, w, k - 1);
    }
  }

  lemma {:induction false} WeightUpdate(active: seq<bool>, w: seq<real>, i: nat, v: real, k: nat)
    requires i < |w| && k <= |active| == |w| && active[i]
    ensures Weight(active, w[i := v], k) == Weight(active, w, k) + (if i < k then v - w[i] else 0.0)
  {
    if k > 0 {
      WeightUpdate(active, w, i, v, k - 1);
    }
  }

  lemma {:induction false} WeightAtLeast(active: seq<bool>, w: seq<real>, i: nat, k: nat)
    requires k <= |active| == |w| && (forall j :: 0 <= j < |w| ==> w[j] >= 0.0) && i < |w| && active[i]
    ensures Weight(active, w, k) >= (if i < k then w[i] else 0.0)
  {
    if k > 0 {
      WeightAtLeast(active, w, i, k - 1);
    }
  }

  lemma Scale(d: real, x: real, y: real)
    requires d >= 0.0 && x <= y
    ensures d * x <= d * y
  {
  }

  lemma CrossTerms(a: real, b: real, rest: real)
    requires a <= b && rest >= 0.0
    ensures a * (rest + b) <= b * (rest + a)
  {
    Scale(rest, a, b);
    assert a * (rest + b) == rest * a + a * b && b * (rest + a) == rest * b + a * b;
  }

  lemma ShareMonotone(d: int, a: real, b: real, rest: real)
    requires d >= 0 && 0.0 <= a <= b && rest >= 0.0 && rest + a > 0.0
    ensures Share(d, a, rest + a) <= Share(d, b, rest + b)
  {
    CrossTerms(a, b, rest);
    CrossMultiply(a, rest + a, b, rest + b);
    Scale(d as real, a / (rest + a), b / (rest + b));
    Pull(d as real, a, rest + a);
    Pull(d as real, b, rest + b);
  }

  lemma Pull(d: real, a: real, total: real)
    requires total > 0.0
    ensures d * a / total == d * (a / total)
  {
  }

  lemma CrossMultiply(a: real, p: real, b: real, q: real)
    requires p > 0.0 && q > 0.0 && a * q <= b * p
    ensures a / p <= b / q
  {
    var x, y := a / p, b / q;
    assert a == x * p && b == y * q;
  }

  /** Raising one active tenant's weight never lowers its slice, although it raises the total too. */
  lemma SliceMonotone(active: seq<bool>, w: seq<real>, rd: int, i: nat, v: real)
    requires i < |active| == |w| && active[i] && (forall j :: 0 <= j < |w| ==> w[j] >= 0.0)
    requires Weight(active, w, |w|) > 0.0 && v >= w[i]
    ensures Slice(active, w[i := v], rd, i) >= Slice(active, w, rd, i)
  {
    var total := Weight(active, w, |w|);
    WeightUpdate(active, w, i, v, |w|);
    WeightAtLeast(active, w, i, |w|);
    ShareMonotone(Duration(rd), w[i], v, total - w[i]);
    ShareNonNegative(Duration(rd), w[i], total);
  }
}
