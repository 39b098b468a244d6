/** The QMD mask builder: which TPCs a process may use, as words of disable bits. */
module TpcMask {

  const WORD := 32

  // ---- Bits of a word ----

  /** An unsigned word, as a number. */
  type Word = w: nat | w < 0x1_0000_0000

  function Pow2(k: nat): (p: nat)
    ensures p >= 1
  {
    if k == 0 then 1 else 2 * Pow2(k - 1)
  }

  /** Bit k of w. Bit set = TPC disabled. */
  predicate Bit(w: nat, k: nat) {
    if k == 0 then w % 2 == 1 else Bit(w / 2, k - 1)
  }

  /** w & ~(1u << k). */
  function ClearBit(w: nat, k: nat): (r: nat)
    ensures r <= w
  {
    if k == 0 then w - w % 2 else 2 * ClearBit(w / 2, k - 1) + w % 2
  }

  /** Clearing subtracts 2^k if bit k was set. */
  lemma {:induction false} ClearSubtracts(w: nat, k: nat)
    ensures ClearBit(w, k) == w - (if Bit(w, k) then Pow2(k) else 0)
  {
    if k > 0 {
      ClearSubtracts(w / 2, k - 1);
    }
  }

  /** Clearing bit k changes no other bit. */
  lemma {:induction false} ClearBitBits(w: nat, k: nat, j: nat)
    ensures Bit(ClearBit(w, k), j) <==> Bit(w, j) && j != k
  {
    if k > 0 && j > 0 {
      ClearBitBits(w / 2, k - 1, j - 1);
    }
  }

  lemma {:induction false} AllSet(w: nat, n: nat, k: nat)
    requires w == Pow2(n) - 1 && k < n
    ensures Bit(w, k)
  {
    var half := Pow2(n - 1) - 1;
    assert w == 2 * half + 1;
    assert w / 2 == half && w % 2 == 1;
    if k > 0 {
      AllSet(w / 2, n - 1, k - 1);
    }
  }

  const ALL: Word := 0xFFFF_FFFF

  lemma AllIsPow2()
    ensures ALL == Pow2(WORD) - 1
  {
    assert Pow2(8) == 256;
    assert Pow2(16) == 256 * Pow2(8) by { Pow2Add(8, 8); }
    assert Pow2(32) == Pow2(16) * Pow2(16) by { Pow2Add(16, 16); }
  }

  lemma {:induction false} Pow2Add(a: nat, b: nat)
    ensures Pow2(a + b) == Pow2(a) * Pow2(b)
  {
    if a > 0 {
      Pow2Add(a - 1, b);
      assert 2 * (Pow2(a - 1) * Pow2(b)) == (2 * Pow2(a - 1)) * Pow2(b);
    }
  }

  // ---- Masks ----

  predicate Enabled(m: seq<Word>, t: nat) {
    t < WORD * |m| && !Bit(m[t / WORD], t % WORD)
  }

  ghost function EnabledSet(m: seq<Word>): set<nat> {
    set t: nat | t < WORD * |m| && Enabled(m, t)
  }

  function Enable(m: seq<Word>, t: nat): seq<Word>
    requires t < WORD * |m|
  {
    m[t / WORD := ClearBit(m[t / WORD], t % WORD)]
  }

  lemma EnableAdds(m: seq<Word>, t: nat)
    requires t < WORD * |m|
    ensures EnabledSet(Enable(m, t)) == EnabledSet(m) + {t}
  {
    forall u: nat | u < WORD * |m| ensures Enabled(Enable(m, t), u) <==> Enabled(m, u) || u == t {
      if u / WORD == t / WORD {
        ClearBitBits(m[t / WORD], t % WORD, u % WORD);
      }
    }
  }

  lemma NoneEnabled(m: seq<Word>)
    requires forall k :: 0 <= k < |m| ==> m[k] == ALL
    ensures EnabledSet(m) == {}
  {
    AllIsPow2();
    forall t: nat | t < WORD * |m| ensures !Enabled(m, t) {
      AllSet(ALL, WORD, t % WORD);
    }
  }

  // ---- The builder ----

  function Clamp(n: int, total: nat): (a: nat)
    requires total >= 1
    ensures 1 <= a <= total
  {
    if n < 1 then 1 else if n > total then total else n
  }

  /** TPCs 0 .. a - 1. */
  ghost function Prefix(a: nat): (r: set<nat>)
    ensures forall t: nat :: t in r <==> t < a
    ensures |r| == a
  {
    if a == 0 then {} else Prefix(a - 1) + {a - 1}
  }

  /** Every stride-th TPC, a of them. */
  ghost function Strided(a: nat, stride: nat): set<nat> {
    if a == 0 then {} else Strided(a - 1, stride) + {(a - 1) * stride}
  }

  ghost function Placement(a: nat, total: nat, spread: bool): set<nat>
    requires a >= 1
  {
    if spread then Strided(a, total / a) else Prefix(a)
  }

  lemma {:induction false} StridedSize(a: nat, stride: nat)
    requires stride >= 1
    ensures |Strided(a, stride)| == a && (forall t :: t in Strided(a, stride) ==> t < a * stride)
    ensures a >= 1 ==> 0 in Strided(a, stride)
  {
    if a > 0 {
      StridedSize(a - 1, stride);
      assert (a - 1) * stride + stride == a * stride;
    }
  }

  predicate IsTimes(t: nat, k: nat, d: nat) { t == k * d }

  /** TPC t is among the first a, or, spread out, one of the first a multiples of total / a. */
  ghost predicate Picked(t: nat, a: int, total: nat, spread: bool)
    requires 1 <= a <= total
  {
    if spread then exists k: nat :: k < a && IsTimes(t, k, total / a) else t < a
  }

  lemma {:induction false} StridedMeans(a: nat, stride: nat, t: nat)
    ensures t in Strided(a, stride) <==> exists k: nat :: k < a && IsTimes(t, k, stride)
  {
    if a > 0 {
      StridedMeans(a - 1, stride, t);
      if t in Strided(a, stride) && t !in Strided(a - 1, stride) {
        assert IsTimes(t, a - 1, stride);
      }
    }
  }

  lemma PlacementMeans(a: nat, total: nat, spread: bool)
    requires 1 <= a <= total
    ensures forall t: nat :: t in Placement(a, total, spread) <==> Picked(t, a, total, spread)
  {
    forall t: nat ensures t in Placement(a, total, spread) <==> Picked(t, a, total, spread) {
      StridedMeans(a, total / a, t);
    }
  }

  /** Spread out, the TPCs of a placement are total / a apart: each but TPC 0 has its predecessor there, and
      nothing in between is enabled. */
  lemma SpreadApart(a: nat, total: nat, t: nat, u: nat)
    requires 1 <= a <= total && t in Placement(a, total, true)
    ensures t == 0 || (t >= total / a && t - total / a in Placement(a, total, true))
    ensures t < u < t + total / a ==> u !in Placement(a, total, true)
  {
    var d := total / a;
    StridedMeans(a, d, t);
    var q: nat :| q < a && IsTimes(t, q, d);
    if t != 0 {
      Predecessor(q, d);
      assert IsTimes(t - d, q - 1, d);
      StridedMeans(a, d, t - d);
    }
    StridedMeans(a, d, u);
    if t < u < t + d && u in Placement(a, total, true) {
      var k: nat :| k < a && IsTimes(u, k, d);
      NoneBetween(q, k, d);
    }
  }

  lemma Predecessor(q: nat, d: nat)
    requires q * d > 0
    ensures q >= 1 && (q - 1) * d == q * d - d
  {
  }

  lemma NoneBetween(q: nat, k: nat, d: nat)
    ensures !(q * d < k * d < q * d + d)
  {
    if k <= q {
      TimesMonotone(d, k, q);
    } else {
      TimesMonotone(d, q + 1, k);
    }
  }

  lemma StrideFits(a: nat, total: nat)
    requires 1 <= a <= total
    ensures 1 <= total / a && a * (total / a) <= total
  {
  }

  lemma OneMoreFits(i: nat, a: nat, stride: nat)
    requires i < a
    ensures i * stride + stride <= a * stride
  {
    assert (i + 1) * stride <= a * stride;
  }

  /** m[t >> 5] &= ~(1u << (t & 31)). */
  method ClearTpc(m: array<Word>, t: nat)
    requires t < WORD * m.Length
    modifies m
    ensures m[..] == Enable(old(m[..]), t)
    ensures EnabledSet(m[..]) == old(EnabledSet(m[..])) + {t}
  {
    EnableAdds(m[..], t);
    m[t / WORD] := ClearBit(m[t / WORD], t % WORD);
  }

  /** First strided pass: it always reaches a. */
  method Stride(m: array<Word>, a: nat, stride: nat, total: nat) returns (given: int)
    requires 1 <= a <= total <= WORD * m.Length && stride == total / a && EnabledSet(m[..]) == {}
    modifies m
    ensures given == a && EnabledSet(m[..]) == Strided(a, stride)
  {
    given := 0;
    var t := 0;
    StrideFits(a, total);
    while t < total && given < a
      invariant 0 <= given <= a && t == given * stride
      invariant EnabledSet(m[..]) == Strided(given, stride)
      decreases a - given
    {
      ClearTpc(m, t);
      assert (given + 1) * stride == given * stride + stride;
      given := given + 1;
      t := t + stride;
    }
    assert given == a by {
      if given < a {
        OneMoreFits(given, a, stride);
      }
    }
  }

  /** Second pass: enables disabled TPCs from the front until a are given; it adds none when a already are. */
  method FillUp(m: array<Word>, a: nat, total: nat, have: int) returns (given: int)
    requires total <= WORD * m.Length && 0 <= have <= a
    modifies m
    ensures have <= given <= a && EnabledSet(m[..]) >= old(EnabledSet(m[..]))
    ensures |EnabledSet(m[..])| - |old(EnabledSet(m[..]))| == given - have
    ensures given < a ==> forall t: nat :: t < total ==> t in EnabledSet(m[..])
    ensures have == a ==> given == have && m[..] == old(m[..])
  {
    given := have;
    var t := 0;
    while t < total && given < a
      invariant 0 <= t <= total && have <= given <= a
      invariant EnabledSet(m[..]) >= old(EnabledSet(m[..]))
      invariant |EnabledSet(m[..])| - |old(EnabledSet(m[..]))| == given - have
      invariant forall u: nat :: u < t ==> u in EnabledSet(m[..])
      invariant have == a ==> given == have && m[..] == old(m[..])
      decreases total - t
    {
      if Bit(m[t / WORD], t % WORD) {
        assert t !in EnabledSet(m[..]);
        ClearTpc(m, t);
        given := given + 1;
      }
      t := t + 1;
    }
  }

  /** For every request both placements enable exactly the TPCs of the placement for clamp(n, 1, total);
      in strided placement the first pass alone gets there and the second adds none. */
  method BuildMask(n: int, total: nat, spread: bool, words: nat) returns (m: array<Word>, given: int)
    requires 1 <= total <= WORD * words
    ensures fresh(m) && m.Length == words
    ensures given == Clamp(n, total)
    ensures EnabledSet(m[..]) == Placement(Clamp(n, total), total, spread)
    ensures 1 <= n <= total ==> given == n
    ensures n < 1 ==> given == 1
    ensures n > total ==> given == total
    ensures |EnabledSet(m[..])| == given
    ensures forall t: nat :: t in EnabledSet(m[..]) <==> Picked(t, given, total, spread)
  {
    var a := Clamp(n, total);
    m := new Word[words](_ => ALL);
    NoneEnabled(m[..]);
    if spread {
      given := Stride(m, a, total / a, total);
      given := FillUp(m, a, total, given);
    } else {
      given := Contiguous(m, a);
    }
    PlacementSize(a, total, spread);
    PlacementMeans(a, total, spread);
  }

  method Contiguous(m: array<Word>, a: nat) returns (given: int)
    requires a <= WORD * m.Length && EnabledSet(m[..]) == {}
    modifies m
    ensures given == a && EnabledSet(m[..]) == Prefix(a)
  {
    given := 0;
    var t := 0;
    while t < a
      invariant 0 <= t <= a && given == t
      invariant EnabledSet(m[..]) == Prefix(t)
    {
      ClearTpc(m, t);
      given := given + 1;
      t := t + 1;
    }
  }

  /** Both placements have exactly a members, all of them existing TPCs, and contain TPC 0. */
  lemma PlacementSize(a: nat, total: nat, spread: bool)
    requires 1 <= a <= total
    ensures |Placement(a, total, spread)| == a && 0 in Placement(a, total, spread)
    ensures forall t :: t in Placement(a, total, spread) ==> t < total
  {
    StrideFits(a, total);
    StridedSize(a, total / a);
  }

  // ---- Percent to TPCs ----

  function ClampPct(pct: int): int {
    if pct < 1 then 1 else if pct > 100 then 100 else pct
  }

  /** kraken_qmd_pct_to_tpc. */
  function PctToTpc(total: nat, pct: int): int {
    (total * ClampPct(pct) + 99) / 100
  }

  lemma Hundredths(x: int)
    ensures x - 99 <= 100 * (x / 100) <= x
  {
  }

  lemma HundredthsMonotone(x: int, y: int)
    requires x <= y
    ensures x / 100 <= y / 100
  {
    Hundredths(x);
    Hundredths(y);
  }

  lemma TimesMonotone(t: nat, a: int, b: int)
    requires a <= b
    ensures t * a <= t * b
  {
  }

  /** From 1 to 100 the conversion is the ceiling of the requested share; below it is that of 1 percent and
      above the whole card. It is within the card and monotone in the request. */
  lemma PctIsCeiling(total: nat, pct: int, more: int)
    requires total >= 1 && pct <= more
    ensures 1 <= pct <= 100 ==> total * pct <= 100 * PctToTpc(total, pct) < total * pct + 100
    ensures pct < 1 ==> total <= 100 * PctToTpc(total, pct) < total + 100
    ensures pct >= 100 ==> PctToTpc(total, pct) == total
    ensures 1 <= PctToTpc(total, pct) <= total
    ensures PctToTpc(total, pct) <= PctToTpc(total, more)
  {
    var a, b := ClampPct(pct), ClampPct(more);
    TimesMonotone(total, 1, a);
    TimesMonotone(total, a, b);
    TimesMonotone(total, a, 100);
    Hundredths(total * a + 99);
    HundredthsMonotone(total * a + 99, total * b + 99);
  }
}
