/** The launch callback copies the mask word by word while a reconfiguration stores it word by word. */
module MaskRead {
  import opened TpcMask

  /** `words` is the shared mask and `from[k]` the number of TPCs allowed by the mask that word k came from.
      `next`, `nextFrom` and `stored` describe the store in progress; `read` is what the callback has loaded.
      `least` and `most` are the smallest and largest counts present in shared memory since the read began. */
  datatype State = State(words: seq<Word>, from: seq<nat>,
                         next: seq<Word>, nextFrom: nat, stored: nat,
                         read: seq<Word>, least: nat, most: nat)

  /** Begin a reconfiguration with a freshly built mask; store one word; begin a callback; load one word. */
  datatype Action = Reconfigure(mask: seq<Word>, allowed: nat) | Store | Callback | Load

  function Min(a: nat, b: nat): nat { if a <= b then a else b }
  function Max(a: nat, b: nat): nat { if a <= b then b else a }

  function Least(xs: seq<nat>): (r: nat)
    requires xs != []
    ensures forall k :: 0 <= k < |xs| ==> r <= xs[k]
    ensures r in xs
  {
    if |xs| == 1 then xs[0] else Min(xs[0], Least(xs[1..]))
  }

  function Most(xs: seq<nat>): (r: nat)
    requires xs != []
    ensures forall k :: 0 <= k < |xs| ==> xs[k] <= r
    ensures r in xs
  {
    if |xs| == 1 then xs[0] else Max(xs[0], Most(xs[1..]))
  }

  predicate Shaped(s: State, n: nat) {
    n >= 1 && |s.words| == |s.from| == |s.next| == n && s.stored <= n && |s.read| <= n
  }

  function Apply(s: State, a: Action, n: nat): State
    requires Shaped(s, n)
  {
    match a
    case Reconfigure(mask, allowed) =>
      if s.stored == n && |mask| == n then s.(next := mask, nextFrom := allowed, stored := 0) else s
    case Store =>
      if s.stored < n then
        s.(words := s.words[s.stored := s.next[s.stored]], from := s.from[s.stored := s.nextFrom],
           stored := s.stored + 1, least := Min(s.least, s.nextFrom), most := Max(s.most, s.nextFrom))
      else s
    case Callback => s.(read := [], least := Least(s.from), most := Most(s.from))
    case Load => if |s.read| < n then s.(read := s.read + [s.words[|s.read|]]) else s
  }

  lemma ShapeKept(s: State, a: Action, n: nat)
    requires Shaped(s, n)
    ensures Shaped(Apply(s, a, n), n)
  {
  }

  function Run(s: State, acts: seq<Action>, n: nat): (e: State)
    requires Shaped(s, n)
    ensures Shaped(e, n)
    decreases |acts|
  {
    if acts == [] then s else ShapeKept(s, acts[0], n); Run(Apply(s, acts[0], n), acts[1..], n)
  }

  /** A mask has just been set and no callback has begun to read it. */
  function JustSet(mask: seq<Word>, allowed: nat): State {
    State(mask, seq(|mask|, _ => allowed), mask, allowed, |mask|, [], allowed, allowed)
  }

  /** What a callback writes when it has loaded every word: the words and a last one of zeros. */
  function Written(s: State): seq<Word> { s.read + [0] }

  // ---- Undisturbed, what is set is what is read ----

  function Repeat(a: Action, k: nat): seq<Action> { seq(k, _ => a) }

  lemma {:induction false} RunAppend(s: State, xs: seq<Action>, ys: seq<Action>, n: nat)
    requires Shaped(s, n)
    ensures Run(s, xs + ys, n) == Run(Run(s, xs, n), ys, n)
    decreases |xs|
  {
    if xs == [] {
      assert xs + ys == ys;
    } else {
      assert (xs + ys)[1..] == xs[1..] + ys;
      ShapeKept(s, xs[0], n);
      RunAppend(Apply(s, xs[0], n), xs[1..], ys, n);
    }
  }

  lemma {:induction false} StoreRest(s: State, n: nat, k: nat)
    requires Shaped(s, n) && s.stored + k == n && s.words[..s.stored] == s.next[..s.stored]
    ensures Run(s, Repeat(Store, k), n).words == s.next && Run(s, Repeat(Store, k), n).stored == n
    decreases k
  {
    if k > 0 {
      var u := Apply(s, Store, n);
      ShapeKept(s, Store, n);
      assert Repeat(Store, k)[1..] == Repeat(Store, k - 1);
      assert u.words[..u.stored] == s.words[..s.stored] + [s.next[s.stored]] == u.next[..u.stored];
      StoreRest(u, n, k - 1);
    }
  }

  lemma {:induction false} LoadRest(s: State, n: nat, k: nat)
    requires Shaped(s, n) && |s.read| + k == n && s.read == s.words[..|s.read|]
    ensures Run(s, Repeat(Load, k), n).read == s.words
    decreases k
  {
    if k > 0 {
      ShapeKept(s, Load, n);
      assert Repeat(Load, k)[1..] == Repeat(Load, k - 1);
      LoadRest(Apply(s, Load, n), n, k - 1);
    }
  }

  /** A reconfiguration that is stored to the end and then a callback that nothing disturbs: the callback writes
      the new mask, and the word of zeros. */
  lemma ReadBack(s: State, mask: seq<Word>, allowed: nat, n: nat)
    requires Shaped(s, n) && s.stored == n && |mask| == n
    ensures Written(Run(s, [Reconfigure(mask, allowed)] + Repeat(Store, n) + ([Callback] + Repeat(Load, n)), n))
            == mask + [0]
  {
    var set_, get := [Reconfigure(mask, allowed)] + Repeat(Store, n), [Callback] + Repeat(Load, n);
    RunAppend(s, set_, get, n);
    ShapeKept(s, set_[0], n);
    assert set_[1..] == Repeat(Store, n);
    StoreRest(Apply(s, set_[0], n), n, n);
    var e := Run(s, set_, n);
    ShapeKept(e, Callback, n);
    assert get[1..] == Repeat(Load, n);
    LoadRest(Apply(e, Callback, n), n, n);
  }

  // ---- TPC 0 is never lost, in either placement ----

  predicate First(m: seq<Word>) { m == [] || !Bit(m[0], 0) }

  ghost predicate KeepsFirst(s: State) { First(s.words) && First(s.next) && First(s.read) }

  /** Every mask that is stored enables TPC 0, as both placements do. */
  predicate EnablesFirst(a: Action) { a.Reconfigure? ==> First(a.mask) }

  lemma {:induction false} FirstKept(s: State, acts: seq<Action>, n: nat)
    requires Shaped(s, n) && KeepsFirst(s) && (forall k :: 0 <= k < |acts| ==> EnablesFirst(acts[k]))
    ensures KeepsFirst(Run(s, acts, n))
    decreases |acts|
  {
    if acts != [] {
      assert EnablesFirst(acts[0]);
      FirstKept(Apply(s, acts[0], n), acts[1..], n);
    }
  }

  /** Once a mask that enables TPC 0 has been set: for every interleaving of later reconfigurations and
      loads, in either placement, the mask a callback writes enables TPC 0. */
  lemma TornReadEnablesFirst(mask: seq<Word>, allowed: nat, acts: seq<Action>)
    requires mask != [] && First(mask) && (forall k :: 0 <= k < |acts| ==> EnablesFirst(acts[k]))
    ensures var e := Run(JustSet(mask, allowed), acts, |mask|); |e.read| == |mask| ==> Enabled(Written(e), 0)
  {
    FirstKept(JustSet(mask, allowed), acts, |mask|);
  }

  // ---- In contiguous placement a torn read lies between two prefixes ----

  /** Word k of the mask that enables TPCs 0 .. a - 1. */
  ghost predicate PrefixWord(w: Word, k: nat, a: nat) {
    forall b: nat :: b < WORD ==> (Bit(w, b) <==> !(WORD * k + b < a))
  }

  ghost predicate IsPrefix(m: seq<Word>, a: nat) {
    forall k :: 0 <= k < |m| ==> PrefixWord(m[k], k, a)
  }

  predicate Within(a: nat, s: State) { s.least <= a <= s.most }

  /** A word read so far is word k of some prefix within the window. */
  ghost predicate ReadOk(s: State, k: nat)
    requires k < |s.read|
  {
    exists a: nat :: Within(a, s) && PrefixWord(s.read[k], k, a)
  }

  ghost predicate Inv(s: State, n: nat) {
    && Shaped(s, n)
    && (forall k :: 0 <= k < n ==> PrefixWord(s.words[k], k, s.from[k]) && Within(s.from[k], s))
    && IsPrefix(s.next, s.nextFrom)
    && (forall k :: 0 <= k < |s.read| ==> ReadOk(s, k))
  }

  ghost predicate StoresPrefix(a: Action) { a.Reconfigure? ==> IsPrefix(a.mask, a.allowed) }

  lemma InvStep(s: State, a: Action, n: nat)
    requires Inv(s, n) && StoresPrefix(a)
    ensures Inv(Apply(s, a, n), n)
  {
    var s' := Apply(s, a, n);
    forall k | 0 <= k < |s'.read| ensures ReadOk(s', k) {
      if k < |s.read| {
        assert ReadOk(s, k);
        var c: nat :| Within(c, s) && PrefixWord(s.read[k], k, c);
        assert Within(c, s');
      } else {
        assert Within(s.from[k], s') && PrefixWord(s'.read[k], k, s.from[k]);
      }
    }
  }

  lemma {:induction false} InvRun(s: State, acts: seq<Action>, n: nat)
    requires Inv(s, n) && (forall k :: 0 <= k < |acts| ==> StoresPrefix(acts[k]))
    ensures Inv(Run(s, acts, n), n)
    decreases |acts|
  {
    if acts != [] {
      InvStep(s, acts[0], n);
      InvRun(Apply(s, acts[0], n), acts[1..], n);
    }
  }

  lemma StartInv(mask: seq<Word>, allowed: nat)
    requires mask != [] && IsPrefix(mask, allowed)
    ensures Inv(JustSet(mask, allowed), |mask|)
  {
  }

  lemma ReadBetween(e: State, n: nat, t: nat)
    requires Inv(e, n) && |e.read| == n && t < WORD * n
    ensures (t < e.least ==> Enabled(e.read, t)) && (Enabled(e.read, t) ==> t < e.most)
  {
    var k, b := t / WORD, t % WORD;
    assert ReadOk(e, k);
    var a: nat :| Within(a, e) && PrefixWord(e.read[k], k, a);
    assert WORD * k + b == t;
    assert Bit(e.read[k], b) <==> !(t < a);
  }

  lemma {:induction false} ZeroBits(k: nat)
    ensures !Bit(0, k)
  {
    if k > 0 {
      ZeroBits(k - 1);
    }
  }

  /** Once a contiguous mask has been set: for any sequence of contiguous reconfigurations and any
      interleaving of stores and loads, the mask a callback writes enables at least the smallest and at
      most the largest prefix current during the read, and besides these only the 32 TPCs of the last
      word, which it always enables. */
  lemma TornReadBetween(mask: seq<Word>, allowed: nat, acts: seq<Action>, t: nat)
    requires mask != [] && IsPrefix(mask, allowed) && (forall k :: 0 <= k < |acts| ==> StoresPrefix(acts[k]))
    ensures var e, n := Run(JustSet(mask, allowed), acts, |mask|), |mask|;
            |e.read| == n ==>
              if t < WORD * n then (t < e.least ==> Enabled(Written(e), t)) && (Enabled(Written(e), t) ==> t < e.most)
              else Enabled(Written(e), t) <==> t < WORD * (n + 1)
  {
    var n := |mask|;
    StartInv(mask, allowed);
    InvRun(JustSet(mask, allowed), acts, n);
    var e := Run(JustSet(mask, allowed), acts, n);
    if |e.read| == n {
      if t < WORD * n {
        ReadBetween(e, n, t);
        assert Written(e)[t / WORD] == e.read[t / WORD];
      } else if t < WORD * (n + 1) {
        assert t / WORD == n;
        ZeroBits(t % WORD);
      }
    }
  }

  /** What the builder makes in contiguous placement is a prefix, and in both placements keeps TPC 0. */
  lemma BuiltMasks(m: seq<Word>, a: nat, total: nat, spread: bool)
    requires 1 <= a <= total && m != [] && EnabledSet(m) == Placement(a, total, spread)
    ensures First(m)
    ensures !spread ==> IsPrefix(m, a)
  {
    PlacementSize(a, total, spread);
    assert 0 in EnabledSet(m);
    if !spread {
      forall k, b: nat | 0 <= k < |m| && b < WORD ensures Bit(m[k], b) <==> !(WORD * k + b < a) {
        var t := WORD * k + b;
        assert t / WORD == k && t % WORD == b;
        assert t in EnabledSet(m) <==> t < a;
      }
    }
  }
}
