/** The kernel-count credit gate of libbless: N threads drain one shared counter in
    bursts taken by compare-and-swap, while the control loop overwrites it.
    One step is one access to shared memory. */
module KernelGate {
  import opened Sums

  const BURST := 16

  datatype Pc = Idle | First | Reload | Swap(cur: int)
  datatype Thread = Thread(pc: Pc, burst: int)

  /** `remain` is `credit_remain` (negative = gate off); `metered` and `unmetered` count kernels
      let through on credit and for free; `granted` and `overwritten` are the ledger of `credit_set`. */
  datatype State = State(boost: bool, remain: int, threads: seq<Thread>,
                         metered: int, unmetered: int, granted: int, overwritten: int)

  /** `Go(i, spurious)` lets thread i perform its next access; a weak compare-and-swap may
      fail even when the value matches. */
  datatype Action = Go(i: nat, spurious: bool) | CreditSet(q: int) | CreditOff | Boost(on: bool)

  function Put(s: State, i: nat, t: Thread): State
    requires i < |s.threads|
  {
    s.(threads := s.threads[i := t])
  }

  function Chunk(cur: int): int {
    if cur >= BURST then BURST else cur
  }

  function ThreadStep(s: State, i: nat, spurious: bool): State
    requires i < |s.threads|
  {
    var t := s.threads[i];
    match t.pc
    case Idle =>
      if s.boost then s.(unmetered := s.unmetered + 1) else Put(s, i, t.(pc := First))
    case First =>
      if s.remain < 0 then Put(s, i, t.(pc := Idle)).(unmetered := s.unmetered + 1)
      else if t.burst > 0 then Put(s, i, Thread(Idle, t.burst - 1)).(metered := s.metered + 1)
      else Put(s, i, t.(pc := Reload))
    case Reload =>
      if s.remain < 0 then Put(s, i, t.(pc := Idle)).(unmetered := s.unmetered + 1)
      else if s.remain > 0 then Put(s, i, t.(pc := Swap(s.remain)))
      else s
    case Swap(cur) =>
      if s.remain == cur && !spurious
      then Put(s, i, Thread(Idle, Chunk(cur) - 1)).(remain := cur - Chunk(cur), metered := s.metered + 1)
      else Put(s, i, t.(pc := Reload))
  }

  function Apply(s: State, a: Action): State {
    match a
    case Go(i, spurious) => if i < |s.threads| then ThreadStep(s, i, spurious) else s
    case CreditSet(q) => s.(remain := q, granted := s.granted + q, overwritten := s.overwritten + s.remain)
    case CreditOff => s.(remain := -1)
    case Boost(on) => s.(boost := on)
  }

  function Run(s: State, acts: seq<Action>): State
    decreases |acts|
  {
    if acts == [] then s else Run(Apply(s, acts[0]), acts[1..])
  }

  predicate Metering(a: Action) {
    a.Go? || (a.CreditSet? && a.q >= 0)
  }

  ghost predicate Inv(s: State) {
    && !s.boost
    && s.remain >= 0
    && (forall k :: 0 <= k < |s.threads| ==> ThreadOk(s.threads[k]))
  }

  predicate ThreadOk(t: Thread) {
    0 <= t.burst < BURST && (t.pc.Swap? ==> t.pc.cur > 0) && (t.pc.Swap? || t.pc.Reload? ==> t.burst == 0)
  }

  function BurstOf(t: Thread): int { t.burst }

  /** Every credit ever handed out is in exactly one place. */
  function Held(s: State): int {
    s.metered + Total(s.threads, BurstOf) + s.remain + s.overwritten - s.granted
  }

  lemma PutThread(s: State, i: nat, t: Thread)
    requires i < |s.threads| && Inv(s) && ThreadOk(t)
    ensures Inv(Put(s, i, t))
    ensures Held(Put(s, i, t)) == Held(s) - s.threads[i].burst + t.burst
  {
    TotalUpdate(s.threads, i, t, BurstOf);
  }

  lemma StepConserves(s: State, a: Action)
    requires Inv(s) && Metering(a)
    ensures Inv(Apply(s, a)) && |Apply(s, a).threads| == |s.threads|
    ensures Held(Apply(s, a)) == Held(s) && Apply(s, a).unmetered == s.unmetered
  {
    if a.Go? && a.i < |s.threads| {
      PutThread(s, a.i, Apply(s, a).threads[a.i]);
    }
  }

  /** Conservation under compare-and-swap races: for every interleaving with non-negative sets and
      no boost or off, passes + cached bursts + remaining + overwritten - granted never changes,
      the counter never goes negative, and nothing passes unmetered. */
  lemma {:induction false} Conservation(s: State, acts: seq<Action>)
    requires Inv(s) && (forall k :: 0 <= k < |acts| ==> Metering(acts[k]))
    ensures var e := Run(s, acts);
            Inv(e) && |e.threads| == |s.threads| && Held(e) == Held(s) && e.unmetered == s.unmetered
    decreases |acts|
  {
    if acts != [] {
      StepConserves(s, acts[0]);
      Conservation(Apply(s, acts[0]), acts[1..]);
    }
  }

  lemma {:induction false} LedgerFrozen(s: State, acts: seq<Action>)
    requires forall k :: 0 <= k < |acts| ==> acts[k].Go?
    ensures Run(s, acts).granted == s.granted && Run(s, acts).overwritten == s.overwritten
    decreases |acts|
  {
    if acts != [] {
      LedgerFrozen(Apply(s, acts[0]), acts[1..]);
    }
  }

  /** Between a set of q and the next set at most q + 15*N kernels pass. */
  lemma PassesPerSet(s: State, q: nat, acts: seq<Action>)
    requires Inv(s) && (forall k :: 0 <= k < |acts| ==> acts[k].Go?)
    ensures Run(Apply(s, CreditSet(q)), acts).metered - s.metered <= q + (BURST - 1) * |s.threads|
  {
    var s1 := Apply(s, CreditSet(q));
    var e := Run(s1, acts);
    Conservation(s1, acts);
    LedgerFrozen(s1, acts);
    TotalBounds(s1.threads, BurstOf, 0, BURST - 1);
    NonNegative(e.threads, BurstOf);
  }

  // ---- The bound is reached ----

  /** t follows from s by steps of the threads alone. */
  ghost predicate Reach(s: State, t: State) {
    exists acts: seq<Action> :: (forall k :: 0 <= k < |acts| ==> acts[k].Go?) && Run(s, acts) == t
  }

  lemma {:induction false} RunAppend(s: State, xs: seq<Action>, ys: seq<Action>)
    ensures Run(s, xs + ys) == Run(Run(s, xs), ys)
    decreases |xs|
  {
    if xs == [] {
      assert xs + ys == ys;
    } else {
      assert (xs + ys)[1..] == xs[1..] + ys;
      RunAppend(Apply(s, xs[0]), xs[1..], ys);
    }
  }

  lemma ReachSelf(s: State)
    ensures Reach(s, s)
  {
    assert Run(s, []) == s;
  }

  lemma ReachTrans(s: State, t: State, u: State)
    requires Reach(s, t) && Reach(t, u)
    ensures Reach(s, u)
  {
    var xs: seq<Action> :| (forall k :: 0 <= k < |xs| ==> xs[k].Go?) && Run(s, xs) == t;
    var ys: seq<Action> :| (forall k :: 0 <= k < |ys| ==> ys[k].Go?) && Run(t, ys) == u;
    RunAppend(s, xs, ys);
    assert forall k :: 0 <= k < |xs + ys| ==> (xs + ys)[k].Go?;
  }

  /** One access of thread i. */
  lemma Step(s: State, t: State, i: nat) returns (u: State)
    requires Reach(s, t) && i < |t.threads|
    ensures Reach(s, u) && u == ThreadStep(t, i, false)
  {
    var a := Go(i, false);
    u := Apply(t, a);
    assert [a][1..] == [] && Run(u, []) == u;
    assert Run(t, [a]) == u && [a][0].Go?;
    ReachTrans(s, t, u);
  }

  /** Nobody is inside the gate. */
  predicate Quiet(s: State) {
    && !s.boost && s.remain >= 0
    && forall k :: 0 <= k < |s.threads| ==> s.threads[k].pc == Idle && 0 <= s.threads[k].burst < BURST
  }

  /** Thread i takes a chunk of the counter. */
  lemma Take(s: State, i: nat) returns (t: State)
    requires Quiet(s) && i < |s.threads| && s.threads[i].burst == 0 && s.remain > 0
    ensures Reach(s, t) && Quiet(t) && t.remain == s.remain - Chunk(s.remain)
    ensures t.threads == s.threads[i := Thread(Idle, Chunk(s.remain) - 1)]
  {
    ReachSelf(s);
    var a := Step(s, s, i);
    var b := Step(s, a, i);
    assert b.threads[i] == Thread(Reload, 0);
    var c := Step(s, b, i);
    assert c.threads[i] == Thread(Swap(s.remain), 0);
    t := Step(s, c, i);
  }

  /** Thread i spends its cached burst. */
  lemma {:induction false} Spend(s: State, i: nat) returns (t: State)
    requires Quiet(s) && i < |s.threads|
    ensures Reach(s, t) && Quiet(t) && t.remain == s.remain && t.threads == s.threads[i := Thread(Idle, 0)]
    decreases s.threads[i].burst
  {
    ReachSelf(s);
    if s.threads[i].burst == 0 {
      t := s;
    } else {
      var a := Step(s, s, i);
      var b := Step(s, a, i);
      assert b.threads == s.threads[i := Thread(Idle, s.threads[i].burst - 1)];
      t := Spend(b, i);
      ReachTrans(s, b, t);
    }
  }

  /** The threads from k on spend theirs. */
  lemma {:induction false} SpendFrom(s: State, k: nat) returns (t: State)
    requires Quiet(s) && k <= |s.threads| && (forall j :: 0 <= j < k ==> s.threads[j].burst == 0)
    ensures Reach(s, t) && Quiet(t) && t.remain == s.remain && |t.threads| == |s.threads|
    ensures forall j :: 0 <= j < |t.threads| ==> t.threads[j].burst == 0
    decreases |s.threads| - k
  {
    ReachSelf(s);
    if k == |s.threads| {
      t := s;
    } else {
      var u := Spend(s, k);
      t := SpendFrom(u, k + 1);
      ReachTrans(s, u, t);
    }
  }

  /** The threads use up all bursts and all of the counter. */
  lemma {:induction false} Exhaust(s: State) returns (t: State)
    requires Quiet(s) && |s.threads| >= 1
    ensures Reach(s, t) && Quiet(t) && t.remain == 0 && |t.threads| == |s.threads|
    ensures forall j :: 0 <= j < |t.threads| ==> t.threads[j].burst == 0
    decreases s.remain
  {
    t := SpendFrom(s, 0);
    if t.remain > 0 {
      var u := t;
      var v := Take(u, 0);
      t := Exhaust(v);
      ReachTrans(s, u, v);
      ReachTrans(s, v, t);
    }
  }

  /** The threads from k on take a full chunk each. */
  lemma {:induction false} StockUp(s: State, k: nat) returns (t: State)
    requires Quiet(s) && k <= |s.threads| && s.remain == (|s.threads| - k) * BURST
    requires forall j :: 0 <= j < |s.threads| ==> s.threads[j].burst == if j < k then BURST - 1 else 0
    ensures Reach(s, t) && Quiet(t) && t.remain == 0 && |t.threads| == |s.threads|
    ensures forall j :: 0 <= j < |t.threads| ==> t.threads[j].burst == BURST - 1
    decreases |s.threads| - k
  {
    ReachSelf(s);
    if k == |s.threads| {
      t := s;
    } else {
      var u := Take(s, k);
      t := StockUp(u, k + 1);
      ReachTrans(s, u, t);
    }
  }

  function Fresh(n: nat): State {
    State(false, 0, seq(n, _ => Thread(Idle, 0)), 0, 0, 0, 0)
  }

  lemma BurstsAre(ts: seq<Thread>, b: int)
    requires forall k :: 0 <= k < |ts| ==> ts[k].burst == b
    ensures Total(ts, BurstOf) == b * |ts|
  {
    TotalBounds(ts, BurstOf, b, b);
  }

  /** For every N >= 1 and q a fresh process with N threads comes to a point at which a set of q is
      followed by exactly q + 15 N passes. */
  lemma PassesPerSetIsTight(n: nat, q: nat) returns (s: State, t: State)
    requires n >= 1
    ensures Inv(s) && |s.threads| == n && Reach(Apply(Fresh(n), CreditSet(n * BURST)), s)
    ensures Reach(Apply(s, CreditSet(q)), t) && t.metered - s.metered == q + (BURST - 1) * n
  {
    s := StockUp(Apply(Fresh(n), CreditSet(n * BURST)), 0);
    var given := Apply(s, CreditSet(q));
    t := Exhaust(given);
    BurstsAre(s.threads, BURST - 1);
    BurstsAre(t.threads, 0);
    var acts: seq<Action> :| (forall k :: 0 <= k < |acts| ==> acts[k].Go?) && Run(given, acts) == t;
    Conservation(given, acts);
    LedgerFrozen(given, acts);
  }
}
