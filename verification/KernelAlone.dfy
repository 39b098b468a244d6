/** The kernel-count gate over all commands, off and boost included: which kernels pass for free, and what one
    call does when nobody else moves. */
module KernelAlone {
  import opened KernelGate

  // ---- Free passes ----

  /** The access shows boost at the start of a call, or a negative counter inside it. */
  predicate SeesFree(s: State, a: Action) {
    a.Go? && a.i < |s.threads| &&
    match s.threads[a.i].pc
    case Idle => s.boost
    case First => s.remain < 0
    case Reload => s.remain < 0
    case Swap(_) => false
  }

  function FreeSeen(s: State, acts: seq<Action>): nat
    decreases |acts|
  {
    if acts == [] then 0 else (if SeesFree(s, acts[0]) then 1 else 0) + FreeSeen(Apply(s, acts[0]), acts[1..])
  }

  lemma FreeStep(s: State, a: Action)
    ensures Apply(s, a).unmetered == s.unmetered + (if SeesFree(s, a) then 1 else 0)
    ensures SeesFree(s, a) ==>
              && Apply(s, a).threads == s.threads[a.i := Thread(Idle, s.threads[a.i].burst)]
              && Apply(s, a).remain == s.remain && Apply(s, a).metered == s.metered
  {
    if SeesFree(s, a) {
      assert s.threads[a.i := s.threads[a.i]] == s.threads;
    }
  }

  /** Over every run, with the gate switched off and boosted at will: exactly the calls that saw boost or a
      negative counter pass unmetered, and each of these ends with its burst and the counter untouched. */
  lemma {:induction false} UnmeteredExactly(s: State, acts: seq<Action>)
    ensures Run(s, acts).unmetered == s.unmetered + FreeSeen(s, acts)
    decreases |acts|
  {
    if acts != [] {
      FreeStep(s, acts[0]);
      UnmeteredExactly(Apply(s, acts[0]), acts[1..]);
    }
  }

  // ---- One call, alone ----

  /** n accesses of thread i, with no spurious failure. */
  function Iter(s: State, i: nat, n: nat): State
    decreases n
  {
    if n == 0 then s else Iter(Apply(s, Go(i, false)), i, n - 1)
  }

  lemma IterOne(s: State, i: nat, n: nat)
    requires n > 0
    ensures Iter(s, i, n) == Iter(Apply(s, Go(i, false)), i, n - 1)
  {
  }

  /** Kernels let through so far. */
  function Passed(s: State): int { s.metered + s.unmetered }

  /** The thread can get its kernel through: boost where the call still looks at it, a counter that is not
      zero, or a burst where the call still looks at it. */
  predicate Able(s: State, i: nat)
    requires i < |s.threads|
  {
    var t := s.threads[i];
    || s.remain != 0
    || (t.pc == Idle && s.boost)
    || ((t.pc == Idle || t.pc == First) && t.burst > 0)
  }

  /** What a call does from its start: the state it leaves. */
  function Called(s: State, i: nat): State
    requires i < |s.threads|
  {
    var b := s.threads[i].burst;
    if s.boost || s.remain < 0 then s.(unmetered := s.unmetered + 1)
    else if b > 0 then s.(threads := s.threads[i := Thread(Idle, b - 1)], metered := s.metered + 1)
    else
      var chunk := if s.remain < 16 then s.remain else 16;
      s.(threads := s.threads[i := Thread(Idle, chunk - 1)], remain := s.remain - chunk, metered := s.metered + 1)
  }

  /** And how many accesses it takes. */
  function Accesses(s: State, i: nat): nat
    requires i < |s.threads|
  {
    if s.boost then 1 else if s.remain < 0 || s.threads[i].burst > 0 then 2 else 4
  }

  lemma SamePlace(s: State, i: nat, t: Thread)
    requires i < |s.threads| && t == s.threads[i]
    ensures s.threads[i := t] == s.threads
  {
  }

  lemma TakesChunk(s: State, i: nat)
    requires i < |s.threads| && s.threads[i].pc == Reload && s.remain > 0
    ensures var chunk := if s.remain < 16 then s.remain else 16;
            Iter(s, i, 2) == s.(threads := s.threads[i := Thread(Idle, chunk - 1)],
                                remain := s.remain - chunk, metered := s.metered + 1)
  {
    var a := Apply(s, Go(i, false));
    assert a == Put(s, i, Thread(Swap(s.remain), s.threads[i].burst));
    var b := Apply(a, Go(i, false));
    assert b.threads == s.threads[i := b.threads[i]];
    assert Iter(b, i, 0) == b && Iter(a, i, 1) == b;
  }

  /** A call that nobody disturbs, from its start, leaves exactly this behind. */
  lemma CallAlone(s: State, i: nat)
    requires i < |s.threads| && s.threads[i].pc == Idle && Able(s, i)
    ensures Iter(s, i, Accesses(s, i)) == Called(s, i)
  {
    var a := Apply(s, Go(i, false));
    IterOne(s, i, Accesses(s, i));
    if s.boost {
      assert Iter(a, i, 0) == a;
    } else {
      assert a == Put(s, i, Thread(First, s.threads[i].burst));
      SecondAccess(s, a, i);
    }
  }

  lemma SecondAccess(s: State, a: State, i: nat)
    requires i < |s.threads| && s.threads[i].pc == Idle && Able(s, i) && !s.boost
    requires a == Put(s, i, Thread(First, s.threads[i].burst))
    ensures Iter(a, i, Accesses(s, i) - 1) == Called(s, i)
  {
    var b := Apply(a, Go(i, false));
    IterOne(a, i, Accesses(s, i) - 1);
    SamePlace(s, i, s.threads[i]);
    if s.remain < 0 || s.threads[i].burst > 0 {
      assert b.threads == Called(s, i).threads;
      assert Iter(b, i, 0) == b;
    } else {
      assert b == Put(a, i, Thread(Reload, s.threads[i].burst));
      TakesChunk(b, i);
      assert Iter(b, i, 2).threads == Called(s, i).threads;
    }
  }

  // ---- From any point of a call ----

  predicate StuckAt(s: State, i: nat) {
    && i < |s.threads| && s.remain == 0
    && match s.threads[i].pc
       case Idle => !s.boost && s.threads[i].burst <= 0
       case First => s.threads[i].burst <= 0
       case Reload => true
       case Swap(cur) => cur != 0
  }

  lemma {:induction false} StuckForever(s: State, i: nat, n: nat)
    requires StuckAt(s, i)
    ensures Passed(Iter(s, i, n)) == Passed(s)
    decreases n
  {
    if n > 0 {
      StuckForever(Apply(s, Go(i, false)), i, n - 1);
    }
  }

  /** The kernel of thread i is through after n accesses. */
  predicate ThroughAfter(s: State, i: nat, n: nat) {
    Passed(Iter(s, i, n)) > Passed(s)
  }

  lemma FromReload(s: State, i: nat)
    requires i < |s.threads| && s.threads[i].pc == Reload && s.remain != 0
    ensures ThroughAfter(s, i, if s.remain < 0 then 1 else 2)
  {
    if s.remain < 0 {
      IterOne(s, i, 1);
    } else {
      TakesChunk(s, i);
    }
  }

  lemma FromSwap(s: State, i: nat)
    requires i < |s.threads| && s.threads[i].pc.Swap? && s.remain != 0
    ensures ThroughAfter(s, i, 1) || ThroughAfter(s, i, 2) || ThroughAfter(s, i, 3)
  {
    var a := Apply(s, Go(i, false));
    IterOne(s, i, 1);
    assert Iter(a, i, 0) == a;
    if s.remain != s.threads[i].pc.cur {
      assert a.threads[i].pc == Reload && a.remain == s.remain && Passed(a) == Passed(s);
      FromReload(a, i);
      IterOne(s, i, 2);
      IterOne(s, i, 3);
    }
  }

  lemma FromFirst(s: State, i: nat)
    requires i < |s.threads| && s.threads[i].pc == First && Able(s, i)
    ensures ThroughAfter(s, i, 1) || ThroughAfter(s, i, 2) || ThroughAfter(s, i, 3)
  {
    var a := Apply(s, Go(i, false));
    IterOne(s, i, 1);
    assert Iter(a, i, 0) == a;
    if s.remain >= 0 && s.threads[i].burst <= 0 {
      assert a.threads[i].pc == Reload && a.remain == s.remain && Passed(a) == Passed(s);
      FromReload(a, i);
      IterOne(s, i, 2);
      IterOne(s, i, 3);
    }
  }

  /** Alone and without spurious failures, from any point of a call, the kernel gets through, and then within
      four accesses, if and only if the thread is able. */
  lemma ThroughIff(s: State, i: nat)
    requires i < |s.threads| && (s.threads[i].pc.Swap? ==> s.threads[i].pc.cur > 0)
    ensures (exists n: nat :: ThroughAfter(s, i, n)) <==> Able(s, i)
    ensures Able(s, i) ==> exists n: nat :: n <= 4 && ThroughAfter(s, i, n)
  {
    if Able(s, i) {
      match s.threads[i].pc
      case Idle =>
        CallAlone(s, i);
        assert ThroughAfter(s, i, Accesses(s, i));
      case First => FromFirst(s, i);
      case Reload => FromReload(s, i);
      case Swap(_) => FromSwap(s, i);
    } else {
      forall n: nat ensures !ThroughAfter(s, i, n) {
        StuckForever(s, i, n);
      }
    }
  }

  // ---- What the commands are for ----

  /** Switched off, the gate lets the next kernel of any thread through for free; a set of q makes q credits
      available again, whatever the counter was, and with none left a thread without a burst has to wait. */
  lemma OffAndSet(s: State, i: nat, q: nat)
    requires i < |s.threads| && s.threads[i].pc == Idle && !s.boost
    ensures var off := Apply(s, CreditOff);
            Iter(off, i, 2) == off.(unmetered := s.unmetered + 1)
    ensures Apply(s, CreditSet(q)).remain == q && Apply(s, CreditSet(q)).threads == s.threads
    ensures Able(Apply(s, CreditSet(q)), i) <==> q > 0 || s.threads[i].burst > 0
  {
    CallAlone(Apply(s, CreditOff), i);
  }

  /** Boost lets it through with a single look, and taking boost back restores the state. */
  lemma BoostOnAndOff(s: State, i: nat)
    requires i < |s.threads| && s.threads[i].pc == Idle && !s.boost
    ensures var on := Apply(s, Boost(true)); Iter(on, i, 1) == on.(unmetered := s.unmetered + 1)
    ensures Apply(Apply(s, Boost(true)), Boost(false)) == s
  {
    CallAlone(Apply(s, Boost(true)), i);
  }
}
