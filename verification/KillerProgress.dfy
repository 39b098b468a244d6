/** From any reachable state where every active tenant waits, the system can recharge them all:
    lock holders and running killers never wait for a peer. */
module KillerProgress {
  import opened KillerGate
  import Overlap = KillerOverlap
  import Slices

  /** What the round hands out: any function of the shared state and the tenant that is recharged. */
  type Slicer = (State, nat) -> nat

  /** The slice that the next step of tenant i stores, if it stores one. */
  function SliceAt(s: State, i: nat, f: Slicer): nat {
    if i < |s.tenants| && s.tenants[i].pc.StoreRemain? then f(s, s.tenants[i].pc.k) else 0
  }

  predicate Legal(s: State, a: Action, f: Slicer, K: nat) {
    a.Go? && a.slice == SliceAt(s, a.i, f) && a.elapsed <= K
  }

  ghost predicate LegalRun(s: State, acts: seq<Action>, f: Slicer, K: nat)
    decreases |acts|
  {
    acts == [] || (Legal(s, acts[0], f, K) && LegalRun(Apply(s, acts[0]), acts[1..], f, K))
  }

  /** t follows from s when recharges store the slices of f and every killer lasts at most K. */
  ghost predicate Reach(s: State, t: State, f: Slicer, K: nat) {
    exists acts: seq<Action> :: LegalRun(s, acts, f, K) && Run(s, acts) == t
  }

  ghost predicate Sane(s: State) {
    LockInv(s) && Overlap.Inv(s)
  }

  lemma StartSane(s: State)
    requires Init(s)
    ensures Sane(s)
  {
    Overlap.InitInv(s);
    forall i | 0 <= i < |s.tenants| ensures LockOk(s, i) {
      assert Fresh(s.tenants[i], |s.tenants|, s.tenants[0].round, s.clock);
    }
  }

  lemma {:induction false} RunAppend(s: State, xs: seq<Action>, ys: seq<Action>)
    ensures Run(s, xs + ys) == Run(Run(s, xs), ys)
    decreases |xs|
  {
    if xs == [] {
      assert xs + ys == ys;
    } else {
      assert (xs + ys)[1..] == xs[1..] + ys;
      RunAppend(Apply(s, xs[0]), xs[1..], ys);
    }
  }

  lemma {:induction false} LegalAppend(s: State, xs: seq<Action>, ys: seq<Action>, f: Slicer, K: nat)
    requires LegalRun(s, xs, f, K) && LegalRun(Run(s, xs), ys, f, K)
    ensures LegalRun(s, xs + ys, f, K)
    decreases |xs|
  {
    if xs == [] {
      assert xs + ys == ys;
    } else {
      assert (xs + ys)[1..] == xs[1..] + ys;
      LegalAppend(Apply(s, xs[0]), xs[1..], ys, f, K);
    }
  }

  lemma ReachSelf(s: State, f: Slicer, K: nat)
    ensures Reach(s, s, f, K)
  {
    assert LegalRun(s, [], f, K) && Run(s, []) == s;
  }

  lemma ReachTrans(s: State, t: State, u: State, f: Slicer, K: nat)
    requires Reach(s, t, f, K) && Reach(t, u, f, K)
    ensures Reach(s, u, f, K)
  {
    var xs: seq<Action> :| LegalRun(s, xs, f, K) && Run(s, xs) == t;
    var ys: seq<Action> :| LegalRun(t, ys, f, K) && Run(t, ys) == u;
    RunAppend(s, xs, ys);
    LegalAppend(s, xs, ys, f, K);
  }

  lemma {:induction false} SaneRun(s: State, acts: seq<Action>)
    requires Sane(s) && (forall k :: 0 <= k < |acts| ==> Fine(acts[k]))
    ensures Sane(Run(s, acts)) && |Run(s, acts).tenants| == |s.tenants|
    decreases |acts|
  {
    if acts != [] {
      LockStep(s, acts[0]);
      Overlap.InvStep(s, acts[0]);
      SaneRun(Apply(s, acts[0]), acts[1..]);
    }
  }

  lemma ReachOne(s: State, a: Action, f: Slicer, K: nat)
    requires Legal(s, a, f, K)
    ensures Reach(s, Apply(s, a), f, K)
  {
    var u := Apply(s, a);
    assert [a][1..] == [] && LegalRun(u, [], f, K) && Run(u, []) == u;
    assert LegalRun(s, [a], f, K) && Run(s, [a]) == u;
  }

  /** One step of tenant i, appended to what was reached before. */
  lemma Step(s: State, t: State, i: nat, e: nat, f: Slicer, K: nat) returns (u: State)
    requires Reach(s, t, f, K) && Sane(t) && i < |t.tenants| && t.tenants[i].active && e <= K
    ensures u == TenantStep(t, i, SliceAt(t, i, f), e).(clock := t.clock + 1) && Reach(s, u, f, K) && Sane(u)
  {
    var a := Go(i, SliceAt(t, i, f), e);
    u := Apply(t, a);
    ReachOne(t, a, f, K);
    ReachTrans(s, t, u, f, K);
    LockStep(t, a);
    Overlap.InvStep(t, a);
  }

  lemma SaneTenant(s: State, i: nat)
    requires Sane(s) && i < |s.tenants|
    ensures s.tenants[i].gate == KillerActive ==> InKiller(s.tenants[i].pc)
    ensures !s.tenants[i].active ==> s.tenants[i].pc == Idle
    ensures InRound(s.tenants[i].pc) <==> s.lock && s.owner == i
  {
    assert LockOk(s, i) && Overlap.TenantOk(s.tenants[i], |s.tenants|, s.clock);
  }

  /** Membership and the count of recharges survive. */
  ghost predicate Kept(s: State, t: State) {
    && |t.tenants| == |s.tenants|
    && forall j :: 0 <= j < |s.tenants| ==>
         t.tenants[j].active == s.tenants[j].active && t.tenants[j].recharges >= s.tenants[j].recharges
  }

  // ---- The lock holder finishes on its own ----

  /** First tenant the holder has still to store a slice for. */
  function NextStore(pc: Pc, n: nat): nat {
    match pc
    case RoundActive(k) => k
    case StoreRemain(k) => k
    case StoreGate(k) => k + 1
    case _ => n
  }

  function Left(k: nat, n: nat): nat {
    if k < n then n - k else 0
  }

  function RoundRank(pc: Pc, n: nat): nat {
    match pc
    case RoundActive(k) => 10 * Left(k, n) + n + 4
    case StoreRemain(k) => 10 * Left(k + 1, n) + n + 6
    case StoreGate(k) => 10 * Left(k + 1, n) + n + 5
    case ReadRound => n + 2
    case StoreRound(k, _) => Left(k, n) + 1
    case _ => 0
  }

  /** What a holder's steps leave alone. */
  ghost predicate RoundFrame(s: State, t: State, i: nat) {
    && Kept(s, t)
    && forall j :: 0 <= j < |s.tenants| && j != i ==> t.tenants[j].pc == s.tenants[j].pc
  }

  lemma HolderPc(s: State, i: nat, slice: nat)
    requires i < |s.tenants| && InRound(s.tenants[i].pc) && s.lock
    ensures var u, n := TenantStep(s, i, slice, 0), |s.tenants|;
            && |u.tenants| == n
            && (if u.lock then
                  && u.owner == s.owner && InRound(u.tenants[i].pc)
                  && RoundRank(u.tenants[i].pc, n) < RoundRank(s.tenants[i].pc, n)
                else u.tenants[i].pc == Spin && NextStore(s.tenants[i].pc, n) == n)
  {
  }

  lemma HolderFrame(s: State, i: nat, slice: nat, j: nat)
    requires i < |s.tenants| && j < |s.tenants| && InRound(s.tenants[i].pc)
    ensures var u, n := TenantStep(s, i, slice, 0), |s.tenants|;
            && |u.tenants| == n
            && u.tenants[j].active == s.tenants[j].active && u.tenants[j].recharges >= s.tenants[j].recharges
            && (j != i ==> u.tenants[j].pc == s.tenants[j].pc)
            && (s.tenants[j].active && NextStore(s.tenants[i].pc, n) <= j < NextStore(u.tenants[i].pc, n) ==>
                  u.tenants[j].recharges > s.tenants[j].recharges)
  {
    if j != i { PeerStep(s, i, slice, 0, j); }
  }

  lemma {:induction false} FinishRound(s: State, i: nat, f: Slicer, K: nat) returns (t: State)
    requires Sane(s) && i < |s.tenants| && s.lock && s.owner == i
    ensures Reach(s, t, f, K) && Sane(t) && RoundFrame(s, t, i)
    ensures !t.lock && t.tenants[i].pc == Spin
    ensures forall j :: NextStore(s.tenants[i].pc, |s.tenants|) <= j < |s.tenants| && s.tenants[j].active ==>
              t.tenants[j].recharges > s.tenants[j].recharges
    decreases RoundRank(s.tenants[i].pc, |s.tenants|)
  {
    SaneTenant(s, i);
    ReachSelf(s, f, K);
    var u := Step(s, s, i, 0, f, K);
    HolderPc(s, i, SliceAt(s, i, f));
    forall j | 0 <= j < |s.tenants|
      ensures u.tenants[j].active == s.tenants[j].active && u.tenants[j].recharges >= s.tenants[j].recharges
      ensures j != i ==> u.tenants[j].pc == s.tenants[j].pc
      ensures s.tenants[j].active
              && NextStore(s.tenants[i].pc, |s.tenants|) <= j < NextStore(u.tenants[i].pc, |s.tenants|) ==>
                u.tenants[j].recharges > s.tenants[j].recharges
    {
      HolderFrame(s, i, SliceAt(s, i, f), j);
    }
    if !u.lock {
      t := u;
    } else {
      t := FinishRound(u, i, f, K);
      ReachTrans(s, u, t, f, K);
    }
  }

  /** A tenant at the lock, with the lock free, recharges every active tenant. */
  lemma Fire(s: State, i: nat, f: Slicer, K: nat) returns (t: State)
    requires Sane(s) && i < |s.tenants| && !s.lock && s.tenants[i].pc == TryLock
    ensures Reach(s, t, f, K) && Sane(t) && Recharges(s, t)
  {
    SaneTenant(s, i);
    ReachSelf(s, f, K);
    var u := Step(s, s, i, 0, f, K);
    t := FinishRound(u, i, f, K);
    ReachTrans(s, u, t, f, K);
  }

  /** Every active tenant has been recharged on the way from s to t. */
  ghost predicate Recharges(s: State, t: State) {
    Kept(s, t) && forall j :: 0 <= j < |s.tenants| && s.tenants[j].active ==>
                    t.tenants[j].recharges > s.tenants[j].recharges
  }

  // ---- Solo moves of a waiting or released tenant ----

  /** t differs from s in the record of tenant i alone, and not in its membership or recharges. */
  ghost predicate Solo(s: State, t: State, i: nat) {
    && i < |s.tenants| && |t.tenants| == |s.tenants| && t.lock == s.lock && t.owner == s.owner
    && (forall j :: 0 <= j < |s.tenants| && j != i ==> t.tenants[j] == s.tenants[j])
    && t.tenants[i].active == s.tenants[i].active && t.tenants[i].recharges == s.tenants[i].recharges
  }

  /** One step of tenant i that writes only its own record. */
  lemma SoloStep(s: State, t: State, i: nat, e: nat, f: Slicer, K: nat) returns (u: State)
    requires Reach(s, t, f, K) && Sane(t) && Solo(s, t, i) && e <= K
    requires t.tenants[i].pc != Idle || t.tenants[i].active
    requires !t.tenants[i].pc.TryLock? && !InRound(t.tenants[i].pc)
    ensures Reach(s, u, f, K) && Sane(u) && Solo(s, u, i) && u.tenants[i] == Own(t, i, e)
  {
    SaneTenant(t, i);
    u := Step(s, t, i, e, f, K);
  }

  /** What all_waiting has still to see from here on for its answer to be yes. */
  ghost predicate RestWaits(s: State, pc: Pc) {
    match pc
    case CheckActive(k) => forall j :: k <= j < |s.tenants| && s.tenants[j].active ==> s.tenants[j].gate == Waiting
    case CheckGate(k) =>
      && k < |s.tenants| && s.tenants[k].gate == Waiting
      && forall j :: k < j < |s.tenants| && s.tenants[j].active ==> s.tenants[j].gate == Waiting
    case _ => false
  }

  /** The all_waiting loop, alone, ends at the lock if every registered tenant still to be seen waits, and back
      at the spin otherwise. */
  lemma {:induction false} CheckLoop(s: State, i: nat, f: Slicer, K: nat) returns (t: State)
    requires Sane(s) && i < |s.tenants| && (s.tenants[i].pc.CheckActive? || s.tenants[i].pc.CheckGate?)
    ensures Reach(s, t, f, K) && Sane(t) && Solo(s, t, i) && t.tenants[i].gate == s.tenants[i].gate
    ensures t.tenants[i].pc == TryLock || t.tenants[i].pc == Spin
    ensures t.tenants[i].pc == TryLock <==> RestWaits(s, s.tenants[i].pc)
    ensures s.tenants[i].pc == CheckActive(0) ==> (t.tenants[i].pc == TryLock <==> AllWaiting(s))
    decreases if s.tenants[i].pc.CheckActive? then 2 * Left(s.tenants[i].pc.k, |s.tenants|) + 1
              else 2 * Left(s.tenants[i].pc.k, |s.tenants|)
  {
    SaneTenant(s, i);
    ReachSelf(s, f, K);
    var pc := s.tenants[i].pc;
    t := SoloStep(s, s, i, 0, f, K);
    if t.tenants[i].pc.CheckActive? || t.tenants[i].pc.CheckGate? {
      var u := t;
      SameRest(s, u, i, u.tenants[i].pc);
      t := CheckLoop(u, i, f, K);
      ReachTrans(s, u, t, f, K);
    }
  }

  lemma SameRest(s: State, u: State, i: nat, pc: Pc)
    requires Solo(s, u, i) && u.tenants[i].gate == s.tenants[i].gate
    ensures RestWaits(u, pc) <==> RestWaits(s, pc)
  {
    forall j | 0 <= j < |s.tenants|
      ensures u.tenants[j].active == s.tenants[j].active && u.tenants[j].gate == s.tenants[j].gate
    {
    }
  }

  /** Peers are not in a killer, so the scan runs through. */
  ghost predicate Clear(s: State, i: nat) {
    forall j :: 0 <= j < |s.tenants| && j != i ==> s.tenants[j].gate != KillerActive
  }

  /** One peer further. */
  lemma ScanOne(s: State, i: nat, f: Slicer, K: nat) returns (t: State)
    requires Sane(s) && i < |s.tenants| && s.tenants[i].pc.ScanActive? && Clear(s, i)
    ensures Reach(s, t, f, K) && Sane(t) && Solo(s, t, i) && t.tenants[i].remain == s.tenants[i].remain
    ensures t.tenants[i].pc == var k := s.tenants[i].pc.k; if k < |s.tenants| then ScanActive(k + 1) else Mark
  {
    ReachSelf(s, f, K);
    var k := s.tenants[i].pc.k;
    t := SoloStep(s, s, i, 0, f, K);
    if t.tenants[i].pc == ScanGate(k) {
      assert t.tenants[k].gate != KillerActive;
      t := SoloStep(s, t, i, 0, f, K);
    }
  }

  lemma {:induction false} ScanLoop(s: State, i: nat, f: Slicer, K: nat) returns (t: State)
    requires Sane(s) && i < |s.tenants| && s.tenants[i].pc.ScanActive? && Clear(s, i)
    ensures Reach(s, t, f, K) && Sane(t) && Solo(s, t, i)
    ensures t.tenants[i].pc == Mark && t.tenants[i].remain == s.tenants[i].remain
    decreases Left(s.tenants[i].pc.k, |s.tenants|)
  {
    t := ScanOne(s, i, f, K);
    if t.tenants[i].pc.ScanActive? {
      var u := t;
      t := ScanLoop(u, i, f, K);
      ReachTrans(s, u, t, f, K);
    }
  }

  /** The exit path after the deduction. */
  lemma ExitKiller(s: State, i: nat, f: Slicer, K: nat) returns (t: State)
    requires Sane(s) && i < |s.tenants| && s.tenants[i].pc.BookExec?
    ensures Reach(s, t, f, K) && Sane(t) && Solo(s, t, i)
    ensures t.tenants[i].pc == Idle && t.tenants[i].remain == s.tenants[i].remain
  {
    ReachSelf(s, f, K);
    var u := SoloStep(s, s, i, 0, f, K);
    assert u.tenants[i].pc == Release;
    t := SoloStep(s, u, i, 0, f, K);
  }

  /** A marked tenant runs a killer of length e and returns to idle. */
  lemma RunKiller(s: State, i: nat, e: nat, f: Slicer, K: nat) returns (t: State)
    requires Sane(s) && i < |s.tenants| && s.tenants[i].pc == Killer && e <= K
    ensures Reach(s, t, f, K) && Sane(t) && Solo(s, t, i)
    ensures t.tenants[i].pc == Idle && t.tenants[i].remain == s.tenants[i].remain - e
  {
    ReachSelf(s, f, K);
    var u := SoloStep(s, s, i, e, f, K);
    t := ExitKiller(u, i, f, K);
    ReachTrans(s, u, t, f, K);
  }

  /** One killer of length e, from the scan to idle. */
  lemma OneKiller(s: State, i: nat, e: nat, f: Slicer, K: nat) returns (t: State)
    requires Sane(s) && i < |s.tenants| && s.tenants[i].pc.ScanActive? && Clear(s, i) && e <= K
    ensures Reach(s, t, f, K) && Sane(t) && Solo(s, t, i)
    ensures t.tenants[i].pc == Idle && t.tenants[i].remain == s.tenants[i].remain - e
  {
    var u := ScanLoop(s, i, f, K);
    var v := SoloStep(s, u, i, 0, f, K);
    t := RunKiller(v, i, e, f, K);
    ReachTrans(s, v, t, f, K);
  }

  /** An idle tenant can use up its slice and come to wait. */
  lemma {:induction false} UseUp(s: State, i: nat, f: Slicer, K: nat) returns (t: State)
    requires Sane(s) && i < |s.tenants| && s.tenants[i].pc == Idle && s.tenants[i].active && Clear(s, i) && K > 0
    ensures Reach(s, t, f, K) && Sane(t) && Solo(s, t, i)
    ensures t.tenants[i].pc == CheckActive(0) && t.tenants[i].gate == Waiting
    decreases s.tenants[i].remain
  {
    ReachSelf(s, f, K);
    t := Step(s, s, i, 0, f, K);
    if s.tenants[i].remain <= 0 {
      t := Step(s, t, i, 0, f, K);
    } else {
      var u := OneKiller(t, i, 1, f, K);
      ReachTrans(s, t, u, f, K);
      t := UseUp(u, i, f, K);
      ReachTrans(s, u, t, f, K);
    }
  }

  // ---- Putting it together ----

  /** The lock is free and every active tenant is in the waiting part of the gate. */
  ghost predicate Calm(s: State) {
    Sane(s) && !s.lock && forall j :: 0 <= j < |s.tenants| && s.tenants[j].active ==> InWait(s.tenants[j].pc)
  }

  lemma CalmClear(s: State, i: nat)
    requires Calm(s)
    ensures Clear(s, i)
  {
    forall j | 0 <= j < |s.tenants| ensures s.tenants[j].gate != KillerActive {
      SaneTenant(s, j);
    }
  }

  ghost function Released(s: State): set<nat> {
    set j: nat | j < |s.tenants| && s.tenants[j].active && s.tenants[j].gate != Waiting
  }

  /** A released tenant is brought back to waiting, or gets to run a whole round. */
  lemma Park(s: State, i: nat, f: Slicer, K: nat) returns (t: State)
    requires Calm(s) && i < |s.tenants| && s.tenants[i].active && s.tenants[i].gate != Waiting && K > 0
    ensures Reach(s, t, f, K)
    ensures Recharges(s, t) || (Calm(t) && Kept(s, t) && Released(t) == Released(s) - {i})
  {
    SaneTenant(s, i);
    ReachSelf(s, f, K);
    var u := s;
    if u.tenants[i].pc.CheckActive? || u.tenants[i].pc.CheckGate? {
      u := CheckLoop(s, i, f, K);
    }
    if u.tenants[i].pc == TryLock {
      t := Fire(u, i, f, K);
      ReachTrans(s, u, t, f, K);
    } else {
      CalmClear(s, i);
      t := ComeBack(u, i, f, K);
      ReachTrans(s, u, t, f, K);
      Parked(s, t, i);
    }
  }

  /** A released tenant leaves the spin, runs one empty killer, and uses up what is left. */
  lemma ComeBack(s: State, i: nat, f: Slicer, K: nat) returns (t: State)
    requires Sane(s) && i < |s.tenants| && Clear(s, i) && K > 0
    requires s.tenants[i].pc == Spin && s.tenants[i].gate != Waiting
    ensures Reach(s, t, f, K) && Sane(t) && Solo(s, t, i)
    ensures t.tenants[i].pc == CheckActive(0) && t.tenants[i].gate == Waiting
  {
    SaneTenant(s, i);
    ReachSelf(s, f, K);
    var u := SoloStep(s, s, i, 0, f, K);
    var v := OneKiller(u, i, 0, f, K);
    ReachTrans(s, u, v, f, K);
    t := UseUp(v, i, f, K);
    ReachTrans(s, v, t, f, K);
  }

  lemma Parked(s: State, t: State, i: nat)
    requires Calm(s) && Sane(t) && Solo(s, t, i)
    requires t.tenants[i].pc == CheckActive(0) && t.tenants[i].gate == Waiting
    ensures Calm(t) && Kept(s, t) && Released(t) == Released(s) - {i}
  {
  }

  lemma {:induction false} ParkAll(s: State, f: Slicer, K: nat) returns (t: State)
    requires Calm(s) && K > 0
    ensures Reach(s, t, f, K)
    ensures Recharges(s, t) || (Calm(t) && Kept(s, t) && AllWaiting(t))
    decreases Released(s)
  {
    if Released(s) == {} {
      ReachSelf(s, f, K);
      t := s;
      forall j | 0 <= j < |s.tenants| && s.tenants[j].active ensures s.tenants[j].gate == Waiting {
        assert j !in Released(s);
      }
    } else {
      var i: nat :| i in Released(s);
      t := Park(s, i, f, K);
      if !Recharges(s, t) {
        var u := t;
        t := ParkAll(u, f, K);
        ReachTrans(s, u, t, f, K);
      }
    }
  }

  /** A tenant at the spin, with all waiting, gets to the lock. */
  lemma FromSpin(s: State, i: nat, f: Slicer, K: nat) returns (t: State)
    requires Sane(s) && AllWaiting(s) && i < |s.tenants| && s.tenants[i].active && s.tenants[i].pc == Spin
    ensures Reach(s, t, f, K) && Sane(t) && Solo(s, t, i) && t.tenants[i].pc == TryLock
  {
    ReachSelf(s, f, K);
    var u := SoloStep(s, s, i, 0, f, K);
    assert AllWaiting(u) && u.tenants[i].pc == CheckActive(0);
    t := CheckLoop(u, i, f, K);
    ReachTrans(s, u, t, f, K);
  }

  lemma ToLock(s: State, i: nat, f: Slicer, K: nat) returns (t: State)
    requires Calm(s) && AllWaiting(s) && i < |s.tenants| && s.tenants[i].active
    ensures Reach(s, t, f, K) && Sane(t) && Solo(s, t, i) && t.tenants[i].pc == TryLock
  {
    SaneTenant(s, i);
    ReachSelf(s, f, K);
    t := s;
    if s.tenants[i].pc.CheckActive? || s.tenants[i].pc.CheckGate? {
      t := CheckLoop(s, i, f, K);
    }
    if t.tenants[i].pc == Spin {
      var u := t;
      assert AllWaiting(u);
      t := FromSpin(u, i, f, K);
      ReachTrans(s, u, t, f, K);
    }
  }

  /** When all wait and the lock is free, any active tenant can run a whole round. */
  lemma Trigger(s: State, i: nat, f: Slicer, K: nat) returns (t: State)
    requires Calm(s) && AllWaiting(s) && i < |s.tenants| && s.tenants[i].active
    ensures Reach(s, t, f, K) && Recharges(s, t)
  {
    var u := ToLock(s, i, f, K);
    t := Fire(u, i, f, K);
    ReachTrans(s, u, t, f, K);
  }

  /** The lock holder, if any, finishes; nobody else moves. */
  lemma Calmed(s: State, f: Slicer, K: nat) returns (t: State)
    requires Sane(s) && forall j :: 0 <= j < |s.tenants| && s.tenants[j].active ==> InWait(s.tenants[j].pc)
    ensures Reach(s, t, f, K) && Calm(t) && Kept(s, t)
  {
    if s.lock {
      t := FinishRound(s, s.owner, f, K);
    } else {
      ReachSelf(s, f, K);
      t := s;
    }
  }

  lemma ProgressFrom(s: State, f: Slicer, K: nat) returns (t: State)
    requires Sane(s) && K > 0
    requires forall j :: 0 <= j < |s.tenants| && s.tenants[j].active ==> InWait(s.tenants[j].pc)
    ensures Reach(s, t, f, K) && Recharges(s, t)
  {
    var u := Calmed(s, f, K);
    var v := ParkAll(u, f, K);
    ReachTrans(s, u, v, f, K);
    t := v;
    if !Recharges(u, v) && exists j :: 0 <= j < |s.tenants| && s.tenants[j].active {
      var j: nat :| j < |s.tenants| && s.tenants[j].active;
      t := Trigger(v, j, f, K);
      ReachTrans(s, v, t, f, K);
    }
  }

  // ---- From anywhere into the gate ----

  ghost predicate NoKiller(s: State) {
    forall j :: 0 <= j < |s.tenants| ==> !InKiller(s.tenants[j].pc)
  }

  lemma NoKillerClear(s: State, i: nat)
    requires Sane(s) && NoKiller(s)
    ensures Clear(s, i)
  {
    forall j | 0 <= j < |s.tenants| ensures s.tenants[j].gate != KillerActive {
      SaneTenant(s, j);
    }
  }

  ghost function KillersOf(s: State): set<nat> {
    set j: nat | j < |s.tenants| && InKiller(s.tenants[j].pc)
  }

  /** A running killer never waits for a peer. */
  lemma Quit(s: State, i: nat, f: Slicer, K: nat) returns (t: State)
    requires Sane(s) && i < |s.tenants| && InKiller(s.tenants[i].pc)
    ensures Reach(s, t, f, K) && Sane(t) && Solo(s, t, i) && t.tenants[i].pc == Idle
  {
    match s.tenants[i].pc
    case Killer => t := RunKiller(s, i, 0, f, K);
    case BookExec(_) => t := ExitKiller(s, i, f, K);
    case Release =>
      ReachSelf(s, f, K);
      t := SoloStep(s, s, i, 0, f, K);
  }

  lemma SoloKept(s: State, t: State, i: nat)
    requires Solo(s, t, i)
    ensures Kept(s, t)
  {
  }

  lemma KeptTrans(s: State, t: State, u: State)
    requires Kept(s, t) && Kept(t, u)
    ensures Kept(s, u)
  {
  }

  /** All running killers come to their end. */
  lemma {:induction false} QuitAll(s: State, f: Slicer, K: nat) returns (t: State)
    requires Sane(s)
    ensures Reach(s, t, f, K) && Sane(t) && NoKiller(t) && Kept(s, t) && t.lock == s.lock
    decreases KillersOf(s)
  {
    if KillersOf(s) == {} {
      ReachSelf(s, f, K);
      t := s;
      forall j | 0 <= j < |s.tenants| ensures !InKiller(s.tenants[j].pc) {
        assert j !in KillersOf(s);
      }
    } else {
      var i: nat :| i in KillersOf(s);
      var u := Quit(s, i, f, K);
      assert KillersOf(u) == KillersOf(s) - {i};
      SoloKept(s, u, i);
      t := QuitAll(u, f, K);
      KeptTrans(s, u, t);
      ReachTrans(s, u, t, f, K);
    }
  }

  /** A scanner that sees no killer gets to its own, an empty one, and back. */
  lemma ThroughScan(s: State, i: nat, f: Slicer, K: nat) returns (t: State)
    requires Sane(s) && i < |s.tenants| && Clear(s, i)
    requires s.tenants[i].pc.ScanActive? || s.tenants[i].pc.ScanGate? || s.tenants[i].pc.ScanSpin?
    ensures Reach(s, t, f, K) && Sane(t) && Solo(s, t, i) && t.tenants[i].pc == Idle
  {
    if s.tenants[i].pc.ScanActive? {
      t := OneKiller(s, i, 0, f, K);
    } else {
      ReachSelf(s, f, K);
      SeenClear(s, i);
      var u := SoloStep(s, s, i, 0, f, K);
      t := OneKiller(u, i, 0, f, K);
      ReachTrans(s, u, t, f, K);
    }
  }

  /** A scanner has at most itself to find marked, and that it skips. */
  lemma SeenClear(s: State, i: nat)
    requires i < |s.tenants| && Sane(s) && Clear(s, i) && (s.tenants[i].pc.ScanGate? || s.tenants[i].pc.ScanSpin?)
    ensures Own(s, i, 0).pc == ScanActive(s.tenants[i].pc.k + 1)
  {
    SaneTenant(s, i);
  }

  lemma FromMark(s: State, i: nat, f: Slicer, K: nat) returns (t: State)
    requires Sane(s) && i < |s.tenants| && s.tenants[i].pc == Mark
    ensures Reach(s, t, f, K) && Sane(t) && Solo(s, t, i) && t.tenants[i].pc == Idle
  {
    ReachSelf(s, f, K);
    var u := SoloStep(s, s, i, 0, f, K);
    t := RunKiller(u, i, 0, f, K);
    ReachTrans(s, u, t, f, K);
  }

  /** With no killer around, a tenant outside the waiting part comes to wait. */
  lemma ComeToWait(s: State, i: nat, f: Slicer, K: nat) returns (t: State)
    requires Sane(s) && NoKiller(s) && i < |s.tenants| && s.tenants[i].active && !InWait(s.tenants[i].pc) && K > 0
    ensures Reach(s, t, f, K) && Sane(t) && Solo(s, t, i) && t.tenants[i].pc == CheckActive(0)
  {
    NoKillerClear(s, i);
    ReachSelf(s, f, K);
    if s.tenants[i].pc == SetWaiting {
      t := SoloStep(s, s, i, 0, f, K);
    } else {
      var u := s;
      if s.tenants[i].pc == Mark {
        u := FromMark(s, i, f, K);
      } else if s.tenants[i].pc != Idle {
        u := ThroughScan(s, i, f, K);
      }
      t := UseUp(u, i, f, K);
      ReachTrans(s, u, t, f, K);
    }
  }

  ghost function Outside(s: State): set<nat> {
    set j: nat | j < |s.tenants| && s.tenants[j].active && !InWait(s.tenants[j].pc)
  }

  lemma {:induction false} AllComeToWait(s: State, f: Slicer, K: nat) returns (t: State)
    requires Sane(s) && NoKiller(s) && K > 0
    ensures Reach(s, t, f, K) && Sane(t) && Kept(s, t)
    ensures forall j :: 0 <= j < |t.tenants| && t.tenants[j].active ==> InWait(t.tenants[j].pc)
    decreases Outside(s)
  {
    if Outside(s) == {} {
      ReachSelf(s, f, K);
      t := s;
      forall j | 0 <= j < |s.tenants| && s.tenants[j].active ensures InWait(s.tenants[j].pc) {
        assert j !in Outside(s);
      }
    } else {
      var i: nat :| i in Outside(s);
      var u := ComeToWait(s, i, f, K);
      assert Outside(u) == Outside(s) - {i};
      SoloKept(s, u, i);
      t := AllComeToWait(u, f, K);
      KeptTrans(s, u, t);
      ReachTrans(s, u, t, f, K);
    }
  }

  lemma RechargesAfter(s: State, t: State, u: State)
    requires Kept(s, t) && Recharges(t, u)
    ensures Recharges(s, u)
  {
  }

  /** From every reachable state whatever, some finite continuation recharges every active tenant, whatever
      slices the rounds hand out to whom and when. */
  lemma Progress(s: State, acts: seq<Action>, f: Slicer, K: nat)
    requires Init(s) && (forall k :: 0 <= k < |acts| ==> Fine(acts[k])) && K > 0
    ensures exists e :: Reach(Run(s, acts), e, f, K) && Recharges(Run(s, acts), e)
  {
    StartSane(s);
    SaneRun(s, acts);
    var u := Run(s, acts);
    var v := QuitAll(u, f, K);
    var w := AllComeToWait(v, f, K);
    ReachTrans(u, v, w, f, K);
    KeptTrans(u, v, w);
    var e := ProgressFrom(w, f, K);
    ReachTrans(u, w, e, f, K);
    RechargesAfter(u, w, e);
  }

  // ---- The code's own slices ----

  function Membership(s: State): seq<bool> {
    seq(|s.tenants|, k requires 0 <= k < |s.tenants| => s.tenants[k].active)
  }

  /** calc_slice_us on the membership of the moment, with weights and duration that the central scheduler
      may change at any time. */
  function Weighted(w: State -> seq<real>, rd: State -> int): Slicer {
    (s: State, k: nat) =>
      var slice := if k < |s.tenants| == |w(s)| then Slices.Slice(Membership(s), w(s), rd(s), k) else 0;
      if slice >= 0 then slice else 0
  }

  /** Progress when every recharged tenant gets its weighted share. */
  lemma WeightedProgress(s: State, acts: seq<Action>, w: State -> seq<real>, rd: State -> int, K: nat)
    requires Init(s) && (forall k :: 0 <= k < |acts| ==> Fine(acts[k])) && K > 0
    requires forall u: State :: |w(u)| == |u.tenants| && forall k :: 0 <= k < |w(u)| ==> w(u)[k] >= 0.0
    ensures exists e :: Reach(Run(s, acts), e, Weighted(w, rd), K) && Recharges(Run(s, acts), e)
    ensures forall u: State, k: nat :: k < |u.tenants| ==>
              Weighted(w, rd)(u, k) == Slices.Slice(Membership(u), w(u), rd(u), k)
  {
    Progress(s, acts, Weighted(w, rd), K);
    forall u: State, k: nat | k < |u.tenants|
      ensures Weighted(w, rd)(u, k) == Slices.Slice(Membership(u), w(u), rd(u), k)
    {
      Slices.SliceNonNegative(Membership(u), w(u), rd(u), k);
    }
  }
}
