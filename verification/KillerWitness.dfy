/** Runs that show where the killer gate falls short, on any number of tenants of which two are active. */
module KillerWitness {
  import opened KillerGate
  import opened KillerProgress
  import Overlap = KillerOverlap
  import Overdraft = KillerOverdraft

  function Zeros(n: nat): (zs: seq<nat>)
    ensures |zs| == n && forall k :: 0 <= k < n ==> zs[k] == 0
  {
    seq(n, k requires 0 <= k < n => 0)
  }

  function Newcomer(n: nat, active: bool, remain: int): Tenant {
    Tenant(active, Running, remain, 0, 0, Idle, remain, 0, 0, 0, 0, Zeros(n))
  }

  function Member(n: nat, k: nat, remain0: int, active1: bool, remain1: int): Tenant {
    if k == 0 then Newcomer(n, true, remain0)
    else if k == 1 then Newcomer(n, active1, remain1)
    else Newcomer(n, false, 0)
  }

  /** Tenant 0 is active, tenant 1 perhaps, and nobody else. */
  function Crew(n: nat, remain0: int, active1: bool, remain1: int): State {
    State(seq(n, k requires 0 <= k < n => Member(n, k, remain0, active1, remain1)), false, 0, 0, 1)
  }

  /** Rounds that hand out nothing. */
  function Nothing(s: State, k: nat): nat { 0 }

  ghost predicate Two(s: State) {
    Sane(s) && |s.tenants| >= 2 && forall j :: 2 <= j < |s.tenants| ==> !s.tenants[j].active
  }

  lemma SoloTwo(s: State, t: State, i: nat)
    requires Two(s) && Sane(t) && Solo(s, t, i) && i < 2
    ensures Two(t)
  {
  }

  lemma ActiveKept(s: State, i: nat, slice: nat, elapsed: nat, j: nat)
    requires i < |s.tenants| && j < |s.tenants|
    ensures var u := TenantStep(s, i, slice, elapsed);
            |u.tenants| == |s.tenants| && u.tenants[j].active == s.tenants[j].active
  {
    if j != i { PeerStep(s, i, slice, elapsed, j); }
  }

  /** One step of one of the two. */
  lemma Next(s: State, t: State, i: nat, K: nat) returns (u: State)
    requires Reach(s, t, Nothing, K) && Two(t) && i < 2 && t.tenants[i].active
    ensures Reach(s, u, Nothing, K) && Two(u) && |u.tenants| == |t.tenants|
    ensures u == TenantStep(t, i, 0, 0).(clock := t.clock + 1)
  {
    u := Step(s, t, i, 0, Nothing, K);
    forall j | 0 <= j < |t.tenants| ensures |u.tenants| == |t.tenants| && u.tenants[j].active == t.tenants[j].active {
      ActiveKept(t, i, SliceAt(t, i, Nothing), 0, j);
    }
  }

  /** If the other of the two is not in a killer, nobody is. */
  lemma OtherClear(s: State, i: nat)
    requires Two(s) && i < 2 && s.tenants[1 - i].gate != KillerActive
    ensures Clear(s, i)
  {
    forall j | 0 <= j < |s.tenants| && j != i ensures s.tenants[j].gate != KillerActive {
      SaneTenant(s, j);
    }
  }

  /** With no mark in its way, an idle tenant gets as far as its own. */
  lemma Enters(s: State, i: nat, K: nat) returns (t: State)
    requires Two(s) && i < 2 && s.tenants[1 - i].gate != KillerActive
    requires s.tenants[i].pc == Idle && s.tenants[i].active && s.tenants[i].remain > 0
    ensures Reach(s, t, Nothing, K) && Two(t) && Solo(s, t, i) && t.tenants[i].pc == Mark
  {
    ReachSelf(s, Nothing, K);
    OtherClear(s, i);
    var u := SoloStep(s, s, i, 0, Nothing, K);
    assert u.tenants[i].pc == ScanActive(0) && Clear(u, i);
    t := ScanLoop(u, i, Nothing, K);
    ReachTrans(s, u, t, Nothing, K);
    SoloTwo(s, t, i);
  }

  lemma Marks(s: State, i: nat, K: nat) returns (t: State)
    requires Two(s) && i < 2 && s.tenants[i].pc == Mark
    ensures Reach(s, t, Nothing, K) && Two(t) && Solo(s, t, i)
    ensures t.tenants[i].pc == Killer && t.tenants[i].gate == KillerActive && t.tenants[i].remain == s.tenants[i].remain
  {
    ReachSelf(s, Nothing, K);
    t := SoloStep(s, s, i, 0, Nothing, K);
    SoloTwo(s, t, i);
  }

  lemma CrewStarts(n: nat, remain0: int, active1: bool, remain1: int)
    requires n >= 2
    ensures var s := Crew(n, remain0, active1, remain1);
            && Init(s) && Two(s) && |s.tenants| == n
            && s.tenants[0] == Newcomer(n, true, remain0) && s.tenants[1] == Newcomer(n, active1, remain1)
            && (forall k :: 2 <= k < n ==> s.tenants[k] == Newcomer(n, false, 0))
  {
    var s := Crew(n, remain0, active1, remain1);
    forall i | 0 <= i < n ensures Fresh(s.tenants[i], n, s.tenants[0].round, 1) {
      assert s.tenants[i] == Member(n, i, remain0, active1, remain1);
    }
    StartSane(s);
  }

  lemma BothEnter(n: nat) returns (t: State)
    requires n >= 2
    ensures Reach(Crew(n, 1, true, 1), t, Nothing, 1) && Two(t) && |t.tenants| == n
    ensures t.tenants[0].pc == Mark && t.tenants[1].pc == Mark
  {
    var s := Crew(n, 1, true, 1);
    CrewStarts(n, 1, true, 1);
    var a := Enters(s, 0, 1);
    SaneTenant(a, 0);
    t := Enters(a, 1, 1);
    ReachTrans(s, a, t, Nothing, 1);
  }

  /** Two tenants can be in KILLER_ACTIVE together: both scan before either marks. */
  lemma OverlapHappens(n: nat) returns (s: State, e: State)
    requires n >= 2
    ensures Init(s) && |s.tenants| == n && Reach(s, e, Nothing, 1)
    ensures |e.tenants| == n && e.tenants[0].gate == KillerActive && e.tenants[1].gate == KillerActive
  {
    s := Crew(n, 1, true, 1);
    CrewStarts(n, 1, true, 1);
    var a := BothEnter(n);
    var b := Marks(a, 0, 1);
    e := Marks(b, 1, 1);
    ReachTrans(a, b, e, Nothing, 1);
    ReachTrans(s, a, e, Nothing, 1);
  }

  // ---- A stale trigger ----

  /** A lone waiter passes all_waiting and stands at the lock. */
  lemma LoneWaiter(n: nat, K: nat) returns (c: State)
    requires K > 0 && n >= 2
    ensures var s := Crew(n, 0, false, 1);
            Init(s) && Reach(s, c, Nothing, K) && Two(c) && Solo(s, c, 0) && c.tenants[0].pc == TryLock
  {
    var s := Crew(n, 0, false, 1);
    CrewStarts(n, 0, false, 1);
    OtherClear(s, 0);
    var a := UseUp(s, 0, Nothing, K);
    c := CheckLoop(a, 0, Nothing, K);
    ReachTrans(s, a, c, Nothing, K);
    SoloTwo(s, c, 0);
  }

  /** Its peer, not seen by that check, starts a killer. */
  lemma PeerStarts(d: State, K: nat) returns (e: State)
    requires Two(d) && d.tenants[0].pc == TryLock
    requires d.tenants[1].pc == Idle && d.tenants[1].active && d.tenants[1].remain == 1
    ensures Reach(d, e, Nothing, K) && Two(e) && Solo(d, e, 1)
    ensures e.tenants[1].pc == Killer && e.tenants[1].gate == KillerActive
  {
    SaneTenant(d, 0);
    var g := Enters(d, 1, K);
    e := Marks(g, 1, K);
    ReachTrans(d, g, e, Nothing, K);
  }

  /** The stale trigger takes the lock. */
  lemma StaleLock(s: State, K: nat) returns (t: State)
    requires Two(s) && !s.lock && s.tenants[0].pc == TryLock && s.tenants[0].active
    ensures Reach(s, t, Nothing, K) && Two(t) && |t.tenants| == |s.tenants| && t.tenants[1] == s.tenants[1]
    ensures t.tenants[0] == s.tenants[0].(pc := StoreRemain(0))
  {
    ReachSelf(s, Nothing, K);
    var a := Next(s, s, 0, K);
    assert a.tenants[0] == s.tenants[0].(pc := RoundActive(0));
    t := Next(s, a, 0, K);
  }

  /** It recharges itself. */
  lemma RechargeSelf(s: State, K: nat) returns (t: State)
    requires Two(s) && s.tenants[0].pc == StoreRemain(0) && s.tenants[0].active
    ensures Reach(s, t, Nothing, K) && Two(t) && |t.tenants| == |s.tenants| && t.tenants[1] == s.tenants[1]
    ensures t.tenants[0].pc == RoundActive(1) && t.tenants[0].active && t.tenants[0].gate == Running
  {
    ReachSelf(s, Nothing, K);
    var a := Next(s, s, 0, K);
    assert a.tenants[0] == Recharged(s.tenants[0].(pc := StoreGate(0)), 0);
    t := Next(s, a, 0, K);
  }

  /** It stores the peer's slice in mid-killer and pauses before releasing it. */
  lemma HalfRecharge(s: State, K: nat) returns (t: State)
    requires Two(s) && s.tenants[0].pc == RoundActive(1) && s.tenants[0].active && s.tenants[1].active
    ensures Reach(s, t, Nothing, K) && Two(t) && |t.tenants| == |s.tenants|
    ensures t.tenants[0] == s.tenants[0].(pc := StoreGate(1)) && t.tenants[1] == Recharged(s.tenants[1], 0)
  {
    ReachSelf(s, Nothing, K);
    var a := Next(s, s, 0, K);
    assert a.tenants[0] == s.tenants[0].(pc := StoreRemain(1));
    t := Next(s, a, 0, K);
  }

  /** Tenant 0 holds the lock on a stale trigger and is about to release tenant 1, which runs a killer. */
  ghost predicate Caught(s: State) {
    && Two(s) && s.tenants[0].active && s.tenants[0].gate == Running && s.tenants[0].pc == StoreGate(1)
    && s.tenants[1].active && s.tenants[1].pc == Killer && s.tenants[1].remain == 0
    && s.tenants[1].gate == KillerActive
  }

  lemma GetsCaught(d: State, K: nat) returns (t: State)
    requires Two(d) && !d.lock && d.tenants[0].pc == TryLock && d.tenants[0].active
    requires d.tenants[1].pc == Idle && d.tenants[1].active && d.tenants[1].remain == 1
    ensures Reach(d, t, Nothing, K) && Caught(t) && |t.tenants| == |d.tenants|
  {
    var e := PeerStarts(d, K);
    var h := StaleLock(e, K);
    ReachTrans(d, e, h, Nothing, K);
    var f := RechargeSelf(h, K);
    ReachTrans(d, h, f, Nothing, K);
    t := HalfRecharge(f, K);
    ReachTrans(d, f, t, Nothing, K);
  }

  // ---- -2K is reached ----

  /** In debt after the killer, the peer comes to wait. */
  lemma DebtStops(s: State, K: nat) returns (t: State)
    requires Two(s) && s.tenants[1].pc == Idle && s.tenants[1].active && s.tenants[1].remain <= 0
    ensures Reach(s, t, Nothing, K) && Two(t) && Solo(s, t, 1) && t.tenants[1].remain == s.tenants[1].remain
    ensures t.tenants[1].pc == CheckActive(0) && t.tenants[1].gate == Waiting
  {
    ReachSelf(s, Nothing, K);
    var a := SoloStep(s, s, 1, 0, Nothing, K);
    t := SoloStep(s, a, 1, 0, Nothing, K);
    SoloTwo(s, t, 1);
  }

  /** It sees that not all wait. */
  lemma SeesRunning(s: State, K: nat) returns (t: State)
    requires Two(s) && s.tenants[0].active && s.tenants[0].gate == Running
    requires s.tenants[1].pc == CheckActive(0) && s.tenants[1].gate == Waiting
    ensures Reach(s, t, Nothing, K) && Two(t) && Solo(s, t, 1) && t.tenants[1].remain == s.tenants[1].remain
    ensures t.tenants[1].pc == Spin && t.tenants[1].gate == Waiting
  {
    ReachSelf(s, Nothing, K);
    var a := SoloStep(s, s, 1, 0, Nothing, K);
    assert a.tenants[1].pc == CheckGate(0) && a.tenants[0] == s.tenants[0];
    t := SoloStep(s, a, 1, 0, Nothing, K);
    SoloTwo(s, t, 1);
  }

  lemma DebtWaits(s: State, K: nat) returns (t: State)
    requires Two(s) && s.tenants[0].active && s.tenants[0].gate == Running
    requires s.tenants[1].pc == Idle && s.tenants[1].active && s.tenants[1].remain <= 0
    ensures Reach(s, t, Nothing, K) && Two(t) && Solo(s, t, 1) && t.tenants[1].remain == s.tenants[1].remain
    ensures t.tenants[1].pc == Spin && t.tenants[1].gate == Waiting
  {
    var u := DebtStops(s, K);
    t := SeesRunning(u, K);
    ReachTrans(s, u, t, Nothing, K);
  }

  /** The second store releases the peer. */
  lemma SecondStore(s: State, K: nat) returns (t: State)
    requires Two(s) && s.tenants[0].active && s.tenants[0].pc == StoreGate(1)
    ensures Reach(s, t, Nothing, K) && Two(t) && |t.tenants| == |s.tenants|
    ensures t.tenants[0] == s.tenants[0].(pc := RoundActive(2)) && t.tenants[1] == Freed(s.tenants[1], s.clock)
  {
    ReachSelf(s, Nothing, K);
    t := Next(s, s, 0, K);
  }

  /** Released from waiting, it runs again. */
  lemma OneMore(s: State, K: nat) returns (t: State)
    requires Two(s) && s.tenants[0].active && s.tenants[0].pc == StoreGate(1) && s.tenants[0].gate == Running
    requires s.tenants[1].pc == Spin
    ensures Reach(s, t, Nothing, K) && |t.tenants| == |s.tenants| && t.tenants[1].remain == s.tenants[1].remain - K
  {
    var d := SecondStore(s, K);
    ReachSelf(d, Nothing, K);
    OtherClear(d, 1);
    var f := SoloStep(d, d, 1, 0, Nothing, K);
    t := OneKiller(f, 1, K, Nothing, K);
    ReachTrans(d, f, t, Nothing, K);
    ReachTrans(s, d, t, Nothing, K);
  }

  lemma DebtTwice(s: State, K: nat) returns (t: State)
    requires Caught(s)
    ensures Reach(s, t, Nothing, K) && |t.tenants| == |s.tenants| && t.tenants[1].remain == -2 * K
  {
    var a := RunKiller(s, 1, K, Nothing, K);
    SoloTwo(s, a, 1);
    var b := DebtWaits(a, K);
    ReachTrans(s, a, b, Nothing, K);
    t := OneMore(b, K);
    ReachTrans(s, b, t, Nothing, K);
  }

  // ---- Whole runs, with the peer registering in between ----

  lemma {:induction false} LegalIsBounded(s: State, acts: seq<Action>, f: Slicer, K: nat)
    requires LegalRun(s, acts, f, K)
    ensures forall k :: 0 <= k < |acts| ==> Overdraft.Legal(acts[k], K)
    decreases |acts|
  {
    if acts != [] {
      LegalIsBounded(Apply(s, acts[0]), acts[1..], f, K);
    }
  }

  lemma BoundedAppend(xs: seq<Action>, ys: seq<Action>, K: nat)
    requires forall k :: 0 <= k < |xs| ==> Overdraft.Legal(xs[k], K)
    requires forall k :: 0 <= k < |ys| ==> Overdraft.Legal(ys[k], K)
    ensures forall k :: 0 <= k < |xs + ys| ==> Overdraft.Legal((xs + ys)[k], K)
  {
  }

  /** e ends a run of legal steps from a fresh start of n tenants with nobody in debt. */
  ghost predicate LegalEnd(s: State, acts: seq<Action>, n: nat, K: nat, e: State) {
    && Init(s) && |s.tenants| == n && (forall k :: 0 <= k < n ==> s.tenants[k].remain >= 0)
    && (forall k :: 0 <= k < |acts| ==> Overdraft.Legal(acts[k], K)) && Run(s, acts) == e
  }

  /** What one reaches after tenant 1 has registered behind the back of the check. */
  lemma JoinedRun(n: nat, K: nat, c: State, t: State)
    requires n >= 2 && Reach(Crew(n, 0, false, 1), c, Nothing, K) && Reach(Apply(c, Join(1)), t, Nothing, K)
    requires Init(Crew(n, 0, false, 1))
    ensures exists s: State, acts: seq<Action> :: LegalEnd(s, acts, n, K, t)
  {
    var s, d := Crew(n, 0, false, 1), Apply(c, Join(1));
    CrewStarts(n, 0, false, 1);
    var xs: seq<Action> :| LegalRun(s, xs, Nothing, K) && Run(s, xs) == c;
    var ys: seq<Action> :| LegalRun(d, ys, Nothing, K) && Run(d, ys) == t;
    LegalIsBounded(s, xs, Nothing, K);
    LegalIsBounded(d, ys, Nothing, K);
    var zs := [Join(1)] + ys;
    BoundedAppend([Join(1)], ys, K);
    BoundedAppend(xs, zs, K);
    RunAppend(s, xs, zs);
    assert zs[1..] == ys;
    assert LegalEnd(s, xs + zs, n, K, t);
  }

  /** The stale trigger, from a fresh start. */
  lemma Catch(n: nat, K: nat) returns (c: State, t: State)
    requires K > 0 && n >= 2
    ensures Init(Crew(n, 0, false, 1)) && Reach(Crew(n, 0, false, 1), c, Nothing, K)
    ensures Reach(Apply(c, Join(1)), t, Nothing, K) && Caught(t) && |t.tenants| == n
  {
    c := LoneWaiter(n, K);
    CrewStarts(n, 0, false, 1);
    SaneTenant(c, 0);
    var d := Apply(c, Join(1));
    LockStep(c, Join(1));
    Overlap.InvStep(c, Join(1));
    t := GetsCaught(d, K);
  }

  /** The bound of -2K is reached, for every K and every number of tenants from two. */
  lemma OverdraftIsTight(n: nat, K: nat)
    requires K > 0 && n >= 2
    ensures exists s: State, acts: seq<Action>, e: State ::
              LegalEnd(s, acts, n, K, e) && |e.tenants| == n && e.tenants[1].remain == -2 * K
  {
    var c, t := Catch(n, K);
    var e := DebtTwice(t, K);
    ReachTrans(Apply(c, Join(1)), t, e, Nothing, K);
    JoinedRun(n, K, c, e);
  }

  // ---- A look that comes after the mark and still passes a running killer ----

  /** The holder goes on to the end of its round; with two tenants, six steps. */
  lemma HolderReads(s: State, K: nat) returns (t: State)
    requires Two(s) && |s.tenants| == 2 && s.tenants[0].active && s.tenants[0].pc == RoundActive(2)
    ensures Reach(s, t, Nothing, K) && Two(t) && |t.tenants| == 2 && t.tenants[1] == s.tenants[1]
    ensures t.tenants[0] == s.tenants[0].(pc := StoreRound(0, s.tenants[0].round))
  {
    ReachSelf(s, Nothing, K);
    var a := Next(s, s, 0, K);
    assert a.tenants[0] == s.tenants[0].(pc := ReadRound);
    t := Next(s, a, 0, K);
  }

  lemma HolderStores(s: State, K: nat) returns (t: State)
    requires Two(s) && |s.tenants| == 2 && s.tenants[0].active
    requires s.tenants[0].pc.StoreRound? && s.tenants[0].pc.k == 0
    ensures Reach(s, t, Nothing, K) && Two(t) && |t.tenants| == 2 && t.tenants[0].active
    ensures t.tenants[0].pc == s.tenants[0].pc.(k := 2) && t.tenants[0].gate == s.tenants[0].gate
    ensures t.tenants[1] == s.tenants[1].(round := t.tenants[1].round)
  {
    ReachSelf(s, Nothing, K);
    var a := Next(s, s, 0, K);
    assert a.tenants[0].pc == s.tenants[0].pc.(k := 1) && a.tenants[1] == s.tenants[1];
    t := Next(s, a, 0, K);
  }

  lemma HolderSpins(s: State, K: nat) returns (t: State)
    requires Two(s) && |s.tenants| == 2 && s.tenants[0].active && s.tenants[0].gate == Running
    requires s.tenants[0].pc.StoreRound? && s.tenants[0].pc.k == 2
    ensures Reach(s, t, Nothing, K) && Two(t) && |t.tenants| == 2 && t.tenants[1] == s.tenants[1]
    ensures t.tenants[0].pc == ScanActive(0) && t.tenants[0].active
  {
    ReachSelf(s, Nothing, K);
    var a := Next(s, s, 0, K);
    assert a.tenants[0].pc == Spin && a.tenants[0].gate == Running;
    t := Next(s, a, 0, K);
  }

  /** Its scan starts after the peer's mark and finds RUNNING. */
  lemma LateLook(s: State, K: nat) returns (t: State)
    requires Two(s) && |s.tenants| == 2 && s.tenants[0].active && s.tenants[0].pc == ScanActive(0)
    requires s.tenants[1].active && s.tenants[1].gate == Running
    ensures Reach(s, t, Nothing, K) && Two(t) && Solo(s, t, 0) && t.tenants[0].pc == ScanActive(2)
    ensures |t.tenants[0].scannedAt| == 2 && t.tenants[0].scannedAt[1] > s.tenants[1].markedAt
  {
    ReachSelf(s, Nothing, K);
    var a := SoloStep(s, s, 0, 0, Nothing, K);
    assert a.tenants[0].pc == ScanActive(1);
    var b := SoloStep(s, a, 0, 0, Nothing, K);
    assert b.tenants[0].pc == ScanGate(1) && b.tenants[1] == s.tenants[1];
    assert Overlap.TenantOk(b.tenants[0], 2, b.clock) && Overlap.TenantOk(b.tenants[1], 2, b.clock);
    t := SoloStep(s, b, 0, 0, Nothing, K);
    SoloTwo(s, t, 0);
  }

  lemma MarksLate(s: State, K: nat) returns (t: State)
    requires Two(s) && |s.tenants| == 2 && s.tenants[0].active && s.tenants[0].pc == ScanActive(2)
    ensures Reach(s, t, Nothing, K) && Solo(s, t, 0) && t.tenants[0].pc == Killer
    ensures t.tenants[0].scannedAt == s.tenants[0].scannedAt
  {
    ReachSelf(s, Nothing, K);
    var a := SoloStep(s, s, 0, 0, Nothing, K);
    assert a.tenants[0].pc == Mark && a.tenants[0].scannedAt == s.tenants[0].scannedAt;
    t := SoloStep(s, a, 0, 0, Nothing, K);
  }

  /** The holder stores over the mark, ends its round and starts its own scan. */
  lemma StoresOver(s: State, K: nat) returns (t: State)
    requires Caught(s) && |s.tenants| == 2
    ensures Reach(s, t, Nothing, K) && Two(t) && |t.tenants| == 2
    ensures t.tenants[0].active && t.tenants[0].pc == ScanActive(0)
    ensures t.tenants[1].active && t.tenants[1].pc == Killer && t.tenants[1].gate == Running
  {
    var a := SecondStore(s, K);
    var h := HolderReads(a, K);
    ReachTrans(s, a, h, Nothing, K);
    var b := HolderStores(h, K);
    ReachTrans(s, h, b, Nothing, K);
    t := HolderSpins(b, K);
    ReachTrans(s, b, t, Nothing, K);
  }

  lemma RunsBeside(s: State, K: nat) returns (t: State)
    requires Caught(s) && |s.tenants| == 2
    ensures Reach(s, t, Nothing, K) && LateOverlap(t)
  {
    var c := StoresOver(s, K);
    var d := LateLook(c, K);
    ReachTrans(s, c, d, Nothing, K);
    t := MarksLate(d, K);
    ReachTrans(s, d, t, Nothing, K);
  }

  /** Both tenants run a killer although the whole scan of one came after the mark of the other. */
  predicate LateOverlap(e: State) {
    && |e.tenants| == 2 && e.tenants[0].pc == Killer && e.tenants[1].pc == Killer
    && |e.tenants[0].scannedAt| == 2 && e.tenants[0].scannedAt[1] > e.tenants[1].markedAt
  }

  /** Killers run together even though one looked only after the other's mark: a stale trigger's second
      store wrote RUNNING over that mark in between. */
  lemma LateOverlapHappens(K: nat)
    requires K > 0
    ensures exists s: State, acts: seq<Action>, e: State :: LegalEnd(s, acts, 2, K, e) && LateOverlap(e)
  {
    var c, t := Catch(2, K);
    var e := RunsBeside(t, K);
    ReachTrans(Apply(c, Join(1)), t, e, Nothing, K);
    JoinedRun(2, K, c, e);
  }
}
