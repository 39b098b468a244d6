/** When two tenants can be inside a killer at once: when each looked at the other before the other marked
    itself, or when a recharge has stored over a standing mark before the peer looked. */
module KillerOverlap {
  import opened KillerGate

  /** Tenant i has finished looking at peer j in its current entry. */
  predicate Passed(pc: Pc, j: nat) {
    match pc
    case ScanActive(k) => j < k
    case ScanGate(k) => j < k
    case ScanSpin(k) => j < k
    case _ => pc.Mark? || InKiller(pc)
  }

  predicate TenantOk(t: Tenant, n: nat, clock: nat) {
    && MarkOk(t)
    && (!t.active ==> t.pc == Idle)
    && Clocked(t.markedAt, t.erasedAt, t.scannedAt, n, clock)
  }

  /** A recharge has stored over the mark since it was made. */
  predicate Erased(t: Tenant) { t.markedAt < t.erasedAt }

  /** The mark stands from the mark to the release, unless a recharge has stored over it. */
  predicate MarkOk(t: Tenant) {
    t.gate == KillerActive <==> InKiller(t.pc) && !Erased(t)
  }

  predicate Clocked(markedAt: nat, erasedAt: nat, scannedAt: seq<nat>, n: nat, clock: nat) {
    markedAt < clock && erasedAt < clock && |scannedAt| == n && (forall k :: 0 <= k < n ==> scannedAt[k] < clock)
  }

  /** What i's passing of j proves about j's killer: i looked before j marked itself, or after a recharge had
      stored over the mark. */
  predicate PairOk(s: State, i: nat, j: nat)
    requires i < |s.tenants| && j < |s.tenants|
  {
    var a, b := s.tenants[i], s.tenants[j];
    Passed(a.pc, j) && InKiller(b.pc) && j < |a.scannedAt| ==>
      a.scannedAt[j] < b.markedAt || b.markedAt < b.erasedAt < a.scannedAt[j]
  }

  ghost predicate Inv(s: State) {
    && (forall i {:trigger TenantOk(s.tenants[i], |s.tenants|, s.clock)} ::
          0 <= i < |s.tenants| ==> TenantOk(s.tenants[i], |s.tenants|, s.clock))
    && (forall i, j :: 0 <= i < |s.tenants| && 0 <= j < |s.tenants| && i != j ==> PairOk(s, i, j))
  }

  /** Trying the lock, or holding it. */
  predicate AtLock(pc: Pc) { pc.TryLock? || InRound(pc) }

  /** At the lock a tenant stays in the waiting part, and at most its own slice, gate and round id change. */
  predicate StaysAtLock(t: Tenant, t': Tenant, now: nat) {
    && (t'.pc == Spin || InRound(t'.pc)) && t'.active == t.active
    && t'.scannedAt == t.scannedAt && t'.markedAt == t.markedAt
    && (t'.erasedAt == t.erasedAt || t'.erasedAt == now)
    && (t'.gate == t.gate || t'.gate == Running)
  }

  lemma StoreStep(s: State, i: nat, slice: nat, elapsed: nat)
    requires i < |s.tenants|
    requires var pc := s.tenants[i].pc; pc.StoreRemain? || pc.StoreGate? || pc.StoreRound?
    ensures var u := TenantStep(s, i, slice, elapsed);
            |u.tenants| == |s.tenants| && StaysAtLock(s.tenants[i], u.tenants[i], s.clock)
  {
  }

  lemma AtLockStep(s: State, i: nat, slice: nat, elapsed: nat)
    requires i < |s.tenants| && AtLock(s.tenants[i].pc)
    ensures var u := TenantStep(s, i, slice, elapsed);
            |u.tenants| == |s.tenants| && StaysAtLock(s.tenants[i], u.tenants[i], s.clock)
  {
    var pc := s.tenants[i].pc;
    if pc.StoreRemain? || pc.StoreGate? || pc.StoreRound? {
      StoreStep(s, i, slice, elapsed);
    } else if pc != TryLock {
      assert TenantStep(s, i, slice, elapsed) == Put(s, i, Own(s, i, elapsed));
    }
  }

  predicate Scanning(pc: Pc) { pc.ScanActive? || pc.ScanGate? || pc.ScanSpin? }

  /** Any other step writes the own record alone. */
  lemma LocalStep(s: State, i: nat, slice: nat, elapsed: nat)
    requires i < |s.tenants| && !AtLock(s.tenants[i].pc)
    ensures TenantStep(s, i, slice, elapsed) == Put(s, i, Own(s, i, elapsed))
  {
  }

  lemma LocalTimes(s: State, i: nat, elapsed: nat)
    requires i < |s.tenants|
    ensures var t, t' := s.tenants[i], Own(s, i, elapsed);
            && t'.active == t.active && t'.erasedAt == t.erasedAt
            && (t'.markedAt == t.markedAt || t'.markedAt == s.clock)
            && (t'.scannedAt == t.scannedAt
                || (Scanning(t.pc) && t.pc.k < |t.scannedAt| && t'.scannedAt == t.scannedAt[t.pc.k := s.clock]))
  {
  }

  lemma OwnTimes(s: State, i: nat, slice: nat, elapsed: nat)
    requires i < |s.tenants|
    ensures |TenantStep(s, i, slice, elapsed).tenants| == |s.tenants|
    ensures var t, t' := s.tenants[i], TenantStep(s, i, slice, elapsed).tenants[i];
            && (t'.markedAt == t.markedAt || t'.markedAt == s.clock)
            && (t'.erasedAt == t.erasedAt || t'.erasedAt == s.clock)
            && |t'.scannedAt| == |t.scannedAt|
            && (forall k :: 0 <= k < |t.scannedAt| ==> t'.scannedAt[k] == t.scannedAt[k] || t'.scannedAt[k] == s.clock)
  {
    if AtLock(s.tenants[i].pc) {
      AtLockStep(s, i, slice, elapsed);
    } else {
      LocalStep(s, i, slice, elapsed);
      LocalTimes(s, i, elapsed);
    }
  }

  lemma LocalShape(s: State, i: nat, elapsed: nat)
    requires i < |s.tenants| && s.tenants[i].active && MarkOk(s.tenants[i]) && s.tenants[i].erasedAt < s.clock
    ensures var t' := Own(s, i, elapsed); t'.active && MarkOk(t')
  {
  }

  lemma OwnShape(s: State, i: nat, slice: nat, elapsed: nat)
    requires i < |s.tenants| && s.tenants[i].active && MarkOk(s.tenants[i]) && s.tenants[i].erasedAt < s.clock
    ensures |TenantStep(s, i, slice, elapsed).tenants| == |s.tenants|
    ensures var t' := TenantStep(s, i, slice, elapsed).tenants[i]; t'.active && MarkOk(t')
  {
    if AtLock(s.tenants[i].pc) {
      AtLockStep(s, i, slice, elapsed);
    } else {
      LocalStep(s, i, slice, elapsed);
      LocalShape(s, i, elapsed);
    }
  }

  lemma TenantOkStep(s: State, a: Action, i: nat)
    requires i < |s.tenants| && TenantOk(s.tenants[i], |s.tenants|, s.clock) && Fine(a)
    requires |Apply(s, a).tenants| == |s.tenants|
    ensures TenantOk(Apply(s, a).tenants[i], |s.tenants|, Apply(s, a).clock)
  {
    if a.Go? && a.i < |s.tenants| && s.tenants[a.i].active {
      if i == a.i {
        OwnTimes(s, i, a.slice, a.elapsed);
        OwnShape(s, i, a.slice, a.elapsed);
      } else {
        PeerStep(s, a.i, a.slice, a.elapsed, i);
      }
    }
  }

  /** A tenant gets past a registered peer only by a look that does not show it in a killer. */
  lemma OwnPasses(s: State, i: nat, elapsed: nat, j: nat)
    requires i < |s.tenants| && j < |s.tenants| && i != j && j < |s.tenants[i].scannedAt|
    ensures var t, t', b := s.tenants[i], Own(s, i, elapsed), s.tenants[j];
            && j < |t'.scannedAt|
            && (Passed(t'.pc, j) ==>
                  || (Passed(t.pc, j) && t'.scannedAt[j] == t.scannedAt[j])
                  || (t'.scannedAt[j] == s.clock && (b.active ==> b.gate != KillerActive)))
  {
  }

  /** The scanning side moves. */
  lemma ScannerStep(s: State, i: nat, slice: nat, elapsed: nat, j: nat)
    requires i < |s.tenants| && j < |s.tenants| && i != j && PairOk(s, i, j)
    requires |s.tenants[i].scannedAt| == |s.tenants| && TenantOk(s.tenants[j], |s.tenants|, s.clock)
    ensures |TenantStep(s, i, slice, elapsed).tenants| == |s.tenants|
    ensures PairOk(TenantStep(s, i, slice, elapsed), i, j)
  {
    if AtLock(s.tenants[i].pc) {
      AtLockStep(s, i, slice, elapsed);
    } else {
      LocalStep(s, i, slice, elapsed);
      OwnPasses(s, i, elapsed, j);
    }
  }

  /** Into its killer a tenant gets only by marking itself, and inside it the times stay. */
  lemma LocalKiller(s: State, j: nat, elapsed: nat)
    requires j < |s.tenants|
    ensures var t, t' := s.tenants[j], Own(s, j, elapsed);
            InKiller(t'.pc) ==>
              || t'.markedAt == s.clock
              || (InKiller(t.pc) && t'.markedAt == t.markedAt && t'.erasedAt == t.erasedAt)
  {
  }

  /** The scanned side moves. */
  lemma ScannedStep(s: State, j: nat, slice: nat, elapsed: nat, i: nat)
    requires i < |s.tenants| && j < |s.tenants| && i != j && PairOk(s, i, j)
    requires j < |s.tenants[i].scannedAt| && s.tenants[i].scannedAt[j] < s.clock
    ensures |TenantStep(s, j, slice, elapsed).tenants| == |s.tenants|
    ensures PairOk(TenantStep(s, j, slice, elapsed), i, j)
  {
    if AtLock(s.tenants[j].pc) {
      AtLockStep(s, j, slice, elapsed);
    } else {
      LocalStep(s, j, slice, elapsed);
      LocalKiller(s, j, elapsed);
    }
  }

  lemma PairOkStep(s: State, a: Action, i: nat, j: nat)
    requires Inv(s) && Fine(a) && i < |s.tenants| && j < |s.tenants| && i != j
    requires |Apply(s, a).tenants| == |s.tenants|
    ensures PairOk(Apply(s, a), i, j)
  {
    assert PairOk(s, i, j);
    assert TenantOk(s.tenants[i], |s.tenants|, s.clock) && TenantOk(s.tenants[j], |s.tenants|, s.clock);
    if a.Go? && a.i < |s.tenants| {
      if i == a.i { ScannerStep(s, i, a.slice, a.elapsed, j); }
      else if j == a.i { ScannedStep(s, j, a.slice, a.elapsed, i); }
      else {
        PeerStep(s, a.i, a.slice, a.elapsed, i);
        PeerStep(s, a.i, a.slice, a.elapsed, j);
      }
    }
  }

  lemma InvStep(s: State, a: Action)
    requires Inv(s) && Fine(a)
    ensures Inv(Apply(s, a)) && |Apply(s, a).tenants| == |s.tenants|
  {
    assert |Apply(s, a).tenants| == |s.tenants|;
    forall i | 0 <= i < |s.tenants| ensures TenantOk(Apply(s, a).tenants[i], |s.tenants|, Apply(s, a).clock) {
      TenantOkStep(s, a, i);
    }
    forall i, j | 0 <= i < |s.tenants| && 0 <= j < |s.tenants| && i != j ensures PairOk(Apply(s, a), i, j) {
      PairOkStep(s, a, i, j);
    }
  }

  lemma {:induction false} InvRun(s: State, acts: seq<Action>)
    requires Inv(s) && (forall k :: 0 <= k < |acts| ==> Fine(acts[k]))
    ensures Inv(Run(s, acts)) && |Run(s, acts).tenants| == |s.tenants|
    decreases |acts|
  {
    if acts != [] {
      InvStep(s, acts[0]);
      InvRun(Apply(s, acts[0]), acts[1..]);
    }
  }

  lemma InitInv(s: State)
    requires Init(s)
    ensures Inv(s)
  {
    forall i | 0 <= i < |s.tenants| ensures TenantOk(s.tenants[i], |s.tenants|, s.clock) {
      assert Fresh(s.tenants[i], |s.tenants|, s.tenants[0].round, s.clock);
    }
  }

  /** What two tenants know of each other in every reachable state. */
  lemma PairOkRun(s: State, acts: seq<Action>, i: nat, j: nat)
    requires Init(s) && (forall k :: 0 <= k < |acts| ==> Fine(acts[k]))
    requires i < |s.tenants| && j < |s.tenants| && i != j
    ensures var e := Run(s, acts);
            && |e.tenants| == |s.tenants| && PairOk(e, i, j) && PairOk(e, j, i)
            && TenantOk(e.tenants[i], |s.tenants|, e.clock) && TenantOk(e.tenants[j], |s.tenants|, e.clock)
  {
    InitInv(s);
    InvRun(s, acts);
    var e := Run(s, acts);
    assert TenantOk(e.tenants[i], |s.tenants|, e.clock) && TenantOk(e.tenants[j], |s.tenants|, e.clock);
    assert PairOk(e, i, j) && PairOk(e, j, i);
  }

  /** a has looked at peer j after a recharge stored over b's mark. */
  predicate LookedAfterErasure(a: Tenant, j: nat, b: Tenant)
    requires j < |a.scannedAt|
  {
    b.markedAt < b.erasedAt < a.scannedAt[j]
  }

  /** Whenever two tenants are inside a killer together, marked or not: each one looked at the other before
      the other's mark, or after a recharge had stored over that mark; and if both marks stand, both looked
      before. */
  lemma OverlapOnlyByCrossing(s: State, acts: seq<Action>, i: nat, j: nat)
    requires Init(s) && (forall k :: 0 <= k < |acts| ==> Fine(acts[k]))
    requires i < |s.tenants| && j < |s.tenants| && i != j
    ensures var e := Run(s, acts);
            |e.tenants| == |s.tenants| &&
            var a, b := e.tenants[i], e.tenants[j];
            && |a.scannedAt| == |b.scannedAt| == |s.tenants|
            && (InKiller(a.pc) && InKiller(b.pc) ==>
                  && (a.scannedAt[j] < b.markedAt || LookedAfterErasure(a, j, b))
                  && (b.scannedAt[i] < a.markedAt || LookedAfterErasure(b, i, a)))
            && (a.gate == KillerActive && b.gate == KillerActive ==>
                  a.scannedAt[j] < b.markedAt && b.scannedAt[i] < a.markedAt)
  {
    PairOkRun(s, acts, i, j);
  }

  /** An entry whose last look at a peer came after the peer's mark comes to its own mark while the peer is
      still inside its killer if and only if a recharge had stored over the peer's mark before that look.
      So as long as the mark stands, a late look excludes both the mark and the killer behind it. */
  lemma LateScanExcludes(s: State, acts: seq<Action>, i: nat, j: nat)
    requires Init(s) && (forall k :: 0 <= k < |acts| ==> Fine(acts[k]))
    requires i < |s.tenants| && j < |s.tenants| && i != j
    ensures var e := Run(s, acts);
            |e.tenants| == |s.tenants| &&
            var a, b := e.tenants[i], e.tenants[j];
            && |a.scannedAt| == |s.tenants|
            && ((a.pc == Mark || InKiller(a.pc)) && InKiller(b.pc) ==>
                  (a.scannedAt[j] > b.markedAt <==> LookedAfterErasure(a, j, b)))
            && (a.pc == Mark && a.scannedAt[j] > b.markedAt && !Erased(b) ==>
                  b.gate != KillerActive && !InKiller(b.pc))
  {
    PairOkRun(s, acts, i, j);
  }

  /** The look itself: an entry that looks at a peer inside a killer goes past it if and only if a recharge
      has stored over the peer's mark. */
  lemma LookPassesIff(s: State, acts: seq<Action>, i: nat, j: nat, elapsed: nat)
    requires Init(s) && (forall k :: 0 <= k < |acts| ==> Fine(acts[k]))
    requires i < |s.tenants| && j < |s.tenants| && i != j
    ensures var e := Run(s, acts);
            |e.tenants| == |s.tenants| &&
            var a, b := e.tenants[i], e.tenants[j];
            (a.pc == ScanGate(j) || a.pc == ScanSpin(j)) && InKiller(b.pc) ==>
              (Own(e, i, elapsed).pc == ScanActive(j + 1) <==> Erased(b))
  {
    PairOkRun(s, acts, i, j);
  }

  /** A recharge that stores over a standing mark in this step. */
  predicate Erases(s: State, a: Action) {
    a.Go? && a.i < |s.tenants| && s.tenants[a.i].active && s.tenants[a.i].pc.StoreGate?
    && s.tenants[a.i].pc.k < |s.tenants| && s.tenants[s.tenants[a.i].pc.k].gate == KillerActive
  }

  ghost predicate KeepsMarks(s: State, acts: seq<Action>)
    decreases |acts|
  {
    acts == [] || (!Erases(s, acts[0]) && KeepsMarks(Apply(s, acts[0]), acts[1..]))
  }

  ghost predicate NoneErased(s: State) {
    forall i :: 0 <= i < |s.tenants| && InKiller(s.tenants[i].pc) ==> !Erased(s.tenants[i])
  }

  lemma LocalKeepsMark(s: State, i: nat, elapsed: nat)
    requires i < |s.tenants| && (InKiller(s.tenants[i].pc) ==> !Erased(s.tenants[i])) && s.tenants[i].erasedAt < s.clock
    ensures InKiller(Own(s, i, elapsed).pc) ==> !Erased(Own(s, i, elapsed))
  {
  }

  lemma OwnKeepsMark(s: State, i: nat, slice: nat, elapsed: nat)
    requires i < |s.tenants| && (InKiller(s.tenants[i].pc) ==> !Erased(s.tenants[i])) && s.tenants[i].erasedAt < s.clock
    ensures |TenantStep(s, i, slice, elapsed).tenants| == |s.tenants|
    ensures var t := TenantStep(s, i, slice, elapsed).tenants[i]; InKiller(t.pc) ==> !Erased(t)
  {
    if AtLock(s.tenants[i].pc) {
      AtLockStep(s, i, slice, elapsed);
    } else {
      LocalStep(s, i, slice, elapsed);
      LocalKeepsMark(s, i, elapsed);
    }
  }

  lemma NoneErasedStep(s: State, a: Action)
    requires Inv(s) && NoneErased(s) && Fine(a) && !Erases(s, a)
    ensures NoneErased(Apply(s, a)) && |Apply(s, a).tenants| == |s.tenants|
  {
    var u := Apply(s, a);
    if a.Go? && a.i < |s.tenants| {
      forall i | 0 <= i < |s.tenants|
        ensures |u.tenants| == |s.tenants| && (InKiller(u.tenants[i].pc) ==> !Erased(u.tenants[i]))
      {
        assert TenantOk(s.tenants[i], |s.tenants|, s.clock);
        if i == a.i {
          OwnKeepsMark(s, i, a.slice, a.elapsed);
        } else {
          PeerStep(s, a.i, a.slice, a.elapsed, i);
        }
      }
    }
  }

  lemma {:induction false} NoneErasedRun(s: State, acts: seq<Action>)
    requires Inv(s) && NoneErased(s) && KeepsMarks(s, acts) && (forall k :: 0 <= k < |acts| ==> Fine(acts[k]))
    ensures NoneErased(Run(s, acts)) && |Run(s, acts).tenants| == |s.tenants|
    decreases |acts|
  {
    if acts != [] {
      InvStep(s, acts[0]);
      NoneErasedStep(s, acts[0]);
      NoneErasedRun(Apply(s, acts[0]), acts[1..]);
    }
  }

  /** In every run in which no recharge stores over a standing mark, killers that run together have crossed:
      each looked at the other before the other's mark. */
  lemma KeptMarksExclude(s: State, acts: seq<Action>, i: nat, j: nat)
    requires Init(s) && (forall k :: 0 <= k < |acts| ==> Fine(acts[k])) && KeepsMarks(s, acts)
    requires i < |s.tenants| && j < |s.tenants| && i != j
    ensures var e := Run(s, acts);
            |e.tenants| == |s.tenants| &&
            var a, b := e.tenants[i], e.tenants[j];
            && |a.scannedAt| == |b.scannedAt| == |s.tenants|
            && (InKiller(a.pc) && InKiller(b.pc) ==> a.scannedAt[j] < b.markedAt && b.scannedAt[i] < a.markedAt)
  {
    PairOkRun(s, acts, i, j);
    InitInv(s);
    forall k | 0 <= k < |s.tenants| ensures !InKiller(s.tenants[k].pc) {
      assert Fresh(s.tenants[k], |s.tenants|, s.tenants[0].round, s.clock);
    }
    NoneErasedRun(s, acts);
  }
}
