/** How far below zero a tenant's slice can fall. */
module KillerOverdraft {
  import opened KillerGate

  /** What one tenant's balance satisfies; `pending` = its recharge is between its two stores. */
  predicate Solvent(t: Tenant, pending: bool, K: int) {
    var released := InWait(t.pc) && t.gate != Waiting;
    && t.remain >= -2 * K
    && (Admitted(t.pc) || released || pending ==> t.remain >= -K)
    && (pending && (Admitted(t.pc) || released) ==> t.remain >= 0)
  }

  ghost predicate Inv(s: State, K: nat) {
    && LockInv(s)
    && (forall i :: 0 <= i < |s.tenants| ==> Solvent(s.tenants[i], Pending(s, i), K))
  }

  /** Killers last at most K, and rounds are triggered step by step. */
  predicate Legal(a: Action, K: nat) {
    Fine(a) && (a.Go? ==> a.elapsed <= K)
  }

  lemma SolventLocal(s: State, i: nat, elapsed: nat, pending: bool, K: nat)
    requires i < |s.tenants| && Solvent(s.tenants[i], pending, K) && elapsed <= K
    requires !s.tenants[i].pc.TryLock? && !InRound(s.tenants[i].pc)
    ensures Solvent(Own(s, i, elapsed), pending, K)
  {
  }

  lemma SolventOwn(s: State, i: nat, slice: nat, elapsed: nat, K: nat)
    requires i < |s.tenants| && (s.lock ==> s.owner < |s.tenants|) && LockOk(s, i)
    requires Solvent(s.tenants[i], Pending(s, i), K) && elapsed <= K
    ensures var u := TenantStep(s, i, slice, elapsed);
            |u.tenants| == |s.tenants| && Solvent(u.tenants[i], Pending(u, i), K)
  {
    if !s.tenants[i].pc.TryLock? && !InRound(s.tenants[i].pc) {
      SolventLocal(s, i, elapsed, Pending(s, i), K);
    }
  }

  lemma SolventPeer(s: State, a: Action, K: nat, i: nat)
    requires Inv(s, K) && Legal(a, K) && a.Go? && a.i < |s.tenants| && i < |s.tenants| && i != a.i
    ensures |Apply(s, a).tenants| == |s.tenants|
    ensures Solvent(Apply(s, a).tenants[i], Pending(Apply(s, a), i), K)
  {
    PeerStep(s, a.i, a.slice, a.elapsed, i);
    assert Solvent(s.tenants[i], Pending(s, i), K) && LockOk(s, i) && LockOk(s, a.i);
  }

  lemma InvStep(s: State, a: Action, K: nat)
    requires Inv(s, K) && Legal(a, K)
    ensures Inv(Apply(s, a), K) && |Apply(s, a).tenants| == |s.tenants|
  {
    LockStep(s, a);
    forall i | 0 <= i < |s.tenants|
      ensures Solvent(Apply(s, a).tenants[i], Pending(Apply(s, a), i), K)
    {
      assert Solvent(s.tenants[i], Pending(s, i), K);
      if a.Go? && a.i < |s.tenants| {
        if i == a.i {
          assert LockOk(s, i);
          SolventOwn(s, i, a.slice, a.elapsed, K);
        } else {
          SolventPeer(s, a, K, i);
        }
      }
    }
  }

  function Booking(pc: Pc): nat {
    if pc.BookExec? then pc.elapsed else 0
  }

  /** Time run, booked or about to be, against the slices received; `D` is what one recharge may write off. */
  predicate WithinSlices(t: Tenant, D: int) {
    t.exec + Booking(t.pc) + t.remain <= t.initial + t.stored + t.recharges * D
  }

  /** A step either moves time from the balance to the books, or is a recharge that replaces the balance. */
  predicate Moves(t: Tenant, t': Tenant) {
    && t'.initial == t.initial
    && t'.exec + Booking(t'.pc) + t'.remain == t.exec + Booking(t.pc) + t.remain
    && t'.recharges == t.recharges && t'.stored == t.stored
  }

  predicate Replaces(t: Tenant, t': Tenant) {
    && t'.initial == t.initial
    && t'.exec + Booking(t'.pc) == t.exec + Booking(t.pc)
    && t'.recharges == t.recharges + 1 && t'.stored == t.stored + t'.remain
  }

  lemma OwnMove(s: State, i: nat, slice: nat, elapsed: nat)
    requires i < |s.tenants|
    ensures |TenantStep(s, i, slice, elapsed).tenants| == |s.tenants|
    ensures var t, t' := s.tenants[i], TenantStep(s, i, slice, elapsed).tenants[i];
            Moves(t, t') || Replaces(t, t')
  {
    var t := s.tenants[i];
    if t.pc == StoreRemain(i) {
      assert TenantStep(s, i, slice, elapsed).tenants[i] == Recharged(t.(pc := StoreGate(i)), slice);
    }
  }

  lemma WithinSlicesKept(t: Tenant, t': Tenant, D: int)
    requires WithinSlices(t, D) && t.remain >= -D && (Moves(t, t') || Replaces(t, t'))
    ensures WithinSlices(t', D)
  {
    assert (t.recharges + 1) * D == t.recharges * D + D;
  }

  lemma LedgerStep(s: State, a: Action, D: int, i: nat)
    requires Fine(a) && i < |s.tenants| && WithinSlices(s.tenants[i], D) && s.tenants[i].remain >= -D
    ensures |Apply(s, a).tenants| == |s.tenants| && WithinSlices(Apply(s, a).tenants[i], D)
  {
    if a.Go? && a.i < |s.tenants| {
      if i == a.i {
        OwnMove(s, i, a.slice, a.elapsed);
      } else {
        PeerStep(s, a.i, a.slice, a.elapsed, i);
      }
    }
    WithinSlicesKept(s.tenants[i], Apply(s, a).tenants[i], D);
  }

  lemma {:induction false} InvRun(s: State, acts: seq<Action>, K: nat)
    requires Inv(s, K) && (forall k :: 0 <= k < |acts| ==> Legal(acts[k], K))
    requires forall i :: 0 <= i < |s.tenants| ==> WithinSlices(s.tenants[i], 2 * K)
    ensures Inv(Run(s, acts), K) && |Run(s, acts).tenants| == |s.tenants|
    ensures forall i :: 0 <= i < |s.tenants| ==> WithinSlices(Run(s, acts).tenants[i], 2 * K)
    decreases |acts|
  {
    if acts != [] {
      InvStep(s, acts[0], K);
      forall i | 0 <= i < |s.tenants| ensures WithinSlices(Apply(s, acts[0]).tenants[i], 2 * K) {
        assert Solvent(s.tenants[i], Pending(s, i), K);
        LedgerStep(s, acts[0], 2 * K, i);
      }
      InvRun(Apply(s, acts[0]), acts[1..], K);
    }
  }

  /** For every interleaving, even with stale triggers recharging a tenant in mid-killer: the balance
      never falls below -2K, and time run never exceeds the starting balance plus the slices stored
      plus 2K for each of them and 2K more. */
  lemma OverdraftBound(s: State, acts: seq<Action>, K: nat, i: nat)
    requires Init(s) && (forall k :: 0 <= k < |s.tenants| ==> s.tenants[k].remain >= -2 * K)
    requires (forall k :: 0 <= k < |acts| ==> Legal(acts[k], K)) && i < |s.tenants|
    ensures |Run(s, acts).tenants| == |s.tenants|
    ensures var t := Run(s, acts).tenants[i];
            && t.remain >= -2 * K
            && t.exec <= t.initial + t.stored + t.recharges * (2 * K) + 2 * K
  {
    InvRun(s, acts, K);
    assert Solvent(Run(s, acts).tenants[i], Pending(Run(s, acts), i), K);
  }

  // ---- Check-and-trigger as one step ----

  predicate SolventAtOnce(t: Tenant, K: int) {
    && t.remain >= -K
    && (Admitted(t.pc) || (InWait(t.pc) && t.gate != Waiting) ==> t.remain >= 0)
    && !InRound(t.pc)
  }

  ghost predicate InvAtOnce(s: State, K: nat) {
    forall i :: 0 <= i < |s.tenants| ==> SolventAtOnce(s.tenants[i], K)
  }

  /** The round is only ever triggered by `Round`, never step by step. */
  predicate LegalAtOnce(s: State, a: Action, K: nat) {
    a.Go? ==> a.elapsed <= K && (a.i < |s.tenants| ==> !s.tenants[a.i].pc.CheckActive? && !s.tenants[a.i].pc.TryLock?)
  }

  ghost predicate LegalRunAtOnce(s: State, acts: seq<Action>, K: nat)
    decreases |acts|
  {
    acts == [] || (LegalAtOnce(s, acts[0], K) && LegalRunAtOnce(Apply(s, acts[0]), acts[1..], K))
  }

  lemma OwnAtOnce(s: State, i: nat, slice: nat, elapsed: nat, K: nat)
    requires i < |s.tenants| && SolventAtOnce(s.tenants[i], K) && elapsed <= K
    requires !s.tenants[i].pc.CheckActive? && !s.tenants[i].pc.TryLock?
    ensures TenantStep(s, i, slice, elapsed) == Put(s, i, Own(s, i, elapsed))
    ensures SolventAtOnce(Own(s, i, elapsed), K)
  {
  }

  lemma StepAtOnce(s: State, a: Action, K: nat)
    requires InvAtOnce(s, K) && LegalAtOnce(s, a, K)
    ensures InvAtOnce(Apply(s, a), K) && |Apply(s, a).tenants| == |s.tenants|
  {
    if a.i < |s.tenants| {
      assert SolventAtOnce(s.tenants[a.i], K);
      if a.Go? {
        OwnAtOnce(s, a.i, a.slice, a.elapsed, K);
      }
    }
  }

  lemma {:induction false} RunAtOnce(s: State, acts: seq<Action>, K: nat)
    requires InvAtOnce(s, K) && LegalRunAtOnce(s, acts, K)
    ensures InvAtOnce(Run(s, acts), K) && |Run(s, acts).tenants| == |s.tenants|
    decreases |acts|
  {
    if acts != [] {
      StepAtOnce(s, acts[0], K);
      RunAtOnce(Apply(s, acts[0]), acts[1..], K);
    }
  }

  /** With check-and-trigger as one step the balance never falls below -K. */
  lemma OverdraftBoundAtOnce(s: State, acts: seq<Action>, K: nat, i: nat)
    requires Init(s) && (forall k :: 0 <= k < |s.tenants| ==> s.tenants[k].remain + K >= 0)
    requires LegalRunAtOnce(s, acts, K) && i < |s.tenants|
    ensures |Run(s, acts).tenants| == |s.tenants| && Run(s, acts).tenants[i].remain + K >= 0
  {
    RunAtOnce(s, acts, K);
    assert SolventAtOnce(Run(s, acts).tenants[i], K);
  }
}
