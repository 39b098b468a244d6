/** On how many tenants the killer gate keeps what one would expect of it. */
module KillerExact {
  import opened KillerGate
  import opened KillerProgress
  import Overdraft = KillerOverdraft
  import Overlap = KillerOverlap
  import Witness = KillerWitness

  // ---- Overdraft of one killer ----

  ghost predicate StaysAbove(e: State, K: nat) {
    forall i :: 0 <= i < |e.tenants| ==> e.tenants[i].remain + K >= 0
  }

  predicate LegalAll(acts: seq<Action>, K: nat) {
    forall k :: 0 <= k < |acts| ==> Overdraft.Legal(acts[k], K)
  }

  /** Over all runs on n tenants with killers of at most K, from balances of at least -K. */
  ghost predicate KeepsK(n: nat, K: nat) {
    forall s: State, acts: seq<Action> ::
      Init(s) && |s.tenants| == n && StaysAbove(s, K) && LegalAll(acts, K) ==> StaysAbove(Run(s, acts), K)
  }

  /** Alone, a tenant that has been let in or recharged owes nothing. */
  predicate AloneOk(t: Tenant, K: nat) {
    && t.remain + K >= 0
    && (Admitted(t.pc) || (InWait(t.pc) && t.gate != Waiting) || t.pc == StoreGate(0) ==> t.remain >= 0)
  }

  lemma AloneLocal(s: State, elapsed: nat, K: nat)
    requires |s.tenants| == 1 && AloneOk(s.tenants[0], K) && elapsed <= K && !Overlap.AtLock(s.tenants[0].pc)
    ensures AloneOk(Own(s, 0, elapsed), K)
  {
  }

  lemma AloneAtLock(s: State, slice: nat, elapsed: nat, K: nat)
    requires |s.tenants| == 1 && AloneOk(s.tenants[0], K) && Overlap.AtLock(s.tenants[0].pc)
    ensures var u := TenantStep(s, 0, slice, elapsed); |u.tenants| == 1 && AloneOk(u.tenants[0], K)
  {
  }

  lemma AloneStep(s: State, a: Action, K: nat)
    requires |s.tenants| == 1 && AloneOk(s.tenants[0], K) && Overdraft.Legal(a, K)
    ensures |Apply(s, a).tenants| == 1 && AloneOk(Apply(s, a).tenants[0], K)
  {
    if a.Go? && a.i == 0 {
      if Overlap.AtLock(s.tenants[0].pc) {
        AloneAtLock(s, a.slice, a.elapsed, K);
      } else {
        Overlap.LocalStep(s, 0, a.slice, a.elapsed);
        AloneLocal(s, a.elapsed, K);
      }
    }
  }

  lemma {:induction false} AloneRun(s: State, acts: seq<Action>, K: nat)
    requires |s.tenants| == 1 && AloneOk(s.tenants[0], K) && LegalAll(acts, K)
    ensures |Run(s, acts).tenants| == 1 && AloneOk(Run(s, acts).tenants[0], K)
    decreases |acts|
  {
    if acts != [] {
      AloneStep(s, acts[0], K);
      AloneRun(Apply(s, acts[0]), acts[1..], K);
    }
  }

  lemma {:induction false} NobodyRun(s: State, acts: seq<Action>)
    requires s.tenants == []
    ensures Run(s, acts).tenants == []
    decreases |acts|
  {
    if acts != [] {
      NobodyRun(Apply(s, acts[0]), acts[1..]);
    }
  }

  lemma KeepsOn(s: State, acts: seq<Action>, K: nat)
    requires Init(s) && StaysAbove(s, K) && LegalAll(acts, K)
    requires |s.tenants| <= 1 || K == 0
    ensures StaysAbove(Run(s, acts), K)
  {
    if K == 0 {
      StillZero(s, acts);
    } else if |s.tenants| == 0 {
      NobodyRun(s, acts);
    } else {
      assert Fresh(s.tenants[0], 1, s.tenants[0].round, s.clock);
      AloneRun(s, acts, K);
    }
  }

  lemma StillZero(s: State, acts: seq<Action>)
    requires Init(s) && StaysAbove(s, 0) && LegalAll(acts, 0)
    ensures StaysAbove(Run(s, acts), 0)
  {
    if |s.tenants| == 0 {
      NobodyRun(s, acts);
    } else {
      Overdraft.OverdraftBound(s, acts, 0, 0);
      forall i | 0 <= i < |s.tenants| ensures Run(s, acts).tenants[i].remain >= 0 {
        Overdraft.OverdraftBound(s, acts, 0, i);
      }
    }
  }

  /** No balance falls below one killer's length, over all runs on n tenants, if and only if there is at most
      one tenant or killers take no time. */
  lemma KeepsKIff(n: nat, K: nat)
    ensures KeepsK(n, K) <==> n <= 1 || K == 0
  {
    if n <= 1 || K == 0 {
      forall s: State, acts: seq<Action> |
        Init(s) && |s.tenants| == n && StaysAbove(s, K) && LegalAll(acts, K)
        ensures StaysAbove(Run(s, acts), K)
      {
        KeepsOn(s, acts, K);
      }
    } else {
      Witness.OverdraftIsTight(n, K);
      var s: State, acts: seq<Action>, e: State :|
        Witness.LegalEnd(s, acts, n, K, e) && |e.tenants| == n && e.tenants[1].remain == -2 * K;
      assert StaysAbove(s, K);
      assert e.tenants[1].remain + K < 0;
      assert !StaysAbove(Run(s, acts), K);
    }
  }

  // ---- Mutual exclusion ----

  ghost predicate OneMark(e: State) {
    forall i, j :: 0 <= i < j < |e.tenants| ==> e.tenants[i].gate != KillerActive || e.tenants[j].gate != KillerActive
  }

  /** Over all runs on n tenants, at most one is in KILLER_ACTIVE. */
  ghost predicate Excludes(n: nat) {
    forall s: State, acts: seq<Action> ::
      Init(s) && |s.tenants| == n && (forall k :: 0 <= k < |acts| ==> Fine(acts[k])) ==> OneMark(Run(s, acts))
  }

  lemma {:induction false} LegalIsFine(s: State, acts: seq<Action>, f: Slicer, K: nat)
    requires LegalRun(s, acts, f, K)
    ensures forall k :: 0 <= k < |acts| ==> Fine(acts[k])
    decreases |acts|
  {
    if acts != [] {
      LegalIsFine(Apply(s, acts[0]), acts[1..], f, K);
    }
  }

  /** The gate excludes killers from each other, over all runs, if and only if there is at most one tenant. */
  lemma ExcludesIff(n: nat)
    ensures Excludes(n) <==> n <= 1
  {
    if n <= 1 {
      forall s: State, acts: seq<Action> |
        Init(s) && |s.tenants| == n && (forall k :: 0 <= k < |acts| ==> Fine(acts[k]))
        ensures OneMark(Run(s, acts))
      {
        Overlap.InitInv(s);
        Overlap.InvRun(s, acts);
      }
    } else {
      var s, e := Witness.OverlapHappens(n);
      var acts: seq<Action> :| LegalRun(s, acts, Witness.Nothing, 1) && Run(s, acts) == e;
      LegalIsFine(s, acts, Witness.Nothing, 1);
      assert !OneMark(Run(s, acts));
    }
  }
}
