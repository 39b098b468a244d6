/** Rounds: agreement of the round ids. */
module KillerRounds {
  import opened KillerGate

  /** While tenant `owner` stores the next id, those before its index have it and the rest do not. */
  predicate RoundOk(s: State, start: int, k: nat)
    requires k < |s.tenants|
  {
    var done := s.lock && s.owner < |s.tenants| && s.tenants[s.owner].pc.StoreRound? && k < s.tenants[s.owner].pc.k;
    s.tenants[k].round == start + s.rounds + (if done then 1 else 0)
  }

  predicate RidOk(s: State, start: int) {
    s.lock && s.owner < |s.tenants| && s.tenants[s.owner].pc.StoreRound? ==>
      s.tenants[s.owner].pc.rid == start + s.rounds
  }

  ghost predicate Inv(s: State, start: int) {
    && LockInv(s)
    && RidOk(s, start)
    && (forall k :: 0 <= k < |s.tenants| ==> RoundOk(s, start, k))
  }

  lemma RoundOkOwn(s: State, i: nat, slice: nat, elapsed: nat, start: int)
    requires i < |s.tenants| && LockOk(s, i) && RidOk(s, start) && RoundOk(s, start, i)
    requires s.lock ==> s.owner < |s.tenants|
    ensures |TenantStep(s, i, slice, elapsed).tenants| == |s.tenants|
    ensures RoundOk(TenantStep(s, i, slice, elapsed), start, i)
  {
  }

  lemma RoundOkPeer(s: State, i: nat, slice: nat, elapsed: nat, start: int, k: nat)
    requires i < |s.tenants| && LockOk(s, i) && RidOk(s, start)
    requires k < |s.tenants| && k != i && LockOk(s, k) && RoundOk(s, start, k)
    requires s.lock ==> s.owner < |s.tenants|
    ensures |TenantStep(s, i, slice, elapsed).tenants| == |s.tenants|
    ensures RoundOk(TenantStep(s, i, slice, elapsed), start, k)
  {
    PeerStep(s, i, slice, elapsed, k);
    if s.lock && s.owner != i {
      PeerStep(s, i, slice, elapsed, s.owner);
    }
  }

  lemma RoundOkStep(s: State, a: Action, start: int, k: nat)
    requires Inv(s, start) && Fine(a) && k < |s.tenants|
    ensures |Apply(s, a).tenants| == |s.tenants| && RoundOk(Apply(s, a), start, k)
  {
    assert RoundOk(s, start, k) && LockOk(s, k);
    if a.Go? && a.i < |s.tenants| {
      assert LockOk(s, a.i);
      if k == a.i {
        RoundOkOwn(s, a.i, a.slice, a.elapsed, start);
      } else {
        RoundOkPeer(s, a.i, a.slice, a.elapsed, start, k);
      }
    }
  }

  lemma RidOkStep(s: State, a: Action, start: int)
    requires Inv(s, start) && Fine(a)
    ensures RidOk(Apply(s, a), start)
  {
    if a.i < |s.tenants| {
      assert RoundOk(s, start, a.i) && LockOk(s, a.i);
    }
  }

  lemma {:induction false} InvRun(s: State, acts: seq<Action>, start: int)
    requires Inv(s, start) && (forall k :: 0 <= k < |acts| ==> Fine(acts[k]))
    ensures Inv(Run(s, acts), start) && |Run(s, acts).tenants| == |s.tenants|
    decreases |acts|
  {
    if acts != [] {
      LockStep(s, acts[0]);
      RidOkStep(s, acts[0], start);
      forall k | 0 <= k < |s.tenants| ensures RoundOk(Apply(s, acts[0]), start, k) {
        RoundOkStep(s, acts[0], start, k);
      }
      InvRun(Apply(s, acts[0]), acts[1..], start);
    }
  }

  /** In every reachable state at most one tenant is in the recharge region, and whenever the lock is
      free all round ids agree and equal the starting id plus the completed rounds. */
  lemma RoundAgreement(s: State, acts: seq<Action>, i: nat, j: nat)
    requires Init(s) && (forall k :: 0 <= k < |acts| ==> Fine(acts[k]))
    requires i < |s.tenants| && j < |s.tenants|
    ensures var e := Run(s, acts);
            && |e.tenants| == |s.tenants|
            && (InRound(e.tenants[i].pc) && InRound(e.tenants[j].pc) ==> i == j)
            && (!e.lock ==> e.tenants[i].round == e.tenants[j].round == s.tenants[0].round + e.rounds)
  {
    forall k | 0 <= k < |s.tenants| ensures RoundOk(s, s.tenants[0].round, k) && LockOk(s, k) {
      assert Fresh(s.tenants[k], |s.tenants|, s.tenants[0].round, s.clock);
    }
    InvRun(s, acts, s.tenants[0].round);
    assert LockOk(Run(s, acts), i) && LockOk(Run(s, acts), j);
    assert RoundOk(Run(s, acts), s.tenants[0].round, i) && RoundOk(Run(s, acts), s.tenants[0].round, j);
  }
}
