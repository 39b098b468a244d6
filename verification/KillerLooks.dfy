/** What a trigger has seen: with others moving in between, every tenant was waiting, or not registered, at
    some moment of the pass of all_waiting that led to the lock; not all at the same moment. */
module KillerLooks {
  import opened KillerGate

  /** The state after the first m actions. */
  ghost function At(s: State, acts: seq<Action>, m: nat): State
    requires m <= |acts|
  {
    Run(s, acts[..m])
  }

  lemma {:induction false} RunSnoc(s: State, acts: seq<Action>, a: Action)
    ensures Run(s, acts + [a]) == Apply(Run(s, acts), a)
    decreases |acts|
  {
    if acts == [] {
      assert [a][1..] == [] && Run(Apply(s, a), []) == Apply(s, a);
      assert acts + [a] == [a];
    } else {
      assert (acts + [a])[1..] == acts[1..] + [a];
      RunSnoc(Apply(s, acts[0]), acts[1..], a);
    }
  }

  lemma AtSnoc(s: State, acts: seq<Action>, a: Action, m: nat)
    requires m <= |acts|
    ensures At(s, acts + [a], m) == At(s, acts, m)
  {
    assert (acts + [a])[..m] == acts[..m];
  }

  lemma AtEnd(s: State, acts: seq<Action>)
    ensures At(s, acts, |acts|) == Run(s, acts)
  {
    assert acts[..|acts|] == acts;
  }

  predicate InPass(pc: Pc) { pc.CheckActive? || pc.CheckGate? || pc.TryLock? }

  predicate Passing(s: State, i: nat) { i < |s.tenants| && InPass(s.tenants[i].pc) }

  /** Since action b tenant i has been in one pass of all_waiting. */
  ghost predicate Pass(s: State, acts: seq<Action>, i: nat, b: nat) {
    && b <= |acts| && Passing(At(s, acts, b), i) && At(s, acts, b).tenants[i].pc == CheckActive(0)
    && forall m: nat :: b <= m <= |acts| ==> Passing(At(s, acts, m), i)
  }

  predicate Waits(s: State, j: nat) {
    j < |s.tenants| && (!s.tenants[j].active || s.tenants[j].gate == Waiting)
  }

  /** At some moment since action b tenant j was waiting or not registered. */
  ghost predicate Seen(s: State, acts: seq<Action>, j: nat, b: nat) {
    exists m: nat :: b <= m <= |acts| && Waits(At(s, acts, m), j)
  }

  /** The tenants a pass has done with. */
  function DoneWith(pc: Pc, n: nat): nat {
    match pc
    case CheckActive(k) => k
    case CheckGate(k) => k
    case _ => n
  }

  ghost predicate HasSeen(s: State, acts: seq<Action>, i: nat, b: nat, upTo: nat) {
    Pass(s, acts, i, b) && forall j: nat :: j < upTo && j < |s.tenants| ==> Seen(s, acts, j, b)
  }

  ghost predicate PassInv(s: State, acts: seq<Action>, i: nat) {
    var e := Run(s, acts);
    && |e.tenants| == |s.tenants|
    && (Passing(e, i) ==> exists b: nat :: HasSeen(s, acts, i, b, DoneWith(e.tenants[i].pc, |s.tenants|)))
  }

  lemma SeenLater(s: State, acts: seq<Action>, a: Action, j: nat, b: nat)
    requires Seen(s, acts, j, b)
    ensures Seen(s, acts + [a], j, b)
  {
    var m: nat :| b <= m <= |acts| && Waits(At(s, acts, m), j);
    AtSnoc(s, acts, a, m);
    assert Waits(At(s, acts + [a], m), j);
  }

  lemma PassLater(s: State, acts: seq<Action>, a: Action, i: nat, b: nat)
    requires Pass(s, acts, i, b) && Passing(Run(s, acts + [a]), i)
    ensures Pass(s, acts + [a], i, b)
  {
    AtSnoc(s, acts, a, b);
    AtEnd(s, acts + [a]);
    forall m: nat | b <= m <= |acts + [a]| ensures Passing(At(s, acts + [a], m), i) {
      if m <= |acts| { AtSnoc(s, acts, a, m); }
    }
  }

  /** What was seen before stays seen, and the tenant that the last look showed waiting is added. */
  lemma SeenMore(s: State, acts: seq<Action>, a: Action, i: nat, b: nat, k: nat, k': nat)
    requires HasSeen(s, acts, i, b, k) && Passing(Run(s, acts + [a]), i)
    requires k' <= k || (k' == k + 1 && (k < |s.tenants| ==> Waits(Run(s, acts), k))) || k >= |s.tenants|
    ensures HasSeen(s, acts + [a], i, b, k')
  {
    PassLater(s, acts, a, i, b);
    forall j: nat | j < k' && j < |s.tenants| ensures Seen(s, acts + [a], j, b) {
      if j >= k {
        AtEnd(s, acts);
        assert Waits(At(s, acts, |acts|), j);
        assert Seen(s, acts, j, b);
      }
      SeenLater(s, acts, a, j, b);
    }
  }

  lemma PassBegins(s: State, acts: seq<Action>, a: Action, i: nat)
    requires var e := Run(s, acts + [a]); i < |e.tenants| && e.tenants[i].pc == CheckActive(0)
    ensures HasSeen(s, acts + [a], i, |acts| + 1, 0)
  {
    AtEnd(s, acts + [a]);
  }

  /** How a pass can move from e: it begins, goes on over a tenant seen waiting, or stays where it is. */
  predicate Moved(e: State, pc: Pc, pc': Pc) {
    var n := |e.tenants|;
    || pc' == CheckActive(0)
    || (InPass(pc) && DoneWith(pc', n) <= DoneWith(pc, n))
    || (InPass(pc) && DoneWith(pc', n) == DoneWith(pc, n) + 1 && (DoneWith(pc, n) < n ==> Waits(e, DoneWith(pc, n))))
    || (InPass(pc) && DoneWith(pc, n) >= n)
  }

  lemma OwnMoves(e: State, i: nat, slice: nat, elapsed: nat)
    requires i < |e.tenants|
    ensures var u := TenantStep(e, i, slice, elapsed);
            |u.tenants| == |e.tenants| && (InPass(u.tenants[i].pc) ==> Moved(e, e.tenants[i].pc, u.tenants[i].pc))
  {
    var pc := e.tenants[i].pc;
    if !pc.TryLock? && !InRound(pc) {
      LocalMoves(e, i, elapsed);
      assert TenantStep(e, i, slice, elapsed) == Put(e, i, Own(e, i, elapsed));
    }
  }

  lemma LocalMoves(e: State, i: nat, elapsed: nat)
    requires i < |e.tenants|
    ensures InPass(Own(e, i, elapsed).pc) ==> Moved(e, e.tenants[i].pc, Own(e, i, elapsed).pc)
  {
  }

  lemma PassMoves(e: State, a: Action, i: nat)
    requires Fine(a) && i < |e.tenants| && |Apply(e, a).tenants| == |e.tenants| && Passing(Apply(e, a), i)
    ensures Moved(e, e.tenants[i].pc, Apply(e, a).tenants[i].pc)
  {
    if a.Go? && a.i < |e.tenants| {
      if a.i == i {
        OwnMoves(e, i, a.slice, a.elapsed);
      } else {
        PeerStep(e, a.i, a.slice, a.elapsed, i);
      }
    }
  }

  lemma PassInvStep(s: State, acts: seq<Action>, a: Action, i: nat)
    requires PassInv(s, acts, i) && Fine(a) && i < |s.tenants|
    requires |Apply(Run(s, acts), a).tenants| == |s.tenants|
    ensures PassInv(s, acts + [a], i)
  {
    RunSnoc(s, acts, a);
    var e, n := Run(s, acts), |s.tenants|;
    var u := Apply(e, a);
    if Passing(u, i) {
      PassMoves(e, a, i);
      var k' := DoneWith(u.tenants[i].pc, n);
      if u.tenants[i].pc == CheckActive(0) {
        PassBegins(s, acts, a, i);
        assert HasSeen(s, acts + [a], i, |acts| + 1, k');
      } else {
        var k := DoneWith(e.tenants[i].pc, n);
        assert Passing(e, i);
        var b: nat :| HasSeen(s, acts, i, b, k);
        SeenMore(s, acts, a, i, b, k, k');
      }
    }
  }

  lemma {:induction false} PassInvRun(s: State, acts: seq<Action>, i: nat)
    requires i < |s.tenants| && s.tenants[i].pc == Idle && LockInv(s) && (forall k :: 0 <= k < |acts| ==> Fine(acts[k]))
    ensures PassInv(s, acts, i) && LockInv(Run(s, acts))
    decreases |acts|
  {
    if acts != [] {
      var init, a := acts[..|acts| - 1], acts[|acts| - 1];
      assert acts == init + [a];
      PassInvRun(s, init, i);
      LockStep(Run(s, init), a);
      RunSnoc(s, init, a);
      PassInvStep(s, init, a, i);
    }
  }

  lemma InitLock(s: State)
    requires Init(s)
    ensures LockInv(s)
  {
    forall i | 0 <= i < |s.tenants| ensures LockOk(s, i) {
      assert Fresh(s.tenants[i], |s.tenants|, s.tenants[0].round, s.clock);
    }
  }

  /** In every interleaving, a tenant that stands at the lock has come there by one pass of all_waiting, and
      since that pass began every tenant was, at some moment, waiting or not registered. */
  lemma TriggerSawAll(s: State, acts: seq<Action>, i: nat)
    requires Init(s) && (forall k :: 0 <= k < |acts| ==> Fine(acts[k])) && i < |s.tenants|
    ensures var e := Run(s, acts);
            && |e.tenants| == |s.tenants|
            && (e.tenants[i].pc == TryLock ==>
                  exists b: nat :: Pass(s, acts, i, b) && forall j: nat :: j < |s.tenants| ==> Seen(s, acts, j, b))
  {
    InitLock(s);
    assert Fresh(s.tenants[i], |s.tenants|, s.tenants[0].round, s.clock);
    PassInvRun(s, acts, i);
    var e := Run(s, acts);
    if e.tenants[i].pc == TryLock {
      var b: nat :| HasSeen(s, acts, i, b, |s.tenants|);
    }
  }

  /** Whoever takes the lock has stood there before, and so has seen all that. */
  lemma LockTakenAfterPass(s: State, a: Action)
    requires Fine(a) && !s.lock && Apply(s, a).lock
    ensures a.Go? && a.i < |s.tenants| && s.tenants[a.i].active && s.tenants[a.i].pc == TryLock
    ensures Apply(s, a).owner == a.i
  {
  }
}
