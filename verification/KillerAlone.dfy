/** What one tenant's entry does when nobody else moves: who gets in, and what a round leaves behind. */
module KillerAlone {
  import opened Iteration
  import opened KillerGate

  /** The slices that the round hands out, by tenant. */
  type Shares = nat -> nat

  function ShareAt(s: State, i: nat, g: Shares): nat {
    if i < |s.tenants| && s.tenants[i].pc.StoreRemain? then g(s.tenants[i].pc.k) else 0
  }

  ghost function GoBy(i: nat, g: Shares): State -> State {
    (s: State) => Apply(s, Go(i, ShareAt(s, i, g), 0))
  }

  /** n steps of tenant i alone. */
  ghost function Iter(s: State, i: nat, g: Shares, n: nat): State {
    Iterate(GoBy(i, g), s, n)
  }

  ghost predicate Leads(s: State, t: State, i: nat, g: Shares) {
    exists n: nat :: Iter(s, i, g, n) == t
  }

  lemma IterStep(s: State, i: nat, g: Shares, n: nat)
    requires n > 0
    ensures Iter(s, i, g, n) == Iter(Apply(s, Go(i, ShareAt(s, i, g), 0)), i, g, n - 1)
  {
  }

  lemma IterAdd(s: State, i: nat, g: Shares, m: nat, n: nat)
    ensures Iter(s, i, g, m + n) == Iter(Iter(s, i, g, m), i, g, n)
  {
    IterateAdd(GoBy(i, g), s, m, n);
  }

  lemma LeadsSelf(s: State, i: nat, g: Shares)
    ensures Leads(s, s, i, g)
  {
    assert Iter(s, i, g, 0) == s;
  }

  lemma LeadsTrans(s: State, t: State, u: State, i: nat, g: Shares)
    requires Leads(s, t, i, g) && Leads(t, u, i, g)
    ensures Leads(s, u, i, g)
  {
    var m: nat :| Iter(s, i, g, m) == t;
    var n: nat :| Iter(t, i, g, n) == u;
    IterAdd(s, i, g, m, n);
  }

  /** The next step of tenant i. */
  lemma Next(s: State, t: State, i: nat, g: Shares) returns (u: State)
    requires Leads(s, t, i, g) && i < |t.tenants| && t.tenants[i].active
    ensures Leads(s, u, i, g) && u == TenantStep(t, i, ShareAt(t, i, g), 0).(clock := t.clock + 1)
  {
    u := Apply(t, Go(i, ShareAt(t, i, g), 0));
    assert Iter(t, i, g, 1) == u by { IterStep(t, i, g, 1); }
    LeadsTrans(s, t, u, i, g);
  }

  /** Nothing but the record of tenant i differs. */
  ghost predicate OnlyOwn(s: State, t: State, i: nat) {
    && |t.tenants| == |s.tenants| && t.lock == s.lock && t.owner == s.owner && t.rounds == s.rounds
    && forall j :: 0 <= j < |s.tenants| && j != i ==> t.tenants[j] == s.tenants[j]
  }

  /** A step that writes the own record only. */
  lemma NextOwn(s: State, t: State, i: nat, g: Shares) returns (u: State)
    requires Leads(s, t, i, g) && OnlyOwn(s, t, i) && i < |t.tenants| && t.tenants[i].active
    requires !t.tenants[i].pc.TryLock? && !t.tenants[i].pc.StoreRemain?
    requires !t.tenants[i].pc.StoreGate? && !t.tenants[i].pc.StoreRound?
    ensures Leads(s, u, i, g) && OnlyOwn(s, u, i) && u.tenants[i] == Own(t, i, 0)
  {
    u := Next(s, t, i, g);
  }

  // ---- all_waiting ----

  /** What all_waiting has still to find from here on. */
  ghost predicate RestWaits(s: State, k: nat) {
    forall j :: k <= j < |s.tenants| && s.tenants[j].active ==> s.tenants[j].gate == Waiting
  }

  lemma {:induction false} CheckFrom(s: State, i: nat, g: Shares) returns (t: State)
    requires i < |s.tenants| && s.tenants[i].active && s.tenants[i].pc.CheckActive?
    ensures Leads(s, t, i, g) && OnlyOwn(s, t, i)
    ensures t.tenants[i] == s.tenants[i].(pc := if RestWaits(s, s.tenants[i].pc.k) then TryLock else Spin)
    decreases |s.tenants| - s.tenants[i].pc.k
  {
    var k := s.tenants[i].pc.k;
    LeadsSelf(s, i, g);
    t := NextOwn(s, s, i, g);
    if k < |s.tenants| && s.tenants[k].active {
      assert t.tenants[i] == s.tenants[i].(pc := CheckGate(k)) && t.tenants[k].gate == s.tenants[k].gate;
      t := NextOwn(s, t, i, g);
    }
    if k < |s.tenants| && (s.tenants[k].active ==> s.tenants[k].gate == Waiting) {
      assert t.tenants[i] == s.tenants[i].(pc := CheckActive(k + 1));
      var u := t;
      t := CheckFrom(u, i, g);
      assert RestWaits(u, k + 1) <==> RestWaits(s, k) by { SameRest(s, u, i, k); }
      LeadsTrans(s, u, t, i, g);
    }
  }

  lemma SameRest(s: State, u: State, i: nat, k: nat)
    requires OnlyOwn(s, u, i) && i < |s.tenants| && k < |s.tenants|
    requires u.tenants[i].active == s.tenants[i].active && u.tenants[i].gate == s.tenants[i].gate
    requires s.tenants[k].active ==> s.tenants[k].gate == Waiting
    ensures RestWaits(u, k + 1) <==> RestWaits(s, k)
  {
    forall j | k <= j < |s.tenants|
      ensures u.tenants[j].active == s.tenants[j].active && u.tenants[j].gate == s.tenants[j].gate
    {
    }
  }

  /** all_waiting on memory that does not change: the check ends at the lock if every registered tenant is
      WAITING, and back at the spin otherwise, and writes nothing. */
  lemma CheckEndsIff(s: State, i: nat, g: Shares) returns (t: State)
    requires i < |s.tenants| && s.tenants[i].active && s.tenants[i].pc == CheckActive(0)
    ensures Leads(s, t, i, g) && OnlyOwn(s, t, i) && t.tenants[i] == s.tenants[i].(pc := t.tenants[i].pc)
    ensures t.tenants[i].pc == TryLock || t.tenants[i].pc == Spin
    ensures t.tenants[i].pc == TryLock <==> AllWaiting(s)
  {
    t := CheckFrom(s, i, g);
    assert RestWaits(s, 0) <==> AllWaiting(s);
  }

  // ---- The scan ----

  ghost predicate ClearFrom(s: State, i: nat, k: nat) {
    forall j :: k <= j < |s.tenants| && j != i && s.tenants[j].active ==> s.tenants[j].gate != KillerActive
  }

  lemma {:induction false} ScanFrom(s: State, i: nat, g: Shares) returns (t: State)
    requires i < |s.tenants| && s.tenants[i].active && s.tenants[i].pc.ScanActive?
    requires ClearFrom(s, i, s.tenants[i].pc.k)
    ensures Leads(s, t, i, g) && OnlyOwn(s, t, i)
    ensures t.tenants[i] == s.tenants[i].(pc := Mark, scannedAt := t.tenants[i].scannedAt)
    decreases |s.tenants| - s.tenants[i].pc.k
  {
    var k := s.tenants[i].pc.k;
    LeadsSelf(s, i, g);
    t := NextOwn(s, s, i, g);
    if t.tenants[i].pc == ScanGate(k) {
      t := NextOwn(s, t, i, g);
    }
    if k < |s.tenants| {
      assert t.tenants[i] == s.tenants[i].(pc := ScanActive(k + 1), scannedAt := t.tenants[i].scannedAt);
      var u := t;
      t := ScanFrom(u, i, g);
      LeadsTrans(s, u, t, i, g);
    }
  }

  // ---- A whole round ----

  /** A recharged tenant: the slice, released, and history. */
  function Renewed(t: Tenant, share: nat): Tenant {
    t.(remain := share, gate := Running, stored := t.stored + share, recharges := t.recharges + 1)
  }

  /** In the recharge loop at index k. */
  ghost predicate Recharging(s: State, t: State, i: nat, k: nat, g: Shares) {
    Served(s, t, i, k, g) && t.tenants[i].pc == RoundActive(k)
  }

  /** The registered tenants before k have their shares, and nothing else has changed. */
  ghost predicate Served(s: State, t: State, i: nat, k: nat, g: Shares) {
    && |t.tenants| == |s.tenants| && t.lock && t.owner == i && t.rounds == s.rounds && i < |t.tenants|
    && forall j :: 0 <= j < |s.tenants| ==>
         t.tenants[j] == (if j < k && s.tenants[j].active then Renewed(s.tenants[j], g(j)) else s.tenants[j])
                         .(pc := t.tenants[j].pc)
         && (j != i ==> t.tenants[j].pc == s.tenants[j].pc)
  }

  lemma RechargeOne(s: State, t: State, i: nat, k: nat, g: Shares) returns (u: State)
    requires AllWaiting(s) && Recharging(s, t, i, k, g) && k < |s.tenants| && s.tenants[i].active
    ensures Leads(t, u, i, g) && Recharging(s, u, i, k + 1, g)
  {
    var v := LookAtOne(s, t, i, k, g);
    if s.tenants[k].active {
      var w := FirstStore(s, v, i, k, g);
      LeadsTrans(t, v, w, i, g);
      u := SecondStore(s, w, i, k, g);
      LeadsTrans(t, w, u, i, g);
    } else {
      SkipsOne(s, v, i, k, g);
      u := v;
    }
  }

  lemma LookAtOne(s: State, t: State, i: nat, k: nat, g: Shares) returns (v: State)
    requires Recharging(s, t, i, k, g) && k < |s.tenants| && s.tenants[i].active
    ensures Leads(t, v, i, g) && Served(s, v, i, k, g)
    ensures v.tenants[i].pc == if s.tenants[k].active then StoreRemain(k) else RoundActive(k + 1)
  {
    LeadsSelf(t, i, g);
    v := NextOwn(t, t, i, g);
    assert v.tenants[i] == t.tenants[i].(pc := v.tenants[i].pc);
  }

  lemma SkipsOne(s: State, v: State, i: nat, k: nat, g: Shares)
    requires Served(s, v, i, k, g) && k < |s.tenants| && !s.tenants[k].active
    ensures Served(s, v, i, k + 1, g)
  {
  }

  /** One tenant in the middle of its recharge. */
  ghost predicate HalfWay(s: State, w: State, i: nat, k: nat, g: Shares) {
    && |w.tenants| == |s.tenants| && w.lock && w.owner == i && w.rounds == s.rounds
    && i < |w.tenants| && w.tenants[i].pc == StoreGate(k)
    && forall j :: 0 <= j < |s.tenants| ==>
         w.tenants[j] == (if j < k && s.tenants[j].active then Renewed(s.tenants[j], g(j))
                          else if j == k then Renewed(s.tenants[j], g(j)).(gate := Waiting) else s.tenants[j])
                         .(pc := w.tenants[j].pc)
         && (j != i ==> w.tenants[j].pc == s.tenants[j].pc)
  }

  lemma FirstStore(s: State, v: State, i: nat, k: nat, g: Shares) returns (w: State)
    requires AllWaiting(s) && k < |s.tenants| && i < |s.tenants| && Served(s, v, i, k, g)
    requires s.tenants[i].active && s.tenants[k].active && v.tenants[i].pc == StoreRemain(k)
    ensures Leads(v, w, i, g) && HalfWay(s, w, i, k, g)
  {
    LeadsSelf(v, i, g);
    w := Next(v, v, i, g);
    StoresSlice(v, i, k, g(k));
  }

  /** The first store of a recharge, record by record. */
  lemma StoresSlice(v: State, i: nat, k: nat, share: nat)
    requires i < |v.tenants| && k < |v.tenants| && v.tenants[i].pc == StoreRemain(k)
    ensures var w := TenantStep(v, i, share, 0);
            && w == v.(tenants := w.tenants) && |w.tenants| == |v.tenants|
            && forall j :: 0 <= j < |v.tenants| ==>
                 w.tenants[j] == (if j == k then Recharged(v.tenants[j], share) else v.tenants[j])
                                 .(pc := if j == i then StoreGate(k) else v.tenants[j].pc)
  {
  }

  lemma SecondStore(s: State, w: State, i: nat, k: nat, g: Shares) returns (u: State)
    requires HalfWay(s, w, i, k, g) && k < |s.tenants| && s.tenants[k].active && s.tenants[i].active
    ensures Leads(w, u, i, g) && Recharging(s, u, i, k + 1, g)
  {
    LeadsSelf(w, i, g);
    u := Next(w, w, i, g);
  }

  lemma {:induction false} RechargeFrom(s: State, t: State, i: nat, k: nat, g: Shares) returns (u: State)
    requires AllWaiting(s) && Recharging(s, t, i, k, g) && k <= |s.tenants| && s.tenants[i].active
    ensures Leads(t, u, i, g) && Recharging(s, u, i, |s.tenants|, g)
    decreases |s.tenants| - k
  {
    if k == |s.tenants| {
      LeadsSelf(t, i, g);
      u := t;
    } else {
      var v := RechargeOne(s, t, i, k, g);
      u := RechargeFrom(s, v, i, k + 1, g);
      LeadsTrans(t, v, u, i, g);
    }
  }

  /** In the loop that stores the round id, at index k. */
  ghost predicate Numbering(s: State, t: State, i: nat, k: nat, g: Shares) {
    && |t.tenants| == |s.tenants| && t.lock && t.owner == i && t.rounds == s.rounds
    && i < |t.tenants| && t.tenants[i].pc == StoreRound(k, s.tenants[i].round)
    && forall j :: 0 <= j < |s.tenants| ==>
         t.tenants[j] == (if s.tenants[j].active then Renewed(s.tenants[j], g(j)) else s.tenants[j])
                         .(pc := t.tenants[j].pc, round := if j < k then s.tenants[i].round + 1 else s.tenants[j].round)
         && (j != i ==> t.tenants[j].pc == s.tenants[j].pc)
  }

  lemma {:induction false} NumberFrom(s: State, t: State, i: nat, k: nat, g: Shares) returns (u: State)
    requires Numbering(s, t, i, k, g) && k <= |s.tenants| && s.tenants[i].active
    ensures Leads(t, u, i, g) && Numbering(s, u, i, |s.tenants|, g)
    decreases |s.tenants| - k
  {
    LeadsSelf(t, i, g);
    if k == |s.tenants| {
      u := t;
    } else {
      var v := Next(t, t, i, g);
      assert Numbering(s, v, i, k + 1, g);
      u := NumberFrom(s, v, i, k + 1, g);
      LeadsTrans(t, v, u, i, g);
    }
  }

  /** A finished round: every registered tenant has its share and is released, the others are untouched, all
      round ids are one more than the trigger's own was, and the lock is free. */
  ghost predicate RoundDone(s: State, t: State, i: nat, g: Shares) {
    && |t.tenants| == |s.tenants| && !t.lock && t.rounds == s.rounds + 1
    && i < |t.tenants| && t.tenants[i].pc == Spin
    && forall j :: 0 <= j < |s.tenants| ==>
         && t.tenants[j] == (if s.tenants[j].active then Renewed(s.tenants[j], g(j)) else s.tenants[j])
                            .(pc := t.tenants[j].pc, round := s.tenants[i].round + 1)
         && (j != i ==> t.tenants[j].pc == s.tenants[j].pc)
  }

  /** The exact outcome of a round that nobody disturbs. */
  lemma RoundAlone(s: State, i: nat, g: Shares) returns (t: State)
    requires i < |s.tenants| && s.tenants[i].active && s.tenants[i].pc == TryLock && !s.lock && AllWaiting(s)
    ensures Leads(s, t, i, g) && RoundDone(s, t, i, g)
  {
    LeadsSelf(s, i, g);
    var a := Next(s, s, i, g);
    assert Recharging(s, a, i, 0, g);
    var b := RechargeFrom(s, a, i, 0, g);
    LeadsTrans(s, a, b, i, g);
    t := CloseRound(s, b, i, g);
    LeadsTrans(s, b, t, i, g);
  }

  lemma CloseRound(s: State, b: State, i: nat, g: Shares) returns (t: State)
    requires i < |s.tenants| && s.tenants[i].active && Recharging(s, b, i, |s.tenants|, g)
    ensures Leads(b, t, i, g) && RoundDone(s, t, i, g)
  {
    var d := StartNumbering(s, b, i, g);
    var e := NumberFrom(s, d, i, 0, g);
    LeadsTrans(b, d, e, i, g);
    t := Next(b, e, i, g);
  }

  lemma StartNumbering(s: State, b: State, i: nat, g: Shares) returns (d: State)
    requires i < |s.tenants| && s.tenants[i].active && Recharging(s, b, i, |s.tenants|, g)
    ensures Leads(b, d, i, g) && Numbering(s, d, i, 0, g)
  {
    LeadsSelf(b, i, g);
    var c := Next(b, b, i, g);
    assert Served(s, c, i, |s.tenants|, g) && c.tenants[i].pc == ReadRound;
    d := Next(b, c, i, g);
  }

  // ---- Who gets in ----

  /** Budget left and no registered peer in KILLER_ACTIVE; or budget used up, the lock free and every
      registered peer waiting. */
  ghost predicate Admissible(s: State, i: nat)
    requires i < |s.tenants|
  {
    if s.tenants[i].remain > 0 then ClearFrom(s, i, 0)
    else !s.lock && forall j :: 0 <= j < |s.tenants| && j != i && s.tenants[j].active ==> s.tenants[j].gate == Waiting
  }

  /** Marked and inside the killer; with budget left nothing else has changed, otherwise a round was run. */
  ghost predicate Entered(s: State, t: State, i: nat, g: Shares)
    requires i < |s.tenants|
  {
    && |t.tenants| == |s.tenants| && t.tenants[i].pc == Killer && t.tenants[i].gate == KillerActive && t.lock == s.lock
    && (if s.tenants[i].remain > 0 then
          OnlyOwn(s, t, i) && t.tenants[i].remain == s.tenants[i].remain && t.tenants[i].round == s.tenants[i].round
        else
          && t.rounds == s.rounds + 1 && t.tenants[i].remain == g(i)
          && forall j :: 0 <= j < |s.tenants| ==>
               && t.tenants[j].round == s.tenants[i].round + 1 && t.tenants[j].active == s.tenants[j].active
               && (s.tenants[j].active ==> t.tenants[j].remain == g(j))
               && (j != i && s.tenants[j].active ==> t.tenants[j].gate == Running)
               && (!s.tenants[j].active ==> t.tenants[j] == s.tenants[j].(round := t.tenants[j].round)))
  }

  lemma MarkAlone(s: State, i: nat, g: Shares) returns (t: State)
    requires i < |s.tenants| && s.tenants[i].active && s.tenants[i].pc == ScanActive(0) && ClearFrom(s, i, 0)
    ensures Leads(s, t, i, g) && OnlyOwn(s, t, i)
    ensures t.tenants[i].pc == Killer && t.tenants[i].gate == KillerActive && t.tenants[i].active
    ensures t.tenants[i].remain == s.tenants[i].remain && t.tenants[i].round == s.tenants[i].round
  {
    var u := ScanFrom(s, i, g);
    t := NextOwn(s, u, i, g);
  }

  /** A tenant that has used up its slice comes to the check. */
  lemma StopAlone(s: State, i: nat, g: Shares) returns (t: State)
    requires i < |s.tenants| && s.tenants[i].active && s.tenants[i].pc == Idle && s.tenants[i].remain <= 0
    ensures Leads(s, t, i, g) && OnlyOwn(s, t, i)
    ensures t.tenants[i] == s.tenants[i].(gate := Waiting, pc := CheckActive(0))
  {
    LeadsSelf(s, i, g);
    var a := NextOwn(s, s, i, g);
    assert a.tenants[i] == s.tenants[i].(pc := SetWaiting);
    t := NextOwn(s, a, i, g);
  }

  lemma EntersWhenAdmissible(s: State, i: nat, g: Shares) returns (t: State)
    requires i < |s.tenants| && s.tenants[i].active && s.tenants[i].pc == Idle && Admissible(s, i)
    ensures Leads(s, t, i, g) && Entered(s, t, i, g)
  {
    if s.tenants[i].remain > 0 {
      LeadsSelf(s, i, g);
      var a := NextOwn(s, s, i, g);
      assert a.tenants[i] == s.tenants[i].(pc := ScanActive(0)) && ClearFrom(a, i, 0);
      t := MarkAlone(a, i, g);
      LeadsTrans(s, a, t, i, g);
    } else {
      t := EntersByRound(s, i, g);
    }
  }

  lemma EntersByRound(s: State, i: nat, g: Shares) returns (t: State)
    requires i < |s.tenants| && s.tenants[i].active && s.tenants[i].pc == Idle
    requires s.tenants[i].remain <= 0 && Admissible(s, i)
    ensures Leads(s, t, i, g) && Entered(s, t, i, g)
  {
    var a := StopAlone(s, i, g);
    assert AllWaiting(a);
    var b := CheckEndsIff(a, i, g);
    LeadsTrans(s, a, b, i, g);
    assert AllWaiting(b);
    var c := RoundAlone(b, i, g);
    LeadsTrans(s, b, c, i, g);
    t := AfterRound(b, c, i, g);
    LeadsTrans(s, c, t, i, g);
  }

  /** Released by its own round, the tenant goes on to its mark. */
  lemma AfterRound(b: State, c: State, i: nat, g: Shares) returns (t: State)
    requires i < |b.tenants| && b.tenants[i].active && RoundDone(b, c, i, g) && AllWaiting(b)
    ensures Leads(c, t, i, g) && OnlyOwn(c, t, i)
    ensures t.tenants[i].pc == Killer && t.tenants[i].gate == KillerActive && t.tenants[i].active
    ensures t.tenants[i].remain == g(i) && t.tenants[i].round == c.tenants[i].round
  {
    LeadsSelf(c, i, g);
    var d := NextOwn(c, c, i, g);
    assert d.tenants[i] == c.tenants[i].(pc := ScanActive(0)) && ClearFrom(d, i, 0);
    t := MarkAlone(d, i, g);
    LeadsTrans(c, d, t, i, g);
  }

  // ---- Who stays out ----

  /** Tenant i scans, has budget, and has not got past the marked peer j. */
  predicate HeldByPeer(s: State, i: nat, j: nat) {
    && i < |s.tenants| && j < |s.tenants| && i != j
    && s.tenants[j].active && s.tenants[j].gate == KillerActive && s.tenants[i].remain > 0
    && match s.tenants[i].pc
       case Idle => true
       case ScanActive(k) => k <= j
       case ScanGate(k) => k <= j
       case ScanSpin(k) => k <= j
       case _ => false
  }

  /** Tenant i waits, and the lock is taken or peer j is seen not to wait. */
  predicate HeldByRound(s: State, i: nat, j: nat) {
    && i < |s.tenants| && s.tenants[i].remain <= 0
    && (s.lock || (j < |s.tenants| && i != j && s.tenants[j].active && s.tenants[j].gate != Waiting))
    && match s.tenants[i].pc
       case Idle => true
       case SetWaiting => true
       case CheckActive(k) => s.tenants[i].gate == Waiting && (s.lock || k <= j)
       case CheckGate(k) => s.tenants[i].gate == Waiting && (s.lock || k <= j)
       case TryLock => s.tenants[i].gate == Waiting && s.lock
       case Spin => s.tenants[i].gate == Waiting
       case _ => false
  }

  lemma {:induction false} HeldByPeerRun(s: State, i: nat, j: nat, g: Shares, n: nat)
    requires HeldByPeer(s, i, j)
    ensures HeldByPeer(Iter(s, i, g, n), i, j)
    decreases n
  {
    if n > 0 {
      var u := Apply(s, Go(i, ShareAt(s, i, g), 0));
      IterStep(s, i, g, n);
      assert HeldByPeer(u, i, j);
      HeldByPeerRun(u, i, j, g, n - 1);
    }
  }

  lemma {:induction false} HeldByRoundRun(s: State, i: nat, j: nat, g: Shares, n: nat)
    requires HeldByRound(s, i, j)
    ensures HeldByRound(Iter(s, i, g, n), i, j)
    decreases n
  {
    if n > 0 {
      var u := Apply(s, Go(i, ShareAt(s, i, g), 0));
      IterStep(s, i, g, n);
      assert HeldByRound(u, i, j);
      HeldByRoundRun(u, i, j, g, n - 1);
    }
  }

  ghost predicate InAfter(s: State, i: nat, g: Shares, n: nat) {
    i < |Iter(s, i, g, n).tenants| && Iter(s, i, g, n).tenants[i].pc == Killer
  }

  /** An entry that nobody else disturbs gets into its killer if and only if it is admissible, and then with
      exactly this outcome. */
  lemma EntersIff(s: State, i: nat, g: Shares)
    requires i < |s.tenants| && s.tenants[i].active && s.tenants[i].pc == Idle
    ensures (exists n: nat :: InAfter(s, i, g, n)) <==> Admissible(s, i)
    ensures Admissible(s, i) ==> exists t :: Leads(s, t, i, g) && Entered(s, t, i, g)
  {
    if Admissible(s, i) {
      var t := EntersWhenAdmissible(s, i, g);
      var n: nat :| Iter(s, i, g, n) == t;
      assert InAfter(s, i, g, n);
    } else {
      var j: nat := HeldBy(s, i);
      forall n: nat ensures !InAfter(s, i, g, n) {
        if s.tenants[i].remain > 0 {
          HeldByPeerRun(s, i, j, g, n);
        } else {
          HeldByRoundRun(s, i, j, g, n);
        }
      }
    }
  }

  lemma HeldBy(s: State, i: nat) returns (j: nat)
    requires i < |s.tenants| && s.tenants[i].active && s.tenants[i].pc == Idle && !Admissible(s, i)
    ensures if s.tenants[i].remain > 0 then HeldByPeer(s, i, j) else HeldByRound(s, i, j)
  {
    if s.tenants[i].remain > 0 {
      j :| j < |s.tenants| && j != i && s.tenants[j].active && s.tenants[j].gate == KillerActive;
    } else if s.lock {
      j := 0;
    } else {
      j :| j < |s.tenants| && j != i && s.tenants[j].active && s.tenants[j].gate != Waiting;
    }
  }

  // ---- The exit ----

  lemma DeductStep(s: State, i: nat, e: nat) returns (t: State)
    requires i < |s.tenants| && s.tenants[i].active && s.tenants[i].pc == Killer
    ensures t == Apply(s, Go(i, 0, e)) && OnlyOwn(s, t, i)
    ensures t.tenants[i] == s.tenants[i].(remain := s.tenants[i].remain - e, pc := BookExec(e))
  {
    t := Apply(s, Go(i, 0, e));
  }

  lemma BookStep(s: State, i: nat, e: nat) returns (t: State)
    requires i < |s.tenants| && s.tenants[i].active && s.tenants[i].pc == BookExec(e)
    ensures t == Apply(Apply(s, Go(i, 0, 0)), Go(i, 0, 0)) && OnlyOwn(s, t, i)
    ensures t.tenants[i] == s.tenants[i].(exec := s.tenants[i].exec + e, gate := Running, pc := Idle)
  {
    var u := Apply(s, Go(i, 0, 0));
    assert u.tenants[i] == s.tenants[i].(exec := s.tenants[i].exec + e, pc := Release);
    t := Apply(u, Go(i, 0, 0));
  }

  /** The exit: the measured time leaves the balance, is booked, and the gate is released. */
  lemma ExitAlone(s: State, i: nat, e: nat)
    requires i < |s.tenants| && s.tenants[i].active && s.tenants[i].pc == Killer
    ensures var t := Run(s, [Go(i, 0, e), Go(i, 0, 0), Go(i, 0, 0)]);
            && OnlyOwn(s, t, i)
            && t.tenants[i] == s.tenants[i].(remain := s.tenants[i].remain - e, exec := s.tenants[i].exec + e,
                                             gate := Running, pc := Idle)
  {
    var t := DeductStep(s, i, e);
    var u := BookStep(t, i, e);
    var go, last := Go(i, 0, 0), [Go(i, 0, 0)];
    assert last[1..] == [] && [go, go][1..] == last && [Go(i, 0, e), go, go][1..] == [go, go];
    assert Run(u, []) == u && Run(Apply(t, go), last) == u && Run(t, [go, go]) == u;
  }

  // ---- The inner spin of the scan ----

  /** At the spin on peer j. */
  predicate SpinsOn(s: State, i: nat, j: nat) {
    i < |s.tenants| && j < |s.tenants| && s.tenants[i].active && s.tenants[i].pc == ScanSpin(j)
  }

  lemma {:induction false} SpinsForever(s: State, i: nat, j: nat, g: Shares, n: nat)
    requires SpinsOn(s, i, j) && s.tenants[j].gate == KillerActive
    ensures SpinsOn(Iter(s, i, g, n), i, j)
    decreases n
  {
    if n > 0 {
      var u := Apply(s, Go(i, ShareAt(s, i, g), 0));
      IterStep(s, i, g, n);
      assert SpinsOn(u, i, j) && u.tenants[j].gate == KillerActive;
      SpinsForever(u, i, j, g, n - 1);
    }
  }

  /** The spin looks at the gate of the peer alone: it ends if and only if that is not KILLER_ACTIVE, registered
      or not. */
  lemma SpinEndsIff(s: State, i: nat, j: nat, g: Shares)
    requires SpinsOn(s, i, j)
    ensures (exists n: nat :: !SpinsOn(Iter(s, i, g, n), i, j)) <==> s.tenants[j].gate != KillerActive
  {
    if s.tenants[j].gate == KillerActive {
      forall n: nat ensures SpinsOn(Iter(s, i, g, n), i, j) {
        SpinsForever(s, i, j, g, n);
      }
    } else {
      IterStep(s, i, g, 1);
      assert !SpinsOn(Iter(s, i, g, 1), i, j);
    }
  }

  // ---- Coming and going ----

  /** A tenant that leaves is no longer waited for and no longer scanned; only one outside the gate can leave. */
  lemma LeaverIsSkipped(s: State, j: nat)
    requires j < |s.tenants|
    ensures var t := Apply(s, Leave(j));
            if s.tenants[j].pc != Idle then t == s else
            && OnlyOwn(s, t, j) && !t.tenants[j].active
            && (AllWaiting(t) <==>
                  forall k :: 0 <= k < |s.tenants| && k != j && s.tenants[k].active ==> s.tenants[k].gate == Waiting)
            && Apply(t, Join(j)) == s.(tenants := s.tenants[j := s.tenants[j].(active := true)])
  {
  }

  // ---- Check and trigger at once ----

  function Slices(g: Shares, n: nat): seq<nat> { seq(n, k requires 0 <= k < n => g(k)) }

  /** The single step that stands for check-and-trigger does what the tenant would do alone: the same records of
      all tenants and, the lock being free before, the same lock and count of rounds. */
  lemma AtOnceIsAlone(s: State, i: nat, g: Shares)
    requires i < |s.tenants| && s.tenants[i].active && s.tenants[i].pc == CheckActive(0) && !s.lock
    ensures var u := Apply(s, Round(i, Slices(g, |s.tenants|)));
            && u.rounds == s.rounds + (if AllWaiting(s) then 1 else 0)
            && exists t :: Leads(s, t, i, g) && t.tenants == u.tenants && t.lock == u.lock && t.rounds == u.rounds
  {
    var u := Apply(s, Round(i, Slices(g, |s.tenants|)));
    var a := CheckEndsIff(s, i, g);
    SameWaiting(s, a, i);
    SameWaiting(s, Goto(s, i, Spin), i);
    if AllWaiting(s) {
      var t := RoundAlone(a, i, g);
      LeadsTrans(s, a, t, i, g);
      forall j | 0 <= j < |s.tenants| ensures t.tenants[j] == u.tenants[j] {
        SameOutcome(s, a, t, i, j, g);
      }
      assert Leads(s, t, i, g) && t.tenants == u.tenants;
    } else {
      assert a.tenants == u.tenants;
    }
  }

  lemma SameWaiting(s: State, t: State, i: nat)
    requires OnlyOwn(s, t, i) && i < |s.tenants|
    requires t.tenants[i].active == s.tenants[i].active && t.tenants[i].gate == s.tenants[i].gate
    ensures AllWaiting(t) <==> AllWaiting(s)
  {
    forall j | 0 <= j < |s.tenants|
      ensures t.tenants[j].active == s.tenants[j].active && t.tenants[j].gate == s.tenants[j].gate
    {
    }
  }

  lemma SameOutcome(s: State, a: State, t: State, i: nat, j: nat, g: Shares)
    requires i < |s.tenants| && j < |s.tenants| && AllWaiting(Goto(s, i, Spin)) && OnlyOwn(s, a, i)
    requires a.tenants[i] == s.tenants[i].(pc := TryLock) && s.tenants[i].pc == CheckActive(0) && RoundDone(a, t, i, g)
    ensures t.tenants[j] == Apply(s, Round(i, Slices(g, |s.tenants|))).tenants[j]
  {
  }
}
