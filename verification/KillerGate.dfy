/** The killer gate and the round protocol in OVERCOMMIT mode: every tenant process runs
    `gate_killer_enter`, a killer kernel and `gate_killer_exit` over one shared-memory block.
    One step is one load, store or compare-and-swap; steps of different tenants interleave freely. */
module KillerGate {

  datatype Gate = Running | Waiting | KillerActive

  /** Program counter of one tenant. `k` is the index of the loop the tenant is in. */
  datatype Pc =
    | Idle                                    // outside the gate
    | SetWaiting                              // slice exhausted, about to store WAITING
    | CheckActive(k: nat) | CheckGate(k: nat) // all_waiting
    | TryLock
    | RoundActive(k: nat) | StoreRemain(k: nat) | StoreGate(k: nat) // recharge loop
    | ReadRound | StoreRound(k: nat, rid: int)
    | Spin                                    // while gate_state == WAITING
    | ScanActive(k: nat) | ScanGate(k: nat) | ScanSpin(k: nat) // peers running a killer
    | Mark
    | Killer                                  // between mark and the deduction at exit
    | BookExec(elapsed: nat)
    | Release

  /** The shared record of a tenant, its program counter, and history: the slices stored into it,
      how many, the times of its last mark and of the last release that a recharge stored over a standing
      mark, and the time of its last passing scan of each peer. */
  datatype Tenant = Tenant(active: bool, gate: Gate, remain: int, round: int, exec: int, pc: Pc,
                           initial: int, stored: int, recharges: nat,
                           markedAt: nat, erasedAt: nat, scannedAt: seq<nat>)

  /** `lock` is round_trigger_lock; `owner` remembers who took it last. */
  datatype State = State(tenants: seq<Tenant>, lock: bool, owner: nat, rounds: nat, clock: nat)

  /** `Go` lets tenant i take its next step; `slice` is what calc_slice_us returned if the step
      recharges someone, `elapsed` the measured time if the step ends a killer.
      `Round` is check-and-trigger as a single step, used only to study that variant. */
  datatype Action =
    | Go(i: nat, slice: nat, elapsed: nat)
    | Join(i: nat)
    | Leave(i: nat)
    | Round(i: nat, slices: seq<nat>)

  function Put(s: State, i: nat, t: Tenant): State
    requires i < |s.tenants|
  {
    s.(tenants := s.tenants[i := t])
  }

  function Goto(s: State, i: nat, pc: Pc): State
    requires i < |s.tenants|
  {
    Put(s, i, s.tenants[i].(pc := pc))
  }

  /** Steps that write nothing but the tenant's own record. */
  function Own(s: State, i: nat, elapsed: nat): Tenant
    requires i < |s.tenants|
  {
    var t := s.tenants[i];
    var n := |s.tenants|;
    match t.pc
    case Idle => t.(pc := if t.remain <= 0 then SetWaiting else ScanActive(0))
    case SetWaiting => t.(gate := Waiting, pc := CheckActive(0))
    case CheckActive(k) =>
      t.(pc := if k >= n then TryLock else if s.tenants[k].active then CheckGate(k) else CheckActive(k + 1))
    case CheckGate(k) =>
      t.(pc := if k < n && s.tenants[k].gate == Waiting then CheckActive(k + 1) else Spin)
    case RoundActive(k) =>
      t.(pc := if k >= n then ReadRound else if s.tenants[k].active then StoreRemain(k) else RoundActive(k + 1))
    case ReadRound => t.(pc := StoreRound(0, t.round))
    case Spin => t.(pc := if t.gate == Waiting then CheckActive(0) else ScanActive(0))
    case ScanActive(k) =>
      if k >= n then t.(pc := Mark)
      else if k == i then t.(pc := ScanActive(k + 1))
      else if s.tenants[k].active then t.(pc := ScanGate(k))
      else Scanned(t, k, s.clock)
    case ScanGate(k) =>
      if k < n && s.tenants[k].gate == KillerActive then t.(pc := ScanSpin(k)) else Scanned(t, k, s.clock)
    case ScanSpin(k) =>
      if k < n && s.tenants[k].gate == KillerActive then t else Scanned(t, k, s.clock)
    case Mark => t.(gate := KillerActive, pc := Killer, markedAt := s.clock)
    case Killer => t.(remain := t.remain - elapsed, pc := BookExec(elapsed))
    case BookExec(e) => t.(exec := t.exec + e, pc := Release)
    case Release => t.(gate := Running, pc := Idle)
    case _ => t
  }

  function Scanned(t: Tenant, k: nat, now: nat): Tenant {
    t.(pc := ScanActive(k + 1), scannedAt := if k < |t.scannedAt| then t.scannedAt[k := now] else t.scannedAt)
  }

  function Recharged(t: Tenant, slice: nat): Tenant {
    t.(remain := slice, stored := t.stored + slice, recharges := t.recharges + 1)
  }

  /** The second store of a recharge. Nothing keeps it from hitting a tenant that is running a killer. */
  function Freed(t: Tenant, now: nat): Tenant {
    t.(gate := Running, erasedAt := if t.gate == KillerActive then now else t.erasedAt)
  }

  function TenantStep(s: State, i: nat, slice: nat, elapsed: nat): State
    requires i < |s.tenants|
  {
    match s.tenants[i].pc
    case TryLock =>
      if s.lock then Goto(s, i, Spin) else Goto(s, i, RoundActive(0)).(lock := true, owner := i)
    case StoreRemain(k) =>
      var s1 := Goto(s, i, StoreGate(k));
      if k < |s.tenants| then Put(s1, k, Recharged(s1.tenants[k], slice)) else s1
    case StoreGate(k) =>
      var s1 := Goto(s, i, RoundActive(k + 1));
      if k < |s.tenants| then Put(s1, k, Freed(s1.tenants[k], s.clock)) else s1
    case StoreRound(k, rid) =>
      if k < |s.tenants| then
        var s1 := Goto(s, i, StoreRound(k + 1, rid));
        Put(s1, k, s1.tenants[k].(round := rid + 1))
      else
        Goto(s, i, Spin).(lock := false, rounds := s.rounds + 1)
    case _ => Put(s, i, Own(s, i, elapsed))
  }

  ghost function Apply(s: State, a: Action): State {
    if a.i >= |s.tenants| then s else
    var t := s.tenants[a.i];
    match a
    case Go(i, slice, elapsed) => if t.active then TenantStep(s, i, slice, elapsed).(clock := s.clock + 1) else s
    case Join(i) => if t.pc == Idle then Put(s, i, t.(active := true)) else s
    case Leave(i) => if t.pc == Idle then Put(s, i, t.(active := false)) else s
    case Round(i, slices) =>
      if t.pc == CheckActive(0) then RoundAtOnce(Goto(s, i, Spin), i, slices) else s
  }

  ghost predicate AllWaiting(s: State) {
    forall k :: 0 <= k < |s.tenants| && s.tenants[k].active ==> s.tenants[k].gate == Waiting
  }

  /** The whole of check-and-trigger at one instant: nothing happens unless every active tenant waits. */
  ghost function RoundAtOnce(s: State, i: nat, slices: seq<nat>): State
    requires i < |s.tenants|
  {
    if AllWaiting(s) && |slices| == |s.tenants| then
      var rid := s.tenants[i].round + 1;
      s.(rounds := s.rounds + 1,
         tenants := seq(|s.tenants|, k requires 0 <= k < |s.tenants| =>
           var t := s.tenants[k].(round := rid);
           if t.active then Recharged(t, slices[k]).(gate := Running) else t))
    else s
  }

  ghost function Run(s: State, acts: seq<Action>): State
    decreases |acts|
  {
    if acts == [] then s else Run(Apply(s, acts[0]), acts[1..])
  }

  /** Start: everybody is outside the gate, nobody runs a killer, the lock is free. */
  ghost predicate Init(s: State) {
    && !s.lock && s.rounds == 0
    && (forall i :: 0 <= i < |s.tenants| ==> Fresh(s.tenants[i], |s.tenants|, s.tenants[0].round, s.clock))
  }

  predicate Fresh(t: Tenant, n: nat, round: int, clock: nat) {
    && t.pc == Idle && t.gate != KillerActive && t.exec == 0 && t.round == round
    && t.initial == t.remain && t.stored == 0 && t.recharges == 0
    && t.markedAt < clock && t.erasedAt < clock
    && |t.scannedAt| == n && (forall k :: 0 <= k < n ==> t.scannedAt[k] < clock)
  }

  // ---- Regions of the program ----

  /** Holding the trigger lock. */
  predicate InRound(pc: Pc) {
    pc.RoundActive? || pc.StoreRemain? || pc.StoreGate? || pc.ReadRound? || pc.StoreRound?
  }

  /** After storing WAITING and before leaving the spin loop. */
  predicate InWait(pc: Pc) {
    pc.CheckActive? || pc.CheckGate? || pc.TryLock? || pc.Spin? || InRound(pc)
  }

  /** Past the slice check with the killer not yet deducted. */
  predicate Admitted(pc: Pc) {
    pc.ScanActive? || pc.ScanGate? || pc.ScanSpin? || pc.Mark? || pc.Killer?
  }

  /** While its own mark may stand. */
  predicate InKiller(pc: Pc) {
    pc.Killer? || pc.BookExec? || pc.Release?
  }

  /** A recharge of tenant i has stored the slice but not yet the gate. */
  predicate Pending(s: State, i: nat) {
    s.lock && s.owner < |s.tenants| && s.tenants[s.owner].pc == StoreGate(i)
  }

  // ---- Mutual exclusion of the recharge region ----

  ghost predicate LockInv(s: State) {
    && (s.lock ==> s.owner < |s.tenants|)
    && (forall i {:trigger LockOk(s, i)} :: 0 <= i < |s.tenants| ==> LockOk(s, i))
  }

  /** A tenant is in the recharge region exactly while it holds the lock. */
  predicate LockOk(s: State, i: nat)
    requires i < |s.tenants|
  {
    InRound(s.tenants[i].pc) <==> s.lock && s.owner == i
  }

  predicate Fine(a: Action) { !a.Round? }

  /** What the steps of others can do to tenant i. */
  lemma PeerStep(s: State, j: nat, slice: nat, elapsed: nat, i: nat)
    requires i < |s.tenants| && j < |s.tenants| && i != j
    ensures |TenantStep(s, j, slice, elapsed).tenants| == |s.tenants|
    ensures var t, t', pc := s.tenants[i], TenantStep(s, j, slice, elapsed).tenants[i], s.tenants[j].pc;
            t' == if pc == StoreRemain(i) then Recharged(t, slice)
                  else if pc == StoreGate(i) then Freed(t, s.clock)
                  else if pc.StoreRound? && pc.k == i then t.(round := pc.rid + 1)
                  else t
  {
  }

  lemma LockOwn(s: State, i: nat, slice: nat, elapsed: nat)
    requires i < |s.tenants| && LockOk(s, i)
    ensures var u := TenantStep(s, i, slice, elapsed);
            && |u.tenants| == |s.tenants| && LockOk(u, i)
            && (u.lock != s.lock || u.owner != s.owner ==>
                  if s.lock then s.owner == i && !u.lock else u.lock && u.owner == i)
  {
  }

  lemma LockStep(s: State, a: Action)
    requires LockInv(s) && Fine(a)
    ensures LockInv(Apply(s, a)) && |Apply(s, a).tenants| == |s.tenants|
  {
    if a.Go? && a.i < |s.tenants| {
      assert LockOk(s, a.i);
      LockOwn(s, a.i, a.slice, a.elapsed);
    }
    forall i | 0 <= i < |s.tenants| ensures |Apply(s, a).tenants| == |s.tenants| && LockOk(Apply(s, a), i) {
      assert LockOk(s, i);
      if a.Go? && a.i < |s.tenants| && i != a.i {
        PeerStep(s, a.i, a.slice, a.elapsed, i);
      }
    }
  }
}
