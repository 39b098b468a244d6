/** What a thread of the time gate has looked at before it launches a kernel, with everybody else moving in
    between: the flags and the clock of a ride, the flag of an unlimited or boosted launch, and the balance
    and the limit of a launch on credit or on loan. */
module TimeRides {
  import opened TimeGate

  /** The state after the first m actions. */
  ghost function At(s: State, acts: seq<Action>, m: nat): State
    requires m <= |acts|
  {
    Run(s, acts[..m])
  }

  lemma {:induction false} RunSnoc(s: State, acts: seq<Action>, a: Action)
    ensures Run(s, acts + [a]) == Apply(Run(s, acts), a)
    decreases |acts|
  {
    if acts == [] {
      assert [a][1..] == [] && Run(Apply(s, a), []) == Apply(s, a);
      assert acts + [a] == [a];
    } else {
      assert (acts + [a])[1..] == acts[1..] + [a];
      RunSnoc(Apply(s, acts[0]), acts[1..], a);
    }
  }

  lemma AtSnoc(s: State, acts: seq<Action>, a: Action, m: nat)
    requires m <= |acts|
    ensures At(s, acts + [a], m) == At(s, acts, m)
  {
    assert (acts + [a])[..m] == acts[..m];
  }

  lemma AtEnd(s: State, acts: seq<Action>)
    ensures At(s, acts, |acts|) == Run(s, acts)
  {
    assert acts[..|acts|] == acts;
  }

  // ---- Looks ----

  /** What one step of a thread has loaded. */
  datatype Look =
    | WcOn | IdlePeer | Clock(at: int)
    | Credit(c: int) | NotUrgent | Urgent | Limit(lim: int)

  /** Thread i, about to step in e, makes this look at memory. */
  predicate Looks(e: State, i: nat, l: Look) {
    && i < |e.threads|
    && var pc := e.threads[i].pc;
       match l
       case WcOn => pc.RideOn? && e.wcOn
       case IdlePeer => pc.RidePeer? && e.peerIdle
       case Clock(at) => pc.RideClock? && e.now == at
       case Credit(c) => (pc.LoadCredit? || pc.Reload?) && e.credit == c
       case NotUrgent => pc.WakePriority? && !e.urgent
       case Urgent => (pc.LoadPriority? || pc.WakePriority?) && e.urgent
       case Limit(lim) => (pc.LoadLimit? || pc.WakeLimit?) && e.limit == lim
  }

  /** Action number m was a step of thread i that made this look. */
  ghost predicate Looked(s: State, acts: seq<Action>, i: nat, m: nat, l: Look) {
    m < |acts| && acts[m] == Go(i) && Looks(At(s, acts, m), i, l)
  }

  /** How long a look stays good: those of a ride for the turn of the loop, the others until the thread is out. */
  predicate Keeps(l: Look, pc: Pc) {
    if l.WcOn? || l.IdlePeer? || l.Clock? then pc.RidePeer? || pc.RideClock? || pc.RideFresh? else pc != Out
  }

  ghost predicate KeptSince(s: State, acts: seq<Action>, i: nat, m: nat, l: Look) {
    forall k: nat :: m < k <= |acts| ==> i < |At(s, acts, k).threads| && Keeps(l, At(s, acts, k).threads[i].pc)
  }

  /** Thread i has made this look, and it is still good. */
  ghost predicate Has(s: State, acts: seq<Action>, i: nat, l: Look) {
    exists m: nat :: Looked(s, acts, i, m, l) && KeptSince(s, acts, i, m, l)
  }

  /** The looks that are still good. */
  ghost function Had(s: State, acts: seq<Action>, i: nat): iset<Look> {
    iset l | Has(s, acts, i, l)
  }

  predicate Stands(e: State, i: nat, l: Look) { i < |e.threads| && Keeps(l, e.threads[i].pc) }

  lemma HasLater(s: State, acts: seq<Action>, a: Action, i: nat, l: Look)
    requires Has(s, acts, i, l) && Stands(Run(s, acts + [a]), i, l)
    ensures Has(s, acts + [a], i, l)
  {
    var m: nat :| Looked(s, acts, i, m, l) && KeptSince(s, acts, i, m, l);
    AtSnoc(s, acts, a, m);
    assert Looked(s, acts + [a], i, m, l);
    AtEnd(s, acts + [a]);
    forall k: nat | m < k <= |acts + [a]|
      ensures i < |At(s, acts + [a], k).threads| && Keeps(l, At(s, acts + [a], k).threads[i].pc)
    {
      if k <= |acts| { AtSnoc(s, acts, a, k); }
    }
  }

  lemma HasNow(s: State, acts: seq<Action>, i: nat, l: Look)
    requires Looks(Run(s, acts), i, l) && Stands(Run(s, acts + [Go(i)]), i, l)
    ensures Has(s, acts + [Go(i)], i, l)
  {
    var a := Go(i);
    AtSnoc(s, acts, a, |acts|);
    AtEnd(s, acts);
    AtEnd(s, acts + [a]);
    assert Looked(s, acts + [a], i, |acts|, l);
    assert At(s, acts + [a], |acts| + 1) == Run(s, acts + [a]);
    assert KeptSince(s, acts + [a], i, |acts|, l);
  }

  // ---- What a thread carries with it ----

  function OfReturn(ret: Return): set<Look> {
    match ret
    case ToSync => {}
    case ToGate(c) => {Credit(c)}
  }

  /** The looks that a thread at pc must have behind it. */
  function Behind(pc: Pc): set<Look> {
    match pc
    case LoadPriority(c) => {Credit(c)}
    case LoadLimit(c) => {Credit(c), Urgent}
    case ChargeStart(ret) => OfReturn(ret)
    case AddExtra(_, ret) => OfReturn(ret)
    case AddTotal(_, ret) => OfReturn(ret)
    case ChargeUnlimited(_, ret) => OfReturn(ret)
    case SubCredit(_, ret) => OfReturn(ret)
    case BlockStart(c) => {Credit(c)}
    case WakePriority(c, _) => {Credit(c)}
    case WakeLimit(c, _) => {Credit(c), Urgent}
    case WaitCheck(c, _, _) => {Credit(c)}
    case RidePeer(_, _) => {WcOn}
    case RideClock(_, _) => {WcOn, IdlePeer}
    case RideFresh(_, _, at) => {WcOn, IdlePeer, Clock(at)}
    case _ => {}
  }

  /** A thread that has settled on the value at which it wakes up. */
  predicate Settled(pc: Pc) {
    pc.WaitCheck? || pc.RideOn? || pc.RidePeer? || pc.RideClock? || pc.RideFresh? || pc.WaitUnlimited? || pc.Reload?
  }

  /** That value: 0 for a thread that was not urgent, and minus the limit it has loaded for an urgent one. */
  ghost predicate Bar(had: iset<Look>, wake: int) {
    (wake == 0 && NotUrgent in had) || (Urgent in had && Limit(-wake) in had)
  }

  ghost predicate Knows(had: iset<Look>, pc: Pc) {
    (forall l :: l in Behind(pc) ==> l in had) && (Settled(pc) ==> Bar(had, pc.wake))
  }

  lemma KeepsBehind(pc: Pc)
    ensures forall l :: l in Behind(pc) ==> Keeps(l, pc)
  {
  }

  /** An own step: what the new position speaks of was behind the thread before, or is what the step looks at. */
  predicate Grounded(e: State, i: nat, t: Thread) {
    && i < |e.threads|
    && forall l :: l in Behind(t.pc) ==> l in Behind(e.threads[i].pc) || Looks(e, i, l)
  }

  lemma WaitBehind(e: State, i: nat)
    requires i < |e.threads| && InBlock(e.threads[i].pc)
    ensures Grounded(e, i, OwnWait(e, e.threads[i]))
  {
  }

  lemma ChargeBehind(e: State, i: nat)
    requires i < |e.threads| && Paying(e.threads[i].pc)
    ensures Grounded(e, i, OwnCharge(e, e.threads[i]))
  {
  }

  lemma EnterBehind(e: State, i: nat)
    requires i < |e.threads|
    ensures Grounded(e, i, OwnEnter(e, e.threads[i]))
  {
  }

  lemma OwnBehind(e: State, i: nat)
    requires i < |e.threads|
    ensures Grounded(e, i, Own(e, e.threads[i]))
  {
    if InBlock(e.threads[i].pc) {
      WaitBehind(e, i);
    } else if Paying(e.threads[i].pc) {
      ChargeBehind(e, i);
    } else {
      EnterBehind(e, i);
    }
  }

  /** The wake value is kept, or settled by the look of this step. */
  predicate Settles(e: State, i: nat, t: Thread) {
    && i < |e.threads|
    && var pc := e.threads[i].pc;
       Settled(t.pc) ==> || (Settled(pc) && pc.wake == t.pc.wake)
                         || (t.pc.wake == 0 && Looks(e, i, NotUrgent))
                         || (Urgent in Behind(pc) && Looks(e, i, Limit(-t.pc.wake)))
  }

  lemma WaitSettles(e: State, i: nat)
    requires i < |e.threads| && InBlock(e.threads[i].pc)
    ensures Settles(e, i, OwnWait(e, e.threads[i]))
  {
  }

  lemma OwnSettles(e: State, i: nat)
    requires i < |e.threads|
    ensures Settles(e, i, Own(e, e.threads[i]))
  {
    if InBlock(e.threads[i].pc) {
      WaitSettles(e, i);
    } else {
      NotYetSettled(e, e.threads[i]);
    }
  }

  lemma NotYetSettled(e: State, t: Thread)
    requires !InBlock(t.pc)
    ensures !Settled(Own(e, t).pc)
  {
  }

  /** A step that leads to pc adds its look and drops nothing that is still good there. */
  ghost predicate Adds(e: State, i: nat, had: iset<Look>, now: iset<Look>, pc: Pc) {
    forall l :: (l in had || Looks(e, i, l)) && Keeps(l, pc) ==> l in now
  }

  lemma KnowsOwn(e: State, i: nat, had: iset<Look>, now: iset<Look>)
    requires i < |e.threads| && e.threads[i].pc != Out && Knows(had, e.threads[i].pc)
    requires Adds(e, i, had, now, Own(e, e.threads[i]).pc)
    ensures Knows(now, Own(e, e.threads[i]).pc)
  {
    OwnBehind(e, i);
    KeepsBehind(Own(e, e.threads[i]).pc);
    OwnSettles(e, i);
  }

  lemma KnowsLater(had: iset<Look>, now: iset<Look>, pc: Pc)
    requires Knows(had, pc) && forall l :: l in had && Keeps(l, pc) ==> l in now
    ensures Knows(now, pc)
  {
    KeepsBehind(pc);
  }

  ghost predicate KnowsInv(s: State, acts: seq<Action>, i: nat) {
    i < |Run(s, acts).threads| && Knows(Had(s, acts, i), Run(s, acts).threads[i].pc)
  }

  lemma InvOwn(s: State, acts: seq<Action>, i: nat)
    requires KnowsInv(s, acts, i) && Run(s, acts).threads[i].pc != Out
    ensures KnowsInv(s, acts + [Go(i)], i)
  {
    var e, a := Run(s, acts), Go(i);
    var pc := Own(e, e.threads[i]).pc;
    RunSnoc(s, acts, a);
    OneThread(e, a);
    forall l | (Has(s, acts, i, l) || Looks(e, i, l)) && Keeps(l, pc) ensures Has(s, acts + [a], i, l) {
      if Has(s, acts, i, l) {
        HasLater(s, acts, a, i, l);
      } else {
        HasNow(s, acts, i, l);
      }
    }
    KnowsOwn(e, i, Had(s, acts, i), Had(s, acts + [a], i));
  }

  /** A step of anybody else leaves the thread where it is. */
  lemma InvOther(s: State, acts: seq<Action>, a: Action, i: nat)
    requires KnowsInv(s, acts, i) && i < |Run(s, acts + [a]).threads|
    requires Run(s, acts + [a]).threads[i].pc == Run(s, acts).threads[i].pc
    ensures KnowsInv(s, acts + [a], i)
  {
    var pc := Run(s, acts).threads[i].pc;
    forall l | Has(s, acts, i, l) && Keeps(l, pc) ensures Has(s, acts + [a], i, l) {
      HasLater(s, acts, a, i, l);
    }
    KnowsLater(Had(s, acts, i), Had(s, acts + [a], i), pc);
  }

  lemma InvStep(s: State, acts: seq<Action>, a: Action, i: nat)
    requires KnowsInv(s, acts, i)
    ensures KnowsInv(s, acts + [a], i)
  {
    var e := Run(s, acts);
    RunSnoc(s, acts, a);
    OneThread(e, a);
    if Moves(e, a) && a.i == i {
      if a.Go? {
        InvOwn(s, acts, i);
      }
    } else {
      InvOther(s, acts, a, i);
    }
  }

  lemma {:induction false} InvRun(s: State, acts: seq<Action>, i: nat)
    requires i < |s.threads| && s.threads[i].pc == Out
    ensures KnowsInv(s, acts, i)
    decreases |acts|
  {
    if acts != [] {
      var init, a := acts[..|acts| - 1], acts[|acts| - 1];
      assert acts == init + [a];
      InvRun(s, init, i);
      InvStep(s, init, a, i);
    }
  }

  // ---- What admits a kernel ----

  /** The thread has been let through in this way, and its kernel is not launched yet. */
  predicate LetBy(pc: Pc, how: Admission) {
    (pc.Record? || pc.AddBlocked? || pc.Start?) && pc.how == how
  }

  ghost predicate RideGrounds(had: iset<Look>, stamp: int) {
    WcOn in had && IdlePeer in had && exists at :: Clock(at) in had && at - stamp < 20000
  }

  ghost predicate CreditGrounds(e: State, i: nat, had: iset<Look>) {
    exists c :: (Credit(c) in had || Looks(e, i, Credit(c))) && c > 0
  }

  ghost predicate LoanGrounds(e: State, i: nat, had: iset<Look>) {
    && Urgent in had
    && exists c, lim :: Credit(c) in had && (Limit(lim) in had || Looks(e, i, Limit(lim))) && c > -lim
  }

  /** The grounds on which a step a in e may let a kernel of thread i through. */
  ghost predicate Grounds(e: State, a: Action, i: nat, had: iset<Look>, how: Admission) {
    match how
    case ByBoost => a == Launch(i) && e.boost
    case ByUnlimited => a == Go(i) && e.unlimited
    case ByRide => a == Go(i) && RideGrounds(had, e.peerIdleAt)
    case ByCredit => a == Go(i) && CreditGrounds(e, i, had)
    case ByLoan => a == Go(i) && LoanGrounds(e, i, had)
  }

  /** Where a step lets a kernel through. */
  predicate Why(e: State, pc: Pc, how: Admission) {
    match pc
    case LoadUnlimited => how == ByUnlimited && e.unlimited
    case LoadCredit => how == ByCredit && e.credit > 0
    case LoadLimit(c) => how == ByLoan && c > -e.limit
    case WaitCheck(c, wake, _) => c > wake && how == if wake < 0 then ByLoan else ByCredit
    case RideFresh(_, _, at) => how == ByRide && at - e.peerIdleAt < 20000
    case WaitUnlimited(_, _) => how == ByUnlimited && e.unlimited
    case _ => false
  }

  lemma WaitWhy(e: State, t: Thread, how: Admission)
    requires InBlock(t.pc) && !LetBy(t.pc, how) && LetBy(OwnWait(e, t).pc, how)
    ensures Why(e, t.pc, how)
  {
  }

  lemma EnterWhy(e: State, t: Thread, how: Admission)
    requires !LetBy(t.pc, how) && LetBy(OwnEnter(e, t).pc, how)
    ensures Why(e, t.pc, how)
  {
  }

  lemma WhyGrounds(e: State, i: nat, had: iset<Look>, how: Admission)
    requires i < |e.threads| && Knows(had, e.threads[i].pc) && Why(e, e.threads[i].pc, how)
    ensures Grounds(e, Go(i), i, had, how)
  {
    match e.threads[i].pc
    case RideFresh(wake, t0, at) =>
      assert Clock(at) in had;
    case WaitCheck(c, wake, t0) =>
      assert Credit(c) in had;
      assert wake < 0 ==> Limit(-wake) in had;
    case LoadLimit(c) =>
      assert Credit(c) in had && Looks(e, i, Limit(e.limit));
    case LoadCredit =>
      assert Looks(e, i, Credit(e.credit));
    case _ =>
  }

  /** In every interleaving a kernel is let through only on these grounds. By ride: in this turn of the loop the
      thread has seen wc_on set, then peer_idle set, and then read a clock value less than 20000 after the stamp
      as it now stands. By boost or unlimited: the step has just loaded the flag as set. On credit: a positive
      balance loaded in this launch. On loan: a balance above minus the limit, both loaded in this launch by a
      thread that has found itself urgent. */
  lemma LetOnGrounds(s: State, acts: seq<Action>, a: Action, i: nat, how: Admission)
    requires i < |s.threads| && s.threads[i].pc == Out
    ensures i < |Run(s, acts).threads| && i < |Run(s, acts + [a]).threads|
    ensures !LetBy(Run(s, acts).threads[i].pc, how) && LetBy(Run(s, acts + [a]).threads[i].pc, how)
            ==> Grounds(Run(s, acts), a, i, Had(s, acts, i), how)
  {
    var e := Run(s, acts);
    InvRun(s, acts, i);
    InvRun(s, acts + [a], i);
    RunSnoc(s, acts, a);
    OneThread(e, a);
    if !LetBy(e.threads[i].pc, how) && LetBy(Run(s, acts + [a]).threads[i].pc, how) {
      if a.Go? {
        var t := e.threads[i];
        if InBlock(t.pc) {
          WaitWhy(e, t, how);
          WhyGrounds(e, i, Had(s, acts, i), how);
        } else if Paying(t.pc) {
          ChargeLetsNobody(e, t, how);
        } else {
          EnterWhy(e, t, how);
          WhyGrounds(e, i, Had(s, acts, i), how);
        }
      }
    }
  }

  lemma ChargeLetsNobody(s: State, t: Thread, how: Admission)
    requires Paying(t.pc)
    ensures !LetBy(OwnCharge(s, t).pc, how)
  {
  }
}
