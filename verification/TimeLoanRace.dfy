/** What happens to the loan bound when priority is raised while a thread is inside the gate.
    The slow path charges the open batch and then compares the credit loaded before that charge with a
    limit that was read after it, so a stale value can let one more batch through. */
module TimeLoanRace {
  import opened Sums
  import opened TimeGate
  import opened TimeLoan
  import Ledger = TimeLedger

  // ---- With a limit of zero the race is harmless ----

  lemma {:induction false} NoLimitRun(s: State, acts: seq<Action>, c: Config)
    requires Inv(s, c) && AllowedRun(s, acts, c) && c.limit == 0
    ensures CarefulRun(s, acts, c)
    decreases |acts|
  {
    if acts != [] {
      forall i, x | 0 <= i < |s.threads| && Carries(s.threads[i].pc, x) ensures x <= 0 {
        assert LoanOk(s.threads[i], s.urgent, c);
      }
      InvStep(s, acts[0], c);
      NoLimitRun(Apply(s, acts[0]), acts[1..], c);
    }
  }

  // ---- In general every thread can charge twice on one look ----

  /** A loaded value is on its way to a comparison it may pass. */
  predicate Promising(pc: Pc, c: Config) {
    match pc
    case LoadPriority(x) => x > -Loan(c)
    case LoadLimit(x) => x > -Loan(c)
    case ChargeStart(ret) => ret.ToGate? && ret.c > -Loan(c)
    case AddExtra(_, ret) => ret.ToGate? && ret.c > -Loan(c)
    case AddTotal(_, ret) => ret.ToGate? && ret.c > -Loan(c)
    case ChargeUnlimited(_, ret) => ret.ToGate? && ret.c > -Loan(c)
    case SubCredit(_, ret) => ret.ToGate? && ret.c > -Loan(c)
    case BlockStart(x) => x > -Loan(c)
    case WakePriority(x, _) => x > -Loan(c)
    case WakeLimit(x, _) => x > -Loan(c)
    case WaitCheck(x, wake, _) => x > wake
    case _ => false
  }

  /** Batches the thread may still charge before it looks at the balance again. */
  function Chances(t: Thread, c: Config): int {
    if t.pc.Start? || t.pc.Record? || t.pc.AddBlocked? then (if t.riding then 0 else 1)
    else (if t.count > 0 && !t.riding then 1 else 0) + (if Promising(t.pc, c) then 1 else 0)
  }

  function RaceSlack(c: Config): Thread -> int {
    t => if Chances(t, c) >= 2 then 0 else if Chances(t, c) == 1 then c.maxBatch else 2 * c.maxBatch
  }

  predicate RaceOk(t: Thread, c: Config) {
    match t.pc
    case LoadPriority(x) => x <= 0
    case LoadLimit(x) => x <= 0 && c.urgentEver
    case ChargeStart(ret) => ret.ToGate? ==> ret.c <= 0
    case AddExtra(_, ret) => ret.ToGate? ==> ret.c <= 0
    case AddTotal(e, ret) => e <= c.maxBatch && (ret.ToGate? ==> ret.c <= 0)
    case ChargeUnlimited(e, ret) => e <= c.maxBatch && (ret.ToGate? ==> ret.c <= 0)
    case SubCredit(e, ret) => e <= c.maxBatch && (ret.ToGate? ==> ret.c <= 0)
    case BlockStart(x) => x <= 0
    case WakePriority(x, _) => x <= 0
    case WakeLimit(x, _) => x <= 0 && c.urgentEver
    case WaitCheck(_, wake, _) => WakeOk(wake, c)
    case RideOn(wake, _) => WakeOk(wake, c)
    case RidePeer(wake, _) => WakeOk(wake, c)
    case RideClock(wake, _) => WakeOk(wake, c)
    case RideFresh(wake, _, _) => WakeOk(wake, c)
    case WaitUnlimited(wake, _) => WakeOk(wake, c)
    case Reload(wake, _) => WakeOk(wake, c)
    case _ => true
  }

  ghost predicate RaceInv(s: State, c: Config) {
    && Limited(s, c)
    && (forall i :: 0 <= i < |s.threads| ==> ThreadOk(s.threads[i]) && RaceOk(s.threads[i], c))
    && s.credit > -Loan(c) - Total(s.threads, RaceSlack(c))
  }

  lemma RaceOkEnter(s: State, t: Thread, c: Config)
    requires Limited(s, c) && RaceOk(t, c) && !InBlock(t.pc) && !Paying(t.pc)
    ensures RaceOk(OwnEnter(s, t), c)
  {
  }

  lemma RaceOkCharge(s: State, t: Thread, c: Config)
    requires Limited(s, c) && ThreadOk(t) && RaceOk(t, c) && Paying(t.pc) && Short(s, t, c)
    ensures RaceOk(OwnCharge(s, t), c)
  {
  }

  lemma RaceOkWait(s: State, t: Thread, c: Config)
    requires Limited(s, c) && RaceOk(t, c) && InBlock(t.pc)
    ensures RaceOk(OwnWait(s, t), c)
  {
  }

  lemma RaceOkStep(s: State, a: Action, c: Config)
    requires Moves(s, a) && Allowed(s, a, c) && Limited(s, c)
    requires ThreadOk(s.threads[a.i]) && RaceOk(s.threads[a.i], c)
    ensures RaceOk(After(s, a), c)
  {
    var t := s.threads[a.i];
    if a.Go? {
      if InBlock(t.pc) {
        RaceOkWait(s, t, c);
      } else if Paying(t.pc) {
        RaceOkCharge(s, t, c);
      } else {
        RaceOkEnter(s, t, c);
      }
    }
  }

  lemma RaceSlackEnter(s: State, t: Thread, c: Config)
    requires Limited(s, c) && ThreadOk(t) && RaceOk(t, c) && !InBlock(t.pc) && !Paying(t.pc)
    ensures RaceSlack(c)(OwnEnter(s, t)) >= RaceSlack(c)(t) || s.credit > -Loan(c)
  {
  }

  lemma RaceSlackCharge(s: State, t: Thread, c: Config)
    requires Limited(s, c) && ThreadOk(t) && RaceOk(t, c) && Paying(t.pc)
    ensures RaceSlack(c)(OwnCharge(s, t)) - (if t.pc.SubCredit? then t.pc.e else 0) >= RaceSlack(c)(t)
  {
  }

  lemma RaceSlackWait(s: State, t: Thread, c: Config)
    requires Limited(s, c) && ThreadOk(t) && RaceOk(t, c) && InBlock(t.pc)
    ensures RaceSlack(c)(OwnWait(s, t)) >= RaceSlack(c)(t) || s.credit > -Loan(c)
  {
  }

  lemma RaceSlackStep(s: State, a: Action, c: Config)
    requires Moves(s, a) && Allowed(s, a, c) && Limited(s, c)
    requires ThreadOk(s.threads[a.i]) && RaceOk(s.threads[a.i], c)
    ensures var t, t', s' := s.threads[a.i], After(s, a), Apply(s, a);
            s'.credit + RaceSlack(c)(t') >= s.credit + RaceSlack(c)(t) || s'.credit > -Loan(c)
  {
    var t := s.threads[a.i];
    if a.Go? {
      if InBlock(t.pc) {
        RaceSlackWait(s, t, c);
      } else if Paying(t.pc) {
        RaceSlackCharge(s, t, c);
      } else {
        RaceSlackEnter(s, t, c);
      }
    }
  }

  lemma RaceInvStep(s: State, a: Action, c: Config)
    requires RaceInv(s, c) && Allowed(s, a, c)
    ensures RaceInv(Apply(s, a), c) && |Apply(s, a).threads| == |s.threads|
  {
    OneThread(s, a);
    if Moves(s, a) {
      assert ThreadOk(s.threads[a.i]) && RaceOk(s.threads[a.i], c);
      ThreadOkStep(s, a);
      RaceOkStep(s, a, c);
      RaceSlackStep(s, a, c);
      TotalUpdate(s.threads, a.i, After(s, a), RaceSlack(c));
      NonNegative(Apply(s, a).threads, RaceSlack(c));
    }
  }

  lemma {:induction false} RaceRun(s: State, acts: seq<Action>, c: Config)
    requires RaceInv(s, c) && AllowedRun(s, acts, c)
    ensures RaceInv(Run(s, acts), c) && |Run(s, acts).threads| == |s.threads|
    decreases |acts|
  {
    if acts != [] {
      RaceInvStep(s, acts[0], c);
      RaceRun(Apply(s, acts[0]), acts[1..], c);
    }
  }

  function RaceExposure(c: Config): Thread -> int {
    t => RaceSlack(c)(t) + Ledger.Owed(t)
  }

  lemma {:induction false} RaceExposureSum(ts: seq<Thread>, c: Config)
    ensures Total(ts, RaceExposure(c)) == Total(ts, RaceSlack(c)) + Total(ts, Ledger.Owed)
  {
    if ts != [] {
      RaceExposureSum(ts[1..], c);
    }
  }

  lemma RaceExposureBound(ts: seq<Thread>, c: Config)
    requires forall i :: 0 <= i < |ts| ==> ThreadOk(ts[i]) && RaceOk(ts[i], c)
    ensures Total(ts, RaceExposure(c)) <= |ts| * (2 * c.maxBatch)
  {
    forall i | 0 <= i < |ts| ensures RaceExposure(c)(ts[i]) <= 2 * c.maxBatch {
      assert ThreadOk(ts[i]) && RaceOk(ts[i], c);
      assert RaceExposure(c)(ts[i]) == RaceSlack(c)(ts[i]) + Ledger.Owed(ts[i]);
    }
    TotalAtMost(ts, RaceExposure(c), 2 * c.maxBatch);
  }

  /** With priority changed at any moment, credit still stays above -L - 2 * N * B, so the time billed
      stays below starting credit + grants + L + 2 * N * B. */
  lemma RaceBound(s: State, acts: seq<Action>, c: Config)
    requires Quiet(s, c) && AllowedRun(s, acts, c)
    ensures var e, n := Run(s, acts), |s.threads|;
            && |e.threads| == n
            && e.credit > -Loan(c) - n * (2 * c.maxBatch)
            && e.total - s.total < s.credit + (e.granted - s.granted) + Loan(c) + n * (2 * c.maxBatch)
  {
    var e := Run(s, acts);
    NonNegative(s.threads, RaceSlack(c));
    RaceRun(s, acts, c);
    TotalAtMost(e.threads, RaceSlack(c), 2 * c.maxBatch);
    AllowedLedger(s, acts, c);
    TotalBounds(s.threads, Ledger.Owed, 0, 0);
    RaceExposureSum(e.threads, c);
    RaceExposureBound(e.threads, c);
  }

  // ---- And all of them can do so ----

  ghost predicate Reach(s: State, t: State, c: Config) {
    exists acts: seq<Action> :: AllowedRun(s, acts, c) && Run(s, acts) == t
  }

  lemma {:induction false} Append(s: State, acts: seq<Action>, a: Action, c: Config)
    requires AllowedRun(s, acts, c) && Allowed(Run(s, acts), a, c)
    ensures AllowedRun(s, acts + [a], c) && Run(s, acts + [a]) == Apply(Run(s, acts), a)
    decreases |acts|
  {
    if acts == [] {
      assert [a][1..] == [] && Run(Apply(s, a), []) == Apply(s, a);
    } else {
      assert (acts + [a])[1..] == acts[1..] + [a];
      Append(Apply(s, acts[0]), acts[1..], a, c);
    }
  }

  lemma Step(s: State, t: State, a: Action, c: Config) returns (u: State)
    requires Reach(s, t, c) && Allowed(t, a, c)
    ensures Reach(s, u, c) && u == Apply(t, a)
  {
    var acts: seq<Action> :| AllowedRun(s, acts, c) && Run(s, acts) == t;
    Append(s, acts, a, c);
    u := Apply(t, a);
  }

  /** Where a thread stands in the race. `x` is the credit it sees, `b` the length of its batch. */
  datatype Stage = Rested | Begun | Ripe | Loaded | Parked

  predicate At(t: Thread, stage: Stage, x: int, now: int, b: nat) {
    && !t.riding
    && match stage
       case Rested => t.pc == Out && t.count == 0
       case Begun => t.pc == Out && t.count > 0 && t.start == now
       case Ripe => t.pc == Out && t.count > 0 && now - t.start == b
       case Loaded => t.pc == ChargeStart(ToGate(x)) && t.count > 0 && now - t.start == b
       case Parked => t.pc == BlockStart(x) && t.count == 0
  }

  /** What every thread does in turn, while no time passes. */
  datatype Phase = Borrow | Load | Charge | Pass | Settle

  function From(phase: Phase): Stage {
    match phase
    case Borrow => Rested
    case Load => Ripe
    case Charge => Loaded
    case Pass => Parked
    case Settle => Ripe
  }

  function To(phase: Phase): Stage {
    match phase
    case Borrow => Begun
    case Load => Loaded
    case Charge => Parked
    case Pass => Begun
    case Settle => Rested
  }

  function Cost(phase: Phase, c: Config): nat {
    if phase.Charge? || phase.Settle? then c.maxBatch else 0
  }

  predicate Enabled(phase: Phase, s: State, x: int, c: Config) {
    && Limited(s, c) && c.urgentEver && -(c.limit as int) < x <= 0
    && (phase.Borrow? || phase.Load? ==> s.credit == x)
    && (phase.Borrow? || phase.Pass? ==> s.urgent) && (phase.Load? ==> !s.urgent)
  }

  /** u is t with the record of thread i and the credit changed. */
  predicate Beside(t: State, u: State, i: nat, c: Config) {
    && Limited(u, c) && u.urgent == t.urgent && u.now == t.now && u.metrics == t.metrics
    && i < |t.threads| == |u.threads| && u.threads == t.threads[i := u.threads[i]]
  }

  /** The next step of thread i. */
  lemma GoOn(s: State, t: State, i: nat, c: Config) returns (u: State)
    requires Reach(s, t, c) && Limited(t, c) && i < |t.threads| && t.threads[i].pc != Out && Allowed(t, Go(i), c)
    ensures Reach(s, u, c) && Beside(t, u, i, c) && u.threads[i] == Own(t, t.threads[i])
    ensures u.credit == t.credit - (if t.threads[i].pc.SubCredit? then t.threads[i].pc.e else 0)
  {
    u := Step(s, t, Go(i), c);
  }

  lemma BesideTwice(t: State, u: State, v: State, i: nat, c: Config)
    requires Beside(t, u, i, c) && Beside(u, v, i, c)
    ensures Beside(t, v, i, c)
  {
  }

  /** Thread i enters the gate and loads a credit value that is not positive. */
  lemma LaunchInDebt(s: State, t: State, i: nat, c: Config) returns (u: State)
    requires Reach(s, t, c) && Limited(t, c) && i < |t.threads| && t.credit <= 0 && t.threads[i].pc == Out
    ensures Reach(s, u, c) && Beside(t, u, i, c) && u.credit == t.credit
    ensures u.threads[i] == t.threads[i].(pc := LoadPriority(t.credit))
  {
    var a := Step(s, t, Launch(i), c);
    var b := GoOn(s, a, i, c);
    u := GoOn(s, b, i, c);
  }

  /** An urgent launch on borrowed credit. */
  lemma BorrowOne(s: State, t: State, i: nat, c: Config) returns (u: State)
    requires Reach(s, t, c) && i < |t.threads| && Enabled(Borrow, t, t.credit, c)
    requires At(t.threads[i], Rested, t.credit, t.now, c.maxBatch)
    ensures Reach(s, u, c) && Beside(t, u, i, c) && u.credit == t.credit
    ensures At(u.threads[i], Begun, t.credit, t.now, c.maxBatch)
  {
    var a := LaunchInDebt(s, t, i, c);
    var b := PassLimit(s, a, i, c);
    BesideTwice(t, a, b, i, c);
    u := BatchStart(s, b, i, c);
    BesideTwice(t, b, u, i, c);
  }

  lemma PassLimit(s: State, t: State, i: nat, c: Config) returns (u: State)
    requires Reach(s, t, c) && i < |t.threads| && Enabled(Borrow, t, t.credit, c)
    requires t.threads[i].pc == LoadPriority(t.credit)
    ensures Reach(s, u, c) && Beside(t, u, i, c) && u.credit == t.credit
    ensures u.threads[i] == t.threads[i].(pc := Start(ByLoan))
  {
    var a := GoOn(s, t, i, c);
    assert a.threads[i] == t.threads[i].(pc := LoadLimit(t.credit));
    u := GoOn(s, a, i, c);
  }

  lemma BatchStart(s: State, t: State, i: nat, c: Config) returns (u: State)
    requires Reach(s, t, c) && Limited(t, c) && i < |t.threads| && t.threads[i].pc == Start(ByLoan)
    requires t.threads[i].count == 0 && !t.threads[i].riding
    ensures Reach(s, u, c) && Beside(t, u, i, c) && u.credit == t.credit
    ensures u.threads[i].pc == Out && u.threads[i].count > 0 && u.threads[i].start == t.now && !u.threads[i].riding
  {
    u := GoOn(s, t, i, c);
  }

  /** A launch under normal priority takes its value into the slow path. */
  lemma LoadOne(s: State, t: State, i: nat, c: Config) returns (u: State)
    requires Reach(s, t, c) && i < |t.threads| && Enabled(Load, t, t.credit, c)
    requires At(t.threads[i], Ripe, t.credit, t.now, c.maxBatch)
    ensures Reach(s, u, c) && Beside(t, u, i, c) && u.credit == t.credit
    ensures At(u.threads[i], Loaded, t.credit, t.now, c.maxBatch)
  {
    var a := LaunchInDebt(s, t, i, c);
    u := GoOn(s, a, i, c);
  }

  lemma Book(s: State, t: State, i: nat, ret: Return, c: Config) returns (u: State)
    requires Reach(s, t, c) && Limited(t, c) && i < |t.threads| && t.threads[i].pc == ChargeStart(ret)
    requires t.threads[i].count > 0 && !t.threads[i].riding && t.now - t.threads[i].start == c.maxBatch
    ensures Reach(s, u, c) && Beside(t, u, i, c) && u.credit == t.credit
    ensures u.threads[i].pc == ChargeUnlimited(c.maxBatch, ret)
  {
    var a := GoOn(s, t, i, c);
    assert a.threads[i].pc == AddTotal(c.maxBatch, ret);
    u := GoOn(s, a, i, c);
    BesideTwice(t, a, u, i, c);
  }

  lemma Pay(s: State, t: State, i: nat, ret: Return, c: Config) returns (u: State)
    requires Reach(s, t, c) && Limited(t, c) && i < |t.threads| && t.threads[i].pc == ChargeUnlimited(c.maxBatch, ret)
    ensures Reach(s, u, c) && Beside(t, u, i, c) && u.credit == t.credit - c.maxBatch
    ensures u.threads[i].pc == Back(ret) && u.threads[i].count == 0 && !u.threads[i].riding
  {
    var a := GoOn(s, t, i, c);
    assert a.threads[i].pc == SubCredit(c.maxBatch, ret);
    u := GoOn(s, a, i, c);
    BesideTwice(t, a, u, i, c);
  }

  /** A ripe batch is measured, booked and deducted. */
  lemma Deduct(s: State, t: State, i: nat, ret: Return, c: Config) returns (u: State)
    requires Reach(s, t, c) && Limited(t, c) && i < |t.threads| && t.threads[i].pc == ChargeStart(ret)
    requires t.threads[i].count > 0 && !t.threads[i].riding && t.now - t.threads[i].start == c.maxBatch
    ensures Reach(s, u, c) && Beside(t, u, i, c) && u.credit == t.credit - c.maxBatch
    ensures u.threads[i].pc == Back(ret) && u.threads[i].count == 0 && !u.threads[i].riding
  {
    var a := Book(s, t, i, ret, c);
    u := Pay(s, a, i, ret, c);
    BesideTwice(t, a, u, i, c);
  }

  /** The priority and the limit are read afresh. */
  lemma FreshLimit(s: State, t: State, i: nat, x: int, c: Config) returns (u: State, t0: int)
    requires Reach(s, t, c) && i < |t.threads| && Enabled(Pass, t, x, c) && t.threads[i].pc == BlockStart(x)
    ensures Reach(s, u, c) && Beside(t, u, i, c) && u.credit == t.credit
    ensures u.threads[i] == t.threads[i].(pc := WakeLimit(x, t0))
  {
    var a := GoOn(s, t, i, c);
    t0 := a.threads[i].pc.t0;
    assert a.threads[i] == t.threads[i].(pc := WakePriority(x, t0));
    u := GoOn(s, a, i, c);
  }

  /** The stale value passes the limit that was read after priority was raised. */
  lemma StalePass(s: State, t: State, i: nat, x: int, c: Config) returns (u: State)
    requires Reach(s, t, c) && i < |t.threads| && Enabled(Pass, t, x, c)
    requires At(t.threads[i], Parked, x, t.now, c.maxBatch)
    ensures Reach(s, u, c) && Beside(t, u, i, c) && u.credit == t.credit
    ensures u.threads[i].pc == Start(ByLoan) && u.threads[i].count == 0 && !u.threads[i].riding
  {
    var a, t0 := FreshLimit(s, t, i, x, c);
    var b := Compare(s, a, i, x, t0, c);
    BesideTwice(t, a, b, i, c);
    if b.threads[i].pc.Record? {
      u := Recorded(s, b, i, c);
      BesideTwice(t, b, u, i, c);
    } else {
      u := b;
    }
  }

  lemma Compare(s: State, t: State, i: nat, x: int, t0: int, c: Config) returns (u: State)
    requires Reach(s, t, c) && i < |t.threads| && Enabled(Pass, t, x, c) && t.threads[i].pc == WakeLimit(x, t0)
    ensures Reach(s, u, c) && Beside(t, u, i, c) && u.credit == t.credit
    ensures u.threads[i] == t.threads[i].(pc := if t.metrics then Record(t0, ByLoan) else Start(ByLoan))
  {
    var a := GoOn(s, t, i, c);
    assert a.threads[i] == t.threads[i].(pc := WaitCheck(x, -(c.limit as int), t0)) && a.metrics == t.metrics;
    u := GoOn(s, a, i, c);
    BesideTwice(t, a, u, i, c);
  }

  lemma Recorded(s: State, t: State, i: nat, c: Config) returns (u: State)
    requires Reach(s, t, c) && Limited(t, c) && i < |t.threads| && t.threads[i].pc.Record?
    ensures Reach(s, u, c) && Beside(t, u, i, c) && u.credit == t.credit
    ensures u.threads[i].pc == Start(t.threads[i].pc.how)
    ensures u.threads[i].count == t.threads[i].count && u.threads[i].riding == t.threads[i].riding
  {
    var a := GoOn(s, t, i, c);
    u := GoOn(s, a, i, c);
  }

  lemma PassOne(s: State, t: State, i: nat, x: int, c: Config) returns (u: State)
    requires Reach(s, t, c) && i < |t.threads| && Enabled(Pass, t, x, c)
    requires At(t.threads[i], Parked, x, t.now, c.maxBatch)
    ensures Reach(s, u, c) && Beside(t, u, i, c) && u.credit == t.credit
    ensures At(u.threads[i], Begun, x, t.now, c.maxBatch)
  {
    var a := StalePass(s, t, i, x, c);
    u := BatchStart(s, a, i, c);
    BesideTwice(t, a, u, i, c);
  }

  lemma SettleOne(s: State, t: State, i: nat, c: Config) returns (u: State)
    requires Reach(s, t, c) && Limited(t, c) && i < |t.threads| && At(t.threads[i], Ripe, 0, t.now, c.maxBatch)
    ensures Reach(s, u, c) && Beside(t, u, i, c) && u.credit == t.credit - c.maxBatch
    ensures At(u.threads[i], Rested, 0, t.now, c.maxBatch)
  {
    var a := Step(s, t, Sync(i), c);
    u := Deduct(s, a, i, ToSync, c);
  }

  lemma Advance(s: State, t: State, i: nat, phase: Phase, x: int, c: Config) returns (u: State)
    requires Reach(s, t, c) && i < |t.threads| && Enabled(phase, t, x, c)
    requires At(t.threads[i], From(phase), x, t.now, c.maxBatch)
    ensures Reach(s, u, c) && Beside(t, u, i, c) && u.credit == t.credit - Cost(phase, c)
    ensures At(u.threads[i], To(phase), x, t.now, c.maxBatch)
  {
    match phase
    case Borrow => u := BorrowOne(s, t, i, c);
    case Load => u := LoadOne(s, t, i, c);
    case Charge => u := Deduct(s, t, i, ToGate(x), c);
    case Pass => u := PassOne(s, t, i, x, c);
    case Settle => u := SettleOne(s, t, i, c);
  }

  predicate AllAt(s: State, lo: nat, hi: nat, stage: Stage, x: int, c: Config)
    requires lo <= hi <= |s.threads|
  {
    forall j :: lo <= j < hi ==> At(s.threads[j], stage, x, s.now, c.maxBatch)
  }

  /** The threads from k on go through the phase one after another. */
  lemma {:induction false} AdvanceFrom(s: State, t: State, k: nat, phase: Phase, x: int, c: Config) returns (u: State)
    requires Reach(s, t, c) && k <= |t.threads| && Enabled(phase, t, x, c)
    requires AllAt(t, 0, k, To(phase), x, c) && AllAt(t, k, |t.threads|, From(phase), x, c)
    ensures Reach(s, u, c) && Limited(u, c) && u.urgent == t.urgent && u.now == t.now && |u.threads| == |t.threads|
    ensures AllAt(u, 0, |u.threads|, To(phase), x, c)
    ensures u.credit == t.credit - (|t.threads| - k) * Cost(phase, c)
    decreases |t.threads| - k
  {
    if k == |t.threads| {
      u := t;
    } else {
      var v := Advance(s, t, k, phase, x, c);
      u := AdvanceFrom(s, v, k + 1, phase, x, c);
      assert (|t.threads| - k) * Cost(phase, c) == Cost(phase, c) + (|t.threads| - (k + 1)) * Cost(phase, c);
    }
  }

  /** The whole phase. */
  lemma AdvanceAll(s: State, t: State, phase: Phase, x: int, c: Config) returns (u: State)
    requires Reach(s, t, c) && Enabled(phase, t, x, c) && AllAt(t, 0, |t.threads|, From(phase), x, c)
    ensures Reach(s, u, c) && Limited(u, c) && u.urgent == t.urgent && |u.threads| == |t.threads|
    ensures AllAt(u, 0, |u.threads|, To(phase), x, c) && u.credit == t.credit - |t.threads| * Cost(phase, c)
  {
    u := AdvanceFrom(s, t, 0, phase, x, c);
  }

  /** All batches run their length. */
  lemma Ripen(s: State, t: State, x: int, c: Config) returns (u: State)
    requires Reach(s, t, c) && Limited(t, c) && AllAt(t, 0, |t.threads|, Begun, x, c)
    ensures Reach(s, u, c) && Limited(u, c) && u.urgent == t.urgent
    ensures |u.threads| == |t.threads| && u.credit == t.credit
    ensures AllAt(u, 0, |u.threads|, Ripe, x, c)
  {
    u := Step(s, t, Tick(c.maxBatch), c);
    assert forall j :: 0 <= j < |t.threads| ==> At(t.threads[j], Begun, x, t.now, c.maxBatch);
  }

  lemma SetPriority(s: State, t: State, on: bool, stage: Stage, x: int, c: Config) returns (u: State)
    requires Reach(s, t, c) && Limited(t, c) && c.urgentEver && AllAt(t, 0, |t.threads|, stage, x, c)
    ensures Reach(s, u, c) && Limited(u, c) && u.urgent == on && |u.threads| == |t.threads| && u.credit == t.credit
    ensures AllAt(u, 0, |u.threads|, stage, x, c)
  {
    u := Step(s, t, PrioritySet(on), c);
    assert forall j :: 0 <= j < |t.threads| ==> At(t.threads[j], stage, x, t.now, c.maxBatch);
  }

  function RaceStart(c: Config, n: nat): State {
    State(false, false, 1 - c.limit, true, c.limit, false, false, 0, false, 0, 0, 0, 0, 0,
          seq(n, _ => Thread(Out, 0, 0, false, [], [])))
  }

  /** First half: everybody borrows, and takes what it saw into the slow path before anybody has paid. */
  lemma FirstHalf(c: Config, n: nat) returns (t: State)
    requires c.urgentEver && c.limit >= 1
    ensures Reach(RaceStart(c, n), t, c) && Limited(t, c) && !t.urgent && |t.threads| == n
    ensures AllAt(t, 0, n, Loaded, 1 - c.limit, c) && t.credit == 1 - c.limit
  {
    var s, x := RaceStart(c, n), 1 - c.limit;
    assert AllowedRun(s, [], c) && Run(s, []) == s;
    t := AdvanceAll(s, s, Borrow, x, c);
    t := Ripen(s, t, x, c);
    t := SetPriority(s, t, false, Ripe, x, c);
    t := AdvanceAll(s, t, Load, x, c);
  }

  /** Second half: everybody pays, passes on the stale value, and pays again. */
  lemma SecondHalf(s: State, t: State, c: Config) returns (u: State)
    requires c.urgentEver && c.limit >= 1 && Reach(s, t, c) && Limited(t, c)
    requires AllAt(t, 0, |t.threads|, Loaded, 1 - c.limit, c)
    ensures Reach(s, u, c) && |u.threads| == |t.threads| && AllAt(u, 0, |u.threads|, Rested, 1 - c.limit, c)
    ensures u.credit == t.credit - |t.threads| * c.maxBatch - |t.threads| * c.maxBatch
  {
    var x := 1 - c.limit;
    var a := AdvanceAll(s, t, Charge, x, c);
    var b := SetPriority(s, a, true, Parked, x, c);
    var d := AdvanceAll(s, b, Pass, x, c);
    var e := Ripen(s, d, x, c);
    u := AdvanceAll(s, e, Settle, x, c);
  }

  ghost predicate RaceEnds(u: State, c: Config, n: nat) {
    && |u.threads| == n && (forall j :: 0 <= j < n ==> !Open(u.threads[j], c))
    && u.credit == 1 - c.limit - n * (2 * c.maxBatch)
  }

  /** For every limit L >= 1, batch length B and N, the threads together bring credit to 1 - L - 2 * N * B,
      the least value that the general bound admits. */
  lemma RaceHappens(c: Config, n: nat)
    requires c.urgentEver && c.limit >= 1
    ensures Quiet(RaceStart(c, n), c) && |RaceStart(c, n).threads| == n
    ensures exists u :: Reach(RaceStart(c, n), u, c) && RaceEnds(u, c, n)
  {
    var t := FirstHalf(c, n);
    var u := SecondHalf(RaceStart(c, n), t, c);
    assert n * c.maxBatch + n * c.maxBatch == n * (2 * c.maxBatch);
    forall j | 0 <= j < n ensures !Open(u.threads[j], c) {
      assert At(u.threads[j], Rested, 1 - c.limit, u.now, c.maxBatch);
    }
    assert RaceEnds(u, c, n);
  }

  // ---- Exactly when the loan bound holds ----

  /** The loan bound on n threads, for every run with priority changed at will. */
  ghost predicate LoanHolds(c: Config, n: nat) {
    forall s: State, acts: seq<Action> ::
      Quiet(s, c) && |s.threads| == n && AllowedRun(s, acts, c) ==> Bounded(Run(s, acts), c)
  }

  lemma {:induction false} NeverUrgentRun(s: State, acts: seq<Action>, c: Config)
    requires AllowedRun(s, acts, c) && !c.urgentEver
    ensures CarefulRun(s, acts, c)
    decreases |acts|
  {
    if acts != [] {
      NeverUrgentRun(Apply(s, acts[0]), acts[1..], c);
    }
  }

  lemma SlackOfClosed(u: State, c: Config, n: nat)
    requires RaceEnds(u, c, n)
    ensures Total(u.threads, Slack(c)) == n * c.maxBatch
  {
    TotalSame(u.threads, Slack(c), (_: Thread) => c.maxBatch as int);
    ConstantTotal(u.threads, c.maxBatch);
  }

  lemma {:induction false} ConstantTotal(ts: seq<Thread>, b: int)
    ensures Total(ts, (_: Thread) => b) == |ts| * b
  {
    if ts != [] {
      ConstantTotal(ts[1..], b);
      assert |ts| * b == b + (|ts| - 1) * b;
    }
  }

  lemma LoanFails(c: Config, n: nat)
    requires c.urgentEver && c.limit >= 1 && n * c.maxBatch >= 1
    ensures !LoanHolds(c, n)
  {
    RaceHappens(c, n);
    var s := RaceStart(c, n);
    var u :| Reach(s, u, c) && RaceEnds(u, c, n);
    var acts: seq<Action> :| AllowedRun(s, acts, c) && Run(s, acts) == u;
    SlackOfClosed(u, c, n);
    var once := n * c.maxBatch;
    assert n * (2 * c.maxBatch) == once + once;
    assert !Bounded(Run(s, acts), c);
  }

  lemma LoanOnRun(s: State, acts: seq<Action>, c: Config)
    requires Quiet(s, c) && AllowedRun(s, acts, c)
    requires c.limit == 0 || !c.urgentEver || |s.threads| * c.maxBatch == 0
    ensures Bounded(Run(s, acts), c)
  {
    if c.limit == 0 || !c.urgentEver {
      QuietInv(s, c);
      if c.limit == 0 { NoLimitRun(s, acts, c); } else { NeverUrgentRun(s, acts, c); }
      InvRun(s, acts, c);
    } else {
      RaceBound(s, acts, c);
      assert |s.threads| * (2 * c.maxBatch) == |s.threads| * c.maxBatch + |s.threads| * c.maxBatch;
      NonNegative(Run(s, acts).threads, Slack(c));
    }
  }

  /** Without care about when priority is raised, the loan bound holds on n threads exactly when the limit
      is zero, URGENT never occurs, or there is nothing to charge. */
  lemma LoanHoldsIff(c: Config, n: nat)
    ensures LoanHolds(c, n) <==> c.limit == 0 || !c.urgentEver || n * c.maxBatch == 0
  {
    if c.limit == 0 || !c.urgentEver || n * c.maxBatch == 0 {
      forall s: State, acts: seq<Action> | Quiet(s, c) && |s.threads| == n && AllowedRun(s, acts, c)
        ensures Bounded(Run(s, acts), c)
      {
        LoanOnRun(s, acts, c);
      }
    } else {
      LoanFails(c, n);
    }
  }
}
