/** How much time threads can use beyond what was granted. */
module TimeLoan {
  import opened Sums
  import opened TimeGate
  import Ledger = TimeLedger

  /** The fixed urgent limit, whether URGENT is ever declared, and the longest billed batch. */
  datatype Config = Config(limit: nat, urgentEver: bool, maxBatch: nat)

  function Loan(c: Config): int {
    if c.urgentEver then c.limit else 0
  }

  // ---- What the runs may contain ----

  /** No boost, no resets, the urgent limit stays, refills are not negative, billed batches are bounded. */
  predicate Allowed(s: State, a: Action, c: Config) {
    match a
    case TimeAdd(v) => v >= 0
    case PrioritySet(on) => on ==> c.urgentEver
    case UrgentLimit(_) => false
    case StoreUnlimited(_) => false
    case StoreCredit(_) => false
    case Boost(_) => false
    case Go(i) =>
      i < |s.threads| && s.threads[i].pc.ChargeStart? && s.threads[i].count > 0 && !s.threads[i].riding ==>
        s.now - s.threads[i].start <= c.maxBatch
    case _ => true
  }

  /** A credit value that the slow path of the gate still carries although the batch may be charged since. */
  predicate Carries(pc: Pc, x: int) {
    match pc
    case ChargeStart(ret) => ret == ToGate(x)
    case AddExtra(_, ret) => ret == ToGate(x)
    case AddTotal(_, ret) => ret == ToGate(x)
    case ChargeUnlimited(_, ret) => ret == ToGate(x)
    case SubCredit(_, ret) => ret == ToGate(x)
    case BlockStart(c) => c == x
    case WakePriority(c, _) => c == x
    case _ => false
  }

  /** Priority is not raised to URGENT while a thread in the slow path carries a value within the limit. */
  ghost predicate Careful(s: State, a: Action, c: Config) {
    a.PrioritySet? && a.on ==>
      forall i, x :: 0 <= i < |s.threads| && Carries(s.threads[i].pc, x) ==> x <= -(c.limit as int)
  }

  ghost predicate AllowedRun(s: State, acts: seq<Action>, c: Config)
    decreases |acts|
  {
    acts == [] || (Allowed(s, acts[0], c) && AllowedRun(Apply(s, acts[0]), acts[1..], c))
  }

  ghost predicate CarefulRun(s: State, acts: seq<Action>, c: Config)
    decreases |acts|
  {
    acts == [] || (Careful(s, acts[0], c) && CarefulRun(Apply(s, acts[0]), acts[1..], c))
  }

  ghost predicate Quiet(s: State, c: Config) {
    && !s.boost && !s.unlimited && s.limit == c.limit && (s.urgent ==> c.urgentEver)
    && s.credit > -Loan(c)
    && (forall k :: 0 <= k < |s.threads| ==> Ledger.NewThread(s.threads[k]))
  }

  // ---- Open threads ----

  /** The value loaded at the gate lets the thread through, or may still do so. */
  predicate Holding(pc: Pc, c: Config) {
    match pc
    case LoadPriority(x) => x > -Loan(c)
    case LoadLimit(x) => x > -Loan(c)
    case WaitCheck(x, wake, _) => x > wake
    case Record(_, _) => true
    case AddBlocked(_, _) => true
    case Start(_) => true
    case _ => false
  }

  /** Past the gate or in a batch, and not riding: such a thread may still charge one batch. */
  predicate Open(t: Thread, c: Config) {
    !t.riding && (t.count > 0 || Holding(t.pc, c))
  }

  function Slack(c: Config): Thread -> int {
    t => if Open(t, c) then 0 else c.maxBatch
  }

  ghost predicate Bounded(s: State, c: Config) {
    s.credit > -Loan(c) - Total(s.threads, Slack(c))
  }

  // ---- The invariant ----

  predicate Stale(x: int, urgent: bool, c: Config) {
    x <= 0 && (urgent ==> x <= -(c.limit as int))
  }

  predicate Lingers(ret: Return, urgent: bool, c: Config) {
    ret.ToGate? ==> Stale(ret.c, urgent, c)
  }

  predicate WakeOk(wake: int, c: Config) {
    wake == 0 || (c.urgentEver && wake == -(c.limit as int))
  }

  predicate LoanOk(t: Thread, urgent: bool, c: Config) {
    match t.pc
    case LoadPriority(x) => x <= 0
    case LoadLimit(x) => x <= 0 && c.urgentEver
    case ChargeStart(ret) => Lingers(ret, urgent, c)
    case AddExtra(_, ret) => Lingers(ret, urgent, c)
    case AddTotal(e, ret) => e <= c.maxBatch && Lingers(ret, urgent, c)
    case ChargeUnlimited(e, ret) => e <= c.maxBatch && Lingers(ret, urgent, c)
    case SubCredit(e, ret) => e <= c.maxBatch && Lingers(ret, urgent, c)
    case BlockStart(x) => Stale(x, urgent, c)
    case WakePriority(x, _) => Stale(x, urgent, c)
    case WakeLimit(x, _) => c.urgentEver && x <= -(c.limit as int)
    case WaitCheck(_, wake, _) => WakeOk(wake, c)
    case RideOn(wake, _) => WakeOk(wake, c)
    case RidePeer(wake, _) => WakeOk(wake, c)
    case RideClock(wake, _) => WakeOk(wake, c)
    case RideFresh(wake, _, _) => WakeOk(wake, c)
    case WaitUnlimited(wake, _) => WakeOk(wake, c)
    case Reload(wake, _) => WakeOk(wake, c)
    case _ => true
  }

  ghost predicate Inv(s: State, c: Config) {
    && !s.boost && !s.unlimited && s.limit == c.limit && (s.urgent ==> c.urgentEver)
    && (forall i :: 0 <= i < |s.threads| ==> ThreadOk(s.threads[i]) && LoanOk(s.threads[i], s.urgent, c))
    && Bounded(s, c)
  }

  predicate Limited(s: State, c: Config) {
    !s.boost && !s.unlimited && s.limit == c.limit && (s.urgent ==> c.urgentEver)
  }

  /** The batch that the thread is about to measure is no longer than B. */
  predicate Short(s: State, t: Thread, c: Config) {
    t.pc.ChargeStart? && t.count > 0 && !t.riding ==> s.now - t.start <= c.maxBatch
  }

  lemma LoanOkEnter(s: State, t: Thread, c: Config)
    requires Limited(s, c) && LoanOk(t, s.urgent, c) && !InBlock(t.pc) && !Paying(t.pc)
    ensures LoanOk(OwnEnter(s, t), s.urgent, c)
  {
  }

  lemma LoanOkCharge(s: State, t: Thread, c: Config)
    requires Limited(s, c) && ThreadOk(t) && LoanOk(t, s.urgent, c) && Paying(t.pc) && Short(s, t, c)
    ensures LoanOk(OwnCharge(s, t), s.urgent, c)
  {
  }

  lemma LoanOkWait(s: State, t: Thread, c: Config)
    requires Limited(s, c) && LoanOk(t, s.urgent, c) && InBlock(t.pc)
    ensures LoanOk(OwnWait(s, t), s.urgent, c)
  {
  }

  lemma LoanOkStep(s: State, a: Action, c: Config)
    requires Moves(s, a) && Allowed(s, a, c) && Limited(s, c)
    requires ThreadOk(s.threads[a.i]) && LoanOk(s.threads[a.i], s.urgent, c)
    ensures LoanOk(After(s, a), s.urgent, c)
  {
    var t := s.threads[a.i];
    if a.Go? {
      if InBlock(t.pc) {
        LoanOkWait(s, t, c);
      } else if Paying(t.pc) {
        LoanOkCharge(s, t, c);
      } else {
        LoanOkEnter(s, t, c);
      }
    }
  }

  /** Either the thread gives up as much slack as credit falls, or it has just seen enough credit. */
  lemma SlackStep(s: State, a: Action, c: Config)
    requires Moves(s, a) && Allowed(s, a, c) && Limited(s, c)
    requires ThreadOk(s.threads[a.i]) && LoanOk(s.threads[a.i], s.urgent, c)
    ensures var t, t', s' := s.threads[a.i], After(s, a), Apply(s, a);
            s'.credit + Slack(c)(t') >= s.credit + Slack(c)(t) || s'.credit > -Loan(c)
  {
  }

  lemma InvStep(s: State, a: Action, c: Config)
    requires Inv(s, c) && Allowed(s, a, c) && Careful(s, a, c)
    ensures Inv(Apply(s, a), c) && |Apply(s, a).threads| == |s.threads|
  {
    OneThread(s, a);
    var s' := Apply(s, a);
    if Moves(s, a) {
      assert ThreadOk(s.threads[a.i]) && LoanOk(s.threads[a.i], s.urgent, c);
      ThreadOkStep(s, a);
      LoanOkStep(s, a, c);
      SlackStep(s, a, c);
      TotalUpdate(s.threads, a.i, After(s, a), Slack(c));
      NonNegative(s'.threads, Slack(c));
    } else if a.PrioritySet? && a.on {
      forall i | 0 <= i < |s.threads| ensures LoanOk(s.threads[i], true, c) {
        CarefulLoanOk(s, a, c, i);
      }
    }
  }

  lemma CarefulLoanOk(s: State, a: Action, c: Config, i: nat)
    requires a == PrioritySet(true) && Careful(s, a, c) && i < |s.threads| && LoanOk(s.threads[i], s.urgent, c)
    ensures LoanOk(s.threads[i], true, c)
  {
    var pc := s.threads[i].pc;
    match pc
    case ChargeStart(ret) => if ret.ToGate? { assert Carries(pc, ret.c); }
    case AddExtra(_, ret) => if ret.ToGate? { assert Carries(pc, ret.c); }
    case AddTotal(_, ret) => if ret.ToGate? { assert Carries(pc, ret.c); }
    case ChargeUnlimited(_, ret) => if ret.ToGate? { assert Carries(pc, ret.c); }
    case SubCredit(_, ret) => if ret.ToGate? { assert Carries(pc, ret.c); }
    case BlockStart(x) => assert Carries(pc, x);
    case WakePriority(x, _) => assert Carries(pc, x);
    case _ =>
  }

  lemma {:induction false} InvRun(s: State, acts: seq<Action>, c: Config)
    requires Inv(s, c) && AllowedRun(s, acts, c) && CarefulRun(s, acts, c)
    ensures Inv(Run(s, acts), c) && |Run(s, acts).threads| == |s.threads|
    decreases |acts|
  {
    if acts != [] {
      InvStep(s, acts[0], c);
      InvRun(Apply(s, acts[0]), acts[1..], c);
    }
  }

  lemma QuietInv(s: State, c: Config)
    requires Quiet(s, c)
    ensures Inv(s, c)
  {
    NonNegative(s.threads, Slack(c));
  }

  // ---- The bound ----

  function OpenCount(c: Config): Thread -> int {
    t => if Open(t, c) then 1 else 0
  }

  lemma {:induction false} SlackCounts(ts: seq<Thread>, c: Config)
    ensures Total(ts, Slack(c)) == (|ts| - Total(ts, OpenCount(c))) * c.maxBatch
  {
    if ts != [] {
      SlackCounts(ts[1..], c);
      var n := |ts[1..]| - Total(ts[1..], OpenCount(c));
      assert (n + 1) * c.maxBatch == n * c.maxBatch + c.maxBatch;
    }
  }

  function Exposure(c: Config): Thread -> int {
    t => Slack(c)(t) + Ledger.Owed(t)
  }

  lemma {:induction false} ExposureSum(ts: seq<Thread>, c: Config)
    ensures Total(ts, Exposure(c)) == Total(ts, Slack(c)) + Total(ts, Ledger.Owed)
  {
    if ts != [] {
      ExposureSum(ts[1..], c);
    }
  }

  /** For N threads and every interleaving in which priority is raised carefully: credit stays above
      -L - (N - open) * B, so the time billed stays below starting credit + grants + L + N * B,
      with L = 0 if URGENT is never declared. */
  lemma LoanBound(s: State, acts: seq<Action>, c: Config)
    requires Quiet(s, c) && AllowedRun(s, acts, c) && CarefulRun(s, acts, c)
    ensures var e, n := Run(s, acts), |s.threads|;
            && |e.threads| == n
            && e.credit > -Loan(c) - (n - Total(e.threads, OpenCount(c))) * c.maxBatch
            && e.total - s.total < s.credit + (e.granted - s.granted) + Loan(c) + n * c.maxBatch
  {
    QuietInv(s, c);
    InvRun(s, acts, c);
    var e := Run(s, acts);
    SlackCounts(e.threads, c);
    AllowedLedger(s, acts, c);
    TotalBounds(s.threads, Ledger.Owed, 0, 0);
    ExposureSum(e.threads, c);
    ExposureBound(e.threads, c);
  }

  lemma ExposureBound(ts: seq<Thread>, c: Config)
    requires forall i :: 0 <= i < |ts| ==> ThreadOk(ts[i]) && (LoanOk(ts[i], true, c) || LoanOk(ts[i], false, c))
    ensures Total(ts, Exposure(c)) <= |ts| * c.maxBatch
  {
    forall i | 0 <= i < |ts| ensures Exposure(c)(ts[i]) <= c.maxBatch {
      var t := ts[i];
      assert ThreadOk(t) && (LoanOk(t, true, c) || LoanOk(t, false, c));
      assert Exposure(c)(t) == Slack(c)(t) + Ledger.Owed(t);
    }
    TotalAtMost(ts, Exposure(c), c.maxBatch);
  }

  lemma {:induction false} AllowedLedger(s: State, acts: seq<Action>, c: Config)
    requires !s.unlimited && AllowedRun(s, acts, c)
    ensures Ledger.Balance(Run(s, acts)) == Ledger.Balance(s)
    decreases |acts|
  {
    if acts != [] {
      Ledger.BalanceStep(s, acts[0]);
      AllowedLedger(Apply(s, acts[0]), acts[1..], c);
    }
  }
}
