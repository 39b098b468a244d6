/** The time-credit gate of libbless: N threads launch kernels, measure batches of them between
    synchronisations, and charge the measured time to one shared balance that the control loop refills.
    One step is one access to shared memory or to the clock. */
module TimeGate {

  const FRESH_US := 20000

  /** Why a kernel was let through. */
  datatype Admission = ByBoost | ByUnlimited | ByCredit | ByLoan | ByRide

  /** A closed stretch of one thread's time. `admits` lists the kernels of a batch. */
  datatype Kind = Billed | Riding | Blocked
  datatype Window = Window(kind: Kind, from: int, to: int, admits: seq<Admission>)

  /** Where time_batch_end_and_charge returns to; the gate keeps the credit value it loaded. */
  datatype Return = ToSync | ToGate(c: int)

  datatype Pc =
    | Out
    | LoadUnlimited | LoadCredit | LoadPriority(c: int) | LoadLimit(c: int)
    | ChargeStart(ret: Return) | AddExtra(e: int, ret: Return)
    | AddTotal(e: int, ret: Return) | ChargeUnlimited(e: int, ret: Return) | SubCredit(e: int, ret: Return)
    | BlockStart(c: int) | WakePriority(c: int, t0: int) | WakeLimit(c: int, t0: int)
    | WaitCheck(c: int, wake: int, t0: int)
    | RideOn(wake: int, t0: int) | RidePeer(wake: int, t0: int)
    | RideClock(wake: int, t0: int) | RideFresh(wake: int, t0: int, at: int)
    | WaitUnlimited(wake: int, t0: int) | Reload(wake: int, t0: int)
    | Record(t0: int, how: Admission) | AddBlocked(e: int, how: Admission)
    | Start(how: Admission)

  /** Thread-local batch variables; `admits` and `windows` are history. */
  datatype Thread = Thread(pc: Pc, start: int, count: nat, riding: bool,
                           admits: seq<Admission>, windows: seq<Window>)

  datatype State = State(boost: bool, unlimited: bool, credit: int, urgent: bool, limit: int,
                         wcOn: bool, peerIdle: bool, peerIdleAt: int, metrics: bool, now: int,
                         total: int, extra: int, blocked: int, granted: int, threads: seq<Thread>)

  datatype Action =
    | Launch(i: nat) | Sync(i: nat) | Go(i: nat)
    | Tick(d: nat)
    | TimeAdd(v: int) | PrioritySet(on: bool) | UrgentLimit(lim: nat) | PeerIdle(on: bool) | PeerStamp(at: int)
    | StoreUnlimited(on: bool) | StoreCredit(v: int) | Boost(on: bool)

  function Back(ret: Return): Pc {
    match ret
    case ToSync => Out
    case ToGate(c) => BlockStart(c)
  }

  function ResetBatch(t: Thread, ret: Return): Thread {
    t.(pc := Back(ret), start := 0, count := 0, riding := false, admits := [])
  }

  /** Through the gate, by way of bless_gate_block_record if metrics are on. */
  function Unblock(s: State, t: Thread, t0: int, how: Admission): Thread {
    t.(pc := if s.metrics then Record(t0, how) else Start(how))
  }

  /** The fast path of the gate, and time_batch_start. */
  function OwnEnter(s: State, t: Thread): Thread {
    match t.pc
    case LoadUnlimited => t.(pc := if s.unlimited then Start(ByUnlimited) else LoadCredit)
    case LoadCredit => t.(pc := if s.credit > 0 then Start(ByCredit) else LoadPriority(s.credit))
    case LoadPriority(c) => t.(pc := if s.urgent then LoadLimit(c) else ChargeStart(ToGate(c)))
    case LoadLimit(c) => t.(pc := if c > -s.limit then Start(ByLoan) else ChargeStart(ToGate(c)))
    case Start(how) =>
      t.(pc := Out, start := if t.count == 0 then s.now else t.start, count := t.count + 1, admits := t.admits + [how])
    case _ => t
  }

  /** time_batch_end_and_charge. */
  function OwnCharge(s: State, t: Thread): Thread {
    match t.pc
    case ChargeStart(ret) =>
      if t.count == 0 then t.(pc := Back(ret))
      else
        var e := s.now - t.start;
        t.(pc := if t.riding then AddExtra(e, ret) else AddTotal(e, ret),
           windows := t.windows + [Window(if t.riding then Riding else Billed, t.start, s.now, t.admits)])
    case AddExtra(_, ret) => ResetBatch(t, ret)
    case AddTotal(e, ret) => t.(pc := ChargeUnlimited(e, ret))
    case ChargeUnlimited(e, ret) => if s.unlimited then ResetBatch(t, ret) else t.(pc := SubCredit(e, ret))
    case SubCredit(_, ret) => ResetBatch(t, ret)
    case _ => t
  }

  /** The slow path of the gate after the charge. */
  function OwnWait(s: State, t: Thread): Thread {
    match t.pc
    case BlockStart(c) => t.(pc := WakePriority(c, if s.metrics then s.now else 0))
    case WakePriority(c, t0) => t.(pc := if s.urgent then WakeLimit(c, t0) else WaitCheck(c, 0, t0))
    case WakeLimit(c, t0) => t.(pc := WaitCheck(c, -s.limit, t0))
    case WaitCheck(c, wake, t0) =>
      if c > wake then Unblock(s, t, t0, if wake < 0 then ByLoan else ByCredit) else t.(pc := RideOn(wake, t0))
    case RideOn(wake, t0) => t.(pc := if s.wcOn then RidePeer(wake, t0) else WaitUnlimited(wake, t0))
    case RidePeer(wake, t0) => t.(pc := if s.peerIdle then RideClock(wake, t0) else WaitUnlimited(wake, t0))
    case RideClock(wake, t0) => t.(pc := RideFresh(wake, t0, s.now))
    case RideFresh(wake, t0, at) =>
      if at - s.peerIdleAt < FRESH_US then Unblock(s, t, t0, ByRide).(riding := true)
      else t.(pc := WaitUnlimited(wake, t0))
    case WaitUnlimited(wake, t0) =>
      if s.unlimited then Unblock(s, t, t0, ByUnlimited) else t.(pc := Reload(wake, t0))
    case Reload(wake, t0) => t.(pc := WaitCheck(s.credit, wake, t0))
    case Record(t0, how) =>
      t.(pc := AddBlocked(s.now - t0, how), windows := t.windows + [Window(Blocked, t0, s.now, [])])
    case AddBlocked(_, how) => t.(pc := Start(how))
    case _ => t
  }

  /** The thread's own record after its next step. */
  function Own(s: State, t: Thread): Thread {
    if InBlock(t.pc) then OwnWait(s, t)
    else if Paying(t.pc) then OwnCharge(s, t)
    else OwnEnter(s, t)
  }

  function ThreadStep(s: State, i: nat): State
    requires i < |s.threads|
  {
    var t := s.threads[i];
    s.(threads := s.threads[i := Own(s, t)],
       total := if t.pc.AddTotal? then s.total + t.pc.e else s.total,
       extra := if t.pc.AddExtra? then s.extra + t.pc.e else s.extra,
       credit := if t.pc.SubCredit? then s.credit - t.pc.e else s.credit,
       blocked := if t.pc.AddBlocked? then s.blocked + t.pc.e else s.blocked)
  }

  function Goto(s: State, i: nat, pc: Pc): State
    requires i < |s.threads|
  {
    s.(threads := s.threads[i := s.threads[i].(pc := pc)])
  }

  function Apply(s: State, a: Action): State {
    match a
    case Launch(i) =>
      if i < |s.threads| && s.threads[i].pc == Out
      then Goto(s, i, if s.boost then Start(ByBoost) else LoadUnlimited) else s
    case Sync(i) => if i < |s.threads| && s.threads[i].pc == Out then Goto(s, i, ChargeStart(ToSync)) else s
    case Go(i) => if i < |s.threads| && s.threads[i].pc != Out then ThreadStep(s, i) else s
    case Tick(d) => s.(now := s.now + d)
    case TimeAdd(v) => s.(credit := s.credit + v, granted := s.granted + v)
    case PrioritySet(on) => s.(urgent := on)
    case UrgentLimit(v) => s.(limit := v)
    case PeerIdle(v) => s.(peerIdle := v)
    case PeerStamp(at) => s.(peerIdleAt := at)
    case StoreUnlimited(v) => s.(unlimited := v)
    case StoreCredit(v) => s.(credit := v)
    case Boost(v) => s.(boost := v)
  }

  function Run(s: State, acts: seq<Action>): State
    decreases |acts|
  {
    if acts == [] then s else Run(Apply(s, acts[0]), acts[1..])
  }

  /** Thread a.i takes a step of its own. */
  predicate Moves(s: State, a: Action) {
    match a
    case Launch(i) => i < |s.threads| && s.threads[i].pc == Out
    case Sync(i) => i < |s.threads| && s.threads[i].pc == Out
    case Go(i) => i < |s.threads| && s.threads[i].pc != Out
    case _ => false
  }

  function After(s: State, a: Action): Thread
    requires Moves(s, a)
  {
    var t := s.threads[a.i];
    match a
    case Launch(_) => t.(pc := if s.boost then Start(ByBoost) else LoadUnlimited)
    case Sync(_) => t.(pc := ChargeStart(ToSync))
    case Go(_) => Own(s, t)
  }

  lemma OneThread(s: State, a: Action)
    ensures Apply(s, a).threads == if Moves(s, a) then s.threads[a.i := After(s, a)] else s.threads
  {
  }

  // ---- Where a thread is ----

  /** Past the charge and inside the waiting part of the gate. */
  predicate InBlock(pc: Pc) {
    pc.BlockStart? || pc.WakePriority? || pc.WakeLimit? || pc.WaitCheck? ||
    pc.RideOn? || pc.RidePeer? || pc.RideClock? || pc.RideFresh? || pc.WaitUnlimited? || pc.Reload? ||
    pc.Record? || pc.AddBlocked?
  }

  /** In time_batch_end_and_charge. */
  predicate Paying(pc: Pc) {
    pc.ChargeStart? || InCharge(pc)
  }

  /** Let through by the ride, with the kernel not yet in the batch. */
  predicate Rides(pc: Pc) {
    (pc.Record? || pc.AddBlocked? || pc.Start?) && pc.how == ByRide
  }

  /** Its measured window is closed but not yet reset. */
  predicate InCharge(pc: Pc) {
    pc.AddExtra? || pc.AddTotal? || pc.ChargeUnlimited? || pc.SubCredit?
  }

  /** What links the riding flag to the kernels of the batch. */
  predicate ThreadOk(t: Thread) {
    && |t.admits| == t.count
    && (t.riding <==> ByRide in t.admits || Rides(t.pc))
    && (Rides(t.pc) || InBlock(t.pc) ==> t.count == 0)
    && (InCharge(t.pc) ==> t.count > 0 && (t.pc.AddExtra? <==> t.riding))
  }

  ghost predicate ThreadsOk(s: State) {
    forall i :: 0 <= i < |s.threads| ==> ThreadOk(s.threads[i])
  }

  lemma ThreadOkEnter(s: State, t: Thread)
    requires ThreadOk(t) && !InBlock(t.pc) && !Paying(t.pc)
    ensures ThreadOk(OwnEnter(s, t))
  {
    if t.pc.Start? {
      assert forall x :: x in t.admits + [t.pc.how] <==> x in t.admits || x == t.pc.how;
    }
  }

  lemma ThreadOkCharge(s: State, t: Thread)
    requires ThreadOk(t) && Paying(t.pc)
    ensures ThreadOk(OwnCharge(s, t))
  {
  }

  lemma ThreadOkWait(s: State, t: Thread)
    requires ThreadOk(t) && InBlock(t.pc)
    ensures ThreadOk(OwnWait(s, t))
  {
  }

  lemma ThreadOkStep(s: State, a: Action)
    requires Moves(s, a) && ThreadOk(s.threads[a.i])
    ensures ThreadOk(After(s, a))
  {
    var t := s.threads[a.i];
    if a.Go? {
      if InBlock(t.pc) {
        ThreadOkWait(s, t);
      } else if Paying(t.pc) {
        ThreadOkCharge(s, t);
      } else {
        ThreadOkEnter(s, t);
      }
    }
  }

  lemma {:induction false} ThreadsOkRun(s: State, acts: seq<Action>)
    requires ThreadsOk(s)
    ensures ThreadsOk(Run(s, acts)) && |Run(s, acts).threads| == |s.threads|
    decreases |acts|
  {
    if acts != [] {
      OneThread(s, acts[0]);
      if Moves(s, acts[0]) {
        ThreadOkStep(s, acts[0]);
      }
      ThreadsOkRun(Apply(s, acts[0]), acts[1..]);
    }
  }
}
