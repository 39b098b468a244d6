/** One call of the time gate when nobody else moves: who is let through, how, and what the call books. */
module TimeAlone {
  import opened Wrappers
  import opened Iteration
  import opened TimeGate

  function GoBy(i: nat): State -> State {
    (s: State) => Apply(s, Go(i))
  }

  /** n steps of thread i; once it is outside again nothing happens any more. */
  function Iter(s: State, i: nat, n: nat): State {
    Iterate(GoBy(i), s, n)
  }

  ghost predicate Leads(s: State, t: State, i: nat) {
    exists n: nat :: Iter(s, i, n) == t
  }

  lemma IterStep(s: State, i: nat, n: nat)
    requires n > 0
    ensures Iter(s, i, n) == Iter(GoBy(i)(s), i, n - 1)
  {
  }

  lemma IterAdd(s: State, i: nat, m: nat, n: nat)
    ensures Iter(s, i, m + n) == Iter(Iter(s, i, m), i, n)
  {
    IterateAdd(GoBy(i), s, m, n);
  }

  lemma LeadsSelf(s: State, i: nat)
    ensures Leads(s, s, i)
  {
    assert Iter(s, i, 0) == s;
  }

  lemma LeadsTrans(s: State, t: State, u: State, i: nat)
    requires Leads(s, t, i) && Leads(t, u, i)
    ensures Leads(s, u, i)
  {
    var m: nat :| Iter(s, i, m) == t;
    var n: nat :| Iter(t, i, n) == u;
    IterAdd(s, i, m, n);
  }

  lemma Next(s: State, t: State, i: nat) returns (u: State)
    requires Leads(s, t, i) && i < |t.threads| && t.threads[i].pc != Out
    ensures Leads(s, u, i) && u == ThreadStep(t, i)
  {
    u := Apply(t, Go(i));
    assert Iter(t, i, 1) == u by { IterStep(t, i, 1); }
    LeadsTrans(s, t, u, i);
  }

  /** The same state with another record for thread i. */
  function With(s: State, i: nat, t: Thread): State
    requires i < |s.threads|
  {
    s.(threads := s.threads[i := t])
  }

  lemma WithTwice(s: State, i: nat, t: Thread, u: Thread)
    requires i < |s.threads|
    ensures With(With(s, i, t), i, u) == With(s, i, u)
  {
    assert s.threads[i := t][i := u] == s.threads[i := u];
  }

  lemma OwnIgnoresThreads(s: State, i: nat, t: Thread)
    requires i < |s.threads|
    ensures Own(With(s, i, t), t) == Own(s, t)
  {
  }

  /** What a step adds to the counters. */
  function Booked(s: State, pc: Pc): (r: State)
    ensures r.threads == s.threads
  {
    s.(total := if pc.AddTotal? then s.total + pc.e else s.total,
       extra := if pc.AddExtra? then s.extra + pc.e else s.extra,
       credit := if pc.SubCredit? then s.credit - pc.e else s.credit,
       blocked := if pc.AddBlocked? then s.blocked + pc.e else s.blocked)
  }

  lemma NothingBooked(s: State, pc: Pc)
    requires !pc.AddTotal? && !pc.AddExtra? && !pc.SubCredit? && !pc.AddBlocked?
    ensures Booked(s, pc) == s
  {
  }

  lemma StepIs(s: State, i: nat, t: Thread, v: Thread)
    requires i < |s.threads| && v == Own(With(s, i, t), t)
    ensures ThreadStep(With(s, i, t), i) == With(Booked(s, t.pc), i, v)
  {
    Replaced(s, i, t, v);
  }

  /** A step of the thread alone, on a way that began in o. */
  lemma NextOwn(o: State, s: State, i: nat, t: Thread) returns (u: State)
    requires i < |s.threads| && Leads(o, With(s, i, t), i) && t.pc != Out
    ensures Leads(o, u, i) && u == With(Booked(s, t.pc), i, Own(s, t))
  {
    u := Next(o, With(s, i, t), i);
    OwnIgnoresThreads(s, i, t);
    StepIs(s, i, t, Own(s, t));
  }

  /** The same where no counter is written, by the part of the gate the thread is in. */
  lemma NextEnter(o: State, s: State, i: nat, t: Thread) returns (u: State)
    requires i < |s.threads| && Leads(o, With(s, i, t), i) && t.pc != Out && !InBlock(t.pc) && !Paying(t.pc)
    ensures Leads(o, u, i) && u == With(s, i, OwnEnter(s, t))
  {
    u := NextOwn(o, s, i, t);
    NothingBooked(s, t.pc);
  }

  lemma OwnIsWait(s: State, t: Thread)
    requires InBlock(t.pc)
    ensures Own(s, t) == OwnWait(s, t) && !t.pc.AddTotal? && !t.pc.AddExtra? && !t.pc.SubCredit? && t.pc != Out
  {
  }

  lemma NextWait(o: State, s: State, i: nat, t: Thread) returns (u: State)
    requires i < |s.threads| && Leads(o, With(s, i, t), i) && InBlock(t.pc) && !t.pc.AddBlocked?
    ensures Leads(o, u, i) && u == With(s, i, OwnWait(s, t))
  {
    OwnIsWait(s, t);
    var v := OwnWait(s, t);
    u := NextOwn(o, s, i, t);
    assert u == With(Booked(s, t.pc), i, v);
    NothingBooked(s, t.pc);
  }

  lemma NextCharge(o: State, s: State, i: nat, t: Thread) returns (u: State)
    requires i < |s.threads| && Leads(o, With(s, i, t), i) && Paying(t.pc)
    ensures Leads(o, u, i) && u == With(Booked(s, t.pc), i, OwnCharge(s, t))
  {
    u := NextOwn(o, s, i, t);
  }

  lemma Start(s: State, i: nat)
    requires i < |s.threads|
    ensures With(s, i, s.threads[i]) == s && Leads(s, With(s, i, s.threads[i]), i)
  {
    assert s.threads[i := s.threads[i]] == s.threads;
    LeadsSelf(s, i);
  }

  // ---- The charge ----

  function Elapsed(s: State, t: Thread): int { if t.count == 0 then 0 else s.now - t.start }

  /** The record of a thread whose batch is closed; an empty batch leaves no window. */
  function Emptied(s: State, t: Thread, pc: Pc): Thread {
    if t.count == 0 then t.(pc := pc)
    else Thread(pc, 0, 0, false, [],
                t.windows + [Window(if t.riding then Riding else Billed, t.start, s.now, t.admits)])
  }

  /** What time_batch_end_and_charge leaves behind: the batch is closed and booked as riding or as billed, and
      a billed one is deducted unless the gate is not limited. */
  function Charged(s: State, i: nat, pc: Pc): State
    requires i < |s.threads|
  {
    var t := s.threads[i];
    var e := Elapsed(s, t);
    With(s, i, Emptied(s, t, pc)).(
      extra := if t.riding then s.extra + e else s.extra,
      total := if t.riding then s.total else s.total + e,
      credit := if t.riding || s.unlimited then s.credit else s.credit - e)
  }

  lemma ChargeAlone(s: State, i: nat, ret: Return) returns (u: State)
    requires i < |s.threads| && s.threads[i].pc == ChargeStart(ret)
    ensures Leads(s, u, i) && u == Charged(s, i, match ret case ToSync => Out case ToGate(c) => BlockStart(c))
  {
    var t := s.threads[i];
    if t.count == 0 {
      u := EmptyCharge(s, i, ret, Back(ret));
    } else if t.riding {
      u := RidingCharge(s, i, ret, Back(ret));
    } else {
      u := BilledCharge(s, i, ret, Back(ret));
    }
  }

  lemma EmptyCharge(s: State, i: nat, ret: Return, pc: Pc) returns (u: State)
    requires i < |s.threads| && s.threads[i].pc == ChargeStart(ret) && pc == Back(ret) && s.threads[i].count == 0
    ensures Leads(s, u, i) && u == Charged(s, i, pc)
  {
    Start(s, i);
    u := NextCharge(s, s, i, s.threads[i]);
    NothingBooked(s, ChargeStart(ret));
  }

  lemma RidingCharge(s: State, i: nat, ret: Return, pc: Pc) returns (u: State)
    requires i < |s.threads| && s.threads[i].pc == ChargeStart(ret) && pc == Back(ret)
    requires s.threads[i].count > 0 && s.threads[i].riding
    ensures Leads(s, u, i) && u == Charged(s, i, pc)
  {
    var t, e := s.threads[i], s.now - s.threads[i].start;
    Start(s, i);
    u := NextCharge(s, s, i, t);
    var v := t.(pc := AddExtra(e, ret), windows := Emptied(s, t, pc).windows);
    assert u == With(s, i, v);
    u := NextCharge(s, s, i, v);
    assert Own(s, v) == Emptied(s, t, pc);
  }

  lemma BilledCharge(s: State, i: nat, ret: Return, pc: Pc) returns (u: State)
    requires i < |s.threads| && s.threads[i].pc == ChargeStart(ret) && pc == Back(ret)
    requires s.threads[i].count > 0 && !s.threads[i].riding
    ensures Leads(s, u, i) && u == Charged(s, i, pc)
  {
    var t, e := s.threads[i], s.now - s.threads[i].start;
    var v := t.(pc := AddTotal(e, ret), windows := Emptied(s, t, pc).windows);
    Start(s, i);
    u := NextCharge(s, s, i, t);
    NothingBooked(s, t.pc);
    assert OwnCharge(s, t) == v;
    u := BilledTotal(s, i, v, e, ret);
    assert Emptied(s, t, pc) == Thread(pc, 0, 0, false, [], v.windows);
  }

  lemma BilledTotal(s: State, i: nat, v: Thread, e: int, ret: Return) returns (u: State)
    requires i < |s.threads| && Leads(s, With(s, i, v), i) && v.pc == AddTotal(e, ret)
    ensures Leads(s, u, i)
    ensures u == With(s, i, Thread(Back(ret), 0, 0, false, [], v.windows))
                 .(total := s.total + e, credit := if s.unlimited then s.credit else s.credit - e)
  {
    u := NextCharge(s, s, i, v);
    assert u == With(s.(total := s.total + e), i, v.(pc := ChargeUnlimited(e, ret)));
    u := Deducted(s, s.(total := s.total + e), i, v.(pc := ChargeUnlimited(e, ret)), e, ret);
  }

  lemma Deducted(o: State, s: State, i: nat, v: Thread, e: int, ret: Return) returns (u: State)
    requires i < |s.threads| && Leads(o, With(s, i, v), i) && v.pc == ChargeUnlimited(e, ret)
    ensures Leads(o, u, i)
    ensures u == With(s, i, Thread(Back(ret), 0, 0, false, [], v.windows))
                 .(credit := if s.unlimited then s.credit else s.credit - e)
  {
    u := NextCharge(o, s, i, v);
    if !s.unlimited {
      assert u == With(s, i, v.(pc := SubCredit(e, ret)));
      u := NextCharge(o, s, i, v.(pc := SubCredit(e, ret)));
    }
  }

  lemma Replaced(s: State, i: nat, t: Thread, u: Thread)
    requires i < |s.threads|
    ensures s.threads[i := t][i := u] == s.threads[i := u]
  {
  }

  /** The charge looks at the batch and not at where the thread came from. */
  lemma ChargedAgain(s: State, i: nat, from: Pc, to: Pc)
    requires i < |s.threads|
    ensures Charged(With(s, i, s.threads[i].(pc := from)), i, to) == Charged(s, i, to)
  {
    WithAgain(s, i, s.threads[i].(pc := from));
  }

  lemma ChargedThen(s: State, i: nat, from: Pc, to: Pc)
    requires i < |s.threads|
    ensures var u := Charged(s, i, from); i < |u.threads| && With(u, i, u.threads[i].(pc := to)) == Charged(s, i, to)
  {
    var t := s.threads[i];
    assert Emptied(s, t, to) == Emptied(s, t, from).(pc := to);
    Replaced(s, i, Emptied(s, t, from), Emptied(s, t, to));
  }

  /** A synchronisation that nobody disturbs: exactly the charge, and the thread is outside again. */
  lemma SyncAlone(s: State, i: nat)
    requires i < |s.threads| && s.threads[i].pc == Out
    ensures exists n: nat :: Iter(Apply(s, Sync(i)), i, n) == Charged(s, i, Out)
  {
    var a := Apply(s, Sync(i));
    assert a == With(s, i, s.threads[i].(pc := ChargeStart(ToSync)));
    var u := ChargeAlone(a, i, ToSync);
    ChargedAgain(s, i, ChargeStart(ToSync), Out);
  }

  lemma WithAgain(s: State, i: nat, t: Thread)
    requires i < |s.threads|
    ensures forall u: Thread :: With(With(s, i, t), i, u) == With(s, i, u)
  {
    forall u: Thread ensures With(With(s, i, t), i, u) == With(s, i, u) {
      WithTwice(s, i, t, u);
    }
  }

  // ---- Through the gate ----

  /** time_batch_start after the gate has let the kernel through. */
  function Launched(s: State, t: Thread, how: Admission): Thread {
    Thread(Out, if t.count == 0 then s.now else t.start, t.count + 1, t.riding, t.admits + [how], t.windows)
  }

  lemma StartAlone(o: State, s: State, i: nat, t: Thread, how: Admission) returns (u: State)
    requires i < |s.threads| && t.pc == TimeGate.Start(how) && Leads(o, With(s, i, t), i)
    ensures Leads(o, u, i) && u == With(s, i, Launched(s, t, how))
  {
    u := NextEnter(o, s, i, t);
  }

  /** Out of the waiting loop: the wait is measured if metrics are on. */
  function Woken(s: State, i: nat, t0: int, how: Admission): State
    requires i < |s.threads|
  {
    var t := s.threads[i];
    var u := t.(riding := t.riding || how == ByRide,
                windows := if s.metrics then t.windows + [Window(Blocked, t0, s.now, [])] else t.windows);
    With(s, i, Launched(s, u, how)).(blocked := if s.metrics then s.blocked + (s.now - t0) else s.blocked)
  }

  lemma WakeAlone(s: State, i: nat, v: Thread, t0: int, how: Admission) returns (u: State)
    requires i < |s.threads| && Leads(s, With(s, i, v), i)
    requires var t := s.threads[i];
             v == t.(pc := if s.metrics then Record(t0, how) else TimeGate.Start(how),
                     riding := t.riding || how == ByRide)
    ensures Leads(s, u, i) && u == Woken(s, i, t0, how)
  {
    if s.metrics {
      u := RecordAlone(s, i, v, t0, how);
    } else {
      u := StartAlone(s, s, i, v, how);
    }
  }

  lemma RecordAlone(s: State, i: nat, v: Thread, t0: int, how: Admission) returns (u: State)
    requires i < |s.threads| && Leads(s, With(s, i, v), i) && s.metrics
    requires var t := s.threads[i]; v == t.(pc := Record(t0, how), riding := t.riding || how == ByRide)
    ensures Leads(s, u, i) && u == Woken(s, i, t0, how)
  {
    u := NextWait(s, s, i, v);
    u := RecordAdd(s, i, v.(pc := AddBlocked(s.now - t0, how), windows := v.windows + [Window(Blocked, t0, s.now, [])]),
                   s.now - t0, how);
  }

  lemma RecordAdd(s: State, i: nat, w: Thread, e: int, how: Admission) returns (u: State)
    requires i < |s.threads| && Leads(s, With(s, i, w), i) && w.pc == AddBlocked(e, how)
    ensures Leads(s, u, i) && u == With(s.(blocked := s.blocked + e), i, Launched(s, w, how))
  {
    var b := s.(blocked := s.blocked + e);
    u := NextOwn(s, s, i, w);
    assert u == With(b, i, w.(pc := TimeGate.Start(how)));
    u := StartAlone(s, b, i, w.(pc := TimeGate.Start(how)), how);
  }

  /** The peer has declared itself idle, not too long ago, and riding is switched on. */
  predicate PeerIdles(s: State) {
    s.wcOn && s.peerIdle && s.now - s.peerIdleAt < 20000
  }

  /** How a thread in the waiting loop gets out on this memory, if it does. */
  function WaitHow(s: State, wake: int): Option<Admission> {
    if PeerIdles(s) then Some(ByRide)
    else if s.unlimited then Some(ByUnlimited)
    else if s.credit > wake then Some(if wake < 0 then ByLoan else ByCredit)
    else None
  }

  lemma RideAlone(s: State, i: nat, wake: int, t0: int) returns (u: State)
    requires i < |s.threads| && s.threads[i].pc == RideOn(wake, t0)
    ensures Leads(s, u, i)
    ensures u == if PeerIdles(s)
                 then With(s, i, s.threads[i].(pc := if s.metrics then Record(t0, ByRide) else TimeGate.Start(ByRide),
                                               riding := true))
                 else With(s, i, s.threads[i].(pc := WaitUnlimited(wake, t0)))
  {
    var t := s.threads[i];
    Start(s, i);
    u := NextWait(s, s, i, t);
    if s.wcOn {
      u := NextWait(s, s, i, t.(pc := RidePeer(wake, t0)));
      if s.peerIdle {
        u := NextWait(s, s, i, t.(pc := RideClock(wake, t0)));
        u := NextWait(s, s, i, t.(pc := RideFresh(wake, t0, s.now)));
      }
    }
  }

  /** One turn of the waiting loop: out, or back to its start. */
  lemma TurnAlone(s: State, i: nat, wake: int, t0: int) returns (u: State)
    requires i < |s.threads| && s.threads[i].pc == RideOn(wake, t0)
    ensures Leads(s, u, i)
    ensures WaitHow(s, wake).Some? ==> u == Woken(s, i, t0, WaitHow(s, wake).value)
  {
    var t := s.threads[i];
    var a := RideAlone(s, i, wake, t0);
    if PeerIdles(s) {
      u := WakeAlone(s, i, t.(pc := if s.metrics then Record(t0, ByRide) else TimeGate.Start(ByRide), riding := true),
                     t0, ByRide);
    } else {
      u := UnlimitedOrCredit(s, i, wake, t0);
    }
  }

  lemma UnlimitedOrCredit(s: State, i: nat, wake: int, t0: int) returns (u: State)
    requires i < |s.threads| && !PeerIdles(s) && Leads(s, With(s, i, s.threads[i].(pc := WaitUnlimited(wake, t0))), i)
    ensures Leads(s, u, i)
    ensures WaitHow(s, wake).Some? ==> u == Woken(s, i, t0, WaitHow(s, wake).value)
  {
    var t := s.threads[i];
    u := NextWait(s, s, i, t.(pc := WaitUnlimited(wake, t0)));
    if s.unlimited {
      u := WakeAlone(s, i, Unblock(s, t, t0, ByUnlimited), t0, ByUnlimited);
    } else {
      u := NextWait(s, s, i, t.(pc := Reload(wake, t0)));
      u := NextWait(s, s, i, t.(pc := WaitCheck(s.credit, wake, t0)));
      if s.credit > wake {
        var how := if wake < 0 then ByLoan else ByCredit;
        u := WakeAlone(s, i, Unblock(s, t, t0, how), t0, how);
      }
    }
  }

  /** In the waiting loop on memory that lets nobody out. */
  predicate StaysIn(s: State, i: nat, wake: int) {
    && i < |s.threads| && WaitHow(s, wake).None?
    && match s.threads[i].pc
       case WaitCheck(c, w, _) => w == wake && c <= wake
       case RideOn(w, _) => w == wake
       case RidePeer(w, _) => w == wake && s.wcOn
       case RideClock(w, _) => w == wake && s.wcOn && s.peerIdle
       case RideFresh(w, _, at) => w == wake && at == s.now && s.wcOn && s.peerIdle
       case WaitUnlimited(w, _) => w == wake
       case Reload(w, _) => w == wake
       case _ => false
  }

  lemma StaysStep(s: State, i: nat, wake: int)
    requires StaysIn(s, i, wake)
    ensures StaysIn(Apply(s, Go(i)), i, wake)
  {
  }

  lemma {:induction false} StaysRun(s: State, i: nat, wake: int, n: nat)
    requires StaysIn(s, i, wake)
    ensures StaysIn(Iter(s, i, n), i, wake)
    decreases n
  {
    if n > 0 {
      StaysStep(s, i, wake);
      IterStep(s, i, n);
      StaysRun(Apply(s, Go(i)), i, wake, n - 1);
    }
  }

  /** The thread is outside after n steps. */
  predicate OutAfter(s: State, i: nat, n: nat) {
    i < |Iter(s, i, n).threads| && Iter(s, i, n).threads[i].pc == Out
  }

  /** On memory that does not change, a thread at the start of a turn of the waiting loop gets out if and only
      if the peer idles, the gate is not limited, or the credit is above its wake value, and then with exactly
      this admission and outcome. In particular it rides if and only if wc_on and peer_idle hold and the
      stamp is less than 20000 microseconds old. */
  lemma WaitEndsIff(s: State, i: nat, wake: int, t0: int)
    requires i < |s.threads| && s.threads[i].pc == RideOn(wake, t0)
    ensures (exists n: nat :: OutAfter(s, i, n)) <==> WaitHow(s, wake).Some?
    ensures WaitHow(s, wake).Some? ==> exists n: nat :: Iter(s, i, n) == Woken(s, i, t0, WaitHow(s, wake).value)
  {
    if WaitHow(s, wake).Some? {
      var u := TurnAlone(s, i, wake, t0);
      var n: nat :| Iter(s, i, n) == u;
      assert OutAfter(s, i, n);
    } else {
      forall n: nat ensures !OutAfter(s, i, n) {
        StaysRun(s, i, wake, n);
      }
    }
  }

  // ---- A whole launch ----

  function Wake(s: State): int { if s.urgent then -s.limit else 0 }

  /** How a launch gets through without waiting, if it does. */
  function FastHow(s: State): Option<Admission> {
    if s.boost then Some(ByBoost)
    else if s.unlimited then Some(ByUnlimited)
    else if s.credit > 0 then Some(ByCredit)
    else if s.urgent && s.credit > -s.limit then Some(ByLoan)
    else None
  }

  /** The fast path: through at once, or on to the charge with the credit it has seen. */
  lemma FastAlone(s: State, i: nat) returns (u: State)
    requires i < |s.threads| && s.threads[i].pc == Out
    ensures Leads(Apply(s, Launch(i)), u, i)
    ensures u == match FastHow(s)
                 case Some(how) => With(s, i, Launched(s, s.threads[i], how))
                 case None => With(s, i, s.threads[i].(pc := ChargeStart(ToGate(s.credit))))
  {
    var t, a := s.threads[i], Apply(s, Launch(i));
    LeadsSelf(a, i);
    if s.boost {
      u := StartAlone(a, s, i, t.(pc := TimeGate.Start(ByBoost)), ByBoost);
    } else {
      u := FastLoads(a, s, i);
    }
  }

  lemma FastLoads(o: State, s: State, i: nat) returns (u: State)
    requires i < |s.threads| && !s.boost && Leads(o, With(s, i, s.threads[i].(pc := LoadUnlimited)), i)
    ensures Leads(o, u, i)
    ensures u == match FastHow(s)
                 case Some(how) => With(s, i, Launched(s, s.threads[i], how))
                 case None => With(s, i, s.threads[i].(pc := ChargeStart(ToGate(s.credit))))
  {
    var t := s.threads[i];
    u := NextEnter(o, s, i, t.(pc := LoadUnlimited));
    if s.unlimited {
      u := StartAlone(o, s, i, t.(pc := TimeGate.Start(ByUnlimited)), ByUnlimited);
    } else {
      u := NextEnter(o, s, i, t.(pc := LoadCredit));
      if s.credit > 0 {
        u := StartAlone(o, s, i, t.(pc := TimeGate.Start(ByCredit)), ByCredit);
      } else {
        u := FastLoan(o, s, i);
      }
    }
  }

  lemma FastLoan(o: State, s: State, i: nat) returns (u: State)
    requires i < |s.threads| && !s.boost && !s.unlimited && s.credit <= 0
    requires Leads(o, With(s, i, s.threads[i].(pc := LoadPriority(s.credit))), i)
    ensures Leads(o, u, i)
    ensures u == if s.urgent && s.credit > -s.limit then With(s, i, Launched(s, s.threads[i], ByLoan))
                 else With(s, i, s.threads[i].(pc := ChargeStart(ToGate(s.credit))))
  {
    var t := s.threads[i];
    u := NextEnter(o, s, i, t.(pc := LoadPriority(s.credit)));
    if s.urgent {
      u := NextEnter(o, s, i, t.(pc := LoadLimit(s.credit)));
      if s.credit > -s.limit {
        u := StartAlone(o, s, i, t.(pc := TimeGate.Start(ByLoan)), ByLoan);
      }
    }
  }

  /** From behind the charge to the first turn of the waiting loop. */
  lemma SlowAlone(s: State, i: nat, c: int) returns (u: State)
    requires i < |s.threads| && s.threads[i].pc == BlockStart(c) && c <= Wake(s)
    ensures Leads(s, u, i)
    ensures u == With(s, i, s.threads[i].(pc := RideOn(Wake(s), if s.metrics then s.now else 0)))
  {
    var t, t0 := s.threads[i], if s.metrics then s.now else 0;
    Start(s, i);
    u := NextWait(s, s, i, t);
    u := WakeLoads(s, i, t, c, t0);
    u := NextWait(s, s, i, t.(pc := WaitCheck(c, Wake(s), t0)));
  }

  lemma WakeLoads(s: State, i: nat, t: Thread, c: int, t0: int) returns (u: State)
    requires i < |s.threads| && Leads(s, With(s, i, t.(pc := WakePriority(c, t0))), i)
    ensures Leads(s, u, i) && u == With(s, i, t.(pc := WaitCheck(c, Wake(s), t0)))
  {
    u := NextWait(s, s, i, t.(pc := WakePriority(c, t0)));
    if s.urgent {
      u := NextWait(s, s, i, t.(pc := WakeLimit(c, t0)));
    }
  }

  /** The state in which the slow path of a launch comes to its waiting loop. */
  function Waiting(s: State, i: nat): State
    requires i < |s.threads|
  {
    Charged(s, i, RideOn(Wake(s), if s.metrics then s.now else 0))
  }

  lemma SlowLaunch(s: State, i: nat) returns (u: State)
    requires i < |s.threads| && s.threads[i].pc == Out && FastHow(s).None?
    ensures Leads(Apply(s, Launch(i)), u, i) && u == Waiting(s, i)
  {
    var first, c := Apply(s, Launch(i)), s.credit;
    var a := FastAlone(s, i);
    var b := ChargeAlone(a, i, ToGate(c));
    LeadsTrans(first, a, b, i);
    ChargedAgain(s, i, ChargeStart(ToGate(c)), BlockStart(c));
    u := SlowAlone(b, i, c);
    LeadsTrans(first, b, u, i);
    ChargedThen(s, i, BlockStart(c), RideOn(Wake(s), if s.metrics then s.now else 0));
  }

  /** A launch gets through. */
  predicate Passes(s: State) {
    FastHow(s).Some? || PeerIdles(s)
  }

  /** A launch that nobody disturbs, from outside, with every batch begun in the past: it gets through if and
      only if boost is on, the gate is not limited, there is credit, an urgent thread is within its limit, or
      the peer idles; on the fast path with exactly this outcome, and otherwise after the charge as a ride. */
  lemma LaunchIff(s: State, i: nat)
    requires i < |s.threads| && s.threads[i].pc == Out && (s.threads[i].count > 0 ==> s.threads[i].start <= s.now)
    ensures (exists n: nat :: OutAfter(Apply(s, Launch(i)), i, n)) <==> Passes(s)
    ensures FastHow(s).Some? ==>
              exists n: nat ::
                Iter(Apply(s, Launch(i)), i, n) == With(s, i, Launched(s, s.threads[i], FastHow(s).value))
    ensures FastHow(s).None? && PeerIdles(s) ==>
              exists n: nat ::
                Iter(Apply(s, Launch(i)), i, n) == Woken(Waiting(s, i), i, if s.metrics then s.now else 0, ByRide)
  {
    var first := Apply(s, Launch(i));
    if FastHow(s).Some? {
      var u := FastAlone(s, i);
      var n: nat :| Iter(first, i, n) == u;
      assert OutAfter(first, i, n);
    } else {
      SlowLaunchIff(s, i);
    }
  }

  lemma SlowLaunchIff(s: State, i: nat)
    requires i < |s.threads| && s.threads[i].pc == Out && FastHow(s).None?
    requires s.threads[i].count > 0 ==> s.threads[i].start <= s.now
    ensures (exists n: nat :: OutAfter(Apply(s, Launch(i)), i, n)) <==> PeerIdles(s)
    ensures PeerIdles(s) ==>
              exists n: nat ::
                Iter(Apply(s, Launch(i)), i, n) == Woken(Waiting(s, i), i, if s.metrics then s.now else 0, ByRide)
  {
    var first, t0 := Apply(s, Launch(i)), if s.metrics then s.now else 0;
    var u := SlowLaunch(s, i);
    assert WaitHow(u, Wake(s)) == if PeerIdles(s) then Some(ByRide) else None;
    if PeerIdles(s) {
      var v := TurnAlone(u, i, Wake(s), t0);
      LeadsTrans(first, u, v, i);
      var n: nat :| Iter(first, i, n) == v;
      assert OutAfter(first, i, n);
    } else {
      var m: nat :| Iter(first, i, m) == u;
      forall n: nat ensures !OutAfter(first, i, n) {
        NeverOut(first, i, m, n, Wake(s));
      }
    }
  }

  /** Once outside a thread stays there, so one that is in the loop after m steps was not outside before. */
  lemma NeverOut(s: State, i: nat, m: nat, n: nat, wake: int)
    requires StaysIn(Iter(s, i, m), i, wake)
    ensures !OutAfter(s, i, n)
  {
    if n >= m {
      IterAdd(s, i, m, n - m);
      StaysRun(Iter(s, i, m), i, wake, n - m);
    } else if OutAfter(s, i, n) {
      IterAdd(s, i, n, m - n);
      OutStays(Iter(s, i, n), i, m - n);
    }
  }

  lemma {:induction false} OutStays(s: State, i: nat, n: nat)
    requires i < |s.threads| && s.threads[i].pc == Out
    ensures Iter(s, i, n) == s
    decreases n
  {
    if n > 0 {
      IterStep(s, i, n);
      OutStays(s, i, n - 1);
    }
  }
}
