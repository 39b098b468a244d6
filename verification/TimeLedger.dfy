/** The books of the time gate: conservation of credit, separation of riding time,
    and that waiting at the gate is never billed. */
module TimeLedger {
  import opened Sums
  import opened TimeGate

  // ---- Credit, billed time and grants ----

  /** In total_time_us but not yet taken from the balance. */
  function Owed(t: Thread): int {
    match t.pc
    case ChargeUnlimited(e, _) => e
    case SubCredit(e, _) => e
    case _ => 0
  }

  function Balance(s: State): int {
    s.credit + s.total - s.granted - Total(s.threads, Owed)
  }

  predicate Resets(a: Action) { a.StoreUnlimited? || a.StoreCredit? }

  /** Only time_batch_end_and_charge leaves a measured time pending. */
  lemma NothingMeasured(s: State, t: Thread)
    ensures !Paying(t.pc) ==> !InCharge(OwnEnter(s, t).pc) && !InCharge(OwnWait(s, t).pc)
  {
  }

  lemma OwedCharge(s: State, t: Thread)
    requires Paying(t.pc) && !s.unlimited
    ensures Owed(OwnCharge(s, t)) == if t.pc.AddTotal? || t.pc.ChargeUnlimited? then t.pc.e else 0
  {
  }

  lemma OwedOwn(s: State, t: Thread)
    requires !s.unlimited
    ensures Owed(Own(s, t)) == if t.pc.AddTotal? || t.pc.ChargeUnlimited? then t.pc.e else 0
  {
    NothingMeasured(s, t);
    if Paying(t.pc) {
      OwedCharge(s, t);
    }
  }

  lemma OwedStep(s: State, a: Action)
    requires Moves(s, a) && !s.unlimited
    ensures var s' := Apply(s, a);
            && s'.granted == s.granted && !s'.unlimited
            && s'.credit + s'.total - Owed(After(s, a)) == s.credit + s.total - Owed(s.threads[a.i])
  {
    if a.Go? {
      OwedOwn(s, s.threads[a.i]);
      assert Apply(s, a) == ThreadStep(s, a.i);
    }
  }

  lemma BalanceStep(s: State, a: Action)
    requires !s.unlimited && !Resets(a)
    ensures Balance(Apply(s, a)) == Balance(s) && !Apply(s, a).unlimited
  {
    OneThread(s, a);
    if Moves(s, a) {
      OwedStep(s, a);
      TotalUpdate(s.threads, a.i, After(s, a), Owed);
    }
  }

  /** Between resetting commands, in limited mode, credit + billed time - grants is constant
      up to charges in progress. */
  lemma {:induction false} CreditLedger(s: State, acts: seq<Action>)
    requires !s.unlimited && (forall k :: 0 <= k < |acts| ==> !Resets(acts[k]))
    ensures Balance(Run(s, acts)) == Balance(s)
    decreases |acts|
  {
    if acts != [] {
      BalanceStep(s, acts[0]);
      CreditLedger(Apply(s, acts[0]), acts[1..]);
    }
  }

  // ---- Every closed window is booked once ----

  function Time(ws: seq<Window>, kind: Kind): int {
    if ws == [] then 0
    else Time(ws[..|ws| - 1], kind) + (var w := ws[|ws| - 1]; if w.kind == kind then w.to - w.from else 0)
  }

  lemma TimeAppend(ws: seq<Window>, w: Window, kind: Kind)
    ensures Time(ws + [w], kind) == Time(ws, kind) + (if w.kind == kind then w.to - w.from else 0)
  {
    assert (ws + [w])[..|ws|] == ws;
  }

  /** Closed windows whose time has not reached its counter yet. */
  function UnbookedTotal(t: Thread): int { if t.pc.AddTotal? then t.pc.e else 0 }
  function UnbookedExtra(t: Thread): int { if t.pc.AddExtra? then t.pc.e else 0 }
  function UnbookedBlocked(t: Thread): int { if t.pc.AddBlocked? then t.pc.e else 0 }

  function BookedTotal(t: Thread): int { Time(t.windows, Billed) - UnbookedTotal(t) }
  function BookedExtra(t: Thread): int { Time(t.windows, Riding) - UnbookedExtra(t) }
  function BookedBlocked(t: Thread): int { Time(t.windows, Blocked) - UnbookedBlocked(t) }

  /** The window that the step closes, if it closes one. */
  function Closed(s: State, a: Action): (ws: seq<Window>)
    requires Moves(s, a)
    ensures |ws| <= 1
  {
    var t := s.threads[a.i];
    if !a.Go? then []
    else if t.pc.ChargeStart? && t.count > 0
    then [Window(if t.riding then Riding else Billed, t.start, s.now, t.admits)]
    else if t.pc.Record? then [Window(Blocked, t.pc.t0, s.now, [])]
    else []
  }

  lemma WindowOwn(s: State, t: Thread)
    ensures var ws := OwnCharge(s, t).windows;
            ws == if t.pc.ChargeStart? && t.count > 0
                  then t.windows + [Window(if t.riding then Riding else Billed, t.start, s.now, t.admits)]
                  else t.windows
    ensures var ws := OwnWait(s, t).windows;
            ws == if t.pc.Record? then t.windows + [Window(Blocked, t.pc.t0, s.now, [])] else t.windows
    ensures OwnEnter(s, t).windows == t.windows
  {
  }

  lemma WindowStep(s: State, a: Action)
    requires Moves(s, a)
    ensures After(s, a).windows == s.threads[a.i].windows + Closed(s, a)
  {
    if a.Go? {
      WindowOwn(s, s.threads[a.i]);
    }
  }

  function Length(ws: seq<Window>, kind: Kind): int {
    if ws == [] || ws[0].kind != kind then 0 else ws[0].to - ws[0].from
  }

  lemma TimeGrows(ws: seq<Window>, more: seq<Window>, kind: Kind)
    requires |more| <= 1
    ensures Time(ws + more, kind) == Time(ws, kind) + Length(more, kind)
  {
    if more == [] {
      assert ws + more == ws;
    } else {
      assert more == [more[0]];
      TimeAppend(ws, more[0], kind);
    }
  }

  /** What a step leaves closed and not booked: the window it has just closed. */
  lemma UnbookedStep(s: State, t: Thread)
    ensures UnbookedTotal(Own(s, t)) == if t.pc.ChargeStart? && t.count > 0 && !t.riding then s.now - t.start else 0
    ensures UnbookedExtra(Own(s, t)) == if t.pc.ChargeStart? && t.count > 0 && t.riding then s.now - t.start else 0
    ensures UnbookedBlocked(Own(s, t)) == if t.pc.Record? then s.now - t.pc.t0 else 0
  {
    NothingMeasured(s, t);
    if Paying(t.pc) {
      UnbookedCharge(s, t);
    }
  }

  lemma UnbookedCharge(s: State, t: Thread)
    requires Paying(t.pc)
    ensures var u := OwnCharge(s, t);
            && UnbookedTotal(u) == (if t.pc.ChargeStart? && t.count > 0 && !t.riding then s.now - t.start else 0)
            && UnbookedExtra(u) == (if t.pc.ChargeStart? && t.count > 0 && t.riding then s.now - t.start else 0)
            && UnbookedBlocked(u) == 0
  {
  }

  lemma CountersStep(s: State, a: Action)
    requires Moves(s, a)
    ensures var t, t', s', ws := s.threads[a.i], After(s, a), Apply(s, a), Closed(s, a);
            && s'.total - s.total == UnbookedTotal(t) + Length(ws, Billed) - UnbookedTotal(t')
            && s'.extra - s.extra == UnbookedExtra(t) + Length(ws, Riding) - UnbookedExtra(t')
            && s'.blocked - s.blocked == UnbookedBlocked(t) + Length(ws, Blocked) - UnbookedBlocked(t')
  {
    if a.Go? {
      var t := s.threads[a.i];
      UnbookedStep(s, t);
      assert Apply(s, a) == ThreadStep(s, a.i);
    }
  }

  lemma BookedStep(s: State, a: Action)
    requires Moves(s, a)
    ensures var t, t', s' := s.threads[a.i], After(s, a), Apply(s, a);
            && s'.total - s.total == BookedTotal(t') - BookedTotal(t)
            && s'.extra - s.extra == BookedExtra(t') - BookedExtra(t)
            && s'.blocked - s.blocked == BookedBlocked(t') - BookedBlocked(t)
  {
    var t, t' := s.threads[a.i], After(s, a);
    WindowStep(s, a);
    CountersStep(s, a);
    TimeGrows(t.windows, Closed(s, a), Billed);
    TimeGrows(t.windows, Closed(s, a), Riding);
    TimeGrows(t.windows, Closed(s, a), Blocked);
  }

  lemma BookedSums(s: State, a: Action)
    ensures var e := Apply(s, a);
            && e.total - s.total == Total(e.threads, BookedTotal) - Total(s.threads, BookedTotal)
            && e.extra - s.extra == Total(e.threads, BookedExtra) - Total(s.threads, BookedExtra)
            && e.blocked - s.blocked == Total(e.threads, BookedBlocked) - Total(s.threads, BookedBlocked)
  {
    OneThread(s, a);
    if Moves(s, a) {
      BookedStep(s, a);
      TotalUpdate(s.threads, a.i, After(s, a), BookedTotal);
      TotalUpdate(s.threads, a.i, After(s, a), BookedExtra);
      TotalUpdate(s.threads, a.i, After(s, a), BookedBlocked);
    }
  }

  /** Under every command, total_time_us, wc_extra_us and gate_block_total_us each grow by exactly the
      windows of their own kind, so each closed batch is booked to exactly one of the first two. */
  lemma {:induction false} BookedOnce(s: State, acts: seq<Action>)
    ensures var e := Run(s, acts);
            && e.total - s.total == Total(e.threads, BookedTotal) - Total(s.threads, BookedTotal)
            && e.extra - s.extra == Total(e.threads, BookedExtra) - Total(s.threads, BookedExtra)
            && e.blocked - s.blocked == Total(e.threads, BookedBlocked) - Total(s.threads, BookedBlocked)
    decreases |acts|
  {
    if acts != [] {
      BookedSums(s, acts[0]);
      BookedOnce(Apply(s, acts[0]), acts[1..]);
    }
  }

  // ---- Riding is kept out of the contract ----

  predicate KindOk(w: Window) {
    match w.kind
    case Billed => ByRide !in w.admits
    case Riding => ByRide in w.admits
    case Blocked => w.admits == []
  }

  ghost predicate KindsOk(s: State) {
    forall i, k :: 0 <= i < |s.threads| && 0 <= k < |s.threads[i].windows| ==> KindOk(s.threads[i].windows[k])
  }

  /** A batch is booked as riding exactly when one of its kernels was let through by the peer-idle ride,
      and whenever a thread is about to deduct from the balance no kernel of its batch was. */
  lemma {:induction false} RidingSeparated(s: State, acts: seq<Action>)
    requires ThreadsOk(s) && KindsOk(s)
    ensures ThreadsOk(Run(s, acts)) && KindsOk(Run(s, acts))
    ensures forall i :: 0 <= i < |Run(s, acts).threads| && Run(s, acts).threads[i].pc.SubCredit? ==>
              ByRide !in Run(s, acts).threads[i].admits
    decreases |acts|
  {
    if acts != [] {
      var a := acts[0];
      OneThread(s, a);
      if Moves(s, a) {
        ThreadOkStep(s, a);
        KindsKept(s, a);
      }
      RidingSeparated(Apply(s, a), acts[1..]);
    }
  }

  lemma KindsKept(s: State, a: Action)
    requires Moves(s, a) && ThreadOk(s.threads[a.i])
    requires forall k :: 0 <= k < |s.threads[a.i].windows| ==> KindOk(s.threads[a.i].windows[k])
    ensures forall k :: 0 <= k < |After(s, a).windows| ==> KindOk(After(s, a).windows[k])
  {
    WindowStep(s, a);
  }

  // ---- Waiting is never billed ----

  /** The windows are in order, do not overlap, and lie between `birth` and `upto`. */
  predicate Ordered(ws: seq<Window>, birth: int, upto: int) {
    if ws == [] then birth <= upto
    else var w := ws[|ws| - 1]; w.from <= w.to <= upto && Ordered(ws[..|ws| - 1], birth, w.from)
  }

  lemma OrderedAppend(ws: seq<Window>, birth: int, w: Window, upto: int)
    requires Ordered(ws, birth, w.from) && w.from <= w.to <= upto
    ensures Ordered(ws + [w], birth, upto)
  {
    assert (ws + [w])[..|ws|] == ws;
  }

  lemma OrderedLater(ws: seq<Window>, birth: int, u: int, v: int)
    requires Ordered(ws, birth, u) && u <= v
    ensures Ordered(ws, birth, v)
  {
  }

  /** The start of the window the thread has open, or the present. */
  function Frontier(t: Thread, metrics: bool, now: int): int {
    if t.count > 0 && !InCharge(t.pc) then t.start
    else if (metrics || t.pc.Record?) && InBlock(t.pc) && !t.pc.BlockStart? && !t.pc.AddBlocked? then t.pc.t0
    else now
  }

  predicate Timed(t: Thread, metrics: bool, now: int, birth: int) {
    Frontier(t, metrics, now) <= now && Ordered(t.windows, birth, Frontier(t, metrics, now))
  }

  /** A step without a new window never moves the frontier back; a new window starts at the frontier. */
  lemma FrontierStep(s: State, a: Action)
    requires Moves(s, a) && ThreadOk(s.threads[a.i]) && Frontier(s.threads[a.i], s.metrics, s.now) <= s.now
    ensures var t, t' := s.threads[a.i], After(s, a);
            var f, f' := Frontier(t, s.metrics, s.now), Frontier(t', s.metrics, s.now);
            if Closed(s, a) == [] then f <= f' <= s.now
            else f' == s.now == Closed(s, a)[0].to && Closed(s, a)[0].from == f
  {
  }

  lemma TimedStep(s: State, a: Action, birth: int)
    requires Moves(s, a) && ThreadOk(s.threads[a.i]) && Timed(s.threads[a.i], s.metrics, s.now, birth)
    ensures Timed(After(s, a), s.metrics, s.now, birth)
  {
    var t, t' := s.threads[a.i], After(s, a);
    FrontierStep(s, a);
    WindowStep(s, a);
    if Closed(s, a) == [] {
      assert t'.windows == t.windows;
      OrderedLater(t.windows, birth, Frontier(t, s.metrics, s.now), Frontier(t', s.metrics, s.now));
    } else {
      assert Closed(s, a) == [Closed(s, a)[0]];
      OrderedAppend(t.windows, birth, Closed(s, a)[0], s.now);
    }
  }

  ghost predicate AllTimed(s: State, birth: int) {
    ThreadsOk(s) && forall i :: 0 <= i < |s.threads| ==> Timed(s.threads[i], s.metrics, s.now, birth)
  }

  lemma AllTimedStep(s: State, a: Action, birth: int)
    requires AllTimed(s, birth)
    ensures AllTimed(Apply(s, a), birth) && Apply(s, a).metrics == s.metrics
  {
    OneThread(s, a);
    if Moves(s, a) {
      ThreadOkStep(s, a);
      TimedStep(s, a, birth);
    } else if a.Tick? {
      forall i | 0 <= i < |s.threads| ensures Timed(s.threads[i], s.metrics, s.now + a.d, birth) {
        var t := s.threads[i];
        OrderedLater(t.windows, birth, Frontier(t, s.metrics, s.now), Frontier(t, s.metrics, s.now + a.d));
      }
    }
  }

  lemma {:induction false} AllTimedRun(s: State, acts: seq<Action>, birth: int)
    requires AllTimed(s, birth)
    ensures AllTimed(Run(s, acts), birth) && |Run(s, acts).threads| == |s.threads|
    decreases |acts|
  {
    if acts != [] {
      OneThread(s, acts[0]);
      AllTimedStep(s, acts[0], birth);
      AllTimedRun(Apply(s, acts[0]), acts[1..], birth);
    }
  }

  lemma {:induction false} OrderedSum(ws: seq<Window>, birth: int, upto: int)
    requires Ordered(ws, birth, upto)
    ensures Time(ws, Billed) + Time(ws, Riding) + Time(ws, Blocked) <= upto - birth
  {
    if ws != [] {
      OrderedSum(ws[..|ws| - 1], birth, ws[|ws| - 1].from);
    }
  }

  lemma {:induction false} OrderedDisjoint(ws: seq<Window>, birth: int, upto: int, j: nat, k: nat)
    requires Ordered(ws, birth, upto) && j < k < |ws|
    ensures birth <= ws[j].from <= ws[j].to <= ws[k].from <= ws[k].to <= upto
  {
    var n := |ws| - 1;
    if k < n {
      OrderedDisjoint(ws[..n], birth, ws[n].from, j, k);
    } else if j < n - 1 {
      OrderedDisjoint(ws[..n], birth, ws[n].from, j, n - 1);
    } else {
      OrderedFirst(ws[..n][..n - 1], birth, ws[n - 1].from);
    }
  }

  lemma {:induction false} OrderedFirst(ws: seq<Window>, birth: int, upto: int)
    requires Ordered(ws, birth, upto)
    ensures birth <= upto
  {
    if ws != [] {
      OrderedFirst(ws[..|ws| - 1], birth, ws[|ws| - 1].from);
    }
  }

  /** A thread that starts outside the gate at time `s.now` with no history. */
  predicate NewThread(t: Thread) {
    t.pc == Out && t.count == 0 && !t.riding && t.admits == [] && t.windows == []
  }

  /** For every sequence of launches, syncs, refills and resets: on each thread the billed windows, riding
      windows and measured waits are pairwise disjoint, and their sum plus any open window is at most
      the wall time that has passed. */
  lemma WaitingNeverBilled(s: State, acts: seq<Action>, i: nat)
    requires i < |s.threads| && (forall k :: 0 <= k < |s.threads| ==> NewThread(s.threads[k]))
    ensures |Run(s, acts).threads| == |s.threads|
    ensures var e := Run(s, acts);
            var ws := e.threads[i].windows;
            && (forall j: nat, k: nat :: j < k < |ws| ==>
                  s.now <= ws[j].from <= ws[j].to <= ws[k].from <= ws[k].to <= e.now)
            && Time(ws, Billed) + Time(ws, Riding) + Time(ws, Blocked)
               + (e.now - Frontier(e.threads[i], e.metrics, e.now)) <= e.now - s.now
  {
    AllTimedRun(s, acts, s.now);
    var e := Run(s, acts);
    var t := e.threads[i];
    assert Timed(t, e.metrics, e.now, s.now);
    OrderedSum(t.windows, s.now, Frontier(t, e.metrics, e.now));
    forall j: nat, k: nat | j < k < |t.windows|
      ensures s.now <= t.windows[j].from <= t.windows[j].to <= t.windows[k].from <= t.windows[k].to <= e.now
    {
      OrderedDisjoint(t.windows, s.now, Frontier(t, e.metrics, e.now), j, k);
    }
  }
}
