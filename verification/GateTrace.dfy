/** What fallback runs do leave behind: the time of the run, which breaks ties between equal ratios. */
module GateTrace {
  import opened Wrappers
  import opened GateCore

  /** s' is s with other times of last run. */
  ghost predicate SameButLastRun(s: Core, s': Core) {
    && s'.order == s.order && s'.nextId == s.nextId && s'.running == s.running && s'.table.Keys == s.table.Keys
    && forall id :: id in s.table ==> s'.table[id] == s.table[id].(lastRun := s'.table[id].lastRun)
  }

  // ---- Whom a pick chooses from ----

  ghost predicate Entitled(s: Core) {
    exists id :: Candidate(s, id)
  }

  /** A contract pick chooses among the candidates, a fallback among all tenants with work. */
  ghost predicate Entrant(p: Policy, s: Core, id: nat) {
    if Entitled(s) then Candidate(s, id) else p.workConserving && Ready(s, id)
  }

  ghost predicate Least(p: Policy, s: Core, id: nat) {
    Entrant(p, s, id) && forall j :: Entrant(p, s, j) ==> Ratio(s.table[id]) <= Ratio(s.table[j])
  }

  /** No two entrants tie at the least ratio. */
  ghost predicate UniqueLeast(p: Policy, s: Core) {
    forall a, b :: Least(p, s, a) && Least(p, s, b) ==> a == b
  }

  lemma PickIsLeast(p: Policy, s: Core)
    requires Valid(s)
    ensures match Eligible(p, s)
            case None => forall id :: !Entrant(p, s, id)
            case Some((m, extra)) => Least(p, s, m) && (extra <==> !Entitled(s))
  {
    EligibleIsLeast(p, s);
  }

  lemma SameTenant(s: Core, s': Core, id: nat)
    requires SameButLastRun(s, s')
    ensures Candidate(s', id) <==> Candidate(s, id)
    ensures Ready(s', id) <==> Ready(s, id)
    ensures id in s.table ==> Ratio(s'.table[id]) == Ratio(s.table[id])
  {
    if id in s.table {
      assert s'.table[id] == s.table[id].(lastRun := s'.table[id].lastRun);
    }
  }

  lemma SameEntrants(p: Policy, s: Core, s': Core)
    requires SameButLastRun(s, s')
    ensures Entitled(s') <==> Entitled(s)
    ensures forall id :: Entrant(p, s', id) <==> Entrant(p, s, id)
  {
    forall id ensures (Candidate(s', id) <==> Candidate(s, id)) && (Ready(s', id) <==> Ready(s, id)) {
      SameTenant(s, s', id);
    }
  }

  lemma SameLeast(p: Policy, s: Core, s': Core, id: nat)
    requires SameButLastRun(s, s') && Least(p, s', id)
    ensures Least(p, s, id)
  {
    SameEntrants(p, s, s');
    SameTenant(s, s', id);
    forall j | Entrant(p, s, j) ensures Ratio(s.table[id]) <= Ratio(s.table[j]) {
      SameTenant(s, s', j);
    }
  }

  /** Without a tie the times of last run do not matter. */
  lemma ClearPick(p: Policy, s: Core, s': Core)
    requires Valid(s) && Valid(s') && SameButLastRun(s, s') && UniqueLeast(p, s)
    ensures Eligible(p, s') == Eligible(p, s)
  {
    PickIsLeast(p, s);
    PickIsLeast(p, s');
    SameEntrants(p, s, s');
    if Eligible(p, s').Some? {
      SameLeast(p, s, s', Eligible(p, s').value.0);
    }
  }

  // ---- Exactly when the times of last run matter in one state ----

  /** No history of last runs changes whom this pick chooses. */
  ghost predicate PickIsFixed(p: Policy, s: Core)
    requires Valid(s)
  {
    forall s' :: SameButLastRun(s, s') && Valid(s') ==> Eligible(p, s') == Eligible(p, s)
  }

  /** The state in which a ran longest ago. */
  ghost function Rested(s: Core, a: nat): Core {
    s.(table := map id | id in s.table :: s.table[id].(lastRun := if id == a then 0.0 else 1.0))
  }

  lemma SameNamesValid(s: Core, s': Core)
    requires Valid(s) && SameButLastRun(s, s')
    ensures Valid(s')
  {
    forall i: nat, j: nat ensures Apart(s'.order, i, j) { assert Apart(s.order, i, j); }
    forall id: nat ensures Listed(s', id) { assert Listed(s, id); }
    forall a: nat, b: nat ensures OneName(s', a, b) {
      assert OneName(s, a, b);
      if a in s.table && b in s.table {
        assert s'.table[a].name == s.table[a].name && s'.table[b].name == s.table[b].name;
      }
    }
  }

  lemma RestedFacts(s: Core, a: nat)
    requires Valid(s) && a in s.table
    ensures SameButLastRun(s, Rested(s, a)) && Valid(Rested(s, a))
  {
    assert SameButLastRun(s, Rested(s, a));
    SameNamesValid(s, Rested(s, a));
  }

  /** The rested tenant beats whoever ties with it. */
  lemma RestedBeats(s: Core, a: nat, m: nat)
    requires a in s.table && m in s.table && a != m && Ratio(s.table[a]) <= Ratio(s.table[m])
    ensures KeyLess(Rested(s, a).table[a], Rested(s, a).table[m])
  {
  }

  lemma RestedIsPicked(p: Policy, s: Core, a: nat)
    requires Valid(s) && Least(p, s, a)
    ensures Valid(Rested(s, a)) && SameButLastRun(s, Rested(s, a))
    ensures Eligible(p, Rested(s, a)) == Some((a, !Entitled(s)))
  {
    var s' := Rested(s, a);
    RestedFacts(s, a);
    SameEntrants(p, s, s');
    PickIsLeast(p, s');
    var m := Eligible(p, s').value.0;
    SameLeast(p, s, s', m);
    if m != a {
      RestedBeats(s, a, m);
      NotBeaten(p, s', a);
      assert false;
    }
  }

  lemma NotBeaten(p: Policy, s: Core, a: nat)
    requires Valid(s) && Entrant(p, s, a) && Eligible(p, s).Some?
    ensures Eligible(p, s).value.0 in s.table && !KeyLess(s.table[a], s.table[Eligible(p, s).value.0])
  {
    EligibleIsLeast(p, s);
  }

  /** The times of last run can change a pick, contract or fallback, if and only if two of the tenants it
      chooses from tie at the least ratio. */
  lemma TraceOnlyInTies(p: Policy, s: Core)
    requires Valid(s)
    ensures PickIsFixed(p, s) <==> UniqueLeast(p, s)
  {
    if PickIsFixed(p, s) {
      forall a, b | Least(p, s, a) && Least(p, s, b) ensures a == b {
        RestedIsPicked(p, s, a);
        RestedIsPicked(p, s, b);
      }
    }
    if UniqueLeast(p, s) {
      forall s' | SameButLastRun(s, s') && Valid(s') ensures Eligible(p, s') == Eligible(p, s) {
        ClearPick(p, s, s');
      }
    }
  }

  // ---- Runs with the trace erased ----

  /** The action with the time that a fallback run would leave behind replaced by the one already there. */
  function Unstamped(s: Core, a: Action): Action {
    if a.DoFinish? && s.running.Some? && s.running.value.extra && s.running.value.id in s.table
    then DoFinish(a.dt, s.table[s.running.value.id].lastRun)
    else a
  }

  function ErasedRun(p: Policy, s: Core, acts: seq<Action>): (e: Core)
    requires Valid(s)
    ensures Valid(e)
    decreases |acts|
  {
    if acts == [] then s else
      ValidKept(p, s, Unstamped(s, acts[0]));
      ErasedRun(p, Apply(p, s, Unstamped(s, acts[0])), acts[1..])
  }

  /** Whom an action picks, and whether as a fallback. */
  function Picked(p: Policy, s: Core, a: Action): seq<(nat, bool)>
    requires Valid(s)
  {
    if a.DoPick? && s.running.None? && Eligible(p, s).Some? then [Eligible(p, s).value] else []
  }

  function PickedRun(p: Policy, s: Core, acts: seq<Action>): seq<(nat, bool)>
    requires Valid(s)
    decreases |acts|
  {
    if acts == [] then [] else
      ValidKept(p, s, acts[0]);
      Picked(p, s, acts[0]) + PickedRun(p, Apply(p, s, acts[0]), acts[1..])
  }

  function ErasedPicks(p: Policy, s: Core, acts: seq<Action>): seq<(nat, bool)>
    requires Valid(s)
    decreases |acts|
  {
    if acts == [] then [] else
      ValidKept(p, s, Unstamped(s, acts[0]));
      Picked(p, s, acts[0]) + ErasedPicks(p, Apply(p, s, Unstamped(s, acts[0])), acts[1..])
  }

  /** No pick of the run has to break a tie. */
  ghost predicate ClearRun(p: Policy, s: Core, acts: seq<Action>)
    requires Valid(s)
    decreases |acts|
  {
    acts == [] || ((acts[0].DoPick? && s.running.None? ==> UniqueLeast(p, s))
                   && (ValidKept(p, s, acts[0]); ClearRun(p, Apply(p, s, acts[0]), acts[1..])))
  }

  // ---- One step of both runs ----

  lemma SamePosition(s: Core, s': Core, name: string, k: nat)
    requires Valid(s) && Valid(s') && SameButLastRun(s, s') && k <= |s.order|
    ensures Position(s', name, k) == Position(s, name, k)
    decreases |s.order| - k
  {
    if k < |s.order| {
      assert Listed(s, s.order[k]);
      assert s'.table[s.order[k]].name == s.table[s.order[k]].name;
      SamePosition(s, s', name, k + 1);
    }
  }

  /** Replacing the record of one tenant on both sides. */
  lemma SameUpdate(s: Core, s': Core, e: Core, e': Core, id: nat, t: Tenant, t': Tenant)
    requires SameButLastRun(s, s') && id in s.table && t' == t.(lastRun := t'.lastRun)
    requires e.table == s.table[id := t] && e'.table == s'.table[id := t']
    requires e.order == s.order && e.nextId == s.nextId && e'.order == s'.order && e'.nextId == s'.nextId
    requires e'.running == e.running
    ensures SameButLastRun(e, e')
  {
    forall j | j in e.table ensures e'.table[j] == e.table[j].(lastRun := e'.table[j].lastRun) {
      if j != id {
        assert s'.table[j] == s.table[j].(lastRun := s'.table[j].lastRun);
      }
    }
  }

  lemma RegisterTwice(s: Core, s': Core, name: string)
    requires Valid(s) && Valid(s') && SameButLastRun(s, s')
    ensures SameButLastRun(AfterRegister(s, name), AfterRegister(s', name))
  {
    SamePosition(s, s', name, 0);
    if Position(s, name, 0).None? {
      var e, e' := AfterRegister(s, name), AfterRegister(s', name);
      forall j | j in e.table ensures e'.table[j] == e.table[j].(lastRun := e'.table[j].lastRun) {
        if j != s.nextId {
          assert s'.table[j] == s.table[j].(lastRun := s'.table[j].lastRun);
        }
      }
    }
  }

  lemma UnregisterTwice(s: Core, s': Core, name: string)
    requires Valid(s) && Valid(s') && SameButLastRun(s, s')
    ensures SameButLastRun(AfterUnregister(s, name), AfterUnregister(s', name))
  {
    SamePosition(s, s', name, 0);
    var e, e' := AfterUnregister(s, name), AfterUnregister(s', name);
    forall j | j in e.table ensures j in e'.table && e'.table[j] == e.table[j].(lastRun := e'.table[j].lastRun) {
      assert s'.table[j] == s.table[j].(lastRun := s'.table[j].lastRun);
    }
  }

  /** Commands neither read nor write the time of last run. */
  lemma ObeyTwice(p: Policy, t: Tenant, t': Tenant, c: Command)
    requires t' == t.(lastRun := t'.lastRun)
    ensures Obey(p, t', c) == Obey(p, t, c).(lastRun := Obey(p, t', c).lastRun)
  {
  }

  lemma CommandTwice(p: Policy, s: Core, s': Core, name: string, c: Command)
    requires Valid(s) && Valid(s') && SameButLastRun(s, s')
    ensures SameButLastRun(AfterCommand(p, s, name, c), AfterCommand(p, s', name, c))
  {
    SamePosition(s, s', name, 0);
    var k := Position(s, name, 0);
    if k.Some? {
      var id := s.order[k.value];
      assert id in s.order && s'.table[id] == s.table[id].(lastRun := s'.table[id].lastRun);
      ObeyTwice(p, s.table[id], s'.table[id], c);
      SameUpdate(s, s', AfterCommand(p, s, name, c), AfterCommand(p, s', name, c), id,
                 Obey(p, s.table[id], c), Obey(p, s'.table[id], c));
    }
  }

  lemma SubmitTwice(s: Core, s': Core, name: string, req: Request)
    requires Valid(s) && Valid(s') && SameButLastRun(s, s')
    ensures SameButLastRun(AfterSubmit(s, name, req), AfterSubmit(s', name, req))
  {
    SamePosition(s, s', name, 0);
    var k := Position(s, name, 0);
    if k.Some? {
      var id := s.order[k.value];
      assert id in s.order && s'.table[id] == s.table[id].(lastRun := s'.table[id].lastRun);
      SameUpdate(s, s', AfterSubmit(s, name, req), AfterSubmit(s', name, req), id,
                 s.table[id].(queue := s.table[id].queue + [req]), s'.table[id].(queue := s'.table[id].queue + [req]));
    }
  }

  /** What a pick does once its choice is known. */
  function Dequeued(s: Core, id: nat, extra: bool): Core
    requires Ready(s, id)
  {
    var t := s.table[id];
    s.(running := Some(Job(id, extra, t.queue[0])), table := s.table[id := t.(queue := t.queue[1..])])
  }

  lemma PickDequeues(p: Policy, s: Core, id: nat, extra: bool)
    requires Valid(s) && s.running.None? && Eligible(p, s) == Some((id, extra)) && Ready(s, id)
    ensures AfterPick(p, s) == Dequeued(s, id, extra)
  {
  }

  lemma DequeueTwice(s: Core, s': Core, id: nat, extra: bool)
    requires SameButLastRun(s, s') && Ready(s, id)
    ensures Ready(s', id) && SameButLastRun(Dequeued(s, id, extra), Dequeued(s', id, extra))
  {
    var t, t' := s.table[id], s'.table[id];
    assert t' == t.(lastRun := t'.lastRun);
    SameUpdate(s, s', Dequeued(s, id, extra), Dequeued(s', id, extra), id,
               t.(queue := t.queue[1..]), t'.(queue := t'.queue[1..]));
  }

  lemma PickTwice(p: Policy, s: Core, s': Core)
    requires Valid(s) && Valid(s') && SameButLastRun(s, s') && (s.running.None? ==> UniqueLeast(p, s))
    ensures SameButLastRun(AfterPick(p, s), AfterPick(p, s'))
    ensures Picked(p, s', DoPick) == Picked(p, s, DoPick)
  {
    if s.running.None? {
      ClearPick(p, s, s');
      PickIsLeast(p, s);
      if Eligible(p, s).Some? {
        var (id, extra) := Eligible(p, s).value;
        DequeueTwice(s, s', id, extra);
        PickDequeues(p, s, id, extra);
        PickDequeues(p, s', id, extra);
      }
    }
  }

  /** The two sides may book different ends of the same run. */
  lemma FinishTwice(p: Policy, s: Core, s': Core, dt: real, at: real, at': real)
    requires SameButLastRun(s, s')
    ensures SameButLastRun(AfterFinish(p, s, dt, at), AfterFinish(p, s', dt, at'))
  {
    if s.running.Some? && s.running.value.id in s.table {
      var job := s.running.value;
      assert s'.table[job.id] == s.table[job.id].(lastRun := s'.table[job.id].lastRun);
      SameUpdate(s, s', AfterFinish(p, s, dt, at), AfterFinish(p, s', dt, at'), job.id,
                 Charge(p, s.table[job.id], job.extra, dt, at), Charge(p, s'.table[job.id], job.extra, dt, at'));
    }
  }

  lemma StepTwice(p: Policy, s: Core, s': Core, a: Action)
    requires Valid(s) && Valid(s') && SameButLastRun(s, s')
    requires a.DoPick? && s.running.None? ==> UniqueLeast(p, s)
    ensures SameButLastRun(Apply(p, s, a), Apply(p, s', Unstamped(s', a)))
    ensures Picked(p, s', a) == Picked(p, s, a)
  {
    if a.DoRegister? {
      RegisterTwice(s, s', a.name);
    } else if a.DoUnregister? {
      UnregisterTwice(s, s', a.name);
    } else if a.DoCommand? {
      CommandTwice(p, s, s', a.name, a.c);
    } else if a.DoSubmit? {
      SubmitTwice(s, s', a.name, a.req);
    } else if a.DoPick? {
      PickTwice(p, s, s');
    } else {
      var a' := Unstamped(s', a);
      FinishTwice(p, s, s', a.dt, a.at, a'.at);
      assert Apply(p, s', a') == AfterFinish(p, s', a.dt, a'.at);
    }
  }

  lemma {:induction false} ErasedAlong(p: Policy, s: Core, s': Core, acts: seq<Action>)
    requires Valid(s) && Valid(s') && SameButLastRun(s, s') && ClearRun(p, s, acts)
    ensures SameButLastRun(Run(p, s, acts), ErasedRun(p, s', acts))
    ensures ErasedPicks(p, s', acts) == PickedRun(p, s, acts)
    decreases |acts|
  {
    if acts != [] {
      ValidKept(p, s, acts[0]);
      ValidKept(p, s', Unstamped(s', acts[0]));
      StepTwice(p, s, s', acts[0]);
      ErasedAlong(p, Apply(p, s, acts[0]), Apply(p, s', Unstamped(s', acts[0])), acts[1..]);
    }
  }

  /** In every run in which no pick breaks a tie, erasing the times that fallback runs leave behind changes
      no pick, and nothing of the final state but those times. */
  lemma ClearRunsLeaveNoTrace(p: Policy, s: Core, acts: seq<Action>)
    requires Valid(s) && ClearRun(p, s, acts)
    ensures ErasedPicks(p, s, acts) == PickedRun(p, s, acts)
    ensures SameButLastRun(Run(p, s, acts), ErasedRun(p, s, acts))
  {
    ErasedAlong(p, s, s, acts);
  }

  // ---- A ride that decides a later pick ----

  function Pair(a: Tenant, b: Tenant, running: Option<Job>): Core {
    Core([0, 1], map[0 := a, 1 := b], 2, running)
  }

  predicate Named(a: Tenant, b: Tenant) { a.name == "a" && b.name == "b" }

  /** Out of credit, with work queued. */
  function Spent(name: string, lastRun: real): Tenant {
    Tenant(name, [0, 1], true, false, 0.0, 0.0, 0.0, 0.0, 0, 0, lastRun)
  }

  lemma PairValid(a: Tenant, b: Tenant, running: Option<Job>)
    requires Named(a, b) && (running.Some? ==> running.value.id < 2)
    ensures Valid(Pair(a, b, running))
    ensures Position(Pair(a, b, running), "a", 0) == Some(0) && Position(Pair(a, b, running), "b", 0) == Some(1)
  {
    var s := Pair(a, b, running);
    assert "a" != "b" by { assert "a"[0] != "b"[0]; }
    assert Position(s, "b", 1) == Some(1);
  }

  lemma RefillBoth(p: Policy, a: Tenant, b: Tenant)
    requires Named(a, b)
    ensures Valid(Pair(a, b, None))
    ensures Run(p, Pair(a, b, None), Refill()) == Pair(Obey(p, a, TimeAdd(1.0)), Obey(p, b, TimeAdd(1.0)), None)
    ensures ErasedRun(p, Pair(a, b, None), Refill()) == Run(p, Pair(a, b, None), Refill())
  {
    var s := Pair(a, b, None);
    PairValid(a, b, None);
    var a', b' := Obey(p, a, TimeAdd(1.0)), Obey(p, b, TimeAdd(1.0));
    var u := Pair(a', b, None);
    PairValid(a', b, None);
    assert s.table[0 := a'] == u.table;
    assert Apply(p, s, Refill()[0]) == u;
    var v := Pair(a', b', None);
    PairValid(a', b', None);
    assert u.table[1 := b'] == v.table;
    assert Apply(p, u, Refill()[1]) == v;
    TwoSteps(p, s, Refill()[0], Refill()[1], u, v);
    TwoStepsErased(p, s, Refill()[0], Refill()[1], u, v);
  }

  function Refill(): seq<Action> {
    [DoCommand("a", TimeAdd(1.0)), DoCommand("b", TimeAdd(1.0))]
  }

  /** Who is an entrant among two tenants that both have work and are both, or neither, entitled. */
  lemma BothEnter(p: Policy, a: Tenant, b: Tenant)
    requires Named(a, b) && a.queue != [] && b.queue != []
    requires a.armed && !a.unlimited && b.armed && !b.unlimited && (a.credit > 0.0 <==> b.credit > 0.0)
    ensures var s := Pair(a, b, None);
            && Ready(s, 0) && Ready(s, 1) && (forall id :: Ready(s, id) ==> id == 0 || id == 1)
            && (Candidate(s, 0) <==> a.credit > 0.0) && (Candidate(s, 1) <==> a.credit > 0.0)
            && s.table[0] == a && s.table[1] == b
  {
  }

  lemma PairChoice(p: Policy, a: Tenant, b: Tenant)
    requires Named(a, b) && a.queue != [] && b.queue != [] && (a.credit > 0.0 || p.workConserving)
    requires a.armed && !a.unlimited && b.armed && !b.unlimited && (a.credit > 0.0 <==> b.credit > 0.0)
    ensures Valid(Pair(a, b, None)) && Eligible(p, Pair(a, b, None)).Some?
    ensures var (m, extra) := Eligible(p, Pair(a, b, None)).value;
            && (extra <==> a.credit <= 0.0)
            && ((m == 0 && !KeyLess(b, a)) || (m == 1 && !KeyLess(a, b)))
  {
    var s := Pair(a, b, None);
    PairValid(a, b, None);
    BothEnter(p, a, b);
    assert Entitled(s) <==> a.credit > 0.0;
    assert Entrant(p, s, 0) && Entrant(p, s, 1);
    PickIsLeast(p, s);
    NotBeaten(p, s, 0);
    NotBeaten(p, s, 1);
  }

  lemma OlderIsLess(a: Tenant, b: Tenant)
    requires Ratio(a) == Ratio(b) && a.lastRun < b.lastRun
    ensures KeyLess(a, b)
  {
  }

  /** With equal ratios, the one of the two that ran longer ago is picked. */
  lemma OlderIsPicked(p: Policy, a: Tenant, b: Tenant, first: nat)
    requires Named(a, b) && a.queue != [] && b.queue != [] && Ratio(a) == Ratio(b) && first < 2
    requires if first == 0 then a.lastRun < b.lastRun else b.lastRun < a.lastRun
    requires a.armed && !a.unlimited && b.armed && !b.unlimited && (a.credit > 0.0 <==> b.credit > 0.0)
    requires a.credit > 0.0 || p.workConserving
    ensures Valid(Pair(a, b, None)) && Eligible(p, Pair(a, b, None)) == Some((first, a.credit <= 0.0))
  {
    PairChoice(p, a, b);
    if first == 0 {
      OlderIsLess(a, b);
    } else {
      OlderIsLess(b, a);
    }
  }

  lemma TwoSteps(p: Policy, s: Core, x: Action, y: Action, u: Core, v: Core)
    requires Valid(s) && Valid(u) && Valid(v) && Apply(p, s, x) == u && Apply(p, u, y) == v
    ensures Run(p, s, [x, y]) == v
  {
    assert [x, y][1..] == [y] && [y][1..] == [];
    assert Run(p, v, []) == v && Run(p, u, [y]) == v;
  }

  lemma TwoStepsErased(p: Policy, s: Core, x: Action, y: Action, u: Core, v: Core)
    requires Valid(s) && Valid(u) && Valid(v)
    requires Apply(p, s, Unstamped(s, x)) == u && Apply(p, u, Unstamped(u, y)) == v
    ensures ErasedRun(p, s, [x, y]) == v
  {
    assert [x, y][1..] == [y] && [y][1..] == [];
    assert ErasedRun(p, v, []) == v && ErasedRun(p, u, [y]) == v;
  }

  /** With nobody entitled, tenant a is picked as a fallback. */
  lemma RideBegins(p: Policy, a: Tenant, b: Tenant)
    requires p.workConserving && Named(a, b) && a.queue != [] && b.queue != [] && Ratio(a) == Ratio(b)
    requires a.lastRun < b.lastRun && a.armed && !a.unlimited && b.armed && !b.unlimited
    requires a.credit <= 0.0 && b.credit <= 0.0
    ensures var u := Pair(a.(queue := a.queue[1..]), b, Some(Job(0, true, a.queue[0])));
            Valid(Pair(a, b, None)) && Valid(u) && Apply(p, Pair(a, b, None), DoPick) == u
  {
    var s := Pair(a, b, None);
    OlderIsPicked(p, a, b, 0);
    PairDequeued(a, b);
    PickDequeues(p, s, 0, true);
    PairValid(a.(queue := a.queue[1..]), b, Some(Job(0, true, a.queue[0])));
    assert Apply(p, s, DoPick) == AfterPick(p, s);
  }

  lemma PairDequeued(a: Tenant, b: Tenant)
    requires a.queue != []
    ensures Ready(Pair(a, b, None), 0)
    ensures Dequeued(Pair(a, b, None), 0, true) == Pair(a.(queue := a.queue[1..]), b, Some(Job(0, true, a.queue[0])))
  {
    var a' := a.(queue := a.queue[1..]);
    assert map[0 := a, 1 := b][0 := a'] == map[0 := a', 1 := b];
  }

  /** The ride of tenant a. */
  lemma Ride(p: Policy, a: Tenant, b: Tenant, dt: real, at: real)
    requires p.workConserving && Named(a, b) && a.queue != [] && b.queue != [] && Ratio(a) == Ratio(b)
    requires a.lastRun < b.lastRun && a.armed && !a.unlimited && b.armed && !b.unlimited
    requires a.credit <= 0.0 && b.credit <= 0.0
    ensures var s, a' := Pair(a, b, None), a.(queue := a.queue[1..]);
            && Valid(s)
            && Run(p, s, [DoPick, DoFinish(dt, at)]) == Pair(Charge(p, a', true, dt, at), b, None)
            && ErasedRun(p, s, [DoPick, DoFinish(dt, at)]) == Pair(Charge(p, a', true, dt, a.lastRun), b, None)
  {
    var s, a' := Pair(a, b, None), a.(queue := a.queue[1..]);
    var u := Pair(a', b, Some(Job(0, true, a.queue[0])));
    RideBegins(p, a, b);
    RideEnds(p, a', b, a.queue[0], dt, at);
    RideEnds(p, a', b, a.queue[0], dt, a.lastRun);
    TwoSteps(p, s, DoPick, DoFinish(dt, at), u, Pair(Charge(p, a', true, dt, at), b, None));
    assert Unstamped(u, DoFinish(dt, at)) == DoFinish(dt, a.lastRun) && Unstamped(s, DoPick) == DoPick;
    TwoStepsErased(p, s, DoPick, DoFinish(dt, at), u, Pair(Charge(p, a', true, dt, a.lastRun), b, None));
  }

  lemma RideEnds(p: Policy, a: Tenant, b: Tenant, req: Request, dt: real, at: real)
    requires Named(a, b)
    ensures var u := Pair(a, b, Some(Job(0, true, req)));
            && Valid(u) && Apply(p, u, DoFinish(dt, at)) == Pair(Charge(p, a, true, dt, at), b, None)
    ensures Valid(Pair(Charge(p, a, true, dt, at), b, None))
  {
    var u := Pair(a, b, Some(Job(0, true, req)));
    PairValid(a, b, u.running);
    PairValid(Charge(p, a, true, dt, at), b, None);
    assert u.table[0 := Charge(p, a, true, dt, at)] == Pair(Charge(p, a, true, dt, at), b, None).table;
  }

  lemma {:induction false} RunAppend(p: Policy, s: Core, xs: seq<Action>, ys: seq<Action>)
    requires Valid(s)
    ensures Run(p, s, xs + ys) == Run(p, Run(p, s, xs), ys)
    decreases |xs|
  {
    if xs == [] {
      assert xs + ys == ys;
    } else {
      assert (xs + ys)[1..] == xs[1..] + ys;
      ValidKept(p, s, xs[0]);
      RunAppend(p, Apply(p, s, xs[0]), xs[1..], ys);
    }
  }

  lemma {:induction false} ErasedAppend(p: Policy, s: Core, xs: seq<Action>, ys: seq<Action>)
    requires Valid(s)
    ensures ErasedRun(p, s, xs + ys) == ErasedRun(p, ErasedRun(p, s, xs), ys)
    decreases |xs|
  {
    if xs == [] {
      assert xs + ys == ys;
    } else {
      assert (xs + ys)[1..] == xs[1..] + ys;
      ValidKept(p, s, Unstamped(s, xs[0]));
      ErasedAppend(p, Apply(p, s, Unstamped(s, xs[0])), xs[1..], ys);
    }
  }

  /** Two tenants out of credit, a having run before b. When both get the same budget, a is picked; when a
      rides first, b is. Erasing the time the ride left behind gives the pick back to a, although the ride
      is in neither contract account. */
  lemma RideDecidesPick(p: Policy, dt: real, at: real)
    requires p.workConserving && !p.legacy && p.cap >= 1.0 && at > 1.0
    ensures var s, ride := Pair(Spent("a", 0.0), Spent("b", 1.0), None), [DoPick, DoFinish(dt, at)];
            && Valid(s)
            && Eligible(p, Run(p, s, Refill())) == Some((0, false))
            && Eligible(p, Run(p, s, ride + Refill())) == Some((1, false))
            && Eligible(p, ErasedRun(p, s, ride + Refill())) == Some((0, false))
  {
    var a, b := Spent("a", 0.0), Spent("b", 1.0);
    var s, ride := Pair(a, b, None), [DoPick, DoFinish(dt, at)];
    var rode := Charge(p, a.(queue := a.queue[1..]), true, dt, at);
    var erased := Charge(p, a.(queue := a.queue[1..]), true, dt, 0.0);
    PairValid(a, b, None);
    Ride(p, a, b, dt, at);
    RunAppend(p, s, ride, Refill());
    ErasedAppend(p, s, ride, Refill());
    Afterwards(p, a, b, 0);
    Afterwards(p, rode, b, 1);
    Afterwards(p, erased, b, 0);
  }

  lemma Afterwards(p: Policy, a: Tenant, b: Tenant, first: nat)
    requires p.cap >= 1.0 && !p.legacy && Named(a, b) && a.queue != [] && b.queue != [] && first < 2
    requires a.armed && !a.unlimited && a.credit == 0.0 && a.charged == 0.0 && a.granted == 0.0
    requires b.armed && !b.unlimited && b.credit == 0.0 && b.charged == 0.0 && b.granted == 0.0
    requires if first == 0 then a.lastRun < b.lastRun else b.lastRun < a.lastRun
    ensures Valid(Pair(a, b, None))
    ensures Eligible(p, Run(p, Pair(a, b, None), Refill())) == Some((first, false))
    ensures Eligible(p, ErasedRun(p, Pair(a, b, None), Refill())) == Some((first, false))
  {
    RefillBoth(p, a, b);
    OlderIsPicked(p, Obey(p, a, TimeAdd(1.0)), Obey(p, b, TimeAdd(1.0)), first);
  }
}
