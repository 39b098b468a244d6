/** Fallback runs: time nobody was entitled to is booked apart and shared out in turn. */
module GateRiding {
  import opened Wrappers
  import opened GateCore

  // ---- Fallback charges leave the contract books alone ----

  /** The fields the contract is judged by; everything else is blanked. */
  function Account(t: Tenant): Tenant {
    t.(queue := [], extra := 0.0, done := 0, doneExtra := 0, lastRun := 0.0)
  }

  ghost function Books(s: Core): map<nat, Tenant> {
    map id | id in s.table :: Account(s.table[id])
  }

  datatype Event =
    | Joined(id: nat, name: string) | Left(id: nat)
    | Commanded(id: nat, c: Command) | Served(id: nat, dt: real, extra: bool)

  /** What the bookkeeper sees of one action. */
  function EventsOf(s: Core, a: Action): seq<Event>
    requires Valid(s)
  {
    match a
    case DoRegister(name) => if Position(s, name, 0).Some? then [] else [Joined(s.nextId, name)]
    case DoUnregister(name) =>
      var k := Position(s, name, 0); if k.Some? then [Left(s.order[k.value])] else []
    case DoCommand(name, c) =>
      var k := Position(s, name, 0); if k.Some? then [Commanded(s.order[k.value], c)] else []
    case DoFinish(dt, _) => if s.running.Some? then [Served(s.running.value.id, dt, s.running.value.extra)] else []
    case _ => []
  }

  function Events(p: Policy, s: Core, acts: seq<Action>): seq<Event>
    requires Valid(s)
    decreases |acts|
  {
    if acts == [] then [] else
      ValidKept(p, s, acts[0]);
      EventsOf(s, acts[0]) + Events(p, Apply(p, s, acts[0]), acts[1..])
  }

  function Post(p: Policy, books: map<nat, Tenant>, e: Event): map<nat, Tenant> {
    match e
    case Joined(id, name) => books[id := NewTenant(name)]
    case Left(id) => books - {id}
    case Commanded(id, c) => if id in books then books[id := Obey(p, books[id], c)] else books
    case Served(id, dt, extra) =>
      if id in books then books[id := Account(Charge(p, books[id], extra, dt, 0.0))] else books
  }

  function PostAll(p: Policy, books: map<nat, Tenant>, es: seq<Event>): map<nat, Tenant>
    decreases |es|
  {
    if es == [] then books else PostAll(p, Post(p, books, es[0]), es[1..])
  }

  /** The events without the fallback charges. */
  function Contract(es: seq<Event>): seq<Event> {
    if es == [] then []
    else (if es[0].Served? && es[0].extra then [] else [es[0]]) + Contract(es[1..])
  }

  lemma BooksUpdate(s: Core, s': Core, id: nat, t: Tenant)
    requires id in s.table && s'.table == s.table[id := t]
    ensures Books(s') == Books(s)[id := Account(t)]
  {
  }

  lemma ObeyAccount(p: Policy, t: Tenant, c: Command)
    ensures Account(Obey(p, t, c)) == Obey(p, Account(t), c)
  {
  }

  lemma CommandPosts(p: Policy, s: Core, name: string, c: Command, k: nat)
    requires Valid(s) && Position(s, name, 0) == Some(k)
    ensures Books(AfterCommand(p, s, name, c)) == Post(p, Books(s), Commanded(s.order[k], c))
  {
    var id := s.order[k];
    BooksUpdate(s, AfterCommand(p, s, name, c), id, Obey(p, s.table[id], c));
    ObeyAccount(p, s.table[id], c);
    assert Books(s)[id] == Account(s.table[id]);
  }

  lemma FinishPosts(p: Policy, s: Core, dt: real, at: real)
    requires s.running.Some?
    ensures Books(AfterFinish(p, s, dt, at)) == Post(p, Books(s), Served(s.running.value.id, dt, s.running.value.extra))
  {
    var job := s.running.value;
    if job.id in s.table {
      BooksUpdate(s, AfterFinish(p, s, dt, at), job.id, Charge(p, s.table[job.id], job.extra, dt, at));
    }
  }

  lemma QueueOnly(s: Core, s': Core, id: nat, q: seq<Request>)
    requires id in s.table && s'.table == s.table[id := s.table[id].(queue := q)]
    ensures Books(s') == Books(s)
  {
    BooksUpdate(s, s', id, s.table[id].(queue := q));
  }

  lemma PickPostsNothing(p: Policy, s: Core)
    requires Valid(s)
    ensures Books(AfterPick(p, s)) == Books(s)
  {
    var e := Eligible(p, s);
    if s.running.None? && e.Some? && Ready(s, e.value.0) {
      QueueOnly(s, AfterPick(p, s), e.value.0, s.table[e.value.0].queue[1..]);
    }
  }

  lemma SubmitPostsNothing(s: Core, name: string, req: Request)
    requires Valid(s)
    ensures Books(AfterSubmit(s, name, req)) == Books(s)
  {
    var k := Position(s, name, 0);
    if k.Some? {
      QueueOnly(s, AfterSubmit(s, name, req), s.order[k.value], s.table[s.order[k.value]].queue + [req]);
    }
  }

  lemma UnregisterPosts(p: Policy, s: Core, name: string)
    requires Valid(s)
    ensures Books(AfterUnregister(s, name)) ==
              match Position(s, name, 0)
              case None => Books(s)
              case Some(k) => Post(p, Books(s), Left(s.order[k]))
  {
  }

  lemma BooksStep(p: Policy, s: Core, a: Action)
    requires Valid(s)
    ensures var es := EventsOf(s, a);
            |es| <= 1 && Books(Apply(p, s, a)) == if es == [] then Books(s) else Post(p, Books(s), es[0])
  {
    match a
    case DoRegister(name) => RegisterPosts(s, name);
    case DoUnregister(name) => UnregisterPosts(p, s, name);
    case DoCommand(name, c) =>
      var k := Position(s, name, 0);
      if k.Some? { CommandPosts(p, s, name, c, k.value); }
    case DoSubmit(name, req) => SubmitPostsNothing(s, name, req);
    case DoPick => PickPostsNothing(p, s);
    case DoFinish(dt, at) =>
      if s.running.Some? { FinishPosts(p, s, dt, at); }
  }

  lemma RegisterPosts(s: Core, name: string)
    requires Valid(s)
    ensures Books(AfterRegister(s, name)) ==
              if Position(s, name, 0).Some? then Books(s)
              else Post(Policy(0.0, true, false), Books(s), Joined(s.nextId, name))
  {
  }

  ghost predicate Blank(books: map<nat, Tenant>) {
    forall id :: id in books ==> Account(books[id]) == books[id]
  }

  lemma FallbackPostsNothing(p: Policy, books: map<nat, Tenant>, e: Event)
    requires !p.legacy && Blank(books) && e.Served? && e.extra
    ensures Post(p, books, e) == books
  {
  }

  lemma ContractCons(es: seq<Event>, rest: seq<Event>)
    requires |es| <= 1
    ensures Contract(es + rest) == (if es == [] || (es[0].Served? && es[0].extra) then [] else es) + Contract(rest)
  {
    if es == [] {
      assert es + rest == rest;
    } else {
      assert (es + rest)[1..] == rest;
    }
  }

  /** Erasing every fallback charge from any run leaves every tenant's charged, credit and granted time
      unchanged: the books are the contract events posted in order. */
  lemma {:induction false} RidingLeavesNoTrace(p: Policy, s: Core, acts: seq<Action>)
    requires Valid(s) && !p.legacy
    ensures Books(Run(p, s, acts)) == PostAll(p, Books(s), Contract(Events(p, s, acts)))
    decreases |acts|
  {
    if acts != [] {
      var a := acts[0];
      ValidKept(p, s, a);
      var s', es := Apply(p, s, a), EventsOf(s, a);
      BooksStep(p, s, a);
      RidingLeavesNoTrace(p, s', acts[1..]);
      ContractCons(es, Events(p, s', acts[1..]));
      var rest := Contract(Events(p, s', acts[1..]));
      if es == [] {
        assert [] + rest == rest;
      } else if es[0].Served? && es[0].extra {
        FallbackPostsNothing(p, Books(s), es[0]);
        assert [] + rest == rest;
      } else {
        assert (es + rest)[1..] == rest;
      }
    }
  }

  // ---- Every run is booked once ----

  /** Time and number of runs of one tenant, as contract and as fallback. */
  datatype Tally = Tally(contract: real, fallback: real, runs: nat, fallbacks: nat)

  function Add(x: Tally, y: Tally): Tally {
    Tally(x.contract + y.contract, x.fallback + y.fallback, x.runs + y.runs, x.fallbacks + y.fallbacks)
  }

  function TallyOf(s: Core, a: Action, id: nat): Tally {
    if a.DoFinish? && s.running.Some? && s.running.value.id == id then
      if s.running.value.extra then Tally(0.0, a.dt, 1, 1) else Tally(a.dt, 0.0, 1, 0)
    else Tally(0.0, 0.0, 0, 0)
  }

  /** What was really run for tenant id. */
  function TallyRun(p: Policy, s: Core, acts: seq<Action>, id: nat): Tally
    requires Valid(s)
    decreases |acts|
  {
    if acts == [] then Tally(0.0, 0.0, 0, 0) else
      ValidKept(p, s, acts[0]);
      Add(TallyOf(s, acts[0], id), TallyRun(p, Apply(p, s, acts[0]), acts[1..], id))
  }

  predicate Booked(t: Tenant, e: Tenant, y: Tally) {
    && e.name == t.name && e.charged == t.charged + y.contract && e.extra == t.extra + y.fallback
    && e.done == t.done + y.runs && e.doneExtra == t.doneExtra + y.fallbacks
  }

  lemma BookedAdds(t: Tenant, u: Tenant, e: Tenant, x: Tally, y: Tally)
    requires Booked(t, u, x) && Booked(u, e, y)
    ensures Booked(t, e, Add(x, y))
  {
  }

  lemma BookedStep(p: Policy, s: Core, a: Action, id: nat)
    requires Valid(s) && !p.legacy && id in s.table && a != DoUnregister(s.table[id].name)
    ensures id in Apply(p, s, a).table && Booked(s.table[id], Apply(p, s, a).table[id], TallyOf(s, a, id))
  {
    ApplyEffect(p, s, a, id);
  }

  /** The time a tenant is run goes to exactly one of charged and charged_extra, whole, whatever commands
      come in between, and the two counters follow. */
  lemma {:induction false} RunsBookedOnce(p: Policy, s: Core, acts: seq<Action>, id: nat)
    requires Valid(s) && !p.legacy && id in s.table
    requires forall k :: 0 <= k < |acts| ==> acts[k] != DoUnregister(s.table[id].name)
    ensures id in Run(p, s, acts).table
    ensures Booked(s.table[id], Run(p, s, acts).table[id], TallyRun(p, s, acts, id))
    decreases |acts|
  {
    if acts != [] {
      var u := Apply(p, s, acts[0]);
      ValidKept(p, s, acts[0]);
      BookedStep(p, s, acts[0], id);
      RunsBookedOnce(p, u, acts[1..], id);
      var e := Run(p, u, acts[1..]);
      BookedAdds(s.table[id], u.table[id], e.table[id], TallyOf(s, acts[0], id), TallyRun(p, u, acts[1..], id));
    }
  }

  // ---- Turns among tied tenants ----

  /** Nobody is entitled, the tenants of T all have work, and nobody else with work has a ratio of r or less. */
  ghost predicate Backlogged(s: Core, T: set<nat>, r: real) {
    && (forall id :: !Candidate(s, id))
    && (forall id :: id in T ==> Ready(s, id))
    && (forall id :: Ready(s, id) && id !in T ==> Ratio(s.table[id]) > r)
  }

  ghost predicate AtRatio(s: Core, T: set<nat>, r: real) {
    forall id :: id in T ==> id in s.table && Ratio(s.table[id]) == r
  }

  /** Only submissions and fallback steps, with T backlogged at every pick and a strictly advancing clock. */
  ghost predicate RidesOn(p: Policy, s: Core, a: Action, T: set<nat>, r: real) {
    && (a.DoSubmit? || a.DoPick? || a.DoFinish?)
    && (a.DoPick? ==> s.running.None? && Backlogged(s, T, r))
    && (a.DoFinish? ==> forall id :: id in s.table ==> s.table[id].lastRun < a.at)
  }

  ghost predicate RidesRun(p: Policy, s: Core, acts: seq<Action>, T: set<nat>, r: real)
    requires Valid(s)
    decreases |acts|
  {
    acts == [] || (RidesOn(p, s, acts[0], T, r)
                   && (ValidKept(p, s, acts[0]); RidesRun(p, Apply(p, s, acts[0]), acts[1..], T, r)))
  }

  /** The tenants served, in order. */
  function ServedIds(p: Policy, s: Core, acts: seq<Action>): seq<nat>
    requires Valid(s)
    decreases |acts|
  {
    if acts == [] then [] else
      ValidKept(p, s, acts[0]);
      Turn(s, acts[0]) + ServedIds(p, Apply(p, s, acts[0]), acts[1..])
  }

  function Turn(s: Core, a: Action): seq<nat> {
    if a.DoFinish? && s.running.Some? then [s.running.value.id] else []
  }

  function Last(h: seq<nat>, id: nat): (k: int)
    ensures -1 <= k < |h|
    ensures k >= 0 ==> h[k] == id
    ensures forall j :: k < j < |h| ==> h[j] != id
  {
    if h == [] then -1
    else if h[|h| - 1] == id then |h| - 1
    else Last(h[..|h| - 1], id)
  }

  /** The same tenant comes round again only after k turns. */
  ghost predicate Spaced(h: seq<nat>, k: nat) {
    forall x, y :: 0 <= x < y < |h| && h[x] == h[y] ==> y - x >= k
  }

  lemma {:induction false} SetSize(h: seq<nat>, T: set<nat>)
    requires forall id :: id in T ==> id in h
    ensures |T| <= |h|
  {
    if h == [] {
      assert T == {};
    } else {
      var T' := T - {h[0]};
      forall id | id in T' ensures id in h[1..] {
        assert id in h;
      }
      SetSize(h[1..], T');
      assert T <= T' + {h[0]};
      assert |T| <= |T'| + 1;
    }
  }

  /** If c's last turn is no later than anyone's, everyone in T has had a turn since. */
  lemma NextTurnSpaced(h: seq<nat>, T: set<nat>, c: nat)
    requires Spaced(h, |T|) && c in T && forall b :: b in T ==> Last(h, c) <= Last(h, b)
    ensures Spaced(h + [c], |T|)
  {
    var l := Last(h, c);
    if l >= 0 {
      forall b | b in T ensures b in h[l..] {
        assert h[l..][Last(h, b) - l] == b;
      }
      SetSize(h[l..], T);
    }
    var g := h + [c];
    forall x, y | 0 <= x < y < |g| && g[x] == g[y] ensures y - x >= |T| {
      if y < |h| {
        assert h[x] == h[y];
      }
    }
  }

  /** Later turns mean later times, and a job in flight belongs to the tenant whose turn is longest ago. */
  ghost predicate TurnInv(s: Core, T: set<nat>, h: seq<nat>) {
    && T <= s.table.Keys
    && (forall a, b :: a in T && b in T && Last(h, a) > Last(h, b) ==> s.table[a].lastRun > s.table[b].lastRun)
    && (s.running.Some? ==> s.running.value.id in T && s.running.value.extra
                            && forall b :: b in T ==> Last(h, s.running.value.id) <= Last(h, b))
  }

  /** The fallback picks the tied tenant that ran longest ago. */
  lemma FallbackChoice(p: Policy, s: Core, T: set<nat>, r: real)
    requires Valid(s) && Backlogged(s, T, r) && AtRatio(s, T, r) && T != {}
    ensures Eligible(p, s).Some? ==>
              var (m, extra) := Eligible(p, s).value;
              extra && m in T && Ready(s, m) && forall b :: b in T ==> s.table[m].lastRun <= s.table[b].lastRun
  {
    EligibleIsLeast(p, s);
    var a :| a in T;
    assert Ready(s, a);
  }

  lemma TurnPick(p: Policy, s: Core, T: set<nat>, h: seq<nat>, r: real)
    requires Valid(s) && TurnInv(s, T, h) && s.running.None? && Backlogged(s, T, r) && AtRatio(s, T, r) && T != {}
    ensures TurnInv(AfterPick(p, s), T, h)
  {
    FallbackChoice(p, s, T, r);
    if Eligible(p, s).Some? {
      var m := Eligible(p, s).value.0;
      forall b | b in T ensures Last(h, m) <= Last(h, b) {
        assert !(s.table[m].lastRun > s.table[b].lastRun);
      }
      Requeued(s, AfterPick(p, s), m, s.table[m].queue[1..], T, h);
    }
  }

  /** Changing one queue changes no time. */
  lemma Requeued(s: Core, s': Core, id: nat, q: seq<Request>, T: set<nat>, h: seq<nat>)
    requires id in s.table && s'.table == s.table[id := s.table[id].(queue := q)] && TurnInv(s, T, h)
    requires s'.running.Some? ==> s'.running.value.id in T && s'.running.value.extra
                                  && forall b :: b in T ==> Last(h, s'.running.value.id) <= Last(h, b)
    ensures TurnInv(s', T, h)
  {
    assert forall a :: a in s.table ==> s'.table[a].lastRun == s.table[a].lastRun;
  }

  lemma {:induction false} LastAppend(h: seq<nat>, c: nat, id: nat)
    ensures Last(h + [c], id) == if id == c then |h| else Last(h, id)
  {
    assert (h + [c])[..|h|] == h;
  }

  lemma TurnFinish(p: Policy, s: Core, T: set<nat>, h: seq<nat>, dt: real, at: real)
    requires TurnInv(s, T, h) && s.running.Some? && forall id :: id in s.table ==> s.table[id].lastRun < at
    ensures TurnInv(AfterFinish(p, s, dt, at), T, h + [s.running.value.id])
  {
    var c, s' := s.running.value.id, AfterFinish(p, s, dt, at);
    forall a, b | a in T && b in T && Last(h + [c], a) > Last(h + [c], b)
      ensures s'.table[a].lastRun > s'.table[b].lastRun
    {
      LastAppend(h, c, a);
      LastAppend(h, c, b);
    }
  }

  function HistoryAfter(s: Core, a: Action, h: seq<nat>): seq<nat> {
    if a.DoFinish? && s.running.Some? then h + [s.running.value.id] else h
  }

  ghost predicate InTurn(h: seq<nat>, T: set<nat>) {
    Spaced(h, |T|) && forall id :: id in h ==> id in T
  }

  lemma TurnStep(p: Policy, s: Core, a: Action, T: set<nat>, r: real, h: seq<nat>)
    requires Valid(s) && RidesOn(p, s, a, T, r) && TurnInv(s, T, h) && AtRatio(s, T, r) && T != {} && InTurn(h, T)
    ensures TurnInv(Apply(p, s, a), T, HistoryAfter(s, a, h)) && InTurn(HistoryAfter(s, a, h), T)
  {
    match a
    case DoPick => TurnPick(p, s, T, h, r);
    case DoFinish(dt, at) =>
      if s.running.Some? {
        TurnFinish(p, s, T, h, dt, at);
        NextTurnSpaced(h, T, s.running.value.id);
      }
    case DoSubmit(name, req) =>
      var k := Position(s, name, 0);
      if k.Some? {
        Requeued(s, Apply(p, s, a), s.order[k.value], s.table[s.order[k.value]].queue + [req], T, h);
      }
  }

  /** Fallback steps move nobody's ratio. */
  lemma RatiosStand(p: Policy, s: Core, a: Action, T: set<nat>, r: real, h: seq<nat>)
    requires Valid(s) && !p.legacy && RidesOn(p, s, a, T, r) && TurnInv(s, T, h) && AtRatio(s, T, r)
    ensures AtRatio(Apply(p, s, a), T, r)
  {
    forall id | id in T ensures id in Apply(p, s, a).table && Ratio(Apply(p, s, a).table[id]) == r {
      ApplyEffect(p, s, a, id);
    }
  }

  lemma TurnOf(s: Core, a: Action, h: seq<nat>, rest: seq<nat>)
    ensures h + (Turn(s, a) + rest) == HistoryAfter(s, a, h) + rest
  {
    if Turn(s, a) == [] {
      assert [] + rest == rest;
    } else {
      assert h + (Turn(s, a) + rest) == (h + Turn(s, a)) + rest;
    }
  }

  lemma {:induction false} Turns(p: Policy, s: Core, acts: seq<Action>, T: set<nat>, r: real, h: seq<nat>)
    requires Valid(s) && !p.legacy && RidesRun(p, s, acts, T, r)
    requires TurnInv(s, T, h) && AtRatio(s, T, r) && T != {} && InTurn(h, T)
    ensures InTurn(h + ServedIds(p, s, acts), T)
    decreases |acts|
  {
    if acts == [] {
      assert h + ServedIds(p, s, acts) == h;
    } else {
      ValidKept(p, s, acts[0]);
      TurnStep(p, s, acts[0], T, r, h);
      RatiosStand(p, s, acts[0], T, r, h);
      Turns(p, Apply(p, s, acts[0]), acts[1..], T, r, HistoryAfter(s, acts[0], h));
      TurnOf(s, acts[0], h, ServedIds(p, Apply(p, s, acts[0]), acts[1..]));
    }
  }

  /** In any stretch of fallback steps the k tenants tied at the least ratio take turns: every k consecutive
      services contain each of them exactly once. */
  lemma RoundRobin(p: Policy, s: Core, acts: seq<Action>, T: set<nat>, r: real, x: nat)
    requires Valid(s) && !p.legacy && s.running.None? && T != {} && AtRatio(s, T, r) && RidesRun(p, s, acts, T, r)
    requires x + |T| <= |ServedIds(p, s, acts)|
    ensures EachOnce(ServedIds(p, s, acts)[x..x + |T|], T)
  {
    Turns(p, s, acts, T, r, []);
    assert [] + ServedIds(p, s, acts) == ServedIds(p, s, acts);
    SpacedWindow(ServedIds(p, s, acts), T, x);
  }

  ghost predicate EachOnce(w: seq<nat>, T: set<nat>) {
    (forall id :: id in w <==> id in T) && (forall i, j :: 0 <= i < j < |w| ==> w[i] != w[j])
  }

  lemma SpacedWindow(h: seq<nat>, T: set<nat>, x: nat)
    requires InTurn(h, T) && x + |T| <= |h|
    ensures EachOnce(h[x..x + |T|], T)
  {
    var w := h[x..x + |T|];
    assert forall i :: 0 <= i < |w| ==> w[i] == h[x + i] && w[i] in T;
    forall i, j | 0 <= i < j < |w| ensures w[i] != w[j] {
      assert w[i] == h[x + i] && w[j] == h[x + j];
    }
    AllOnce(w, T);
  }

  /** As many distinct members as the set has: each exactly once. */
  lemma AllOnce(w: seq<nat>, T: set<nat>)
    requires |w| == |T| && (forall i :: 0 <= i < |w| ==> w[i] in T)
    requires forall i, j :: 0 <= i < j < |w| ==> w[i] != w[j]
    ensures EachOnce(w, T)
  {
    DistinctSize(w);
    Subset(Elements(w), T);
  }

  function Elements(w: seq<nat>): (r: set<nat>)
    ensures forall id :: id in r <==> id in w
  {
    if w == [] then {} else {w[0]} + Elements(w[1..])
  }

  lemma {:induction false} DistinctSize(w: seq<nat>)
    requires forall i, j :: 0 <= i < j < |w| ==> w[i] != w[j]
    ensures |Elements(w)| == |w|
  {
    if w != [] {
      DistinctSize(w[1..]);
      assert w[0] !in Elements(w[1..]);
    }
  }

  lemma {:induction false} Subset(A: set<nat>, B: set<nat>)
    requires A <= B && |A| == |B|
    ensures A == B
  {
    if A != {} {
      var a :| a in A;
      Subset(A - {a}, B - {a});
    }
  }
}
