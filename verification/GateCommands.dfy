/** What each operation means for the registered tenants, said field by field, and what the commands of the
    control loop decide over whole runs: who is armed, who may run, and by what books. */
module GateCommands {
  import opened Wrappers
  import opened GateCore
  import opened GateContract

  ghost predicate Named(s: Core, id: nat, name: string) { id in s.table && s.table[id].name == name }

  ghost predicate Known(s: Core, name: string) { exists id :: Named(s, id, name) }

  lemma KnownIff(s: Core, name: string)
    requires Valid(s)
    ensures Known(s, name) <==> Position(s, name, 0).Some?
    ensures forall id :: Named(s, id, name) ==> Position(s, name, 0).Some? && s.order[Position(s, name, 0).value] == id
  {
    forall id | Named(s, id, name) ensures Position(s, name, 0).Some? && s.order[Position(s, name, 0).value] == id {
      NameFound(s, name, id);
    }
    if Position(s, name, 0).Some? {
      assert Named(s, s.order[Position(s, name, 0).value], name);
    }
  }

  /** Everything but the flags and the budget. */
  predicate SameWork(t: Tenant, u: Tenant) {
    && u.name == t.name && u.queue == t.queue && u.charged == t.charged && u.extra == t.extra
    && u.done == t.done && u.doneExtra == t.doneExtra && u.lastRun == t.lastRun
  }

  /** What a command does to the tenant it names: time_mode arms exactly on 1 and then also limits; time_credit
      sets the balance, at most to the cap, or lifts the limit and empties the balance; time_add adds up to the cap
      and grants what has been added, or all of it under the former accounting. */
  predicate Commanded(p: Policy, t: Tenant, u: Tenant, c: Command) {
    && SameWork(t, u)
    && match c
       case TimeMode(m) =>
         && (u.armed <==> m == 1) && (u.unlimited <==> t.unlimited && m != 1)
         && u.credit == t.credit && u.granted == t.granted
       case TimeCredit(us) =>
         && u.armed == t.armed && (u.unlimited <==> us < 0) && u.granted == t.granted
         && (us < 0 ==> u.credit == 0.0)
         && (us >= 0 ==> u.credit == if us as real > p.cap then p.cap else us as real)
       case TimeAdd(v) =>
         && u.armed == t.armed && u.unlimited == t.unlimited
         && u.credit == (if t.credit + v > p.cap then p.cap else t.credit + v)
         && u.granted - t.granted == if p.legacy then v else u.credit - t.credit
  }

  /** The same tenants in the same order, all but one as they were. */
  predicate OnlyChanges(s: Core, s': Core, id: nat) {
    && s'.order == s.order && s'.nextId == s.nextId && s'.table.Keys == s.table.Keys
    && forall j :: j in s.table && j in s'.table && j != id ==> s'.table[j] == s.table[j]
  }

  /** A command reaches the tenant of that name and nobody else; for an unknown name it does nothing. */
  lemma CommandMeans(p: Policy, s: Core, name: string, c: Command)
    requires Valid(s)
    ensures var s' := AfterCommand(p, s, name, c);
            && (!Known(s, name) ==> s' == s)
            && forall id :: Named(s, id, name) ==>
                 && OnlyChanges(s, s', id) && s'.running == s.running
                 && Commanded(p, s.table[id], s'.table[id], c)
  {
    KnownIff(s, name);
  }

  /** A new tenant comes last, is not armed, not limited, and has nothing queued and nothing booked. */
  lemma RegisterMeans(s: Core, name: string)
    requires Valid(s)
    ensures var s' := AfterRegister(s, name);
            && (Known(s, name) ==> s' == s)
            && (!Known(s, name) ==>
                  && s.nextId !in s.table && s'.order == s.order + [s.nextId] && s'.nextId > s.nextId
                  && s'.running == s.running && s'.table.Keys == s.table.Keys + {s.nextId}
                  && (forall j :: j in s.table ==> s'.table[j] == s.table[j])
                  && var t := s'.table[s.nextId];
                     && t.name == name && t.queue == [] && !t.armed && t.unlimited
                     && t.credit == t.granted == t.charged == t.extra == t.lastRun == 0.0
                     && t.done == t.doneExtra == 0)
  {
    KnownIff(s, name);
    assert Listed(s, s.nextId);
  }

  /** The sequence without its element at k. */
  predicate Dropped(order: seq<nat>, order': seq<nat>, k: nat) {
    && k < |order| && |order'| == |order| - 1
    && (forall j: nat :: j < |order'| ==> order'[j] == order[if j < k then j else j + 1])
  }

  /** The tenant of that name goes, with its queue, and the others keep their order. */
  lemma UnregisterMeans(s: Core, name: string)
    requires Valid(s)
    ensures var s' := AfterUnregister(s, name);
            && Valid(s') && !Known(s', name) && (!Known(s, name) ==> s' == s)
            && s'.running == s.running && s'.nextId == s.nextId
            && (forall j :: j in s'.table <==> j in s.table && s.table[j].name != name)
            && (forall j :: j in s'.table ==> j in s.table && s'.table[j] == s.table[j])
            && forall id :: Named(s, id, name) ==>
                 exists k: nat :: Dropped(s.order, s'.order, k) && s.order[k] == id
  {
    KnownIff(s, name);
    UnregisterValid(s, name);
    var k := Position(s, name, 0);
    forall j | j in s.table ensures s.table[j].name == name <==> k.Some? && s.order[k.value] == j {
      NameFound(s, name, j);
    }
    if k.Some? {
      assert Dropped(s.order, AfterUnregister(s, name).order, k.value);
    }
  }

  /** A request joins the end of the queue of the tenant it is for. */
  lemma SubmitMeans(s: Core, name: string, req: Request)
    requires Valid(s)
    ensures var s' := AfterSubmit(s, name, req);
            && (!Known(s, name) ==> s' == s)
            && forall id :: Named(s, id, name) ==>
                 && OnlyChanges(s, s', id) && s'.running == s.running
                 && s'.table[id] == s.table[id].(queue := s'.table[id].queue)
                 && |s'.table[id].queue| == |s.table[id].queue| + 1
                 && s'.table[id].queue[..|s.table[id].queue|] == s.table[id].queue
                 && s'.table[id].queue[|s.table[id].queue|] == req
  {
    KnownIff(s, name);
  }

  // ---- Selection ----

  /** With work and nothing that holds it back: not armed, or not limited, or in credit. */
  predicate Free(t: Tenant) {
    t.queue != [] && (t.armed && !t.unlimited ==> t.credit > 0.0)
  }

  /** a is at least as far behind its contract as b: charged over granted, a grant below 1 counting as 1, and in
      a tie not run later. */
  predicate Behind(a: Tenant, b: Tenant) {
    var g := if a.granted > 1.0 then a.granted else 1.0;
    var h := if b.granted > 1.0 then b.granted else 1.0;
    a.charged * h < b.charged * g || (a.charged * h == b.charged * g && a.lastRun <= b.lastRun)
  }

  lemma NotLessIsBehind(a: Tenant, b: Tenant)
    requires !KeyLess(b, a)
    ensures Behind(a, b)
  {
    var g, h := Granted(a), Granted(b);
    Quotient(a.charged, g);
    Quotient(b.charged, h);
    var x, y := Ratio(a), Ratio(b);
    assert a.charged * h == x * (g * h) && b.charged * g == y * (g * h);
    if x < y {
      LessTimes(x, y, g * h);
    }
  }

  lemma LessTimes(x: real, y: real, g: real)
    requires x < y && g > 0.0
    ensures x * g < y * g
  {
  }

  /** Whom a pick of an idle gate takes. Somebody free: the free tenant furthest behind, as a contract run. Nobody
      free, but work and a work-conserving gate: the tenant with work furthest behind, as a fallback. Otherwise
      nobody. The request taken is the oldest of that tenant. */
  lemma PickMeans(p: Policy, s: Core)
    requires Valid(s) && s.running.None?
    ensures var s' := AfterPick(p, s);
            && (s'.running.Some? <==> exists id :: id in s.table && s.table[id].queue != [] &&
                                        (p.workConserving || Free(s.table[id])))
            && (s'.running.None? ==> s' == s)
            && (s'.running.Some? ==>
                  var job := s'.running.value;
                  && job.id in s.table && OnlyChanges(s, s', job.id)
                  && s'.table[job.id] == s.table[job.id].(queue := s'.table[job.id].queue)
                  && [job.req] + s'.table[job.id].queue == s.table[job.id].queue
                  && (job.extra <==> forall id :: id in s.table ==> !Free(s.table[id]))
                  && (forall id :: id in s.table && s.table[id].queue != [] && (job.extra || Free(s.table[id])) ==>
                        Behind(s.table[job.id], s.table[id])))
  {
    EligibleIsLeast(p, s);
    var e := Eligible(p, s);
    forall id | id in s.table
      ensures (Free(s.table[id]) <==> Candidate(s, id)) && (s.table[id].queue != [] <==> Ready(s, id)) {}
    if e.Some? {
      var m := e.value.0;
      forall id | id in s.table && s.table[id].queue != [] && (e.value.1 || Free(s.table[id]))
        ensures Behind(s.table[m], s.table[id])
      {
        NotLessIsBehind(s.table[m], s.table[id]);
      }
    }
  }

  // ---- Ties ----

  predicate At(ids: seq<nat>, i: nat, id: nat) { i < |ids| && ids[i] == id }

  /** id comes before id' in the sequence. */
  ghost predicate Precedes(ids: seq<nat>, id: nat, id': nat) {
    exists i: nat, j: nat :: i < j && At(ids, i, id) && At(ids, j, id')
  }

  ghost predicate AllApart(ids: seq<nat>) { forall i: nat, j: nat :: Apart(ids, i, j) }

  lemma {:induction false} FilterApart(ids: seq<nat>, ok: nat -> bool)
    requires AllApart(ids)
    ensures AllApart(Filter(ids, ok))
  {
    if ids != [] {
      var rest := Filter(ids[1..], ok);
      forall i: nat, j: nat ensures Apart(ids[1..], i, j) {
        assert Apart(ids, i + 1, j + 1);
      }
      FilterApart(ids[1..], ok);
      if ok(ids[0]) {
        forall i: nat, j: nat ensures Apart([ids[0]] + rest, i, j) {
          if i < j < |rest| + 1 {
            assert rest[j - 1] in rest;
            var k :| 0 <= k < |ids[1..]| && ids[1..][k] == rest[j - 1];
            assert Apart(ids, 0, k + 1);
            if i > 0 {
              assert Apart(rest, i - 1, j - 1);
            }
          }
        }
      }
    }
  }

  lemma Later(ids: seq<nat>, id: nat, id': nat, first: nat)
    requires Precedes(ids, id, id')
    ensures Precedes([first] + ids, id, id')
  {
    var i: nat, j: nat :| i < j && At(ids, i, id) && At(ids, j, id');
    assert At([first] + ids, i + 1, id) && At([first] + ids, j + 1, id');
  }

  lemma {:induction false} FilterOrder(ids: seq<nat>, ok: nat -> bool, id: nat, id': nat)
    requires Precedes(ids, id, id') && ok(id) && ok(id')
    ensures Precedes(Filter(ids, ok), id, id')
  {
    var i: nat, j: nat :| i < j && At(ids, i, id) && At(ids, j, id');
    var rest := Filter(ids[1..], ok);
    if i == 0 {
      assert ids[1..][j - 1] == id';
      var k: nat :| k < |rest| && rest[k] == id';
      assert At([id] + rest, 0, id) && At([id] + rest, k + 1, id');
    } else {
      assert At(ids[1..], i - 1, id) && At(ids[1..], j - 1, id');
      FilterOrder(ids[1..], ok, id, id');
      if ok(ids[0]) {
        Later(rest, id, id', ids[0]);
      }
    }
  }

  /** Whoever comes before the one that is chosen has a larger key. */
  lemma FirstOfLeast(table: map<nat, Tenant>, ids: seq<nat>, id: nat)
    requires ids != [] && (forall id :: id in ids ==> id in table) && AllApart(ids)
    requires Precedes(ids, id, MinKey(table, ids)) && id in table
    ensures KeyLess(table[MinKey(table, ids)], table[id])
  {
    var k, m := MinIndex(table, ids), MinKey(table, ids);
    var i: nat, j: nat :| i < j && At(ids, i, id) && At(ids, j, m);
    assert Apart(ids, j, k) && Apart(ids, k, j);
  }

  lemma LessIsNotBehind(a: Tenant, b: Tenant)
    requires KeyLess(a, b)
    ensures !Behind(b, a)
  {
    var g, h := Granted(a), Granted(b);
    Quotient(a.charged, g);
    Quotient(b.charged, h);
    var x, y := Ratio(a), Ratio(b);
    assert a.charged * h == x * (g * h) && b.charged * g == y * (g * h);
    if x < y {
      LessTimes(x, y, g * h);
    }
  }

  /** Between tenants that are equally far behind, the one that registered first is taken: every tenant before it
      in the dictionary that could have run as well is strictly less far behind. */
  lemma TiesGoToTheFirst(p: Policy, s: Core, id: nat)
    requires Valid(s) && s.running.None? && id in s.table && s.table[id].queue != []
    ensures var r := AfterPick(p, s).running;
            r.Some? && Precedes(s.order, id, r.value.id) && (r.value.extra || Free(s.table[id])) ==>
              r.value.id in s.table && !Behind(s.table[id], s.table[r.value.id])
  {
    EligibleIsLeast(p, s);
    var r := AfterPick(p, s).running;
    if r.Some? && Precedes(s.order, id, r.value.id) && (r.value.extra || Free(s.table[id])) {
      var m := r.value.id;
      var ready := Filter(s.order, (id: nat) => Ready(s, id));
      FilterApart(s.order, (id: nat) => Ready(s, id));
      FilterOrder(s.order, (id: nat) => Ready(s, id), id, m);
      if r.value.extra {
        FirstOfLeast(s.table, ready, id);
      } else {
        FilterApart(ready, (id: nat) => Candidate(s, id));
        FilterOrder(ready, (id: nat) => Candidate(s, id), id, m);
        FirstOfLeast(s.table, Filter(ready, (id: nat) => Candidate(s, id)), id);
      }
      LessIsNotBehind(s.table[m], s.table[id]);
    }
  }

  /** What the end of a run books for the tenant it belongs to, if it is still there: the time is charged to the
      contract and taken from the balance of an armed and limited tenant, or counted apart for a fallback. */
  lemma FinishMeans(p: Policy, s: Core, dt: real, at: real)
    requires Valid(s) && s.running.Some?
    ensures var s', job := AfterFinish(p, s, dt, at), s.running.value;
            && s'.running.None? && OnlyChanges(s, s', job.id)
            && (job.id in s.table ==>
                  var t, u := s.table[job.id], s'.table[job.id];
                  var apart := job.extra && !p.legacy;
                  && u.name == t.name && u.queue == t.queue && u.armed == t.armed && u.unlimited == t.unlimited
                  && u.granted == t.granted && u.done == t.done + 1 && u.lastRun == at
                  && u.doneExtra - t.doneExtra == (if apart then 1 else 0)
                  && u.extra - t.extra == (if apart then dt else 0.0)
                  && u.charged - t.charged == (if apart then 0.0 else dt)
                  && t.credit - u.credit == if !apart && t.armed && !t.unlimited then dt else 0.0)
  {
  }

  // ---- Over runs ----

  /** Does not take tenant `name` out of the mode that time_mode 1 has put it into. */
  predicate Loyal(a: Action, name: string) {
    match a
    case DoCommand(n, TimeMode(m)) => n == name ==> m == 1
    case DoCommand(n, TimeCredit(us)) => n == name ==> us >= 0
    case _ => true
  }

  predicate Limited(s: Core, id: nat, name: string) {
    id in s.table ==> s.table[id].name == name && s.table[id].armed && !s.table[id].unlimited
  }

  lemma LimitedStep(p: Policy, s: Core, a: Action, id: nat, name: string)
    requires Valid(s) && id < s.nextId && Limited(s, id, name) && Loyal(a, name)
    ensures Limited(Apply(p, s, a), id, name) && id < Apply(p, s, a).nextId
  {
    if id in s.table && a != DoUnregister(s.table[id].name) {
      ApplyEffect(p, s, a, id);
    } else {
      assert Listed(s, id);
      if a.DoUnregister? { UnregisterMeans(s, a.name); }
    }
  }

  lemma {:induction false} LimitedRun(p: Policy, s: Core, acts: seq<Action>, id: nat, name: string)
    requires Valid(s) && id < s.nextId && Limited(s, id, name) && forall k :: 0 <= k < |acts| ==> Loyal(acts[k], name)
    ensures Limited(Run(p, s, acts), id, name)
    decreases |acts|
  {
    if acts != [] {
      ValidKept(p, s, acts[0]);
      LimitedStep(p, s, acts[0], id, name);
      LimitedRun(p, Apply(p, s, acts[0]), acts[1..], id, name);
    }
  }

  /** From a time_mode 1 on, as long as no other mode and no negative credit is set, a tenant is started as a
      contract run only with credit in hand, and under the strict policy not at all without. */
  lemma ArmedNeedsCredit(p: Policy, s: Core, id: nat, acts: seq<Action>)
    requires Valid(s) && id in s.table && forall k :: 0 <= k < |acts| ==> Loyal(acts[k], s.table[id].name)
    ensures var name := s.table[id].name;
            var e := Run(p, AfterArming(p, s, name), acts);
            var next := AfterPick(p, e);
            e.running.None? && next.running.Some? && next.running.value.id == id ==>
              && id in e.table
              && (!next.running.value.extra || !p.workConserving ==> e.table[id].credit > 0.0)
  {
    var name := s.table[id].name;
    var a := AfterArming(p, s, name);
    CommandMeans(p, s, name, TimeMode(1));
    assert Named(s, id, name);
    assert Listed(s, id);
    LimitedRun(p, a, acts, id, name);
    var e := Run(p, a, acts);
    if e.running.None? {
      PickMeans(p, e);
    }
  }

  function AfterArming(p: Policy, s: Core, name: string): (r: Core)
    requires Valid(s)
    ensures Valid(r)
  {
    ValidKept(p, s, DoCommand(name, TimeMode(1)));
    AfterCommand(p, s, name, TimeMode(1))
  }

  /** A newcomer is registered, armed, and its balance set to 0. */
  function Newcomer(name: string): seq<Action> {
    [DoRegister(name), DoCommand(name, TimeMode(1)), DoCommand(name, TimeCredit(0))]
  }

  /** Its name is new, and for ever after it is served within the contract, counted from nothing: from the
      moment of these three commands on, granted - CAP <= charged <= granted + D, in any run that only adds
      budget to it and lets its runs last at most D. */
  lemma NewcomerFulfilment(p: Policy, s: Core, name: string, acts: seq<Action>, D: real)
    requires Valid(s) && !Known(s, name) && !p.legacy && p.cap >= 0.0 && D >= 0.0
    requires KeepsRun(p, Run(p, s, Newcomer(name)), acts, s.nextId, D)
    ensures var e := Run(p, Run(p, s, Newcomer(name)), acts);
            && s.nextId in e.table
            && e.table[s.nextId].granted - p.cap <= e.table[s.nextId].charged <= e.table[s.nextId].granted + D
  {
    var a := NewcomerStarts(p, s, name);
    Fulfilment(p, a, acts, s.nextId, D);
  }

  lemma NewcomerStarts(p: Policy, s: Core, name: string) returns (a: Core)
    requires Valid(s) && !Known(s, name) && p.cap >= 0.0
    ensures a == Run(p, s, Newcomer(name)) && Restarted(a, s.nextId)
    ensures a.table[s.nextId].granted == 0.0 && a.table[s.nextId].charged == 0.0
  {
    var id := s.nextId;
    var s1 := AfterRegister(s, name);
    RegisterMeans(s, name);
    RegisterValid(s, name);
    assert Named(s1, id, name);
    var s2 := AfterCommand(p, s1, name, TimeMode(1));
    CommandMeans(p, s1, name, TimeMode(1));
    ValidKept(p, s1, DoCommand(name, TimeMode(1)));
    assert Named(s2, id, name);
    a := AfterCommand(p, s2, name, TimeCredit(0));
    CommandMeans(p, s2, name, TimeCredit(0));
    ValidKept(p, s2, DoCommand(name, TimeCredit(0)));
    ThreeSteps(p, s, DoRegister(name), DoCommand(name, TimeMode(1)), DoCommand(name, TimeCredit(0)));
  }

  lemma ThreeSteps(p: Policy, s: Core, a: Action, b: Action, c: Action)
    requires Valid(s) && Valid(Apply(p, s, a)) && Valid(Apply(p, Apply(p, s, a), b))
    requires Valid(Apply(p, Apply(p, Apply(p, s, a), b), c))
    ensures Run(p, s, [a, b, c]) == Apply(p, Apply(p, Apply(p, s, a), b), c)
  {
    var u := Apply(p, Apply(p, s, a), b);
    assert [a, b, c][1..] == [b, c] && [b, c][1..] == [c] && [c][1..] == [];
    assert Run(p, Apply(p, u, c), []) == Apply(p, u, c);
    assert Run(p, u, [c]) == Apply(p, u, c);
  }
}
