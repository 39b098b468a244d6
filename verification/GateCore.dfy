/** The NPU request gate: per-tenant queues, capped credit, and selection by the least ratio of
    charged to granted time. The lock is released while a request runs, so picking and charging are
    separate steps and commands may come between them. Float fields are modelled as reals. */
module GateCore {
  import opened Wrappers

  type Request = nat

  datatype Tenant = Tenant(name: string, queue: seq<Request>, armed: bool, unlimited: bool,
                           credit: real, granted: real, charged: real, extra: real,
                           done: nat, doneExtra: nat, lastRun: real)

  /** CREDIT_CAP_US, work_conserving and LEGACY_REPAY. */
  datatype Policy = Policy(cap: real, workConserving: bool, legacy: bool)

  /** The request being run: whose it is, and whether it was picked by the fallback. */
  datatype Job = Job(id: nat, extra: bool, req: Request)

  /** Tenants by identity, with the insertion order of the dictionary. A tenant that is unregistered and
      registered again gets a new identity, so a job in flight keeps pointing at the old one. */
  datatype Core = Core(order: seq<nat>, table: map<nat, Tenant>, nextId: nat, running: Option<Job>)

  datatype Command = TimeMode(mode: int) | TimeCredit(us: int) | TimeAdd(amount: real)

  ghost predicate Valid(s: Core) {
    && (forall i: nat, j: nat {:trigger Apart(s.order, i, j)} :: Apart(s.order, i, j))
    && (forall id: nat {:trigger Listed(s, id)} :: Listed(s, id))
    && (forall a: nat, b: nat {:trigger OneName(s, a, b)} :: OneName(s, a, b))
    && (s.running.Some? ==> s.running.value.id < s.nextId)
  }

  predicate Apart(order: seq<nat>, i: nat, j: nat) {
    i < j < |order| ==> order[i] != order[j]
  }

  /** The dictionary lists exactly the tenants of the table, whose identities have all been given out. */
  predicate Listed(s: Core, id: nat) {
    (id in s.order <==> id in s.table) && (id in s.table ==> id < s.nextId)
  }

  /** Different tenants have different names. */
  predicate OneName(s: Core, a: nat, b: nat) {
    a in s.table && b in s.table && s.table[a].name == s.table[b].name ==> a == b
  }

  // ---- Register, commands, submit ----

  /** Position in the dictionary of the tenant with this name. */
  function Position(s: Core, name: string, k: nat): (r: Option<nat>)
    requires k <= |s.order| && Valid(s)
    ensures r.Some? ==> k <= r.value < |s.order| && s.order[r.value] in s.table
    ensures r.Some? ==> s.table[s.order[r.value]].name == name
    ensures r.None? ==> forall j :: k <= j < |s.order| ==> s.order[j] in s.table && s.table[s.order[j]].name != name
    decreases |s.order| - k
  {
    if k == |s.order| then None
    else
      assert Listed(s, s.order[k]);
      if s.table[s.order[k]].name == name then Some(k) else Position(s, name, k + 1)
  }

  function NewTenant(name: string): Tenant {
    Tenant(name, [], false, true, 0.0, 0.0, 0.0, 0.0, 0, 0, 0.0)
  }

  function AfterRegister(s: Core, name: string): Core
    requires Valid(s)
  {
    if Position(s, name, 0).Some? then s
    else Core(s.order + [s.nextId], s.table[s.nextId := NewTenant(name)], s.nextId + 1, s.running)
  }

  function AfterUnregister(s: Core, name: string): Core
    requires Valid(s)
  {
    match Position(s, name, 0)
    case None => s
    case Some(k) => s.(order := s.order[..k] + s.order[k + 1..], table := s.table - {s.order[k]})
  }

  function Min(a: real, b: real): real { if a <= b then a else b }

  function Obey(p: Policy, t: Tenant, c: Command): Tenant {
    match c
    case TimeMode(m) => if m == 1 then t.(armed := true, unlimited := false) else t.(armed := false)
    case TimeCredit(us) =>
      if us < 0 then t.(unlimited := true, credit := 0.0)
      else t.(unlimited := false, credit := Min(us as real, p.cap))
    case TimeAdd(v) =>
      var credit := Min(t.credit + v, p.cap);
      t.(credit := credit, granted := t.granted + (if p.legacy then v else credit - t.credit))
  }

  function AfterCommand(p: Policy, s: Core, name: string, c: Command): Core
    requires Valid(s)
  {
    match Position(s, name, 0)
    case None => s
    case Some(k) => s.(table := s.table[s.order[k] := Obey(p, s.table[s.order[k]], c)])
  }

  /** Submitting for an unknown tenant raises KeyError and changes nothing. */
  function AfterSubmit(s: Core, name: string, req: Request): Core
    requires Valid(s)
  {
    match Position(s, name, 0)
    case None => s
    case Some(k) =>
      var t := s.table[s.order[k]];
      s.(table := s.table[s.order[k] := t.(queue := t.queue + [req])])
  }

  // ---- Selection ----

  function Granted(t: Tenant): (g: real)
    ensures g >= 1.0
  {
    if t.granted > 1.0 then t.granted else 1.0
  }

  function Ratio(t: Tenant): real { t.charged / Granted(t) }

  predicate KeyLess(a: Tenant, b: Tenant) {
    Ratio(a) < Ratio(b) || (Ratio(a) == Ratio(b) && a.lastRun < b.lastRun)
  }

  predicate Ready(s: Core, id: nat) { id in s.table && s.table[id].queue != [] }

  predicate Candidate(s: Core, id: nat) {
    Ready(s, id) && (s.table[id].unlimited || !s.table[id].armed || s.table[id].credit > 0.0)
  }

  function Filter(ids: seq<nat>, ok: nat -> bool): (r: seq<nat>)
    ensures forall id :: id in r <==> id in ids && ok(id)
  {
    if ids == [] then []
    else if ok(ids[0]) then [ids[0]] + Filter(ids[1..], ok)
    else Filter(ids[1..], ok)
  }

  /** Python's min: the first of the tenants with the least key. */
  function MinIndex(table: map<nat, Tenant>, ids: seq<nat>): (k: nat)
    requires ids != [] && forall j :: 0 <= j < |ids| ==> ids[j] in table
    ensures k < |ids|
    ensures forall j :: 0 <= j < |ids| ==> !KeyLess(table[ids[j]], table[ids[k]])
    ensures forall j :: 0 <= j < k ==> KeyLess(table[ids[k]], table[ids[j]])
  {
    var n := |ids| - 1;
    if n == 0 then 0
    else
      var k := MinIndex(table, ids[..n]);
      if KeyLess(table[ids[n]], table[ids[k]]) then n else k
  }

  function MinKey(table: map<nat, Tenant>, ids: seq<nat>): (m: nat)
    requires ids != [] && forall id :: id in ids ==> id in table
    ensures m in ids && forall id :: id in ids ==> !KeyLess(table[id], table[m])
  {
    ids[MinIndex(table, ids)]
  }

  /** _eligible: whom to run, and whether as a fallback. */
  function Eligible(p: Policy, s: Core): Option<(nat, bool)>
    requires Valid(s)
  {
    var ready := Filter(s.order, (id: nat) => Ready(s, id));
    var cand := Filter(ready, (id: nat) => Candidate(s, id));
    if ready == [] then None
    else if cand != [] then Some((MinKey(s.table, cand), false))
    else if p.workConserving then Some((MinKey(s.table, ready), true))
    else None
  }

  /** What selection promises: nobody is picked only if nothing may run; a contract pick has the least key
      among the candidates; a fallback pick happens only when nobody is entitled and has the least key
      among all tenants with work. */
  lemma EligibleIsLeast(p: Policy, s: Core)
    requires Valid(s)
    ensures Eligible(p, s).None? <==>
              (forall id :: !Candidate(s, id)) && (p.workConserving ==> forall id :: !Ready(s, id))
    ensures Eligible(p, s).Some? && !Eligible(p, s).value.1 ==>
              var m := Eligible(p, s).value.0;
              Candidate(s, m) && forall id :: Candidate(s, id) ==> !KeyLess(s.table[id], s.table[m])
    ensures Eligible(p, s).Some? && Eligible(p, s).value.1 ==>
              var m := Eligible(p, s).value.0;
              && p.workConserving && (forall id :: !Candidate(s, id))
              && Ready(s, m) && forall id :: Ready(s, id) ==> !KeyLess(s.table[id], s.table[m])
  {
    var ready := Filter(s.order, (id: nat) => Ready(s, id));
    var cand := Filter(ready, (id: nat) => Candidate(s, id));
    forall id ensures Ready(s, id) <==> id in ready {
      assert Listed(s, id);
    }
    assert forall id :: Candidate(s, id) <==> id in cand;
    assert ready != [] ==> ready[0] in ready;
    assert cand != [] ==> cand[0] in cand;
  }

  // ---- The two halves of step ----

  /** First half: choose and dequeue under the lock. */
  function AfterPick(p: Policy, s: Core): Core
    requires Valid(s)
  {
    if s.running.Some? then s else
    match Eligible(p, s)
    case None => s
    case Some((id, extra)) =>
      if !Ready(s, id) then s else
      var t := s.table[id];
      s.(running := Some(Job(id, extra, t.queue[0])), table := s.table[id := t.(queue := t.queue[1..])])
  }

  /** Booking of a run of dt microseconds that ended at `at`. */
  function Charge(p: Policy, t: Tenant, extra: bool, dt: real, at: real): Tenant {
    var u := if extra && !p.legacy then t.(extra := t.extra + dt, doneExtra := t.doneExtra + 1)
             else t.(charged := t.charged + dt,
                     credit := if t.armed && !t.unlimited then t.credit - dt else t.credit);
    u.(done := u.done + 1, lastRun := at)
  }

  /** Second half: book the measured time under the lock. The tenant may be gone by now. */
  function AfterFinish(p: Policy, s: Core, dt: real, at: real): Core {
    match s.running
    case None => s
    case Some(job) =>
      s.(running := None,
         table := if job.id in s.table then s.table[job.id := Charge(p, s.table[job.id], job.extra, dt, at)]
                  else s.table)
  }

  // ---- Runs ----

  datatype Action =
    | DoRegister(name: string) | DoUnregister(name: string)
    | DoCommand(name: string, c: Command) | DoSubmit(name: string, req: Request)
    | DoPick | DoFinish(dt: real, at: real)

  function Apply(p: Policy, s: Core, a: Action): Core
    requires Valid(s)
  {
    match a
    case DoRegister(name) => AfterRegister(s, name)
    case DoUnregister(name) => AfterUnregister(s, name)
    case DoCommand(name, c) => AfterCommand(p, s, name, c)
    case DoSubmit(name, req) => AfterSubmit(s, name, req)
    case DoPick => AfterPick(p, s)
    case DoFinish(dt, at) => AfterFinish(p, s, dt, at)
  }

  lemma SameTableValid(s: Core, s': Core)
    requires Valid(s) && s'.order == s.order && s'.table == s.table && s'.nextId == s.nextId
    requires s'.running.Some? ==> s'.running.value.id < s.nextId
    ensures Valid(s')
  {
    forall i: nat, j: nat ensures Apart(s'.order, i, j) { assert Apart(s.order, i, j); }
    forall id: nat ensures Listed(s', id) { assert Listed(s, id); }
    forall a: nat, b: nat ensures OneName(s', a, b) { assert OneName(s, a, b); }
  }

  lemma UpdateValid(s: Core, s': Core, id: nat, t: Tenant)
    requires Valid(s) && id in s.table && t.name == s.table[id].name
    requires s'.order == s.order && s'.table == s.table[id := t] && s'.nextId == s.nextId
    requires s'.running.Some? ==> s'.running.value.id < s.nextId
    ensures Valid(s')
  {
    forall i: nat, j: nat ensures Apart(s'.order, i, j) { assert Apart(s.order, i, j); }
    forall k: nat ensures Listed(s', k) { assert Listed(s, k); }
    forall a: nat, b: nat ensures OneName(s', a, b) { assert OneName(s, a, b); }
  }

  lemma RegisterValid(s: Core, name: string)
    requires Valid(s)
    ensures Valid(AfterRegister(s, name))
  {
    if Position(s, name, 0).None? {
      var s', n := AfterRegister(s, name), s.nextId;
      assert Listed(s, n);
      forall i: nat, j: nat ensures Apart(s'.order, i, j) { assert Apart(s.order, i, j); }
      forall id: nat ensures Listed(s', id) {
        assert Listed(s, id);
        AppendMember(s.order, n, id);
      }
      forall a: nat, b: nat ensures OneName(s', a, b) {
        assert OneName(s, a, b) && Listed(s, a) && Listed(s, b);
      }
    }
  }

  lemma AppendMember(order: seq<nat>, n: nat, id: nat)
    ensures id in order + [n] <==> id in order || id == n
  {
  }

  lemma RemoveAt(order: seq<nat>, k: nat, id: nat)
    requires k < |order| && (forall i: nat, j: nat :: Apart(order, i, j))
    ensures id in order[..k] + order[k + 1..] <==> id in order && id != order[k]
  {
    var rest := order[..k] + order[k + 1..];
    if id in order && id != order[k] {
      var j: nat :| j < |order| && order[j] == id;
      assert id == rest[if j < k then j else j - 1];
    }
    if id in rest {
      var j: nat :| j < |rest| && rest[j] == id;
      assert Apart(order, k, j + 1) && Apart(order, j, k);
    }
  }

  lemma UnregisterValid(s: Core, name: string)
    requires Valid(s)
    ensures Valid(AfterUnregister(s, name))
  {
    match Position(s, name, 0)
    case None =>
    case Some(k) =>
      var s' := AfterUnregister(s, name);
      forall id: nat ensures Listed(s', id) {
        assert Listed(s, id);
        RemoveAt(s.order, k, id);
      }
      forall i: nat, j: nat ensures Apart(s'.order, i, j) {
        ApartAfterRemove(s.order, k, i, j);
      }
      forall a: nat, b: nat ensures OneName(s', a, b) { assert OneName(s, a, b); }
  }

  lemma ApartAfterRemove(order: seq<nat>, k: nat, i: nat, j: nat)
    requires k < |order| && (forall i: nat, j: nat :: Apart(order, i, j))
    ensures Apart(order[..k] + order[k + 1..], i, j)
  {
    assert Apart(order, if i < k then i else i + 1, if j < k then j else j + 1);
  }

  /** Every operation keeps the tables consistent: one dictionary entry per tenant and distinct names. */
  lemma ValidKept(p: Policy, s: Core, a: Action)
    requires Valid(s)
    ensures Valid(Apply(p, s, a))
  {
    match a
    case DoRegister(name) => RegisterValid(s, name);
    case DoUnregister(name) => UnregisterValid(s, name);
    case DoCommand(name, c) =>
      var k := Position(s, name, 0);
      if k.Some? { UpdateValid(s, Apply(p, s, a), s.order[k.value], Obey(p, s.table[s.order[k.value]], c)); }
    case DoSubmit(name, req) => SubmitValid(s, name, req);
    case DoPick => PickValid(p, s);
    case DoFinish(dt, at) => FinishValid(p, s, dt, at);
  }

  lemma SubmitValid(s: Core, name: string, req: Request)
    requires Valid(s)
    ensures Valid(AfterSubmit(s, name, req))
  {
    var k := Position(s, name, 0);
    if k.Some? {
      var t := s.table[s.order[k.value]];
      UpdateValid(s, AfterSubmit(s, name, req), s.order[k.value], t.(queue := t.queue + [req]));
    }
  }

  lemma FinishValid(p: Policy, s: Core, dt: real, at: real)
    requires Valid(s)
    ensures Valid(AfterFinish(p, s, dt, at))
  {
    if s.running.Some? {
      var job, s' := s.running.value, AfterFinish(p, s, dt, at);
      if job.id in s.table {
        UpdateValid(s, s', job.id, Charge(p, s.table[job.id], job.extra, dt, at));
      } else {
        SameTableValid(s, s');
      }
    }
  }

  lemma PickValid(p: Policy, s: Core)
    requires Valid(s)
    ensures Valid(AfterPick(p, s))
  {
    if s.running.None? && Eligible(p, s).Some? && Ready(s, Eligible(p, s).value.0) {
      var id := Eligible(p, s).value.0;
      assert Listed(s, id);
      UpdateValid(s, AfterPick(p, s), id, s.table[id].(queue := s.table[id].queue[1..]));
    }
  }

  function Run(p: Policy, s: Core, acts: seq<Action>): (e: Core)
    requires Valid(s)
    ensures Valid(e)
    decreases |acts|
  {
    if acts == [] then s else ValidKept(p, s, acts[0]); Run(p, Apply(p, s, acts[0]), acts[1..])
  }

  /** What an action does to one registered tenant. */
  function Effect(p: Policy, s: Core, a: Action, id: nat): Tenant
    requires Valid(s) && id in s.table
  {
    var t := s.table[id];
    match a
    case DoCommand(name, c) => if name == t.name then Obey(p, t, c) else t
    case DoSubmit(name, req) => if name == t.name then t.(queue := t.queue + [req]) else t
    case DoPick => if Picks(p, s, id) && t.queue != [] then t.(queue := t.queue[1..]) else t
    case DoFinish(dt, at) =>
      if s.running.Some? && s.running.value.id == id then Charge(p, t, s.running.value.extra, dt, at) else t
    case _ => t
  }

  predicate Picks(p: Policy, s: Core, id: nat)
    requires Valid(s)
  {
    s.running.None? && Eligible(p, s).Some? && Eligible(p, s).value.0 == id
  }

  lemma ApplyEffect(p: Policy, s: Core, a: Action, id: nat)
    requires Valid(s) && id in s.table && a != DoUnregister(s.table[id].name)
    ensures id in Apply(p, s, a).table && Apply(p, s, a).table[id] == Effect(p, s, a, id)
  {
    assert Listed(s, id);
    match a
    case DoUnregister(name) => NameFound(s, name, id);
    case DoCommand(name, _) => NameFound(s, name, id);
    case DoSubmit(name, _) => NameFound(s, name, id);
    case _ =>
  }

  lemma NameFound(s: Core, name: string, id: nat)
    requires Valid(s) && id in s.table
    ensures var k := Position(s, name, 0); if s.table[id].name == name then k.Some? && s.order[k.value] == id
                                           else k.Some? ==> s.order[k.value] != id
  {
    assert Listed(s, id);
    var k := Position(s, name, 0);
    if k.Some? {
      assert OneName(s, s.order[k.value], id);
    }
  }

  // ---- The object ----

  /** The scheduler object. Each method is one critical section; `Pick` and `Finish` are the two of `step`. */
  class Gate {
    const policy: Policy
    var order: seq<nat>
    var table: map<nat, Tenant>
    var nextId: nat
    var running: Option<Job>

    ghost function State(): Core
      reads this
    {
      Core(order, table, nextId, running)
    }

    constructor (policy: Policy)
      ensures this.policy == policy && State() == Core([], map[], 0, None) && Valid(State())
    {
      this.policy := policy;
      order, table, nextId, running := [], map[], 0, None;
    }

    method Register(name: string) returns (id: nat)
      requires Valid(State())
      modifies this
      ensures Valid(State()) && State() == AfterRegister(old(State()), name)
      ensures id in table && table[id].name == name
    {
      RegisterValid(State(), name);
      var k := Position(Core(order, table, nextId, running), name, 0);
      if k.None? {
        id := nextId;
        order, table, nextId := order + [id], table[id := NewTenant(name)], nextId + 1;
      } else {
        id := order[k.value];
      }
    }

    /** Returns the requests that were still queued. */
    method Unregister(name: string) returns (left: seq<Request>)
      requires Valid(State())
      modifies this
      ensures Valid(State()) && State() == AfterUnregister(old(State()), name)
      ensures match Position(old(State()), name, 0)
              case None => left == []
              case Some(k) => left == old(table)[old(order)[k]].queue
    {
      UnregisterValid(State(), name);
      var k := Position(Core(order, table, nextId, running), name, 0);
      left := [];
      if k.Some? {
        var id := order[k.value];
        left := table[id].queue;
        order, table := order[..k.value] + order[k.value + 1..], table - {id};
      }
    }

    method Cmd(name: string, c: Command)
      requires Valid(State())
      modifies this
      ensures Valid(State()) && State() == AfterCommand(policy, old(State()), name, c)
    {
      ghost var next := AfterCommand(policy, State(), name, c);
      assert Valid(next) by { ValidKept(policy, State(), DoCommand(name, c)); }
      var k := Position(Core(order, table, nextId, running), name, 0);
      if k.None? {
        return;
      }
      var t := table[order[k.value]];
      match c {
        case TimeMode(mode) =>
          t := t.(armed := mode == 1);
          if t.armed {
            t := t.(unlimited := false);
          }
        case TimeCredit(us) =>
          if us < 0 {
            t := t.(unlimited := true, credit := 0.0);
          } else {
            t := t.(unlimited := false, credit := Min(us as real, policy.cap));
          }
        case TimeAdd(v) =>
          var before := t.credit;
          t := t.(credit := Min(t.credit + v, policy.cap));
          if policy.legacy {
            t := t.(granted := t.granted + v);
          } else {
            t := t.(granted := t.granted + (t.credit - before));
          }
      }
      assert t == Obey(policy, table[order[k.value]], c);
      table := table[order[k.value] := t];
      assert State() == next;
    }

    /** Fails, as the dictionary lookup does, for a tenant that is not registered. */
    method Submit(name: string, req: Request) returns (ok: bool)
      requires Valid(State())
      modifies this
      ensures Valid(State()) && State() == AfterSubmit(old(State()), name, req)
      ensures ok <==> Position(old(State()), name, 0).Some?
    {
      SubmitValid(State(), name, req);
      var k := Position(Core(order, table, nextId, running), name, 0);
      ok := k.Some?;
      if ok {
        var t := table[order[k.value]];
        table := table[order[k.value] := t.(queue := t.queue + [req])];
      }
    }

    /** Returns the job to run outside the lock, or nothing to do. */
    method Pick() returns (job: Option<Job>)
      requires Valid(State()) && running.None?
      modifies this
      ensures Valid(State()) && State() == AfterPick(policy, old(State())) && job == running
      ensures job.None? <==> Eligible(policy, old(State())).None?
    {
      PickValid(policy, State());
      EligibleIsLeast(policy, State());
      match Eligible(policy, Core(order, table, nextId, running)) {
        case None => job := None;
        case Some((id, extra)) =>
          var t := table[id];
          job := Some(Job(id, extra, t.queue[0]));
          table, running := table[id := t.(queue := t.queue[1..])], job;
      }
    }

    method Finish(dt: real, at: real)
      requires Valid(State()) && running.Some?
      modifies this
      ensures Valid(State()) && State() == AfterFinish(policy, old(State()), dt, at)
    {
      ghost var next := AfterFinish(policy, State(), dt, at);
      assert Valid(next) by { ValidKept(policy, State(), DoFinish(dt, at)); }
      var job := running.value;
      running := None;
      if job.id in table {
        var t := table[job.id];
        if job.extra && !policy.legacy {
          t := t.(extra := t.extra + dt, doneExtra := t.doneExtra + 1);
        } else {
          t := t.(charged := t.charged + dt);
          if t.armed && !t.unlimited {
            t := t.(credit := t.credit - dt);
          }
        }
        t := t.(done := t.done + 1, lastRun := at);
        assert t == Charge(policy, table[job.id], job.extra, dt, at);
        table := table[job.id := t];
      }
      assert State() == next;
    }
  }
}
