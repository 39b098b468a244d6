/** Contract fulfilment: what a tenant is charged follows what it is granted. */
module GateContract {
  import opened Wrappers
  import opened GateCore

  /** The action leaves tenant id registered, armed and limited, only adds budget to it, and its runs last
      at most D. Other tenants are free. */
  predicate Keeps(s: Core, a: Action, id: nat, D: real)
    requires id in s.table
  {
    match a
    case DoUnregister(name) => name != s.table[id].name
    case DoCommand(name, c) =>
      name == s.table[id].name ==> (c.TimeAdd? && c.amount >= 0.0) || c == TimeMode(1)
    case DoFinish(dt, _) => s.running.Some? && s.running.value.id == id ==> 0.0 <= dt <= D
    case _ => true
  }

  ghost predicate KeepsRun(p: Policy, s: Core, acts: seq<Action>, id: nat, D: real)
    requires Valid(s)
    decreases |acts|
  {
    acts == [] || (id in s.table && Keeps(s, acts[0], id, D)
                   && (ValidKept(p, s, acts[0]); KeepsRun(p, Apply(p, s, acts[0]), acts[1..], id, D)))
  }

  /** Since granted stood at g and charged at c: credit is exactly what is granted and not charged, and a
      contract run in flight started with credit left. */
  predicate Fulfilled(p: Policy, t: Tenant, g: real, c: real, D: real, inFlight: bool) {
    && t.armed && !t.unlimited
    && t.credit == (t.granted - g) - (t.charged - c)
    && -D <= t.credit <= p.cap
    && (inFlight ==> t.credit >= 0.0)
  }

  predicate InFlight(s: Core, id: nat) {
    s.running.Some? && s.running.value.id == id && !s.running.value.extra
  }

  lemma FulfilledStep(p: Policy, s: Core, a: Action, id: nat, g: real, c: real, D: real)
    requires Valid(s) && !p.legacy && D >= 0.0 && id in s.table && Keeps(s, a, id, D)
    requires Fulfilled(p, s.table[id], g, c, D, InFlight(s, id))
    ensures var s' := Apply(p, s, a);
            id in s'.table && s'.table[id].name == s.table[id].name
            && Fulfilled(p, s'.table[id], g, c, D, InFlight(s', id))
  {
    ApplyEffect(p, s, a, id);
    if a.DoPick? {
      EligibleIsLeast(p, s);
    }
  }

  lemma {:induction false} FulfilledRun(p: Policy, s: Core, acts: seq<Action>, id: nat, g: real, c: real, D: real)
    requires Valid(s) && !p.legacy && D >= 0.0 && id in s.table && KeepsRun(p, s, acts, id, D)
    requires Fulfilled(p, s.table[id], g, c, D, InFlight(s, id))
    ensures id in Run(p, s, acts).table
    ensures Fulfilled(p, Run(p, s, acts).table[id], g, c, D, InFlight(Run(p, s, acts), id))
    decreases |acts|
  {
    if acts != [] {
      ValidKept(p, s, acts[0]);
      FulfilledStep(p, s, acts[0], id, g, c, D);
      FulfilledRun(p, Apply(p, s, acts[0]), acts[1..], id, g, c, D);
    }
  }

  /** A tenant whose credit was just set to 0, kept armed and limited: at every later moment, with commands
      anywhere between picks and charges, granted - CAP <= charged <= granted + D since then. */
  lemma Fulfilment(p: Policy, s: Core, acts: seq<Action>, id: nat, D: real)
    requires Valid(s) && !p.legacy && p.cap >= 0.0 && D >= 0.0
    requires Restarted(s, id) && KeepsRun(p, s, acts, id, D)
    ensures id in Run(p, s, acts).table
    ensures WithinContract(s.table[id], Run(p, s, acts).table[id], p.cap, D)
  {
    FulfilledRun(p, s, acts, id, s.table[id].granted, s.table[id].charged, D);
  }

  lemma Around(x: real, g: real)
    ensures (1.0 - x) * g == g - x * g && (1.0 + x) * g == g + x * g
  {
  }

  lemma Quotient(a: real, g: real)
    requires g > 0.0
    ensures a / g * g == a
  {
  }

  lemma DivideBounds(c: real, g: real, lo: real, hi: real)
    requires g > 0.0 && g - lo <= c <= g + hi
    ensures 1.0 - lo / g <= c / g <= 1.0 + hi / g
  {
    Quotient(c, g);
    Quotient(lo, g);
    Quotient(hi, g);
    Around(lo / g, g);
    Around(hi / g, g);
    Cancel(1.0 - lo / g, c / g, g);
    Cancel(c / g, 1.0 + hi / g, g);
  }

  lemma Cancel(a: real, b: real, g: real)
    requires g > 0.0 && a * g <= b * g
    ensures a <= b
  {
  }

  /** Charged between granted - CAP and granted + D, going from t to e. */
  predicate WithinContract(t: Tenant, e: Tenant, cap: real, D: real) {
    (e.granted - t.granted) - cap <= e.charged - t.charged <= (e.granted - t.granted) + D
  }

  /** Share of the grant that was served, from t to e. */
  function Served(t: Tenant, e: Tenant): real
    requires e.granted > t.granted
  {
    (e.charged - t.charged) / (e.granted - t.granted)
  }

  /** The served shares differ by at most D/granted + CAP/granted'. */
  predicate Proportional(t: Tenant, e: Tenant, t': Tenant, e': Tenant, cap: real, D: real) {
    e.granted > t.granted && e'.granted > t'.granted ==>
      Served(t, e) - Served(t', e') <= D / (e.granted - t.granted) + cap / (e'.granted - t'.granted)
  }

  lemma Proportion(t: Tenant, e: Tenant, t': Tenant, e': Tenant, cap: real, D: real)
    requires WithinContract(t, e, cap, D) && WithinContract(t', e', cap, D)
    ensures Proportional(t, e, t', e', cap, D)
  {
    if e.granted > t.granted && e'.granted > t'.granted {
      DivideBounds(e.charged - t.charged, e.granted - t.granted, cap, D);
      DivideBounds(e'.charged - t'.charged, e'.granted - t'.granted, cap, D);
    }
  }

  ghost predicate Restarted(s: Core, id: nat) {
    id in s.table && s.table[id].armed && !s.table[id].unlimited && s.table[id].credit == 0.0
  }

  /** Two such tenants are served in proportion to their grants, up to an error that their grants outgrow. */
  lemma ProportionalService(p: Policy, s: Core, acts: seq<Action>, i: nat, j: nat, D: real)
    requires Valid(s) && !p.legacy && p.cap >= 0.0 && D >= 0.0 && Restarted(s, i) && Restarted(s, j)
    requires KeepsRun(p, s, acts, i, D) && KeepsRun(p, s, acts, j, D)
    ensures var e := Run(p, s, acts).table;
            i in e && j in e && Proportional(s.table[i], e[i], s.table[j], e[j], p.cap, D)
  {
    Fulfilment(p, s, acts, i, D);
    Fulfilment(p, s, acts, j, D);
    var e := Run(p, s, acts).table;
    Proportion(s.table[i], e[i], s.table[j], e[j], p.cap, D);
  }

  // ---- The former accounting has no such bound ----

  /** One tenant, armed and limited, with nothing queued. */
  function Alone(t: Tenant): Core {
    Core([0], map[0 := t], 1, None)
  }

  lemma AloneFacts(t: Tenant)
    requires t.name == "a"
    ensures Valid(Alone(t)) && Position(Alone(t), "a", 0) == Some(0)
  {
  }

  predicate Idle(t: Tenant) {
    t.name == "a" && t.queue == [] && t.armed && !t.unlimited
  }

  lemma Cons(p: Policy, s: Core, a: Action, rest: seq<Action>, D: real)
    requires Valid(s) && 0 in s.table && Keeps(s, a, 0, D) && Valid(Apply(p, s, a))
    requires KeepsRun(p, Apply(p, s, a), rest, 0, D)
    ensures KeepsRun(p, s, [a] + rest, 0, D) && Run(p, s, [a] + rest) == Run(p, Apply(p, s, a), rest)
  {
    assert ([a] + rest)[1..] == rest;
  }

  /** Out of credit, the tenant is picked by the fallback. */
  lemma FallbackPick(p: Policy, t: Tenant)
    requires p.workConserving && t.armed && !t.unlimited && t.credit <= 0.0 && t.queue != []
    ensures Valid(Alone(t)) && Eligible(p, Alone(t)) == Some((0, true))
  {
    EligibleIsLeast(p, Alone(t));
    assert Ready(Alone(t), 0);
    assert forall id :: Ready(Alone(t), id) ==> id == 0;
  }

  function Busy(t: Tenant): Core {
    Alone(t).(running := Some(Job(0, true, 0)))
  }

  /** The three actions of one fallback round. */
  lemma SubmitOne(p: Policy, t: Tenant)
    requires Idle(t)
    ensures Valid(Alone(t)) && Apply(p, Alone(t), DoSubmit("a", 0)) == Alone(t.(queue := [0]))
  {
    AloneFacts(t);
    assert t.queue + [0] == [0];
    assert map[0 := t][0 := t.(queue := [0])] == map[0 := t.(queue := [0])];
  }

  lemma PickOne(p: Policy, t: Tenant)
    requires p.workConserving && Idle(t) && t.credit <= 0.0
    ensures Valid(Alone(t.(queue := [0]))) && Apply(p, Alone(t.(queue := [0])), DoPick) == Busy(t)
  {
    FallbackPick(p, t.(queue := [0]));
    assert [0][1..] == t.queue;
  }

  lemma FinishOne(p: Policy, t: Tenant, D: real)
    ensures Valid(Busy(t)) && Apply(p, Busy(t), DoFinish(D, 0.0)) == Alone(Charge(p, t, true, D, 0.0))
  {
  }

  lemma {:induction false} FallbackRounds(p: Policy, t: Tenant, n: nat, D: real) returns (acts: seq<Action>)
    requires p.legacy && p.workConserving && Idle(t) && t.credit <= 0.0 && D >= 0.0
    ensures Valid(Alone(t)) && KeepsRun(p, Alone(t), acts, 0, D)
    ensures var e := Run(p, Alone(t), acts).table;
            0 in e && e[0].charged == t.charged + Times(n, D) && e[0].granted == t.granted
    decreases n
  {
    AloneFacts(t);
    if n == 0 {
      acts := [];
    } else {
      var u := Charge(p, t, true, D, 0.0);
      assert Idle(u) && u.credit <= 0.0 && u.charged == t.charged + D && u.granted == t.granted;
      var rest := FallbackRounds(p, u, n - 1, D);
      acts := RoundsCons(p, t, rest, D);
    }
  }

  function Times(n: nat, D: real): real {
    if n == 0 then 0.0 else Times(n - 1, D) + D
  }

  lemma {:induction false} TimesIsProduct(n: nat, D: real)
    ensures Times(n, D) == n as real * D
  {
    if n > 0 {
      TimesIsProduct(n - 1, D);
    }
  }

  lemma RoundsCons(p: Policy, t: Tenant, rest: seq<Action>, D: real) returns (acts: seq<Action>)
    requires p.legacy && p.workConserving && Idle(t) && t.credit <= 0.0 && D >= 0.0
    requires Valid(Alone(Charge(p, t, true, D, 0.0))) && KeepsRun(p, Alone(Charge(p, t, true, D, 0.0)), rest, 0, D)
    ensures Valid(Alone(t))
    ensures KeepsRun(p, Alone(t), acts, 0, D)
    ensures Run(p, Alone(t), acts) == Run(p, Alone(Charge(p, t, true, D, 0.0)), rest)
  {
    acts := [DoSubmit("a", 0)] + ([DoPick] + ([DoFinish(D, 0.0)] + rest));
    SubmitOne(p, t);
    PickOne(p, t);
    FinishOne(p, t, D);
    Cons(p, Busy(t), DoFinish(D, 0.0), rest, D);
    Cons(p, Alone(t.(queue := [0])), DoPick, [DoFinish(D, 0.0)] + rest, D);
    Cons(p, Alone(t), DoSubmit("a", 0), [DoPick] + ([DoFinish(D, 0.0)] + rest), D);
  }

  lemma RefillOnce(p: Policy, t: Tenant, v: real)
    requires Idle(t)
    ensures Valid(Alone(t)) && Apply(p, Alone(t), DoCommand("a", TimeAdd(v))) == Alone(Obey(p, t, TimeAdd(v)))
  {
    AloneFacts(t);
    assert map[0 := t][0 := Obey(p, t, TimeAdd(v))] == map[0 := Obey(p, t, TimeAdd(v))];
  }

  lemma {:induction false} RefillRounds(p: Policy, t: Tenant, n: nat, v: real, D: real) returns (acts: seq<Action>)
    requires p.legacy && Idle(t) && v >= 0.0
    ensures Valid(Alone(t)) && KeepsRun(p, Alone(t), acts, 0, D)
    ensures var e := Run(p, Alone(t), acts).table;
            0 in e && e[0].granted == t.granted + Times(n, v) && e[0].charged == t.charged
    decreases n
  {
    if n == 0 {
      acts := [];
    } else {
      var a, u := DoCommand("a", TimeAdd(v)), Obey(p, t, TimeAdd(v));
      var rest := RefillRounds(p, u, n - 1, v, D);
      RefillOnce(p, t, v);
      Cons(p, Alone(t), a, rest, D);
      acts := [a] + rest;
    }
  }

  /** Enough rounds of length D exceed X. */
  lemma Archimedes(X: real, D: real) returns (n: nat)
    requires D > 0.0
    ensures n as real * D > X
  {
    var q := X / D;
    n := if q < 0.0 then 1 else q.Floor + 1;
    assert n as real > q;
    assert q * D == X;
  }

  /** Under LEGACY_REPAY neither side of the contract holds: for every X some kept run charges more than
      granted + X, and another is granted more than charged + X. */
  lemma LegacyUnbounded(p: Policy, X: real, D: real)
    requires p.legacy && p.workConserving && D > 0.0
    ensures var s := Alone(Tenant("a", [], true, false, 0.0, 0.0, 0.0, 0.0, 0, 0, 0.0));
            && Valid(s) && Restarted(s, 0)
            && (exists acts :: KeepsRun(p, s, acts, 0, D) && 0 in Run(p, s, acts).table
                  && Run(p, s, acts).table[0].charged > Run(p, s, acts).table[0].granted + X)
            && (exists acts :: KeepsRun(p, s, acts, 0, D) && 0 in Run(p, s, acts).table
                  && Run(p, s, acts).table[0].granted > Run(p, s, acts).table[0].charged + X)
  {
    var t := Tenant("a", [], true, false, 0.0, 0.0, 0.0, 0.0, 0, 0, 0.0);
    var n := Archimedes(X, D);
    TimesIsProduct(n, D);
    var acts := FallbackRounds(p, t, n, D);
    var acts' := RefillRounds(p, t, n, D, D);
    var s := Alone(t);
    assert KeepsRun(p, s, acts, 0, D) && Run(p, s, acts).table[0].charged > Run(p, s, acts).table[0].granted + X;
    assert KeepsRun(p, s, acts', 0, D) && Run(p, s, acts').table[0].granted > Run(p, s, acts').table[0].charged + X;
  }
}
