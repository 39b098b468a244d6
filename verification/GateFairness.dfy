/** Fairness of contract selection: bounded gaps between tenants and bounded waiting. */
module GateFairness {
  import opened Sums
  import opened Wrappers
  import opened GateCore

  lemma RatioCharge(p: Policy, t: Tenant, dt: real, at: real)
    ensures Ratio(Charge(p, t, false, dt, at)) == Ratio(t) + dt / Granted(t)
  {
  }

  lemma DivideMonotone(a: real, b: real, g: real)
    requires a <= b && g > 0.0
    ensures a / g <= b / g
  {
  }

  // ---- Deficit gap ----

  predicate Ends(s: Core, a: Action, id: nat) {
    a.DoFinish? && s.running.Some? && s.running.value.id == id
  }

  /** Tenants i and j stay registered, keep their grants and are candidates at every pick; runs of i last at
      most D and those of j are not negative. Everybody else is free. */
  ghost predicate Rival(p: Policy, s: Core, a: Action, i: nat, j: nat, D: real)
    requires Valid(s)
  {
    && i in s.table && j in s.table
    && a != DoUnregister(s.table[i].name) && a != DoUnregister(s.table[j].name)
    && Effect(p, s, a, i).granted == s.table[i].granted && Effect(p, s, a, j).granted == s.table[j].granted
    && (a.DoPick? ==> Candidate(s, i) && Candidate(s, j))
    && (Ends(s, a, i) ==> a.dt <= D) && (Ends(s, a, j) ==> a.dt >= 0.0)
  }

  ghost predicate RivalRun(p: Policy, s: Core, acts: seq<Action>, i: nat, j: nat, D: real)
    requires Valid(s)
    decreases |acts|
  {
    acts == [] || (Rival(p, s, acts[0], i, j, D)
                   && (ValidKept(p, s, acts[0]); RivalRun(p, Apply(p, s, acts[0]), acts[1..], i, j, D)))
  }

  function Gap(s: Core, i: nat, j: nat): real
    requires i in s.table && j in s.table
  {
    Ratio(s.table[i]) - Ratio(s.table[j])
  }

  ghost predicate GapInv(s: Core, i: nat, j: nat, bound: real, g: real) {
    && i in s.table && j in s.table && Granted(s.table[i]) == g && Gap(s, i, j) <= bound
    && (s.running.Some? && (s.running.value.id == i || s.running.value.id == j) ==> !s.running.value.extra)
    && (s.running.Some? && s.running.value.id == i ==> Gap(s, i, j) <= 0.0)
  }

  lemma GapPick(p: Policy, s: Core, i: nat, j: nat, bound: real, g: real)
    requires Valid(s) && i != j && GapInv(s, i, j, bound, g) && Candidate(s, i) && Candidate(s, j)
    ensures GapInv(AfterPick(p, s), i, j, bound, g)
  {
    EligibleIsLeast(p, s);
  }

  /** Charging i adds at most D / g to its ratio, charging j lowers the gap. */
  lemma GapFinish(p: Policy, s: Core, i: nat, j: nat, D: real, bound: real, g: real, dt: real, at: real)
    requires i != j && GapInv(s, i, j, bound, g) && g > 0.0 && bound >= D / g
    requires s.running.Some? && s.running.value.id == i ==> dt <= D
    requires s.running.Some? && s.running.value.id == j ==> dt >= 0.0
    ensures GapInv(AfterFinish(p, s, dt, at), i, j, bound, g)
  {
    RatioCharge(p, s.table[i], dt, at);
    RatioCharge(p, s.table[j], dt, at);
    if dt <= D { DivideMonotone(dt, D, g); }
    if dt >= 0.0 { DivideMonotone(0.0, dt, Granted(s.table[j])); }
  }

  /** Submissions, commands and registrations that keep both grants. */
  lemma GapOther(p: Policy, s: Core, a: Action, i: nat, j: nat, D: real, bound: real, g: real)
    requires Valid(s) && Rival(p, s, a, i, j, D) && GapInv(s, i, j, bound, g) && !a.DoPick? && !a.DoFinish?
    ensures GapInv(Apply(p, s, a), i, j, bound, g)
  {
    ApplyEffect(p, s, a, i);
    ApplyEffect(p, s, a, j);
  }

  lemma GapStep(p: Policy, s: Core, a: Action, i: nat, j: nat, D: real, bound: real, g: real)
    requires Valid(s) && i != j && Rival(p, s, a, i, j, D) && GapInv(s, i, j, bound, g) && g > 0.0 && bound >= D / g
    ensures GapInv(Apply(p, s, a), i, j, bound, g)
  {
    match a
    case DoPick => GapPick(p, s, i, j, bound, g);
    case DoFinish(dt, at) => GapFinish(p, s, i, j, D, bound, g, dt, at);
    case _ => GapOther(p, s, a, i, j, D, bound, g);
  }

  /** Whatever other tenants and the control plane do, r_i - r_j never exceeds the larger of its starting
      value and D / max(granted_i, 1). */
  lemma {:induction false} GapBound(p: Policy, s: Core, acts: seq<Action>, i: nat, j: nat, D: real, bound: real)
    requires Valid(s) && i != j && i in s.table && j in s.table && RivalRun(p, s, acts, i, j, D)
    requires bound >= D / Granted(s.table[i]) && GapInv(s, i, j, bound, Granted(s.table[i]))
    ensures i in Run(p, s, acts).table && j in Run(p, s, acts).table && Gap(Run(p, s, acts), i, j) <= bound
    decreases |acts|
  {
    if acts != [] {
      ValidKept(p, s, acts[0]);
      GapStep(p, s, acts[0], i, j, D, bound, Granted(s.table[i]));
      GapBound(p, Apply(p, s, acts[0]), acts[1..], i, j, D, bound);
    }
  }

  /** The same from a state with nothing in flight, with the bound written out. */
  lemma DeficitGap(p: Policy, s: Core, acts: seq<Action>, i: nat, j: nat, D: real)
    requires Valid(s) && i != j && i in s.table && j in s.table && s.running.None? && RivalRun(p, s, acts, i, j, D)
    ensures i in Run(p, s, acts).table && j in Run(p, s, acts).table
    ensures Gap(Run(p, s, acts), i, j) <= Gap(s, i, j) || Gap(Run(p, s, acts), i, j) <= D / Granted(s.table[i])
  {
    var limit := D / Granted(s.table[i]);
    GapBound(p, s, acts, i, j, D, if Gap(s, i, j) >= limit then Gap(s, i, j) else limit);
  }

  // ---- Bounded waiting ----

  /** Whole runs of length d that fit before a tenant with this ratio and grant passes ratio r, plus one. */
  function Fits(r: real, ratio: real, g: real, d: real): (n: int)
    requires d > 0.0 && g >= 1.0 && ratio <= r
    ensures n >= 1
  {
    assert (r - ratio) * g >= 0.0;
    assert (r - ratio) * g / d >= 0.0;
    ((r - ratio) * g / d).Floor + 1
  }

  /** Picks that tenant t can still take ahead of a tenant with ratio r when every run lasts at least d. */
  function Ahead(t: Tenant, r: real, d: real): (n: int)
    requires d > 0.0
    ensures n >= 0
  {
    if Ratio(t) <= r then Fits(r, Ratio(t), Granted(t), d) else 0
  }

  function AheadOf(table: map<nat, Tenant>, i: nat, d: real): nat -> int
    requires i in table && d > 0.0
  {
    (id: nat) => if id in table && id != i then Ahead(table[id], Ratio(table[i]), d) else 0
  }

  /** The sum over all other tenants. */
  function WaitingBound(s: Core, i: nat, d: real): int
    requires i in s.table && d > 0.0
  {
    Total(s.order, AheadOf(s.table, i, d))
  }

  lemma OneLess(x: real, d: real)
    requires d > 0.0
    ensures (x - d) / d == x / d - 1.0
  {
    var q, w := x / d, (x - d) / d;
    assert q * d == x && w * d == x - d;
    Distribute(q, d);
    SameFactor(q - 1.0, w, d);
  }

  lemma Distribute(q: real, d: real)
    ensures (q - 1.0) * d == q * d - d
  {
  }

  lemma SameFactor(a: real, b: real, d: real)
    requires d > 0.0 && a * d == b * d
    ensures a == b
  {
  }

  lemma FitsFewer(r: real, ratio: real, dt: real, g: real, d: real)
    requires d > 0.0 && g >= 1.0 && dt >= d && ratio + dt / g <= r && ratio <= r
    ensures Fits(r, ratio + dt / g, g, d) <= Fits(r, ratio, g, d) - 1
  {
    var x, y := (r - ratio) * g, (r - (ratio + dt / g)) * g;
    assert dt / g * g == dt;
    assert y == x - dt;
    DivideMonotone(y, x - d, d);
    OneLess(x, d);
  }

  /** A service of at least d uses up at least one pick. */
  lemma AheadCharged(p: Policy, t: Tenant, r: real, d: real, dt: real, at: real)
    requires d > 0.0 && dt >= d && Ratio(t) <= r
    ensures Ahead(Charge(p, t, false, dt, at), r, d) <= Ahead(t, r, d) - 1
  {
    RatioCharge(p, t, dt, at);
    if Ratio(t) + dt / Granted(t) <= r {
      FitsFewer(r, Ratio(t), dt, Granted(t), d);
    }
  }

  lemma AheadSame(t: Tenant, t': Tenant, r: real, d: real)
    requires d > 0.0 && t'.charged == t.charged && t'.granted == t.granted
    ensures Ahead(t', r, d) == Ahead(t, r, d) && Ratio(t') == Ratio(t)
  {
  }

  lemma {:induction false} TotalChange(ids: seq<nat>, f: nat -> int, g: nat -> int, j: nat)
    requires forall a: nat, b: nat :: Apart(ids, a, b)
    requires forall id :: id != j ==> f(id) == g(id)
    ensures Total(ids, g) == Total(ids, f) + (if j in ids then g(j) - f(j) else 0)
  {
    if ids != [] {
      forall a: nat, b: nat ensures Apart(ids[1..], a, b) { assert Apart(ids, a + 1, b + 1); }
      TotalChange(ids[1..], f, g, j);
      forall k: nat | k < |ids[1..]| ensures ids[1..][k] != ids[0] { assert Apart(ids, 0, k + 1); }
      assert j in ids <==> j == ids[0] || j in ids[1..];
    }
  }

  /** Only submissions, picks and runs of at least d; tenant i is a candidate at every pick and not picked. */
  ghost predicate Waits(p: Policy, s: Core, a: Action, i: nat, d: real)
    requires Valid(s)
  {
    && i in s.table
    && (a.DoSubmit? || a.DoPick? || (a.DoFinish? && a.dt >= d))
    && (a.DoPick? ==> Candidate(s, i) && !Picks(p, s, i))
  }

  ghost predicate WaitsRun(p: Policy, s: Core, acts: seq<Action>, i: nat, d: real)
    requires Valid(s)
    decreases |acts|
  {
    acts == [] || (Waits(p, s, acts[0], i, d)
                   && (ValidKept(p, s, acts[0]); WaitsRun(p, Apply(p, s, acts[0]), acts[1..], i, d)))
  }

  /** How many jobs the run starts. */
  function Started(p: Policy, s: Core, acts: seq<Action>): nat
    requires Valid(s)
    decreases |acts|
  {
    if acts == [] then 0 else
      ValidKept(p, s, acts[0]);
      var s' := Apply(p, s, acts[0]);
      (if s.running.None? && s'.running.Some? then 1 else 0) + Started(p, s', acts[1..])
  }

  /** A job in flight is a contract run of another tenant that is not past i. */
  ghost predicate Overtaken(s: Core, i: nat) {
    s.running.Some? ==>
      var job := s.running.value;
      !job.extra && job.id != i && job.id in s.table && i in s.table && Ratio(s.table[job.id]) <= Ratio(s.table[i])
  }

  function InFlight(s: Core): nat { if s.running.Some? then 1 else 0 }

  lemma SameRatios(s: Core, s': Core, i: nat, d: real)
    requires Valid(s) && d > 0.0 && i in s.table && s'.order == s.order && s'.table.Keys == s.table.Keys
    requires forall id :: id in s.table ==>
               s'.table[id].charged == s.table[id].charged && s'.table[id].granted == s.table[id].granted
    ensures WaitingBound(s', i, d) == WaitingBound(s, i, d)
  {
    var f, g := AheadOf(s.table, i, d), AheadOf(s'.table, i, d);
    forall k | 0 <= k < |s.order| ensures f(s.order[k]) == g(s.order[k]) {
      var id := s.order[k];
      assert Listed(s, id);
      AheadSame(s.table[i], s'.table[i], Ratio(s.table[i]), d);
      AheadSame(s.table[id], s'.table[id], Ratio(s.table[i]), d);
    }
    TotalSame(s.order, f, g);
  }

  lemma FinishUsesUp(p: Policy, s: Core, i: nat, d: real, dt: real, at: real)
    requires Valid(s) && d > 0.0 && dt >= d && i in s.table && s.running.Some? && Overtaken(s, i)
    ensures i in AfterFinish(p, s, dt, at).table
    ensures WaitingBound(AfterFinish(p, s, dt, at), i, d) <= WaitingBound(s, i, d) - 1
  {
    var j, s' := s.running.value.id, AfterFinish(p, s, dt, at);
    var f, g := AheadOf(s.table, i, d), AheadOf(s'.table, i, d);
    assert Listed(s, j);
    AheadCharged(p, s.table[j], Ratio(s.table[i]), d, dt, at);
    TotalChange(s.order, f, g, j);
  }

  lemma WaitSubmit(s: Core, name: string, req: Request, i: nat, d: real)
    requires Valid(s) && d > 0.0 && i in s.table && Overtaken(s, i)
    ensures var s' := AfterSubmit(s, name, req);
            && i in s'.table && s'.running == s.running
            && Overtaken(s', i) && WaitingBound(s', i, d) == WaitingBound(s, i, d)
  {
    var s' := AfterSubmit(s, name, req);
    assert forall id :: id in s.table ==> s'.table[id] == s.table[id].(queue := s'.table[id].queue);
    SameRatios(s, s', i, d);
  }

  lemma WaitPick(p: Policy, s: Core, i: nat, d: real)
    requires Valid(s) && d > 0.0 && Candidate(s, i) && !Picks(p, s, i) && Overtaken(s, i)
    ensures var s' := AfterPick(p, s);
            && i in s'.table && (s.running.Some? ==> s'.running.Some?)
            && Overtaken(s', i) && WaitingBound(s', i, d) == WaitingBound(s, i, d)
  {
    EligibleIsLeast(p, s);
    SameRatios(s, AfterPick(p, s), i, d);
  }

  lemma WaitFinish(p: Policy, s: Core, i: nat, d: real, dt: real, at: real)
    requires Valid(s) && d > 0.0 && dt >= d && i in s.table && Overtaken(s, i)
    ensures var s' := AfterFinish(p, s, dt, at);
            && i in s'.table && s'.running.None?
            && (if s.running.Some? then WaitingBound(s', i, d) <= WaitingBound(s, i, d) - 1
                else WaitingBound(s', i, d) == WaitingBound(s, i, d))
  {
    if s.running.Some? {
      FinishUsesUp(p, s, i, d, dt, at);
    }
  }

  /** How the waiting bound and the job in flight move together. */
  ghost predicate Progresses(s: Core, s': Core, i: nat, d: real)
    requires d > 0.0 && i in s.table
  {
    && i in s'.table && Overtaken(s', i)
    && (if s.running.Some? && s'.running.None? then WaitingBound(s', i, d) <= WaitingBound(s, i, d) - 1
        else WaitingBound(s', i, d) == WaitingBound(s, i, d))
  }

  lemma WaitStep(p: Policy, s: Core, a: Action, i: nat, d: real)
    requires Valid(s) && d > 0.0 && Waits(p, s, a, i, d) && Overtaken(s, i)
    ensures Progresses(s, Apply(p, s, a), i, d)
  {
    if a.DoFinish? {
      WaitFinish(p, s, i, d, a.dt, a.at);
      assert Apply(p, s, a) == AfterFinish(p, s, a.dt, a.at);
    } else if a.DoSubmit? {
      WaitSubmit(s, a.name, a.req, i, d);
      assert Apply(p, s, a) == AfterSubmit(s, a.name, a.req);
    } else {
      WaitPick(p, s, i, d);
      assert Apply(p, s, a) == AfterPick(p, s);
    }
  }

  lemma {:induction false} WaitRun(p: Policy, s: Core, acts: seq<Action>, i: nat, d: real)
    requires Valid(s) && d > 0.0 && i in s.table && WaitsRun(p, s, acts, i, d) && Overtaken(s, i)
    ensures Started(p, s, acts) + InFlight(s) <= WaitingBound(s, i, d)
    decreases |acts|
  {
    if acts == [] {
      BoundCoversFlight(s, i, d);
    } else {
      ValidKept(p, s, acts[0]);
      WaitStep(p, s, acts[0], i, d);
      WaitRun(p, Apply(p, s, acts[0]), acts[1..], i, d);
    }
  }

  lemma BoundCoversFlight(s: Core, i: nat, d: real)
    requires Valid(s) && d > 0.0 && i in s.table && Overtaken(s, i)
    ensures WaitingBound(s, i, d) >= InFlight(s)
  {
    var f := AheadOf(s.table, i, d);
    NonNegative(s.order, f);
    if s.running.Some? {
      var j := s.running.value.id;
      assert Listed(s, j);
      var k :| 0 <= k < |s.order| && s.order[k] == j;
      TotalAtLeastOne(s.order, k, f);
      assert f(j) >= 1;
    }
  }

  /** A tenant that is a candidate at every pick is served after at most the sum, over the other tenants j
      with r_j <= r_i, of floor((r_i - r_j) * g_j / d) + 1 picks. */
  lemma BoundedWaiting(p: Policy, s: Core, acts: seq<Action>, i: nat, d: real)
    requires Valid(s) && d > 0.0 && i in s.table && s.running.None? && WaitsRun(p, s, acts, i, d)
    ensures Started(p, s, acts) <= WaitingBound(s, i, d)
  {
    WaitRun(p, s, acts, i, d);
  }
}
