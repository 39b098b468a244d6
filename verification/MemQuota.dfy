/** Memory quota of libbless: threads check the quota, allocate, then track; they untrack, then free.
    The counter is atomic, the size map is under a mutex, and nothing holds both. */
module MemQuota {
  import opened Sums

  type Ptr = nat

  datatype Pc =
    | Idle
    | Checked(size: nat)                // quota passed, driver not yet asked
    | Allocated(p: Ptr, size: nat)      // driver succeeded, map not yet updated
    | Inserted(p: Ptr, size: nat)       // in the map, counter not yet raised
    | Freeing(p: Ptr)                   // still in the map
    | Erased(p: Ptr, size: nat)         // out of the map, counter not yet lowered
    | Untracked(p: Ptr)                 // driver not yet told

  /** `live` is what the driver has handed out, `owned` what the application may free. */
  datatype State = State(quota: int, current: int, sizes: map<Ptr, nat>,
                         live: set<Ptr>, owned: set<Ptr>, threads: seq<Pc>)

  datatype Action =
    | Malloc(i: nat, size: nat)             // the quota check
    | Driver(i: nat, p: Ptr, ok: bool)      // the real allocation; a success returns an address not in use
    | Free(i: nat, p: Ptr)
    | Go(i: nat)

  predicate CheckQuota(quota: int, current: int, size: nat) {
    quota < 0 || current + size <= quota
  }

  function Goto(s: State, i: nat, pc: Pc): State
    requires i < |s.threads|
  {
    s.(threads := s.threads[i := pc])
  }

  function Apply(s: State, a: Action): State {
    if a.i >= |s.threads| then s else
    match (a, s.threads[a.i])
    case (Malloc(i, size), Idle) => if CheckQuota(s.quota, s.current, size) then Goto(s, i, Checked(size)) else s
    case (Driver(i, p, ok), Checked(size)) =>
      if !ok then Goto(s, i, Idle)
      else if p in s.live then s
      else Goto(s, i, Allocated(p, size)).(live := s.live + {p})
    case (Free(i, p), Idle) => if p in s.owned then Goto(s, i, Freeing(p)).(owned := s.owned - {p}) else s
    case (Go(i), Allocated(p, size)) => Goto(s, i, Inserted(p, size)).(sizes := s.sizes[p := size])
    case (Go(i), Inserted(p, size)) => Goto(s, i, Idle).(current := s.current + size, owned := s.owned + {p})
    case (Go(i), Freeing(p)) =>
      Goto(s, i, Erased(p, if p in s.sizes then s.sizes[p] else 0)).(sizes := s.sizes - {p})
    case (Go(i), Erased(p, size)) => Goto(s, i, Untracked(p)).(current := s.current - size)
    case (Go(i), Untracked(p)) => Goto(s, i, Idle).(live := s.live - {p})
    case _ => s
  }

  function Run(s: State, acts: seq<Action>): State
    decreases |acts|
  {
    if acts == [] then s else Run(Apply(s, acts[0]), acts[1..])
  }

  // ---- One caller alone ----

  /** A request is refused exactly when a quota is set, that is, not negative, and the counter with the request
      would exceed it; a refusal leaves no trace. */
  lemma RefusedIff(s: State, i: nat, size: nat)
    requires i < |s.threads| && s.threads[i] == Idle
    ensures var s' := Apply(s, Malloc(i, size));
            if s.quota >= 0 && s.current + size > s.quota then s' == s
            else s' == s.(threads := s.threads[i := Checked(size)])
  {
  }

  lemma Twice(threads: seq<Pc>, i: nat, a: Pc, b: Pc)
    requires i < |threads|
    ensures threads[i := a][i := b] == threads[i := b]
  {
  }

  /** A call to malloc that passes and that nobody disturbs: the block is handed out, mapped and counted; if the
      driver fails, nothing is left of it. */
  lemma MallocAlone(s: State, i: nat, size: nat, p: Ptr)
    requires i < |s.threads| && s.threads[i] == Idle && (s.quota < 0 || s.current + size <= s.quota) && p !in s.live
    ensures Run(s, [Malloc(i, size), Driver(i, p, true), Go(i), Go(i)])
            == s.(current := s.current + size, sizes := s.sizes[p := size],
                  live := s.live + {p}, owned := s.owned + {p})
    ensures Run(s, [Malloc(i, size), Driver(i, p, false)]) == s
  {
    var a := Apply(s, Malloc(i, size));
    var b := Apply(a, Driver(i, p, true));
    Twice(s.threads, i, Checked(size), Allocated(p, size));
    var c := Apply(b, Go(i));
    Twice(s.threads, i, Allocated(p, size), Inserted(p, size));
    var d := Apply(c, Go(i));
    Twice(s.threads, i, Inserted(p, size), Idle);
    Twice(s.threads, i, Checked(size), Idle);
    assert s.threads[i := Idle] == s.threads;
    FourSteps(s, Malloc(i, size), Driver(i, p, true), Go(i), Go(i));
    TwoSteps(s, Malloc(i, size), Driver(i, p, false));
  }

  lemma TwoSteps(s: State, a: Action, b: Action)
    ensures Run(s, [a, b]) == Apply(Apply(s, a), b)
  {
    assert [a, b][1..] == [b] && [b][1..] == [];
    assert Run(Apply(Apply(s, a), b), []) == Apply(Apply(s, a), b);
    assert Run(Apply(s, a), [b]) == Apply(Apply(s, a), b);
  }

  lemma FourSteps(s: State, a: Action, b: Action, c: Action, d: Action)
    ensures Run(s, [a, b, c, d]) == Apply(Apply(Apply(Apply(s, a), b), c), d)
  {
    assert [a, b, c, d][1..] == [b, c, d] && [b, c, d][1..] == [c, d];
    TwoSteps(Apply(Apply(s, a), b), c, d);
    assert Run(Apply(s, a), [b, c, d]) == Run(Apply(Apply(s, a), b), [c, d]);
  }

  /** A call to free that nobody disturbs takes the block off the map, the counter and the driver; so it undoes
      a malloc exactly. */
  lemma FreeAlone(s: State, i: nat, p: Ptr)
    requires i < |s.threads| && s.threads[i] == Idle && p in s.owned && p in s.sizes
    ensures Run(s, [Free(i, p), Go(i), Go(i), Go(i)])
            == s.(current := s.current - s.sizes[p], sizes := s.sizes - {p},
                  live := s.live - {p}, owned := s.owned - {p})
  {
    var size := s.sizes[p];
    var a := Apply(s, Free(i, p));
    var b := Apply(a, Go(i));
    Twice(s.threads, i, Freeing(p), Erased(p, size));
    var c := Apply(b, Go(i));
    Twice(s.threads, i, Erased(p, size), Untracked(p));
    Twice(s.threads, i, Untracked(p), Idle);
    assert s.threads[i := Idle] == s.threads;
    FourSteps(s, Free(i, p), Go(i), Go(i), Go(i));
  }

  // ---- Overshoot ----

  /** Passed the check but not in the counter. */
  function Promised(pc: Pc): int {
    match pc
    case Checked(size) => size
    case Allocated(_, size) => size
    case Inserted(_, size) => size
    case _ => 0
  }

  predicate Small(a: Action, M: nat) { a.Malloc? ==> a.size <= M }

  ghost predicate QuotaInv(s: State, M: nat) {
    && s.quota >= 0 && |s.threads| >= 1
    && (forall k :: 0 <= k < |s.threads| ==> Promised(s.threads[k]) <= M)
    && s.current + Total(s.threads, Promised) <= s.quota + (|s.threads| - 1) * M
  }

  lemma QuotaStep(s: State, a: Action, M: nat)
    requires QuotaInv(s, M) && Small(a, M)
    ensures QuotaInv(Apply(s, a), M) && Apply(s, a).quota == s.quota && |Apply(s, a).threads| == |s.threads|
  {
    if a.i < |s.threads| {
      var s' := Apply(s, a);
      var pc := s'.threads[a.i];
      assert s'.threads == s.threads[a.i := pc];
      TotalUpdate(s.threads, a.i, pc, Promised);
      TotalOthers(s'.threads, a.i, Promised, M);
    }
  }

  lemma {:induction false} QuotaRun(s: State, acts: seq<Action>, M: nat)
    requires QuotaInv(s, M) && (forall k :: 0 <= k < |acts| ==> Small(acts[k], M))
    ensures QuotaInv(Run(s, acts), M) && Run(s, acts).quota == s.quota && |Run(s, acts).threads| == |s.threads|
    decreases |acts|
  {
    if acts != [] {
      QuotaStep(s, acts[0], M);
      QuotaRun(Apply(s, acts[0]), acts[1..], M);
    }
  }

  /** Nothing allocated, nobody inside a call. */
  ghost predicate Init(s: State) {
    s.current == 0 && s.sizes == map[] && s.owned == {} && forall k :: 0 <= k < |s.threads| ==> s.threads[k] == Idle
  }

  /** With a fixed quota Q, sizes at most M and N threads, the counter plus everything that passed the check
      but is not counted yet never exceeds Q + (N - 1) * M. */
  lemma QuotaOvershoot(s: State, acts: seq<Action>, M: nat)
    requires Init(s) && s.quota >= 0 && |s.threads| >= 1 && (forall k :: 0 <= k < |acts| ==> Small(acts[k], M))
    ensures var e := Run(s, acts);
            e.current + Total(e.threads, Promised) <= s.quota + (|s.threads| - 1) * M
  {
    TotalBounds(s.threads, Promised, 0, 0);
    assert (|s.threads| - 1) * M >= 0;
    QuotaRun(s, acts, M);
  }

  // ---- The map and the counter ----

  /** The address a thread is working on. */
  function Holds(pc: Pc): set<Ptr> {
    match pc
    case Idle => {}
    case Checked(_) => {}
    case _ => {pc.p}
  }

  predicate ThreadOk(s: State, pc: Pc) {
    && Holds(pc) <= s.live && Holds(pc) !! s.owned
    && match pc
       case Allocated(p, _) => p !in s.sizes
       case Inserted(p, size) => p in s.sizes && s.sizes[p] == size
       case Freeing(p) => p in s.sizes
       case Erased(p, _) => p !in s.sizes
       case Untracked(p) => p !in s.sizes
       case _ => true
  }

  ghost predicate MapInv(s: State) {
    && s.sizes.Keys <= s.live && s.owned <= s.sizes.Keys
    && (forall i :: 0 <= i < |s.threads| ==> ThreadOk(s, s.threads[i]))
    && (forall i, j :: 0 <= i < j < |s.threads| ==> Holds(s.threads[i]) !! Holds(s.threads[j]))
  }

  lemma MapStep(s: State, a: Action)
    requires MapInv(s)
    ensures MapInv(Apply(s, a))
  {
    var s' := Apply(s, a);
    if a.i < |s.threads| {
      assert ThreadOk(s, s.threads[a.i]);
      assert s'.threads == s.threads[a.i := s'.threads[a.i]];
      forall i | 0 <= i < |s.threads| && i != a.i ensures Holds(s.threads[i]) !! Holds(s'.threads[a.i]) {
        assert ThreadOk(s, s.threads[i]);
        assert Holds(s.threads[i]) !! Holds(s.threads[a.i]);
      }
    }
  }

  ghost function MapTotal(m: map<Ptr, nat>): nat
    decreases |m|
  {
    if m == map[] then 0 else var p :| p in m; m[p] + MapTotal(m - {p})
  }

  lemma {:induction false} MapTotalRemove(m: map<Ptr, nat>, p: Ptr)
    requires p in m
    ensures MapTotal(m) == m[p] + MapTotal(m - {p})
    decreases |m|
  {
    var q :| q in m && MapTotal(m) == m[q] + MapTotal(m - {q});
    if q != p {
      MapTotalRemove(m - {q}, p);
      MapTotalRemove(m - {p}, q);
      assert m - {q} - {p} == m - {p} - {q};
    }
  }

  lemma MapTotalInsert(m: map<Ptr, nat>, p: Ptr, size: nat)
    requires p !in m
    ensures MapTotal(m[p := size]) == MapTotal(m) + size
  {
    MapTotalRemove(m[p := size], p);
    assert m[p := size] - {p} == m;
  }

  /** In the map but not the counter, or the other way round. */
  function Lag(pc: Pc): int {
    match pc
    case Inserted(_, size) => size
    case Erased(_, size) => -(size as int)
    case _ => 0
  }

  ghost predicate CounterInv(s: State) {
    s.current + Total(s.threads, Lag) == MapTotal(s.sizes)
  }

  lemma CounterStep(s: State, a: Action)
    requires MapInv(s) && CounterInv(s)
    ensures CounterInv(Apply(s, a))
  {
    if a.i < |s.threads| {
      var s' := Apply(s, a);
      var pc := s.threads[a.i];
      assert ThreadOk(s, pc);
      TotalUpdate(s.threads, a.i, s'.threads[a.i], Lag);
      if a.Go? && pc.Allocated? {
        MapTotalInsert(s.sizes, pc.p, pc.size);
      }
      if a.Go? && pc.Freeing? {
        MapTotalRemove(s.sizes, pc.p);
      }
    }
  }

  lemma {:induction false} CounterRun(s: State, acts: seq<Action>)
    requires MapInv(s) && CounterInv(s)
    ensures MapInv(Run(s, acts)) && CounterInv(Run(s, acts)) && |Run(s, acts).threads| == |s.threads|
    decreases |acts|
  {
    if acts != [] {
      MapStep(s, acts[0]);
      CounterStep(s, acts[0]);
      CounterRun(Apply(s, acts[0]), acts[1..]);
    }
  }

  /** Because untracking precedes the real free, an insertion never finds its key in the map; so the counter
      equals the map's total up to updates in progress. */
  lemma CounterFollowsMap(s: State, acts: seq<Action>, i: nat)
    requires Init(s) && i < |s.threads|
    ensures var e := Run(s, acts);
            && |e.threads| == |s.threads|
            && (e.threads[i].Allocated? ==> e.threads[i].p !in e.sizes)
            && e.current + Total(e.threads, Lag) == MapTotal(e.sizes)
  {
    TotalBounds(s.threads, Lag, 0, 0);
    CounterRun(s, acts);
    assert ThreadOk(Run(s, acts), Run(s, acts).threads[i]);
  }
}
