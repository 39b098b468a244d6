/** How far the memory counter of libbless can really go beyond its quota, and when it cannot. */
module QuotaExact {
  import opened Sums
  import opened MemQuota

  // ---- The counter is never negative ----

  /** What is in the map and not counted yet is part of the map's total. */
  lemma {:induction false} LagInMap(ts: seq<Pc>, m: map<Ptr, nat>)
    requires forall i :: 0 <= i < |ts| && ts[i].Inserted? ==> ts[i].p in m && m[ts[i].p] == ts[i].size
    requires forall i, j :: 0 <= i < j < |ts| ==> Holds(ts[i]) !! Holds(ts[j])
    ensures Total(ts, Lag) <= MapTotal(m)
    decreases |ts|
  {
    if ts != [] {
      if ts[0].Inserted? {
        var rest := m - {ts[0].p};
        forall i | 0 <= i < |ts[1..]| && ts[1..][i].Inserted?
          ensures ts[1..][i].p in rest && rest[ts[1..][i].p] == ts[1..][i].size
        {
          assert Holds(ts[0]) !! Holds(ts[i + 1]) && ts[0].p in Holds(ts[0]) && ts[i + 1].p in Holds(ts[i + 1]);
        }
        MapTotalRemove(m, ts[0].p);
        LagInMap(ts[1..], rest);
      } else {
        LagInMap(ts[1..], m);
      }
    }
  }

  lemma CounterNonNegative(s: State)
    requires MapInv(s) && CounterInv(s)
    ensures s.current >= 0
  {
    forall i | 0 <= i < |s.threads| && s.threads[i].Inserted?
      ensures s.threads[i].p in s.sizes && s.sizes[s.threads[i].p] == s.threads[i].size
    {
      assert ThreadOk(s, s.threads[i]);
    }
    LagInMap(s.threads, s.sizes);
  }

  // ---- The bound with the sizes that can pass ----

  function Min(a: nat, b: nat): nat { if a <= b then a else b }

  ghost predicate ExactInv(s: State, m: nat) {
    MapInv(s) && CounterInv(s) && QuotaInv(s, m)
  }

  lemma ExactStep(s: State, a: Action, M: nat)
    requires s.quota >= 0 && ExactInv(s, Min(M, s.quota)) && Small(a, M)
    ensures Apply(s, a).quota == s.quota && ExactInv(Apply(s, a), Min(M, s.quota))
    ensures |Apply(s, a).threads| == |s.threads|
  {
    CounterNonNegative(s);
    if a.Malloc? && a.size > Min(M, s.quota) {
      assert Apply(s, a) == s;
    } else {
      MapStep(s, a);
      CounterStep(s, a);
      QuotaStep(s, a, Min(M, s.quota));
    }
  }

  ghost predicate AllSmall(acts: seq<Action>, M: nat) {
    forall k :: 0 <= k < |acts| ==> Small(acts[k], M)
  }

  lemma {:induction false} ExactRun(s: State, acts: seq<Action>, M: nat)
    requires s.quota >= 0 && ExactInv(s, Min(M, s.quota)) && AllSmall(acts, M)
    ensures var e := Run(s, acts); e.quota == s.quota && ExactInv(e, Min(M, s.quota)) && |e.threads| == |s.threads|
    decreases |acts|
  {
    if acts != [] {
      ExactStep(s, acts[0], M);
      ExactRun(Apply(s, acts[0]), acts[1..], M);
    }
  }

  lemma NothingPromised(s: State)
    requires forall k :: 0 <= k < |s.threads| ==> s.threads[k] == Idle
    ensures Total(s.threads, Promised) == 0 && Total(s.threads, Lag) == 0
  {
    TotalBounds(s.threads, Promised, 0, 0);
    TotalBounds(s.threads, Lag, 0, 0);
  }

  /** A size beyond the quota never passes, so the counter plus what passed the check stays within
      Q + (N - 1) * min(M, Q). */
  lemma ExactOvershoot(s: State, acts: seq<Action>, M: nat)
    requires Init(s) && s.quota >= 0 && |s.threads| >= 1 && AllSmall(acts, M)
    ensures var e := Run(s, acts);
            && |e.threads| == |s.threads|
            && 0 <= e.current <= e.current + Total(e.threads, Promised) <= s.quota + (|s.threads| - 1) * Min(M, s.quota)
  {
    NothingPromised(s);
    assert (|s.threads| - 1) * Min(M, s.quota) >= 0;
    ExactRun(s, acts, M);
    CounterNonNegative(Run(s, acts));
    NonNegative(Run(s, acts).threads, Promised);
  }

  // ---- The bound is reached ----

  ghost predicate Reach(s: State, t: State, M: nat) {
    exists acts: seq<Action> :: AllSmall(acts, M) && Run(s, acts) == t
  }

  lemma {:induction false} RunAppend(s: State, xs: seq<Action>, ys: seq<Action>)
    ensures Run(s, xs + ys) == Run(Run(s, xs), ys)
    decreases |xs|
  {
    if xs == [] {
      assert xs + ys == ys;
    } else {
      assert (xs + ys)[1..] == xs[1..] + ys;
      RunAppend(Apply(s, xs[0]), xs[1..], ys);
    }
  }

  lemma ReachSelf(s: State, M: nat)
    ensures Reach(s, s, M)
  {
    assert AllSmall([], M) && Run(s, []) == s;
  }

  lemma Step(s: State, t: State, a: Action, M: nat) returns (u: State)
    requires Reach(s, t, M) && Small(a, M)
    ensures Reach(s, u, M) && u == Apply(t, a)
  {
    var xs: seq<Action> :| AllSmall(xs, M) && Run(s, xs) == t;
    u := Apply(t, a);
    RunAppend(s, xs, [a]);
    assert [a][1..] == [] && Run(u, []) == u && Run(t, [a]) == u;
    assert AllSmall(xs + [a], M);
  }

  /** All addresses from next on are free. */
  predicate Below(live: set<Ptr>, next: Ptr) {
    forall p :: p in live ==> p < next
  }

  /** A thread whose request has passed gets its memory and counts it. */
  lemma Settle(s: State, t: State, i: nat, next: Ptr, M: nat) returns (u: State)
    requires Reach(s, t, M) && i < |t.threads| && t.threads[i].Checked? && Below(t.live, next)
    ensures Reach(s, u, M) && Below(u.live, next + 1) && u.quota == t.quota
    ensures u.threads == t.threads[i := Idle] && u.current == t.current + t.threads[i].size
  {
    var a := Step(s, t, Driver(i, next, true), M);
    var b := Step(s, a, Go(i), M);
    u := Step(s, b, Go(i), M);
    assert u.threads == t.threads[i := Idle];
  }

  /** The first thread raises the counter to the target, in pieces of at most M. */
  lemma {:induction false} Raise(s: State, t: State, target: nat, next: Ptr, M: nat) returns (u: State, last: Ptr)
    requires Reach(s, t, M) && M >= 1 && |t.threads| >= 1 && t.threads[0] == Idle && Below(t.live, next)
    requires 0 <= t.current <= target <= t.quota
    ensures Reach(s, u, M) && Below(u.live, last) && u.quota == t.quota
    ensures u.threads == t.threads && u.current == target
    decreases target - t.current
  {
    if t.current == target {
      u, last := t, next;
    } else {
      var size := Min(M, target - t.current);
      var a := Step(s, t, Malloc(0, size), M);
      assert a.threads == t.threads[0 := Checked(size)];
      var b := Settle(s, a, 0, next, M);
      assert b.threads == t.threads;
      u, last := Raise(s, b, target, next + 1, M);
    }
  }

  /** The threads from k on check before any of them counts. */
  lemma {:induction false} CheckAll(s: State, t: State, k: nat, size: nat, M: nat) returns (u: State)
    requires Reach(s, t, M) && k <= |t.threads| && size <= M && t.current + size <= t.quota
    requires forall j :: 0 <= j < |t.threads| ==> t.threads[j] == if j < k then Checked(size) else Idle
    ensures Reach(s, u, M) && u.live == t.live && u.quota == t.quota && u.current == t.current
    ensures |u.threads| == |t.threads| && forall j :: 0 <= j < |u.threads| ==> u.threads[j] == Checked(size)
    decreases |t.threads| - k
  {
    if k == |t.threads| {
      u := t;
    } else {
      var a := Step(s, t, Malloc(k, size), M);
      u := CheckAll(s, a, k + 1, size, M);
    }
  }

  /** And then they count, one after another. */
  lemma {:induction false} SettleAll(s: State, t: State, k: nat, size: nat, next: Ptr, M: nat) returns (u: State)
    requires Reach(s, t, M) && k <= |t.threads| && Below(t.live, next)
    requires forall j :: k <= j < |t.threads| ==> t.threads[j] == Checked(size)
    ensures Reach(s, u, M) && |u.threads| == |t.threads| && u.current == t.current + (|t.threads| - k) * size
    decreases |t.threads| - k
  {
    if k == |t.threads| {
      u := t;
    } else {
      var a := Settle(s, t, k, next, M);
      u := SettleAll(s, a, k + 1, size, next + 1, M);
      assert (|t.threads| - k) * size == size + (|t.threads| - (k + 1)) * size;
    }
  }

  function Start(n: nat, Q: nat): State {
    State(Q, 0, map[], {}, {}, seq(n, k requires 0 <= k < n => Idle))
  }

  /** For every N >= 1, M >= 1 and quota Q the counter itself gets to Q + (N - 1) * min(M, Q): N threads
      check at Q - min(M, Q) before any of them counts. */
  lemma OvershootReached(n: nat, Q: nat, M: nat)
    requires n >= 1 && M >= 1
    ensures Init(Start(n, Q)) && |Start(n, Q).threads| == n && Start(n, Q).quota == Q
    ensures exists e :: Reach(Start(n, Q), e, M) && e.current == Q + (n - 1) * Min(M, Q)
  {
    var s, m := Start(n, Q), Min(M, Q);
    ReachSelf(s, M);
    var t, next := Raise(s, s, Q - m, 0, M);
    var u := CheckAll(s, t, 0, m, M);
    var e := SettleAll(s, u, 0, m, next, M);
    assert n * m == m + (n - 1) * m;
  }

  // ---- Exactly when the quota is kept ----

  /** Over all runs of n threads with quota Q and sizes of at most M, the counter stays within the quota. */
  ghost predicate QuotaHolds(n: nat, Q: nat, M: nat) {
    forall s: State, acts: seq<Action> ::
      Init(s) && |s.threads| == n && s.quota == Q && AllSmall(acts, M) ==> Run(s, acts).current <= Q
  }

  lemma {:induction false} NobodyRuns(s: State, acts: seq<Action>)
    requires s.threads == []
    ensures Run(s, acts) == s
    decreases |acts|
  {
    if acts != [] {
      NobodyRuns(Apply(s, acts[0]), acts[1..]);
    }
  }

  lemma Holds1(s: State, acts: seq<Action>, M: nat)
    requires Init(s) && s.quota >= 0 && AllSmall(acts, M) && (|s.threads| <= 1 || M == 0 || s.quota == 0)
    ensures Run(s, acts).current <= s.quota
  {
    if |s.threads| == 0 {
      NobodyRuns(s, acts);
    } else {
      ExactOvershoot(s, acts, M);
      assert |s.threads| == 1 || Min(M, s.quota) == 0;
      assert (|s.threads| - 1) * Min(M, s.quota) == 0;
    }
  }

  /** The counter stays within the quota over all runs if and only if there is at most one thread, or nothing
      but empty requests can pass. */
  lemma QuotaHoldsIff(n: nat, Q: nat, M: nat)
    ensures QuotaHolds(n, Q, M) <==> n <= 1 || M == 0 || Q == 0
  {
    if n <= 1 || M == 0 || Q == 0 {
      forall s: State, acts: seq<Action> | Init(s) && |s.threads| == n && s.quota == Q && AllSmall(acts, M)
        ensures Run(s, acts).current <= Q
      {
        Holds1(s, acts, M);
      }
    } else {
      OvershootReached(n, Q, M);
      var e :| Reach(Start(n, Q), e, M) && e.current == Q + (n - 1) * Min(M, Q);
      var acts: seq<Action> :| AllSmall(acts, M) && Run(Start(n, Q), acts) == e;
      assert (n - 1) * Min(M, Q) >= Min(M, Q) by { TimesAtLeast(n - 1, Min(M, Q)); }
      assert Run(Start(n, Q), acts).current > Q;
    }
  }

  lemma TimesAtLeast(k: nat, m: nat)
    requires k >= 1
    ensures k * m >= m
  {
  }
}
