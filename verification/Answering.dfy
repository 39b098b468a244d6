/** When the proxy answers what has been submitted: how many turns of the scheduler loop it takes, and what
    a gate without a fallback needs for it. */
module Answering {
  import opened Wrappers
  import opened Sums
  import opened Framing
  import opened Replies
  import G = GateCore
  import Fairness = GateFairness

  // ---- What is still to be answered ----

  function QueueOf(table: map<nat, G.Tenant>): nat -> int {
    (id: nat) => if id in table then |table[id].queue| else 0
  }

  function Queued(s: G.Core): int { Total(s.order, QueueOf(s.table)) }

  function Backlog(x: Proxy): int { Queued(x.core) + |Flight(x)| }

  lemma QueuedIsLength(s: G.Core, id: nat)
    requires G.Valid(s) && id in s.table
    ensures Queued(s) >= |s.table[id].queue|
  {
    assert G.Listed(s, id);
    var k :| 0 <= k < |s.order| && s.order[k] == id;
    TotalAtLeastOne(s.order, k, QueueOf(s.table));
  }

  lemma QueuedNonNegative(s: G.Core)
    ensures Queued(s) >= 0
  {
    NonNegative(s.order, QueueOf(s.table));
  }

  ghost predicate SomeReady(s: G.Core) { exists id :: G.Ready(s, id) }

  lemma NoneReady(s: G.Core)
    requires !SomeReady(s)
    ensures Queued(s) == 0
  {
    forall k | 0 <= k < |s.order| ensures QueueOf(s.table)(s.order[k]) == 0 {
      assert !G.Ready(s, s.order[k]);
    }
    TotalBounds(s.order, QueueOf(s.table), 0, 0);
  }

  lemma Dequeue(s: G.Core, t: G.Core, m: nat, q: seq<nat>)
    requires G.Valid(s) && m in s.table && q == s.table[m].queue && q != [] && t.order == s.order
    requires t.table == s.table[m := s.table[m].(queue := q[1..])]
    ensures Queued(t) == Queued(s) - 1
  {
    assert G.Listed(s, m);
    Fairness.TotalChange(s.order, QueueOf(s.table), QueueOf(t.table), m);
  }

  // ---- One turn of the scheduler loop ----

  /** Whoever has work, the gate lets somebody run. */
  ghost predicate Serving(p: G.Policy, s: G.Core) {
    p.workConserving || forall id :: G.Ready(s, id) ==> G.Candidate(s, id)
  }

  lemma ServingPicks(p: G.Policy, s: G.Core)
    requires G.Valid(s) && Serving(p, s) && SomeReady(s) && s.running.None?
    ensures G.AfterPick(p, s).running.Some? && G.AfterPick(p, s).order == s.order
    ensures Queued(G.AfterPick(p, s)) == Queued(s) - 1
  {
    G.EligibleIsLeast(p, s);
    var id :| G.Ready(s, id);
    var m, q := PickCore(p, s);
    Dequeue(s, G.AfterPick(p, s), m, q);
  }

  lemma FinishQueues(p: G.Policy, s: G.Core, dt: real, at: real)
    ensures Queued(G.AfterFinish(p, s, dt, at)) == Queued(s)
  {
    TotalSame(s.order, QueueOf(s.table), QueueOf(G.AfterFinish(p, s, dt, at).table));
  }

  /** Picking leaves every connection alone, and if nothing is in flight takes one request. */
  lemma PickTurn(p: G.Policy, run: Runner, x: Proxy)
    requires Bounded(run) && Sound(x) && Serving(p, x.core)
    ensures var y := Apply(p, run, x, Pick);
            && y.conns == x.conns && Backlog(y) == Backlog(x)
            && (y.toSend.None? && y.core.running.None? ==> Backlog(y) == 0)
  {
    if x.toSend.None? && x.core.running.None? {
      if SomeReady(x.core) {
        ServingPicks(p, x.core);
      } else {
        NoneReady(x.core);
        G.EligibleIsLeast(p, x.core);
        assert G.AfterPick(p, x.core) == x.core;
      }
    }
  }

  lemma FinishTurn(p: G.Policy, run: Runner, x: Proxy, dt: real, at: real)
    requires Bounded(run) && Sound(x) && (x.toSend.None? && x.core.running.None? ==> Backlog(x) == 0)
    ensures var y := Apply(p, run, x, Finish(dt, at));
            && y.conns == x.conns && Backlog(y) == Backlog(x) && y.core.running.None?
            && (y.toSend.None? ==> Backlog(y) == 0)
  {
    if x.core.running.Some? {
      FinishQueues(p, x.core, dt, at);
    }
  }

  lemma ReplyTurn(run: Runner, x: Proxy)
    requires Bounded(run) && Sound(x) && x.core.running.None? && (x.toSend.None? ==> Backlog(x) == 0)
    ensures var y := AfterReply(run, x);
            && Backlog(y) == (if Backlog(x) == 0 then 0 else Backlog(x) - 1)
            && |y.conns| == |x.conns| && forall c :: 0 <= c < |x.conns| ==> y.conns[c].submitted == x.conns[c].submitted
  {
    if x.toSend.Some? {
      assert Flight(x) == [x.toSend.value] && Flight(x)[0] == x.toSend.value;
      assert Flight(AfterReply(run, x)) == [];
      QueuedNonNegative(x.core);
    }
  }

  function Turn(t: (real, real)): seq<Action> { [Pick, Finish(t.0, t.1), Reply] }

  ghost predicate SameSubmissions(x: Proxy, y: Proxy) {
    |y.conns| == |x.conns| && forall c :: 0 <= c < |x.conns| ==> y.conns[c].submitted == x.conns[c].submitted
  }

  lemma RunTurn(p: G.Policy, run: Runner, x: Proxy, t: (real, real))
    requires Bounded(run) && AllServed(run, x)
    ensures var a := Apply(p, run, x, Pick);
            && G.Valid(a.core)
            && var b := Apply(p, run, a, Finish(t.0, t.1));
            Run(p, run, x, Turn(t)) == AfterReply(run, b)
  {
    var acts := Turn(t);
    AllServedStep(p, run, x, Pick);
    var a := Apply(p, run, x, Pick);
    AllServedStep(p, run, a, Finish(t.0, t.1));
    var b := Apply(p, run, a, Finish(t.0, t.1));
    AllServedStep(p, run, b, Reply);
    assert acts[1..] == [Finish(t.0, t.1), Reply] && acts[1..][1..] == [Reply] && [Reply][1..] == [];
    var c := AfterReply(run, b);
    assert Run(p, run, c, []) == c;
    assert Run(p, run, b, [Reply]) == c;
    assert Run(p, run, a, acts[1..]) == c;
  }

  /** Each turn answers one request, if there is any. */
  lemma TurnAnswers(p: G.Policy, run: Runner, x: Proxy, t: (real, real))
    requires Bounded(run) && AllServed(run, x) && Serving(p, x.core)
    ensures var y := Run(p, run, x, Turn(t));
            Backlog(y) == (if Backlog(x) == 0 then 0 else Backlog(x) - 1) && SameSubmissions(x, y)
  {
    RunTurn(p, run, x, t);
    var a := Apply(p, run, x, Pick);
    PickTurn(p, run, x);
    StepSound(p, run, x, Pick);
    FinishTurn(p, run, a, t.0, t.1);
    StepSound(p, run, a, Finish(t.0, t.1));
    ReplyTurn(run, Apply(p, run, a, Finish(t.0, t.1)));
  }

  // ---- Runs of the scheduler loop ----

  function Turns(times: seq<(real, real)>): seq<Action> {
    if times == [] then [] else Turn(times[0]) + Turns(times[1..])
  }

  lemma {:induction false} RunAppend(p: G.Policy, run: Runner, x: Proxy, xs: seq<Action>, ys: seq<Action>)
    requires Bounded(run) && AllServed(run, x)
    ensures Run(p, run, x, xs + ys) == Run(p, run, Run(p, run, x, xs), ys)
    decreases |xs|
  {
    if xs == [] {
      assert xs + ys == ys;
    } else {
      assert (xs + ys)[1..] == xs[1..] + ys;
      AllServedStep(p, run, x, xs[0]);
      RunAppend(p, run, Apply(p, run, x, xs[0]), xs[1..], ys);
    }
  }

  lemma {:induction false} TurnsAnswer(p: G.Policy, run: Runner, x: Proxy, times: seq<(real, real)>)
    requires Bounded(run) && AllServed(run, x) && p.workConserving && |times| >= Backlog(x)
    ensures var y := Run(p, run, x, Turns(times)); Backlog(y) == 0 && SameSubmissions(x, y)
    decreases |times|
  {
    QueuedNonNegative(x.core);
    if times != [] {
      var u := Run(p, run, x, Turn(times[0]));
      TurnAnswers(p, run, x, times[0]);
      RunAppend(p, run, x, Turn(times[0]), Turns(times[1..]));
      TurnsAnswer(p, run, u, times[1..]);
    }
  }

  /** With nothing left, every connection has all its answers. */
  lemma AllAnswered(run: Runner, x: Proxy, c: nat)
    requires Bounded(run) && AllServed(run, x) && Backlog(x) == 0 && c < |x.conns|
    ensures |Responses(x.conns[c].out)| == x.conns[c].submitted
  {
    assert Attended(run, x, c);
    var id :| Serves(run, x, c, id);
    QueuedIsLength(x.core, id);
    QueuedNonNegative(x.core);
    assert Flight(x) == [] && x.core.table[id].queue == [];
    DoneIsPrefix(x, c, id);
    DecodeAnswers(run, x.conns[c].out, Of(x.reqs, x.sent, c));
  }

  /** With the fallback, from every reachable state, as many turns of the scheduler loop as there are requests
      queued and in flight answer every request of every connection, however long each takes. */
  lemma EverythingAnswered(p: G.Policy, run: Runner, acts: seq<Action>, times: seq<(real, real)>, c: nat)
    requires Bounded(run) && p.workConserving
    requires |times| >= Backlog(Reached(p, run, acts)) && c < |Reached(p, run, acts).conns|
    ensures var x := Reached(p, run, acts);
            var y := Run(p, run, x, Turns(times));
            |y.conns| == |x.conns| && |Responses(y.conns[c].out)| == y.conns[c].submitted == x.conns[c].submitted
  {
    var x := Reached(p, run, acts);
    TurnsAnswer(p, run, x, times);
    AllAnswered(run, Run(p, run, x, Turns(times)), c);
  }

  // ---- The whole service ----

  /** The connection still has these requests to submit or submitted. */
  predicate Carries(x: Proxy, c: nat, bodies: seq<seq<Byte>>) {
    c < |x.conns| && x.conns[c].bodies == bodies
  }

  lemma StepCarries(p: G.Policy, run: Runner, x: Proxy, a: Action, c: nat, bodies: seq<seq<Byte>>)
    requires Bounded(run) && G.Valid(x.core) && Carries(x, c, bodies)
    ensures Carries(Apply(p, run, x, a), c, bodies)
  {
  }

  lemma {:induction false} RunCarries(p: G.Policy, run: Runner, x: Proxy, acts: seq<Action>, c: nat,
                                      bodies: seq<seq<Byte>>)
    requires Bounded(run) && AllServed(run, x) && Carries(x, c, bodies)
    ensures Carries(Run(p, run, x, acts), c, bodies)
    decreases |acts|
  {
    if acts != [] {
      AllServedStep(p, run, x, acts[0]);
      StepCarries(p, run, x, acts[0], c, bodies);
      RunCarries(p, run, Apply(p, run, x, acts[0]), acts[1..], c, bodies);
    }
  }

  /** The reader of connection c submits n requests. */
  function Reads(c: nat, n: nat): seq<Action> { seq(n, _ => Receive(c)) }

  lemma {:induction false} ReadsSubmit(p: G.Policy, run: Runner, x: Proxy, c: nat, n: nat)
    requires Bounded(run) && AllServed(run, x) && c < |x.conns|
    requires x.conns[c].submitted + n == |x.conns[c].bodies|
    ensures var y := Run(p, run, x, Reads(c, n));
            c < |y.conns| && y.conns[c].submitted == |x.conns[c].bodies|
    decreases n
  {
    if n > 0 {
      assert Reads(c, n)[1..] == Reads(c, n - 1);
      AllServedStep(p, run, x, Receive(c));
      ReadsSubmit(p, run, Apply(p, run, x, Receive(c)), c, n - 1);
    }
  }

  lemma OutputsOfAll(run: Runner, x: Proxy, c: nat, bodies: seq<seq<Byte>>)
    requires Bounded(run) && AllServed(run, x) && Backlog(x) == 0
    requires Carries(x, c, bodies) && x.conns[c].submitted == |bodies|
    ensures Responses(x.conns[c].out) == Outputs(run, bodies)
  {
    AllAnswered(run, x, c);
    assert Attended(run, x, c);
    var id :| Serves(run, x, c, id);
    DoneIsPrefix(x, c, id);
    DecodeAnswers(run, x.conns[c].out, Of(x.reqs, x.sent, c));
    assert Of(x.reqs, x.sent, c) == bodies;
  }

  /** The whole service, with the fallback: a client that connects at any time, whatever the name of its tenant,
      and whose requests are all read, gets the outputs of exactly these requests, in order, after as many turns
      of the scheduler loop as there are requests in the proxy by then. */
  lemma ServiceComplete(p: G.Policy, run: Runner, x: Proxy, name: string, bodies: seq<seq<Byte>>,
                        times: seq<(real, real)>)
    requires Bounded(run) && AllServed(run, x) && p.workConserving
    requires |times| >= Backlog(Run(p, run, x, [Accept(name, bodies)] + Reads(|x.conns|, |bodies|)))
    ensures var c, y := |x.conns|, Run(p, run, x, [Accept(name, bodies)] + Reads(|x.conns|, |bodies|));
            var z := Run(p, run, y, Turns(times));
            c < |z.conns| && Responses(z.conns[c].out) == Outputs(run, bodies)
  {
    var c, acts := |x.conns|, [Accept(name, bodies)] + Reads(|x.conns|, |bodies|);
    var a := Apply(p, run, x, acts[0]);
    AllServedStep(p, run, x, acts[0]);
    assert acts[1..] == Reads(c, |bodies|);
    ReadsSubmit(p, run, a, c, |bodies|);
    RunCarries(p, run, a, acts[1..], c, bodies);
    var y := Run(p, run, x, acts);
    TurnsAnswer(p, run, y, times);
    RunCarries(p, run, y, Turns(times), c, bodies);
    OutputsOfAll(run, Run(p, run, y, Turns(times)), c, bodies);
  }

  // ---- What the strict gate needs ----

  /** The scheduler loop alone: no new requests, no commands, and runs of non-negative length. */
  predicate Scheduling(a: Action) {
    a.Pick? || a.Reply? || (a.Finish? && a.dt >= 0.0)
  }

  /** The scheduler loop alone can answer everything. */
  ghost predicate Drains(p: G.Policy, run: Runner, x: Proxy)
    requires Bounded(run) && AllServed(run, x)
  {
    exists acts: seq<Action> ::
      (forall k :: 0 <= k < |acts| ==> Scheduling(acts[k])) && Backlog(Run(p, run, x, acts)) == 0
  }

  /** Tenant id has work and is not entitled, and there is no fallback. */
  ghost predicate Stuck(p: G.Policy, s: G.Core, id: nat) {
    !p.workConserving && G.Ready(s, id) && !G.Candidate(s, id)
  }

  lemma StuckPick(p: G.Policy, s: G.Core, id: nat)
    requires G.Valid(s) && Stuck(p, s, id)
    ensures Stuck(p, G.AfterPick(p, s), id)
  {
    G.EligibleIsLeast(p, s);
  }

  lemma StuckFinish(p: G.Policy, s: G.Core, id: nat, dt: real, at: real)
    requires Stuck(p, s, id) && dt >= 0.0
    ensures Stuck(p, G.AfterFinish(p, s, dt, at), id)
  {
  }

  lemma StuckStep(p: G.Policy, run: Runner, x: Proxy, a: Action, id: nat)
    requires Bounded(run) && Sound(x) && Stuck(p, x.core, id) && Scheduling(a)
    ensures Stuck(p, Apply(p, run, x, a).core, id)
  {
    if a.Pick? {
      StuckPick(p, x.core, id);
    } else if a.Finish? {
      StuckFinish(p, x.core, id, a.dt, a.at);
    }
  }

  lemma {:induction false} StuckRun(p: G.Policy, run: Runner, x: Proxy, acts: seq<Action>, id: nat)
    requires Bounded(run) && AllServed(run, x) && Stuck(p, x.core, id)
    requires forall k :: 0 <= k < |acts| ==> Scheduling(acts[k])
    ensures Stuck(p, Run(p, run, x, acts).core, id)
    decreases |acts|
  {
    if acts != [] {
      AllServedStep(p, run, x, acts[0]);
      StuckStep(p, run, x, acts[0], id);
      StuckRun(p, run, Apply(p, run, x, acts[0]), acts[1..], id);
    }
  }

  lemma StuckBacklog(p: G.Policy, x: Proxy, id: nat)
    requires G.Valid(x.core) && Stuck(p, x.core, id)
    ensures Backlog(x) > 0
  {
    QueuedIsLength(x.core, id);
  }

  /** Runs that take no time leave everybody entitled. */
  lemma ServingPick(p: G.Policy, s: G.Core)
    requires G.Valid(s) && Serving(p, s)
    ensures Serving(p, G.AfterPick(p, s))
  {
    if !p.workConserving && G.AfterPick(p, s) != s {
      var m, q := PickCore(p, s);
      forall id | G.Ready(G.AfterPick(p, s), id) ensures G.Candidate(G.AfterPick(p, s), id) {
        assert G.Ready(s, id);
      }
    }
  }

  lemma ServingFinish(p: G.Policy, s: G.Core, at: real)
    requires Serving(p, s)
    ensures Serving(p, G.AfterFinish(p, s, 0.0, at))
  {
    if !p.workConserving {
      forall id | G.Ready(G.AfterFinish(p, s, 0.0, at), id) ensures G.Candidate(G.AfterFinish(p, s, 0.0, at), id) {
        assert G.Ready(s, id);
      }
    }
  }

  lemma ServingTurn(p: G.Policy, run: Runner, x: Proxy)
    requires Bounded(run) && AllServed(run, x) && Serving(p, x.core)
    ensures Serving(p, Run(p, run, x, Turn((0.0, 0.0))).core)
  {
    RunTurn(p, run, x, (0.0, 0.0));
    ServingPick(p, x.core);
    var a := Apply(p, run, x, Pick);
    ServingFinish(p, a.core, 0.0);
  }

  lemma {:induction false} ServingDrains(p: G.Policy, run: Runner, x: Proxy) returns (acts: seq<Action>)
    requires Bounded(run) && AllServed(run, x) && Serving(p, x.core)
    ensures (forall k :: 0 <= k < |acts| ==> Scheduling(acts[k])) && Backlog(Run(p, run, x, acts)) == 0
    decreases Backlog(x)
  {
    QueuedNonNegative(x.core);
    if Backlog(x) == 0 {
      acts := [];
    } else {
      var t := (0.0, 0.0);
      TurnAnswers(p, run, x, t);
      ServingTurn(p, run, x);
      var rest := ServingDrains(p, run, Run(p, run, x, Turn(t)));
      RunAppend(p, run, x, Turn(t), rest);
      acts := Turn(t) + rest;
    }
  }

  /** From any state of the proxy, the scheduler loop alone can answer everything if and only if there is a
      fallback or every tenant with work is entitled. */
  lemma DrainsIff(p: G.Policy, run: Runner, x: Proxy)
    requires Bounded(run) && AllServed(run, x)
    ensures Drains(p, run, x) <==> Serving(p, x.core)
  {
    if Serving(p, x.core) {
      var acts := ServingDrains(p, run, x);
    } else {
      var id :| G.Ready(x.core, id) && !G.Candidate(x.core, id);
      forall acts: seq<Action> | forall k :: 0 <= k < |acts| ==> Scheduling(acts[k])
        ensures Backlog(Run(p, run, x, acts)) != 0
      {
        StuckRun(p, run, x, acts, id);
        StuckBacklog(p, Run(p, run, x, acts), id);
      }
    }
  }
}
