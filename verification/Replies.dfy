/** Reply order of the NPU proxy, end to end: client frames, per-connection readers, the gate's own
    selection with control commands interleaved anywhere, and the scheduler loop that writes each
    output back. Tenants are never unregistered, clients stay connected and the runner does not fail. */
module Replies {
  import opened Wrappers
  import opened Framing
  import G = GateCore

  /** A submitted request: the connection to answer on and the input. The gate sees its number. */
  datatype Req = Req(conn: nat, body: seq<Byte>)

  /** `bodies` is what the connection's reader takes out of the client's stream, of which `submitted` have
      reached the gate; `out` is what has been written back. */
  datatype Conn = Conn(name: string, bodies: seq<seq<Byte>>, submitted: nat, out: seq<Byte>)

  /** `toSend` is the request that step has returned and the scheduler loop has not answered yet;
      `sent` records the numbers of the answered requests and is read by nothing. */
  datatype Proxy = Proxy(core: G.Core, reqs: seq<Req>, conns: seq<Conn>, toSend: Option<nat>, sent: seq<nat>)

  datatype Action =
    | Accept(name: string, bodies: seq<seq<Byte>>)
    | Receive(c: nat)
    | Register(name: string)
    | Command(name: string, command: G.Command)
    | Pick
    | Finish(dt: real, at: real)
    | Reply

  const EMPTY := Proxy(G.Core([], map[], 0, None), [], [], None, [])

  type Runner = seq<Byte> -> seq<Byte>

  ghost predicate Bounded(run: Runner) {
    forall b: seq<Byte> :: |run(b)| < 0x1_0000_0000
  }

  /** The reader of connection c submits its next body. */
  function AfterReceive(x: Proxy, c: nat): Proxy
    requires G.Valid(x.core)
  {
    if c < |x.conns| && x.conns[c].submitted < |x.conns[c].bodies| then
      var k := x.conns[c];
      x.(core := G.AfterSubmit(x.core, k.name, |x.reqs|),
         reqs := x.reqs + [Req(c, k.bodies[k.submitted])],
         conns := x.conns[c := k.(submitted := k.submitted + 1)])
    else x
  }

  /** The scheduler loop writes the output of the request that step has returned. */
  ghost function AfterReply(run: Runner, x: Proxy): Proxy
    requires Bounded(run)
  {
    if x.toSend.None? then x else
    var n := x.toSend.value;
    if n < |x.reqs| && x.reqs[n].conn < |x.conns| then
      var k := x.conns[x.reqs[n].conn];
      x.(toSend := None, sent := x.sent + [n],
         conns := x.conns[x.reqs[n].conn := k.(out := k.out + Frame(run(x.reqs[n].body)))])
    else x
  }

  ghost function Apply(p: G.Policy, run: Runner, x: Proxy, a: Action): Proxy
    requires G.Valid(x.core) && Bounded(run)
  {
    match a
    case Accept(name, bodies) =>
      x.(core := G.AfterRegister(x.core, name), conns := x.conns + [Conn(name, bodies, 0, [])])
    case Receive(c) => AfterReceive(x, c)
    case Register(name) => x.(core := G.AfterRegister(x.core, name))
    case Command(name, command) => x.(core := G.AfterCommand(p, x.core, name, command))
    case Pick => if x.toSend.Some? then x else x.(core := G.AfterPick(p, x.core))
    case Finish(dt, at) =>
      if x.core.running.None? then x
      else x.(core := G.AfterFinish(p, x.core, dt, at), toSend := Some(x.core.running.value.req))
    case Reply => AfterReply(run, x)
  }

  // ---- Requests of one connection ----

  function One(reqs: seq<Req>, n: nat, c: nat): seq<seq<Byte>> {
    if n < |reqs| && reqs[n].conn == c then [reqs[n].body] else []
  }

  /** The bodies of the numbered requests that belong to connection c, in order. */
  function Of(reqs: seq<Req>, ids: seq<nat>, c: nat): seq<seq<Byte>> {
    if ids == [] then [] else One(reqs, ids[0], c) + Of(reqs, ids[1..], c)
  }

  predicate Known(reqs: seq<Req>, ids: seq<nat>) {
    forall i :: 0 <= i < |ids| ==> ids[i] < |reqs|
  }

  lemma {:induction false} OfAppend(reqs: seq<Req>, a: seq<nat>, n: nat, c: nat)
    ensures Of(reqs, a + [n], c) == Of(reqs, a, c) + One(reqs, n, c)
    decreases |a|
  {
    if a == [] {
      assert a + [n] == [n] && [n][1..] == [];
    } else {
      assert (a + [n])[1..] == a[1..] + [n];
      OfAppend(reqs, a[1..], n, c);
    }
  }

  lemma {:induction false} OfGrown(reqs: seq<Req>, more: Req, ids: seq<nat>, c: nat)
    requires Known(reqs, ids)
    ensures Of(reqs + [more], ids, c) == Of(reqs, ids, c) && Known(reqs + [more], ids)
    decreases |ids|
  {
    if ids != [] {
      OfGrown(reqs, more, ids[1..], c);
    }
  }

  lemma {:induction false} OfNobody(reqs: seq<Req>, ids: seq<nat>, c: nat)
    requires forall i :: 0 <= i < |reqs| ==> reqs[i].conn != c
    ensures Of(reqs, ids, c) == []
    decreases |ids|
  {
    if ids != [] {
      OfNobody(reqs, ids[1..], c);
    }
  }

  function Outputs(run: Runner, bodies: seq<seq<Byte>>): (outs: seq<seq<Byte>>)
    ensures |outs| == |bodies| && forall k :: 0 <= k < |bodies| ==> outs[k] == run(bodies[k])
  {
    seq(|bodies|, k requires 0 <= k < |bodies| => run(bodies[k]))
  }

  // ---- Invariant ----

  /** The request between the gate and the client: running, or run and not answered yet. */
  function Flight(x: Proxy): seq<nat> {
    (if x.toSend.Some? then [x.toSend.value] else [])
    + (if x.core.running.Some? then [x.core.running.value.req] else [])
  }

  ghost predicate Sound(x: Proxy) {
    && G.Valid(x.core)
    && (forall id {:trigger Known(x.reqs, x.core.table[id].queue)} ::
          id in x.core.table ==> Known(x.reqs, x.core.table[id].queue))
    && Known(x.reqs, Flight(x)) && Known(x.reqs, x.sent)
    && (forall i :: 0 <= i < |x.reqs| ==> x.reqs[i].conn < |x.conns|)
    && (x.toSend.Some? ==> x.core.running.None?)
  }

  ghost predicate OnlyIn(x: Proxy, c: nat, id: nat) {
    forall j :: j in x.core.table && j != id ==> Of(x.reqs, x.core.table[j].queue, c) == []
  }

  /** Everything connection c has submitted, cut into answered, in flight and still queued. */
  ghost predicate Cut(x: Proxy, c: nat, id: nat)
    requires c < |x.conns| && id in x.core.table
  {
    && x.conns[c].submitted <= |x.conns[c].bodies|
    && Of(x.reqs, x.sent, c) + Of(x.reqs, Flight(x), c) + Of(x.reqs, x.core.table[id].queue, c)
       == x.conns[c].bodies[..x.conns[c].submitted]
  }

  ghost predicate Answered(run: Runner, out: seq<Byte>, bodies: seq<seq<Byte>>)
    requires Bounded(run)
  {
    out == Encode(Outputs(run, bodies))
  }

  ghost predicate Serves(run: Runner, x: Proxy, c: nat, id: nat)
    requires Bounded(run)
  {
    && c < |x.conns| && id in x.core.table && x.core.table[id].name == x.conns[c].name
    && Cut(x, c, id) && OnlyIn(x, c, id)
    && Answered(run, x.conns[c].out, Of(x.reqs, x.sent, c))
  }

  // ---- Steps that move no request ----

  ghost predicate SameQueues(s: G.Core, t: G.Core) {
    && (forall j :: j in s.table ==>
          j in t.table && t.table[j].queue == s.table[j].queue && t.table[j].name == s.table[j].name)
    && (forall j :: j in t.table && j !in s.table ==> t.table[j].queue == [])
  }

  lemma QuietTenant(p: G.Policy, s: G.Core, a: G.Action, j: nat)
    requires G.Valid(s) && (a.DoRegister? || a.DoCommand? || a.DoFinish?)
    ensures j in s.table ==> var t := G.Apply(p, s, a).table;
              j in t && t[j].queue == s.table[j].queue && t[j].name == s.table[j].name
    ensures j !in s.table && j in G.Apply(p, s, a).table ==> G.Apply(p, s, a).table[j].queue == []
  {
    if j in s.table {
      G.ApplyEffect(p, s, a, j);
    }
  }

  lemma QuietCore(p: G.Policy, s: G.Core, a: G.Action)
    requires G.Valid(s) && (a.DoRegister? || a.DoCommand? || a.DoFinish?)
    ensures G.Valid(G.Apply(p, s, a)) && SameQueues(s, G.Apply(p, s, a))
  {
    var t := G.Apply(p, s, a);
    assert SameQueues(s, t) by {
      forall j: nat
        ensures j in s.table ==>
          j in t.table && t.table[j].queue == s.table[j].queue && t.table[j].name == s.table[j].name
        ensures j in t.table && j !in s.table ==> t.table[j].queue == []
      {
        QuietTenant(p, s, a, j);
      }
    }
    G.ValidKept(p, s, a);
  }

  ghost predicate Alike(x: Proxy, y: Proxy) {
    y.reqs == x.reqs && y.sent == x.sent && Flight(y) == Flight(x) && SameQueues(x.core, y.core)
  }

  lemma AlikeServes(run: Runner, x: Proxy, y: Proxy, c: nat, id: nat)
    requires Bounded(run) && Serves(run, x, c, id) && Alike(x, y) && c < |y.conns| && y.conns[c] == x.conns[c]
    ensures Serves(run, y, c, id)
  {
    forall j | j in y.core.table && j != id ensures Of(y.reqs, y.core.table[j].queue, c) == [] {
      if j in x.core.table {
        assert Of(x.reqs, x.core.table[j].queue, c) == [];
      }
    }
  }

  lemma AlikeSound(x: Proxy, y: Proxy)
    requires Sound(x) && Alike(x, y) && G.Valid(y.core) && |x.conns| <= |y.conns|
    requires y.toSend.Some? ==> y.core.running.None?
    ensures Sound(y)
  {
  }

  lemma FinishStep(p: G.Policy, run: Runner, x: Proxy, dt: real, at: real)
    requires Bounded(run) && Sound(x)
    ensures Alike(x, Apply(p, run, x, Finish(dt, at))) && Sound(Apply(p, run, x, Finish(dt, at)))
  {
    var y := Apply(p, run, x, Finish(dt, at));
    QuietCore(p, x.core, G.DoFinish(dt, at));
    assert y.core == G.Apply(p, x.core, G.DoFinish(dt, at));
    assert Flight(y) == Flight(x);
    AlikeSound(x, y);
  }

  lemma CoreStep(p: G.Policy, x: Proxy, y: Proxy, a: G.Action)
    requires Sound(x) && (a.DoRegister? || a.DoCommand?)
    requires y == x.(core := G.Apply(p, x.core, a), conns := y.conns) && |x.conns| <= |y.conns|
    ensures Alike(x, y) && Sound(y)
  {
    QuietCore(p, x.core, a);
    assert y.core.running == x.core.running;
    AlikeSound(x, y);
  }

  lemma QuietStep(p: G.Policy, run: Runner, x: Proxy, a: Action)
    requires Bounded(run) && Sound(x) && (a.Accept? || a.Register? || a.Command? || a.Finish?)
    ensures Alike(x, Apply(p, run, x, a)) && Sound(Apply(p, run, x, a))
  {
    match a
    case Command(name, command) => CoreStep(p, x, Apply(p, run, x, a), G.DoCommand(name, command));
    case Accept(name, _) => CoreStep(p, x, Apply(p, run, x, a), G.DoRegister(name));
    case Register(name) => CoreStep(p, x, Apply(p, run, x, a), G.DoRegister(name));
    case Finish(dt, at) => FinishStep(p, run, x, dt, at);
  }

  // ---- Receive ----

  lemma SubmittedQueue(s: G.Core, name: string, n: nat, j: nat)
    requires G.Valid(s)
    ensures var t := G.AfterSubmit(s, name, n).table;
            && (j in t <==> j in s.table)
            && (j in t ==> t[j].queue == s.table[j].queue + (if s.table[j].name == name then [n] else [])
                           && t[j].name == s.table[j].name)
  {
    if j in s.table {
      G.NameFound(s, name, j);
    } else {
      SubmitKeepsTables(s, name, n);
    }
  }

  lemma QueueKnown(reqs: seq<Req>, more: Req, q: seq<nat>)
    requires Known(reqs, q)
    ensures Known(reqs + [more], q) && Known(reqs + [more], q + []) && Known(reqs + [more], q + [|reqs|])
  {
  }

  lemma ReceiveKnown(x: Proxy, d: nat, id: nat)
    requires Sound(x) && d < |x.conns| && x.conns[d].submitted < |x.conns[d].bodies|
    ensures var y := AfterReceive(x, d); id in y.core.table ==> Known(y.reqs, y.core.table[id].queue)
  {
    SubmittedQueue(x.core, x.conns[d].name, |x.reqs|, id);
    if id in x.core.table {
      assert Known(x.reqs, x.core.table[id].queue);
      QueueKnown(x.reqs, Req(d, x.conns[d].bodies[x.conns[d].submitted]), x.core.table[id].queue);
    }
  }

  lemma ReceiveRest(x: Proxy, d: nat)
    requires Sound(x) && d < |x.conns| && x.conns[d].submitted < |x.conns[d].bodies|
    ensures var y := AfterReceive(x, d);
            && G.Valid(y.core) && Known(y.reqs, Flight(y)) && Known(y.reqs, y.sent)
            && (forall i :: 0 <= i < |y.reqs| ==> y.reqs[i].conn < |y.conns|)
            && (y.toSend.Some? ==> y.core.running.None?)
  {
    var more := Req(d, x.conns[d].bodies[x.conns[d].submitted]);
    G.SubmitValid(x.core, x.conns[d].name, |x.reqs|);
    SubmitKeepsTables(x.core, x.conns[d].name, |x.reqs|);
    QueueKnown(x.reqs, more, Flight(x));
    QueueKnown(x.reqs, more, x.sent);
  }

  lemma ReceiveSound(x: Proxy, d: nat)
    requires Sound(x)
    ensures Sound(AfterReceive(x, d))
  {
    if d < |x.conns| && x.conns[d].submitted < |x.conns[d].bodies| {
      var y := AfterReceive(x, d);
      ReceiveRest(x, d);
      forall id | id in y.core.table ensures Known(y.reqs, y.core.table[id].queue) {
        ReceiveKnown(x, d, id);
      }
    }
  }

  /** How a submission changes the queue of one tenant, as one connection sees it. */
  lemma ReceiveQueue(x: Proxy, d: nat, c: nat, j: nat)
    requires Sound(x) && j in x.core.table
    requires d < |x.conns| && x.conns[d].submitted < |x.conns[d].bodies|
    ensures var y := AfterReceive(x, d);
            && j in y.core.table && y.core.table[j].name == x.core.table[j].name
            && Of(y.reqs, y.core.table[j].queue, c) == Of(x.reqs, x.core.table[j].queue, c)
               + (if d == c && x.core.table[j].name == x.conns[d].name
                  then [x.conns[d].bodies[x.conns[d].submitted]] else [])
  {
    var name, q, n := x.conns[d].name, x.core.table[j].queue, |x.reqs|;
    var more := Req(d, x.conns[d].bodies[x.conns[d].submitted]);
    SubmittedQueue(x.core, name, n, j);
    OfGrown(x.reqs, more, q, c);
    OfAppend(x.reqs + [more], q, n, c);
  }

  lemma ReceiveKeeps(x: Proxy, d: nat, c: nat)
    requires Sound(x) && d < |x.conns| && x.conns[d].submitted < |x.conns[d].bodies|
    ensures var y := AfterReceive(x, d);
            Of(y.reqs, y.sent, c) == Of(x.reqs, x.sent, c) && Of(y.reqs, Flight(y), c) == Of(x.reqs, Flight(x), c)
  {
    var more := Req(d, x.conns[d].bodies[x.conns[d].submitted]);
    OfGrown(x.reqs, more, x.sent, c);
    OfGrown(x.reqs, more, Flight(x), c);
    SubmitKeepsTables(x.core, x.conns[d].name, |x.reqs|);
  }

  lemma Longer(a: seq<seq<Byte>>, q: seq<seq<Byte>>, bodies: seq<seq<Byte>>, n: nat)
    requires n < |bodies| && a + q == bodies[..n]
    ensures a + (q + [bodies[n]]) == bodies[..n + 1]
  {
    assert a + (q + [bodies[n]]) == (a + q) + [bodies[n]];
  }

  lemma CutLonger(x: Proxy, y: Proxy, c: nat, id: nat)
    requires c < |x.conns| && c < |y.conns| && id in x.core.table && id in y.core.table && Cut(x, c, id)
    requires x.conns[c].submitted < |x.conns[c].bodies|
    requires y.conns[c] == x.conns[c].(submitted := x.conns[c].submitted + 1)
    requires Of(y.reqs, y.sent, c) == Of(x.reqs, x.sent, c) && Of(y.reqs, Flight(y), c) == Of(x.reqs, Flight(x), c)
    requires Of(y.reqs, y.core.table[id].queue, c)
             == Of(x.reqs, x.core.table[id].queue, c) + [x.conns[c].bodies[x.conns[c].submitted]]
    ensures Cut(y, c, id)
  {
    var k := x.conns[c];
    var ahead := Of(x.reqs, x.sent, c) + Of(x.reqs, Flight(x), c);
    Longer(ahead, Of(x.reqs, x.core.table[id].queue, c), k.bodies, k.submitted);
  }

  lemma ReceiveCut(x: Proxy, d: nat, c: nat, id: nat)
    requires Sound(x) && c < |x.conns| && id in x.core.table
    requires x.core.table[id].name == x.conns[c].name && Cut(x, c, id)
    requires d < |x.conns| && x.conns[d].submitted < |x.conns[d].bodies|
    ensures var y := AfterReceive(x, d); id in y.core.table && Cut(y, c, id)
  {
    var y := AfterReceive(x, d);
    ReceiveKeeps(x, d, c);
    ReceiveQueue(x, d, c, id);
    if d == c {
      CutLonger(x, y, c, id);
    } else {
      assert y.conns[c] == x.conns[c];
      assert Of(y.reqs, y.core.table[id].queue, c) == Of(x.reqs, x.core.table[id].queue, c);
    }
  }

  lemma ReceiveOnlyIn(x: Proxy, d: nat, c: nat, id: nat)
    requires Sound(x) && c < |x.conns| && id in x.core.table
    requires x.core.table[id].name == x.conns[c].name && OnlyIn(x, c, id)
    requires d < |x.conns| && x.conns[d].submitted < |x.conns[d].bodies|
    ensures OnlyIn(AfterReceive(x, d), c, id)
  {
    var y := AfterReceive(x, d);
    SubmitKeepsTables(x.core, x.conns[d].name, |x.reqs|);
    forall j | j in y.core.table && j != id ensures Of(y.reqs, y.core.table[j].queue, c) == [] {
      ReceiveQueue(x, d, c, j);
      assert G.OneName(x.core, j, id) && Of(x.reqs, x.core.table[j].queue, c) == [];
    }
  }

  lemma ReceiveServes(run: Runner, x: Proxy, d: nat, c: nat, id: nat)
    requires Bounded(run) && Sound(x) && Serves(run, x, c, id)
    ensures Serves(run, AfterReceive(x, d), c, id)
  {
    if d < |x.conns| && x.conns[d].submitted < |x.conns[d].bodies| {
      ReceiveCut(x, d, c, id);
      ReceiveOnlyIn(x, d, c, id);
      ReceiveKeeps(x, d, c);
      ReceiveQueue(x, d, c, id);
    }
  }

  lemma SubmitKeepsTables(s: G.Core, name: string, n: nat)
    requires G.Valid(s)
    ensures G.AfterSubmit(s, name, n).table.Keys == s.table.Keys && G.AfterSubmit(s, name, n).running == s.running
  {
  }

  // ---- Pick ----

  lemma PickCore(p: G.Policy, s: G.Core) returns (m: nat, q: seq<nat>)
    requires G.Valid(s) && G.AfterPick(p, s) != s
    ensures m in s.table && q == s.table[m].queue && q != []
    ensures var t := G.AfterPick(p, s);
            && G.Valid(t) && s.running.None? && t.running.Some? && t.running.value.req == q[0]
            && t.table == s.table[m := s.table[m].(queue := q[1..])]
  {
    G.PickValid(p, s);
    m := G.Eligible(p, s).value.0;
    q := s.table[m].queue;
  }

  /** A pick moves the head of one tenant's queue into flight. */
  lemma PickMoves(p: G.Policy, run: Runner, x: Proxy) returns (m: nat, q: seq<nat>)
    requires Bounded(run) && Sound(x) && Apply(p, run, x, Pick) != x
    ensures x.toSend.None? && G.Valid(Apply(p, run, x, Pick).core)
    ensures m in x.core.table && q == x.core.table[m].queue && q != []
    ensures var y := Apply(p, run, x, Pick);
            && Flight(x) == [] && Flight(y) == [q[0]]
            && y == x.(core := y.core) && y.core.table == x.core.table[m := x.core.table[m].(queue := q[1..])]
  {
    var t := G.AfterPick(p, x.core);
    assert Apply(p, run, x, Pick) == x.(core := t);
    m, q := PickCore(p, x.core);
  }

  lemma OfHead(reqs: seq<Req>, q: seq<nat>, c: nat)
    requires q != []
    ensures Of(reqs, [q[0]], c) == One(reqs, q[0], c)
    ensures Of(reqs, q, c) == One(reqs, q[0], c) + Of(reqs, q[1..], c)
  {
    assert [q[0]][1..] == [];
  }

  lemma MovedSound(x: Proxy, y: Proxy, m: nat, q: seq<nat>)
    requires Sound(x) && G.Valid(y.core) && y == x.(core := y.core) && x.toSend.None?
    requires m in x.core.table && q == x.core.table[m].queue && q != [] && Flight(y) == [q[0]]
    requires y.core.table == x.core.table[m := x.core.table[m].(queue := q[1..])]
    ensures Sound(y)
  {
    assert Known(x.reqs, x.core.table[m].queue);
    forall id | id in y.core.table ensures Known(y.reqs, y.core.table[id].queue) {
      assert id in x.core.table && Known(x.reqs, x.core.table[id].queue);
    }
  }

  lemma PickSound(p: G.Policy, run: Runner, x: Proxy)
    requires Bounded(run) && Sound(x)
    ensures Sound(Apply(p, run, x, Pick))
  {
    var y := Apply(p, run, x, Pick);
    if y != x {
      var m, q := PickMoves(p, run, x);
      MovedSound(x, y, m, q);
    }
  }

  /** Taking the head of its own queue into flight moves it along the line of the connection. */
  lemma MovedOwn(x: Proxy, y: Proxy, c: nat, id: nat, q: seq<nat>)
    requires c < |x.conns| && id in x.core.table && Cut(x, c, id) && y == x.(core := y.core)
    requires q == x.core.table[id].queue && q != [] && Flight(x) == [] && Flight(y) == [q[0]]
    requires id in y.core.table && y.core.table[id].queue == q[1..]
    requires Of(x.reqs, [q[0]], c) == One(x.reqs, q[0], c)
    requires Of(x.reqs, q, c) == One(x.reqs, q[0], c) + Of(x.reqs, q[1..], c)
    ensures Cut(y, c, id)
  {
    assert Of(x.reqs, Flight(x), c) == [];
    Regroup(Of(x.reqs, x.sent, c), One(x.reqs, q[0], c), Of(x.reqs, q[1..], c));
  }

  lemma Regroup(a: seq<seq<Byte>>, b: seq<seq<Byte>>, c: seq<seq<Byte>>)
    ensures a + [] + (b + c) == a + b + c
  {
    assert a + [] == a;
  }

  /** Taking the head of another tenant's queue moves nothing of this connection. */
  lemma MovedOther(x: Proxy, y: Proxy, c: nat, id: nat, q: seq<nat>)
    requires c < |x.conns| && id in x.core.table && Cut(x, c, id) && y == x.(core := y.core)
    requires q != [] && Flight(x) == [] && Flight(y) == [q[0]]
    requires id in y.core.table && y.core.table[id].queue == x.core.table[id].queue
    requires Of(x.reqs, [q[0]], c) == []
    ensures Cut(y, c, id)
  {
    assert Of(x.reqs, Flight(x), c) == [] && Of(y.reqs, Flight(y), c) == [];
  }

  lemma MovedOnlyIn(x: Proxy, y: Proxy, c: nat, id: nat, m: nat, q: seq<nat>)
    requires OnlyIn(x, c, id) && y == x.(core := y.core) && m in x.core.table && q == x.core.table[m].queue && q != []
    requires y.core.table == x.core.table[m := x.core.table[m].(queue := q[1..])]
    requires Of(x.reqs, q, c) == One(x.reqs, q[0], c) + Of(x.reqs, q[1..], c)
    ensures OnlyIn(y, c, id) && (m != id ==> One(x.reqs, q[0], c) == [])
  {
    assert m != id ==> Of(x.reqs, x.core.table[m].queue, c) == [];
    forall j | j in y.core.table && j != id ensures Of(y.reqs, y.core.table[j].queue, c) == [] {
      assert Of(x.reqs, x.core.table[j].queue, c) == [];
    }
  }

  lemma PickServes(p: G.Policy, run: Runner, x: Proxy, c: nat, id: nat)
    requires Bounded(run) && Sound(x) && Serves(run, x, c, id)
    ensures Serves(run, Apply(p, run, x, Pick), c, id)
  {
    var y := Apply(p, run, x, Pick);
    if y != x {
      var m, q := PickMoves(p, run, x);
      OfHead(x.reqs, q, c);
      MovedOnlyIn(x, y, c, id, m, q);
      if m == id {
        MovedOwn(x, y, c, id, q);
      } else {
        MovedOther(x, y, c, id, q);
      }
    }
  }

  // ---- Reply ----

  lemma ReplySound(run: Runner, x: Proxy)
    requires Bounded(run) && Sound(x)
    ensures Sound(AfterReply(run, x))
  {
    if x.toSend.Some? {
      assert Flight(x)[0] == x.toSend.value;
    }
  }

  lemma AnsweredMore(run: Runner, out: seq<Byte>, done: seq<seq<Byte>>, body: seq<Byte>)
    requires Bounded(run) && Answered(run, out, done)
    ensures Answered(run, out + Frame(run(body)), done + [body])
  {
    EncodeAppend(Outputs(run, done), run(body));
    assert Outputs(run, done + [body]) == Outputs(run, done) + [run(body)];
  }

  /** A reply moves the request in flight to the answered ones. */
  lemma ReplyMoves(run: Runner, x: Proxy, c: nat)
    requires Bounded(run) && Sound(x) && x.toSend.Some?
    ensures var y, n := AfterReply(run, x), x.toSend.value;
            && n < |x.reqs| && x.reqs[n].conn < |x.conns| && y.core == x.core && y.reqs == x.reqs
            && Of(x.reqs, Flight(x), c) == One(x.reqs, n, c) && Flight(y) == []
            && Of(y.reqs, y.sent, c) == Of(x.reqs, x.sent, c) + One(x.reqs, n, c)
            && |y.conns| == |x.conns| && (c < |x.conns| ==> y.conns[c] == x.conns[c].(out := y.conns[c].out))
  {
    var n := x.toSend.value;
    assert Flight(x) == [n] && Flight(x)[0] == n && [n][1..] == [];
    OfAppend(x.reqs, x.sent, n, c);
  }

  lemma OnlyInSame(x: Proxy, y: Proxy, c: nat, id: nat)
    requires y.core == x.core && y.reqs == x.reqs && OnlyIn(x, c, id)
    ensures OnlyIn(y, c, id)
  {
  }

  lemma ReplyCut(run: Runner, x: Proxy, c: nat, id: nat)
    requires Bounded(run) && Sound(x) && c < |x.conns| && id in x.core.table && Cut(x, c, id) && x.toSend.Some?
    ensures Cut(AfterReply(run, x), c, id)
  {
    ReplyMoves(run, x, c);
    var done, one := Of(x.reqs, x.sent, c), One(x.reqs, x.toSend.value, c);
    assert done + one + [] == done + one;
  }

  lemma ReplyAnswered(run: Runner, x: Proxy, c: nat)
    requires Bounded(run) && Sound(x) && c < |x.conns| && x.toSend.Some?
    requires Answered(run, x.conns[c].out, Of(x.reqs, x.sent, c))
    ensures var y := AfterReply(run, x); Answered(run, y.conns[c].out, Of(y.reqs, y.sent, c))
  {
    ReplyMoves(run, x, c);
    var n, done := x.toSend.value, Of(x.reqs, x.sent, c);
    if x.reqs[n].conn == c {
      AnsweredMore(run, x.conns[c].out, done, x.reqs[n].body);
    } else {
      assert done + [] == done;
    }
  }

  lemma ReplyKeeps(run: Runner, x: Proxy, c: nat)
    requires Bounded(run) && Sound(x) && c < |x.conns|
    ensures var y := AfterReply(run, x);
            y.core == x.core && y.reqs == x.reqs && |y.conns| == |x.conns| && y.conns[c].name == x.conns[c].name
  {
  }

  lemma SameTenantServes(run: Runner, x: Proxy, y: Proxy, c: nat, id: nat)
    requires Bounded(run) && Serves(run, x, c, id) && y.core == x.core && y.reqs == x.reqs
    requires c < |y.conns| && y.conns[c].name == x.conns[c].name
    requires Cut(y, c, id) && Answered(run, y.conns[c].out, Of(y.reqs, y.sent, c))
    ensures Serves(run, y, c, id)
  {
    OnlyInSame(x, y, c, id);
  }

  lemma ReplyServes(run: Runner, x: Proxy, c: nat, id: nat)
    requires Bounded(run) && Sound(x) && Serves(run, x, c, id)
    ensures Serves(run, AfterReply(run, x), c, id)
  {
    if x.toSend.Some? {
      ReplyKeeps(run, x, c);
      ReplyCut(run, x, c, id);
      ReplyAnswered(run, x, c);
      SameTenantServes(run, x, AfterReply(run, x), c, id);
    }
  }

  // ---- Whole runs ----

  ghost predicate Attended(run: Runner, x: Proxy, c: nat)
    requires Bounded(run)
  {
    exists id :: Serves(run, x, c, id)
  }

  ghost predicate AllServed(run: Runner, x: Proxy)
    requires Bounded(run)
  {
    Sound(x) && forall c :: 0 <= c < |x.conns| ==> Attended(run, x, c)
  }

  lemma StepSound(p: G.Policy, run: Runner, x: Proxy, a: Action)
    requires Bounded(run) && Sound(x)
    ensures Sound(Apply(p, run, x, a))
  {
    match a
    case Receive(d) => ReceiveSound(x, d);
    case Pick => PickSound(p, run, x);
    case Reply => ReplySound(run, x);
    case _ => QuietStep(p, run, x, a);
  }

  lemma StepServes(p: G.Policy, run: Runner, x: Proxy, a: Action, c: nat, id: nat)
    requires Bounded(run) && Sound(x) && Serves(run, x, c, id)
    ensures Serves(run, Apply(p, run, x, a), c, id)
  {
    match a
    case Receive(d) => ReceiveServes(run, x, d, c, id);
    case Pick => PickServes(p, run, x, c, id);
    case Reply => ReplyServes(run, x, c, id);
    case _ =>
      QuietStep(p, run, x, a);
      AlikeServes(run, x, Apply(p, run, x, a), c, id);
  }

  lemma AcceptServes(p: G.Policy, run: Runner, x: Proxy, name: string, bodies: seq<seq<Byte>>)
    requires Bounded(run) && Sound(x)
    ensures Attended(run, Apply(p, run, x, Accept(name, bodies)), |x.conns|)
  {
    var y, c := Apply(p, run, x, Accept(name, bodies)), |x.conns|;
    var k := G.Position(x.core, name, 0);
    var id := if k.Some? then x.core.order[k.value] else x.core.nextId;
    OfNobody(y.reqs, y.sent, c);
    OfNobody(y.reqs, Flight(y), c);
    forall j | j in y.core.table ensures Of(y.reqs, y.core.table[j].queue, c) == [] {
      OfNobody(y.reqs, y.core.table[j].queue, c);
    }
    assert Serves(run, y, c, id);
  }

  lemma AttendedStep(p: G.Policy, run: Runner, x: Proxy, a: Action, c: nat)
    requires Bounded(run) && Sound(x) && c < |x.conns| && Attended(run, x, c)
    ensures Attended(run, Apply(p, run, x, a), c)
  {
    var id :| Serves(run, x, c, id);
    StepServes(p, run, x, a, c, id);
  }

  lemma ConnsGrow(p: G.Policy, run: Runner, x: Proxy, a: Action)
    requires Bounded(run) && Sound(x)
    ensures |Apply(p, run, x, a).conns| == |x.conns| + (if a.Accept? then 1 else 0)
  {
  }

  lemma AllServedStep(p: G.Policy, run: Runner, x: Proxy, a: Action)
    requires Bounded(run) && AllServed(run, x)
    ensures AllServed(run, Apply(p, run, x, a))
  {
    var y := Apply(p, run, x, a);
    StepSound(p, run, x, a);
    ConnsGrow(p, run, x, a);
    forall c: nat | c < |y.conns| ensures Attended(run, y, c) {
      if c < |x.conns| {
        AttendedStep(p, run, x, a, c);
      } else {
        AcceptServes(p, run, x, a.name, a.bodies);
        assert c == |x.conns| && a == Accept(a.name, a.bodies);
      }
    }
  }

  ghost function Run(p: G.Policy, run: Runner, x: Proxy, acts: seq<Action>): (y: Proxy)
    requires Bounded(run) && AllServed(run, x)
    ensures AllServed(run, y)
    decreases |acts|
  {
    if acts == [] then x
    else AllServedStep(p, run, x, acts[0]); Run(p, run, Apply(p, run, x, acts[0]), acts[1..])
  }

  lemma EmptyServed(run: Runner)
    requires Bounded(run)
    ensures AllServed(run, EMPTY)
  {
  }

  /** The states of a proxy that starts with no tenant and no connection. */
  ghost function Reached(p: G.Policy, run: Runner, acts: seq<Action>): (x: Proxy)
    requires Bounded(run)
    ensures AllServed(run, x)
  {
    EmptyServed(run);
    Run(p, run, EMPTY, acts)
  }

  /** How many requests of connection c are queued or in flight. */
  function Pending(x: Proxy, c: nat, id: nat): nat
    requires id in x.core.table
  {
    |Of(x.reqs, Flight(x), c)| + |Of(x.reqs, x.core.table[id].queue, c)|
  }

  ghost predicate Balanced(x: Proxy, c: nat, m: nat)
    requires c < |x.conns|
  {
    exists id :: id in x.core.table && x.core.table[id].name == x.conns[c].name
                 && m + Pending(x, c, id) == x.conns[c].submitted
  }

  lemma DecodeAnswers(run: Runner, out: seq<Byte>, done: seq<seq<Byte>>)
    requires Bounded(run) && Answered(run, out, done)
    ensures Responses(out) == Outputs(run, done)
  {
    ResponsesOfFrames(Outputs(run, done), []);
    assert out + [] == out && Outputs(run, done) + Responses([]) == Outputs(run, done);
  }

  /** Answered is a prefix of submitted, and the rest is pending. */
  lemma DoneIsPrefix(x: Proxy, c: nat, id: nat)
    requires c < |x.conns| && id in x.core.table && Cut(x, c, id)
    ensures var m := |Of(x.reqs, x.sent, c)|;
            && m + Pending(x, c, id) == x.conns[c].submitted <= |x.conns[c].bodies|
            && Of(x.reqs, x.sent, c) == x.conns[c].bodies[..m]
  {
    var done, k := Of(x.reqs, x.sent, c), x.conns[c];
    var all := done + Of(x.reqs, Flight(x), c) + Of(x.reqs, x.core.table[id].queue, c);
    assert |all| == |done| + Pending(x, c, id);
    assert all[..|done|] == done && k.bodies[..k.submitted][..|done|] == k.bodies[..|done|];
  }

  /** Reply order and conservation: after any run of the proxy, whatever the tenants, the commands and
      the clock did, the k-th response frame of every connection is the output of its k-th request, and
      the responses and the pending requests together are exactly what was submitted. */
  lemma RepliesInOrder(p: G.Policy, run: Runner, acts: seq<Action>, c: nat)
    requires Bounded(run) && c < |Reached(p, run, acts).conns|
    ensures var x := Reached(p, run, acts);
            var m, k := |Responses(x.conns[c].out)|, x.conns[c];
            && m <= k.submitted <= |k.bodies|
            && Responses(k.out) == Outputs(run, k.bodies[..m])
            && Balanced(x, c, m)
  {
    var x := Reached(p, run, acts);
    assert Attended(run, x, c);
    var id :| Serves(run, x, c, id);
    DoneIsPrefix(x, c, id);
    DecodeAnswers(run, x.conns[c].out, Of(x.reqs, x.sent, c));
  }

  lemma OutputsPrefix(run: Runner, bodies: seq<seq<Byte>>, m: nat, framed: seq<seq<Byte>>, part: seq<seq<Byte>>)
    requires m <= |bodies| && bodies <= framed && part <= Outputs(run, bodies[..m])
    ensures |part| <= |framed| && part == Outputs(run, framed[..|part|])
  {
    assert forall k :: 0 <= k < |part| ==> part[k] == Outputs(run, bodies[..m])[k];
    assert forall k :: 0 <= k < |part| ==> framed[..|part|][k] == bodies[..m][k];
  }

  lemma ArrivedRequests(arrived: seq<Byte>, framed: seq<seq<Byte>>)
    requires Fixed(framed, IN_BYTES) && Sendable(framed) && arrived <= Encode(framed)
    ensures Requests(arrived, IN_BYTES) <= framed
  {
    RequestsPrefix(arrived, Encode(framed), IN_BYTES);
    RequestsOfFrames(framed, [], IN_BYTES);
    assert Encode(framed) + [] == Encode(framed) && framed + Requests([], IN_BYTES) == framed;
  }

  /** From client to client: when the reader has taken its requests from any part of the stream the client
      framed, and the client has got any part of what was written back, its k-th response is the output
      of the k-th input it framed. */
  lemma EndToEnd(p: G.Policy, run: Runner, acts: seq<Action>, c: nat,
                 framed: seq<seq<Byte>>, arrived: seq<Byte>, received: seq<Byte>)
    requires Bounded(run) && c < |Reached(p, run, acts).conns|
    requires Fixed(framed, IN_BYTES) && Sendable(framed) && arrived <= Encode(framed)
    requires Reached(p, run, acts).conns[c].bodies == Requests(arrived, IN_BYTES)
    requires received <= Reached(p, run, acts).conns[c].out
    ensures |Responses(received)| <= |framed|
    ensures Responses(received) == Outputs(run, framed[..|Responses(received)|])
  {
    var k := Reached(p, run, acts).conns[c];
    RepliesInOrder(p, run, acts, c);
    ResponsesPrefix(received, k.out);
    ArrivedRequests(arrived, framed);
    OutputsPrefix(run, k.bodies, |Responses(k.out)|, framed, Responses(received));
  }
}
