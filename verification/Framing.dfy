/** The byte streams of the NPU proxy: length-prefixed frames over a socket that delivers them in
    arbitrary chunks. */
module Framing {
  import opened Wrappers

  type Byte = b: nat | b < 256

  const NEWLINE: Byte := 10
  /** Bytes of a (1, 3, 224, 224) input tensor. */
  const IN_BYTES := 150528

  // ---- Four-byte big-endian lengths ----

  function Pack(n: nat): (h: seq<Byte>)
    requires n < 0x1_0000_0000
    ensures |h| == 4
  {
    [n / 0x100_0000, n / 0x1_0000 % 256, n / 256 % 256, n % 256]
  }

  function Unpack(h: seq<Byte>): (n: nat)
    requires |h| == 4
    ensures n < 0x1_0000_0000
  {
    var a: int, b: int, c: int, d: int := h[0], h[1], h[2], h[3];
    ((a * 256 + b) * 256 + c) * 256 + d
  }

  lemma DivMod(q: int, r: int)
    requires 0 <= r < 256
    ensures (256 * q + r) / 256 == q && (256 * q + r) % 256 == r
  {
  }

  /** Dividing by 256 step by step. */
  lemma Shifts(n: nat)
    ensures n / 0x1_0000 == n / 256 / 256 && n / 0x100_0000 == n / 256 / 256 / 256
  {
  }

  /** The header is a bijection between lengths below 2^32 and four bytes. */
  lemma HeaderRoundTrip(n: nat, h: seq<Byte>)
    requires n < 0x1_0000_0000 && |h| == 4
    ensures Unpack(Pack(n)) == n && Pack(Unpack(h)) == h
  {
    var a: int, b: int, c: int, d: int := h[0], h[1], h[2], h[3];
    Shifts(n);
    Shifts(Unpack(h));
    assert Unpack(h) == 256 * (256 * (256 * a + b) + c) + d;
    DivMod(256 * (256 * a + b) + c, d);
    DivMod(256 * a + b, c);
    DivMod(a, b);
  }

  function Frame(body: seq<Byte>): seq<Byte>
    requires |body| < 0x1_0000_0000
  {
    Pack(|body|) + body
  }

  predicate Sendable(bodies: seq<seq<Byte>>) {
    forall k :: 0 <= k < |bodies| ==> |bodies[k]| < 0x1_0000_0000
  }

  /** What a peer that frames these bodies one after another sends. */
  function Encode(bodies: seq<seq<Byte>>): seq<Byte>
    requires Sendable(bodies)
  {
    if bodies == [] then [] else Frame(bodies[0]) + Encode(bodies[1..])
  }

  /** The first frame of a stream, if it is all there. */
  function FirstFrame(s: seq<Byte>): (r: Option<seq<Byte>>)
    ensures r.Some? ==> |s| >= 4 + |r.value| && Unpack(s[..4]) == |r.value| && r.value == s[4..4 + |r.value|]
  {
    if |s| < 4 || |s| < 4 + Unpack(s[..4]) then None else Some(s[4..4 + Unpack(s[..4])])
  }

  lemma FirstFrameOfFrame(body: seq<Byte>, rest: seq<Byte>)
    requires |body| < 0x1_0000_0000
    ensures FirstFrame(Frame(body) + rest) == Some(body)
    ensures (Frame(body) + rest)[4 + |body|..] == rest
  {
    var s := Frame(body) + rest;
    assert s[..4] == Pack(|body|);
    HeaderRoundTrip(|body|, Pack(|body|));
    assert s[4..4 + |body|] == body;
  }

  // ---- Server side: requests ----

  /** The request bodies a stream contains: up to the first frame that is cut short or has the wrong length. */
  function Requests(s: seq<Byte>, n: nat): seq<seq<Byte>>
    decreases |s|
  {
    match FirstFrame(s)
    case None => []
    case Some(body) => if |body| != n then [] else [body] + Requests(s[4 + |body|..], n)
  }

  lemma RequestsStep(body: seq<Byte>, rest: seq<Byte>)
    requires |body| < 0x1_0000_0000
    ensures Requests(Frame(body) + rest, |body|) == [body] + Requests(rest, |body|)
  {
    FirstFrameOfFrame(body, rest);
  }

  lemma HeadFirst(bodies: seq<seq<Byte>>, more: seq<seq<Byte>>)
    requires bodies != []
    ensures bodies + more == [bodies[0]] + (bodies[1..] + more)
  {
  }

  predicate Fixed(bodies: seq<seq<Byte>>, n: nat) {
    forall k :: 0 <= k < |bodies| ==> |bodies[k]| == n
  }

  /** A stream of frames is read back as the bodies that were framed, followed by whatever comes after. */
  lemma {:induction false} RequestsOfFrames(bodies: seq<seq<Byte>>, tail: seq<Byte>, n: nat)
    requires n < 0x1_0000_0000 && Fixed(bodies, n) && Sendable(bodies)
    ensures Requests(Encode(bodies) + tail, n) == bodies + Requests(tail, n)
    decreases |bodies|
  {
    if bodies == [] {
      assert Encode(bodies) + tail == tail;
      assert bodies + Requests(tail, n) == Requests(tail, n);
    } else {
      var rest := Encode(bodies[1..]) + tail;
      assert Encode(bodies) + tail == Frame(bodies[0]) + rest;
      RequestsStep(bodies[0], rest);
      RequestsOfFrames(bodies[1..], tail, n);
      HeadFirst(bodies, Requests(tail, n));
    }
  }

  // ---- Client side: responses ----

  /** The complete response frames of a stream; an empty response is only a header. */
  function Responses(s: seq<Byte>): seq<seq<Byte>>
    decreases |s|
  {
    match FirstFrame(s)
    case None => []
    case Some(body) => [body] + Responses(s[4 + |body|..])
  }

  lemma ResponsesStep(body: seq<Byte>, rest: seq<Byte>)
    requires |body| < 0x1_0000_0000
    ensures Responses(Frame(body) + rest) == [body] + Responses(rest)
  {
    FirstFrameOfFrame(body, rest);
  }

  lemma {:induction false} ResponsesOfFrames(bodies: seq<seq<Byte>>, tail: seq<Byte>)
    requires Sendable(bodies)
    ensures Responses(Encode(bodies) + tail) == bodies + Responses(tail)
    decreases |bodies|
  {
    if bodies == [] {
      assert Encode(bodies) + tail == tail;
      assert bodies + Responses(tail) == Responses(tail);
    } else {
      var rest := Encode(bodies[1..]) + tail;
      assert Encode(bodies) + tail == Frame(bodies[0]) + rest;
      ResponsesStep(bodies[0], rest);
      ResponsesOfFrames(bodies[1..], tail);
      HeadFirst(bodies, Responses(tail));
    }
  }

  lemma {:induction false} EncodeAppend(bodies: seq<seq<Byte>>, b: seq<Byte>)
    requires Sendable(bodies) && |b| < 0x1_0000_0000
    ensures Sendable(bodies + [b]) && Encode(bodies + [b]) == Encode(bodies) + Frame(b)
  {
    if bodies != [] {
      assert (bodies + [b])[1..] == bodies[1..] + [b];
      EncodeAppend(bodies[1..], b);
    }
  }

  // ---- Streams that are still arriving ----

  lemma FirstFramePrefix(p: seq<Byte>, s: seq<Byte>)
    requires p <= s && FirstFrame(p).Some?
    ensures FirstFrame(s) == FirstFrame(p)
    ensures var n := 4 + |FirstFrame(p).value|; p[n..] <= s[n..]
  {
    assert p[..4] == s[..4];
    var n := 4 + |FirstFrame(p).value|;
    assert p[4..n] == s[4..n];
  }

  lemma {:induction false} RequestsPrefix(p: seq<Byte>, s: seq<Byte>, n: nat)
    requires p <= s
    ensures Requests(p, n) <= Requests(s, n)
    decreases |p|
  {
    if FirstFrame(p).Some? {
      FirstFramePrefix(p, s);
      var k := 4 + |FirstFrame(p).value|;
      RequestsPrefix(p[k..], s[k..], n);
    }
  }

  /** More of the stream never changes the responses already read. */
  lemma {:induction false} ResponsesPrefix(p: seq<Byte>, s: seq<Byte>)
    requires p <= s
    ensures Responses(p) <= Responses(s)
    decreases |p|
  {
    if FirstFrame(p).Some? {
      FirstFramePrefix(p, s);
      var k := 4 + |FirstFrame(p).value|;
      ResponsesPrefix(p[k..], s[k..]);
    }
  }

  lemma Shift(done: seq<seq<Byte>>, b: seq<Byte>, more: seq<seq<Byte>>)
    ensures done + ([b] + more) == (done + [b]) + more
  {
  }

  /** Reading a header and then as many bytes as it says takes the first frame. */
  lemma TakeFrame(s: seq<Byte>, n: nat)
    requires |s| >= 4 && n == Unpack(s[..4]) && |s[4..]| >= n
    ensures FirstFrame(s) == Some(s[4..][..n]) && s[4..][n..] == s[4 + n..]
  {
    assert s[4..][..n] == s[4..4 + n];
  }

  // ---- Reading from a socket ----

  /** The receiving end of a stream: `rest` is everything the peer will still send before it closes. */
  class Connection {
    var rest: seq<Byte>

    constructor (stream: seq<Byte>)
      ensures rest == stream
    {
      rest := stream;
    }

    /** At most k bytes, however many the network happens to deliver; empty only at the end of the stream. */
    method Recv(k: nat) returns (chunk: seq<Byte>)
      requires k > 0
      modifies this
      ensures chunk + rest == old(rest) && |chunk| <= k
      ensures chunk == [] <==> old(rest) == []
    {
      if rest == [] {
        chunk := [];
      } else {
        var m: nat :| 1 <= m <= |rest| && m <= k;
        chunk, rest := rest[..m], rest[m..];
      }
    }

    /** recv_exact: the next n bytes for any chunking, or nothing if the stream ends first. */
    method RecvExact(n: nat) returns (r: Option<seq<Byte>>)
      modifies this
      ensures if n <= |old(rest)| then r == Some(old(rest)[..n]) && rest == old(rest)[n..]
              else r == None && rest == []
    {
      var buf: seq<Byte> := [];
      while |buf| < n
        invariant buf + rest == old(rest) && |buf| <= n
        decreases n - |buf|
      {
        var chunk := Recv(n - |buf|);
        if chunk == [] {
          return None;
        }
        buf := buf + chunk;
      }
      r := Some(buf);
    }

    /** The handshake: byte by byte up to and including the first newline, so that nothing after it is taken. */
    method ReadLine() returns (line: Option<seq<Byte>>)
      modifies this
      ensures line.Some? ==> line.value != [] && line.value + rest == old(rest)
                             && line.value[|line.value| - 1] == 10 && 10 !in line.value[..|line.value| - 1]
      ensures line.None? ==> rest == [] && 10 !in old(rest)
    {
      var buf: seq<Byte> := [];
      while buf == [] || buf[|buf| - 1] != NEWLINE
        invariant buf + rest == old(rest)
        invariant buf != [] ==> NEWLINE !in buf[..|buf| - 1]
        decreases |rest|
      {
        var c := Recv(1);
        if c == [] {
          assert old(rest) == buf;
          assert buf != [] ==> buf == buf[..|buf| - 1] + [buf[|buf| - 1]];
          return None;
        }
        assert buf != [] ==> (buf + c)[..|buf|] == buf[..|buf| - 1] + [buf[|buf| - 1]];
        buf := buf + c;
      }
      line := Some(buf);
    }

    /** The frame loop of _conn_loop: submits exactly the requests of the stream, in order. */
    method FrameLoop() returns (submitted: seq<seq<Byte>>)
      modifies this
      ensures submitted == Requests(old(rest), 1 * 3 * 224 * 224)
    {
      submitted := [];
      while true
        invariant submitted + Requests(rest, IN_BYTES) == Requests(old(rest), IN_BYTES)
        decreases |rest|
      {
        ghost var s := rest;
        var hdr := RecvExact(4);
        if hdr.None? {
          break;
        }
        var n := Unpack(hdr.value);
        var body := RecvExact(n);
        if body.None? || n != IN_BYTES {
          break;
        }
        TakeFrame(s, n);
        Shift(submitted, body.value, Requests(rest, IN_BYTES));
        submitted := submitted + [body.value];
      }
    }

    /** The client's receiver: the complete responses of the stream, in order. */
    method ReceiveAll() returns (responses: seq<seq<Byte>>)
      modifies this
      ensures responses == Responses(old(rest))
    {
      responses := [];
      while true
        invariant responses + Responses(rest) == Responses(old(rest))
        decreases |rest|
      {
        ghost var s := rest;
        var hdr := RecvExact(4);
        if hdr.None? {
          break;
        }
        var n := Unpack(hdr.value);
        var body := RecvExact(n);
        if body.None? {
          break;
        }
        TakeFrame(s, n);
        Shift(responses, body.value, Responses(rest));
        responses := responses + [body.value];
      }
    }

    /** _conn_loop: after the handshake line, exactly the client's frames are submitted. */
    method Serve(ghost hello: seq<Byte>, ghost bodies: seq<seq<Byte>>)
      returns (line: Option<seq<Byte>>, submitted: seq<seq<Byte>>)
      requires NEWLINE !in hello && Fixed(bodies, IN_BYTES) && Sendable(bodies)
      requires rest == (hello + [NEWLINE]) + Encode(bodies)
      modifies this
      ensures line == Some(hello + [NEWLINE]) && submitted == bodies
    {
      assert rest[|hello|] == NEWLINE;
      line := ReadLine();
      SameLine(line.value, rest, hello, Encode(bodies));
      RequestsOfFrames(bodies, [], IN_BYTES);
      assert Encode(bodies) + [] == Encode(bodies) && bodies + Requests([], IN_BYTES) == bodies;
      submitted := FrameLoop();
    }
  }

  /** A stream has only one first line. */
  lemma SameLine(line: seq<Byte>, rest: seq<Byte>, hello: seq<Byte>, tail: seq<Byte>)
    requires line != [] && line[|line| - 1] == NEWLINE && NEWLINE !in line[..|line| - 1] && NEWLINE !in hello
    requires line + rest == (hello + [NEWLINE]) + tail
    ensures line == hello + [NEWLINE] && rest == tail
  {
    var s, k := line + rest, |line| - 1;
    assert s[k] == NEWLINE && s[|hello|] == NEWLINE;
    assert forall i :: 0 <= i < k ==> s[i] == line[..k][i];
    assert forall i :: 0 <= i < |hello| ==> s[i] == hello[i];
    assert k == |hello|;
    assert s[..k + 1] == line && s[k + 1..] == rest;
  }
}
