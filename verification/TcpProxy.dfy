/** Opening through a SOCKS5 proxy: which replies carry the handshake on, which end it, and that the accepted ones lead to
    the answer of the SYN. */
module TcpProxy {
  import opened Serial
  import opened TcpModel
  import opened TcpShapes
  import opened TcpStates
  import opened TcpAnswers

  /** An event of the socket on which all writes work. */
  predicate Works(e: Ready) {
    !e.error && e.proxySendOk && e.writeOk
  }

  /** The proxy has sent b, and nothing else happens. */
  predicate Replies(e: Ready, b: seq<byte>) {
    Works(e) && e.readable && e.recv == Received(b)
  }

  /** A listening session and its successor, with the entries x and y added to the log. */
  predicate Advanced(r: Relay, q: Relay, phase: Socks, added: seq<Effect>) {
    q.state == Listen && q.socks5 == phase && q.socket == r.socket && q.ipv4 == r.ipv4 && q.up == r.up && q.down == r.down
    && q.log == r.log + added
  }

  /** A connected socket greets the proxy. */
  lemma Greets(r: Relay, e: Ready)
    requires r.state == Listen && r.socks5 == NotConnected && r.socket && Works(e) && e.writable && e.proxy
    ensures Advanced(r, Step(r, Socket(e)), Hello, [ToProxy(Hello)])
  {
    hide WriteRst;
  }

  /** Method 0 asks for the connection at once, method 2 for authentication first. */
  lemma MethodChosen(r: Relay, e: Ready, b: seq<byte>)
    requires r.state == Listen && r.socks5 == Hello && r.socket && Replies(e, b) && (b == [5, 0] || b == [5, 2])
    ensures var phase := if b == [5, 0] then Connect else Auth;
      Advanced(r, Step(r, Socket(e)), phase, [FromProxy(b), ToProxy(phase)])
  {
    hide WriteRst;
    assert b[..2] == b;
    assert r.log + [FromProxy(b)] + [ToProxy(if b == [5, 0] then Connect else Auth)] ==
           r.log + [FromProxy(b), ToProxy(if b == [5, 0] then Connect else Auth)];
  }

  /** A successful authentication asks for the connection. */
  lemma AuthenticationAccepted(r: Relay, e: Ready, b: seq<byte>)
    requires r.state == Listen && r.socks5 == Auth && r.socket && Replies(e, b) && (b == [1, 0] || b == [5, 0])
    ensures Advanced(r, Step(r, Socket(e)), Connect, [FromProxy(b), ToProxy(Connect)])
  {
    hide WriteRst;
    assert b[..2] == b;
    assert r.log + [FromProxy(b)] + [ToProxy(Connect)] == r.log + [FromProxy(b), ToProxy(Connect)];
  }

  /** A granted connection: version 5, code 0, and an address of the session's family with its port. */
  predicate IsGrant(b: seq<byte>, ipv4: bool) {
    |b| == (if ipv4 then 10 else 22) && b[0] == 5 && b[1] == 0
  }

  /** The session answers the SYN, at index i of its log. */
  predicate SynAcked(r: Relay, q: Relay, i: nat) {
    && q.state == SynRecv && q.socket == r.socket
    && q.up == r.up.(seqno := U32(r.up.seqno + 1)) && q.down == r.down.(seqno := U32(r.down.seqno + 1))
    && i < |q.log| && q.log[i].ToTun? &&
    var p := q.log[i].packet;
    p.syn && p.ack && !p.rst && !p.fin && p.data == [] && p.seqno == r.down.seqno && p.ackSeq == U32(r.up.seqno + 1)
  }

  lemma ConnectionGranted(r: Relay, e: Ready, b: seq<byte>)
    requires r.state == Listen && r.socks5 == Connect && r.socket && Replies(e, b) && IsGrant(b, r.ipv4)
    ensures var q := Step(r, Socket(e));
      |q.log| == |r.log| + 2 && r.log + [FromProxy(b)] <= q.log && SynAcked(r, q, |r.log| + 1)
  {
    hide U32, U16, Shr, WriteRst;
    assert b[..|b|] == b;
  }

  /** The replies that carry a phase on. */
  predicate Accepted(phase: Socks, b: seq<byte>, ipv4: bool) {
    match phase
    case Hello => b == [5, 0] || b == [5, 2]
    case Auth => b == [1, 0] || b == [5, 0]
    case Connect => IsGrant(b, ipv4)
    case _ => false
  }

  /** Any other reply ends the session with a reset, and nothing more is sent to the proxy. */
  lemma ReplyRefused(r: Relay, e: Ready, b: seq<byte>)
    requires r.state == Listen && r.socks5 in {Hello, Auth, Connect} && r.socket && Replies(e, b)
    requires !Accepted(r.socks5, b, r.ipv4)
    ensures var q := Step(r, Socket(e));
      && q.state == Closing && |q.log| == |r.log| + 2 && r.log <= q.log && q.log[|r.log|].FromProxy?
      && Resets(q.log, |r.log| + 1, r)
  {
    hide U32, WriteRst;
    var c := b[..Min(|b|, 32)];
    var s := r.(log := r.log + [FromProxy(c)], socks5 := Refused);
    ShortReply(r.socks5, b, r.ipv4);
    RstIsReset(s);
    WriteRstShape(s);
    TwoBytes(c);
    assert ProxyReply(r.(log := r.log + [FromProxy(c)]), c) == WriteRst(s);
  }

  lemma ShortReply(phase: Socks, b: seq<byte>, ipv4: bool)
    requires !Accepted(phase, b, ipv4)
    ensures !Accepted(phase, b[..Min(|b|, 32)], ipv4)
  {
    if |b| <= 32 {
      assert b[..|b|] == b;
    }
  }

  lemma TwoBytes(c: seq<byte>)
    ensures |c| == 2 ==> c == [c[0], c[1]]
  {
  }

  // ----- from the SYN

  /** From a SYN: connecting, a proxy that asks for no authentication, and its grant lead to the answer of the SYN. */
  lemma OpensThroughProxy(p: Packet, ipv4: bool, mss: u16, scale: nat, isn: u32, buffer: nat, now: int,
                          e1: Ready, e2: Ready, e3: Ready, grant: seq<byte>)
    requires Works(e1) && e1.writable && e1.proxy && Replies(e2, [5, 0]) && Replies(e3, grant) && IsGrant(grant, ipv4)
    ensures var r0 := NewSession(p, ipv4, mss, scale, isn, buffer, true, now);
      var q := Run(r0, [Socket(e1), Socket(e2), Socket(e3)]);
      && |q.log| == 5 && SynAcked(r0, q, 4)
      && [ToProxy(Hello), FromProxy([5, 0]), ToProxy(Connect), FromProxy(grant)] <= q.log
  {
    hide Step, U32, Shl, ReceiveWindow;
    var r0 := NewSession(p, ipv4, mss, scale, isn, buffer, true, now);
    Greets(r0, e1);
    var r1 := Step(r0, Socket(e1));
    MethodChosen(r1, e2, [5, 0]);
    var r2 := Step(r1, Socket(e2));
    ConnectionGranted(r2, e3, grant);
    RunEach(r0, [Socket(e1), Socket(e2), Socket(e3)]);
    assert Run(r0, [Socket(e1), Socket(e2), Socket(e3)]) == Step(r2, Socket(e3));
  }

  /** So do a proxy that asks for authentication, its acceptance, and its grant. */
  lemma OpensWithAuthentication(p: Packet, ipv4: bool, mss: u16, scale: nat, isn: u32, buffer: nat, now: int,
                                e1: Ready, e2: Ready, e3: Ready, e4: Ready, ok: seq<byte>, grant: seq<byte>)
    requires Works(e1) && e1.writable && e1.proxy && Replies(e2, [5, 2]) && Replies(e3, ok) && (ok == [1, 0] || ok == [5, 0])
    requires Replies(e4, grant) && IsGrant(grant, ipv4)
    ensures var r0 := NewSession(p, ipv4, mss, scale, isn, buffer, true, now);
      var q := Run(r0, [Socket(e1), Socket(e2), Socket(e3), Socket(e4)]);
      && |q.log| == 7 && SynAcked(r0, q, 6)
      && [ToProxy(Hello), FromProxy([5, 2]), ToProxy(Auth), FromProxy(ok), ToProxy(Connect), FromProxy(grant)] <= q.log
  {
    hide Step, U32, Shl, ReceiveWindow;
    var r0 := NewSession(p, ipv4, mss, scale, isn, buffer, true, now);
    Greets(r0, e1);
    var r1 := Step(r0, Socket(e1));
    MethodChosen(r1, e2, [5, 2]);
    var r2 := Step(r1, Socket(e2));
    AuthenticationAccepted(r2, e3, ok);
    var r3 := Step(r2, Socket(e3));
    ConnectionGranted(r3, e4, grant);
    var events := [Socket(e1), Socket(e2), Socket(e3), Socket(e4)];
    RunEach(r0, events);
    RunEach(r1, events[1..]);
    assert events[1..] == [Socket(e2), Socket(e3), Socket(e4)];
  }

  /** A run of at least three events, unrolled three times. */
  lemma RunEach(r: Relay, events: seq<Event>)
    requires |events| >= 3
    ensures Run(r, events) == Run(Step(r, events[0]), events[1..])
    ensures Run(r, events) == Run(Step(Step(Step(r, events[0]), events[1]), events[2]), events[3..])
    ensures |events| == 3 ==> Run(r, events) == Step(Step(Step(r, events[0]), events[1]), events[2])
  {
    hide Step;
    var r1 := Step(r, events[0]);
    var r2 := Step(r1, events[1]);
    assert events[1..][1..] == events[2..] && events[2..][1..] == events[3..];
    assert Run(r1, events[1..]) == Run(r2, events[2..]);
    assert Run(r2, events[2..]) == Run(Step(r2, events[2]), events[3..]);
  }
}
