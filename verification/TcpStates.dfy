/** The state machine of a session, over every run and whatever the packets carry: which changes of state one event can
    make, that none goes back, and which states have a socket or a queue. */
module TcpStates {
  import opened Serial
  import opened TcpModel
  import opened TcpShapes

  function Rank(s: State): nat {
    match s
    case Listen => 0
    case SynRecv => 1
    case Established => 2
    case CloseWait => 3
    case FinWait1 => 3
    case LastAck => 4
    case Closing => 5
    case Close => 6
  }

  /** The changes of state that one event can make. */
  predicate Edge(a: State, b: State) {
    || a == b
    || (b == Closing && a != Close)
    || b == Close
    || (a == Listen && b == SynRecv)
    || (a == SynRecv && b == Established)
    || (a == Established && b in {CloseWait, FinWait1})
    || (a == CloseWait && b == LastAck)
  }

  /** Which states have a socket, and which have an empty queue. */
  predicate Sane(r: Relay) {
    match r.state
    case Listen => r.socket && r.socks5 in {NotConnected, Hello, Auth, Connect}
    case SynRecv | Established | CloseWait => r.socket
    case FinWait1 | LastAck => !r.socket && r.up.forward == []
    case Closing => true
    case Close => !r.socket
  }

  // ----- packets from the application

  /** The changes of state that a packet from the application can make. */
  predicate PacketEdge(a: State, b: State) {
    b == a || (b == Closing && a != Close) || (a, b) in {(SynRecv, Established), (Established, CloseWait), (FinWait1, Close)}
  }

  lemma HandleFlagsMoves(r: Relay, p: Packet, ackOk: bool)
    requires r.state != Close
    ensures var q := HandleFlags(r, p, ackOk);
      && PacketEdge(r.state, q.state)
      && q.socket == r.socket && q.socks5 == r.socks5 && q.ipv4 == r.ipv4
      && q.up.forward == r.up.forward && q.up.start == r.up.start
  {
    hide U32, CompareU32, WriteRst, TcpPacket;
    WriteRstShape(r);
  }

  lemma QueueTcpStart(u: Up, p: Packet)
    ensures QueueTcp(u, p).start == u.start
  {
  }

  lemma HandleTcpMoves(r: Relay, p: Packet, allowed: bool, ackOk: bool, now: int)
    ensures var q := HandleTcp(r, p, allowed, ackOk, now);
      && PacketEdge(r.state, q.state)
      && q.socket == r.socket && q.socks5 == r.socks5 && q.ipv4 == r.ipv4
      && (!r.socket ==> q.up.forward == r.up.forward) && q.up.start == r.up.start
  {
    QueueTcpStart(r.up, p);
    hide U32, QueueTcp, HandleFlags, WriteRst, Shl;
    var h := Heard(r, p, now);
    WriteRstShape(r);
    WriteRstShape(h);
    if r.state != Close {
      HandleFlagsMoves(h, p, ackOk);
      HandleFlagsMoves(h.(up := QueueTcp(r.up, p)), p, ackOk);
    }
  }

  // ----- events of the socket

  /** The changes of state that an event of the socket can make. */
  predicate SocketEdge(a: State, b: State) {
    b == a || (b == Closing && a != Close) || (a, b) in {(Listen, SynRecv), (Established, FinWait1), (CloseWait, LastAck)}
  }

  lemma SocketMoves(r: Relay, e: Ready)
    requires Sane(r) && r.socket
    ensures var q := CheckTcpSocket(r, e);
      && SocketEdge(r.state, q.state)
      && Sane(q) && q.ipv4 == r.ipv4
  {
    hide U32, Forward, WriteRst, ProxySend, ProxyReceive, Acknowledge, ForwardStep, ReadServer, SendWindow;
    WriteRstShape(At(r, e.now));
    if r.state == Listen {
      ProxyReceiveShape(r, e);
      ProxySendShape(ProxyReceive(r, e), e);
    } else {
      var f := if e.writable then Forward(r.up, e.buffer, e.sends) else Forwarded(r.up, 0, false, false);
      AcknowledgeShape(r, f, e);
      ReadServerShape(Acknowledge(ForwardStep(r, f), f.fwd, e), e);
    }
  }

  // ----- every event

  /** Every event moves the state along an edge and keeps the session sane. */
  lemma StepEdge(r: Relay, e: Event)
    requires Sane(r)
    ensures Edge(r.state, Step(r, e).state) && Sane(Step(r, e))
    ensures Step(r, e).socket ==> r.socket
    ensures Step(r, e).ipv4 == r.ipv4
  {
    hide U32, HandleTcp, CheckTcpSocket, WriteRst, KeepAlive, SendWindow, HeadReady, Timeout;
    match e
    case Tun(p, allowed, ackOk, now) =>
      HandleTcpMoves(r, p, allowed, ackOk, now);
    case Socket(ready) =>
      if r.socket {
        SocketMoves(r, ready);
      }
    case Monitor(_, ms, _, ackOk) =>
      KeepAliveShape(r, ms, ackOk);
    case _ =>
      WriteRstShape(r);
  }

  lemma EdgeRaisesRank(a: State, b: State)
    requires Edge(a, b)
    ensures a == b || Rank(a) < Rank(b)
  {
  }

  // ----- whole runs

  /** Any SYN, with payload or not, allowed or not, opens a sane session. */
  lemma NewSessionSane(p: Packet, ipv4: bool, mss: u16, scale: nat, isn: u32, buffer: nat, allowed: bool, now: int)
    ensures Sane(NewSession(p, ipv4, mss, scale, isn, buffer, allowed, now))
  {
    hide U32, ReceiveWindow, Shl, WriteRst;
    WriteRstShape(NewSession(p, ipv4, mss, scale, isn, buffer, true, now));
  }

  lemma {:induction false} RunNeverGoesBack(r: Relay, events: seq<Event>)
    requires Sane(r)
    ensures Sane(Run(r, events))
    ensures Run(r, events).state == r.state || Rank(r.state) < Rank(Run(r, events).state)
    decreases |events|
  {
    hide Step, Sane, Rank, Edge;
    if events != [] {
      StepEdge(r, events[0]);
      EdgeRaisesRank(r.state, Step(r, events[0]).state);
      RunNeverGoesBack(Step(r, events[0]), events[1..]);
    }
  }

  lemma {:induction false} RunInParts(r: Relay, before: seq<Event>, after: seq<Event>)
    ensures Run(r, before + after) == Run(Run(r, before), after)
    decreases |before|
  {
    hide Step;
    if before == [] {
      assert before + after == after;
    } else {
      assert (before + after)[1..] == before[1..] + after;
      RunInParts(Step(r, before[0]), before[1..], after);
    }
  }

  lemma RunOneMore(r: Relay, events: seq<Event>, e: Event)
    ensures Run(r, events + [e]) == Step(Run(r, events), e)
  {
    hide Step;
    RunInParts(r, events, [e]);
    assert Run(Run(r, events), [e]) == Run(Step(Run(r, events), e), []);
  }

  /** No session ever reopens: at any two moments of any run from any SYN, the state is the same or its rank has risen. */
  lemma NoSessionReopens(p: Packet, ipv4: bool, mss: u16, scale: nat, isn: u32, buffer: nat, allowed: bool, now: int,
                         before: seq<Event>, after: seq<Event>)
    ensures var r0 := NewSession(p, ipv4, mss, scale, isn, buffer, allowed, now);
      var r, q := Run(r0, before), Run(r0, before + after);
      q.state == r.state || Rank(r.state) < Rank(q.state)
  {
    hide NewSession, Rank, Sane;
    var r0 := NewSession(p, ipv4, mss, scale, isn, buffer, allowed, now);
    NewSessionSane(p, ipv4, mss, scale, isn, buffer, allowed, now);
    RunNeverGoesBack(r0, before);
    RunNeverGoesBack(Run(r0, before), after);
    RunInParts(r0, before, after);
  }

  /** In every run from any SYN: FIN_WAIT1 and LAST_ACK have no socket and an empty queue, CLOSE has no socket, and the
      states up to CLOSE_WAIT have one. */
  lemma SocketsByState(p: Packet, ipv4: bool, mss: u16, scale: nat, isn: u32, buffer: nat, allowed: bool, now: int,
                       events: seq<Event>)
    ensures var r := Run(NewSession(p, ipv4, mss, scale, isn, buffer, allowed, now), events);
      && (r.state in {FinWait1, LastAck} ==> !r.socket && r.up.forward == [])
      && (r.state == Close ==> !r.socket)
      && (r.state in {Listen, SynRecv, Established, CloseWait} ==> r.socket)
  {
    hide NewSession;
    NewSessionSane(p, ipv4, mss, scale, isn, buffer, allowed, now);
    RunNeverGoesBack(NewSession(p, ipv4, mss, scale, isn, buffer, allowed, now), events);
  }
}
