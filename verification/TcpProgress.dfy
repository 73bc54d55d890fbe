/** Where the forward queue makes progress, where overlapping segments and shorter copies stop it, and how a session opens
    and closes. */
module TcpProgress {
  import opened Serial
  import opened TcpModel
  import opened TcpShapes
  import opened TcpStates
  import opened TcpStream

  /** The first m segments follow each other without gap or overlap, from the position on. */
  predicate Chain(u: Up, m: nat)
    decreases m
  {
    m <= |u.forward| && (m > 0 ==>
      && u.forward[0].seqno == u.seqno
      && u.forward[0].sent <= |u.forward[0].data|
      && Chain(Take(u, |u.forward[0].data| - u.forward[0].sent), m - 1))
  }

  /** Bytes still to be sent of the first m segments. */
  function Left(f: seq<Segment>, m: nat): int
    requires m <= |f|
  {
    if m == 0 then 0 else |f[0].data| - f[0].sent + Left(f[1..], m - 1)
  }

  /** One writable event with room in the buffer and complete sends empties a chain. */
  lemma {:induction false} ForwardDrainsChain(u: Up, m: nat, buffer: int, sends: seq<SendResult>)
    requires Chain(u, m) && m <= |sends| && Left(u.forward, m) < buffer
    requires forall i :: 0 <= i < |sends| ==> sends[i].Sent? && sends[i].count >= 0x1_0000
    requires forall i :: 0 <= i < |u.forward| ==> |u.forward[i].data| < 0x1_0000
    requires forall i :: 1 <= i < m ==> u.forward[i].sent == 0
    ensures |Forward(u, buffer, sends).up.forward| <= |u.forward| - m
    ensures |Forward(u, buffer, sends).up.taken| >= |u.taken| + Left(u.forward, m)
    decreases m
  {
    hide Forward, U32;
    LeftNonNegative(u.forward, m);
    if m == 0 {
      ForwardGrows(u, buffer, sends);
    } else {
      var n := |u.forward[0].data| - u.forward[0].sent;
      LeftNonNegative(u.forward[1..], m - 1);
      ForwardOnce(u, buffer, sends);
      ForwardDrainsChain(Take(u, n), m - 1, buffer - n, sends[1..]);
    }
  }

  lemma {:induction false} LeftNonNegative(f: seq<Segment>, m: nat)
    requires m <= |f|
    requires m > 0 ==> f[0].sent <= |f[0].data|
    requires forall i :: 1 <= i < m ==> f[i].sent == 0
    ensures Left(f, m) >= 0
  {
    if m > 0 {
      LeftNonNegative(f[1..], m - 1);
    }
  }

  lemma {:induction false} ForwardGrows(u: Up, buffer: int, sends: seq<SendResult>)
    ensures |Forward(u, buffer, sends).up.forward| <= |u.forward|
    ensures |Forward(u, buffer, sends).up.taken| >= |u.taken|
    decreases |sends|
  {
    hide Forward, U32;
    ForwardOnce(u, buffer, sends);
    if sends != [] && HeadReady(u, buffer) && sends[0].Sent? {
      var n := Min(sends[0].count, |u.forward[0].data| - u.forward[0].sent);
      ForwardGrows(Take(u, n), buffer - n, sends[1..]);
    }
  }

  /** The head of the queue is not next in line: it lies behind the position, or beyond a gap. */
  predicate Stalled(r: Relay) {
    && r.state !in {Listen, FinWait1}
    && (r.state == Close ==> !r.socket)
    && r.up.forward != [] && r.up.forward[0].seqno != r.up.seqno
  }

  /** Data that queue_tcp puts before the head. */
  predicate Overtakes(r: Relay, e: Event) {
    && e.Tun? && e.p.data != [] && r.up.forward != []
    && CompareU32(e.p.seqno, r.up.seqno) >= 0 && CompareU32(r.up.forward[0].seqno, e.p.seqno) > 0
  }

  predicate RunOvertaken(r: Relay, events: seq<Event>)
    decreases |events|
  {
    events != [] && (Overtakes(r, events[0]) || RunOvertaken(Step(r, events[0]), events[1..]))
  }

  /** Nothing within 2^30 of the position is put before a head that is next in line or behind. */
  lemma NearNeverOvertakes(r: Relay, e: Event)
    requires r.up.forward != [] && -0x4000_0000 < Diff(r.up.forward[0].seqno, r.up.seqno) <= 0
    requires e.Tun? ==> -0x4000_0000 < Diff(e.p.seqno, r.up.seqno) < 0x4000_0000
    ensures !Overtakes(r, e)
  {
    hide U32, Diff, CompareU32;
    if e.Tun? {
      DiffSelf(r.up.seqno);
      CompareByDistance(e.p.seqno, r.up.seqno, r.up.seqno);
      CompareByDistance(r.up.forward[0].seqno, e.p.seqno, r.up.seqno);
    }
  }

  // ----- overlapping segments

  /** Draining the head stalls the queue if and only if the next segment overlaps it. */
  lemma OverlapStalls(u: Up, n: nat, pos: int, k: int, stream: seq<byte>)
    requires UpAt(u, pos, k, stream)
    requires |u.forward| > 1 && u.forward[0].seqno == u.seqno
    requires u.forward[0].sent + n == |u.forward[0].data|
    ensures Diff(Take(u, n).forward[0].seqno, Take(u, n).seqno) < 0 <==>
            Diff(u.forward[1].seqno, u.seqno) < |u.forward[0].data|
  {
    hide U32, Diff;
    var h := u.forward[0];
    assert Fits(h, u.seqno, pos, stream) && Fits(u.forward[1], u.seqno, pos, stream);
    FitsShift(u.forward[1], u.seqno, pos, |h.data|, stream);
    assert Take(u, n).forward[0] == u.forward[1];
  }

  lemma QueueBehindHead(u: Up, p: Packet)
    requires u.forward != []
    requires CompareU32(p.seqno, u.seqno) < 0 || CompareU32(u.forward[0].seqno, p.seqno) <= 0
    ensures var v := QueueTcp(u, p);
      && v.seqno == u.seqno && v.taken == u.taken && v.forward != []
      && v.forward[0].seqno == u.forward[0].seqno && v.forward[0].sent == u.forward[0].sent
  {
    hide CompareU32;
  }

  lemma StallFlags(r: Relay, p: Packet, ackOk: bool)
    requires Stalled(r) && r.state != Close
    ensures Stalled(HandleFlags(r, p, ackOk)) && HandleFlags(r, p, ackOk).up == r.up
  {
    hide U32, Diff, WriteRst, CompareU32;
    WriteRstShape(r);
  }

  lemma StallTun(r: Relay, e: Event)
    requires Stalled(r) && !Overtakes(r, e) && e.Tun?
    ensures Stalled(Step(r, e)) && Step(r, e).up.taken == r.up.taken
  {
    hide U32, CompareU32, WriteRst, QueueTcp, HandleFlags;
    var h := Heard(r, e.p, e.now);
    WriteRstShape(r);
    WriteRstShape(h);
    if r.state != Close {
      if e.p.data == [] {
        StallFlags(h, e.p, e.ackOk);
      } else {
        QueueBehindHead(r.up, e.p);
        StallFlags(h.(up := QueueTcp(r.up, e.p)), e.p, e.ackOk);
      }
    }
  }

  lemma StallSocket(r: Relay, e: Ready)
    requires Stalled(r) && r.socket
    ensures Stalled(CheckTcpSocket(r, e)) && CheckTcpSocket(r, e).up.taken == r.up.taken
  {
    hide U32, WriteRst, SendWindow, TcpPacket, ForwardStep, Acknowledge;
    WriteRstShape(At(r, e.now));
    var f := if e.writable then Forward(r.up, e.buffer, e.sends) else Forwarded(r.up, 0, false, false);
    assert f == Forwarded(r.up, 0, false, false);
    AcknowledgeShape(r, f, e);
    WriteRstShape(At(Acknowledge(ForwardStep(r, f), f.fwd, e), e.now));
  }

  lemma StallStep(r: Relay, e: Event)
    requires Stalled(r) && !Overtakes(r, e)
    ensures Stalled(Step(r, e)) && Step(r, e).up.taken == r.up.taken
  {
    hide U32, Diff, WriteRst, SendWindow, HeadReady, Timeout, KeepAlive, HandleTcp, CheckTcpSocket;
    match e
    case Tun(p, _, _, _) =>
      StallTun(r, e);
    case Socket(ready) =>
      if r.socket {
        StallSocket(r, ready);
      }
    case Monitor(_, ms, _, ackOk) =>
      KeepAliveShape(r, ms, ackOk);
    case _ =>
      WriteRstShape(r);
  }

  /** A stalled session never forwards another byte, whatever happens, until data is put before its head. */
  lemma {:induction false} StalledForever(r: Relay, events: seq<Event>)
    requires Stalled(r) && !RunOvertaken(r, events)
    ensures Run(r, events).up.taken == r.up.taken
    decreases |events|
  {
    hide Step, Stalled, Overtakes;
    if events != [] {
      StallStep(r, events[0]);
      StalledForever(Step(r, events[0]), events[1..]);
    }
  }

  // ----- when the queue can move at all

  /** Forwarding with this buffer and these results of send changes the queue. */
  predicate Moves(u: Up, buffer: int, sends: seq<SendResult>) {
    Forward(u, buffer, sends).up != u
  }

  /** A queue can move, for some buffer and some results of send, if and only if its head is next in line and no more of
      it was sent than it holds. */
  lemma MovesExactly(u: Up)
    ensures (exists buffer, sends :: Moves(u, buffer, sends)) <==>
            u.forward != [] && u.forward[0].seqno == u.seqno && u.forward[0].sent <= |u.forward[0].data|
  {
    if u.forward != [] && u.forward[0].seqno == u.seqno && u.forward[0].sent <= |u.forward[0].data| {
      var n := |u.forward[0].data| - u.forward[0].sent;
      assert Forward(Take(u, n), 1, []).up == Take(u, n);
      assert Forward(u, n + 1, [Sent(n)]).up == Take(u, n);
      assert |Take(u, n).forward| < |u.forward|;
      assert Moves(u, n + 1, [Sent(n)]);
    }
  }

  /** A copy of a partly sent head keeps it moving if and only if it is no shorter than what was sent: with less, the
      queue stands until a longer copy comes. */
  lemma ShorterCopyStalls(u: Up, p: Packet)
    requires u.forward != [] && u.forward[0].seqno == u.seqno == p.seqno && u.forward[0].sent <= |u.forward[0].data|
    ensures (exists buffer, sends :: Moves(QueueTcp(u, p), buffer, sends)) <==> u.forward[0].sent <= |p.data|
  {
    hide Moves;
    MovesExactly(QueueTcp(u, p));
  }

  // ----- the life of a session

  /** A segment that only acknowledges, or carries data. */
  predicate Plain(p: Packet) {
    p.ack && !p.urg && !p.rst && !p.syn && !p.fin
  }

  /** A quiet epoll event: no error, and all writes succeed. */
  predicate Fine(e: Ready) {
    !e.error && e.ackOk && e.writeOk
  }

  /** Without a proxy: the connected socket answers the SYN, and its acknowledgement establishes the session. */
  lemma Opens(p: Packet, ipv4: bool, mss: u16, scale: nat, isn: u32, buffer: nat, now: int, e: Ready, ack: Event)
    requires Fine(e) && e.writable && !e.proxy
    requires ack.Tun? && ack.allowed && Plain(ack.p) && ack.p.data == [] && ack.p.ackSeq == U32(isn + 1)
    ensures var r0 := NewSession(p, ipv4, mss, scale, isn, buffer, true, now);
      var r1 := Step(r0, Socket(e));
      var r2 := Step(r1, ack);
      && r1.state == SynRecv && |r1.log| == 1 && r1.book.time == e.now
      && r1.log[0].ToTun? && r1.log[0].packet.syn && r1.log[0].packet.ack
      && r1.log[0].packet.seqno == isn && r1.log[0].packet.ackSeq == U32(p.seqno + 1)
      && r2.state == Established && r2.socket && r2.log == r1.log
      && r2.up == r0.up.(seqno := U32(p.seqno + 1))
      && r2.down == Down(isn, U32(isn + 1), U32(isn + 1), U32(Shl(ack.p.window, scale)), 0, mss, scale, [])
  {
    hide U32, ReceiveWindow, Shl, Shr, Step;
    var r0 := NewSession(p, ipv4, mss, scale, isn, buffer, true, now);
    SynAnswered(r0, e);
    AckEstablishes(Step(r0, Socket(e)), ack);
  }

  lemma SynAnswered(r: Relay, e: Ready)
    requires r.state == Listen && r.socks5 == NotConnected && r.socket && Fine(e) && e.writable && !e.proxy
    ensures var q := Step(r, Socket(e));
      && q.state == SynRecv && q.socket && q.up == CountRemote(r, 1).up && q.down == CountLocal(r, 1).down
      && q.book.time == e.now
      && |q.log| == |r.log| + 1 && q.log[|r.log|].ToTun? && q.log[|r.log|].packet.syn && q.log[|r.log|].packet.ack
      && q.log[|r.log|].packet.seqno == r.down.seqno && q.log[|r.log|].packet.ackSeq == U32(r.up.seqno + 1)
  {
    hide U32, U16, Shr;
  }

  lemma AckEstablishes(r: Relay, ack: Event)
    requires r.state == SynRecv
    requires ack.Tun? && ack.allowed && Plain(ack.p) && ack.p.data == [] && ack.p.ackSeq == r.down.seqno
    ensures var q := Step(r, ack);
      && q.state == Established && q.socket == r.socket && q.log == r.log && q.up == r.up
      && q.down == r.down.(acked := r.down.seqno, window := U32(Shl(ack.p.window, r.down.scale)), unconfirmed := 0)
  {
    hide U32, Shl;
  }

  /** A segment in order, followed by a writable event with room, reaches the server whole and is acknowledged. */
  lemma DeliversInOrder(r: Relay, t: Event, e: Ready)
    requires r.state == Established && r.socket && r.up.forward == []
    requires t.Tun? && t.allowed && Plain(t.p) && t.p.ackSeq == r.down.seqno
    requires t.p.seqno == r.up.seqno && 0 < |t.p.data| < e.buffer
    requires Fine(e) && e.writable && !e.readable && e.sends == [Sent(|t.p.data|)]
    ensures var q := Step(Step(r, t), Socket(e));
      && q.state == Established && q.up.forward == []
      && q.up.taken == r.up.taken + t.p.data
      && q.up.seqno == U32(r.up.seqno + |t.p.data|)
      && q.book.time == e.now && q.book.sent == r.book.sent + |t.p.data|
      && |q.log| == |r.log| + 1
      && q.log[|r.log|].ToTun? && q.log[|r.log|].packet.ack && q.log[|r.log|].packet.ackSeq == q.up.seqno
  {
    hide U32, ReceiveWindow, Shl, Shr, SendWindow;
    var s := Step(r, t);
    assert s.up.forward == [Segment(t.p.seqno, t.p.data, 0, t.p.psh)];
    assert s.state == Established && s.log == r.log && s.up.taken == r.up.taken && s.up.seqno == r.up.seqno;
    hide HandleTcp;
    assert t.p.data[0..|t.p.data|] == t.p.data;
    var f := Forward(s.up, e.buffer, e.sends);
    var u := Take(s.up, |t.p.data|);
    assert Forward(u, e.buffer - |t.p.data|, e.sends[1..]) == Forwarded(u, 0, false, false);
    assert f.fwd && !f.failed && f.up == Up(s.up.start, U32(s.up.seqno + |t.p.data|), [], s.up.taken + t.p.data);
  }

  /** What the server sends goes to the application at once, as far as the window and the segment size allow. */
  lemma RelaysData(r: Relay, e: Ready)
    requires r.state == Established && r.socket && SendWindow(r.down) > 0 && r.down.mss > 0
    requires Fine(e) && !e.writable && e.readable && e.recv.Received? && e.recv.bytes != []
    ensures var q := Step(r, Socket(e));
      var n := Min(|e.recv.bytes|, Min(SendWindow(r.down), r.down.mss));
      && n > 0 && q.state == Established && q.socket && q.up == r.up
      && q.book.time == e.now && q.book.received == r.book.received + n
      && q.down == r.down.(read := r.down.read + e.recv.bytes[..n], seqno := U32(r.down.seqno + n),
                           unconfirmed := U16(r.down.unconfirmed + 1))
      && q.log != [] && q.log[|q.log| - 1].ToTun? && q.log[|q.log| - 1].packet.data == e.recv.bytes[..n]
      && q.log[|q.log| - 1].packet.seqno == r.down.seqno
  {
    hide U32, U16, ReceiveWindow, TcpPacket, SendWindow, ServerData, ServerEof, Forward, ForwardStep, WriteRst, Acknowledge;
    var f := Forwarded(r.up, 0, false, false);
    var a := At(Acknowledge(ForwardStep(r, f), f.fwd, e), e.now);
    var data := e.recv.bytes[..Min(|e.recv.bytes|, Min(SendWindow(r.down), r.down.mss))];
    IdleAcknowledge(r, e);
    ServerDataShape(a, data, true);
    ServerDataCounts(a, data);
    PacketFields(a, data);
  }

  lemma ServerDataCounts(r: Relay, data: seq<byte>)
    requires r.state == Established
    ensures ServerData(r, data, true).state == Established
    ensures ServerData(r, data, true).book == r.book.(received := r.book.received + |data|)
  {
    hide U32, U16, TcpPacket;
  }

  lemma PacketFields(r: Relay, data: seq<byte>)
    ensures var p := TcpPacket(r, false, true, false, false, data);
      p.seqno == r.down.seqno && p.data == data
  {
    hide U16, Shr;
  }

  predicate FinPacket(t: Event, r: Relay) {
    t.Tun? && t.allowed && t.ackOk && t.p.ack && t.p.fin && !t.p.urg && !t.p.rst && !t.p.syn && t.p.data == [] &&
    t.p.ackSeq == r.down.seqno
  }

  predicate EofEvent(e: Ready) {
    Fine(e) && !e.writable && e.readable && e.recv == Received([])
  }

  lemma EofStep(r: Relay, e: Ready)
    requires r.state in {Established, CloseWait} && r.socket && r.up.forward == [] && SendWindow(r.down) > 0
    requires EofEvent(e)
    ensures var q := Step(r, Socket(e));
      && q.state == (if r.state == Established then FinWait1 else LastAck)
      && !q.socket && q.up == r.up && q.down.seqno == U32(r.down.seqno + 1)
  {
    hide U32, ReceiveWindow, TcpPacket, SendWindow, ServerEof, Forward, ForwardStep, WriteRst, Acknowledge;
    var f := Forwarded(r.up, 0, false, false);
    var a := Acknowledge(ForwardStep(r, f), f.fwd, e);
    IdleAcknowledge(r, e);
    ServerEofShape(At(a, e.now), e.writeOk);
    ServerEofCounts(At(a, e.now));
  }

  lemma IdleAcknowledge(r: Relay, e: Ready)
    requires e.ackOk
    ensures var f := Forwarded(r.up, 0, false, false);
      var a := Acknowledge(ForwardStep(r, f), f.fwd, e);
      && a.state == r.state && a.up == r.up && a.down == r.down && a.socket == r.socket
      && a.book.sent == r.book.sent && a.book.received == r.book.received
  {
    hide U32, ReceiveWindow, TcpPacket;
  }

  lemma ServerEofCounts(r: Relay)
    requires r.state in {Established, CloseWait} && r.up.forward == []
    ensures ServerEof(r, true).state != Closing
  {
    hide U32, TcpPacket;
  }

  lemma FinStep(r: Relay, t: Event)
    requires r.state in {Established, FinWait1} && r.up.forward == [] && FinPacket(t, r)
    ensures var q := Step(r, t);
      && q.state == (if r.state == Established then CloseWait else Close)
      && q.socket == r.socket && q.up == CountRemote(r, 1).up && q.down.seqno == r.down.seqno
  {
    hide U32, Shl, TcpPacket;
  }

  /** Whoever closes first, an idle session with both FINs and the last acknowledgement ends closed. */
  lemma ClosesServerFirst(r: Relay, e: Ready, t: Event)
    requires r.state == Established && r.socket && r.up.forward == [] && SendWindow(r.down) > 0
    requires EofEvent(e) && FinPacket(t, Step(r, Socket(e)))
    ensures Step(Step(r, Socket(e)), t).state == Close
  {
    hide Step;
    EofStep(r, e);
    FinStep(Step(r, Socket(e)), t);
  }

  lemma ClosesApplicationFirst(r: Relay, t: Event, e: Ready, a: Event, now: int, sessions: nat, maxSessions: pos)
    requires r.state == Established && r.socket && r.up.forward == [] && FinPacket(t, r)
    requires EofEvent(e) && SendWindow(Step(r, t).down) > 0
    requires a.Tun? && a.allowed && Plain(a.p) && a.p.data == []
    requires a.p.ackSeq == Step(Step(r, t), Socket(e)).down.seqno
    ensures var q := Step(Step(Step(r, t), Socket(e)), a);
      q.state == Closing && Step(q, Check(now, sessions, maxSessions)).state == Close
  {
    FinStep(r, t);
    EofStep(Step(r, t), e);
    var l := Step(Step(r, t), Socket(e));
    hide CheckTcpSocket, U32, Shl;
    assert l.state == LastAck;
    assert HandleTcp(l, a.p, a.allowed, a.ackOk, a.now).state == Closing;
  }
}
