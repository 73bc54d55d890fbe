/** What a session does when something goes wrong, what it makes of the packets it hears, and what it announces and
    watches: each said of the whole step, from the outside. */
module TcpAnswers {
  import opened Serial
  import opened TcpModel
  import opened TcpShapes
  import opened TcpStates
  import opened TcpDown

  // ----- resets

  /** Entry i of the log resets session r: no data, our number, and in LISTEN an acknowledgement of the SYN. */
  predicate Resets(log: seq<Effect>, i: nat, r: Relay) {
    i < |log| && log[i].ToTun? &&
    var p := log[i].packet;
    && p.rst && !p.syn && !p.fin && p.data == [] && p.seqno == r.down.seqno
    && (p.ack <==> r.state == Listen) && (r.state == Listen ==> p.ackSeq == U32(r.up.seqno + 1))
  }

  /** All that happened to session r is a reset, with the SYN counted in LISTEN: it is closing, its socket is still open
      and its queue is as it was. */
  predicate ResetOnly(r: Relay, q: Relay) {
    && q.state == Closing && q.socket == r.socket
    && r.log <= q.log && |q.log| == |r.log| + 1 && Resets(q.log, |r.log|, r)
    && q.up == r.up.(seqno := if r.state == Listen then U32(r.up.seqno + 1) else r.up.seqno)
  }

  lemma RstIsReset(r: Relay)
    requires r.state != Close
    ensures ResetOnly(r, WriteRst(r)) && WriteRst(r).down == r.down && WriteRst(r).book == r.book
    ensures WriteRst(r).recvWindow == r.recvWindow
  {
    hide U32, U16, Shr;
  }

  lemma RstWritten(r: Relay)
    ensures var w := WriteRst(r);
      r.log <= w.log && |w.log| == |r.log| + 1 && Resets(w.log, |r.log|, r)
  {
    hide U32, U16, Shr;
  }

  /** An error on the socket, such as a refused connection, resets the session. */
  lemma SocketErrorResets(r: Relay, e: Ready)
    requires r.socket && r.state != Close && e.error
    ensures var q := Step(r, Socket(e));
      ResetOnly(r, q) && q.down == r.down && q.book.time == e.now
  {
    hide WriteRst;
    RstIsReset(At(r, e.now));
  }

  /** A send that fails for good resets the session; no other packet is written unless a closed window opens. */
  lemma SendErrorResets(r: Relay, e: Ready)
    requires r.socket && r.state in {SynRecv, Established, CloseWait} && !e.error && e.writable
    requires r.up.forward != [] && r.up.forward[0].seqno == r.up.seqno
    requires 0 <= |r.up.forward[0].data| - r.up.forward[0].sent < e.buffer
    requires e.sends != [] && e.sends[0] == SendFailed
    ensures var q := Step(r, Socket(e));
      && q.state == Closing && q.up == r.up && q.down == r.down && Resets(q.log, |r.log|, r)
      && (r.recvWindow > 0 ==> ResetOnly(r, q))
  {
    hide U32, ReceiveWindow, WriteRst, Shr;
    var f := Forward(r.up, e.buffer, e.sends);
    assert f == Forwarded(r.up, 0, false, true);
    hide Forward;
    var s := ForwardStep(r, f);
    WriteRstShape(r);
    RstIsReset(r);
    assert s == WriteRst(r) by { NothingSent(r, f); }
    ClosedReads(Acknowledge(s, false, e), e);
    AcknowledgeKeeps(s, e);
  }

  lemma NothingSent(r: Relay, f: Forwarded)
    requires f == Forwarded(r.up, 0, false, true)
    ensures ForwardStep(r, f) == WriteRst(r)
  {
    hide WriteRst;
    assert r.(up := r.up, book := r.book.(sent := r.book.sent + 0)) == r;
  }

  lemma ClosedReads(r: Relay, e: Ready)
    requires r.state !in {Established, CloseWait}
    ensures ReadServer(r, e) == r
  {
    hide SendWindow;
  }

  /** Without a send, an acknowledgement is written if and only if a closed window opens. */
  lemma AcknowledgeKeeps(s: Relay, e: Ready)
    requires s.state == Closing
    ensures var a := Acknowledge(s, false, e);
      && a.state == Closing && a.up == s.up && a.down == s.down && a.socket == s.socket && s.log <= a.log
      && (s.recvWindow > 0 ==> a.log == s.log)
  {
    hide U32, ReceiveWindow, TcpPacket;
  }

  /** A read that fails resets the session. */
  lemma ReceiveErrorResets(r: Relay, e: Ready)
    requires r.socket && r.state in {Established, CloseWait} && SendWindow(r.down) > 0 && r.recvWindow > 0
    requires !e.error && !e.writable && e.readable && e.recv == RecvFailed
    ensures var q := Step(r, Socket(e));
      ResetOnly(r, q) && q.down == r.down && q.book.time == e.now
  {
    hide U32, ReceiveWindow, WriteRst, SendWindow, TcpPacket;
    var f := Forwarded(r.up, 0, false, false);
    var a := Acknowledge(ForwardStep(r, f), f.fwd, e);
    assert a.state == r.state && a.up == r.up && a.down == r.down && a.log == r.log && a.socket == r.socket;
    RstIsReset(At(a, e.now));
  }

  /** A message to the proxy that cannot be sent resets the session. */
  lemma ProxySendErrorResets(r: Relay, e: Ready)
    requires r.socket && r.state == Listen && r.socks5 in {Hello, Auth, Connect}
    requires !e.error && !e.readable && !e.proxySendOk
    ensures var q := Step(r, Socket(e));
      && q.state == Closing && |q.log| == |r.log| + 2 && r.log + [ToProxy(r.socks5)] <= q.log
      && Resets(q.log, |r.log| + 1, r) && q.up.seqno == U32(r.up.seqno + 1)
  {
    hide U32, WriteRst;
    RstIsReset(r.(log := r.log + [ToProxy(r.socks5)]));
  }

  /** A read from the proxy that fails resets the session. */
  lemma ProxyReceiveErrorResets(r: Relay, e: Ready)
    requires r.socket && r.state == Listen && r.socks5 in {Hello, Auth, Connect}
    requires !e.error && e.readable && !e.recv.Received?
    ensures var q := Step(r, Socket(e));
      q.state == Closing && Resets(q.log, |r.log|, r) && q.up.seqno == U32(r.up.seqno + 1)
  {
    hide U32, WriteRst;
    RstIsReset(r);
    var s := WriteRst(r);
    WriteRstShape(r);
    var m := s.(log := s.log + [ToProxy(s.socks5)]);
    RstWritten(m);
    WriteRstShape(m);
  }

  // ----- failed writes

  /** Of what was written since r, whatever failed has left the session closing. */
  predicate FailsClosing(r: Relay, q: Relay) {
    && r.log <= q.log
    && forall i :: |r.log| <= i < |q.log| && q.log[i].ToTun? && !q.log[i].ok ==> q.state == Closing
  }

  lemma RstFails(r: Relay)
    ensures FailsClosing(r, WriteRst(r))
    ensures forall i :: |r.log| <= i < |WriteRst(r).log| ==> WriteRst(r).log[i].ToTun? && WriteRst(r).log[i].ok
  {
    hide U32, TcpPacket;
  }

  lemma MonitorFails(r: Relay, buffer: nat, ms: int, epollOk: bool, ackOk: bool)
    ensures FailsClosing(r, MonitorTcpSession(r, buffer, ms, epollOk, ackOk))
  {
    hide U32, TcpPacket, SendWindow, HeadReady;
  }

  lemma FailsAfter(r: Relay, s: Relay, q: Relay)
    requires FailsClosing(r, s) && FailsClosing(s, q) && (s.state == Closing ==> q.state == Closing)
    ensures FailsClosing(r, q)
  {
    forall i | |r.log| <= i < |q.log| && q.log[i].ToTun? && !q.log[i].ok
      ensures q.state == Closing
    {
      if i < |s.log| {
        assert q.log[i] == s.log[i];
      }
    }
  }

  lemma PacketFails(r: Relay, p: Packet, allowed: bool, ackOk: bool, now: int)
    ensures FailsClosing(r, HandleTcp(r, p, allowed, ackOk, now))
  {
    hide U32, CompareU32, WriteRst, QueueTcp, Shl, HandleFlags;
    var h := Heard(r, p, now);
    RstFails(r);
    RstFails(h);
    FlagsFail(h, p, ackOk);
    FlagsFail(h.(up := QueueTcp(r.up, p)), p, ackOk);
  }

  lemma FlagsFail(r: Relay, p: Packet, ackOk: bool)
    ensures FailsClosing(r, HandleFlags(r, p, ackOk))
  {
    hide U32, CompareU32, WriteRst, TcpPacket;
    RstFails(r);
  }

  lemma OpeningFails(r: Relay, e: Ready)
    requires r.state == Listen && Sane(r)
    ensures FailsClosing(r, ProxySend(ProxyReceive(r, e), e))
  {
    hide U32, WriteRst, TcpPacket;
    var s := ProxyReceive(r, e);
    ReceiveFails(r, e);
    ProxyReceiveShape(r, e);
    var m := s.(log := s.log + [ToProxy(s.socks5)]);
    RstFails(m);
    WriteRstShape(m);
    hide ProxyReceive;
    assert FailsClosing(s, ProxySend(s, e));
    FailsAfter(r, s, ProxySend(s, e));
  }

  lemma ReceiveFails(r: Relay, e: Ready)
    requires r.state == Listen
    ensures FailsClosing(r, ProxyReceive(r, e))
  {
    hide U32, WriteRst;
    RstFails(r);
    if r.socks5 != NotConnected && e.readable && e.recv.Received? {
      var b := e.recv.bytes[..Min(|e.recv.bytes|, 32)];
      RstFails(r.(log := r.log + [FromProxy(b)], socks5 := Refused));
    }
  }

  lemma DataFails(r: Relay, e: Ready)
    requires r.state !in {Listen, Close}
    ensures var f := if e.writable then Forward(r.up, e.buffer, e.sends) else Forwarded(r.up, 0, false, false);
      FailsClosing(r, ReadServer(Acknowledge(ForwardStep(r, f), f.fwd, e), e))
  {
    hide U32, Forward, ReadServer, ForwardStep, Acknowledge, FailsClosing;
    var f := if e.writable then Forward(r.up, e.buffer, e.sends) else Forwarded(r.up, 0, false, false);
    var s := ForwardStep(r, f);
    AcknowledgeShape(r, f, e);
    ForwardFails(r, f);
    var a := Acknowledge(s, f.fwd, e);
    AcknowledgeFails(s, f.fwd, e);
    FailsAfter(r, s, a);
    ReadFails(a, e);
    FailsAfter(r, a, ReadServer(a, e));
  }

  lemma ForwardFails(r: Relay, f: Forwarded)
    ensures FailsClosing(r, ForwardStep(r, f))
  {
    hide U32, WriteRst;
    RstFails(r.(up := f.up, book := r.book.(sent := r.book.sent + f.bytes)));
  }

  lemma AcknowledgeFails(s: Relay, fwd: bool, e: Ready)
    ensures FailsClosing(s, Acknowledge(s, fwd, e))
  {
    hide U32, ReceiveWindow, TcpPacket;
  }

  lemma ReadFails(r: Relay, e: Ready)
    ensures FailsClosing(r, ReadServer(r, e)) && (r.state == Closing ==> ReadServer(r, e).state == Closing)
  {
    hide U32, TcpPacket, SendWindow, ReadServer;
    ReadServerShape(r, e);
  }

  /** Whatever write fails in a step of a session, the session is closing after it. */
  lemma FailedWriteCloses(r: Relay, e: Event)
    requires Sane(r)
    ensures FailsClosing(r, Step(r, e))
  {
    hide U32, WriteRst, HandleTcp, Timeout, SendWindow, HeadReady, Forward, ForwardStep, Acknowledge, ReadServer;
    hide ProxySend, ProxyReceive, MonitorTcpSession;
    match e
    case Tun(p, allowed, ackOk, now) =>
      PacketFails(r, p, allowed, ackOk, now);
    case Socket(w) =>
      RstFails(At(r, w.now));
      if r.socket && r.state == Listen {
        OpeningFails(r, w);
      } else if r.socket {
        DataFails(r, w);
      }
    case Monitor(buffer, ms, epollOk, ackOk) =>
      MonitorFails(r, buffer, ms, epollOk, ackOk);
    case _ =>
      RstFails(r);
  }

  // ----- packets from the application

  /** A packet for a session that is not allowed, closing or closed, or with data where none is taken any more, is answered
      with a reset. */
  lemma PacketReset(r: Relay, p: Packet, allowed: bool, ackOk: bool, now: int)
    requires !p.urg
    requires !allowed || r.state in {Closing, Close} || (p.data != [] && (!r.socket || r.state == CloseWait))
    ensures var q := HandleTcp(r, p, allowed, ackOk, now);
      && |q.log| == |r.log| + 1 && r.log <= q.log && Resets(q.log, |r.log|, r)
      && q.state == (if r.state == Close then Close else Closing)
      && q.up.taken == r.up.taken && q.up.forward == r.up.forward
  {
    hide U32, WriteRst, Shl;
    var h := Heard(r, p, now);
    RstWritten(r);
    RstWritten(h);
    WriteRstShape(r);
    WriteRstShape(h);
  }

  /** An allowed RST closes every open session, and nothing is written. */
  lemma RstCloses(r: Relay, p: Packet, ackOk: bool, now: int)
    requires p.rst && !p.urg && r.state !in {Closing, Close} && (p.data == [] || (r.socket && r.state != CloseWait))
    ensures var q := HandleTcp(r, p, true, ackOk, now);
      q.state == Closing && q.log == r.log && q.up.seqno == r.up.seqno && q.up.taken == r.up.taken
  {
    hide U32, Shl, QueueInsert;
  }

  /** An acknowledgement of what was not sent yet is answered with a reset. */
  lemma FutureAckResets(r: Relay, p: Packet, ackOk: bool, now: int)
    requires r.state !in {Closing, Close} && !p.urg && !p.rst && p.ack && p.data == []
    requires 0 < Diff(p.ackSeq, r.down.seqno) < 0x7FFF_FFFF
    ensures var q := HandleTcp(r, p, true, ackOk, now);
      ResetOnly(r, q)
  {
    DiffSelf(r.down.seqno);
    CompareByDistance(p.ackSeq, r.down.seqno, r.down.seqno);
    NotKeepAlive(p.ackSeq, r.down.seqno);
    hide U32, CompareU32, WriteRst, Shl, Diff;
    RstIsReset(Heard(r, p, now));
  }

  lemma NotKeepAlive(a: u32, b: u32)
    requires 0 < Diff(a, b) < 0x7FFF_FFFF
    ensures a != b && U32(a + 1) != b
  {
  }

  /** Urgent packets are ignored. */
  lemma UrgentIgnored(r: Relay, p: Packet, allowed: bool, ackOk: bool, now: int)
    requires p.urg
    ensures HandleTcp(r, p, allowed, ackOk, now) == r
  {
  }

  /** Every packet that an open session hears sets the window, and the time unless it is a SYN, and confirms. */
  lemma PacketHeard(r: Relay, p: Packet, ackOk: bool, now: int)
    requires r.state !in {Closing, Close} && !p.urg
    ensures var q := HandleTcp(r, p, true, ackOk, now);
      && q.down.window == U32(p.window * Pow2(r.down.scale)) && q.down.unconfirmed == 0
      && q.book.time == if p.syn then r.book.time else now
  {
    ShlIs(p.window, r.down.scale);
    hide U32, CompareU32, WriteRst, QueueTcp, HandleFlags, Shl, Pow2;
    var h := Heard(r, p, now);
    RstIsReset(h);
    FlagsHear(h, p, ackOk);
    FlagsHear(h.(up := QueueTcp(r.up, p)), p, ackOk);
  }

  lemma FlagsHear(r: Relay, p: Packet, ackOk: bool)
    requires r.state !in {Closing, Close}
    ensures var q := HandleFlags(r, p, ackOk);
      q.down.window == r.down.window && q.down.unconfirmed == r.down.unconfirmed && q.book == r.book
  {
    hide U32, CompareU32, WriteRst, TcpPacket;
    RstIsReset(r);
  }

  /** What a plain acknowledgement does to acked: all that was sent is acknowledged, or what it says between acked and
      local_seq; one before local_seq is a keep-alive and changes nothing. */
  lemma AckTaken(r: Relay, p: Packet, ackOk: bool, now: int)
    requires r.state in {Established, CloseWait, FinWait1} && InFlight(r.down) <= 0x3FFF_C000
    requires p.ack && !p.urg && !p.rst && !p.syn && !p.fin && p.data == []
    requires U32(p.ackSeq - r.down.acked) <= InFlight(r.down)
    ensures var q := HandleTcp(r, p, true, ackOk, now);
      && q.down.acked == (if U32(p.ackSeq + 1) == r.down.seqno then r.down.acked else p.ackSeq)
      && q.state == r.state && q.log == r.log && q.up == r.up
  {
    AcceptedExactly(r.down, p.ackSeq);
    AckPlaces(r.down, p.ackSeq);
    hide U32, CompareU32, Shl, WriteRst, TcpPacket;
  }

  /** An acknowledgement not past local_seq is local_seq, acked, or strictly between. */
  lemma AckPlaces(d: Down, a: u32)
    requires InFlight(d) <= 0x3FFF_C000 && U32(a - d.acked) <= InFlight(d)
    ensures a == d.seqno || 0 < U32(a - d.acked) < InFlight(d) || (a == d.acked && CompareU32(a, d.seqno) < 0)
    ensures CompareU32(a, a) == 0
    ensures a == d.seqno ==> U32(a + 1) != d.seqno
  {
  }

  // ----- windows

  function Pow2(n: nat): nat {
    if n == 0 then 1 else 2 * Pow2(n - 1)
  }

  lemma {:induction false} ShlIs(x: nat, n: nat)
    ensures Shl(x, n) == x * Pow2(n)
    decreases n
  {
    if n > 0 {
      ShlIs(2 * x, n - 1);
      Twice(x, Pow2(n - 1));
    }
  }

  lemma Twice(x: nat, k: nat)
    ensures (2 * x) * k == x * (2 * k)
  {
  }

  lemma {:induction false} ShrIs(x: nat, n: nat)
    ensures Pow2(n) > 0 && Shr(x, n) == x / Pow2(n)
    decreases n
  {
    if n > 0 {
      ShrIs(x / 2, n - 1);
      HalfFirst(x, Pow2(n - 1));
    }
  }

  lemma HalfFirst(x: nat, k: nat)
    requires k > 0
    ensures x / 2 / k == x / (2 * k)
  {
    var q, s := x / (2 * k), x % (2 * k);
    assert x == 2 * k * q + s;
    assert x / 2 == k * q + s / 2 && 0 <= s / 2 < k by {
      assert x == 2 * (k * q) + s;
    }
    QuotientIs(x / 2, k, q, s / 2);
  }

  lemma QuotientIs(x: nat, k: nat, q: nat, s: nat)
    requires k > 0 && x == k * q + s && s < k
    ensures x / k == q
  {
    MulStrict(k, x / k, q);
    MulStrict(k, q, x / k);
  }

  lemma MulStrict(k: nat, a: nat, b: nat)
    requires k > 0
    ensures a < b ==> k * a + k <= k * b
  {
    if a < b {
      Distributes(k, a + 1, b - a - 1);
      Distributes(k, a, 1);
    }
  }

  lemma Distributes(k: nat, a: nat, b: nat)
    ensures k * (a + b) == k * a + k * b && k * b >= 0
  {
  }

  /** The bytes that are queued and not sent, in order. */
  function QueuedBytes(f: seq<Segment>): seq<byte>
    requires forall i :: 0 <= i < |f| ==> f[i].sent <= |f[i].data|
  {
    if f == [] then [] else f[0].data[f[0].sent..] + QueuedBytes(f[1..])
  }

  lemma {:induction false} QueuedIs(f: seq<Segment>)
    requires forall i :: 0 <= i < |f| ==> f[i].sent <= |f[i].data|
    ensures Queued(f) == |QueuedBytes(f)|
  {
    if f != [] {
      QueuedIs(f[1..]);
    }
  }

  /** The receive window is what the buffer and the window field can hold, less the bytes that are queued. */
  lemma WindowLeft(f: seq<Segment>, buffer: nat, scale: nat)
    requires forall i :: 0 <= i < |f| ==> f[i].sent <= |f[i].data|
    requires |QueuedBytes(f)| < 0x1_0000_0000 && scale <= 14
    ensures var room := Min(buffer, 0xFFFF * Pow2(scale));
      ReceiveWindow(f, buffer, scale) == if |QueuedBytes(f)| < room then room - |QueuedBytes(f)| else 0
  {
    QueuedIs(f);
    ShlIs(0xFFFF, scale);
    Pow2Bound(scale);
    U32Id(|QueuedBytes(f)|);
    U32Id(0xFFFF * Pow2(scale));
  }

  lemma {:induction false} Pow2Bound(n: nat)
    requires n <= 14
    ensures 1 <= Pow2(n) <= 0x4000
  {
    assert Pow2(14) == 0x4000;
    if n < 14 {
      Pow2Monotone(n, 14);
    }
    Pow2Monotone(0, n);
  }

  lemma {:induction false} Pow2Monotone(m: nat, n: nat)
    requires m <= n
    ensures 1 <= Pow2(m) <= Pow2(n)
    decreases n
  {
    if m < n {
      Pow2Monotone(m, n - 1);
    } else if n > 0 {
      Pow2Monotone(m - 1, n - 1);
    }
  }

  /** Every packet announces that window, in units of the shift. */
  lemma WindowField(r: Relay, syn: bool, ack: bool, fin: bool, rst: bool, data: seq<byte>)
    requires r.recvWindow <= 0xFFFF * Pow2(r.recvScale)
    ensures TcpPacket(r, syn, ack, fin, rst, data).window == FieldFor(r.recvWindow, r.recvScale)
  {
    ShrIs(r.recvWindow, r.recvScale);
    FieldFits(r.recvWindow, Pow2(r.recvScale));
  }

  function FieldFor(window: nat, scale: nat): nat {
    ShrIs(0, scale);
    window / Pow2(scale)
  }

  lemma FieldFits(w: nat, k: nat)
    requires k > 0 && w <= 0xFFFF * k
    ensures w / k <= 0xFFFF
  {
    MulStrict(k, 0xFFFF, w / k);
  }

  /** A quiet event: nothing to send or read. */
  predicate Quiet(e: Ready) {
    !e.error && !e.writable && !e.readable
  }

  /** When a closed window opens, one acknowledgement announces it; while it is open, a quiet event writes nothing. */
  lemma WindowReopens(r: Relay, e: Ready)
    requires r.socket && r.state in {SynRecv, Established, CloseWait} && Quiet(e) && e.ackOk
    ensures var q := Step(r, Socket(e));
      var window := ReceiveWindow(r.up.forward, e.bufferAfter, r.recvScale);
      && q.recvWindow == window && q.state == r.state && q.up == r.up && q.down == r.down
      && (r.recvWindow > 0 || window == 0 ==> q.log == r.log)
      && (r.recvWindow == 0 && window > 0 ==>
            |q.log| == |r.log| + 1 && r.log <= q.log && Announces(q.log[|r.log|], r.up.seqno, window, r.recvScale))
  {
    hide U32, ReceiveWindow;
    WindowFieldShr(ReceiveWindow(r.up.forward, e.bufferAfter, r.recvScale), r.recvScale);
    hide Shr;
  }

  lemma WindowFieldShr(window: u32, scale: nat)
    ensures U16(Shr(window, scale)) == U16(FieldFor(window, scale))
  {
    ShrIs(window, scale);
  }

  /** An acknowledgement of seqno without data that announces the window. */
  predicate Announces(x: Effect, seqno: u32, window: u32, scale: nat) {
    && x.ToTun? && x.packet.ack && x.packet.ackSeq == seqno && x.packet.data == []
    && !x.packet.syn && !x.packet.fin && !x.packet.rst
    && x.packet.window == U16(FieldFor(window, scale))
  }

  // ----- watching

  /** What epoll is asked to watch: in LISTEN for the connection or the proxy's reply; with data for room to forward the
      head, and for the server while the application's window is open; otherwise nothing. */
  lemma MonitorWatches(r: Relay, buffer: nat, ms: int, epollOk: bool, ackOk: bool)
    requires r.socket
    ensures var b := Step(r, Monitor(buffer, ms, epollOk, ackOk)).book;
      match r.state
      case Listen => (b.watchOut <==> r.socks5 == NotConnected) && (b.watchIn <==> r.socks5 != NotConnected)
      case Established | CloseWait =>
        && (b.watchIn <==> SendWindow(r.down) > 0)
        && (b.watchOut <==> && r.up.forward != [] && r.up.forward[0].seqno == r.up.seqno
                            && 0 <= |r.up.forward[0].data| - r.up.forward[0].sent < buffer)
      case _ => !b.watchIn && !b.watchOut
  {
    hide U32, SendWindow, KeepAlive;
    KeepAliveWatches(r, ms, ackOk);
  }

  lemma KeepAliveWatches(r: Relay, ms: int, ok: bool)
    ensures KeepAlive(r, ms, ok).book == r.book.(lastKeepAlive := ms)
  {
    hide U32, TcpPacket;
  }

  /** A keep-alive is written exactly when the application's window is closed and the last one is more than 100 ms ago: an
      acknowledgement of one less than the position. */
  lemma KeepAliveExactly(r: Relay, buffer: nat, ms: int, ackOk: bool)
    requires r.socket
    ensures var q := Step(r, Monitor(buffer, ms, true, ackOk));
      && q.up == r.up && q.down == r.down
      && if r.state in {Established, CloseWait} && SendWindow(r.down) == 0 && ms - r.book.lastKeepAlive > 100
         then && |q.log| == |r.log| + 1 && r.log <= q.log && q.book.lastKeepAlive == ms
              && q.log[|r.log|].ToTun? && q.log[|r.log|].packet.ack && q.log[|r.log|].packet.data == []
              && q.log[|r.log|].packet.ackSeq == U32(r.up.seqno - 1)
              && q.state == if ackOk then r.state else Closing
         else q.log == r.log && q.state == r.state
  {
    hide U32, SendWindow, HeadReady, KeepAlive;
    KeepAliveShape(r, ms, ackOk);
    KeepAliveWatches(r, ms, ackOk);
    KeepAliveWrites(r, ms, ackOk);
  }

  lemma KeepAliveWrites(r: Relay, ms: int, ok: bool)
    ensures var q := KeepAlive(r, ms, ok);
      && |q.log| == |r.log| + 1 && r.log <= q.log && q.log[|r.log|].ToTun? && q.log[|r.log|].packet.ack
      && q.log[|r.log|].packet.data == [] && q.log[|r.log|].packet.ackSeq == U32(r.up.seqno - 1)
  {
    hide U32, U16, Shr;
  }

  // ----- packets that change nothing

  /** A repeated SYN, a FIN where none is expected, and a packet without any flag leave an open session as it is, apart from
      window and time. */
  lemma PacketIgnored(r: Relay, p: Packet, ackOk: bool, now: int)
    requires r.state !in {Closing, Close} && !p.urg && !p.rst && p.data == [] && (p.ack ==> p.ackSeq == r.down.seqno)
    requires p.syn || (p.fin && r.state !in {Established, FinWait1}) || (!p.ack && !p.fin)
    ensures var q := HandleTcp(r, p, true, ackOk, now);
      q.state == r.state && q.log == r.log && q.up == r.up && q.down.acked == r.down.acked && q.socket == r.socket
  {
    hide U32, Shl;
  }

  /** Acknowledgements of one less than local_seq are the application's keep-alives, and those up to acked are repeated: both
      leave the session as it is. */
  lemma OldAckIgnored(r: Relay, p: Packet, ackOk: bool, now: int)
    requires r.state !in {Closing, Close} && !p.urg && !p.rst && p.data == [] && p.ack
    requires p.ackSeq != r.down.seqno
    requires U32(p.ackSeq + 1) == r.down.seqno || (CompareU32(p.ackSeq, r.down.seqno) < 0 && p.ackSeq == r.down.acked)
    ensures var q := HandleTcp(r, p, true, ackOk, now);
      q.state == r.state && q.log == r.log && q.up == r.up && q.down.acked == r.down.acked
  {
    hide U32, Shl, WriteRst;
  }

  // ----- opening and the end of the server's stream

  /** A new session for any SYN: it waits for the connection, announces what the buffer holds less the payload, and counts
      from now. */
  lemma SessionOpened(p: Packet, ipv4: bool, mss: u16, scale: nat, isn: u32, buffer: nat, now: int)
    requires |p.data| < 0x1_0000 && scale <= 14
    ensures var r := NewSession(p, ipv4, mss, scale, isn, buffer, true, now);
      var room := Min(buffer, 0xFFFF * Pow2(scale));
      && r.state == Listen && r.socks5 == NotConnected && r.socket && r.ipv4 == ipv4 && r.log == []
      && r.recvWindow == (if |p.data| < room then room - |p.data| else 0) && r.recvScale == scale
      && r.book.time == now && r.book.watchOut && !r.book.watchIn && r.book.sent == 0 && r.book.received == 0
      && r.up.start == r.up.seqno == p.seqno && r.up.taken == []
      && r.down.start == r.down.seqno == isn && r.down.window == U32(p.window * Pow2(scale)) && r.down.mss == mss
      && r.down.scale == scale && r.down.unconfirmed == 0
  {
    hide ReceiveWindow;
    var f := if p.data == [] then [] else [Segment(p.seqno, p.data, 0, p.psh)];
    ShlIs(p.window, scale);
    PayloadBytes(f, p.data);
    WindowLeft(f, buffer, scale);
    hide Pow2, Shl, U32, QueuedBytes;
  }

  lemma PayloadBytes(f: seq<Segment>, data: seq<byte>)
    requires (f == [] && data == []) || (|f| == 1 && f[0].data == data && f[0].sent == 0)
    ensures (forall i :: 0 <= i < |f| ==> f[i].sent <= |f[i].data|) && QueuedBytes(f) == data
  {
    if f != [] {
      assert f[1..] == [] && data[0..] == data && data + [] == data;
    }
  }

  /** When the server ends its stream while data is still queued for it, the session is reset and its socket closed. */
  lemma EndWithDataResets(r: Relay, e: Ready)
    requires r.socket && r.state in {Established, CloseWait} && SendWindow(r.down) > 0 && r.recvWindow > 0
    requires r.up.forward != [] && !e.error && !e.writable && e.readable && e.recv == Received([])
    ensures var q := Step(r, Socket(e));
      && q.state == Closing && !q.socket && q.up == r.up && q.down == r.down
      && |q.log| == |r.log| + 1 && r.log <= q.log && Resets(q.log, |r.log|, r)
  {
    hide U32, ReceiveWindow, WriteRst, SendWindow, TcpPacket;
    var f := Forwarded(r.up, 0, false, false);
    var a := Acknowledge(ForwardStep(r, f), f.fwd, e);
    assert a.state == r.state && a.up == r.up && a.down == r.down && a.log == r.log && a.socket == r.socket;
    RstIsReset(At(a, e.now));
  }
}
