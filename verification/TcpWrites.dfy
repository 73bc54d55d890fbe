/** What each event writes: control packets acknowledge the position, or for a keep-alive one less, and at
    most one data packet goes out, as the last entry of the log. */
module TcpWrites {
  import opened Serial
  import opened TcpModel
  import opened TcpShapes

  /** An entry that carries no data and acknowledges nothing beyond seqno; a SYN or traffic with the proxy only
      while the connection is being opened. */
  predicate Control(e: Effect, seqno: u32, opening: bool) {
    && (e.ToTun? ==> e.packet.data == [] && AcksUpTo(e.packet, seqno))
    && (!opening ==> e.ToTun? && !e.packet.syn)
  }

  predicate AcksUpTo(p: Packet, seqno: u32) {
    p.ack ==> p.ackSeq == seqno || p.ackSeq == U32(seqno - 1)
  }

  /** Since log0, only control packets for the session's position were written. */
  predicate Grown(log0: seq<Effect>, q: Relay, opening: bool) {
    && log0 <= q.log
    && (forall i :: |log0| <= i < |q.log| ==> Control(q.log[i], q.up.seqno, opening))
  }

  lemma GrownOne(log0: seq<Effect>, x: Effect, q: Relay, opening: bool)
    requires q.log == log0 + [x] && Control(x, q.up.seqno, opening)
    ensures Grown(log0, q, opening)
  {
  }

  lemma GrownAfter(log0: seq<Effect>, b: Relay, q: Relay, opening: bool)
    requires Grown(log0, b, opening) && Grown(b.log, q, opening) && b.up.seqno == q.up.seqno
    ensures Grown(log0, q, opening)
  {
    hide Control;
    forall i | |log0| <= i < |q.log|
      ensures Control(q.log[i], q.up.seqno, opening)
    {
      if i < |b.log| {
        assert q.log[i] == b.log[i];
      }
    }
  }

  lemma GrownAfterProxy(log0: seq<Effect>, x: Effect, q: Relay)
    requires !x.ToTun? && Grown(log0 + [x], q, true)
    ensures Grown(log0, q, true)
  {
    assert (log0 + [x])[|log0|] == x == q.log[|log0|];
  }

  lemma WriteRstGrows(r: Relay, opening: bool)
    ensures Grown(r.log, WriteRst(r), opening)
  {
    hide U32, Shr;
    var x := WriteRst(r).log[|r.log|];
    assert WriteRst(r).log == r.log + [x];
    GrownOne(r.log, x, WriteRst(r), opening);
  }

  lemma WriteAckGrows(r: Relay, syn: bool, fin: bool, ok: bool, opening: bool)
    requires syn ==> opening
    ensures Grown(r.log, WriteOrClose(r, syn, fin, [], ok), opening)
  {
    hide U32, Shr;
    var x := ToTun(TcpPacket(r, syn, true, fin, false, []), ok);
    GrownOne(r.log, x, WriteOrClose(r, syn, fin, [], ok), opening);
  }

  lemma GrownLog(r: Relay, q: Relay, opening: bool)
    requires q.log == r.log
    ensures Grown(r.log, q, opening)
  {
  }

  lemma ProxyReplyGrows(r: Relay, b: seq<byte>)
    requires r.state == Listen
    ensures Grown(r.log, ProxyReply(r, b), true)
    ensures ProxyReply(r, b).state == Listen ==> ProxyReply(r, b).log == r.log
  {
    hide U32, WriteRst, Grown;
    WriteRstGrows(r.(socks5 := Refused), true);
    WriteRstShape(r.(socks5 := Refused));
    if ProxyReply(r, b).log == r.log {
      GrownLog(r, ProxyReply(r, b), true);
    }
  }

  /** The proxy said nothing, or one thing that was recorded. */
  predicate AtMostOneReply(log0: seq<Effect>, log: seq<Effect>) {
    log == log0 || (log != [] && log[|log| - 1].FromProxy? && log == log0 + [log[|log| - 1]])
  }

  lemma ProxyReceiveGrows(r: Relay, e: Ready)
    requires r.state == Listen
    ensures var s := ProxyReceive(r, e);
      Grown(r.log, s, true) && (s.state == Listen ==> AtMostOneReply(r.log, s.log))
  {
    hide U32, WriteRst, Grown, ProxyReply;
    if r.socks5 == NotConnected || !e.readable {
      GrownLog(r, ProxyReceive(r, e), true);
    } else if e.recv.Received? {
      var b := e.recv.bytes[..Min(|e.recv.bytes|, 32)];
      var r1 := r.(log := r.log + [FromProxy(b)]);
      ProxyReplyGrows(r1, b);
      GrownAfterProxy(r.log, FromProxy(b), ProxyReply(r1, b));
    } else {
      WriteRstGrows(r, true);
      WriteRstShape(r);
    }
  }

  lemma ProxySendGrows(r: Relay, e: Ready)
    ensures Grown(r.log, ProxySend(r, e), true)
  {
    hide U32, WriteRst, Grown, WriteOrClose;
    if r.socks5 in {Hello, Auth, Connect} {
      var s := r.(log := r.log + [ToProxy(r.socks5)]);
      WriteRstGrows(s, true);
      GrownLog(s, s, true);
      GrownAfterProxy(r.log, ToProxy(r.socks5), ProxySend(r, e));
    } else if r.socks5 == Connected {
      WriteAckGrows(CountRemote(r, 1), true, false, e.writeOk, true);
      var w := WriteOrClose(CountRemote(r, 1), true, false, [], e.writeOk);
      GrownSame(r.log, w, ProxySend(r, e), true);
    } else {
      GrownLog(r, r, true);
    }
  }

  lemma GrownSame(log0: seq<Effect>, w: Relay, q: Relay, opening: bool)
    requires Grown(log0, w, opening) && q.log == w.log && q.up == w.up
    ensures Grown(log0, q, opening)
  {
  }

  lemma ProxyGrows(r: Relay, e: Ready)
    requires r.state == Listen && r.socks5 in {NotConnected, Hello, Auth, Connect}
    ensures Grown(r.log, ProxySend(ProxyReceive(r, e), e), true)
  {
    hide U32, Grown, ProxySend, ProxyReceive;
    var s := ProxyReceive(r, e);
    ProxyReceiveShape(r, e);
    ProxySendShape(s, e);
    ProxyReceiveGrows(r, e);
    ProxySendGrows(s, e);
    if s.state == Listen {
      if s.log != r.log {
        GrownAfterProxy(r.log, s.log[|r.log|], ProxySend(s, e));
      }
    } else {
      GrownAfter(r.log, s, ProxySend(s, e), true);
    }
  }

  lemma AcknowledgeGrows(r: Relay, f: Forwarded, e: Ready)
    requires r.state !in {Listen, Close}
    ensures var q := Acknowledge(ForwardStep(r, f), f.fwd, e);
      Grown(r.log, q, false) && q.down == r.down
  {
    hide U32, Grown, WriteRst, ReceiveWindow;
    var s := ForwardStep(r, f);
    var r1 := r.(up := f.up, book := r.book.(sent := r.book.sent + f.bytes));
    WriteRstShape(r1);
    WriteRstGrows(r1, false);
    GrownLog(r1, r1, false);
    assert Grown(r.log, s, false);
    var q := Acknowledge(s, f.fwd, e);
    AcknowledgeLog(s, f.fwd, e);
    if q.up.seqno == s.up.seqno {
      GrownAfter(r.log, s, q, false);
    }
  }

  lemma AcknowledgeLog(s: Relay, fwd: bool, e: Ready)
    ensures Grown(s.log, Acknowledge(s, fwd, e), false)
  {
    hide U32, Shr, ReceiveWindow;
  }

  lemma HandleTcpGrows(r: Relay, p: Packet, allowed: bool, ackOk: bool, now: int)
    ensures Grown(r.log, HandleTcp(r, p, allowed, ackOk, now), false)
  {
    hide U32, Grown, WriteRst, HandleFlags, QueueTcp, Shl;
    var h := Heard(r, p, now);
    GrownLog(r, r, false);
    WriteRstGrows(r, false);
    WriteRstGrows(h, false);
    HandleFlagsGrows(h, p, ackOk);
    HandleFlagsGrows(h.(up := QueueTcp(r.up, p)), p, ackOk);
  }

  lemma HandleFlagsGrows(r: Relay, p: Packet, ackOk: bool)
    ensures Grown(r.log, HandleFlags(r, p, ackOk), false)
  {
    hide U32, Grown, WriteRst, RemoteFin, CompareU32;
    var q := HandleFlags(r, p, ackOk);
    WriteRstGrows(r, false);
    RemoteFinGrows(r, ackOk);
    if q.log == r.log {
      GrownLog(r, q, false);
    }
  }

  lemma RemoteFinGrows(r: Relay, ackOk: bool)
    ensures Grown(r.log, RemoteFin(r, ackOk), false)
  {
    hide U32, Grown, WriteOrClose;
    var w := WriteOrClose(CountRemote(r, 1), false, false, [], ackOk);
    WriteAckGrows(CountRemote(r, 1), false, false, ackOk, false);
    if RemoteFin(r, ackOk).log == r.log {
      GrownLog(r, RemoteFin(r, ackOk), false);
    } else {
      GrownSame(r.log, w, RemoteFin(r, ackOk), false);
    }
  }

  lemma MonitorGrows(r: Relay, buffer: nat, ms: int, epollOk: bool, ackOk: bool)
    ensures Grown(r.log, MonitorTcpSession(r, buffer, ms, epollOk, ackOk), false)
  {
    hide U32, Grown, KeepAlive, SendWindow, HeadReady;
    KeepAliveGrows(r, ms, ackOk);
    GrownLog(r, r, false);
    var q := MonitorTcpSession(r, buffer, ms, epollOk, ackOk);
    if q.log == r.log {
      GrownLog(r, q, false);
    } else {
      GrownSame(r.log, KeepAlive(r, ms, ackOk), q, false);
    }
  }

  lemma KeepAliveGrows(r: Relay, ms: int, ok: bool)
    ensures Grown(r.log, KeepAlive(r, ms, ok), false)
  {
    U32Add(r.up.seqno - 1, 1);
    U32Id(r.up.seqno);
    hide U32, Shr;
  }

  // ----- a whole step

  /** One data packet was written last, numbered local_seq and no longer than the send window; if that failed, the
      session is closing. */
  predicate DataWritten(r: Relay, q: Relay) {
    q.log != [] &&
    var last := q.log[|q.log| - 1];
    && last.ToTun?
    && last.packet.seqno == r.down.seqno
    && 0 < |last.packet.data| <= SendWindow(r.down)
    && AcksUpTo(last.packet, q.up.seqno) && !last.packet.syn
    && q.down.read == r.down.read + last.packet.data
    && (!last.ok ==> q.state == Closing)
    && Grown(r.log, q.(log := q.log[..|q.log| - 1]), false)
  }

  predicate Written(r: Relay, q: Relay, opening: bool) {
    DataWritten(r, q) || (Grown(r.log, q, opening) && q.down.read == r.down.read)
  }

  lemma ReadServerWrites(log0: seq<Effect>, r: Relay, e: Ready)
    requires Grown(log0, r, false)
    ensures var q := ReadServer(r, e);
      || (Grown(log0, q, false) && q.down.read == r.down.read)
      || DataWritten(r.(log := log0), q)
  {
    hide U32, Shr, SendWindow, ReadServer, Grown, U16;
    var q := ReadServer(r, e);
    ReadServerShape(r, e);
    if Idle(r, q) {
      GrownSame(log0, r, q, false);
    } else if Reset(r, q) {
      GrownOne(r.log, ToTun(RstPacket(r), true), q, false);
      GrownAfter(log0, r, q, false);
    } else if Finished(r, q) {
      GrownOne(r.log, ToTun(TcpPacket(r, false, true, true, false, []), q.state != Closing), q, false);
      GrownAfter(log0, r, q, false);
    } else {
      assert q.log[..|q.log| - 1] == r.log;
      GrownSame(log0, r, q.(log := r.log), false);
    }
  }

  lemma SocketWrites(r: Relay, e: Ready)
    requires r.state != Close
    requires r.state == Listen ==> r.socks5 in {NotConnected, Hello, Auth, Connect}
    ensures Written(r, CheckTcpSocket(r, e), r.state == Listen)
  {
    hide U32, Grown, WriteRst, Forward, ForwardStep, Acknowledge, ReadServer, ProxySend, ProxyReceive, SendWindow;
    if e.error {
      WriteRstGrows(At(r, e.now), r.state == Listen);
      WriteRstShape(At(r, e.now));
    } else if r.state == Listen {
      ProxyGrows(r, e);
      ProxyReceiveShape(r, e);
      ProxySendShape(ProxyReceive(r, e), e);
    } else {
      var f := if e.writable then Forward(r.up, e.buffer, e.sends) else Forwarded(r.up, 0, false, false);
      AcknowledgeGrows(r, f, e);
      ReadServerWrites(r.log, Acknowledge(ForwardStep(r, f), f.fwd, e), e);
    }
  }

  /** Nothing is read or sent; only acknowledgements and the window may change. */
  predicate Hears(d: Down, d': Down) {
    d' == d.(acked := d'.acked, window := d'.window, unconfirmed := d'.unconfirmed)
  }

  lemma HandleFlagsHears(r: Relay, p: Packet, ackOk: bool)
    ensures Hears(r.down, HandleFlags(r, p, ackOk).down)
  {
    hide U32, CompareU32, WriteRst, TcpPacket;
    WriteRstShape(r);
  }

  lemma HandleTcpHears(r: Relay, p: Packet, allowed: bool, ackOk: bool, now: int)
    ensures Hears(r.down, HandleTcp(r, p, allowed, ackOk, now).down)
  {
    hide U32, QueueTcp, WriteRst, Shl, HandleFlags;
    var h := Heard(r, p, now);
    WriteRstShape(r);
    WriteRstShape(h);
    HandleFlagsHears(h, p, ackOk);
    HandleFlagsHears(h.(up := QueueTcp(r.up, p)), p, ackOk);
  }

  /** Every event writes only control packets for the position it ends at, and at most one data packet. */
  lemma StepWrites(r: Relay, e: Event)
    requires r.state == Close ==> !r.socket
    requires r.state == Listen ==> r.socks5 in {NotConnected, Hello, Auth, Connect}
    ensures Written(r, Step(r, e), e.Socket? && r.state == Listen)
  {
    hide U32, DataWritten, Grown, WriteRst, CheckTcpSocket, HandleTcp, KeepAlive, Timeout, SendWindow, HeadReady;
    GrownLog(r, r, e.Socket? && r.state == Listen);
    match e
    case Tun(p, allowed, ackOk, now) =>
      HandleTcpGrows(r, p, allowed, ackOk, now);
      HandleTcpHears(r, p, allowed, ackOk, now);
    case Socket(ready) =>
      if r.socket {
        SocketWrites(r, ready);
      }
    case Monitor(buffer, ms, epollOk, ackOk) =>
      KeepAliveShape(r, ms, ackOk);
      MonitorGrows(r, buffer, ms, epollOk, ackOk);
    case Check(now, sessions, maxSessions) =>
      WriteRstShape(r);
      WriteRstGrows(r, false);
      var q := CheckTcpSession(r, now, sessions, maxSessions).0;
      GrownSame(r.log, Expire(r, now, sessions, maxSessions), q, false) by {
        if Expire(r, now, sessions, maxSessions) != WriteRst(r) {
          GrownLog(r, Expire(r, now, sessions, maxSessions), false);
        }
      }
    case Disallow =>
      WriteRstShape(r);
      WriteRstGrows(r, false);
  }
}
