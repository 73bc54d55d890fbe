/** What the smaller steps of a session change, and what they leave alone. */
module TcpShapes {
  import opened Serial
  import opened TcpModel

  lemma WriteRstShape(r: Relay)
    ensures var w := WriteRst(r);
      && w.socket == r.socket && w.socks5 == r.socks5 && w.ipv4 == r.ipv4 && w.down == r.down
      && w.state == (if r.state == Close then Close else Closing)
      && w.up == if r.state == Listen then CountRemote(r, 1).up else r.up
  {
    hide U32, TcpPacket;
  }

  lemma ProxyReplyShape(r: Relay, b: seq<byte>)
    requires r.state == Listen && r.socks5 in {Hello, Auth, Connect}
    ensures var s := ProxyReply(r, b);
      && s.socket == r.socket && s.ipv4 == r.ipv4 && s.down == r.down
      && if s.state == Listen then s.up == r.up && s.socks5 in {Auth, Connect, Connected}
         else s.state == Closing && s.up == CountRemote(r, 1).up && s.socks5 == Refused
  {
    hide U32, WriteRst;
    WriteRstShape(r.(socks5 := Refused));
  }

  /** What a reply from the proxy can do to a listening session. */
  lemma ProxyReceiveShape(r: Relay, e: Ready)
    requires r.state == Listen && r.socks5 in {NotConnected, Hello, Auth, Connect}
    ensures var s := ProxyReceive(r, e);
      && s.socket == r.socket && s.ipv4 == r.ipv4 && s.down == r.down
      && if s.state == Listen then s.up == r.up && s.socks5 != Refused
         else s.state == Closing && s.up == CountRemote(r, 1).up && s.socks5 !in {NotConnected, Connected}
  {
    hide U32, WriteRst, ProxyReply;
    WriteRstShape(r);
    if r.socks5 != NotConnected && e.readable && e.recv.Received? {
      var b := e.recv.bytes[..Min(|e.recv.bytes|, 32)];
      ProxyReplyShape(r.(log := r.log + [FromProxy(b)]), b);
    }
  }

  lemma ProxySendShape(s: Relay, e: Ready)
    requires s.state in {Listen, Closing} && (s.state == Closing ==> s.socks5 != Connected)
    ensures var t := ProxySend(s, e);
      && t.socket == s.socket && t.socks5 == s.socks5 && t.ipv4 == s.ipv4
      && t.down == (if t.state == SynRecv then CountLocal(s, 1).down else s.down)
      && (s.socks5 == Connected ==> t.state != Listen)
      && if s.state == Listen && t.state != Listen
         then t.state in {SynRecv, Closing} && t.up == CountRemote(s, 1).up
         else t.state == s.state && t.up == s.up
  {
    hide U32, WriteRst, TcpPacket;
    WriteRstShape(s.(log := s.log + [ToProxy(s.socks5)]));
  }

  lemma AcknowledgeShape(r: Relay, f: Forwarded, e: Ready)
    requires r.state !in {Listen, Close}
    ensures var s, t := ForwardStep(r, f), Acknowledge(ForwardStep(r, f), f.fwd, e);
      && t.socket == r.socket && t.socks5 == r.socks5 && t.ipv4 == r.ipv4
      && s.state in {r.state, Closing} && t.state in {s.state, Closing}
      && s.up == f.up
      && t.up == if f.fwd && f.up.forward == [] && s.state == CloseWait
                 then f.up.(seqno := U32(f.up.seqno + 1)) else f.up
  {
    hide U32, TcpPacket, ReceiveWindow;
  }

  lemma KeepAliveShape(r: Relay, ms: int, ok: bool)
    ensures var s := KeepAlive(r, ms, ok);
      && s.up == r.up && s.down == r.down && s.socket == r.socket && s.socks5 == r.socks5 && s.ipv4 == r.ipv4
      && s.state == if ok then r.state else Closing
  {
    hide TcpPacket;
    U32Add(r.up.seqno - 1, 1);
  }

  // ----- reading from the server

  predicate Same(r: Relay, q: Relay) {
    q.up == r.up && q.socks5 == r.socks5 && q.ipv4 == r.ipv4 && q.recvWindow == r.recvWindow && q.recvScale == r.recvScale
  }

  function RstPacket(r: Relay): Packet {
    TcpPacket(r, false, false, false, true, [])
  }

  predicate Idle(r: Relay, q: Relay) {
    q.state == r.state && q.socket == r.socket && q.down == r.down && q.log == r.log
  }

  predicate Reset(r: Relay, q: Relay) {
    q.state == Closing && q.down == r.down && q.log == r.log + [ToTun(RstPacket(r), true)]
  }

  /** End of file: our FIN was sent and counted, or the session is closing. */
  predicate Finished(r: Relay, q: Relay) {
    && r.up.forward == []
    && q.log == r.log + [ToTun(TcpPacket(r, false, true, true, false, []), q.state != Closing)]
    && if q.state == Closing then q.down == r.down
       else q.down == CountLocal(r, 1).down && q.state == (if r.state == Established then FinWait1 else LastAck)
  }

  /** Data was read and written to the tun device, and counted unless that write failed. */
  predicate Relayed(r: Relay, q: Relay, data: seq<byte>) {
    && q.log == r.log + [ToTun(TcpPacket(r, false, true, false, false, data), q.state != Closing)]
    && q.socket == r.socket
    && if q.state == Closing then q.down == r.down.(read := r.down.read + data)
       else q.state == r.state &&
            q.down == r.down.(read := r.down.read + data, seqno := U32(r.down.seqno + |data|),
                              unconfirmed := U16(r.down.unconfirmed + 1))
  }

  /** The bytes that one read takes: as many as recv gives, the window admits and a segment holds. */
  function ReadBytes(r: Relay, e: Ready): seq<byte> {
    if e.recv.Received? then e.recv.bytes[..Min(|e.recv.bytes|, Min(SendWindow(r.down), r.down.mss))] else []
  }

  lemma ServerEofShape(r: Relay, ok: bool)
    requires r.state in {Established, CloseWait}
    ensures var q := ServerEof(r, ok);
      Same(r, q) && !q.socket && if r.up.forward == [] then Finished(r, q) else Reset(r, q)
  {
    hide U32, TcpPacket;
  }

  lemma ServerDataShape(r: Relay, data: seq<byte>, ok: bool)
    requires r.state in {Established, CloseWait}
    ensures Same(r, ServerData(r, data, ok)) && Relayed(r, ServerData(r, data, ok), data)
  {
    hide U32, U16;
  }

  /** Reading from the server does nothing, resets, finishes or relays. */
  lemma ReadServerShape(r: Relay, e: Ready)
    ensures var q := ReadServer(r, e);
      && Same(r, q)
      && (|| Idle(r, q)
          || (&& r.state in {Established, CloseWait}
              && SendWindow(r.down) > 0
              && (|| Reset(r, q)
                  || (Finished(r, q) && !q.socket)
                  || (ReadBytes(r, e) != [] && Relayed(r, q, ReadBytes(r, e))))))
  {
    hide U32, SendWindow, ServerEof, ServerData;
    var t := At(r, e.now);
    if r.state in {Established, CloseWait} && e.readable && SendWindow(r.down) > 0 && e.recv.Received? {
      var data := ReadBytes(r, e);
      if data == [] {
        ServerEofShape(t, e.writeOk);
      } else {
        ServerDataShape(t, data, e.writeOk);
      }
    }
  }
}
