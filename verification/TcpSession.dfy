/** The session as tcp.c has it: fields updated in place by the handlers.  Each method is tied to the function of
    TcpModel that specifies it, so that what is proved of every run there holds of these methods. */
module TcpSession {
  import opened Serial
  import Model = TcpModel
  import opened TcpModel
  import TcpStream

  class Session {
    var state: State
    var socks5: Socks
    var socket: bool
    const ipv4: bool
    const recvScale: nat
    var recvWindow: u32
    var up: Up
    var down: Down
    var book: Book
    var log: seq<Effect>

    function View(): Relay
      reads this
    {
      Relay(state, socks5, socket, ipv4, recvScale, recvWindow, up, down, book, log)
    }

    /** The session that handle_tcp registers for a SYN. */
    constructor (p: Packet, ipv4: bool, mss: u16, scale: nat, isn: u32, buffer: nat, allowed: bool, now: int)
      ensures View() == NewSession(p, ipv4, mss, scale, isn, buffer, allowed, now)
    {
      this.ipv4, recvScale := ipv4, scale;
      state, socks5, socket := Listen, NotConnected, true;
      up := Up(p.seqno, p.seqno, if p.data == [] then [] else [Segment(p.seqno, p.data, 0, p.psh)], []);
      down := Down(isn, isn, 0, U32(Shl(p.window, scale)), 0, mss, scale, []);
      book := Book(now, 0, 0, 0, false, true);
      log := [];
      new;
      recvWindow := GetReceiveWindow(buffer);
      if !allowed {
        WriteRst();
      }
    }

    // ----- writing

    method WriteTcp(syn: bool, ack: bool, fin: bool, rst: bool, data: seq<byte>, ok: bool)
      modifies this`log
      ensures View() == Model.WriteTcp(old(View()), syn, ack, fin, rst, data, ok)
    {
      var ackSeq := up.seqno;
      if !ack {
        ackSeq := 0;
      }
      var p := Packet(down.seqno, ackSeq, U16(Shr(recvWindow, recvScale)), syn, ack, false, fin, rst, false, data);
      log := log + [ToTun(p, ok)];
    }

    method WriteOrClose(syn: bool, fin: bool, data: seq<byte>, ok: bool)
      modifies this`log, this`state
      ensures View() == Model.WriteOrClose(old(View()), syn, fin, data, ok)
    {
      WriteTcp(syn, true, fin, false, data, ok);
      if !ok {
        state := Closing;
      }
    }

    method WriteRst()
      modifies this`log, this`state, this`up
      ensures View() == Model.WriteRst(old(View()))
    {
      var ack := false;
      if state == Listen {
        ack := true;
        up := up.(seqno := U32(up.seqno + 1));
      }
      WriteTcp(false, ack, false, true, [], true);
      if state != Close {
        state := Closing;
      }
    }

    // ----- windows and the queue

    method GetReceiveWindow(buffer: nat) returns (total: u32)
      ensures total == ReceiveWindow(up.forward, buffer, recvScale)
    {
      var toForward: u32 := 0;
      var i := 0;
      U32Id(0);
      while i < |up.forward|
        invariant 0 <= i <= |up.forward|
        invariant U32(toForward + Queued(up.forward[i..])) == U32(Queued(up.forward))
      {
        var n := |up.forward[i].data| - up.forward[i].sent;
        U32Add(toForward + n, Queued(up.forward[i + 1..]));
        assert up.forward[i..][1..] == up.forward[i + 1..];
        toForward := U32(toForward + n);
        i := i + 1;
      }
      U32Id(toForward);
      var window := Min(buffer, U32(Shl(0xFFFF, recvScale)));
      total := if toForward < window then window - toForward else 0;
    }

    /** Walk to the place of the segment, and insert it or replace the data that is there. */
    method QueueTcp(p: Packet)
      modifies this`up
      ensures up == Model.QueueTcp(old(up), p)
    {
      hide CompareU32, QueueInsert;
      if CompareU32(p.seqno, up.seqno) < 0 {
        return;
      }
      var forward := up.forward;
      var k := 0;
      while k < |forward| && CompareU32(forward[k].seqno, p.seqno) < 0
        invariant 0 <= k <= |forward|
        invariant TcpStream.Place(forward, p.seqno) == k + TcpStream.Place(forward[k..], p.seqno)
      {
        assert forward[k..][1..] == forward[k + 1..];
        k := k + 1;
      }
      TcpStream.QueueInsertShape(forward, Segment(p.seqno, p.data, 0, p.psh));
      CompareSign(p.seqno, if k < |forward| then forward[k].seqno else 0);
      if k == |forward| || CompareU32(forward[k].seqno, p.seqno) > 0 {
        forward := forward[..k] + [Segment(p.seqno, p.data, 0, p.psh)] + forward[k..];
      } else if |forward[k].data| != |p.data| {
        forward := forward[k := forward[k].(data := p.data)];
      }
      up := up.(forward := forward);
    }

    /** Account for n bytes of the head that send has taken, and drop the head when all of it is gone. */
    method TakeHead(n: nat)
      requires up.forward != [] && up.forward[0].sent + n <= |up.forward[0].data|
      modifies this`up, this`book
      ensures up == Take(old(up), n) && book == old(book).(sent := old(book).sent + n)
    {
      var head := up.forward[0];
      book := book.(sent := book.sent + n);
      up := up.(taken := up.taken + head.data[head.sent..head.sent + n]);
      if head.sent + n == |head.data| {
        up := up.(seqno := U32(head.seqno + head.sent + n));
        up := up.(forward := up.forward[1..]);
      } else {
        up := up.(forward := [head.(sent := head.sent + n)] + up.forward[1..]);
      }
    }

    /** Send from the head of the queue while it is next in line and fits the buffer. */
    method ForwardData(buffer: nat, sends: seq<SendResult>) returns (fwd: bool)
      modifies this`up, this`book, this`state, this`log
      ensures var f := Forward(old(up), buffer, sends);
        View() == ForwardStep(old(View()), f) && fwd == f.fwd
    {
      hide U32, Model.WriteRst, Forward, Take, HeadReady;
      fwd := false;
      var i, room: int := 0, buffer;
      ghost var bytes: nat := 0;
      ghost var goal := Forward(up, buffer, sends);
      assert sends[0..] == sends;
      while i < |sends| && HeadReady(up, room)
        invariant 0 <= i <= |sends|
        invariant state == old(state) && log == old(log) && book == old(book).(sent := old(book).sent + bytes)
        invariant var f := Forward(up, room, sends[i..]);
          goal == Forwarded(f.up, bytes + f.bytes, fwd || f.fwd, f.failed)
      {
        TcpStream.ForwardOnce(up, room, sends[i..]);
        ReadyHead(up, room);
        assert sends[i..][0] == sends[i] && sends[i..][1..] == sends[i + 1..];
        match sends[i] {
          case SendRetry =>
            break;
          case SendFailed =>
            WriteRst();
            return;
          case Sent(count) =>
            var left := |up.forward[0].data| - up.forward[0].sent;
            var n := Min(count, left);
            TakeHead(n);
            fwd, room, bytes := true, room - n, bytes + n;
            if n < left {
              return;
            }
        }
        i := i + 1;
      }
      TcpStream.ForwardOnce(up, room, sends[i..]);
    }

    // ----- check_tcp_socket

    /** The proxy's part of the handshake: what arrived. */
    method ProxyReceive(e: Ready)
      modifies this`socks5, this`log, this`state, this`up
      ensures View() == Model.ProxyReceive(old(View()), e)
    {
      hide U32, Model.WriteRst;
      if socks5 == NotConnected {
        if e.writable {
          socks5 := if e.proxy then Hello else Connected;
        }
      } else if e.readable {
        if !e.recv.Received? {
          WriteRst();
        } else {
          var b := e.recv.bytes[..Min(|e.recv.bytes|, 32)];
          log := log + [FromProxy(b)];
          ProxyReply(b);
        }
      }
    }

    method ProxyReply(b: seq<byte>)
      modifies this`socks5, this`log, this`state, this`up
      ensures View() == Model.ProxyReply(old(View()), b)
    {
      hide U32, Model.WriteRst;
      if socks5 == Hello && |b| == 2 && b[0] == 5 {
        if b[1] == 0 {
          socks5 := Connect;
        } else if b[1] == 2 {
          socks5 := Auth;
        } else {
          socks5 := Refused;
          WriteRst();
        }
      } else if socks5 == Auth && |b| == 2 && (b[0] == 1 || b[0] == 5) {
        if b[1] == 0 {
          socks5 := Connect;
        } else {
          socks5 := Refused;
          WriteRst();
        }
      } else if socks5 == Connect && |b| == 6 + (if ipv4 then 4 else 16) && b[0] == 5 {
        if b[1] == 0 {
          socks5 := Connected;
        } else {
          socks5 := Refused;
          WriteRst();
        }
      } else {
        socks5 := Refused;
        WriteRst();
      }
    }

    /** The proxy's part of the handshake: what is sent next, or the answer to the SYN. */
    method ProxySend(e: Ready)
      modifies this`log, this`state, this`up, this`down, this`book
      ensures View() == Model.ProxySend(old(View()), e)
    {
      hide U32, Model.WriteRst, Model.WriteOrClose;
      if socks5 == Hello || socks5 == Auth || socks5 == Connect {
        log := log + [ToProxy(socks5)];
        if !e.proxySendOk {
          WriteRst();
        }
      } else if socks5 == Connected {
        up := up.(seqno := U32(up.seqno + 1));
        WriteOrClose(true, false, [], e.writeOk);
        if e.writeOk {
          book := book.(time := e.now);
          down := down.(seqno := U32(down.seqno + 1));
          state := SynRecv;
        }
      }
    }

    method Acknowledge(fwd: bool, e: Ready)
      modifies this`recvWindow, this`up, this`log, this`state, this`book
      ensures View() == Model.Acknowledge(old(View()), fwd, e)
    {
      hide U32, Model.WriteOrClose, ReceiveWindow;
      var window := GetReceiveWindow(e.bufferAfter);
      var prev := recvWindow;
      recvWindow := window;
      if fwd || (prev == 0 && window > 0) {
        if fwd && up.forward == [] && state == CloseWait {
          up := up.(seqno := U32(up.seqno + 1));
        }
        WriteOrClose(false, false, [], e.ackOk);
        if e.ackOk {
          book := book.(time := e.now);
        }
      }
    }

    method ServerEof(ok: bool)
      modifies this`up, this`log, this`state, this`down, this`socket
      ensures View() == Model.ServerEof(old(View()), ok)
    {
      hide U32, TcpPacket, Model.WriteRst;
      if up.forward == [] {
        WriteOrClose(false, true, [], ok);
        if ok {
          down := down.(seqno := U32(down.seqno + 1));
        }
        if state == Established {
          state := FinWait1;
        } else if state == CloseWait {
          state := LastAck;
        }
      } else {
        WriteRst();
      }
      socket := false;
    }

    method ReadServer(e: Ready)
      modifies this`book, this`up, this`log, this`state, this`down, this`socket
      ensures View() == Model.ReadServer(old(View()), e)
    {
      hide U32, U16, Model.WriteOrClose, Model.WriteRst, Model.ServerEof, SendWindow;
      if state == Established || state == CloseWait {
        var window := SendWindow(down);
        if e.readable && window > 0 {
          book := book.(time := e.now);
          match e.recv {
            case RecvRetry =>
            case RecvFailed =>
              WriteRst();
            case Received(bytes) =>
              var data := bytes[..Min(|bytes|, Min(window, down.mss))];
              if data == [] {
                ServerEof(e.writeOk);
              } else {
                book := book.(received := book.received + |data|);
                down := down.(read := down.read + data);
                WriteOrClose(false, false, data, e.writeOk);
                if e.writeOk {
                  down := down.(seqno := U32(down.seqno + |data|), unconfirmed := U16(down.unconfirmed + 1));
                }
              }
          }
        }
      }
    }

    method CheckTcpSocket(e: Ready)
      modifies this
      ensures View() == Model.CheckTcpSocket(old(View()), e)
    {
      hide U32, Model.WriteRst, Model.ProxySend, Model.ProxyReceive, Model.Acknowledge, Model.ReadServer;
      hide ForwardStep, Forward;
      if e.error {
        book := book.(time := e.now);
        WriteRst();
      } else if state == Listen {
        ProxyReceive(e);
        ProxySend(e);
      } else {
        var fwd := false;
        if e.writable {
          fwd := ForwardData(e.buffer, e.sends);
        } else {
          NothingForwarded(View());
        }
        Acknowledge(fwd, e);
        ReadServer(e);
      }
    }

    // ----- handle_tcp for a known session

    method RemoteFin(ackOk: bool)
      modifies this`up, this`log, this`state
      ensures View() == Model.RemoteFin(old(View()), ackOk)
    {
      hide U32, TcpPacket;
      if state == Established {
        if up.forward == [] {
          up := up.(seqno := U32(up.seqno + 1));
          WriteOrClose(false, false, [], ackOk);
          if ackOk {
            state := CloseWait;
          }
        } else {
          state := CloseWait;
        }
      } else if state == FinWait1 {
        up := up.(seqno := U32(up.seqno + 1));
        WriteOrClose(false, false, [], ackOk);
        if ackOk {
          state := Close;
        }
      }
    }

    method HandleFlags(p: Packet, ackOk: bool)
      modifies this`up, this`log, this`state, this`down
      ensures View() == Model.HandleFlags(old(View()), p, ackOk)
    {
      hide U32, Model.WriteRst, Model.RemoteFin, CompareU32;
      if p.rst {
        state := Closing;
      } else if !p.ack || p.ackSeq == down.seqno {
        if p.syn {
        } else if p.fin {
          RemoteFin(ackOk);
        } else if p.ack {
          down := down.(acked := p.ackSeq);
          if state == SynRecv {
            state := Established;
          } else if state == LastAck {
            state := Closing;
          }
        }
      } else if U32(p.ackSeq + 1) == down.seqno {
      } else if CompareU32(p.ackSeq, down.seqno) < 0 {
        if CompareU32(p.ackSeq, down.acked) > 0 {
          down := down.(acked := p.ackSeq);
        }
      } else {
        WriteRst();
      }
    }

    method HandleTcp(p: Packet, allowed: bool, ackOk: bool, now: int)
      modifies this
      ensures View() == Model.HandleTcp(old(View()), p, allowed, ackOk, now)
    {
      hide U32, Model.WriteRst, Model.HandleFlags, Model.QueueTcp, Shl;
      if p.urg {
        return;
      }
      if !allowed || state == Closing || state == Close {
        WriteRst();
        return;
      }
      if !p.syn {
        book := book.(time := now);
      }
      down := down.(window := U32(Shl(p.window, down.scale)), unconfirmed := 0);
      if p.data != [] {
        if !socket || state == CloseWait {
          WriteRst();
          return;
        }
        QueueTcp(p);
      }
      HandleFlags(p, ackOk);
    }

    // ----- the periodic checks

    method CheckTcpSession(now: int, sessions: nat, maxSessions: pos) returns (del: bool)
      modifies this
      ensures (View(), del) == Model.CheckTcpSession(old(View()), now, sessions, maxSessions)
    {
      hide U32, Model.WriteRst, Timeout;
      var timeout := Timeout(state, sessions, maxSessions);
      if state != Closing && state != Close && book.time + timeout < now {
        if state == Listen {
          state := Closing;
        } else {
          WriteRst();
        }
      }
      if state == Closing {
        socket := false;
        book := book.(time := now);
        state := Close;
      }
      if (state == Closing || state == Close) && (book.sent != 0 || book.received != 0) {
        book := book.(sent := 0, received := 0);
      }
      del := state == Close && book.time + TCP_KEEP_TIMEOUT < now;
    }

    method SendKeepAlive(ms: int, ok: bool)
      modifies this`book, this`up, this`log, this`state
      ensures View() == KeepAlive(old(View()), ms, ok) && book == old(book).(lastKeepAlive := ms)
    {
      hide U32, Model.WriteOrClose;
      book := book.(lastKeepAlive := ms);
      up := up.(seqno := U32(up.seqno - 1));
      WriteOrClose(false, false, [], ok);
      up := up.(seqno := U32(up.seqno + 1));
    }

    method MonitorTcpSession(buffer: nat, ms: int, epollOk: bool, ackOk: bool)
      modifies this
      ensures View() == Model.MonitorTcpSession(old(View()), buffer, ms, epollOk, ackOk)
    {
      hide U32, KeepAlive, SendWindow, HeadReady;
      var wantIn, wantOut := false, false;
      if state == Listen {
        wantIn := socks5 != NotConnected;
        wantOut := socks5 == NotConnected;
      } else if state == Established || state == CloseWait {
        var ready := HeadReady(up, buffer);
        if SendWindow(down) > 0 {
          wantIn := true;
        } else if ms - book.lastKeepAlive > EPOLL_MIN_CHECK {
          SendKeepAlive(ms, ackOk);
        }
        wantOut := ready;
      }
      if wantIn != book.watchIn || wantOut != book.watchOut {
        book := book.(watchIn := wantIn, watchOut := wantOut);
        if !epollOk {
          state := Closing;
        }
      }
    }

    // ----- one event

    method Handle(e: Event)
      modifies this
      ensures View() == Step(old(View()), e)
    {
      hide Model.HandleTcp, Model.CheckTcpSocket, Model.CheckTcpSession, Model.MonitorTcpSession, Model.WriteRst;
      match e {
        case Tun(p, allowed, ackOk, now) =>
          HandleTcp(p, allowed, ackOk, now);
        case Socket(ready) =>
          if socket {
            CheckTcpSocket(ready);
          }
        case Check(now, sessions, maxSessions) =>
          var _ := CheckTcpSession(now, sessions, maxSessions);
        case Monitor(buffer, ms, epollOk, ackOk) =>
          if socket {
            MonitorTcpSession(buffer, ms, epollOk, ackOk);
          }
        case Disallow =>
          if state != Closing && state != Close {
            WriteRst();
          }
      }
    }
  }

  /** A session driven by any events behaves as a run of the model: in particular, with data that agrees with one stream,
      the server takes a prefix of it. */
  method Drive(p: Packet, ipv4: bool, mss: u16, scale: nat, isn: u32, buffer: nat, allowed: bool, now: int,
               events: seq<Event>, ghost stream: seq<byte>) returns (s: Session)
    ensures s.View() == Run(NewSession(p, ipv4, mss, scale, isn, buffer, allowed, now), events)
    ensures p.data == [] &&
            TcpStream.RunAgrees(NewSession(p, ipv4, mss, scale, isn, buffer, allowed, now), events, stream) ==>
              s.up.taken <= stream
  {
    hide Step, NewSession;
    ghost var r := NewSession(p, ipv4, mss, scale, isn, buffer, allowed, now);
    s := new Session(p, ipv4, mss, scale, isn, buffer, allowed, now);
    assert events[0..] == events;
    for i := 0 to |events|
      invariant fresh(s) && Run(s.View(), events[i..]) == Run(r, events)
    {
      assert events[i..][1..] == events[i + 1..];
      s.Handle(events[i]);
    }
    if p.data == [] && TcpStream.RunAgrees(r, events, stream) {
      TcpStream.ServerTakesPrefix(p, ipv4, mss, scale, isn, buffer, allowed, now, events, stream);
    }
  }

  lemma CompareSign(a: u32, b: u32)
    ensures CompareU32(b, a) == 0 <==> a == b
  {
  }

  lemma ReadyHead(u: Up, room: int)
    requires HeadReady(u, room)
    ensures u.forward != [] && u.forward[0].sent <= |u.forward[0].data|
  {
  }

  lemma NothingForwarded(r: Relay)
    ensures ForwardStep(r, Forwarded(r.up, 0, false, false)) == r
  {
  }
}
