/** The TCP relay of tcp.c as a value: one session, with what it has written to its environment, and one
    function per handler.  Results of system calls come in with the events. */
module TcpModel {
  import opened Serial

  const TCP_INIT_TIMEOUT := 20
  const TCP_IDLE_TIMEOUT := 3600
  const TCP_CLOSE_TIMEOUT := 20
  const TCP_KEEP_TIMEOUT := 300
  const EPOLL_MIN_CHECK := 100
  const MAX_HEADER := 40

  datatype State = Listen | SynRecv | Established | CloseWait | FinWait1 | LastAck | Closing | Close

  /** The proxy handshake; Refused is the value 0 that the code stores after a failure. */
  datatype Socks = Refused | NotConnected | Hello | Auth | Connect | Connected

  /** A queued piece of the application's stream: its length is that of its data. */
  datatype Segment = Segment(seqno: u32, data: seq<byte>, sent: nat, psh: bool)

  /** A TCP packet, from the tun device or to it. */
  datatype Packet = Packet(seqno: u32, ackSeq: u32, window: u16, syn: bool, ack: bool, psh: bool,
                           fin: bool, rst: bool, urg: bool, data: seq<byte>)

  /** A write to the tun device records whether it succeeded; nobody looks at the result for a reset, which is recorded
      as a success. */
  datatype Effect =
    | ToTun(packet: Packet, ok: bool)
    | ToProxy(phase: Socks)
    | FromProxy(reply: seq<byte>)

  /** From the application to the server: the SYN's number, remote_seq, the queue, and all bytes that send
      has taken so far. */
  datatype Up = Up(start: u32, seqno: u32, forward: seq<Segment>, taken: seq<byte>)

  /** From the server to the application: our SYN's number, local_seq, what the peer acknowledged and
      announced, and all bytes that recv has given so far. */
  datatype Down = Down(start: u32, seqno: u32, acked: u32, window: u32, unconfirmed: u16,
                       mss: u16, scale: nat, read: seq<byte>)

  /** The fields that only serve timing, statistics and polling. */
  datatype Book = Book(time: int, lastKeepAlive: int, sent: nat, received: nat, watchIn: bool, watchOut: bool)

  /** A session's fields, grouped by direction; log holds all writes to the tun device and all traffic with
      the proxy. */
  datatype Relay = Relay(
    state: State, socks5: Socks, socket: bool, ipv4: bool, recvScale: nat, recvWindow: u32,
    up: Up, down: Down, book: Book, log: seq<Effect>)

  /** What one call of send gives: a byte count, EINTR or EAGAIN, or another error. */
  datatype SendResult = Sent(count: nat) | SendRetry | SendFailed

  /** What one call of recv gives; no bytes means end of file. */
  datatype RecvResult = Received(bytes: seq<byte>) | RecvRetry | RecvFailed

  datatype Ready = Ready(
    error: bool, readable: bool, writable: bool,  // the epoll event
    proxy: bool,                                  // a SOCKS5 server is configured
    buffer: nat, bufferAfter: nat,                // free send buffer before and after forwarding
    sends: seq<SendResult>, recv: RecvResult,
    proxySendOk: bool, ackOk: bool, writeOk: bool, now: int)

  datatype Event =
    | Tun(p: Packet, allowed: bool, ackOk: bool, now: int)
    | Socket(ready: Ready)
    | Check(now: int, sessions: nat, maxSessions: pos)
    | Monitor(buffer: nat, ms: int, epollOk: bool, ackOk: bool)
    | Disallow

  // ----- writing to the tun device

  /** Shifts by n bits, one at a time. */
  function Shl(x: nat, n: nat): nat
    decreases n
  {
    if n == 0 then x else Shl(2 * x, n - 1)
  }

  function Shr(x: nat, n: nat): nat
    decreases n
  {
    if n == 0 then x else Shr(x / 2, n - 1)
  }

  function TcpPacket(r: Relay, syn: bool, ack: bool, fin: bool, rst: bool, data: seq<byte>): Packet {
    Packet(r.down.seqno, if ack then r.up.seqno else 0, U16(Shr(r.recvWindow, r.recvScale)),
           syn, ack, false, fin, rst, false, data)
  }

  function WriteTcp(r: Relay, syn: bool, ack: bool, fin: bool, rst: bool, data: seq<byte>, ok: bool): Relay {
    r.(log := r.log + [ToTun(TcpPacket(r, syn, ack, fin, rst, data), ok)])
  }

  /** The write helpers share one shape: a failed write starts closing the session. */
  function WriteOrClose(r: Relay, syn: bool, fin: bool, data: seq<byte>, ok: bool): Relay {
    var w := WriteTcp(r, syn, true, fin, false, data, ok);
    if ok then w else w.(state := Closing)
  }

  function WriteAck(r: Relay, ok: bool): Relay {
    WriteOrClose(r, false, false, [], ok)
  }

  function WriteRst(r: Relay): Relay {
    var w := WriteTcp(if r.state == Listen then CountRemote(r, 1) else r,
                      false, r.state == Listen, false, true, [], true);
    if w.state != Close then w.(state := Closing) else w
  }

  // ----- small updates

  /** remote_seq moves by n: the SYN or the FIN, or back and forth around a keep-alive. */
  function CountRemote(r: Relay, n: int): Relay {
    r.(up := r.up.(seqno := U32(r.up.seqno + n)))
  }

  function CountLocal(r: Relay, n: int): Relay {
    r.(down := r.down.(seqno := U32(r.down.seqno + n)))
  }

  function At(r: Relay, now: int): Relay {
    r.(book := r.book.(time := now))
  }

  // ----- windows and timeouts

  function SendWindow(d: Down): u32 {
    var distance := if d.acked <= d.seqno then d.seqno - d.acked
                    else U32(0x1_0000 + d.seqno - d.acked);
    var behind := U32(distance + (d.unconfirmed + 1) * MAX_HEADER);
    if behind < d.window then d.window - behind else 0
  }

  /** Bytes queued for the server, before truncation to 32 bits. */
  function Queued(forward: seq<Segment>): int {
    if forward == [] then 0
    else |forward[0].data| - forward[0].sent + Queued(forward[1..])
  }

  function ReceiveWindow(forward: seq<Segment>, buffer: nat, scale: nat): u32 {
    var toForward := U32(Queued(forward));
    var window := Min(buffer, U32(Shl(0xFFFF, scale)));
    if toForward < window then window - toForward else 0
  }

  /** A timeout shrinks as the number of sessions approaches the maximum. */
  function Scaled(timeout: int, sessions: nat, maxSessions: pos): int {
    CDiv(timeout * (100 - CDiv(sessions * 100, maxSessions)), 100)
  }

  function Timeout(state: State, sessions: nat, maxSessions: pos): int {
    var base := match state
      case Listen | SynRecv => TCP_INIT_TIMEOUT
      case Established => TCP_IDLE_TIMEOUT
      case _ => TCP_CLOSE_TIMEOUT;
    Scaled(base, sessions, maxSessions)
  }

  // ----- the forward queue

  function QueueInsert(forward: seq<Segment>, n: Segment): seq<Segment> {
    if forward == [] then [n]
    else if CompareU32(forward[0].seqno, n.seqno) < 0 then [forward[0]] + QueueInsert(forward[1..], n)
    else if CompareU32(forward[0].seqno, n.seqno) > 0 then [n] + forward
    else if |forward[0].data| == |n.data| then forward
    else [forward[0].(data := n.data)] + forward[1..]
  }

  function QueueTcp(u: Up, p: Packet): Up {
    if CompareU32(p.seqno, u.seqno) < 0 then u
    else u.(forward := QueueInsert(u.forward, Segment(p.seqno, p.data, 0, p.psh)))
  }

  /** The head of the queue is next in line and what is left of it fits the send buffer. */
  predicate HeadReady(u: Up, buffer: int) {
    && u.forward != []
    && u.forward[0].seqno == u.seqno
    && 0 <= |u.forward[0].data| - u.forward[0].sent < buffer
  }

  /** One successful send of the head: the queue and the position move only when all of it is gone. */
  function Take(u: Up, n: nat): Up
    requires u.forward != []
    requires u.forward[0].sent + n <= |u.forward[0].data|
  {
    var h := u.forward[0];
    var taken := u.taken + h.data[h.sent..h.sent + n];
    if h.sent + n == |h.data|
    then Up(u.start, U32(h.seqno + h.sent + n), u.forward[1..], taken)
    else Up(u.start, u.seqno, [h.(sent := h.sent + n)] + u.forward[1..], taken)
  }

  /** How the forwarding loop ended: the stream side, the bytes sent, whether any send succeeded, and
      whether a send failed for good. */
  datatype Forwarded = Forwarded(up: Up, bytes: nat, fwd: bool, failed: bool)

  function Forward(u: Up, buffer: int, sends: seq<SendResult>): Forwarded
    decreases |sends|
  {
    if sends == [] || !HeadReady(u, buffer) then Forwarded(u, 0, false, false)
    else
      match sends[0]
      case SendRetry => Forwarded(u, 0, false, false)
      case SendFailed => Forwarded(u, 0, false, true)
      case Sent(count) =>
        var left := |u.forward[0].data| - u.forward[0].sent;
        var n := Min(count, left);
        if n < left then Forwarded(Take(u, n), n, true, false)
        else
          var f := Forward(Take(u, n), buffer - n, sends[1..]);
          Forwarded(f.up, n + f.bytes, true, f.failed)
  }

  function ForwardStep(r: Relay, f: Forwarded): Relay {
    var s := r.(up := f.up, book := r.book.(sent := r.book.sent + f.bytes));
    if f.failed then WriteRst(s) else s
  }

  // ----- check_tcp_socket

  function ProxyReply(r: Relay, b: seq<byte>): Relay {
    if r.socks5 == Hello && |b| == 2 && b[0] == 5 then
      if b[1] == 0 then r.(socks5 := Connect)
      else if b[1] == 2 then r.(socks5 := Auth)
      else WriteRst(r.(socks5 := Refused))
    else if r.socks5 == Auth && |b| == 2 && (b[0] == 1 || b[0] == 5) then
      if b[1] == 0 then r.(socks5 := Connect) else WriteRst(r.(socks5 := Refused))
    else if r.socks5 == Connect && |b| == 6 + (if r.ipv4 then 4 else 16) && b[0] == 5 then
      if b[1] == 0 then r.(socks5 := Connected) else WriteRst(r.(socks5 := Refused))
    else WriteRst(r.(socks5 := Refused))
  }

  function ProxyReceive(r: Relay, e: Ready): Relay {
    if r.socks5 == NotConnected then
      if e.writable then r.(socks5 := if e.proxy then Hello else Connected) else r
    else if !e.readable then r
    else match e.recv
      case Received(bytes) =>
        var b := bytes[..Min(|bytes|, 32)];
        ProxyReply(r.(log := r.log + [FromProxy(b)]), b)
      case _ => WriteRst(r)
  }

  function ProxySend(r: Relay, e: Ready): Relay {
    if r.socks5 == Hello || r.socks5 == Auth || r.socks5 == Connect then
      var s := r.(log := r.log + [ToProxy(r.socks5)]);
      if e.proxySendOk then s else WriteRst(s)
    else if r.socks5 == Connected then
      var w := WriteOrClose(CountRemote(r, 1), true, false, [], e.writeOk);
      if e.writeOk then CountLocal(At(w, e.now), 1).(state := SynRecv) else w
    else r
  }

  function Acknowledge(r: Relay, fwd: bool, e: Ready): Relay {
    var window := ReceiveWindow(r.up.forward, e.bufferAfter, r.recvScale);
    var s := r.(recvWindow := window);
    if fwd || (r.recvWindow == 0 && window > 0) then
      var w := WriteAck(if fwd && s.up.forward == [] && s.state == CloseWait then CountRemote(s, 1) else s,
                        e.ackOk);
      if e.ackOk then At(w, e.now) else w
    else s
  }

  function ServerEof(r: Relay, ok: bool): Relay {
    var s :=
      if r.up.forward == [] then
        var w := WriteOrClose(r, false, true, [], ok);
        var l := if ok then CountLocal(w, 1) else w;
        if l.state == Established then l.(state := FinWait1)
        else if l.state == CloseWait then l.(state := LastAck)
        else l
      else WriteRst(r);
    s.(socket := false)
  }

  function ServerData(r: Relay, data: seq<byte>, ok: bool): Relay {
    var s := r.(book := r.book.(received := r.book.received + |data|),
                down := r.down.(read := r.down.read + data));
    var w := WriteOrClose(s, false, false, data, ok);
    if ok then w.(down := s.down.(seqno := U32(s.down.seqno + |data|),
                                  unconfirmed := U16(s.down.unconfirmed + 1))) else w
  }

  function ReadServer(r: Relay, e: Ready): Relay {
    var window := SendWindow(r.down);
    if (r.state == Established || r.state == CloseWait) && e.readable && window > 0 then
      var t := At(r, e.now);
      match e.recv
      case RecvRetry => t
      case RecvFailed => WriteRst(t)
      case Received(bytes) =>
        var data := bytes[..Min(|bytes|, Min(window, r.down.mss))];
        if data == [] then ServerEof(t, e.writeOk) else ServerData(t, data, e.writeOk)
    else r
  }

  function CheckTcpSocket(r: Relay, e: Ready): Relay {
    if e.error then WriteRst(At(r, e.now))
    else if r.state == Listen then ProxySend(ProxyReceive(r, e), e)
    else
      var f := if e.writable then Forward(r.up, e.buffer, e.sends) else Forwarded(r.up, 0, false, false);
      ReadServer(Acknowledge(ForwardStep(r, f), f.fwd, e), e)
  }

  // ----- handle_tcp

  /** A new session for a SYN; scale is the window shift and isn the random initial number. */
  function NewSession(p: Packet, ipv4: bool, mss: u16, scale: nat, isn: u32, buffer: nat,
                      allowed: bool, now: int): Relay {
    var forward := if p.data == [] then [] else [Segment(p.seqno, p.data, 0, p.psh)];
    var r := Relay(Listen, NotConnected, true, ipv4, scale, ReceiveWindow(forward, buffer, scale),
                   Up(p.seqno, p.seqno, forward, []),
                   Down(isn, isn, 0, U32(Shl(p.window, scale)), 0, mss, scale, []),
                   Book(now, 0, 0, 0, false, true), []);
    if allowed then r else WriteRst(r)
  }

  function RemoteFin(r: Relay, ackOk: bool): Relay {
    match r.state
    case Established =>
      if r.up.forward == [] then
        var w := WriteAck(CountRemote(r, 1), ackOk);
        if ackOk then w.(state := CloseWait) else w
      else r.(state := CloseWait)
    case FinWait1 =>
      var w := WriteAck(CountRemote(r, 1), ackOk);
      if ackOk then w.(state := Close) else w
    case _ => r
  }

  function FullAck(r: Relay, ackSeq: u32): Relay {
    var a := r.(down := r.down.(acked := ackSeq));
    match r.state
    case SynRecv => a.(state := Established)
    case LastAck => a.(state := Closing)
    case _ => a
  }

  function HandleFlags(r: Relay, p: Packet, ackOk: bool): Relay {
    if p.rst then r.(state := Closing)
    else if !p.ack || p.ackSeq == r.down.seqno then
      if p.syn then r
      else if p.fin then RemoteFin(r, ackOk)
      else if p.ack then FullAck(r, p.ackSeq)
      else r
    else if U32(p.ackSeq + 1) == r.down.seqno then r
    else if CompareU32(p.ackSeq, r.down.seqno) < 0 then
      if CompareU32(p.ackSeq, r.down.acked) <= 0 then r
      else r.(down := r.down.(acked := p.ackSeq))
    else WriteRst(r)
  }

  /** The part of a packet's handling that every accepted packet shares. */
  function Heard(r: Relay, p: Packet, now: int): Relay {
    (if p.syn then r else At(r, now)).(
      down := r.down.(window := U32(Shl(p.window, r.down.scale)), unconfirmed := 0))
  }

  function HandleTcp(r: Relay, p: Packet, allowed: bool, ackOk: bool, now: int): Relay {
    if p.urg then r
    else if !allowed || r.state == Closing || r.state == Close then WriteRst(r)
    else
      var h := Heard(r, p, now);
      if p.data == [] then HandleFlags(h, p, ackOk)
      else if !r.socket || r.state == CloseWait then WriteRst(h)
      else HandleFlags(h.(up := QueueTcp(r.up, p)), p, ackOk)
  }

  // ----- the periodic checks

  function Expire(r: Relay, now: int, sessions: nat, maxSessions: pos): Relay {
    if r.state != Closing && r.state != Close && r.book.time + Timeout(r.state, sessions, maxSessions) < now
    then if r.state == Listen then r.(state := Closing) else WriteRst(r)
    else r
  }

  /** The session after check_tcp_session, and whether it is to be freed. */
  function CheckTcpSession(r: Relay, now: int, sessions: nat, maxSessions: pos): (Relay, bool) {
    var r1 := Expire(r, now, sessions, maxSessions);
    var r2 := if r1.state == Closing then At(r1, now).(socket := false, state := Close) else r1;
    var r3 := if r2.state == Close then r2.(book := r2.book.(sent := 0, received := 0)) else r2;
    (r3, r3.state == Close && r3.book.time + TCP_KEEP_TIMEOUT < now)
  }

  /** A keep-alive acknowledges one byte less than the position and then restores it. */
  function KeepAlive(r: Relay, ms: int, ok: bool): Relay {
    CountRemote(WriteAck(CountRemote(r.(book := r.book.(lastKeepAlive := ms)), -1), ok), 1)
  }

  function MonitorTcpSession(r: Relay, buffer: nat, ms: int, epollOk: bool, ackOk: bool): Relay {
    var data := r.state == Established || r.state == CloseWait;
    var open := SendWindow(r.down) > 0;
    var s := if data && !open && ms - r.book.lastKeepAlive > EPOLL_MIN_CHECK
             then KeepAlive(r, ms, ackOk) else r;
    var watchIn := if r.state == Listen then r.socks5 != NotConnected else data && open;
    var watchOut := if r.state == Listen then r.socks5 == NotConnected else data && HeadReady(r.up, buffer);
    if watchIn == r.book.watchIn && watchOut == r.book.watchOut then s
    else
      var m := s.(book := s.book.(watchIn := watchIn, watchOut := watchOut));
      if epollOk then m else m.(state := Closing)
  }

  // ----- runs

  /** One event.  Sockets that are closed give no events, and check_allowed skips closing sessions. */
  function Step(r: Relay, e: Event): Relay {
    match e
    case Tun(p, allowed, ackOk, now) => HandleTcp(r, p, allowed, ackOk, now)
    case Socket(ready) => if r.socket then CheckTcpSocket(r, ready) else r
    case Check(now, sessions, maxSessions) => CheckTcpSession(r, now, sessions, maxSessions).0
    case Monitor(buffer, ms, epollOk, ackOk) =>
      if r.socket then MonitorTcpSession(r, buffer, ms, epollOk, ackOk) else r
    case Disallow => if r.state == Closing || r.state == Close then r else WriteRst(r)
  }

  function Run(r: Relay, events: seq<Event>): Relay
    decreases |events|
  {
    if events == [] then r else Run(Step(r, events[0]), events[1..])
  }
}
