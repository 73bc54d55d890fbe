/** The way back to the application, over every run: the bytes read from the server go out exactly once, in
    order and numbered without gaps, until a write fails; what was acknowledged only moves forward; and data stays
    within the window that the application announced. */
module TcpDown {
  import opened Serial
  import opened TcpModel
  import opened TcpShapes
  import opened TcpStates
  import opened TcpWrites

  // ----- acknowledgements and the send window

  /** Bytes sent and not yet acknowledged. */
  function InFlight(d: Down): u32 {
    U32(d.seqno - d.acked)
  }

  predicate DataState(s: State) {
    s in {Established, CloseWait, FinWait1, LastAck}
  }

  /** 0x3FFF_C000 is the largest window that a shift of at most 14 can announce. */
  predicate WindowInv(r: Relay) {
    && r.down.scale <= 14
    && r.down.window <= 0x3FFF_C000
    && (DataState(r.state) ==> InFlight(r.down) <= 0x3FFF_C000)
  }

  /** The one combination of words in which an old acknowledgement passes for a new one. */
  predicate Corner(d: Down, ackSeq: u32) {
    d.seqno == 0 && d.acked == 0xFFFF_FFFF && ackSeq == 0x8000_0000
  }

  /** Of all acknowledgements other than local_seq itself, the two comparisons of handle_tcp accept exactly
      those strictly between what is acknowledged and what is sent, and the corner case. */
  lemma AcceptedExactly(d: Down, ackSeq: u32)
    requires InFlight(d) <= 0x3FFF_C000
    ensures CompareU32(ackSeq, d.seqno) < 0 && CompareU32(ackSeq, d.acked) > 0 <==>
            0 < U32(ackSeq - d.acked) < InFlight(d) || Corner(d, ackSeq)
  {
  }

  /** get_send_window, with its wrap branch: in that branch it counts 64 KiB too many, and otherwise it is the
      announced window less what is in flight and the headers. */
  lemma SendWindowExactly(d: Down)
    requires InFlight(d) <= 0x3FFF_C000
    ensures var used := InFlight(d) + (if d.acked <= d.seqno then 0 else 0x1_0000) + (d.unconfirmed + 1) * 40;
      SendWindow(d) == if used < d.window then d.window - used else 0
  {
  }

  lemma {:induction false} ShlMonotone(x: nat, y: nat, n: nat, m: nat)
    requires x <= y && n <= m
    ensures Shl(x, n) <= Shl(y, m)
    decreases m
  {
    if m > 0 {
      if n == 0 {
        ShlMonotone(x, 2 * y, 0, m - 1);
      } else {
        ShlMonotone(2 * x, 2 * y, n - 1, m - 1);
      }
    }
  }

  lemma WindowBound(w: u16, scale: nat)
    requires scale <= 14
    ensures U32(Shl(w, scale)) <= 0x3FFF_C000
  {
    ShlMonotone(w, 0xFFFF, scale, 14);
    assert Shl(0xFFFF, 14) == 0x3FFF_C000;
  }

  /** acked has moved forward, or not at all, and not beyond what had been sent. */
  predicate Advances(d: Down, d': Down) {
    U32(d'.acked - d.acked) <= InFlight(d)
  }

  predicate Accepts(d: Down, p: Packet) {
    p.ack && CompareU32(p.ackSeq, d.seqno) < 0 && CompareU32(p.ackSeq, d.acked) > 0
  }

  lemma FlagsAckShape(r: Relay, p: Packet, ackOk: bool)
    ensures var q := HandleFlags(r, p, ackOk);
      && q.down == r.down.(acked := q.down.acked)
      && (|| q.down.acked == r.down.acked
          || q.down.acked == r.down.seqno
          || (Accepts(r.down, p) && q.down.acked == p.ackSeq))
      && (DataState(q.state) && !DataState(r.state) ==> q.down.acked == r.down.seqno)
  {
    hide U32, CompareU32, WriteRst, TcpPacket;
    WriteRstShape(r);
  }

  lemma FlagsAck(r: Relay, p: Packet, ackOk: bool)
    requires DataState(r.state) ==> InFlight(r.down) <= 0x3FFF_C000 && !(p.ack && Corner(r.down, p.ackSeq))
    ensures var q := HandleFlags(r, p, ackOk);
      && q.down == r.down.(acked := q.down.acked)
      && (DataState(q.state) ==> InFlight(q.down) <= 0x3FFF_C000)
      && (DataState(r.state) ==> Advances(r.down, q.down))
  {
    FlagsAckShape(r, p, ackOk);
    hide HandleFlags;
    if DataState(r.state) {
      AcceptedExactly(r.down, p.ackSeq);
      hide CompareU32;
    }
  }

  lemma HeardWindow(r: Relay, p: Packet, now: int)
    requires WindowInv(r)
    ensures var h := Heard(r, p, now);
      && WindowInv(h) && h.state == r.state && h.up == r.up && h.socket == r.socket
      && h.down.acked == r.down.acked && h.down.seqno == r.down.seqno && InFlight(h.down) == InFlight(r.down)
  {
    WindowBound(p.window, r.down.scale);
    hide U32, Shl;
  }

  lemma AdvancesNot(d: Down)
    ensures Advances(d, d)
  {
  }

  /** One packet from the application, outside the corner case. */
  lemma HandleTcpAck(r: Relay, p: Packet, allowed: bool, ackOk: bool, now: int)
    requires WindowInv(r)
    requires DataState(r.state) ==> !(p.ack && Corner(r.down, p.ackSeq))
    ensures var q := HandleTcp(r, p, allowed, ackOk, now);
      WindowInv(q) && (DataState(r.state) ==> Advances(r.down, q.down))
  {
    hide U32, HandleFlags, WriteRst, QueueTcp, InFlight, Heard;
    var h := Heard(r, p, now);
    HeardWindow(r, p, now);
    FlagsAck(h, p, ackOk);
    FlagsAck(h.(up := QueueTcp(r.up, p)), p, ackOk);
    WriteRstShape(r);
    WriteRstShape(h);
    AdvancesNot(r.down);
    AdvancesNot(h.down);
  }

  lemma InFlightGrows(d: Down, d': Down, n: nat)
    requires d'.acked == d.acked && d'.seqno == U32(d.seqno + n) && InFlight(d) + n < 0x1_0000_0000
    ensures InFlight(d') == InFlight(d) + n
  {
    U32Add(d.seqno + n, 0 - d.acked);
    U32Add(d.seqno - d.acked, n);
    U32Id(InFlight(d) + n);
  }

  /** There is room for what the send window admits, and for a FIN. */
  lemma SendWindowRoom(d: Down)
    requires InFlight(d) <= 0x3FFF_C000 && SendWindow(d) > 0
    ensures InFlight(d) + SendWindow(d) + (d.unconfirmed + 1) * MAX_HEADER <= d.window
  {
    SendWindowExactly(d);
  }

  /** Every write of data leaves what is in flight within the window last announced. */
  lemma ReadServerWindow(r: Relay, e: Ready)
    requires WindowInv(r)
    ensures var q := ReadServer(r, e);
      && WindowInv(q) && q.down.acked == r.down.acked && q.down.window == r.down.window
      && (q.down.seqno != r.down.seqno ==> InFlight(q.down) <= q.down.window)
  {
    hide U32, U16, InFlight, ReadServer, SendWindow;
    var q := ReadServer(r, e);
    ReadServerShape(r, e);
    if r.state in {Established, CloseWait} && SendWindow(r.down) > 0 {
      SendWindowRoom(r.down);
      assert |ReadBytes(r, e)| <= SendWindow(r.down);
      if Finished(r, q) && q.down != r.down {
        InFlightGrows(r.down, q.down, 1);
      } else if Relayed(r, q, ReadBytes(r, e)) && q.state != Closing {
        InFlightGrows(r.down, q.down, |ReadBytes(r, e)|);
      }
    }
  }

  predicate AvoidsCorner(r: Relay, e: Event) {
    e.Tun? && e.p.ack && DataState(r.state) ==> !Corner(r.down, e.p.ackSeq)
  }

  lemma SocketWindow(r: Relay, e: Ready)
    requires WindowInv(r) && Sane(r) && r.socket
    ensures var q := CheckTcpSocket(r, e);
      && WindowInv(q) && q.down.window == r.down.window
      && (DataState(r.state) ==> q.down.acked == r.down.acked)
      && (DataState(r.state) && q.down.seqno != r.down.seqno ==> InFlight(q.down) <= r.down.window)
  {
    hide U32, InFlight, WriteRst, Forward, ForwardStep, Acknowledge, ReadServer, ProxySend, ProxyReceive;
    WriteRstShape(At(r, e.now));
    if r.state == Listen {
      ProxyReceiveShape(r, e);
      ProxySendShape(ProxyReceive(r, e), e);
    } else {
      var f := if e.writable then Forward(r.up, e.buffer, e.sends) else Forwarded(r.up, 0, false, false);
      AcknowledgeShape(r, f, e);
      AcknowledgeGrows(r, f, e);
      ReadServerWindow(Acknowledge(ForwardStep(r, f), f.fwd, e), e);
    }
  }

  /** One event keeps what is in flight bounded, moves acked only forward, and sends only within the window. */
  lemma StepWindow(r: Relay, e: Event)
    requires WindowInv(r) && Sane(r) && AvoidsCorner(r, e)
    ensures var q := Step(r, e);
      && WindowInv(q)
      && (DataState(r.state) ==> Advances(r.down, q.down))
      && (DataState(r.state) && q.down.seqno != r.down.seqno ==>
            InFlight(q.down) <= q.down.window && q.down.window == r.down.window)
  {
    hide U32, InFlight, WriteRst, CheckTcpSocket, HandleTcp, KeepAlive, SendWindow, HeadReady, Timeout;
    AdvancesNot(r.down);
    match e
    case Tun(p, allowed, ackOk, now) =>
      HandleTcpAck(r, p, allowed, ackOk, now);
      HandleTcpHears(r, p, allowed, ackOk, now);
    case Socket(ready) =>
      if r.socket {
        SocketWindow(r, ready);
        AdvancesSame(r.down, CheckTcpSocket(r, ready).down);
      }
    case Monitor(_, ms, _, ackOk) =>
      KeepAliveShape(r, ms, ackOk);
    case _ =>
      WriteRstShape(r);
  }

  lemma AdvancesSame(d: Down, d': Down)
    ensures d'.acked == d.acked ==> Advances(d, d')
  {
  }

  /** A plain acknowledgement moves acked forward if and only if it is not the corner case. */
  lemma AckAdvancesExactly(r: Relay, p: Packet, ackOk: bool, now: int)
    requires WindowInv(r) && DataState(r.state)
    requires p.ack && !p.urg && !p.rst && !p.syn && !p.fin && p.data == []
    ensures Advances(r.down, HandleTcp(r, p, true, ackOk, now).down) <==> !Corner(r.down, p.ackSeq)
  {
    if Corner(r.down, p.ackSeq) {
      assert HandleTcp(r, p, true, ackOk, now).down.acked == 0x8000_0000;
    } else {
      hide HandleTcp;
      HandleTcpAck(r, p, true, ackOk, now);
    }
  }

  // ----- what the application receives

  /** The data that a write brought to the application, or lost. */
  function Payload(e: Effect, ok: bool): seq<byte> {
    if e.ToTun? && e.ok == ok then e.packet.data else []
  }

  /** All data written to the tun device with success, in order, or without. */
  function TunData(log: seq<Effect>, ok: bool): seq<byte> {
    if log == [] then [] else TunData(log[..|log| - 1], ok) + Payload(log[|log| - 1], ok)
  }

  /** How many writes of data failed. */
  function FailedWrites(log: seq<Effect>): nat {
    if log == [] then 0
    else FailedWrites(log[..|log| - 1]) + if Payload(log[|log| - 1], false) != [] then 1 else 0
  }

  /** Every data packet carries the number of its first byte, with our SYN at start. */
  predicate Numbered(log: seq<Effect>, start: u32) {
    log != [] ==>
      var before, last := log[..|log| - 1], log[|log| - 1];
      && Numbered(before, start)
      && (last.ToTun? && last.packet.data != [] ==> last.packet.seqno == U32(start + 1 + |TunData(before, true)|))
  }

  /** The number local_seq stands for, by state. */
  predicate LocalInv(state: State, d: Down) {
    match state
    case Listen => d.seqno == d.start && d.read == []
    case SynRecv | Established | CloseWait => d.seqno == U32(d.start + 1 + |d.read|)
    case FinWait1 | LastAck => d.seqno == U32(d.start + 2 + |d.read|)
    case Closing | Close => true
  }

  /** What was read is what was written, and after it the data of at most one failed write, which closes the session. */
  predicate LogTells(log: seq<Effect>, state: State, read: seq<byte>) {
    && read == TunData(log, true) + TunData(log, false)
    && FailedWrites(log) <= 1
    && (FailedWrites(log) == 0 <==> TunData(log, false) == [])
    && (FailedWrites(log) == 1 ==> state in {Closing, Close})
  }

  predicate DownInv(r: Relay) {
    && LogTells(r.log, r.state, r.down.read)
    && Numbered(r.log, r.down.start)
    && LocalInv(r.state, r.down)
  }

  lemma {:induction false} TunDataGrown(log0: seq<Effect>, q: Relay, start: u32, opening: bool)
    requires Grown(log0, q, opening)
    ensures TunData(q.log, true) == TunData(log0, true) && TunData(q.log, false) == TunData(log0, false)
    ensures FailedWrites(q.log) == FailedWrites(log0)
    ensures Numbered(log0, start) ==> Numbered(q.log, start)
    decreases |q.log|
  {
    hide U32;
    if |q.log| == |log0| {
      assert q.log == log0;
    } else {
      assert Control(q.log[|q.log| - 1], q.up.seqno, opening);
      TunDataGrown(log0, q.(log := q.log[..|q.log| - 1]), start, opening);
    }
  }

  /** One more entry with data, when nothing was lost before. */
  lemma DataLogged(log: seq<Effect>, x: Effect, start: u32)
    requires x.ToTun? && x.packet.data != [] && x.packet.seqno == U32(start + 1 + |TunData(log, true)|)
    requires Numbered(log, start) && FailedWrites(log) == 0 && TunData(log, false) == []
    ensures var more := log + [x];
      && TunData(more, true) + TunData(more, false) == TunData(log, true) + x.packet.data
      && FailedWrites(more) == (if x.ok then 0 else 1)
      && (FailedWrites(more) == 0 <==> TunData(more, false) == [])
      && Numbered(more, start)
  {
    LogUnfolds(log, x, start);
    hide U32, TunData, FailedWrites, Numbered;
    assert TunData(log, true) + x.packet.data + [] == TunData(log, true) + x.packet.data;
    assert [] + x.packet.data == x.packet.data && TunData(log, true) + [] == TunData(log, true);
  }

  lemma LogUnfolds(log: seq<Effect>, x: Effect, start: u32)
    ensures var more := log + [x];
      && TunData(more, true) == TunData(log, true) + Payload(x, true)
      && TunData(more, false) == TunData(log, false) + Payload(x, false)
      && FailedWrites(more) == FailedWrites(log) + (if Payload(x, false) != [] then 1 else 0)
      && (Numbered(log, start) &&
          (x.ToTun? && x.packet.data != [] ==> x.packet.seqno == U32(start + 1 + |TunData(log, true)|)) ==>
            Numbered(more, start))
  {
    hide U32;
    assert (log + [x])[..|log|] == log;
  }

  lemma WrittenData(r: Relay, q: Relay, opening: bool)
    requires Written(r, q, opening)
    requires LogTells(r.log, r.state, r.down.read) && Numbered(r.log, r.down.start)
    requires r.state in {Closing, Close} ==> q.state in {Closing, Close}
    requires DataWritten(r, q) ==>
      r.state in {Established, CloseWait} && r.down.seqno == U32(r.down.start + 1 + |r.down.read|)
    ensures LogTells(q.log, q.state, q.down.read) && Numbered(q.log, r.down.start)
  {
    hide U32, SendWindow, Grown, TunData, FailedWrites, Numbered;
    if DataWritten(r, q) {
      var b := q.log[..|q.log| - 1];
      TunDataGrown(r.log, q.(log := b), r.down.start, false);
      assert r.down.read == TunData(r.log, true);
      DataLogged(b, q.log[|q.log| - 1], r.down.start);
      assert b + [q.log[|q.log| - 1]] == q.log;
    } else {
      TunDataGrown(r.log, q, r.down.start, opening);
    }
  }

  lemma LocalGrows(d: Down, k: nat, n: nat)
    requires d.seqno == U32(d.start + k)
    ensures U32(d.seqno + n) == U32(d.start + k + n)
  {
    U32Add(d.start + k, n);
  }

  lemma ReadServerLocal(r: Relay, e: Ready)
    requires LocalInv(r.state, r.down) && r.state != Listen
    ensures LocalInv(ReadServer(r, e).state, ReadServer(r, e).down)
    ensures ReadServer(r, e).down.start == r.down.start
  {
    hide U32, U16, ReadServer, SendWindow;
    ReadServerShape(r, e);
    if r.state in {Established, CloseWait} {
      LocalGrows(r.down, 1 + |r.down.read|, 1);
      LocalGrows(r.down, 1 + |r.down.read|, |ReadBytes(r, e)|);
    }
  }

  lemma StepLocal(r: Relay, e: Event)
    requires Sane(r) && LocalInv(r.state, r.down)
    ensures LocalInv(Step(r, e).state, Step(r, e).down) && Step(r, e).down.start == r.down.start
    ensures Step(r, e).down.read != r.down.read ==> r.state in {Established, CloseWait}
  {
    hide U32, WriteRst, CheckTcpSocket, HandleTcp, KeepAlive, SendWindow, HeadReady, Timeout;
    match e
    case Tun(p, allowed, ackOk, now) =>
      HandleTcpHears(r, p, allowed, ackOk, now);
      HandleTcpMoves(r, p, allowed, ackOk, now);
    case Socket(ready) =>
      if r.socket {
        SocketLocal(r, ready);
      }
    case Monitor(_, ms, _, ackOk) =>
      KeepAliveShape(r, ms, ackOk);
    case _ =>
      WriteRstShape(r);
  }

  lemma SocketLocal(r: Relay, e: Ready)
    requires Sane(r) && r.socket && LocalInv(r.state, r.down)
    ensures var q := CheckTcpSocket(r, e);
      && LocalInv(q.state, q.down) && q.down.start == r.down.start
      && (q.down.read != r.down.read ==> r.state in {Established, CloseWait})
  {
    hide U32, WriteRst, Forward, ForwardStep, Acknowledge, ReadServer, ProxySend, ProxyReceive;
    WriteRstShape(At(r, e.now));
    if r.state == Listen {
      ProxyReceiveShape(r, e);
      ProxySendShape(ProxyReceive(r, e), e);
      U32Id(r.down.start);
    } else {
      var f := if e.writable then Forward(r.up, e.buffer, e.sends) else Forwarded(r.up, 0, false, false);
      var a := Acknowledge(ForwardStep(r, f), f.fwd, e);
      AcknowledgeShape(r, f, e);
      AcknowledgeGrows(r, f, e);
      ReadServerLocal(a, e);
      ReadServerShape(a, e);
    }
  }

  /** One event writes exactly what it reads from the server, with the right number, or loses it and closes. */
  lemma StepDown(r: Relay, e: Event)
    requires Sane(r) && DownInv(r)
    ensures DownInv(Step(r, e))
  {
    hide U32, Step, DataWritten, Numbered, TunData, FailedWrites, Sane;
    SaneWrites(r);
    StepWrites(r, e);
    StepLocal(r, e);
    StepEdge(r, e);
    DataGrows(r, Step(r, e));
    WrittenData(r, Step(r, e), e.Socket? && r.state == Listen);
  }

  lemma SaneWrites(r: Relay)
    requires Sane(r)
    ensures r.state == Close ==> !r.socket
    ensures r.state == Listen ==> r.socks5 in {NotConnected, Hello, Auth, Connect}
  {
  }

  lemma DataGrows(r: Relay, q: Relay)
    ensures DataWritten(r, q) ==> q.down.read != r.down.read
  {
    hide Grown, SendWindow;
    if DataWritten(r, q) {
      assert |q.down.read| > |r.down.read|;
    }
  }

  // ----- whole runs

  lemma NewSessionDown(p: Packet, ipv4: bool, mss: u16, scale: nat, isn: u32, buffer: nat, allowed: bool, now: int)
    ensures var r := NewSession(p, ipv4, mss, scale, isn, buffer, allowed, now);
      Sane(r) && DownInv(r) && (scale <= 14 ==> WindowInv(r))
  {
    NewSessionSane(p, ipv4, mss, scale, isn, buffer, allowed, now);
    hide U32, ReceiveWindow, Shl, WriteRst;
    if scale <= 14 {
      WindowBound(p.window, scale);
    }
    var r := NewSession(p, ipv4, mss, scale, isn, buffer, true, now);
    WriteRstShape(r);
    WriteRstGrows(r, false);
    TunDataGrown(r.log, WriteRst(r), isn, false);
  }

  predicate RunAvoidsCorner(r: Relay, events: seq<Event>)
    decreases |events|
  {
    events != [] ==> AvoidsCorner(r, events[0]) && RunAvoidsCorner(Step(r, events[0]), events[1..])
  }

  lemma {:induction false} RunDown(r: Relay, events: seq<Event>)
    requires Sane(r) && DownInv(r)
    ensures DownInv(Run(r, events))
    decreases |events|
  {
    hide Sane, DownInv, Step, Edge;
    if events != [] {
      StepEdge(r, events[0]);
      StepDown(r, events[0]);
      RunDown(Step(r, events[0]), events[1..]);
    }
  }

  lemma {:induction false} RunWindow(r: Relay, events: seq<Event>)
    requires Sane(r) && WindowInv(r) && RunAvoidsCorner(r, events)
    ensures WindowInv(Run(r, events)) && Sane(Run(r, events))
    decreases |events|
  {
    hide Sane, WindowInv, Step, AvoidsCorner, Edge;
    if events != [] {
      StepEdge(r, events[0]);
      StepWindow(r, events[0]);
      RunWindow(Step(r, events[0]), events[1..]);
    }
  }

  /** In every run, the data written to the application with success is a prefix of what was read from the server, and
      all of it if and only if no write of data failed.  At most one write of data fails, the last; then the session is
      closing or closed.  Every data packet carries the number of its first byte. */
  lemma ApplicationReceives(p: Packet, ipv4: bool, mss: u16, scale: nat, isn: u32, buffer: nat,
                            allowed: bool, now: int, events: seq<Event>)
    ensures var r := Run(NewSession(p, ipv4, mss, scale, isn, buffer, allowed, now), events);
      && TunData(r.log, true) <= r.down.read
      && (TunData(r.log, true) == r.down.read <==> FailedWrites(r.log) == 0)
      && r.down.read == TunData(r.log, true) + TunData(r.log, false)
      && FailedWrites(r.log) <= 1 && (FailedWrites(r.log) == 1 ==> r.state in {Closing, Close})
      && Numbered(r.log, r.down.start)
  {
    hide NewSession, LocalInv, Numbered, TunData, FailedWrites;
    NewSessionDown(p, ipv4, mss, scale, isn, buffer, allowed, now);
    RunDown(NewSession(p, ipv4, mss, scale, isn, buffer, allowed, now), events);
    var r := Run(NewSession(p, ipv4, mss, scale, isn, buffer, allowed, now), events);
    assert |r.down.read| == |TunData(r.log, true)| + |TunData(r.log, false)|;
  }

  /** In every run with a shift of at most 14 and outside the corner case, no more than the largest window is
      ever in flight, so that acknowledgements are never ambiguous. */
  lemma InFlightBounded(p: Packet, ipv4: bool, mss: u16, scale: nat, isn: u32, buffer: nat,
                        allowed: bool, now: int, events: seq<Event>)
    requires scale <= 14
    requires RunAvoidsCorner(NewSession(p, ipv4, mss, scale, isn, buffer, allowed, now), events)
    ensures var r := Run(NewSession(p, ipv4, mss, scale, isn, buffer, allowed, now), events);
      DataState(r.state) ==> InFlight(r.down) <= 0x3FFF_C000
  {
    NewSessionDown(p, ipv4, mss, scale, isn, buffer, allowed, now);
    RunWindow(NewSession(p, ipv4, mss, scale, isn, buffer, allowed, now), events);
  }

  /** After every such run, the next event moves acked only forward and not beyond what was sent, and if it sends,
      leaves no more in flight than the window last announced. */
  lemma EveryStepInWindow(p: Packet, ipv4: bool, mss: u16, scale: nat, isn: u32, buffer: nat,
                          allowed: bool, now: int, events: seq<Event>, e: Event)
    requires scale <= 14
    requires RunAvoidsCorner(NewSession(p, ipv4, mss, scale, isn, buffer, allowed, now), events)
    requires AvoidsCorner(Run(NewSession(p, ipv4, mss, scale, isn, buffer, allowed, now), events), e)
    ensures var r := Run(NewSession(p, ipv4, mss, scale, isn, buffer, allowed, now), events);
      var q := Step(r, e);
      DataState(r.state) ==>
        && Advances(r.down, q.down)
        && (q.down.seqno != r.down.seqno ==> InFlight(q.down) <= q.down.window == r.down.window)
  {
    hide Step, NewSession, Advances, InFlight, AvoidsCorner, Sane, WindowInv;
    NewSessionDown(p, ipv4, mss, scale, isn, buffer, allowed, now);
    RunWindow(NewSession(p, ipv4, mss, scale, isn, buffer, allowed, now), events);
    StepWindow(Run(NewSession(p, ipv4, mss, scale, isn, buffer, allowed, now), events), e);
  }
}
