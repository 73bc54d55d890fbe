/** The SOCKS5 handshake over every run (sections 3, 4 and 6 of RFC 1928, section 2 of RFC 1929): with a proxy
    configured, the application's SYN is answered only after the proxy granted the connection. */
module TcpSocks {
  import opened Serial
  import opened TcpModel
  import opened TcpShapes
  import opened TcpWrites
  import opened TcpStates

  // ----- what the proxy must have said

  predicate Reply(e: Effect, version: set<int>, code: int) {
    e.FromProxy? && |e.reply| >= 2 && e.reply[0] in version && e.reply[1] == code
  }

  /** The phase of the last message to the proxy. */
  function LastSent(log: seq<Effect>): Socks {
    if log == [] then NotConnected
    else if log[|log| - 1].ToProxy? then log[|log| - 1].phase
    else LastSent(log[..|log| - 1])
  }

  /** The entry at index i answers a message of this phase, the last one sent before. */
  predicate Answers(log: seq<Effect>, i: int, phase: Socks) {
    0 <= i < |log| && log[i].FromProxy? && LastSent(log[..i]) == phase
  }

  /** In answer to the greeting, the proxy chose an authentication method. */
  predicate Chose(log: seq<Effect>, i: int, code: int) {
    Answers(log, i, Hello) && Reply(log[i], {5}, code) && |log[i].reply| == 2
  }

  predicate Authenticated(log: seq<Effect>, i: int) {
    Answers(log, i, Auth) && Reply(log[i], {1, 5}, 0) && |log[i].reply| == 2
  }

  predicate Granted(log: seq<Effect>, i: int, ipv4: bool) {
    Answers(log, i, Connect) && Reply(log[i], {5}, 0) && |log[i].reply| == if ipv4 then 10 else 22
  }

  /** No authentication was asked for, or it was asked for and then succeeded. */
  ghost predicate MayConnect(log: seq<Effect>) {
    || (exists i :: Chose(log, i, 0))
    || (exists i, j :: i < j && Chose(log, i, 2) && Authenticated(log, j))
  }

  ghost predicate Complete(log: seq<Effect>, ipv4: bool) {
    exists c :: Granted(log, c, ipv4) && MayConnect(log[..c])
  }

  predicate IsSyn(e: Effect) {
    e.ToTun? && e.packet.syn
  }

  /** Every SYN-ACK comes after a complete handshake. */
  ghost predicate SynAfterHandshake(log: seq<Effect>, ipv4: bool) {
    forall k :: 0 <= k < |log| && IsSyn(log[k]) ==> Complete(log[..k], ipv4)
  }

  function Phase(s: Socks): nat {
    match s
    case Refused => 0
    case NotConnected => 1
    case Hello => 2
    case Auth => 3
    case Connect => 4
    case Connected => 5
  }

  /** The messages sent to the proxy never go back to an earlier phase. */
  predicate PhasesInOrder(log: seq<Effect>) {
    forall i, j :: 0 <= i < j < |log| && log[i].ToProxy? && log[j].ToProxy? ==>
      Phase(log[i].phase) <= Phase(log[j].phase)
  }

  predicate NoLaterPhase(log: seq<Effect>, s: Socks) {
    forall i :: 0 <= i < |log| && log[i].ToProxy? ==> Phase(log[i].phase) <= Phase(s)
  }

  /** What the handshake has reached when socks5 has a given value. */
  ghost predicate Reached(log: seq<Effect>, s: Socks, ipv4: bool) {
    && NoLaterPhase(log, s)
    && match s
       case Auth => exists i :: Chose(log, i, 2)
       case Connect => MayConnect(log)
       case Connected => Complete(log, ipv4)
       case _ => true
  }

  ghost predicate LogInv(log: seq<Effect>, ipv4: bool) {
    SynAfterHandshake(log, ipv4) && PhasesInOrder(log)
  }

  ghost predicate SocksInv(r: Relay) {
    LogInv(r.log, r.ipv4) && (r.state == Listen ==> Reached(r.log, r.socks5, r.ipv4) && LastSent(r.log) == r.socks5)
  }

  // ----- growing the log

  lemma AnswersGrow(log: seq<Effect>, more: seq<Effect>, i: int, phase: Socks)
    requires Answers(log, i, phase) && log <= more
    ensures Answers(more, i, phase)
  {
    assert more[..i] == log[..i];
  }

  lemma SentGrows(log: seq<Effect>, x: Effect)
    ensures LastSent(log + [x]) == if x.ToProxy? then x.phase else LastSent(log)
  {
    assert (log + [x])[..|log|] == log;
  }

  lemma MayConnectGrows(log: seq<Effect>, more: seq<Effect>)
    requires MayConnect(log) && log <= more
    ensures MayConnect(more)
  {
    if i :| Chose(log, i, 0) {
      AnswersGrow(log, more, i, Hello);
      assert Chose(more, i, 0);
    } else {
      var i, j :| i < j && Chose(log, i, 2) && Authenticated(log, j);
      AnswersGrow(log, more, i, Hello);
      AnswersGrow(log, more, j, Auth);
      assert Chose(more, i, 2) && Authenticated(more, j);
    }
  }

  lemma CompleteGrows(log: seq<Effect>, more: seq<Effect>, ipv4: bool)
    requires Complete(log, ipv4) && log <= more
    ensures Complete(more, ipv4)
  {
    var c :| Granted(log, c, ipv4) && MayConnect(log[..c]);
    assert more[..c] == log[..c];
    AnswersGrow(log, more, c, Connect);
    assert Granted(more, c, ipv4);
  }

  /** One more entry keeps the log in order, if it is a SYN only after the handshake and a message to the proxy
      only of the latest phase. */
  lemma LogGrows(log: seq<Effect>, x: Effect, ipv4: bool)
    requires LogInv(log, ipv4)
    requires IsSyn(x) ==> Complete(log, ipv4)
    requires x.ToProxy? ==> NoLaterPhase(log, x.phase)
    ensures LogInv(log + [x], ipv4)
  {
    hide Complete;
    var more := log + [x];
    forall k | 0 <= k < |more| && IsSyn(more[k])
      ensures Complete(more[..k], ipv4)
    {
      assert more[..k] == log[..k];
      assert log[..|log|] == log;
      if k < |log| {
        assert IsSyn(log[k]);
      }
    }
  }

  lemma ReachedGrows(log: seq<Effect>, x: Effect, s: Socks, ipv4: bool)
    requires Reached(log, s, ipv4)
    requires x.ToProxy? ==> Phase(x.phase) <= Phase(s)
    ensures Reached(log + [x], s, ipv4)
  {
    hide MayConnect, Complete, Phase;
    var more := log + [x];
    match s
    case Auth =>
      var i :| Chose(log, i, 2);
      AnswersGrow(log, more, i, Hello);
      assert Chose(more, i, 2);
    case Connect => MayConnectGrows(log, more);
    case Connected => CompleteGrows(log, more, ipv4);
    case _ =>
  }

  lemma {:induction false} GrownKeeps(log0: seq<Effect>, q: Relay, s: Socks, ipv4: bool)
    requires Grown(log0, q, false) && LogInv(log0, ipv4)
    ensures LogInv(q.log, ipv4) && LastSent(q.log) == LastSent(log0)
    ensures Reached(log0, s, ipv4) ==> Reached(q.log, s, ipv4)
    decreases |q.log|
  {
    hide U32, AcksUpTo, LogInv, Reached, Phase, Complete, NoLaterPhase;
    if |q.log| == |log0| {
      assert q.log == log0;
    } else {
      var p := q.(log := q.log[..|q.log| - 1]);
      var x := q.log[|q.log| - 1];
      assert Control(x, q.up.seqno, false);
      GrownKeeps(log0, p, s, ipv4);
      LogGrows(p.log, x, ipv4);
      SentGrows(p.log, x);
      if Reached(log0, s, ipv4) {
        ReachedGrows(p.log, x, s, ipv4);
      }
      assert p.log + [x] == q.log;
    }
  }

  // ----- one event

  lemma RstKeeps(r: Relay)
    requires LogInv(r.log, r.ipv4)
    ensures WriteRst(r).ipv4 == r.ipv4 && WriteRst(r).socks5 == r.socks5
    ensures LogInv(WriteRst(r).log, r.ipv4)
    ensures NoLaterPhase(r.log, r.socks5) ==> NoLaterPhase(WriteRst(r).log, r.socks5)
  {
    hide U32, LogInv, Phase, TcpPacket;
    WriteRstGrows(r, false);
    GrownKeeps(r.log, WriteRst(r), r.socks5, r.ipv4);
    var x := WriteRst(r).log[|r.log|];
    assert WriteRst(r).log == r.log + [x];
  }

  /** A reply advances the handshake exactly as the protocol allows, or ends it. */
  lemma ReplyAdvances(r: Relay, b: seq<byte>)
    requires r.state == Listen && r.socks5 in {Hello, Auth, Connect}
    requires LogInv(r.log, r.ipv4) && Reached(r.log, r.socks5, r.ipv4) && LastSent(r.log) == r.socks5
    ensures var r1 := r.(log := r.log + [FromProxy(b)]);
      && (|b| == 2 && b[0] == 5 && r.socks5 == Hello && b[1] == 0 ==> Reached(r1.log, Connect, r.ipv4))
      && (|b| == 2 && b[0] == 5 && r.socks5 == Hello && b[1] == 2 ==> Reached(r1.log, Auth, r.ipv4))
      && (|b| == 2 && b[0] in {1, 5} && r.socks5 == Auth && b[1] == 0 ==> Reached(r1.log, Connect, r.ipv4))
      && (|b| == (if r.ipv4 then 10 else 22) && b[0] == 5 && r.socks5 == Connect && b[1] == 0 ==>
            Reached(r1.log, Connected, r.ipv4))
  {
    var log := r.log + [FromProxy(b)];
    var n := |r.log|;
    assert log[n] == FromProxy(b) && log[..n] == r.log;
    if |b| >= 2 {
      if r.socks5 == Auth {
        var i :| Chose(r.log, i, 2);
        AnswersGrow(r.log, log, i, Hello);
        assert Chose(log, i, 2);
        assert b[1] == 0 && b[0] in {1, 5} && |b| == 2 ==> i < n && Authenticated(log, n);
      }
      assert |b| == 2 && b[0] == 5 && r.socks5 == Hello ==> Chose(log, n, b[1]);
      assert |b| == (if r.ipv4 then 10 else 22) && b[0] == 5 && b[1] == 0 && r.socks5 == Connect ==> Granted(log, n, r.ipv4);
    }
  }

  lemma ProxyReplySocks(r: Relay, b: seq<byte>)
    requires r.state == Listen && r.socks5 in {Hello, Auth, Connect}
    requires LogInv(r.log, r.ipv4) && Reached(r.log, r.socks5, r.ipv4) && LastSent(r.log) == r.socks5
    ensures var s := ProxyReply(r.(log := r.log + [FromProxy(b)]), b);
      && s.ipv4 == r.ipv4 && LogInv(s.log, s.ipv4)
      && (s.state == Listen ==> Reached(s.log, s.socks5, s.ipv4))
      && (s.socks5 in {Hello, Auth, Connect} ==> NoLaterPhase(s.log, s.socks5))
  {
    hide U32, WriteRst, LogInv, MayConnect, Complete, Phase;
    var r1 := r.(log := r.log + [FromProxy(b)]);
    LogGrows(r.log, FromProxy(b), r.ipv4);
    ReplyAdvances(r, b);
    RstKeeps(r1.(socks5 := Refused));
    WriteRstShape(r1.(socks5 := Refused));
  }

  lemma ProxyReceiveSocks(r: Relay, e: Ready)
    requires SocksInv(r) && r.state == Listen && e.proxy && r.socks5 in {NotConnected, Hello, Auth, Connect}
    ensures var s := ProxyReceive(r, e);
      && s.ipv4 == r.ipv4 && LogInv(s.log, s.ipv4)
      && (s.state == Listen ==> Reached(s.log, s.socks5, s.ipv4))
      && (s.socks5 in {Hello, Auth, Connect} ==> NoLaterPhase(s.log, s.socks5))
      && (s.state == Listen && s.socks5 == NotConnected ==> LastSent(s.log) == s.socks5)
  {
    hide U32, WriteRst, ProxyReply, LogInv, MayConnect, Complete, LastSent;
    if r.socks5 != NotConnected && e.readable {
      if e.recv.Received? {
        var b := e.recv.bytes[..Min(|e.recv.bytes|, 32)];
        ProxyReplySocks(r, b);
        ProxyReplyShape(r.(log := r.log + [FromProxy(b)]), b);
      } else {
        WriteRstShape(r);
        RstKeeps(r);
      }
    }
  }

  lemma ProxySendSocks(s: Relay, e: Ready)
    requires LogInv(s.log, s.ipv4)
    requires s.state in {Listen, Closing} && (s.state == Closing ==> s.socks5 != Connected)
    requires s.state == Listen ==> Reached(s.log, s.socks5, s.ipv4)
    requires s.socks5 in {Hello, Auth, Connect} ==> NoLaterPhase(s.log, s.socks5)
    requires s.state == Listen && s.socks5 !in {Hello, Auth, Connect, Connected} ==> LastSent(s.log) == s.socks5
    ensures SocksInv(ProxySend(s, e)) && ProxySend(s, e).ipv4 == s.ipv4
  {
    hide U32, WriteRst, LogInv, Reached, TcpPacket, NoLaterPhase;
    if s.socks5 in {Hello, Auth, Connect} {
      var x := ToProxy(s.socks5);
      var s1 := s.(log := s.log + [x]);
      LogGrows(s.log, x, s.ipv4);
      SentGrows(s.log, x);
      if s.state == Listen {
        ReachedGrows(s.log, x, s.socks5, s.ipv4);
      }
      RstKeeps(s1);
      WriteRstShape(s1);
    } else if s.socks5 == Connected {
      assert Complete(s.log, s.ipv4) by { ReachedConnected(s); }
      var c := CountRemote(s, 1);
      LogGrows(s.log, ToTun(TcpPacket(c, true, true, false, false, []), e.writeOk), s.ipv4);
    }
  }

  lemma ReachedConnected(s: Relay)
    requires Reached(s.log, Connected, s.ipv4)
    ensures Complete(s.log, s.ipv4)
  {
  }

  lemma SocketOpens(r: Relay, e: Ready)
    requires SocksInv(r) && Sane(r) && r.state == Listen && e.proxy
    ensures SocksInv(CheckTcpSocket(r, e)) && CheckTcpSocket(r, e).ipv4 == r.ipv4
  {
    hide U32, WriteRst, LogInv, Reached, ProxySend, ProxyReceive, NoLaterPhase;
    if e.error {
      RstKeeps(At(r, e.now));
      WriteRstShape(At(r, e.now));
    } else {
      ProxyReceiveSocks(r, e);
      ProxyReceiveShape(r, e);
      ProxySendSocks(ProxyReceive(r, e), e);
    }
  }

  /** Apart from opening, no event changes the handshake. */
  lemma StepStays(r: Relay, e: Event)
    requires Sane(r) && !(e.Socket? && r.state == Listen)
    ensures var q := Step(r, e);
      && q.ipv4 == r.ipv4
      && (q.state == Listen ==> r.state == Listen && q.socks5 == r.socks5)
  {
    hide U32, WriteRst, HandleTcp, KeepAlive, SendWindow, HeadReady, Timeout, Forward, ForwardStep, Acknowledge, ReadServer;
    match e
    case Tun(p, allowed, ackOk, now) =>
      HandleTcpMoves(r, p, allowed, ackOk, now);
    case Socket(ready) =>
      WriteRstShape(At(r, ready.now));
      if r.socket {
        var f := if ready.writable then Forward(r.up, ready.buffer, ready.sends)
                 else Forwarded(r.up, 0, false, false);
        AcknowledgeShape(r, f, ready);
        ReadServerShape(Acknowledge(ForwardStep(r, f), f.fwd, ready), ready);
      }
    case Monitor(_, ms, _, ackOk) =>
      KeepAliveShape(r, ms, ackOk);
    case _ =>
      WriteRstShape(r);
  }

  lemma WrittenKeeps(r: Relay, q: Relay, s: Socks)
    requires Written(r, q, false) && LogInv(r.log, r.ipv4)
    ensures LogInv(q.log, r.ipv4) && LastSent(q.log) == LastSent(r.log)
    ensures Reached(r.log, s, r.ipv4) ==> Reached(q.log, s, r.ipv4)
  {
    hide U32, Grown, LogInv, Reached, SendWindow, AcksUpTo, NoLaterPhase, Complete, Phase;
    if DataWritten(r, q) {
      var p := q.(log := q.log[..|q.log| - 1]);
      var x := q.log[|q.log| - 1];
      assert p.log + [x] == q.log;
      GrownKeeps(r.log, p, s, r.ipv4);
      LogGrows(p.log, x, r.ipv4);
      SentGrows(p.log, x);
      if Reached(r.log, s, r.ipv4) {
        ReachedGrows(p.log, x, s, r.ipv4);
      }
    } else {
      GrownKeeps(r.log, q, s, r.ipv4);
    }
  }

  lemma StepSocks(r: Relay, e: Event)
    requires SocksInv(r) && Sane(r) && (e.Socket? ==> e.ready.proxy)
    ensures SocksInv(Step(r, e))
  {
    hide U32, LogInv, Reached, CheckTcpSocket, HandleTcp, CheckTcpSession, MonitorTcpSession, WriteRst, Written;
    if e.Socket? && r.state == Listen {
      SocketOpens(r, e.ready);
    } else {
      hide Step;
      StepWrites(r, e);
      StepStays(r, e);
      WrittenKeeps(r, Step(r, e), r.socks5);
    }
  }

  predicate ProxyThroughout(events: seq<Event>) {
    forall i :: 0 <= i < |events| && events[i].Socket? ==> events[i].ready.proxy
  }

  lemma {:induction false} RunSocks(r: Relay, events: seq<Event>)
    requires SocksInv(r) && Sane(r) && ProxyThroughout(events)
    ensures SocksInv(Run(r, events))
    decreases |events|
  {
    hide SocksInv, Sane, Step, Edge;
    if events != [] {
      StepEdge(r, events[0]);
      StepSocks(r, events[0]);
      RunSocks(Step(r, events[0]), events[1..]);
    }
  }

  /** With a proxy configured for the whole session, in every run each SYN-ACK follows a complete handshake, and
      the messages to the proxy never go back to an earlier phase. */
  lemma SynAckOnlyAfterHandshake(p: Packet, ipv4: bool, mss: u16, scale: nat, isn: u32, buffer: nat,
                                 allowed: bool, now: int, events: seq<Event>)
    requires ProxyThroughout(events)
    ensures var r := Run(NewSession(p, ipv4, mss, scale, isn, buffer, allowed, now), events);
      SynAfterHandshake(r.log, r.ipv4) && PhasesInOrder(r.log)
  {
    hide ReceiveWindow, Shl, WriteRst, U32;
    var r := NewSession(p, ipv4, mss, scale, isn, buffer, true, now);
    NewSessionSane(p, ipv4, mss, scale, isn, buffer, allowed, now);
    assert SocksInv(r);
    RstKeeps(r);
    WriteRstShape(r);
    RunSocks(NewSession(p, ipv4, mss, scale, isn, buffer, allowed, now), events);
  }
}
