/** The forward queue and the position over every run, whether or not the data agrees with any stream: the queue is strictly
    increasing in true offset, only its head can be partly sent, and the position counts the SYN, the drained bytes and
    the FIN.  Any SYN may carry payload, and retransmissions may conflict. */
module TcpQueue {
  import opened Serial
  import opened TcpModel
  import opened TcpShapes
  import opened TcpStates
  import opened TcpStream

  /** The data of a packet is shorter than 2^16 and begins within 2^30 of the position. */
  predicate NearPosition(r: Relay, e: Event) {
    e.Tun? && e.p.data != [] ==> |e.p.data| < 0x1_0000 && -0x4000_0000 < Diff(e.p.seqno, r.up.seqno) < 0x4000_0000
  }

  predicate RunNear(r: Relay, events: seq<Event>)
    decreases |events|
  {
    events != [] ==> NearPosition(r, events[0]) && RunNear(Step(r, events[0]), events[1..])
  }

  // ----- the invariant

  predicate Short(f: seq<Segment>) {
    forall i :: 0 <= i < |f| ==> |f[i].data| < 0x1_0000
  }

  predicate Ahead(f: seq<Segment>, remote: u32) {
    forall i :: 0 <= i < |f| ==> Diff(f[i].seqno, remote) >= 0
  }

  predicate Ordered(f: seq<Segment>, remote: u32) {
    Short(f) && Near(f, remote) && Sorted(f, remote) && OnlyHeadSent(f, remote)
  }

  /** A flow of which k are SYN and FIN. */
  predicate OrderAt(u: Up, k: int) {
    && 0 <= k <= 2 && 0 <= Drained(u)
    && u.seqno == U32(u.start + Drained(u) + k)
    && (k == 2 ==> u.forward == [])
    && Ordered(u.forward, u.seqno)
  }

  /** While the session listens, nothing was sent and nothing lies behind. */
  predicate Waiting(u: Up) {
    u.taken == [] && Unsent(u.forward) && Ahead(u.forward, u.seqno)
  }

  predicate OrderedAt(r: Relay, k: int) {
    OrderAt(r.up, k) && Counts(r.state, k, r.up.forward == []) && (r.state == Listen ==> Waiting(r.up))
  }

  predicate OrderInv(r: Relay) {
    Sane(r) && OrderedAt(r, SynFin(r.up))
  }

  lemma CountIs(u: Up, k: int)
    requires OrderAt(u, k)
    ensures SynFin(u) == k
  {
    hide Ordered;
    U32Add(u.start + Drained(u) + k, 0 - u.start - Drained(u));
    U32Id(k);
  }

  // ----- moving the position

  lemma OrderShift(f: seq<Segment>, remote: u32, n: nat)
    requires Ordered(f, remote) && Unsent(f)
    requires forall i :: 0 <= i < |f| ==> Diff(f[i].seqno, remote) - n > -0x1_0000
    ensures Ordered(f, U32(remote + n)) && HeadSent(f) == 0
  {
    forall i | 0 <= i < |f|
      ensures Diff(f[i].seqno, U32(remote + n)) == Diff(f[i].seqno, remote) - n
    {
      DiffShift(f[i].seqno, remote, n);
    }
    hide U32, Diff;
  }

  lemma CountsSyn(u: Up)
    requires OrderAt(u, 0) && Waiting(u)
    ensures OrderAt(u.(seqno := U32(u.seqno + 1)), 1)
  {
    hide U32, Diff, Ordered;
    OrderShift(u.forward, u.seqno, 1);
    U32Add(u.start + Drained(u), 1);
  }

  lemma CountsFin(u: Up)
    requires OrderAt(u, 1) && u.forward == []
    ensures OrderAt(u.(seqno := U32(u.seqno + 1)), 2)
  {
    hide U32, Diff;
    U32Add(u.start + Drained(u) + 1, 1);
  }

  lemma RstOrdered(r: Relay, k: int) returns (k': int)
    requires OrderedAt(r, k)
    ensures OrderedAt(WriteRst(r), k')
  {
    hide OrderAt, U32, WriteRst, Waiting;
    WriteRstShape(r);
    k' := k;
    if r.state == Listen {
      CountsSyn(r.up);
      k' := 1;
    }
  }

  // ----- queueing

  lemma InsertNear(f: seq<Segment>, k: nat, n: Segment, remote: u32)
    requires k <= |f| && Short(f) && Near(f, remote) && Short([n]) && Near([n], remote)
    ensures Short(InsertAt(f, k, n)) && Near(InsertAt(f, k, n), remote)
    ensures Unsent(f) && n.sent == 0 ==> Unsent(InsertAt(f, k, n))
    ensures Ahead(f, remote) && Ahead([n], remote) ==> Ahead(InsertAt(f, k, n), remote)
  {
    hide U32, Diff;
    assert [n][0] == n;
  }

  lemma InsertOrdered(f: seq<Segment>, n: Segment, remote: u32)
    requires Ordered(f, remote) && n.sent == 0 && |n.data| < 0x1_0000 && 0 <= Diff(n.seqno, remote) < 0x4000_0000
    ensures Ordered(QueueInsert(f, n), remote) && HeadSent(QueueInsert(f, n)) == HeadSent(f)
    ensures Unsent(f) ==> Unsent(QueueInsert(f, n))
    ensures Ahead(f, remote) ==> Ahead(QueueInsert(f, n), remote)
  {
    hide U32, Diff, InsertAt, Place, QueueInsert;
    PlaceByOffset(f, n, remote);
    QueueInsertShape(f, n);
    InsertAtOrdered(f, Place(f, n.seqno), n, remote);
    InsertNear(f, Place(f, n.seqno), n, remote);
  }

  lemma QueueOrdered(u: Up, p: Packet, k: int)
    requires OrderAt(u, k) && k <= 1 && |p.data| < 0x1_0000
    requires -0x4000_0000 < Diff(p.seqno, u.seqno) < 0x4000_0000
    ensures OrderAt(QueueTcp(u, p), k) && (Waiting(u) ==> Waiting(QueueTcp(u, p)))
  {
    hide U32, Ordered, Unsent, Ahead, QueueInsert;
    DiffSelf(u.seqno);
    CompareByDistance(p.seqno, u.seqno, u.seqno);
    if Diff(p.seqno, u.seqno) >= 0 {
      InsertOrdered(u.forward, Segment(p.seqno, p.data, 0, p.psh), u.seqno);
    }
  }

  // ----- forwarding

  lemma RestOrdered(f: seq<Segment>, remote: u32)
    requires Ordered(f, remote) && f != [] && f[0].seqno == remote
    ensures Ordered(f[1..], U32(remote + |f[0].data|)) && HeadSent(f[1..]) == 0
  {
    DiffSelf(remote);
    hide U32, Diff;
    var rest := f[1..];
    assert forall i :: 0 <= i < |rest| ==> rest[i] == f[i + 1];
    OrderShift(rest, remote, |f[0].data|);
  }

  lemma MoreSent(f: seq<Segment>, n: nat, remote: u32)
    requires Ordered(f, remote) && f != [] && f[0].seqno == remote
    ensures Ordered([f[0].(sent := f[0].sent + n)] + f[1..], remote)
  {
    hide U32, Diff;
  }

  lemma TakeOrdered(u: Up, n: nat, k: int)
    requires OrderAt(u, k) && u.forward != [] && u.forward[0].seqno == u.seqno
    requires u.forward[0].sent + n <= |u.forward[0].data|
    ensures OrderAt(Take(u, n), k)
  {
    hide U32, Ordered;
    var h := u.forward[0];
    if h.sent + n == |h.data| {
      RestOrdered(u.forward, u.seqno);
      U32Add(u.start + Drained(u) + k, |h.data|);
    } else {
      MoreSent(u.forward, n, u.seqno);
    }
  }

  lemma {:induction false} ForwardOrdered(u: Up, buffer: int, sends: seq<SendResult>, k: int)
    requires OrderAt(u, k)
    ensures OrderAt(Forward(u, buffer, sends).up, k)
    decreases |sends|
  {
    hide OrderAt, Take;
    if sends != [] && HeadReady(u, buffer) && sends[0].Sent? {
      var n := Min(sends[0].count, |u.forward[0].data| - u.forward[0].sent);
      TakeOrdered(u, n, k);
      ForwardOrdered(Take(u, n), buffer - n, sends[1..], k);
    }
  }

  // ----- every event

  lemma ListenOrdered(r: Relay, e: Ready, k: int) returns (k': int)
    requires OrderedAt(r, k) && Sane(r) && r.state == Listen
    ensures OrderedAt(ProxySend(ProxyReceive(r, e), e), k')
  {
    hide OrderAt, U32, ProxySend, ProxyReceive, Waiting;
    CountsSyn(r.up);
    ProxyReceiveShape(r, e);
    ProxySendShape(ProxyReceive(r, e), e);
    k' := if ProxySend(ProxyReceive(r, e), e).state == Listen then 0 else 1;
  }

  lemma DataOrdered(r: Relay, e: Ready, k: int) returns (k': int)
    requires OrderedAt(r, k) && Sane(r) && r.socket && r.state != Listen && !e.error
    ensures OrderedAt(CheckTcpSocket(r, e), k')
  {
    hide OrderAt, U32, Forward, Acknowledge, ReadServer, ForwardStep;
    var f := if e.writable then Forward(r.up, e.buffer, e.sends) else Forwarded(r.up, 0, false, false);
    ForwardOrdered(r.up, e.buffer, e.sends, k);
    ForwardFlag(r.up, e.buffer, e.sends);
    AcknowledgeShape(r, f, e);
    k' := k;
    if f.fwd && f.up.forward == [] && ForwardStep(r, f).state == CloseWait {
      CountsFin(f.up);
      k' := 2;
    }
    ReadServerShape(Acknowledge(ForwardStep(r, f), f.fwd, e), e);
  }

  lemma FlagsOrdered(r: Relay, p: Packet, ackOk: bool, k: int) returns (k': int)
    requires OrderedAt(r, k) && (r.state == FinWait1 ==> r.up.forward == [])
    ensures OrderedAt(HandleFlags(r, p, ackOk), k')
  {
    hide OrderAt, U32, CompareU32, WriteRst, Waiting, TcpPacket;
    k' := k;
    if !p.rst && (!p.ack || p.ackSeq == r.down.seqno) && !p.syn && p.fin {
      if r.state in {Established, FinWait1} && r.up.forward == [] {
        CountsFin(r.up);
        k' := 2;
      }
    } else if HandleFlags(r, p, ackOk) == WriteRst(r) {
      k' := RstOrdered(r, k);
    }
  }

  lemma TunOrdered(r: Relay, e: Event, k: int) returns (k': int)
    requires e.Tun? && OrderedAt(r, k) && Sane(r) && NearPosition(r, e)
    ensures OrderedAt(Step(r, e), k')
  {
    hide OrderAt, U32, WriteRst, HandleFlags, QueueTcp, Waiting, Diff;
    var h := Heard(r, e.p, e.now);
    if e.p.urg {
      return k;
    } else if !e.allowed || r.state == Closing || r.state == Close {
      k' := RstOrdered(r, k);
    } else if e.p.data == [] {
      k' := FlagsOrdered(h, e.p, e.ackOk, k);
    } else if !r.socket || r.state == CloseWait {
      k' := RstOrdered(h, k);
    } else {
      QueueOrdered(r.up, e.p, k);
      k' := FlagsOrdered(h.(up := QueueTcp(r.up, e.p)), e.p, e.ackOk, k);
    }
  }

  lemma CheckOrdered(r: Relay, now: int, sessions: nat, maxSessions: pos, k: int) returns (k': int)
    requires OrderedAt(r, k)
    ensures OrderedAt(CheckTcpSession(r, now, sessions, maxSessions).0, k')
  {
    hide OrderAt, U32, Timeout, WriteRst, Waiting;
    k' := k;
    WriteRstShape(r);
    if Expire(r, now, sessions, maxSessions) == WriteRst(r) {
      k' := RstOrdered(r, k);
    }
  }

  lemma MonitorOrdered(r: Relay, buffer: nat, ms: int, epollOk: bool, ackOk: bool, k: int)
    requires OrderedAt(r, k)
    ensures OrderedAt(MonitorTcpSession(r, buffer, ms, epollOk, ackOk), k)
  {
    hide OrderAt, U32, SendWindow, HeadReady, KeepAlive, Waiting;
    KeepAliveShape(r, ms, ackOk);
  }

  lemma StepOrdered(r: Relay, e: Event)
    requires OrderInv(r) && NearPosition(r, e)
    ensures OrderInv(Step(r, e))
  {
    StepEdge(r, e);
    var k := SynFin(r.up);
    var k' := k;
    {
      hide OrderAt, SynFin, Sane, Edge, CheckTcpSession, MonitorTcpSession, WriteRst, HandleTcp, Waiting, NearPosition;
      hide ProxySend, ProxyReceive, Acknowledge, ReadServer, ForwardStep, Forward;
      match e
      case Tun(_, _, _, _) =>
        k' := TunOrdered(r, e, k);
      case Socket(w) =>
        if r.socket {
          if w.error {
            k' := RstOrdered(At(r, w.now), k);
          } else if r.state == Listen {
            k' := ListenOrdered(r, w, k);
          } else {
            k' := DataOrdered(r, w, k);
          }
        }
      case Check(now, sessions, maxSessions) =>
        k' := CheckOrdered(r, now, sessions, maxSessions, k);
      case Monitor(buffer, ms, epollOk, ackOk) =>
        MonitorOrdered(r, buffer, ms, epollOk, ackOk, k);
      case Disallow =>
        k' := RstOrdered(r, k);
        if r.state == Closing || r.state == Close {
          k' := k;
        }
    }
    hide Step;
    CountIs(Step(r, e).up, k');
  }

  lemma {:induction false} RunOrdered(r: Relay, events: seq<Event>)
    requires OrderInv(r) && RunNear(r, events)
    ensures OrderInv(Run(r, events))
    decreases |events|
  {
    hide Step, OrderInv, NearPosition;
    if events != [] {
      StepOrdered(r, events[0]);
      RunOrdered(Step(r, events[0]), events[1..]);
    }
  }

  lemma NewSessionOrdered(p: Packet, ipv4: bool, mss: u16, scale: nat, isn: u32, buffer: nat, allowed: bool, now: int)
    requires |p.data| < 0x1_0000
    ensures OrderInv(NewSession(p, ipv4, mss, scale, isn, buffer, allowed, now))
  {
    hide ReceiveWindow, Shl, WriteRst;
    NewSessionSane(p, ipv4, mss, scale, isn, buffer, allowed, now);
    var r := NewSession(p, ipv4, mss, scale, isn, buffer, true, now);
    U32Id(p.seqno);
    DiffSelf(p.seqno);
    assert OrderedAt(r, 0);
    hide OrderedAt;
    var k := 0;
    if !allowed {
      k := RstOrdered(r, 0);
    }
    CountOf(NewSession(p, ipv4, mss, scale, isn, buffer, allowed, now), k);
  }

  lemma CountOf(r: Relay, k: int)
    requires OrderedAt(r, k) && Sane(r)
    ensures OrderInv(r)
  {
    CountIs(r.up, k);
  }

  // ----- over every run from any SYN

  /** The queue is strictly increasing in true offset, and what was sent in part is the head at the position. */
  lemma QueueInOrder(p: Packet, ipv4: bool, mss: u16, scale: nat, isn: u32, buffer: nat, allowed: bool, now: int,
                     events: seq<Event>)
    requires |p.data| < 0x1_0000 && RunNear(NewSession(p, ipv4, mss, scale, isn, buffer, allowed, now), events)
    ensures var u := Run(NewSession(p, ipv4, mss, scale, isn, buffer, allowed, now), events).up;
      Sorted(u.forward, u.seqno) && OnlyHeadSent(u.forward, u.seqno)
  {
    hide NewSession, Run, Sane, Sorted, OnlyHeadSent;
    NewSessionOrdered(p, ipv4, mss, scale, isn, buffer, allowed, now);
    RunOrdered(NewSession(p, ipv4, mss, scale, isn, buffer, allowed, now), events);
  }

  /** remote_seq less the SYN's number is, modulo 2^32, the lengths of all drained segments plus one for the SYN, by state,
      and one for the FIN, at most once and only with an empty queue. */
  lemma Accounting(p: Packet, ipv4: bool, mss: u16, scale: nat, isn: u32, buffer: nat, allowed: bool, now: int,
                   events: seq<Event>)
    requires |p.data| < 0x1_0000 && RunNear(NewSession(p, ipv4, mss, scale, isn, buffer, allowed, now), events)
    ensures var r := Run(NewSession(p, ipv4, mss, scale, isn, buffer, allowed, now), events);
      var k := U32(r.up.seqno - p.seqno - Drained(r.up));
      && 0 <= Drained(r.up) <= |r.up.taken|
      && k <= 2 && (k == 2 ==> r.up.forward == [])
      && (r.state == Listen ==> k == 0)
      && (r.state in {SynRecv, Established, FinWait1} ==> k == 1)
      && (r.state == CloseWait ==> k == if r.up.forward == [] then 2 else 1)
      && (r.state == LastAck ==> k == 2)
  {
    hide NewSession, Run, Sane, U32, Ordered;
    var r0 := NewSession(p, ipv4, mss, scale, isn, buffer, allowed, now);
    NewSessionOrdered(p, ipv4, mss, scale, isn, buffer, allowed, now);
    RunOrdered(r0, events);
    NewSessionSane(p, ipv4, mss, scale, isn, buffer, allowed, now);
    RunStart(r0, events);
    NewSessionStart(p, ipv4, mss, scale, isn, buffer, allowed, now);
  }
}
