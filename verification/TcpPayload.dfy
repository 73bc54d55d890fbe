/** What becomes of the payload of a SYN, which is queued one number too low: as a rule it is never sent; when the session
    leaves LISTEN without counting the SYN it is, and a segment that follows it in number then repeats its last byte. */
module TcpPayload {
  import opened Serial
  import opened TcpModel
  import opened TcpShapes
  import opened TcpStates
  import opened TcpStream
  import opened TcpProgress

  // ----- when it is sent at all

  /** The SYN is not counted yet, and its payload is queued at its own number. */
  predicate PayloadWaits(r: Relay) {
    r.state == Listen && Sane(r) && AtHead(r.up)
  }

  /** Nothing was sent, and the head is next in line. */
  predicate AtHead(u: Up) {
    u.taken == [] && u.forward != [] && u.forward[0].seqno == u.seqno && Unsent(u.forward)
  }

  /** Nothing was taken, and as long as the session does not leave LISTEN without counting the SYN, nothing will be. */
  predicate NothingTaken(r: Relay) {
    r.up.taken == [] && Sane(r) && (PayloadWaits(r) || Stalled(r) || r.state == Close)
  }

  /** The session leaves LISTEN and the SYN is not counted. */
  predicate LeavesUncounted(r: Relay, e: Event) {
    r.state == Listen && Step(r, e).state == Closing && Step(r, e).up.seqno == r.up.seqno
  }

  predicate RunLeavesUncounted(r: Relay, events: seq<Event>)
    decreases |events|
  {
    events != [] && (LeavesUncounted(r, events[0]) || RunLeavesUncounted(Step(r, events[0]), events[1..]))
  }

  /** That is a RST from the application, or a change of the watched events that fails. */
  lemma UncountedExactly(r: Relay, e: Event)
    requires r.state == Listen && Sane(r)
    ensures LeavesUncounted(r, e) <==>
      || (e.Tun? && e.allowed && e.p.rst && !e.p.urg)
      || (e.Monitor? && !e.epollOk &&
          (r.book.watchIn != (r.socks5 != NotConnected) || r.book.watchOut != (r.socks5 == NotConnected)))
  {
    hide U32, WriteRst, Timeout, SendWindow, HeadReady, KeepAlive, HandleTcp, CheckTcpSocket, QueuedAt;
    NextWord(r.up.seqno);
    match e
    case Tun(p, allowed, ackOk, now) =>
      QueuedSeqno(r.up, p);
      ListenTun(r, p, allowed, ackOk, now);
    case Socket(ready) =>
      ListenSocket(r, ready);
    case _ =>
      WriteRstShape(r);
  }

  lemma QueuedSeqno(u: Up, p: Packet)
    ensures QueuedAt(u, p).seqno == u.seqno
  {
  }

  lemma NextWord(a: u32)
    ensures U32(a + 1) != a
  {
  }

  /** What a packet makes of a listening session with queue u. */
  predicate Listened(q: Relay, r: Relay, u: Up, rst: bool) {
    && q.up.taken == r.up.taken
    && if rst then q.state == Closing && q.up == u
       else if q.state == Listen then q.up in {r.up, u}
       else q.state == Closing && q.up.seqno == U32(r.up.seqno + 1) && q.up.forward in {r.up.forward, u.forward}
  }

  lemma ListenFlags(r: Relay, p: Packet, ackOk: bool)
    requires r.state == Listen
    ensures Listened(HandleFlags(r, p, ackOk), r, r.up, p.rst)
  {
    hide U32, CompareU32, WriteRst;
    WriteRstShape(r);
  }

  lemma ListenTun(r: Relay, p: Packet, allowed: bool, ackOk: bool, now: int)
    requires r.state == Listen && Sane(r)
    ensures Listened(HandleTcp(r, p, allowed, ackOk, now), r, QueuedAt(r.up, p), allowed && p.rst && !p.urg)
  {
    QueueTcpTaken(r.up, p);
    QueueTcpSeqno(r.up, p);
    hide U32, HandleFlags, WriteRst, Shl, QueueTcp;
    var h := Heard(r, p, now);
    WriteRstShape(r);
    ListenFlags(h, p, ackOk);
    ListenFlags(h.(up := QueueTcp(r.up, p)), p, ackOk);
  }

  lemma QueueTcpSeqno(u: Up, p: Packet)
    ensures QueueTcp(u, p).seqno == u.seqno
  {
  }

  /** The queue after a packet with or without data. */
  function QueuedAt(u: Up, p: Packet): Up {
    if p.data == [] then u else QueueTcp(u, p)
  }

  /** Data that does not overtake leaves the head next in line. */
  lemma QueueKeepsHead(r: Relay, e: Event)
    requires AtHead(r.up) && e.Tun? && !Overtakes(r, e)
    ensures AtHead(QueuedAt(r.up, e.p)) && QueuedAt(r.up, e.p).seqno == r.up.seqno
  {
    hide CompareU32;
    if e.p.data != [] {
      QueueBehindHead(r.up, e.p);
      QueueUnsent(r.up.forward, Segment(e.p.seqno, e.p.data, 0, e.p.psh));
    }
  }

  lemma {:induction false} QueueUnsent(f: seq<Segment>, n: Segment)
    requires Unsent(f) && n.sent == 0
    ensures Unsent(QueueInsert(f, n))
  {
    hide CompareU32;
    if f != [] {
      QueueUnsent(f[1..], n);
    }
  }

  /** Counting the SYN leaves its payload behind the position. */
  lemma CountingStalls(q: Relay, seqno: u32)
    requires q.state in {SynRecv, Closing} && q.up.forward != [] && q.up.forward[0].seqno == seqno
    requires q.up.seqno == U32(seqno + 1)
    ensures Stalled(q)
  {
    NextWord(seqno);
  }

  lemma PayloadSocket(r: Relay, e: Ready)
    requires PayloadWaits(r)
    ensures NothingTaken(CheckTcpSocket(r, e))
  {
    hide U32, WriteRst, ProxySend, ProxyReceive;
    WriteRstShape(At(r, e.now));
    ProxyReceiveShape(r, e);
    ProxySendShape(ProxyReceive(r, e), e);
    SocketMoves(r, e);
    var q := CheckTcpSocket(r, e);
    if q.state != Listen {
      CountingStalls(q, r.up.seqno);
    }
  }

  lemma PayloadTun(r: Relay, e: Event)
    requires PayloadWaits(r) && e.Tun? && !Overtakes(r, e) && !LeavesUncounted(r, e)
    ensures NothingTaken(Step(r, e))
  {
    UncountedExactly(r, e);
    hide U32, HandleTcp, QueueTcp, CompareU32;
    ListenTun(r, e.p, e.allowed, e.ackOk, e.now);
    HandleTcpMoves(r, e.p, e.allowed, e.ackOk, e.now);
    QueueKeepsHead(r, e);
    if Step(r, e).state != Listen {
      CountingStalls(Step(r, e), r.up.seqno);
    }
  }

  lemma PayloadStep(r: Relay, e: Event)
    requires PayloadWaits(r) && !Overtakes(r, e) && !LeavesUncounted(r, e)
    ensures NothingTaken(Step(r, e))
  {
    UncountedExactly(r, e);
    hide U32, Diff, WriteRst, HandleTcp, CheckTcpSocket, Timeout, SendWindow, HeadReady, KeepAlive;
    WriteRstShape(r);
    match e
    case Tun(_, _, _, _) =>
      PayloadTun(r, e);
    case Socket(ready) =>
      PayloadSocket(r, ready);
    case Disallow =>
      CountingStalls(WriteRst(r), r.up.seqno);
    case _ =>
  }

  lemma NothingStep(r: Relay, e: Event)
    requires NothingTaken(r) && !Overtakes(r, e) && !LeavesUncounted(r, e)
    ensures NothingTaken(Step(r, e))
  {
    StepEdge(r, e);
    if PayloadWaits(r) {
      PayloadStep(r, e);
    } else if Stalled(r) {
      StallStep(r, e);
    } else {
      hide U32, WriteRst, Timeout, SendWindow, HeadReady, KeepAlive;
      WriteRstShape(r);
    }
  }

  lemma {:induction false} RunTakesNothing(r: Relay, events: seq<Event>)
    requires NothingTaken(r) && !RunOvertaken(r, events) && !RunLeavesUncounted(r, events)
    ensures Run(r, events).up.taken == []
    decreases |events|
  {
    hide Step, PayloadWaits, Stalled, Overtakes, LeavesUncounted, Sane;
    if events != [] {
      NothingStep(r, events[0]);
      RunTakesNothing(Step(r, events[0]), events[1..]);
    }
  }

  /** Over every run from a SYN with payload, with or without a proxy: a byte is taken only if the session left LISTEN
      without counting the SYN. */
  lemma SynPayloadTaken(p: Packet, ipv4: bool, mss: u16, scale: nat, isn: u32, buffer: nat, allowed: bool, now: int,
                        events: seq<Event>)
    requires p.data != [] && !RunOvertaken(NewSession(p, ipv4, mss, scale, isn, buffer, allowed, now), events)
    ensures var r0 := NewSession(p, ipv4, mss, scale, isn, buffer, allowed, now);
      Run(r0, events).up.taken != [] ==> RunLeavesUncounted(r0, events)
  {
    var r0 := NewSession(p, ipv4, mss, scale, isn, buffer, allowed, now);
    NewSessionPayload(p, ipv4, mss, scale, isn, buffer, allowed, now);
    hide NewSession, NothingTaken, Run, RunLeavesUncounted, RunOvertaken;
    if !RunLeavesUncounted(r0, events) {
      RunTakesNothing(r0, events);
    }
  }

  lemma NewSessionPayload(p: Packet, ipv4: bool, mss: u16, scale: nat, isn: u32, buffer: nat, allowed: bool, now: int)
    requires p.data != []
    ensures NothingTaken(NewSession(p, ipv4, mss, scale, isn, buffer, allowed, now))
  {
    hide U32, ReceiveWindow, Shl, WriteRst;
    NewSessionSane(p, ipv4, mss, scale, isn, buffer, allowed, now);
    var r := NewSession(p, ipv4, mss, scale, isn, buffer, true, now);
    WriteRstShape(r);
    if !allowed {
      CountingStalls(WriteRst(r), p.seqno);
    }
  }

  /** And conversely: when it leaves LISTEN that way, the next writable event with room hands over what is queued first. */
  lemma UncountedDelivers(r: Relay, e: Event, w: Ready)
    requires PayloadWaits(r) && !Overtakes(r, e) && LeavesUncounted(r, e)
    requires !w.error && w.writable
    ensures var q := Step(r, e);
      && q.up.forward != []
      && (|q.up.forward[0].data| < w.buffer && w.sends == [Sent(|q.up.forward[0].data|)] ==>
            Step(q, Socket(w)).up.taken == q.up.forward[0].data)
  {
    hide Step, PayloadWaits, LeavesUncounted, Overtakes;
    UncountedQueue(r, e);
    var q := Step(r, e);
    if |q.up.forward[0].data| < w.buffer && w.sends == [Sent(|q.up.forward[0].data|)] {
      WritableDelivers(q, w);
    }
  }

  lemma UncountedQueue(r: Relay, e: Event)
    requires PayloadWaits(r) && !Overtakes(r, e) && LeavesUncounted(r, e)
    ensures var q := Step(r, e);
      q.state == Closing && q.socket && AtHead(q.up) && q.up == if e.Tun? then QueuedAt(r.up, e.p) else r.up
  {
    UncountedExactly(r, e);
    StepEdge(r, e);
    hide U32, Diff, HandleTcp, SendWindow, HeadReady, KeepAlive;
    if e.Tun? {
      ListenTun(r, e.p, e.allowed, e.ackOk, e.now);
      HandleTcpMoves(r, e.p, e.allowed, e.ackOk, e.now);
      QueueKeepsHead(r, e);
    }
  }

  /** A closing session still forwards the segment that is next in line. */
  lemma WritableDelivers(q: Relay, w: Ready)
    requires q.state == Closing && q.socket && q.up.forward != []
    requires q.up.forward[0].seqno == q.up.seqno && q.up.forward[0].sent == 0
    requires !w.error && w.writable && |q.up.forward[0].data| < w.buffer && w.sends == [Sent(|q.up.forward[0].data|)]
    ensures Step(q, Socket(w)).up.taken == q.up.taken + q.up.forward[0].data
  {
    hide U32;
    var h := q.up.forward[0];
    var u := Take(q.up, |h.data|);
    assert h.data[0..|h.data|] == h.data;
    assert Forward(u, w.buffer - |h.data|, w.sends[1..]) == Forwarded(u, 0, false, false);
    var f := Forward(q.up, w.buffer, w.sends);
    assert f.up == u && f.fwd && !f.failed;
    hide Forward, ForwardStep, Acknowledge, ReadServer, Take;
    AcknowledgeShape(q, f, w);
    ReadServerShape(Acknowledge(ForwardStep(q, f), f.fwd, w), w);
  }

  // ----- what is taken of a SYN's payload

  /** A second segment is numbered as the end of the first, which a SYN's payload has one too low. */
  predicate Continues(u: Up) {
    |u.forward| > 1 && u.forward[1].seqno == U32(u.seqno + |u.forward[0].data|)
  }

  /** Queue v is what sends have left of queue u: part of the head, or all but the head. */
  predicate Drains(u: Up, v: Up)
    requires u.forward != []
  {
    var h := u.forward[0];
    || (&& v.seqno == u.seqno && v.forward != [] && v.forward[0].sent <= |h.data|
        && v.forward == [h.(sent := v.forward[0].sent)] + u.forward[1..] && v.taken == h.data[..v.forward[0].sent])
    || (v.seqno == U32(u.seqno + |h.data|) && v.forward == u.forward[1..] && v.taken == h.data)
  }

  lemma {:induction false} ForwardDrains(u: Up, v: Up, buffer: int, sends: seq<SendResult>)
    requires AtHead(u) && !Continues(u) && Drains(u, v)
    ensures Drains(u, Forward(v, buffer, sends).up)
    decreases |sends|
  {
    if sends != [] && HeadReady(v, buffer) && sends[0].Sent? {
      var n := Min(sends[0].count, |v.forward[0].data| - v.forward[0].sent);
      TakeDrains(u, v, n);
      ForwardDrains(u, Take(v, n), buffer - n, sends[1..]);
    }
  }

  lemma TakeDrains(u: Up, v: Up, n: nat)
    requires AtHead(u) && !Continues(u) && Drains(u, v) && v.forward != [] && v.forward[0].seqno == v.seqno
    requires v.forward[0].sent + n <= |v.forward[0].data|
    ensures Drains(u, Take(v, n))
  {
    hide U32;
    var h, k := u.forward[0], v.forward[0].sent;
    if v.forward == [h.(sent := k)] + u.forward[1..] && k <= |h.data| && v.taken == h.data[..k] {
      assert h.data[..k] + h.data[k..k + n] == h.data[..k + n];
      assert h.data[..|h.data|] == h.data;
    }
  }

  lemma ClosingDrains(u: Up, r: Relay, e: Event)
    requires AtHead(u) && !Continues(u) && r.state in {Closing, Close} && Sane(r) && Drains(u, r.up)
    ensures var q := Step(r, e);
      q.state in {Closing, Close} && Sane(q) && Drains(u, q.up)
  {
    hide U32, WriteRst, Timeout, SendWindow, HeadReady, KeepAlive, Drains, Sane, CheckTcpSocket, HandleFlags, QueueTcp;
    hide AtHead, Continues;
    StepEdge(r, e);
    WriteRstShape(r);
    match e
    case Socket(w) =>
      if r.socket {
        ClosedHasNoSocket(r);
        ClosingForwards(r, w);
        ForwardDrains(u, r.up, w.buffer, w.sends);
      }
    case Monitor(_, ms, _, ackOk) =>
      KeepAliveShape(r, ms, ackOk);
    case _ =>
  }

  /** All that a closing session does with its queue is to forward it. */
  lemma ClosingForwards(r: Relay, w: Ready)
    requires r.state == Closing
    ensures CheckTcpSocket(r, w).up in {r.up, Forward(r.up, w.buffer, w.sends).up}
  {
    hide U32, WriteRst, SendWindow, Forward, ForwardStep, Acknowledge, ReadServer;
    WriteRstShape(At(r, w.now));
    var f := if w.writable then Forward(r.up, w.buffer, w.sends) else Forwarded(r.up, 0, false, false);
    AcknowledgeShape(r, f, w);
    ReadServerShape(Acknowledge(ForwardStep(r, f), f.fwd, w), w);
  }

  lemma ClosedHasNoSocket(r: Relay)
    requires Sane(r) && r.socket
    ensures r.state != Close
  {
  }

  lemma {:induction false} RunDrains(u: Up, r: Relay, events: seq<Event>)
    requires AtHead(u) && !Continues(u) && r.state in {Closing, Close} && Sane(r) && Drains(u, r.up)
    ensures Run(r, events).up.taken <= u.forward[0].data
    decreases |events|
  {
    if events != [] {
      hide Step, Sane, AtHead, Continues, Drains;
      ClosingDrains(u, r, events[0]);
      RunDrains(u, Step(r, events[0]), events[1..]);
    }
  }

  /** After the session left LISTEN uncounted, no run takes anything but the first queued segment if and only if no second
      segment continues it. */
  lemma PayloadOnlyExactly(q: Relay)
    requires q.state == Closing && q.socket && AtHead(q.up) && (|q.up.forward| > 1 ==> q.up.forward[1].data != [])
    ensures (forall events :: TakesOnly(q, events, q.up.forward[0].data)) <==> !Continues(q.up)
  {
    var data := q.up.forward[0].data;
    if Continues(q.up) {
      var w := TwoSends(|data|, |q.up.forward[1].data|);
      PayloadRepeats(q, w);
      RunOne(q, Socket(w));
      hide Step, Run, AtHead, Continues;
      assert !TakesOnly(q, [Socket(w)], data);
    } else {
      forall events
        ensures TakesOnly(q, events, data)
      {
        assert q.up.forward == [q.up.forward[0].(sent := 0)] + q.up.forward[1..];
        assert Drains(q.up, q.up);
        RunDrains(q.up, q, events);
      }
    }
  }

  predicate TakesOnly(r: Relay, events: seq<Event>, data: seq<byte>) {
    Run(r, events).up.taken <= data
  }

  function TwoSends(m: nat, n: nat): Ready {
    Ready(false, false, true, false, m + n + 1, 0, [Sent(m), Sent(n)], RecvRetry, true, true, true, 0)
  }

  lemma RunOne(r: Relay, e: Event)
    ensures Run(r, [e]) == Step(r, e)
  {
    hide Step;
    assert Run(r, [e]) == Run(Step(r, e), []);
  }

  /** When a second segment continues it, the next writable event with room takes both. */
  lemma PayloadRepeats(q: Relay, w: Ready)
    requires q.state == Closing && q.socket && AtHead(q.up) && Continues(q.up) && !w.error && w.writable
    requires var m, n := |q.up.forward[0].data|, |q.up.forward[1].data|;
      w.sends == [Sent(m), Sent(n)] && m + n < w.buffer
    ensures Step(q, Socket(w)).up.taken == q.up.forward[0].data + q.up.forward[1].data
  {
    var u, h, g := q.up, q.up.forward[0], q.up.forward[1];
    var m, n := |h.data|, |g.data|;
    var v := Take(u, m);
    TakeWhole(u);
    TakeWhole(v);
    hide U32, Take;
    assert w.sends[1..] == [Sent(n)] && [Sent(n)][1..] == [];
    var x := Take(v, n);
    assert Forward(x, w.buffer - m - n, []) == Forwarded(x, 0, false, false);
    assert Forward(v, w.buffer - m, [Sent(n)]) == Forwarded(x, n, true, false);
    var f := Forward(u, w.buffer, w.sends);
    assert f == Forwarded(x, m + n, true, false);
    hide Forward, ForwardStep, Acknowledge, ReadServer;
    AcknowledgeShape(q, f, w);
    ReadServerShape(Acknowledge(ForwardStep(q, f), f.fwd, w), w);
  }

  lemma TakeWhole(u: Up)
    requires u.forward != [] && u.forward[0].sent == 0
    ensures var h := u.forward[0];
      Take(u, |h.data|) == Up(u.start, U32(h.seqno + |h.data|), u.forward[1..], u.taken + h.data)
  {
    var h := u.forward[0];
    assert h.data[0..|h.data|] == h.data;
  }

  /** If both agree with the stream at their numbers, the payload's own being one too low, its last byte is taken twice. */
  lemma OneTooEarly(u: Up, stream: seq<byte>)
    requires AtHead(u) && Continues(u) && u.forward[0].data <= stream && Fits(u.forward[1], u.seqno, 0, stream)
    requires 0 < |u.forward[0].data| < 0x1_0000
    ensures var d, e := u.forward[0].data, u.forward[1].data;
      e == stream[|d| - 1..|d| - 1 + |e|] && e[0] == d[|d| - 1]
  {
    var d := u.forward[0].data;
    U32Id(u.seqno);
    DiffIsTrueDistance(u.seqno + |d|, u.seqno);
  }

  /** A copy of the payload, with the SYN's number, agrees with the stream. */
  predicate CopyAgrees(r: Relay, e: Event, stream: seq<byte>) {
    e.Tun? && r.state == Listen && e.p.seqno == r.up.seqno ==> e.p.data <= stream
  }

  predicate RunCopiesAgree(r: Relay, events: seq<Event>, stream: seq<byte>)
    decreases |events|
  {
    events != [] ==> CopyAgrees(r, events[0], stream) && RunCopiesAgree(Step(r, events[0]), events[1..], stream)
  }

  /** The session leaves LISTEN uncounted with a second segment that continues the payload. */
  predicate RunContinues(r: Relay, events: seq<Event>)
    decreases |events|
  {
    events != [] &&
    (|| (LeavesUncounted(r, events[0]) && Continues(Step(r, events[0]).up))
     || RunContinues(Step(r, events[0]), events[1..]))
  }

  predicate HeadAgrees(r: Relay, stream: seq<byte>) {
    PayloadWaits(r) ==> r.up.forward[0].data <= stream
  }

  lemma QueueHeadData(u: Up, p: Packet, stream: seq<byte>)
    requires AtHead(u) && u.forward[0].data <= stream && (p.seqno == u.seqno ==> p.data <= stream)
    requires CompareU32(p.seqno, u.seqno) < 0 || CompareU32(u.forward[0].seqno, p.seqno) <= 0
    ensures QueueTcp(u, p).forward != [] && QueueTcp(u, p).forward[0].data <= stream
  {
    CompareZero(u.forward[0].seqno, p.seqno);
    hide CompareU32;
  }

  lemma CompareZero(a: u32, b: u32)
    ensures CompareU32(a, b) == 0 <==> a == b
  {
  }

  /** A step from LISTEN that stays there, or leaves uncounted, keeps a head that agrees. */
  lemma HeadStep(r: Relay, e: Event, stream: seq<byte>)
    requires PayloadWaits(r) && HeadAgrees(r, stream) && CopyAgrees(r, e, stream) && !Overtakes(r, e)
    requires Step(r, e).state == Listen || LeavesUncounted(r, e)
    ensures var q := Step(r, e);
      q.up.forward != [] && q.up.forward[0].data <= stream
  {
    hide U32, CompareU32, HandleTcp, QueueTcp, WriteRst, CheckTcpSocket, Timeout, SendWindow, HeadReady, KeepAlive;
    match e
    case Tun(p, allowed, ackOk, now) =>
      ListenTun(r, p, allowed, ackOk, now);
      if p.data != [] {
        QueueHeadData(r.up, p, stream);
      }
    case Socket(w) =>
      ListenSocket(r, w);
    case _ =>
      WriteRstShape(r);
  }

  lemma ListenSocket(r: Relay, w: Ready)
    requires r.state == Listen && Sane(r)
    ensures var q := CheckTcpSocket(r, w);
      if q.state == Listen then q.up == r.up else q.up.seqno == U32(r.up.seqno + 1) && q.up.forward == r.up.forward
  {
    hide U32, WriteRst, ProxySend, ProxyReceive;
    WriteRstShape(At(r, w.now));
    ProxyReceiveShape(r, w);
    ProxySendShape(ProxyReceive(r, w), w);
  }

  lemma {:induction false} RunTakesPrefix(r: Relay, events: seq<Event>, stream: seq<byte>)
    requires NothingTaken(r) && HeadAgrees(r, stream) && RunCopiesAgree(r, events, stream)
    requires !RunOvertaken(r, events) && !RunContinues(r, events)
    ensures Run(r, events).up.taken <= stream
    decreases |events|
  {
    if events != [] {
      var e := events[0];
      var q := Step(r, e);
      hide Step, Overtakes, Sane, Stalled, AtHead, Continues;
      if LeavesUncounted(r, e) {
        NothingWaits(r);
        UncountedQueue(r, e);
        HeadStep(r, e, stream);
        StepEdge(r, e) by { NothingSane(r); }
        NowDrains(q.up);
        RunDrains(q.up, q, events[1..]);
      } else {
        NothingStep(r, e);
        if PayloadWaits(q) {
          StepEdge(r, e) by { NothingSane(r); }
          ListenBefore(r, e);
          HeadStep(r, e, stream);
        }
        RunTakesPrefix(q, events[1..], stream);
      }
    }
  }

  lemma NothingSane(r: Relay)
    requires NothingTaken(r)
    ensures Sane(r)
  {
  }

  lemma NothingWaits(r: Relay)
    requires NothingTaken(r) && r.state == Listen
    ensures PayloadWaits(r)
  {
  }

  lemma NowDrains(u: Up)
    requires AtHead(u)
    ensures Drains(u, u)
  {
    assert u.forward == [u.forward[0].(sent := 0)] + u.forward[1..];
  }

  lemma ListenBefore(r: Relay, e: Event)
    requires NothingTaken(r) && PayloadWaits(Step(r, e))
    ensures PayloadWaits(r)
  {
    StepEdge(r, e);
    hide Step;
  }

  /** With any SYN the server takes a prefix of the stream: for a SYN with payload, as long as its copies agree and the
      session does not leave LISTEN uncounted with a segment that continues the payload. */
  lemma AnySynTakesPrefix(p: Packet, ipv4: bool, mss: u16, scale: nat, isn: u32, buffer: nat, allowed: bool, now: int,
                          events: seq<Event>, stream: seq<byte>)
    requires var r0 := NewSession(p, ipv4, mss, scale, isn, buffer, allowed, now);
      if p.data == [] then RunAgrees(r0, events, stream)
      else p.data <= stream && RunCopiesAgree(r0, events, stream) && !RunOvertaken(r0, events) && !RunContinues(r0, events)
    ensures Run(NewSession(p, ipv4, mss, scale, isn, buffer, allowed, now), events).up.taken <= stream
  {
    if p.data == [] {
      ServerTakesPrefix(p, ipv4, mss, scale, isn, buffer, allowed, now, events, stream);
    } else {
      NewSessionPayload(p, ipv4, mss, scale, isn, buffer, allowed, now);
      NewSessionHead(p, ipv4, mss, scale, isn, buffer, allowed, now);
      hide NewSession, Run, RunCopiesAgree, RunOvertaken, RunContinues, NothingTaken;
      RunTakesPrefix(NewSession(p, ipv4, mss, scale, isn, buffer, allowed, now), events, stream);
    }
  }

  lemma NewSessionHead(p: Packet, ipv4: bool, mss: u16, scale: nat, isn: u32, buffer: nat, allowed: bool, now: int)
    requires p.data != []
    ensures NewSession(p, ipv4, mss, scale, isn, buffer, allowed, now).up.forward == [Segment(p.seqno, p.data, 0, p.psh)]
  {
    hide U32, ReceiveWindow, Shl, WriteRst;
    WriteRstShape(NewSession(p, ipv4, mss, scale, isn, buffer, true, now));
  }
}
