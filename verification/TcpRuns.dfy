/** Runs from a SYN on which a session does not do what one would expect of it. */
module TcpRuns {
  import opened Serial
  import opened TcpModel
  import opened TcpShapes
  import opened TcpStates
  import opened TcpStream
  import opened TcpProgress
  import opened TcpPayload
  import opened TcpDown
  import opened TcpAcks

  // ----- packets and events

  function Syn(start: u32, data: seq<byte>): Packet {
    Packet(start, 0, 65535, true, false, false, false, false, false, data)
  }

  function Data(seqno: u32, ackSeq: u32, data: seq<byte>): Packet {
    Packet(seqno, ackSeq, 65535, false, true, false, false, false, false, data)
  }

  function FromApp(p: Packet): Event {
    Tun(p, true, true, 0)
  }

  function Writable(sends: seq<SendResult>): Ready {
    Ready(false, false, true, false, 65536, 65536, sends, RecvRetry, true, true, true, 0)
  }

  function Readable(bytes: seq<byte>): Ready {
    Writable([]).(readable := true, writable := false, recv := Received(bytes))
  }

  function Start(start: u32, isn: u32, data: seq<byte>): Relay {
    NewSession(Syn(start, data), true, 1460, 0, isn, 65536, true, 0)
  }

  /** The SYN is answered, and the answer acknowledged. */
  function Opening(start: u32, isn: u32): seq<Event> {
    [Socket(Writable([])), FromApp(Data(U32(start + 1), U32(isn + 1), []))]
  }

  function Opened(start: u32, isn: u32): Relay {
    Run(Start(start, isn, []), Opening(start, isn))
  }

  lemma OpenedIs(start: u32, isn: u32)
    ensures var r := Opened(start, isn);
      && r.state == Established && r.socket && r.up == Up(start, U32(start + 1), [], [])
      && r.down == Down(isn, U32(isn + 1), U32(isn + 1), 65535, 0, 1460, 0, [])
  {
    StartIs(start, isn);
    hide NewSession, Step, Shl;
    var r0 := Start(start, isn, []);
    var e, ack := Writable([]), FromApp(Data(U32(start + 1), U32(isn + 1), []));
    Opens(Syn(start, []), true, 1460, 0, isn, 65536, 0, e, ack);
    OpenShift();
    RunTwo(r0, Socket(e), ack);
  }

  lemma StartIs(start: u32, isn: u32)
    ensures Start(start, isn, []).up == Up(start, start, [], [])
  {
  }

  lemma OpenShift()
    ensures U32(Shl(65535, 0)) == 65535
  {
  }

  lemma RunTwo(r: Relay, e: Event, f: Event)
    ensures Run(r, [e, f]) == Step(Step(r, e), f)
  {
    hide Step;
    assert [e, f][1..] == [f];
    assert Run(Step(r, e), [f]) == Run(Step(Step(r, e), f), []);
  }

  lemma RunThree(r: Relay, e: Event, f: Event, g: Event)
    ensures Run(r, [e, f, g]) == Step(Step(Step(r, e), f), g)
  {
    hide Step;
    assert [e, f, g][1..] == [f, g];
    RunTwo(Step(r, e), f, g);
  }

  // ----- an old acknowledgement

  /** One byte after local_seq wrapped, an acknowledgement from almost half the number space before moves acked back. */
  lemma CornerMovesBack(b: byte)
    ensures var r := Step(Opened(0, 0xFFFF_FFFE), Socket(Readable([b])));
      var stale := Data(1, 0x8000_0000, []);
      var q := Step(r, FromApp(stale));
      && r.state == q.state == Established && r.down.read == [b]
      && Corner(r.down, stale.ackSeq) && InFlight(r.down) == 1
      && q.down.acked == 0x8000_0000 && InFlight(q.down) == 0x8000_0000
  {
    hide Opened, Step, Shl;
    OpenedIs(0, 0xFFFF_FFFE);
    var o := Opened(0, 0xFFFF_FFFE);
    OpenWindow(o.down);
    hide SendWindow;
    assert [b][..1] == [b];
    RelaysData(o, Readable([b]));
    StaleAck(Step(o, Socket(Readable([b]))));
  }

  lemma OpenWindow(d: Down)
    requires d.acked == d.seqno && d.window == 65535 && d.unconfirmed == 0
    ensures SendWindow(d) == 65495
  {
  }

  lemma StaleAck(r: Relay)
    requires r.state == Established && r.down.seqno == 0 && r.down.acked == 0xFFFF_FFFF
    ensures var q := Step(r, FromApp(Data(1, 0x8000_0000, [])));
      q.state == Established && q.down.acked == 0x8000_0000 && q.down.seqno == 0
  {
    hide Shl;
  }

  // ----- a FIN that arrives early

  /** The application sent a hundred bytes and a FIN, and only the FIN arrived: it is counted at the start of the stream,
      and its acknowledgement covers the first byte. */
  lemma EarlyFin(start: u32, isn: u32, stream: seq<byte>)
    requires |stream| == 100
    ensures var r := Opened(start, isn);
      var e := FromApp(Data(U32(start + 101), U32(isn + 1), []).(fin := true));
      var q := Step(r, e);
      && Agrees(r, e, stream) && FinAgrees(r, e, stream)
      && q.up.taken == []
      && |q.log| == |r.log| + 1 && q.log[|r.log|].ToTun? && q.log[|r.log|].packet.ackSeq == U32(start + 2)
      && CoversUntaken(q.up, U32(start + 2), stream)
  {
    var r := Opened(start, isn);
    var e := FromApp(Data(U32(start + 101), U32(isn + 1), []).(fin := true));
    hide Opened, Step, Inv, CoversUntaken;
    OpenedIs(start, isn);
    OpenedInv(start, isn, stream);
    NoDataAgrees(r, e, stream);
    DiffIsTrueDistance(start + 101, start + 1);
    DiffSelf(U32(start + 1));
    U32Add(start + 1, 1);
    FinCounted(r, e);
    FinPacketCovers(r, e, stream);
  }

  /** The same with ten bytes queued before the gap: the FIN is counted when these are taken, and its acknowledgement
      covers the eleventh byte. */
  lemma EarlyFinBehindData(ten: seq<byte>, stream: seq<byte>)
    requires |ten| == 10 && |stream| == 100 && ten <= stream
    ensures var e := FromApp(Data(1, 1, ten));
      var f := FromApp(Data(101, 1, []).(fin := true));
      var w := Socket(Writable([Sent(10)]));
      var r := Opened(0, 0);
      var q := Run(r, [e, f, w]);
      && RunAgrees(r, [e, f, w], stream) && RunFinsAgree(r, [e, f, w], stream)
      && q.up.taken == ten && q.log != []
      && q.log[|q.log| - 1].ToTun? && q.log[|q.log| - 1].packet.ackSeq == 12
      && CoversUntaken(q.up, 12, stream)
  {
    hide Opened, Step, Inv, CoversUntaken, Run, RunAgrees, RunFinsAgree, Agrees, FinAgrees, Forward, FinNear, SynFin;
    var e, f, w := FromApp(Data(1, 1, ten)), FromApp(Data(101, 1, []).(fin := true)), Socket(Writable([Sent(10)]));
    var r := Opened(0, 0);
    OpenedIs(0, 0);
    OpenedInv(0, 0, stream);
    QueueStep(r, e.p);
    var r1 := Step(r, e);
    assert r1.up == Up(0, 1, [Segment(1, ten, 0, false)], []);
    FinQueued(r1, f);
    var r2 := Step(r1, f);
    TenTaken(r2, ten);
    var q := Step(r2, w);
    TenAgrees(r, ten, stream);
    NoDataAgrees(r1, f, stream);
    NoDataAgrees(r2, w, stream);
    FinsAgree(r, e, stream);
    FinsAgree(r1, f, stream);
    FinsAgree(r2, w, stream);
    ThreeAgree(r, e, f, w, stream);
    RunThree(r, e, f, w);
    StepKeeps(r, e, stream);
    StepKeeps(r1, f, stream);
    StepKeeps(r2, w, stream);
    TenCovered(q, ten, stream);
  }

  lemma FinQueued(r: Relay, e: Event)
    requires r.state == Established && r.socket && r.up.forward != [] && FinPacket(e, r)
    ensures var q := Step(r, e);
      q.state == CloseWait && q.socket && q.up == r.up && q.down.seqno == r.down.seqno
  {
    hide U32, Shl;
  }

  lemma TenTaken(r: Relay, ten: seq<byte>)
    requires r.state == CloseWait && r.socket && |ten| == 10 && r.up == Up(0, 1, [Segment(1, ten, 0, false)], [])
    ensures var q := Step(r, Socket(Writable([Sent(10)])));
      && q.up == Up(0, 12, [], ten) && q.state == CloseWait
      && q.log != [] && q.log[|q.log| - 1].ToTun? && q.log[|q.log| - 1].packet.ackSeq == 12
  {
    var w := Writable([Sent(10)]);
    var u := Up(0, 11, [], ten);
    assert ten[0..10] == ten;
    assert Take(r.up, 10) == u;
    assert Forward(u, 65526, [Sent(10)][1..]) == Forwarded(u, 0, false, false);
    var f := Forward(r.up, 65536, w.sends);
    assert f == Forwarded(u, 10, true, false);
    hide Forward, ReceiveWindow, ReadServer, Shr;
    ReadServerQuiet(Acknowledge(ForwardStep(r, f), f.fwd, w), w);
  }

  lemma TenAgrees(r: Relay, ten: seq<byte>, stream: seq<byte>)
    requires |ten| == 10 && ten <= stream && r.up == Up(0, 1, [], [])
    ensures Agrees(r, FromApp(Data(1, 1, ten)), stream)
  {
    assert stream[0..10] == ten;
  }

  lemma FinsAgree(r: Relay, e: Event, stream: seq<byte>)
    requires |stream| == 100 && r.up.start == 0
    requires e.Tun? && e.p.fin ==> e.p.seqno == 101 && e.p.data == []
    ensures FinAgrees(r, e, stream)
  {
  }

  lemma ThreeAgree(r: Relay, e: Event, f: Event, g: Event, stream: seq<byte>)
    requires Agrees(r, e, stream) && Agrees(Step(r, e), f, stream) && Agrees(Step(Step(r, e), f), g, stream)
    requires FinAgrees(r, e, stream) && FinAgrees(Step(r, e), f, stream) && FinAgrees(Step(Step(r, e), f), g, stream)
    ensures RunAgrees(r, [e, f, g], stream) && RunFinsAgree(r, [e, f, g], stream)
  {
    hide Agrees, FinAgrees, Step;
    assert [e, f, g][1..] == [f, g] && [f, g][1..] == [g] && [g][1..] == [];
    assert RunAgrees(Step(r, e), [f, g], stream) && RunFinsAgree(Step(r, e), [f, g], stream) by {
      assert RunAgrees(Step(Step(r, e), f), [g], stream) && RunFinsAgree(Step(Step(r, e), f), [g], stream);
    }
  }

  lemma TenCovered(q: Relay, ten: seq<byte>, stream: seq<byte>)
    requires Inv(q, stream) && q.up == Up(0, 12, [], ten) && |ten| == 10 && |stream| == 100
    ensures CoversUntaken(q.up, 12, stream)
  {
    hide Inv;
    assert SynFin(q.up) == 2;
    CoversExactly(q, 12, stream);
  }

  lemma OpenedInv(start: u32, isn: u32, stream: seq<byte>)
    ensures Inv(Opened(start, isn), stream)
  {
    hide NewSession, Step, Inv, Agrees, U32, Run;
    var r0 := Start(start, isn, []);
    var e, f := Socket(Writable([])), FromApp(Data(U32(start + 1), U32(isn + 1), []));
    NewSessionInv(Syn(start, []), true, 1460, 0, isn, 65536, true, 0, stream);
    NoDataAgrees(r0, e, stream);
    NoDataAgrees(Step(r0, e), f, stream);
    StepKeeps(r0, e, stream);
    StepKeeps(Step(r0, e), f, stream);
    RunTwo(r0, e, f);
  }

  lemma NoDataAgrees(r: Relay, e: Event, stream: seq<byte>)
    requires e.Tun? ==> e.p.data == []
    ensures Agrees(r, e, stream)
  {
  }

  // ----- queues that stop

  /** Two segments that overlap by one byte: after the first is taken, the second lies behind the position. */
  lemma OverlapRun()
    ensures var events := [FromApp(Data(1, 1, [1, 2])), FromApp(Data(2, 1, [2, 3])), Socket(Writable([Sent(2), Sent(2)]))];
      var r := Run(Opened(0, 0), events);
      && r.up == Up(0, 3, [Segment(2, [2, 3], 0, false)], [1, 2]) && Stalled(r)
      && r.state == Established && r.socket && r.down.seqno == 1
  {
    hide Opened, Step, QueueTcp, Stalled;
    OpenedIs(0, 0);
    var o := Opened(0, 0);
    var e, f, g := FromApp(Data(1, 1, [1, 2])), FromApp(Data(2, 1, [2, 3])), Socket(Writable([Sent(2), Sent(2)]));
    QueueStep(o, e.p);
    QueueStep(Step(o, e), f.p);
    OverlapQueued();
    OverlapTaken(Step(Step(o, e), f));
    RunThree(o, e, f, g);
  }

  lemma OverlapQueued()
    ensures QueueTcp(QueueTcp(Up(0, 1, [], []), Data(1, 1, [1, 2])), Data(2, 1, [2, 3])) ==
            Up(0, 1, [Segment(1, [1, 2], 0, false), Segment(2, [2, 3], 0, false)], [])
  {
  }

  lemma QueueStep(r: Relay, p: Packet)
    requires r.state == Established && r.socket && Plain(p) && p.data != [] && p.ackSeq == r.down.seqno
    ensures var q := Step(r, FromApp(p));
      q.state == Established && q.socket && q.up == QueueTcp(r.up, p) && q.down.seqno == r.down.seqno
  {
    hide U32, Shl, QueueTcp;
  }

  lemma OverlapTaken(t: Relay)
    requires t.state == Established && t.socket
    requires t.up == Up(0, 1, [Segment(1, [1, 2], 0, false), Segment(2, [2, 3], 0, false)], [])
    ensures var r := Step(t, Socket(Writable([Sent(2), Sent(2)])));
      && r.up == Up(0, 3, [Segment(2, [2, 3], 0, false)], [1, 2]) && Stalled(r)
      && r.state == Established && r.socket && r.down.seqno == t.down.seqno
  {
    var w := Writable([Sent(2), Sent(2)]);
    var u := Up(0, 3, [Segment(2, [2, 3], 0, false)], [1, 2]);
    assert [1, 2][0..2] == [1, 2];
    assert Take(t.up, 2) == u;
    assert Forward(u, 65534, [Sent(2), Sent(2)][1..]) == Forwarded(u, 0, false, false);
    var f := Forward(t.up, 65536, w.sends);
    assert f == Forwarded(u, 2, true, false);
    hide Forward, ReceiveWindow, ReadServer, Shr;
    ReadServerQuiet(Acknowledge(ForwardStep(t, f), f.fwd, w), w);
  }

  lemma ReadServerQuiet(r: Relay, w: Ready)
    requires !w.readable
    ensures ReadServer(r, w) == r
  {
    hide SendWindow;
  }

  /** From there, a segment almost 2^31 ahead is put before the head, because the comparison is not antisymmetric at that
      distance; then the next in line is put before that one, and is taken. */
  lemma FarSegmentRevives()
    ensures var events := [FromApp(Data(1, 1, [1, 2])), FromApp(Data(2, 1, [2, 3])), Socket(Writable([Sent(2), Sent(2)]))];
      var r := Run(Opened(0, 0), events);
      var far, next := FromApp(Data(0x8000_0001, 1, [9])), FromApp(Data(3, 1, [4]));
      var q := Run(r, [far, next, Socket(Writable([Sent(1)]))]);
      && Overtakes(r, far) && Overtakes(Step(r, far), next)
      && q.up.taken == [1, 2, 4]
  {
    hide Opened, Step, QueueTcp;
    OverlapRun();
    var events := [FromApp(Data(1, 1, [1, 2])), FromApp(Data(2, 1, [2, 3])), Socket(Writable([Sent(2), Sent(2)]))];
    var r := Run(Opened(0, 0), events);
    var far, next, w := FromApp(Data(0x8000_0001, 1, [9])), FromApp(Data(3, 1, [4])), Socket(Writable([Sent(1)]));
    hide Run;
    FarQueued();
    QueueStep(r, far.p);
    QueueStep(Step(r, far), next.p);
    NextTaken(Step(Step(r, far), next));
    RunThree(r, far, next, w);
  }

  lemma FarQueued()
    ensures var u := Up(0, 3, [Segment(2, [2, 3], 0, false)], [1, 2]);
      && QueueTcp(u, Data(0x8000_0001, 1, [9])) ==
           u.(forward := [Segment(0x8000_0001, [9], 0, false), Segment(2, [2, 3], 0, false)])
      && QueueTcp(QueueTcp(u, Data(0x8000_0001, 1, [9])), Data(3, 1, [4])) ==
           u.(forward := [Segment(3, [4], 0, false), Segment(0x8000_0001, [9], 0, false), Segment(2, [2, 3], 0, false)])
  {
  }

  lemma NextTaken(t: Relay)
    requires t.state == Established && t.socket && |t.up.forward| > 1 && t.up.seqno == 3 && t.up.taken == [1, 2]
    requires t.up.forward[0] == Segment(3, [4], 0, false)
    ensures Step(t, Socket(Writable([Sent(1)]))).up.taken == [1, 2, 4]
  {
    var w := Writable([Sent(1)]);
    var u := Take(t.up, 1);
    assert [4][0..1] == [4] && u.taken == [1, 2, 4];
    assert Forward(u, 65535, [Sent(1)][1..]) == Forwarded(u, 0, false, false);
    var f := Forward(t.up, 65536, w.sends);
    assert f == Forwarded(u, 1, true, false);
    hide Forward, ForwardStep, Acknowledge, ReadServer, Take;
    AcknowledgeShape(t, f, w);
    ReadServerShape(Acknowledge(ForwardStep(t, f), f.fwd, w), w);
  }

  /** A copy of the head with fewer bytes than were sent of it: more is sent than it holds, and it cannot move. */
  lemma ShorterCopyRun()
    ensures var events := [FromApp(Data(1, 1, [1, 2, 3])), Socket(Writable([Sent(2)])), FromApp(Data(1, 1, [1]))];
      var r := Run(Opened(0, 0), events);
      && r.up.taken == [1, 2] && r.up.forward == [Segment(1, [1], 2, false)] && r.up.seqno == 1
      && !exists buffer, sends :: Moves(r.up, buffer, sends)
  {
    hide Opened, Step, Moves;
    OpenedIs(0, 0);
    var o := Opened(0, 0);
    var e, f, g := FromApp(Data(1, 1, [1, 2, 3])), Socket(Writable([Sent(2)])), FromApp(Data(1, 1, [1]));
    QueueStep(o, e.p);
    var s := Step(o, e);
    assert s.up == Up(0, 1, [Segment(1, [1, 2, 3], 0, false)], []);
    PartlySent(s);
    var t := Step(s, f);
    QueueStep(t, g.p);
    RunThree(o, e, f, g);
    MovesExactly(Step(t, g).up);
  }

  lemma PartlySent(s: Relay)
    requires s.state == Established && s.socket && s.up == Up(0, 1, [Segment(1, [1, 2, 3], 0, false)], [])
    ensures var t := Step(s, Socket(Writable([Sent(2)])));
      && t.state == Established && t.socket && t.down.seqno == s.down.seqno
      && t.up == Up(0, 1, [Segment(1, [1, 2, 3], 2, false)], [1, 2])
  {
    var w := Writable([Sent(2)]);
    assert [1, 2, 3][0..2] == [1, 2];
    var f := Forward(s.up, 65536, w.sends);
    assert f == Forwarded(Up(0, 1, [Segment(1, [1, 2, 3], 2, false)], [1, 2]), 2, true, false);
    hide Forward, ReceiveWindow, ReadServer, Shr;
    ReadServerQuiet(Acknowledge(ForwardStep(s, f), f.fwd, w), w);
  }

  // ----- a SYN with payload

  /** A SYN with payload, a RST, and a writable socket: the payload is taken. */
  lemma SynPayloadDelivered(start: u32, isn: u32, data: seq<byte>)
    requires 0 < |data| < 0x1_0000
    ensures var r0 := Start(start, isn, data);
      var events := [FromApp(Data(start, 0, []).(rst := true)), Socket(Writable([Sent(|data|)]))];
      RunLeavesUncounted(r0, events) && Run(r0, events).up.taken == data
  {
    var r0 := Start(start, isn, data);
    var e, w := FromApp(Data(start, 0, []).(rst := true)), Writable([Sent(|data|)]);
    RstStep(r0, e);
    WritableDelivers(Step(r0, e), w);
    hide Step, NewSession;
    RunTwo(r0, e, Socket(w));
    assert [e, Socket(w)][0] == e;
    assert LeavesUncounted(r0, e);
  }

  lemma RstStep(r: Relay, e: Event)
    requires r.state == Listen && e.Tun? && e.allowed && e.p.rst && !e.p.urg && e.p.data == []
    ensures Step(r, e).state == Closing && Step(r, e).up == r.up && Step(r, e).socket == r.socket
  {
    hide U32, Shl;
  }

  /** A SYN with payload, then the same byte again with its right number and one more, a RST, and a writable socket: the
      application's stream is [a, b], and the server takes [a, a, b]. */
  lemma SynPayloadRepeats(isn: u32, a: byte, b: byte)
    ensures var r0 := Start(0, isn, [a]);
      var events := [FromApp(Data(1, 0, [a, b]).(ack := false)), FromApp(Data(3, 0, []).(rst := true)),
                     Socket(Writable([Sent(1), Sent(2)]))];
      && RunContinues(r0, events) && RunCopiesAgree(r0, events, [a, b]) && !RunOvertaken(r0, events)
      && Run(r0, events).up.taken == [a, a, b]
  {
    var r0 := Start(0, isn, [a]);
    var e, f, w := FromApp(Data(1, 0, [a, b]).(ack := false)), FromApp(Data(3, 0, []).(rst := true)), Writable([Sent(1), Sent(2)]);
    var events := [e, f, Socket(w)];
    PayloadQueued(r0, a, b);
    var r1 := Step(r0, e);
    RstStep(r1, f);
    var q := Step(r1, f);
    assert q.up.forward[0].data + q.up.forward[1].data == [a, a, b];
    PayloadRepeats(q, w);
    RunThree(r0, e, f, Socket(w));
    assert LeavesUncounted(r1, f) && Continues(q.up);
    hide Step, NewSession, LeavesUncounted, Continues, Run;
    PayloadConditions(r0, e, f, Socket(w), [a, b]);
  }

  /** Three events, the third no packet, unrolled. */
  lemma PayloadConditions(r: Relay, e: Event, f: Event, g: Event, stream: seq<byte>)
    ensures LeavesUncounted(Step(r, e), f) && Continues(Step(Step(r, e), f).up) ==> RunContinues(r, [e, f, g])
    ensures CopyAgrees(r, e, stream) && CopyAgrees(Step(r, e), f, stream) && !g.Tun? ==> RunCopiesAgree(r, [e, f, g], stream)
    ensures !Overtakes(r, e) && !Overtakes(Step(r, e), f) && !g.Tun? ==> !RunOvertaken(r, [e, f, g])
  {
    hide Step, LeavesUncounted, Continues;
    var r1, q := Step(r, e), Step(Step(r, e), f);
    assert [e, f, g][1..] == [f, g] && [f, g][1..] == [g] && [g][1..] == [];
    assert LeavesUncounted(r1, f) && Continues(q.up) ==> RunContinues(r1, [f, g]);
    if !g.Tun? {
      OneNotOvertaken(q, g);
      assert RunCopiesAgree(q, [g], stream);
      assert CopyAgrees(r1, f, stream) ==> RunCopiesAgree(r1, [f, g], stream);
      assert !Overtakes(r1, f) ==> !RunOvertaken(r1, [f, g]);
    }
  }

  lemma OneNotOvertaken(r: Relay, e: Event)
    requires !Overtakes(r, e)
    ensures !RunOvertaken(r, [e])
  {
    hide Step, Overtakes;
    assert [e][1..] == [] && !RunOvertaken(Step(r, e), []);
  }

  lemma PayloadQueued(r: Relay, a: byte, b: byte)
    requires r.state == Listen && r.socket && r.up == Up(0, 0, [Segment(0, [a], 0, false)], [])
    ensures var e := FromApp(Data(1, 0, [a, b]).(ack := false));
      var q := Step(r, e);
      && q.state == Listen && q.socket && !Overtakes(r, e)
      && q.up == Up(0, 0, [Segment(0, [a], 0, false), Segment(1, [a, b], 0, false)], [])
  {
    var n := Segment(1, [a, b], 0, false);
    assert r.up.forward[1..] == [] && QueueInsert([], n) == [n];
    assert QueueInsert(r.up.forward, n) == [Segment(0, [a], 0, false)] + [n];
    hide Shl, QueueInsert;
  }

  // ----- a write that fails

  /** The server sends a byte, and the write to the application fails: the byte is lost and the session closes. */
  lemma LostWrite(start: u32, isn: u32, b: byte)
    ensures var q := Step(Opened(start, isn), Socket(Readable([b]).(writeOk := false)));
      q.state == Closing && q.down.read == [b] && TunData(q.log, true) == [] && FailedWrites(q.log) == 1
  {
    hide Opened, Step;
    OpenedIs(start, isn);
    var o := Opened(start, isn);
    OpenWindow(o.down);
    var e := Socket(Readable([b]).(writeOk := false));
    LostStep(o, b);
    OpenedDown(start, isn);
    StepDown(o, e);
    var q := Step(o, e);
    var before, last := q.log[..|q.log| - 1], q.log[|q.log| - 1];
    assert before + [last] == q.log;
    LogUnfolds(before, last, isn);
    hide TunData, FailedWrites, Numbered;
    assert |TunData(q.log, true)| + |TunData(q.log, false)| == 1;
  }

  lemma LostStep(o: Relay, b: byte)
    requires o.state == Established && o.socket && SendWindow(o.down) > 0 && o.down.mss > 0 && o.down.read == []
    ensures var q := Step(o, Socket(Readable([b]).(writeOk := false)));
      && q.state == Closing && q.down.read == [b] && q.log != []
      && q.log[|q.log| - 1].ToTun? && !q.log[|q.log| - 1].ok && q.log[|q.log| - 1].packet.data == [b]
  {
    hide U32, U16, ReceiveWindow, Shr, SendWindow;
    assert [b][..1] == [b];
  }

  lemma OpenedDown(start: u32, isn: u32)
    ensures DownInv(Opened(start, isn)) && Sane(Opened(start, isn))
  {
    hide NewSession, DownInv, Step, Sane;
    RunNeverGoesBack(Start(start, isn, []), Opening(start, isn)) by {
      NewSessionSane(Syn(start, []), true, 1460, 0, isn, 65536, true, 0);
    }
    NewSessionDown(Syn(start, []), true, 1460, 0, isn, 65536, true, 0);
    RunDown(Start(start, isn, []), Opening(start, isn));
  }
}
