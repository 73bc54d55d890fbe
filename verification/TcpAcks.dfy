/** What the application is told: which bytes the acknowledgements cover that the server has not taken. */
module TcpAcks {
  import opened Serial
  import opened TcpModel
  import opened TcpShapes
  import opened TcpStates
  import opened TcpStream
  import opened TcpWrites

  /** The number of the application's FIN, which follows the last byte of its stream. */
  function FinNumber(start: u32, stream: seq<byte>): u32 {
    U32(start + 1 + |stream|)
  }

  /** A FIN agrees with the stream when it carries that number, not farther than 2^30 from what the server has taken. */
  predicate FinAgrees(r: Relay, e: Event, stream: seq<byte>) {
    e.Tun? && e.p.fin ==>
      && U32(e.p.seqno + |e.p.data|) == FinNumber(r.up.start, stream)
      && |stream| - |r.up.taken| < 0x4000_0000
  }

  predicate RunFinsAgree(r: Relay, events: seq<Event>, stream: seq<byte>)
    decreases |events|
  {
    events != [] ==> FinAgrees(r, events[0], stream) && RunFinsAgree(Step(r, events[0]), events[1..], stream)
  }

  /** Once a FIN arrived, it lies within 2^30. */
  predicate FinNear(r: Relay, stream: seq<byte>) {
    r.state == CloseWait || SynFin(r.up) == 2 ==> |stream| - |r.up.taken| < 0x4000_0000
  }

  /** The unbounded number that acknowledgement a names, at or one before the position. */
  function AckedTo(u: Up, a: u32): int {
    if a == u.seqno then Pos(u) else Pos(u) - 1
  }

  /** Acknowledgement a covers byte j of the stream, which has the number j + 1. */
  predicate Covers(u: Up, a: u32, j: nat) {
    j + 1 < AckedTo(u, a)
  }

  ghost predicate CoversUntaken(u: Up, a: u32, stream: seq<byte>) {
    exists j: nat :: |u.taken| <= j < |stream| && Covers(u, a, j)
  }

  lemma HandleTcpFins(r: Relay, p: Packet, allowed: bool, ackOk: bool, now: int)
    ensures HandleTcp(r, p, allowed, ackOk, now).state == CloseWait ==> r.state == CloseWait || p.fin
  {
    hide U32, QueueTcp, HandleFlags, WriteRst, Shl;
    var h := Heard(r, p, now);
    WriteRstShape(r);
    WriteRstShape(h);
    HandleFlagsFins(h, p, ackOk);
    HandleFlagsFins(h.(up := QueueTcp(r.up, p)), p, ackOk);
  }

  lemma HandleFlagsFins(r: Relay, p: Packet, ackOk: bool)
    ensures HandleFlags(r, p, ackOk).state == CloseWait ==> r.state == CloseWait || p.fin
  {
    hide U32, CompareU32, WriteRst, TcpPacket;
    WriteRstShape(r);
  }

  /** CLOSE_WAIT is entered by a FIN only. */
  lemma StepFins(r: Relay, e: Event)
    requires Sane(r)
    ensures Step(r, e).state == CloseWait ==> r.state == CloseWait || (e.Tun? && e.p.fin)
  {
    hide U32, HandleTcp, CheckTcpSocket, WriteRst, KeepAlive, SendWindow, HeadReady, Timeout;
    match e
    case Tun(p, allowed, ackOk, now) =>
      HandleTcpFins(r, p, allowed, ackOk, now);
    case Socket(ready) =>
      if r.socket {
        SocketMoves(r, ready);
      }
    case Monitor(_, ms, _, ackOk) =>
      KeepAliveShape(r, ms, ackOk);
    case _ =>
      WriteRstShape(r);
  }

  lemma StepFinNear(r: Relay, e: Event, stream: seq<byte>)
    requires Inv(r, stream) && Agrees(r, e, stream) && FinAgrees(r, e, stream) && FinNear(r, stream)
    ensures FinNear(Step(r, e), stream)
  {
    StepFins(r, e);
    StepKeeps(r, e, stream);
    hide Step, Inv, Agrees, SynFin, FinNumber;
  }

  lemma {:induction false} RunFinNear(r: Relay, events: seq<Event>, stream: seq<byte>)
    requires Inv(r, stream) && RunAgrees(r, events, stream) && RunFinsAgree(r, events, stream) && FinNear(r, stream)
    ensures FinNear(Run(r, events), stream)
    decreases |events|
  {
    hide Step, Inv, Agrees, FinAgrees, FinNear;
    if events != [] {
      StepFinNear(r, events[0], stream);
      StepKeeps(r, events[0], stream);
      RunFinNear(Step(r, events[0]), events[1..], stream);
    }
  }

  /** An acknowledgement at the position covers an untaken byte exactly when the FIN is counted and its number is not the
      position at which it was counted. */
  lemma CoversExactly(r: Relay, a: u32, stream: seq<byte>)
    requires Inv(r, stream) && FinNear(r, stream)
    ensures CoversUntaken(r.up, a, stream) <==>
            a == r.up.seqno && SynFin(r.up) == 2 && FinNumber(r.up.start, stream) != U32(r.up.seqno - 1)
  {
    hide QueueInv, U32;
    var u := r.up;
    InvCounts(r, stream);
    if SynFin(u) == 2 {
      FinWords(u.start, |u.taken|, |stream|);
      U32Add(u.start + Pos(u), -1);
      assert Covers(u, a, |u.taken|) <==> a == u.seqno;
    } else {
      assert Pos(u) <= |u.taken| + 1;
    }
  }

  lemma FinWords(start: u32, taken: nat, length: nat)
    requires taken <= length < taken + 0x4000_0000
    ensures U32(start + 1 + length) == U32(start + taken + 1) <==> length == taken
  {
    DiffIsTrueDistance(start + 1 + length, start + taken + 1);
    DiffSelf(U32(start + taken + 1));
  }

  lemma WrittenAcks(r: Relay, q: Relay, opening: bool, i: nat)
    requires Written(r, q, opening) && |r.log| <= i < |q.log| && q.log[i].ToTun?
    ensures AcksUpTo(q.log[i].packet, q.up.seqno)
  {
    hide U32, AcksUpTo, SendWindow;
    if Grown(r.log, q, opening) {
      assert Control(q.log[i], q.up.seqno, opening);
    } else if i < |q.log| - 1 {
      assert Control(q.log[..|q.log| - 1][i], q.up.seqno, false);
    }
  }

  lemma PositionWord(r: Relay, stream: seq<byte>)
    requires Inv(r, stream)
    ensures r.up.seqno == U32(r.up.start + Pos(r.up))
    ensures U32(r.up.seqno - 1) == U32(r.up.start + Pos(r.up) - 1)
    ensures Sane(r)
    ensures r.state == Close ==> !r.socket
    ensures r.state == Listen ==> r.socks5 in {NotConnected, Hello, Auth, Connect}
  {
    hide QueueInv;
    U32Add(r.up.start + Pos(r.up), -1);
  }

  /** After every run that agrees with the stream, every acknowledgement that the next event writes names the position or
      one before; and it covers a byte that the server has not taken if and only if it names the position, the FIN is
      counted, and the number that every FIN of the run carries is not the position at which it was counted. */
  lemma AcksCoverExactly(p: Packet, ipv4: bool, mss: u16, scale: nat, isn: u32, buffer: nat, allowed: bool, now: int,
                         events: seq<Event>, e: Event, stream: seq<byte>, i: nat)
    requires p.data == []
    requires var r0 := NewSession(p, ipv4, mss, scale, isn, buffer, allowed, now);
      && RunAgrees(r0, events, stream) && RunFinsAgree(r0, events, stream)
      && Agrees(Run(r0, events), e, stream) && FinAgrees(Run(r0, events), e, stream)
      && |Run(r0, events).log| <= i < |Step(Run(r0, events), e).log|
      && Step(Run(r0, events), e).log[i].ToTun? && Step(Run(r0, events), e).log[i].packet.ack
    ensures var q := Step(Run(NewSession(p, ipv4, mss, scale, isn, buffer, allowed, now), events), e);
      var u, a := q.up, q.log[i].packet.ackSeq;
      && a == U32(u.start + AckedTo(u, a))
      && (CoversUntaken(u, a, stream) <==>
            a == u.seqno && SynFin(u) == 2 && FinNumber(u.start, stream) != U32(u.seqno - 1))
  {
    hide U32, Step, Written, Pos, SynFin, Inv, Agrees, FinAgrees, FinNumber, NewSession, Run, RunAgrees, RunFinsAgree, FinNear;
    hide CoversUntaken, Sane;
    var r0 := NewSession(p, ipv4, mss, scale, isn, buffer, allowed, now);
    var r := Run(r0, events);
    NewSessionInv(p, ipv4, mss, scale, isn, buffer, allowed, now, stream);
    NewSessionFinNear(p, ipv4, mss, scale, isn, buffer, allowed, now, stream);
    RunKeeps(r0, events, stream);
    RunFinNear(r0, events, stream);
    StepKeeps(r, e, stream);
    StepFinNear(r, e, stream);
    PositionWord(r, stream);
    PositionWord(Step(r, e), stream);
    StepWrites(r, e);
    WrittenAcks(r, Step(r, e), e.Socket? && r.state == Listen, i);
    CoversExactly(Step(r, e), Step(r, e).log[i].packet.ackSeq, stream);
  }

  lemma NewSessionFinNear(p: Packet, ipv4: bool, mss: u16, scale: nat, isn: u32, buffer: nat, allowed: bool, now: int,
                          stream: seq<byte>)
    ensures FinNear(NewSession(p, ipv4, mss, scale, isn, buffer, allowed, now), stream)
  {
    hide ReceiveWindow, Shl, WriteRst;
    WriteRstShape(NewSession(p, ipv4, mss, scale, isn, buffer, true, now));
  }

  /** For a FIN that is counted at once, that is a test of the packet: the acknowledgement covers an untaken byte if and
      only if the FIN's number is not remote_seq. */
  lemma FinPacketCovers(r: Relay, e: Event, stream: seq<byte>)
    requires Inv(r, stream) && r.state == Established && r.up.forward == []
    requires FinAgrees(r, e, stream) && e.Tun? && e.allowed && e.ackOk
    requires e.p.fin && !e.p.urg && !e.p.rst && !e.p.syn && e.p.data == [] && (e.p.ack ==> e.p.ackSeq == r.down.seqno)
    ensures var q := Step(r, e);
      && |q.log| == |r.log| + 1 && q.log[|r.log|].ToTun? && q.log[|r.log|].packet.ackSeq == q.up.seqno
      && (CoversUntaken(q.up, q.up.seqno, stream) <==> e.p.seqno != r.up.seqno)
  {
    FinCounted(r, e);
    hide HandleTcp, Step, QueueInv;
    var q := Step(r, e);
    StepKeeps(r, e, stream);
    StepFinNear(r, e, stream);
    CoversExactly(q, q.up.seqno, stream);
    InvCounts(q, stream);
    U32Add(r.up.seqno + 1, -1);
    U32Id(r.up.seqno);
    U32Id(e.p.seqno);
  }

  lemma FinCounted(r: Relay, e: Event)
    requires r.state == Established && r.up.forward == [] && e.Tun? && e.allowed && e.ackOk
    requires e.p.fin && !e.p.urg && !e.p.rst && !e.p.syn && e.p.data == [] && (e.p.ack ==> e.p.ackSeq == r.down.seqno)
    ensures var q := Step(r, e);
      && q.state == CloseWait && q.up == r.up.(seqno := U32(r.up.seqno + 1))
      && |q.log| == |r.log| + 1 && q.log[|r.log|].ToTun? && q.log[|r.log|].packet.ackSeq == q.up.seqno
  {
    hide U32, Shl, Shr;
  }
}
