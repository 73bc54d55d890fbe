/** What the relay does to the application's byte stream, over every run: the bytes taken by the server
    socket are a prefix of the stream, and the position counts the SYN, the drained bytes and the FIN. */
module TcpStream {
  import opened Serial
  import opened TcpModel
  import opened TcpShapes
  import opened TcpStates

  // ----- the position of a session in the unbounded stream

  function HeadSent(forward: seq<Segment>): nat {
    if forward == [] then 0 else forward[0].sent
  }

  /** Bytes of all segments that have left the queue. */
  function Drained(f: Up): int {
    |f.taken| - HeadSent(f.forward)
  }

  /** What remote_seq counts besides drained bytes. */
  function SynFin(f: Up): u32 {
    U32(f.seqno - f.start - Drained(f))
  }

  /** The unbounded sequence number behind remote_seq, with the SYN at 0. */
  function Pos(f: Up): int {
    Drained(f) + SynFin(f)
  }

  // ----- invariants

  /** Segment g carries the stream's bytes at its true offset; remote is the word at position pos. */
  predicate Fits(g: Segment, remote: u32, pos: int, stream: seq<byte>) {
    var d := Diff(g.seqno, remote);
    && 0 < |g.data| < 0x1_0000
    && -0x1_0000 < d < 0x4000_0000
    && 1 <= pos + d
    && pos + d - 1 + |g.data| <= |stream|
    && g.data == stream[pos + d - 1..pos + d - 1 + |g.data|]
  }

  predicate AllFit(forward: seq<Segment>, remote: u32, pos: int, stream: seq<byte>) {
    forall i {:trigger Fits(forward[i], remote, pos, stream)} ::
      0 <= i < |forward| ==> Fits(forward[i], remote, pos, stream)
  }

  predicate Sorted(forward: seq<Segment>, remote: u32) {
    forall i, j :: 0 <= i < j < |forward| ==> Diff(forward[i].seqno, remote) < Diff(forward[j].seqno, remote)
  }

  predicate OnlyHeadSent(forward: seq<Segment>, remote: u32) {
    forall i :: 0 <= i < |forward| && forward[i].sent > 0 ==> i == 0 && forward[i].seqno == remote
  }

  predicate Unsent(f: seq<Segment>) {
    forall i :: 0 <= i < |f| ==> f[i].sent == 0
  }

  predicate QueueInv(forward: seq<Segment>, remote: u32, pos: int, stream: seq<byte>) {
    && AllFit(forward, remote, pos, stream)
    && Sorted(forward, remote)
    && OnlyHeadSent(forward, remote)
  }

  /** The stream invariant of a flow at unbounded position pos, of which k are SYN and FIN. */
  predicate UpAt(f: Up, pos: int, k: int, stream: seq<byte>) {
    && 0 <= k <= 2
    && pos == Drained(f) + k
    && 0 <= Drained(f)
    && f.seqno == U32(f.start + pos)
    && f.taken <= stream
    && (k == 0 ==> f.taken == [])
    && (k == 2 ==> f.forward == [])
    && QueueInv(f.forward, f.seqno, pos, stream)
  }

  /** How many of SYN and FIN are counted in each state. */
  predicate Counts(state: State, synFin: int, empty: bool) {
    match state
    case Listen => synFin == 0
    case SynRecv | Established | FinWait1 => synFin == 1
    case CloseWait => synFin == if empty then 2 else 1
    case LastAck => synFin == 2
    case Closing | Close => true
  }

  predicate RelayAt(r: Relay, pos: int, k: int, stream: seq<byte>) {
    UpAt(r.up, pos, k, stream) && Counts(r.state, k, r.up.forward == [])
  }

  predicate Inv(r: Relay, stream: seq<byte>) {
    RelayAt(r, Pos(r.up), SynFin(r.up), stream) && Sane(r)
  }

  /** An event agrees with the stream when the data it brings is not farther than 2^30 from the position
      and, unless already forwarded, is what the stream holds there. */
  predicate Agrees(r: Relay, e: Event, stream: seq<byte>) {
    e.Tun? && e.p.data != [] ==>
      && -0x4000_0000 < Diff(e.p.seqno, r.up.seqno)
      && (Diff(e.p.seqno, r.up.seqno) >= 0 ==>
            Fits(Segment(e.p.seqno, e.p.data, 0, e.p.psh), r.up.seqno, Pos(r.up), stream))
  }

  predicate RunAgrees(r: Relay, events: seq<Event>, stream: seq<byte>)
    decreases |events|
  {
    events != [] ==> Agrees(r, events[0], stream) && RunAgrees(Step(r, events[0]), events[1..], stream)
  }

  // ----- moving the position

  lemma Position(f: Up, pos: int, k: int, stream: seq<byte>)
    requires UpAt(f, pos, k, stream)
    ensures SynFin(f) == k && Pos(f) == pos
  {
    U32Add(f.start + pos, 0 - f.start - Drained(f));
    U32Id(k);
  }

  lemma FitsShift(g: Segment, remote: u32, pos: int, n: nat, stream: seq<byte>)
    requires Fits(g, remote, pos, stream)
    requires n < 0x1_0000
    ensures Diff(g.seqno, U32(remote + n)) == Diff(g.seqno, remote) - n
    ensures Diff(g.seqno, remote) > 0 || n == 0 ==> Fits(g, U32(remote + n), pos + n, stream)
  {
    DiffShift(g.seqno, remote, n);
  }

  /** Moving the position over n bytes that no queued segment starts in keeps the queue. */
  lemma QueueShift(forward: seq<Segment>, remote: u32, pos: int, n: nat, stream: seq<byte>)
    requires QueueInv(forward, remote, pos, stream)
    requires n < 0x1_0000
    requires forall i :: 0 <= i < |forward| ==> Diff(forward[i].seqno, remote) > 0
    ensures QueueInv(forward, U32(remote + n), pos + n, stream)
    ensures HeadSent(forward) == 0
  {
    forall i | 0 <= i < |forward|
      ensures Diff(forward[i].seqno, U32(remote + n)) == Diff(forward[i].seqno, remote) - n
      ensures Fits(forward[i], U32(remote + n), pos + n, stream)
      ensures forward[i].sent == 0
    {
      FitsShift(forward[i], remote, pos, n, stream);
    }
  }

  /** Nothing queued starts at the SYN. */
  lemma NothingBefore(forward: seq<Segment>, remote: u32, stream: seq<byte>)
    requires AllFit(forward, remote, 0, stream)
    ensures forall i :: 0 <= i < |forward| ==> Diff(forward[i].seqno, remote) > 0
  {
    forall i | 0 <= i < |forward|
      ensures Diff(forward[i].seqno, remote) > 0
    {
      assert Fits(forward[i], remote, 0, stream);
    }
  }

  lemma CountSyn(f: Up, pos: int, stream: seq<byte>)
    requires UpAt(f, pos, 0, stream)
    ensures UpAt(f.(seqno := U32(f.seqno + 1)), pos + 1, 1, stream)
  {
    assert pos == 0;
    U32Add(f.start + pos, 1);
    NothingBefore(f.forward, f.seqno, stream);
    QueueShift(f.forward, f.seqno, pos, 1, stream);
  }

  lemma CountFin(f: Up, pos: int, stream: seq<byte>)
    requires UpAt(f, pos, 1, stream) && f.forward == []
    ensures UpAt(f.(seqno := U32(f.seqno + 1)), pos + 1, 2, stream)
  {
    U32Add(f.start + pos, 1);
  }

  lemma WriteRstKeeps(r: Relay, pos: int, k: int, stream: seq<byte>) returns (pos': int, k': int)
    requires RelayAt(r, pos, k, stream)
    ensures RelayAt(WriteRst(r), pos', k', stream) && (k' == 2 ==> k == 2)
    ensures WriteRst(r).up.taken == r.up.taken
  {
    hide UpAt, U32, WriteRst;
    WriteRstShape(r);
    pos', k' := pos, k;
    if r.state == Listen {
      CountSyn(r.up, pos, stream);
      pos', k' := pos + 1, 1;
    }
  }

  // ----- the queue

  predicate Near(forward: seq<Segment>, remote: u32) {
    forall i :: 0 <= i < |forward| ==> -0x1_0000 < Diff(forward[i].seqno, remote) < 0x4000_0000
  }

  /** All segments from index k on lie beyond n. */
  predicate Beyond(forward: seq<Segment>, k: nat, n: Segment, remote: u32) {
    forall i :: k <= i < |forward| ==> Diff(forward[i].seqno, remote) > Diff(n.seqno, remote)
  }

  predicate Below(forward: seq<Segment>, k: nat, n: Segment, remote: u32)
    requires k <= |forward|
  {
    forall i :: 0 <= i < k ==> Diff(forward[i].seqno, remote) < Diff(n.seqno, remote)
  }

  /** How many queued segments queue_tcp walks over to find the place for seqno. */
  function Place(f: seq<Segment>, seqno: u32): (k: nat)
    ensures k <= |f|
  {
    if f == [] || CompareU32(f[0].seqno, seqno) >= 0 then 0 else 1 + Place(f[1..], seqno)
  }

  /** The queue after n was put before f[k], or has replaced the data of f[k]. */
  function InsertAt(f: seq<Segment>, k: nat, n: Segment): seq<Segment>
    requires k <= |f|
  {
    if k == |f| || f[k].seqno != n.seqno then f[..k] + [n] + f[k..]
    else if |f[k].data| == |n.data| then f
    else f[k := f[k].(data := n.data)]
  }

  /** queue_tcp changes at most one place of the queue. */
  lemma {:induction false} QueueInsertShape(f: seq<Segment>, n: Segment)
    ensures QueueInsert(f, n) == InsertAt(f, Place(f, n.seqno), n)
  {
    if f != [] && CompareU32(f[0].seqno, n.seqno) < 0 {
      QueueInsertShape(f[1..], n);
      var k := Place(f[1..], n.seqno);
      assert InsertAt(f, k + 1, n) == [f[0]] + InsertAt(f[1..], k, n);
    }
  }

  /** That place is the one the true offset of n determines. */
  lemma {:induction false} PlaceByOffset(f: seq<Segment>, n: Segment, remote: u32)
    requires Sorted(f, remote) && Near(f, remote) && Near([n], remote)
    ensures var k := Place(f, n.seqno);
      && Below(f, k, n, remote)
      && Beyond(f, if k < |f| && f[k].seqno == n.seqno then k + 1 else k, n, remote)
  {
    hide U32, Diff;
    if f == [] {
      return;
    }
    assert [n][0] == n;
    CompareByDistance(f[0].seqno, n.seqno, remote);
    if CompareU32(f[0].seqno, n.seqno) < 0 {
      PlaceByOffset(f[1..], n, remote);
      assert forall i :: 0 < i < |f| ==> f[i] == f[1..][i - 1];
    }
  }

  lemma FitsNear(f: seq<Segment>, remote: u32, pos: int, stream: seq<byte>)
    requires AllFit(f, remote, pos, stream)
    ensures Near(f, remote)
  {
    forall i | 0 <= i < |f|
      ensures -0x1_0000 < Diff(f[i].seqno, remote) < 0x4000_0000
    {
      assert Fits(f[i], remote, pos, stream);
    }
  }

  lemma InsertAtOrdered(f: seq<Segment>, k: nat, n: Segment, remote: u32)
    requires Sorted(f, remote) && OnlyHeadSent(f, remote)
    requires n.sent == 0 && 0 <= Diff(n.seqno, remote)
    requires k <= |f| && Below(f, k, n, remote)
    requires Beyond(f, if k < |f| && f[k].seqno == n.seqno then k + 1 else k, n, remote)
    ensures Sorted(InsertAt(f, k, n), remote) && OnlyHeadSent(InsertAt(f, k, n), remote)
    ensures HeadSent(InsertAt(f, k, n)) == HeadSent(f)
  {
    DiffSelf(remote);
    hide U32, Diff;
  }

  lemma InsertAtFits(f: seq<Segment>, k: nat, n: Segment, remote: u32, pos: int, stream: seq<byte>)
    requires AllFit(f, remote, pos, stream) && Fits(n, remote, pos, stream)
    requires k <= |f|
    ensures AllFit(InsertAt(f, k, n), remote, pos, stream)
  {
    hide U32, Diff;
    var q := InsertAt(f, k, n);
    forall i | 0 <= i < |q|
      ensures Fits(q[i], remote, pos, stream)
    {
      assert i < |f| ==> Fits(f[i], remote, pos, stream);
      assert 0 < i <= |f| ==> Fits(f[i - 1], remote, pos, stream);
    }
  }

  /** Queueing a segment that agrees with the stream keeps the queue sorted by true offset. */
  lemma QueueInsertKeeps(f: seq<Segment>, n: Segment, remote: u32, pos: int, stream: seq<byte>)
    requires QueueInv(f, remote, pos, stream)
    requires Fits(n, remote, pos, stream) && n.sent == 0 && 0 <= Diff(n.seqno, remote)
    ensures QueueInv(QueueInsert(f, n), remote, pos, stream)
    ensures HeadSent(QueueInsert(f, n)) == HeadSent(f)
  {
    hide U32, Diff, InsertAt, Place, QueueInsert;
    FitsNear(f, remote, pos, stream);
    PlaceByOffset(f, n, remote);
    QueueInsertShape(f, n);
    InsertAtOrdered(f, Place(f, n.seqno), n, remote);
    InsertAtFits(f, Place(f, n.seqno), n, remote, pos, stream);
  }

  lemma QueueTcpKeeps(u: Up, p: Packet, pos: int, k: int, stream: seq<byte>)
    requires UpAt(u, pos, k, stream) && k <= 1
    requires -0x4000_0000 < Diff(p.seqno, u.seqno)
    requires Diff(p.seqno, u.seqno) >= 0 ==> Fits(Segment(p.seqno, p.data, 0, p.psh), u.seqno, pos, stream)
    ensures UpAt(QueueTcp(u, p), pos, k, stream)
  {
    if Diff(p.seqno, u.seqno) >= 0 {
      CompareByDistance(p.seqno, u.seqno, u.seqno);
      QueueInsertKeeps(u.forward, Segment(p.seqno, p.data, 0, p.psh), u.seqno, pos, stream);
    } else {
      CompareByDistance(p.seqno, u.seqno, u.seqno);
    }
  }

  // ----- forwarding

  /** When the head is next in line, the SYN has been counted and the FIN has not. */
  lemma HeadCounts(u: Up, pos: int, k: int, stream: seq<byte>)
    requires UpAt(u, pos, k, stream)
    requires u.forward != [] && u.forward[0].seqno == u.seqno
    ensures k == 1
  {
    DiffSelf(u.seqno);
    hide U32, Diff;
    assert Fits(u.forward[0], u.seqno, pos, stream);
  }

  lemma NextBytes(taken: seq<byte>, data: seq<byte>, sent: nat, n: nat, stream: seq<byte>)
    requires taken <= stream && sent + n <= |data| && sent <= |taken|
    requires |taken| - sent + |data| <= |stream|
    requires data == stream[|taken| - sent..|taken| - sent + |data|]
    ensures taken + data[sent..sent + n] == stream[..|taken| + n]
  {
    var mine, theirs := data[sent..sent + n], stream[|taken|..|taken| + n];
    forall i | 0 <= i < n
      ensures mine[i] == theirs[i]
    {
      assert data[sent + i] == stream[|taken| - sent..|taken| - sent + |data|][sent + i];
    }
    assert mine == theirs;
  }

  /** Sending from the head hands over the next bytes of the stream. */
  lemma TakeKeeps(u: Up, n: nat, pos: int, k: int, stream: seq<byte>) returns (pos': int)
    requires UpAt(u, pos, k, stream)
    requires u.forward != [] && u.forward[0].seqno == u.seqno
    requires u.forward[0].sent + n <= |u.forward[0].data|
    ensures UpAt(Take(u, n), pos', k, stream)
  {
    hide U32, Diff;
    var h := u.forward[0];
    DiffSelf(u.seqno);
    HeadCounts(u, pos, k, stream);
    assert Fits(h, u.seqno, pos, stream);
    NextBytes(u.taken, h.data, h.sent, n, stream);
    hide Fits, AllFit, Sorted, OnlyHeadSent;
    if h.sent + n == |h.data| {
      pos' := pos + |h.data|;
      U32Add(u.start + pos, |h.data|);
      DrainHead(u.forward, u.seqno, pos, stream);
    } else {
      pos' := pos;
      SentMore(u.forward, n, u.seqno, pos, stream);
    }
  }

  lemma DrainHead(f: seq<Segment>, remote: u32, pos: int, stream: seq<byte>)
    requires QueueInv(f, remote, pos, stream)
    requires f != [] && f[0].seqno == remote
    ensures QueueInv(f[1..], U32(remote + |f[0].data|), pos + |f[0].data|, stream)
    ensures HeadSent(f[1..]) == 0
  {
    DiffSelf(remote);
    hide U32, Diff;
    assert Fits(f[0], remote, pos, stream);
    var rest := f[1..];
    forall i | 0 <= i < |rest|
      ensures Fits(rest[i], remote, pos, stream)
    {
      assert Fits(f[i + 1], remote, pos, stream);
    }
    QueueShift(rest, remote, pos, |f[0].data|, stream);
  }

  lemma SentMore(f: seq<Segment>, n: nat, remote: u32, pos: int, stream: seq<byte>)
    requires QueueInv(f, remote, pos, stream)
    requires f != [] && f[0].seqno == remote
    ensures QueueInv([f[0].(sent := f[0].sent + n)] + f[1..], remote, pos, stream)
  {
    var q := [f[0].(sent := f[0].sent + n)] + f[1..];
    forall i | 0 <= i < |q|
      ensures Fits(q[i], remote, pos, stream)
    {
      assert Fits(f[i], remote, pos, stream);
    }
  }

  /** The forwarding loop, unrolled once. */
  lemma ForwardOnce(u: Up, room: int, sends: seq<SendResult>)
    ensures sends == [] || !HeadReady(u, room) || sends[0] == SendRetry ==>
              Forward(u, room, sends) == Forwarded(u, 0, false, false)
    ensures sends != [] && HeadReady(u, room) && sends[0] == SendFailed ==>
              Forward(u, room, sends) == Forwarded(u, 0, false, true)
    ensures sends != [] && HeadReady(u, room) && sends[0].Sent? ==>
              var left := |u.forward[0].data| - u.forward[0].sent;
              var n := Min(sends[0].count, left);
              Forward(u, room, sends) ==
                if n < left then Forwarded(Take(u, n), n, true, false)
                else var f := Forward(Take(u, n), room - n, sends[1..]);
                     Forwarded(f.up, n + f.bytes, true, f.failed)
  {
    hide Take;
    if sends != [] && HeadReady(u, room) && sends[0].Sent? {
      ForwardOneSend(u, room, sends);
    }
  }

  lemma ForwardOneSend(u: Up, room: int, sends: seq<SendResult>)
    requires sends != [] && HeadReady(u, room) && sends[0].Sent?
    ensures var left := |u.forward[0].data| - u.forward[0].sent;
      var n := Min(sends[0].count, left);
      Forward(u, room, sends) ==
        if n < left then Forwarded(Take(u, n), n, true, false)
        else var f := Forward(Take(u, n), room - n, sends[1..]);
             Forwarded(f.up, n + f.bytes, true, f.failed)
  {
    hide Take;
    var n := Min(sends[0].count, |u.forward[0].data| - u.forward[0].sent);
    var v, rest := Take(u, n), sends[1..];
    var f := Forward(v, room - n, rest);
    assert n == |u.forward[0].data| - u.forward[0].sent ==>
      Forward(u, room, sends) == Forwarded(f.up, n + f.bytes, true, f.failed);
  }

  lemma {:induction false} ForwardKeeps(u: Up, buffer: int, sends: seq<SendResult>, pos: int, k: int,
                                        stream: seq<byte>) returns (pos': int)
    requires UpAt(u, pos, k, stream)
    ensures UpAt(Forward(u, buffer, sends).up, pos', k, stream)
    ensures |Forward(u, buffer, sends).up.taken| == |u.taken| + Forward(u, buffer, sends).bytes
    decreases |sends|
  {
    hide U32, Diff, UpAt;
    if sends == [] || !HeadReady(u, buffer) || !sends[0].Sent? {
      return pos;
    }
    var left := |u.forward[0].data| - u.forward[0].sent;
    var n := Min(sends[0].count, left);
    pos' := TakeKeeps(u, n, pos, k, stream);
    if n == left {
      pos' := ForwardKeeps(Take(u, n), buffer - n, sends[1..], pos', k, stream);
    }
  }

  /** The loop reports a send exactly when it moved something, and only from a non-empty queue. */
  lemma ForwardFlag(u: Up, buffer: int, sends: seq<SendResult>)
    ensures var f := Forward(u, buffer, sends);
      if f.fwd then u.forward != [] && u.forward[0].seqno == u.seqno else f.up == u && f.bytes == 0
  {
  }

  // ----- every handler keeps the invariant

  lemma ProxyKeeps(r: Relay, e: Ready, pos: int, k: int, stream: seq<byte>) returns (pos': int, k': int)
    requires RelayAt(r, pos, k, stream) && Sane(r) && r.state == Listen
    ensures RelayAt(ProxySend(ProxyReceive(r, e), e), pos', k', stream) && k' != 2
    ensures ProxySend(ProxyReceive(r, e), e).up.taken == r.up.taken
  {
    hide UpAt, U32, ProxySend, ProxyReceive;
    CountSyn(r.up, pos, stream);
    ProxyReceiveShape(r, e);
    ProxySendShape(ProxyReceive(r, e), e);
    if ProxySend(ProxyReceive(r, e), e).state == Listen {
      return pos, k;
    } else {
      return pos + 1, k + 1;
    }
  }

  lemma AcknowledgeKeeps(r: Relay, f: Forwarded, e: Ready, pos: int, k: int, stream: seq<byte>)
    returns (pos': int, k': int)
    requires UpAt(f.up, pos, k, stream) && r.state !in {Listen, FinWait1, LastAck, Close}
    requires Counts(r.state, k, r.up.forward == [])
    requires if f.fwd then k == 1 else f.up == r.up
    ensures RelayAt(Acknowledge(ForwardStep(r, f), f.fwd, e), pos', k', stream)
    ensures k' == 2 ==> k == 2 || r.state == CloseWait
    ensures Acknowledge(ForwardStep(r, f), f.fwd, e).up.taken == f.up.taken
    ensures Acknowledge(ForwardStep(r, f), f.fwd, e).state != Listen
  {
    hide UpAt, U32, Acknowledge, ForwardStep;
    AcknowledgeShape(r, f, e);
    if f.fwd && f.up.forward == [] && ForwardStep(r, f).state == CloseWait {
      CountFin(f.up, pos, stream);
      return pos + 1, 2;
    } else {
      return pos, k;
    }
  }

  lemma ReadServerKeeps(r: Relay, e: Ready, pos: int, k: int, stream: seq<byte>)
    requires RelayAt(r, pos, k, stream) && r.state != Listen
    ensures RelayAt(ReadServer(r, e), pos, k, stream)
    ensures ReadServer(r, e).up == r.up
  {
    hide UpAt, U32, ReadServer;
    ReadServerShape(r, e);
  }

  lemma SocketKeeps(r: Relay, e: Ready, pos: int, k: int, stream: seq<byte>) returns (pos': int, k': int)
    requires RelayAt(r, pos, k, stream) && Sane(r) && r.socket
    ensures RelayAt(CheckTcpSocket(r, e), pos', k', stream)
    ensures k' == 2 ==> k == 2 || r.state == CloseWait
    ensures |r.up.taken| <= |CheckTcpSocket(r, e).up.taken|
  {
    hide UpAt, U32, Forward, Acknowledge, ReadServer, ForwardStep, ProxySend, ProxyReceive, WriteRst;
    if e.error {
      pos', k' := WriteRstKeeps(At(r, e.now), pos, k, stream);
    } else if r.state == Listen {
      pos', k' := ProxyKeeps(r, e, pos, k, stream);
    } else {
      var f := if e.writable then Forward(r.up, e.buffer, e.sends) else Forwarded(r.up, 0, false, false);
      pos', k' := pos, k;
      if e.writable {
        ForwardFlag(r.up, e.buffer, e.sends);
        pos' := ForwardKeeps(r.up, e.buffer, e.sends, pos, k, stream);
        if f.fwd {
          HeadCounts(r.up, pos, k, stream);
        }
      }
      var a := Acknowledge(ForwardStep(r, f), f.fwd, e);
      pos', k' := AcknowledgeKeeps(r, f, e, pos', k', stream);
      ReadServerKeeps(a, e, pos', k', stream);
    }
  }

  lemma RemoteFinKeeps(r: Relay, ackOk: bool, pos: int, k: int, stream: seq<byte>)
    returns (pos': int, k': int)
    requires RelayAt(r, pos, k, stream) && (r.state == FinWait1 ==> r.up.forward == [])
    ensures RelayAt(RemoteFin(r, ackOk), pos', k', stream)
    ensures RemoteFin(r, ackOk).up.taken == r.up.taken
  {
    hide UpAt, U32, TcpPacket;
    if (r.state == Established || r.state == FinWait1) && r.up.forward == [] {
      CountFin(r.up, pos, stream);
      return pos + 1, 2;
    } else {
      return pos, k;
    }
  }

  lemma HandleFlagsKeeps(r: Relay, p: Packet, ackOk: bool, pos: int, k: int, stream: seq<byte>)
    returns (pos': int, k': int)
    requires RelayAt(r, pos, k, stream) && (r.state == FinWait1 ==> r.up.forward == [])
    ensures RelayAt(HandleFlags(r, p, ackOk), pos', k', stream)
    ensures k' == 2 ==> k == 2 || p.fin
    ensures HandleFlags(r, p, ackOk).up.taken == r.up.taken
  {
    hide UpAt, U32, CompareU32, WriteRst, RemoteFin;
    pos', k' := pos, k;
    if !p.rst && (!p.ack || p.ackSeq == r.down.seqno) && !p.syn && p.fin {
      pos', k' := RemoteFinKeeps(r, ackOk, pos, k, stream);
    } else if HandleFlags(r, p, ackOk) == WriteRst(r) {
      pos', k' := WriteRstKeeps(r, pos, k, stream);
    }
  }

  lemma HandleTcpKeeps(r: Relay, e: Event, pos: int, k: int, stream: seq<byte>)
    returns (pos': int, k': int)
    requires e.Tun? && RelayAt(r, pos, k, stream) && Sane(r) && pos == Pos(r.up) && Agrees(r, e, stream)
    ensures RelayAt(Step(r, e), pos', k', stream)
    ensures k' == 2 ==> k == 2 || e.p.fin
    ensures Step(r, e).up.taken == r.up.taken
  {
    hide UpAt, U32, WriteRst, HandleFlags, QueueTcp, Pos, Fits, Diff;
    var h := Heard(r, e.p, e.now);
    if e.p.urg {
      return pos, k;
    } else if !e.allowed || r.state == Closing || r.state == Close {
      pos', k' := WriteRstKeeps(r, pos, k, stream);
    } else if e.p.data == [] {
      pos', k' := HandleFlagsKeeps(h, e.p, e.ackOk, pos, k, stream);
    } else if !r.socket || r.state == CloseWait {
      pos', k' := WriteRstKeeps(h, pos, k, stream);
    } else {
      QueueTcpKeeps(r.up, e.p, pos, k, stream);
      QueueTcpTaken(r.up, e.p);
      pos', k' := HandleFlagsKeeps(h.(up := QueueTcp(r.up, e.p)), e.p, e.ackOk, pos, k, stream);
    }
  }

  lemma QueueTcpTaken(u: Up, p: Packet)
    ensures QueueTcp(u, p).taken == u.taken
  {
  }

  lemma CheckKeeps(r: Relay, now: int, sessions: nat, maxSessions: pos, pos: int, k: int, stream: seq<byte>)
    returns (pos': int, k': int)
    requires RelayAt(r, pos, k, stream)
    ensures RelayAt(CheckTcpSession(r, now, sessions, maxSessions).0, pos', k', stream) && (k' == 2 ==> k == 2)
    ensures CheckTcpSession(r, now, sessions, maxSessions).0.up.taken == r.up.taken
  {
    hide UpAt, U32, Timeout, WriteRst;
    pos', k' := pos, k;
    WriteRstShape(r);
    if Expire(r, now, sessions, maxSessions) == WriteRst(r) {
      pos', k' := WriteRstKeeps(r, pos, k, stream);
    }
  }

  lemma MonitorKeeps(r: Relay, buffer: nat, ms: int, epollOk: bool, ackOk: bool, pos: int, k: int,
                     stream: seq<byte>)
    requires RelayAt(r, pos, k, stream)
    ensures RelayAt(MonitorTcpSession(r, buffer, ms, epollOk, ackOk), pos, k, stream)
    ensures MonitorTcpSession(r, buffer, ms, epollOk, ackOk).up == r.up
  {
    hide UpAt, U32, SendWindow, HeadReady, KeepAlive;
    KeepAliveShape(r, ms, ackOk);
  }

  /** One event: the invariant stays, and nothing that the server has taken is taken back. */
  lemma StepKeeps(r: Relay, e: Event, stream: seq<byte>)
    requires Inv(r, stream) && Agrees(r, e, stream)
    ensures Inv(Step(r, e), stream)
    ensures r.up.taken <= Step(r, e).up.taken
    ensures SynFin(Step(r, e).up) == 2 ==> SynFin(r.up) == 2 || r.state == CloseWait || (e.Tun? && e.p.fin)
  {
    StepEdge(r, e);
    var pos, k := Pos(r.up), SynFin(r.up);
    var pos', k' := pos, k;
    {
      hide UpAt, SynFin, Sane, Edge, CheckTcpSocket, CheckTcpSession, MonitorTcpSession, WriteRst, HandleTcp;
      match e
      case Tun(_, _, _, _) =>
        pos', k' := HandleTcpKeeps(r, e, pos, k, stream);
      case Socket(ready) =>
        if r.socket {
          pos', k' := SocketKeeps(r, ready, pos, k, stream);
        }
      case Check(now, sessions, maxSessions) =>
        pos', k' := CheckKeeps(r, now, sessions, maxSessions, pos, k, stream);
      case Monitor(buffer, ms, epollOk, ackOk) =>
        if r.socket {
          MonitorKeeps(r, buffer, ms, epollOk, ackOk, pos, k, stream);
        }
      case Disallow =>
        if r.state != Closing && r.state != Close {
          pos', k' := WriteRstKeeps(r, pos, k, stream);
        }
    }
    hide Step;
    Position(Step(r, e).up, pos', k', stream);
  }

  // ----- whole runs

  /** A SYN without payload opens a session at the start of any stream. */
  lemma NewSessionInv(p: Packet, ipv4: bool, mss: u16, scale: nat, isn: u32, buffer: nat, allowed: bool,
                      now: int, stream: seq<byte>)
    requires p.data == []
    ensures Inv(NewSession(p, ipv4, mss, scale, isn, buffer, allowed, now), stream)
  {
    hide ReceiveWindow, Shl, WriteRst;
    NewSessionSane(p, ipv4, mss, scale, isn, buffer, allowed, now);
    var r := NewSession(p, ipv4, mss, scale, isn, buffer, true, now);
    U32Id(p.seqno);
    assert RelayAt(r, 0, 0, stream);
    hide RelayAt;
    var pos, k := 0, 0;
    if !allowed {
      pos, k := WriteRstKeeps(r, 0, 0, stream);
    }
    assert RelayAt(NewSession(p, ipv4, mss, scale, isn, buffer, allowed, now), pos, k, stream);
    AtIsInv(NewSession(p, ipv4, mss, scale, isn, buffer, allowed, now), pos, k, stream);
  }

  lemma AtIsInv(r: Relay, pos: int, k: int, stream: seq<byte>)
    requires RelayAt(r, pos, k, stream) && Sane(r)
    ensures Inv(r, stream)
  {
    Position(r.up, pos, k, stream);
  }

  lemma {:induction false} RunKeeps(r: Relay, events: seq<Event>, stream: seq<byte>)
    requires Inv(r, stream) && RunAgrees(r, events, stream)
    ensures Inv(Run(r, events), stream)
    ensures r.up.taken <= Run(r, events).up.taken
    decreases |events|
  {
    hide Inv, Step, Agrees;
    if events != [] {
      StepKeeps(r, events[0], stream);
      RunKeeps(Step(r, events[0]), events[1..], stream);
    }
  }

  /** However data segments are reordered, repeated or overlapping, and however sends are cut short, the
      server takes exactly a prefix of the application's stream, across any number of wrap-arounds. */
  lemma ServerTakesPrefix(p: Packet, ipv4: bool, mss: u16, scale: nat, isn: u32, buffer: nat,
                          allowed: bool, now: int, events: seq<Event>, stream: seq<byte>)
    requires p.data == []
    requires RunAgrees(NewSession(p, ipv4, mss, scale, isn, buffer, allowed, now), events, stream)
    ensures Run(NewSession(p, ipv4, mss, scale, isn, buffer, allowed, now), events).up.taken <= stream
  {
    var r := NewSession(p, ipv4, mss, scale, isn, buffer, allowed, now);
    NewSessionInv(p, ipv4, mss, scale, isn, buffer, allowed, now, stream);
    RunKeeps(r, events, stream);
  }

  lemma InvCounts(r: Relay, stream: seq<byte>)
    requires Inv(r, stream)
    ensures var k := U32(r.up.seqno - r.up.start - Drained(r.up));
      && k == SynFin(r.up) && 0 <= Drained(r.up) <= |r.up.taken|
      && k <= 2 && (k == 2 ==> r.up.forward == []) && Counts(r.state, k, r.up.forward == [])
  {
    hide QueueInv, Sane;
  }

  lemma NewSessionStart(p: Packet, ipv4: bool, mss: u16, scale: nat, isn: u32, buffer: nat, allowed: bool, now: int)
    ensures NewSession(p, ipv4, mss, scale, isn, buffer, allowed, now).up.start == p.seqno
  {
    hide U32, ReceiveWindow, Shl, WriteRst;
    WriteRstShape(NewSession(p, ipv4, mss, scale, isn, buffer, true, now));
  }

  lemma {:induction false} ForwardStart(u: Up, buffer: int, sends: seq<SendResult>)
    ensures Forward(u, buffer, sends).up.start == u.start
    decreases |sends|
  {
    if sends != [] && HeadReady(u, buffer) && sends[0].Sent? {
      var n := Min(sends[0].count, |u.forward[0].data| - u.forward[0].sent);
      ForwardStart(Take(u, n), buffer - n, sends[1..]);
    }
  }

  /** The SYN's number stays. */
  lemma StepStart(r: Relay, e: Event)
    requires Sane(r)
    ensures Step(r, e).up.start == r.up.start
  {
    hide U32, WriteRst, HandleTcp, KeepAlive, SendWindow, HeadReady, Timeout, Forward, ForwardStep;
    hide Acknowledge, ReadServer, ProxySend, ProxyReceive;
    WriteRstShape(r);
    match e
    case Tun(p, allowed, ackOk, now) =>
      HandleTcpMoves(r, p, allowed, ackOk, now);
    case Socket(ready) =>
      WriteRstShape(At(r, ready.now));
      if r.state == Listen {
        ProxyReceiveShape(r, ready);
        ProxySendShape(ProxyReceive(r, ready), ready);
      } else if r.socket {
        var f := if ready.writable then Forward(r.up, ready.buffer, ready.sends) else Forwarded(r.up, 0, false, false);
        ForwardStart(r.up, ready.buffer, ready.sends);
        AcknowledgeShape(r, f, ready);
        ReadServerShape(Acknowledge(ForwardStep(r, f), f.fwd, ready), ready);
      }
    case Monitor(_, ms, _, ackOk) =>
      KeepAliveShape(r, ms, ackOk);
    case _ =>
  }

  lemma {:induction false} RunStart(r: Relay, events: seq<Event>)
    requires Sane(r)
    ensures Run(r, events).up.start == r.up.start
    decreases |events|
  {
    hide Step, Sane, Edge;
    if events != [] {
      StepEdge(r, events[0]);
      StepStart(r, events[0]);
      RunStart(Step(r, events[0]), events[1..]);
    }
  }
}
