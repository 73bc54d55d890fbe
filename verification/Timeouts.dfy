/** When sessions expire and when they are deleted, in seconds, and how the time allowed shrinks with their number. */
module Timeouts {
  import opened Serial
  import opened TcpModel
  import opened TcpShapes
  import opened TcpStates
  import opened TcpAnswers
  import opened SessionTable
  import opened TableInvariants

  // ----- how timeouts shrink

  lemma CDivIs(a: nat, k: nat, q: nat, s: nat)
    requires k > 0 && a == k * q + s && s < k
    ensures CDiv(a, k) == q
  {
    QuotientIs(a, k, q, s);
  }

  lemma QuotientMonotone(a: nat, b: nat, k: nat)
    requires k > 0 && a <= b
    ensures 0 <= a / k <= b / k
  {
    MulStrict(k, b / k, a / k);
  }

  lemma DivMonotone(a: int, b: int, k: nat)
    requires k > 0 && a <= b
    ensures CDiv(a, k) <= CDiv(b, k)
  {
    if 0 <= a {
      DivMonotoneUp(a, b, k);
    } else if b < 0 {
      DivMonotoneUp(-b, -a, k);
      DivNegative(a, k);
      DivNegative(b, k);
    } else {
      DivMonotoneUp(0, -a, k);
      DivMonotoneUp(0, b, k);
      DivNegative(a, k);
    }
    hide CDiv;
  }

  lemma DivMonotoneUp(a: nat, b: nat, k: nat)
    requires k > 0 && a <= b
    ensures 0 <= CDiv(a, k) <= CDiv(b, k)
  {
    QuotientMonotone(a, b, k);
  }

  lemma DivNegative(a: int, k: nat)
    requires k > 0 && a < 0
    ensures CDiv(a, k) == -CDiv(-a, k)
  {
  }

  /** With fewer than one session in a hundred of the maximum, nothing is taken off. */
  lemma ScaledIsFull(timeout: nat, sessions: nat, maxSessions: pos)
    requires sessions * 100 < maxSessions
    ensures Scaled(timeout, sessions, maxSessions) == timeout
  {
    hide CDiv;
    CDivIs(sessions * 100, maxSessions, 0, sessions * 100);
    CDivIs(timeout * 100, 100, timeout, 0);
  }

  /** More sessions never allow more time. */
  lemma ScaledShrinks(timeout: nat, fewer: nat, more: nat, maxSessions: pos)
    requires fewer <= more
    ensures Scaled(timeout, more, maxSessions) <= Scaled(timeout, fewer, maxSessions)
  {
    hide CDiv;
    DivMonotone(fewer * 100, more * 100, maxSessions);
    var f, m := CDiv(fewer * 100, maxSessions), CDiv(more * 100, maxSessions);
    MulMonotone(timeout, 100 - m, 100 - f);
    DivMonotone(timeout * (100 - m), timeout * (100 - f), 100);
  }

  lemma MulMonotone(k: nat, a: int, b: int)
    requires a <= b
    ensures k * a <= k * b
  {
    assert k * b == k * a + k * (b - a);
  }

  /** At the maximum and above, none is allowed. */
  lemma ScaledIsGone(timeout: nat, sessions: nat, maxSessions: pos)
    requires sessions >= maxSessions
    ensures Scaled(timeout, sessions, maxSessions) <= 0
  {
    hide CDiv;
    DivMonotone(maxSessions * 100, sessions * 100, maxSessions);
    CDivIs(maxSessions * 100, maxSessions, 100, 0);
    var c := CDiv(sessions * 100, maxSessions);
    MulMonotone(timeout, 100 - c, 0);
    DivMonotone(timeout * (100 - c), 0, 100);
    CDivIs(0, 100, 0, 0);
  }

  /** Half the sessions, half the time. */
  lemma ScaledHalves()
    ensures Scaled(3600, 512, 1024) == 1800 && Scaled(20, 512, 1024) == 10 && Scaled(300, 256, 1024) == 225
  {
  }

  // ----- TCP

  /** How long a TCP session may be idle, in seconds. */
  function TcpSeconds(s: State): nat {
    match s
    case Established => 3600
    case _ => 20
  }

  lemma TimeoutIs(s: State, sessions: nat, maxSessions: pos)
    ensures Timeout(s, sessions, maxSessions) == Scaled(TcpSeconds(s), sessions, maxSessions)
  {
    hide Scaled;
  }

  /** An open session is closed by a check if and only if it was idle for longer than it may: an hour when established, and
      twenty seconds while it opens or closes.  With a reset, except in LISTEN, which nobody has heard of yet. */
  lemma TcpExpires(r: Relay, now: int, sessions: nat, maxSessions: pos)
    requires r.state !in {Closing, Close} && sessions * 100 < maxSessions
    ensures var q := Step(r, Check(now, sessions, maxSessions));
      if now - r.book.time > (if r.state == Established then 3600 else 20)
      then && q.state == Close && !q.socket && q.book.time == now
           && (if r.state == Listen then q.log == r.log
               else |q.log| == |r.log| + 1 && r.log <= q.log && Resets(q.log, |r.log|, r))
      else q == r
  {
    hide U32, WriteRst, Timeout, Scaled;
    TimeoutIs(r.state, sessions, maxSessions);
    ScaledIsFull(TcpSeconds(r.state), sessions, maxSessions);
    RstIsReset(r);
  }

  /** A closing session is closed at once, whatever the time, and its counters are cleared. */
  lemma TcpCloses(r: Relay, now: int, sessions: nat, maxSessions: pos)
    requires r.state == Closing
    ensures var q := Step(r, Check(now, sessions, maxSessions));
      q.state == Close && !q.socket && q.book.time == now && q.log == r.log && q.book.sent == 0 && q.book.received == 0
  {
    hide Timeout;
  }

  /** A closed session is deleted if and only if it was closed more than five minutes ago; no other session is. */
  lemma TcpDeleted(r: Relay, now: int, sessions: nat, maxSessions: pos)
    ensures CheckTcpSession(r, now, sessions, maxSessions).1 <==> r.state == Close && now - r.book.time > 300
  {
    hide U32, Timeout, TcpPacket;
  }

  // ----- UDP and ICMP

  /** An active UDP session is closed if and only if it was idle for more than fifteen seconds when it asks a name server,
      and five minutes otherwise. */
  lemma UdpExpires(s: Session, now: int, sessions: nat, maxSessions: pos)
    requires s.kind == Udp(Active) && sessions * 100 < maxSessions
    ensures CheckSession(s, now, sessions, maxSessions) ==
            if now - s.time > (if s.key.dport == 53 then 15 else 300)
            then Checked(s.(kind := Udp(Closed), time := now, socket := NONE), true, false)
            else Checked(s, false, false)
  {
    hide Scaled;
    ScaledIsFull(15, sessions, maxSessions);
    ScaledIsFull(300, sessions, maxSessions);
  }

  /** A finishing one is closed at once; a closed one or a block record is deleted if and only if it is older than a
      minute. */
  lemma UdpCloses(s: Session, now: int, sessions: nat, maxSessions: pos)
    requires s.kind.Udp? && s.kind.udp != Active
    ensures CheckSession(s, now, sessions, maxSessions) ==
            if s.kind.udp == Finishing then Checked(s.(kind := Udp(Closed), time := now, socket := NONE), true, false)
            else Checked(s, false, now - s.time > 60)
  {
    hide Scaled;
  }

  /** An ICMP session is closed and deleted if and only if it was stopped or idle for more than five seconds. */
  lemma IcmpExpires(s: Session, now: int, sessions: nat, maxSessions: pos)
    requires s.kind.Icmp? && sessions * 100 < maxSessions
    ensures CheckSession(s, now, sessions, maxSessions) ==
            if s.kind.stop || now - s.time > 5 then Checked(s.(socket := NONE), true, true) else Checked(s, false, false)
  {
    hide Scaled;
    ScaledIsFull(5, sessions, maxSessions);
  }

  // ----- which sessions count as active

  /** The sessions that count as active are those that a check leaves alone while they are used and changes when they are
      not: finishing ones change at once, and closed ones only disappear. */
  lemma ActiveTimesOut(s: Session, maxSessions: pos)
    requires SessionOk(s)
    ensures IsActive(s) <==>
            && CheckSession(s, s.time, 0, maxSessions) == Checked(s, false, false)
            && CheckSession(s, s.time + 3601, 0, maxSessions).s != s
  {
    hide Scaled;
    ScaledIsFull(5, 0, maxSessions);
    ScaledIsFull(15, 0, maxSessions);
    ScaledIsFull(300, 0, maxSessions);
    ScaledIsFull(20, 0, maxSessions);
    ScaledIsFull(3600, 0, maxSessions);
  }

  /** The count over the list is the number of different active sessions. */
  lemma {:induction false} CountIsCardinality(list: seq<Session>, active: Session -> bool)
    requires DistinctIds(list)
    ensures Count(list, active) == |set s | s in list && active(s)|
  {
    if list != [] {
      var rest := list[1..];
      CountIsCardinality(rest, active);
      var tail := set s | s in rest && active(s);
      NotAgain(list);
      ActiveOf(list, active);
      if active(list[0]) {
        assert |tail + {list[0]}| == |tail| + 1;
      }
    }
  }

  lemma NotAgain(list: seq<Session>)
    requires DistinctIds(list) && list != []
    ensures list[0] !in list[1..]
  {
    forall i | 0 <= i < |list[1..]|
      ensures list[1..][i] != list[0]
    {
      assert list[1..][i] == list[i + 1];
    }
  }

  lemma ActiveOf(list: seq<Session>, active: Session -> bool)
    requires list != []
    ensures var tail := set s | s in list[1..] && active(s);
      (set s | s in list && active(s)) == if active(list[0]) then tail + {list[0]} else tail
  {
    assert list == [list[0]] + list[1..];
    assert forall s :: s in list <==> s == list[0] || s in list[1..];
  }
}
