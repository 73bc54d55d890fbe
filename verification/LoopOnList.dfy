/** The event loop on the linked list: searching, updating one node in place, prepending and sweeping with a trailing
    pointer do to the heap what EventLoop.Step does to the table. */
module LoopOnList {
  import opened Serial
  import TcpModel
  import opened SessionTable
  import opened TableInvariants
  import opened SessionList
  import opened EventLoop

  // ----- updating one node is a pass that leaves the others alone

  lemma {:induction false} PassOverOthers(list: seq<Session>, step: Session -> Checked)
    requires forall s: Session :: s in list ==> step(s) == Checked(s, false, false)
    ensures Remaining(list, step) == list && ClosedIds(list, step) == multiset{}
    ensures ClosedSockets(list, step) == {} && FreedIds(list, step) == multiset{}
  {
    if list != [] {
      assert list[0] in list;
      PassOverOthers(list[1..], step);
    }
  }

  lemma {:induction false} ListOverOne(list: seq<Session>, step: Session -> Checked, i: nat)
    requires i < |list| && !step(list[i]).deletes
    requires forall j :: 0 <= j < |list| && j != i ==> step(list[j]) == Checked(list[j], false, false)
    ensures Remaining(list, step) == list[i := step(list[i]).s]
  {
    var rest, c := list[1..], step(list[i]);
    assert forall j :: 0 <= j < |rest| ==> rest[j] == list[j + 1];
    if i == 0 {
      PassOverOthers(rest, step);
      assert [c.s] + rest == list[i := c.s];
    } else {
      ListOverOne(rest, step, i - 1);
      assert [list[0]] + rest[i - 1 := c.s] == list[i := c.s];
    }
  }

  lemma {:induction false} FreedOverOne(list: seq<Session>, step: Session -> Checked)
    requires forall s: Session :: s in list ==> !step(s).deletes
    ensures FreedIds(list, step) == multiset{}
  {
    if list != [] {
      assert list[0] in list;
      FreedOverOne(list[1..], step);
    }
  }

  /** Only the session at i closes its descriptor, if any does. */
  predicate OnlyCloses(list: seq<Session>, step: Session -> Checked, i: nat) {
    forall j :: 0 <= j < |list| && j != i ==> !step(list[j]).closes
  }

  lemma {:induction false} NoneClosed(list: seq<Session>, step: Session -> Checked)
    requires forall j :: 0 <= j < |list| ==> !step(list[j]).closes
    ensures ClosedIds(list, step) == multiset{} && ClosedSockets(list, step) == {}
  {
    if list != [] {
      assert forall j :: 0 <= j < |list[1..]| ==> list[1..][j] == list[j + 1];
      NoneClosed(list[1..], step);
    }
  }

  lemma {:induction false} IdsOverOne(list: seq<Session>, step: Session -> Checked, i: nat)
    requires i < |list| && OnlyCloses(list, step, i)
    ensures ClosedIds(list, step) == if step(list[i]).closes then multiset{list[i].id} else multiset{}
  {
    var rest := list[1..];
    assert forall j :: 0 <= j < |rest| ==> rest[j] == list[j + 1];
    if i == 0 {
      NoneClosed(rest, step);
    } else {
      assert !step(list[0]).closes;
      IdsOverOne(rest, step, i - 1);
    }
  }

  lemma {:induction false} SocketsOverOne(list: seq<Session>, step: Session -> Checked, i: nat)
    requires i < |list| && OnlyCloses(list, step, i)
    ensures ClosedSockets(list, step) == if step(list[i]).closes then {list[i].socket} else {}
  {
    var rest := list[1..];
    assert forall j :: 0 <= j < |rest| ==> rest[j] == list[j + 1];
    if i == 0 {
      NoneClosed(rest, step);
    } else {
      assert !step(list[0]).closes;
      SocketsOverOne(rest, step, i - 1);
    }
  }

  lemma TouchIsLocal(t: Table, i: nat, kind: Kind, now: int, closes: bool)
    requires DistinctIds(t.list) && i < |t.list|
    ensures var s := t.list[i]; var c := Touch(s.id, kind, now, closes)(s);
      Pass(t, Touch(s.id, kind, now, closes)) == Visited(t.(list := t.list[i := c.s]), s, c)
  {
    hide Succeeds, Moves;
    var s := t.list[i];
    var step := Touch(s.id, kind, now, closes);
    ListOverOne(t.list, step, i);
    FreedOverOne(t.list, step);
    IdsOverOne(t.list, step, i);
    SocketsOverOne(t.list, step, i);
    hide Remaining, FreedIds, ClosedIds, ClosedSockets, Touch;
    assert t.open - {} == t.open && t.watched - {} == t.watched;
    assert t.closed + multiset{} == t.closed && t.freed + multiset{} == t.freed;
  }

  /** What a step leaves of the nodes: old ones and new ones. */
  twostate predicate Grown(c: Context)
    reads c
  {
    forall n :: n in c.nodes ==> n in old(c.nodes) || fresh(n)
  }

  // ----- the handlers

  lemma VisitedWorld(t: Table, list: seq<Session>, s: Session, k: Checked)
    ensures Visited(t.(list := list), s, k) == Visited(t.(list := []), s, k).(list := list)
  {
  }

  method SetNode(c: Context, n: Node, s: Session, ghost i: nat)
    requires c.Valid() && i < |c.nodes| && c.nodes[i] == n
    modifies n`s
    ensures c.Valid() && Values(c.nodes) == old(Values(c.nodes))[i := s]
  {
    n.s := s;
    assert Values(c.nodes) == old(Values(c.nodes))[i := s];
  }

  method TouchNode(c: Context, n: Node, kind: Kind, now: int, closes: bool)
    requires c.Valid() && n in c.nodes && DistinctIds(c.View().list)
    modifies c`open, c`watched, c`closed, c`freed, n`s
    ensures c.Valid() && c.nodes == old(c.nodes)
    ensures c.View() == Pass(old(c.View()), Touch(old(n.s.id), kind, now, closes))
  {
    hide Succeeds, Moves, Pass, Touch, Visited;
    ghost var t := c.View();
    ghost var i :| 0 <= i < |c.nodes| && c.nodes[i] == n;
    var s := n.s;
    var k := Touch(s.id, kind, now, closes)(s);
    TouchIsLocal(t, i, kind, now, closes);
    VisitedWorld(t, t.list[i := k.s], s, k);
    SetNode(c, n, k.s, i);
    c.Settle(s, k);
  }

  /** The first node that fits holds what First finds. */
  lemma {:induction false} FirstIs(list: seq<Session>, fits: Session -> bool, i: nat)
    requires i < |list| && fits(list[i]) && forall j :: 0 <= j < i ==> !fits(list[j])
    ensures First(list, fits) == Found(list[i])
  {
    if i > 0 {
      assert list[i] == list[1..][i - 1];
      FirstIs(list[1..], fits, i - 1);
    }
  }

  method Lookup(c: Context, fits: Session -> bool) returns (n: Node?)
    requires c.Valid()
    ensures n == null ==> First(c.View().list, fits) == Nobody
    ensures n != null ==> n in c.nodes && First(c.View().list, fits) == Found(n.s)
  {
    n := c.Search(fits);
    if n != null {
      ghost var i :| 0 <= i < |c.nodes| && c.nodes[i] == n && forall j :: 0 <= j < i ==> !fits(c.nodes[j].s);
      FirstIs(c.View().list, fits, i);
    }
  }

  method OnIcmp(c: Context, p: Packet)
    requires c.Valid() && DistinctIds(c.View().list)
    modifies c, c.nodes
    ensures c.Valid() && c.View() == HandleIcmp(old(c.View()), p) && Grown(c)
  {
    hide Linked, Values, Pass, Register, Touch, First;
    if p.echo {
      var n := Lookup(c, Icmps(p.key));
      if n != null {
        TouchNode(c, n, Icmp(!p.sendOk), p.now, false);
      } else if p.fd >= 0 && p.fd !in c.open {
        c.Register(Icmp(!p.sendOk), p.key, p.now, p.fd);
        assert forall x :: x in c.nodes ==> x == c.nodes[0] || x in c.nodes[1..];
      }
    }
  }

  method OnUdp(c: Context, p: Packet)
    requires c.Valid() && DistinctIds(c.View().list)
    modifies c, c.nodes
    ensures c.Valid() && c.View() == HandleUdp(old(c.View()), p) && Grown(c)
  {
    hide Linked, Values, Pass, Register, Touch, First;
    var kind := Udp(if p.sendOk then Active else Finishing);
    var n := Lookup(c, Udps(p.key));
    if n != null {
      if n.s.kind.udp == Active {
        TouchNode(c, n, kind, p.now, false);
      }
    } else if p.fd >= 0 && p.fd !in c.open {
      c.Register(kind, p.key, p.now, p.fd);
      assert forall x :: x in c.nodes ==> x == c.nodes[0] || x in c.nodes[1..];
    }
  }

  method OnTcp(c: Context, p: Packet)
    requires c.Valid() && DistinctIds(c.View().list)
    modifies c, c.nodes
    ensures c.Valid() && c.View() == EventLoop.HandleTcp(old(c.View()), p) && Grown(c)
  {
    hide Linked, Values, Pass, Register, Touch, First;
    if p.urg {
      return;
    }
    var n := Lookup(c, Tcps(p.key));
    if n != null {
      var next := if p.allowed then p.next
                  else if n.s.kind.tcp == TcpModel.Close then TcpModel.Close else TcpModel.Closing;
      TouchNode(c, n, Tcp(next), p.time, false);
    } else if p.syn && p.fd >= 0 && p.fd !in c.open {
      c.Register(Tcp(if p.allowed then TcpModel.Listen else TcpModel.Closing), p.key, p.now, p.fd);
      assert forall x :: x in c.nodes ==> x == c.nodes[0] || x in c.nodes[1..];
    }
  }

  method OnIp(c: Context, p: Packet, stale: nat, maxSessions: pos)
    requires c.Valid() && DistinctIds(c.View().list)
    modifies c, c.nodes
    ensures c.Valid() && c.View() == HandleIp(old(c.View()), p, stale, maxSessions) && Grown(c)
  {
    hide Linked, Values, Register, First, HandleIcmp, HandleUdp, EventLoop.HandleTcp;
    if stale >= maxSessions {
      var known := Lookup(c, Udps(p.key));
      var dropped := match p.protocol
        case IcmpPacket => true
        case UdpPacket => p.key.dport != 53 && known == null
        case TcpPacket => p.syn;
      if dropped {
        return;
      }
    }
    match p.protocol
    case IcmpPacket =>
      if p.allowed {
        OnIcmp(c, p);
      }
    case UdpPacket =>
      if p.allowed {
        OnUdp(c, p);
      } else {
        c.Register(Udp(Blocked), p.key, p.now, NONE);
        assert forall x :: x in c.nodes ==> x == c.nodes[0] || x in c.nodes[1..];
      }
    case TcpPacket =>
      OnTcp(c, p);
  }

  function Ids(id: nat): Session -> bool {
    (s: Session) => s.id == id
  }

  lemma {:induction false} FindIsFirst(list: seq<Session>, id: nat)
    ensures Find(list, id) == First(list, Ids(id))
  {
    if list != [] {
      FindIsFirst(list[1..], id);
    }
  }

  method OnReady(c: Context, e: Event)
    requires c.Valid() && DistinctIds(c.View().list) && e.FromSocket?
    modifies c, c.nodes
    ensures c.Valid() && c.View() == OnSocket(old(c.View()), e) && Grown(c)
  {
    hide Linked, Values, Pass, Touch, First, Find;
    FindIsFirst(c.View().list, e.id);
    var n := Lookup(c, Ids(e.id));
    if n != null {
      TouchNode(c, n, SocketKind(n.s, e), e.time, n.s.kind.Tcp? && e.closes);
    }
  }

  /** What epoll returns: any of the ids on its interest list. */
  method Wait(c: Context, ready: set<nat>) returns (pending: set<nat>)
    ensures pending == Pending(c.View(), ready)
  {
    pending := set fd | fd in c.watched && c.watched[fd] in ready :: c.watched[fd];
  }

  method OnRound(c: Context, e: Event, maxSessions: pos) returns (phase: Phase)
    requires c.Valid() && e.Round?
    modifies c, c.nodes
    ensures c.Valid() && Loop(c.View(), phase) == Begin(old(c.View()), e, maxSessions) && Grown(c)
  {
    hide Linked, Pass, Count, Pending, Kept;
    var stale := c.CountActive();
    c.Walk(Watcher(e.broken));
    if e.due {
      assert forall i :: 0 <= i < |c.nodes| ==> c.nodes[i] in old(c.nodes);
      c.Sweep(e.now, stale, maxSessions);
    }
    var pending := Wait(c, e.ready);
    phase := Dispatch(stale, TUN_YIELD, pending);
  }

  // ----- the loop

  method OnIdle(c: Context, e: Event, maxSessions: pos) returns (phase: Phase)
    requires c.Valid()
    modifies c, c.nodes
    ensures c.Valid() && Loop(c.View(), phase) == Step(Loop(old(c.View()), Idle), e, maxSessions) && Grown(c)
  {
    hide Linked, Pass, Begin, Kept;
    phase := Idle;
    match e
    case Round(_, _, _, _) =>
      phase := OnRound(c, e, maxSessions);
    case Restart(denied) =>
      c.CheckAllowed(denied);
      c.watched := map[];
    case ClearAll =>
      c.Walk(Clearer());
    case _ =>
  }

  method OnEvent(c: Context, phase: Phase, e: Event, maxSessions: pos) returns (next: Phase)
    requires c.Valid() && DistinctIds(c.View().list)
    modifies c, c.nodes
    ensures c.Valid() && Loop(c.View(), next) == Step(Loop(old(c.View()), phase), e, maxSessions) && Grown(c)
  {
    hide Linked, Values, Pass, Begin, HandleIp, OnSocket;
    if phase.Idle? {
      next := OnIdle(c, e, maxSessions);
      return;
    }
    next := phase;
    match e
    case FromTun(p) =>
      if phase.budget > 0 {
        OnIp(c, p, phase.stale, maxSessions);
        next := Dispatch(phase.stale, phase.budget - 1, phase.pending);
      }
    case FromSocket(id, _, _, _, _) =>
      if id in phase.pending {
        OnReady(c, e);
        next := Dispatch(phase.stale, phase.budget, phase.pending - {id});
      }
    case EndOfRound =>
      next := Idle;
    case _ =>
  }

  /** Any run on the heap, from an empty list, is the run on the table. */
  method Drive(events: seq<Event>, maxSessions: pos) returns (c: Context, phase: Phase)
    ensures c.Valid() && Loop(c.View(), phase) == Run(Start(), events, maxSessions)
    ensures LoopInv(Loop(c.View(), phase), maxSessions)
  {
    hide Linked, Values, LoopInv, TableInv, Step;
    c := new Context();
    phase := Idle;
    StartInv(maxSessions);
    for i := 0 to |events|
      invariant c.Valid() && fresh(c) && forall n :: n in c.nodes ==> fresh(n)
      invariant Run(Loop(c.View(), phase), events[i..], maxSessions) == Run(Start(), events, maxSessions)
      invariant LoopInv(Loop(c.View(), phase), maxSessions)
    {
      assert events[i..][0] == events[i] && events[i..][1..] == events[i + 1..];
      LoopStepKeeps(Loop(c.View(), phase), events[i], maxSessions);
      LoopIds(Loop(c.View(), phase), maxSessions);
      forall k | 0 <= k < |c.nodes| ensures fresh(c.nodes[k]) {
        assert c.nodes[k] in c.nodes;
      }
      phase := OnEvent(c, phase, events[i], maxSessions);
    }
  }
}
