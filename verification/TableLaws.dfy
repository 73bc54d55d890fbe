/** What packets, sockets, a restart and a new round do to the table, each said of the whole step, from the outside. */
module TableLaws {
  import opened Serial
  import opened TcpModel
  import opened SessionTable
  import opened TableInvariants
  import EventLoop

  type Packet = EventLoop.Packet

  // ----- who is known

  ghost predicate KnowsUdp(t: Table, key: Key) {
    exists s :: s in t.list && s.kind.Udp? && s.key == key
  }

  ghost predicate KnowsTcp(t: Table, key: Key) {
    exists s :: s in t.list && s.kind.Tcp? && s.key == key
  }

  /** A running ICMP session between the same addresses. */
  ghost predicate KnowsIcmp(t: Table, key: Key) {
    exists s :: s in t.list && s.kind == Icmp(false)
                && s.key.version == key.version && s.key.saddr == key.saddr && s.key.daddr == key.daddr
  }

  lemma KnownUdp(t: Table, key: Key)
    ensures KnowsUdp(t, key) <==> EventLoop.First(t.list, EventLoop.Udps(key)).Found?
  {
    hide EventLoop.First;
    var f := EventLoop.First(t.list, EventLoop.Udps(key));
    if KnowsUdp(t, key) {
      var s :| s in t.list && s.kind.Udp? && s.key == key;
      var i :| 0 <= i < |t.list| && t.list[i] == s;
      assert EventLoop.Udps(key)(t.list[i]);
    }
  }

  lemma KnownTcp(t: Table, key: Key)
    ensures KnowsTcp(t, key) <==> EventLoop.First(t.list, EventLoop.Tcps(key)).Found?
  {
    hide EventLoop.First;
    if KnowsTcp(t, key) {
      var s :| s in t.list && s.kind.Tcp? && s.key == key;
      var i :| 0 <= i < |t.list| && t.list[i] == s;
      assert EventLoop.Tcps(key)(t.list[i]);
    }
  }

  lemma KnownIcmp(t: Table, key: Key)
    ensures KnowsIcmp(t, key) <==> EventLoop.First(t.list, EventLoop.Icmps(key)).Found?
  {
    hide EventLoop.First;
    if KnowsIcmp(t, key) {
      var s :| s in t.list && s.kind == Icmp(false)
               && s.key.version == key.version && s.key.saddr == key.saddr && s.key.daddr == key.daddr;
      var i :| 0 <= i < |t.list| && t.list[i] == s;
      assert EventLoop.Icmps(key)(t.list[i]);
    }
  }

  // ----- new sessions

  /** One session more, at the head of the list, with its descriptor open and watched; nothing else changes. */
  predicate OneMore(t: Table, q: Table, kind: Kind, p: Packet) {
    && q.list == [Session(t.nextId, kind, p.key, p.now, p.fd)] + t.list
    && q.open == t.open + {p.fd} && q.watched == t.watched[p.fd := t.nextId]
    && q.nextId == t.nextId + 1 && q.bare == t.bare && q.closed == t.closed && q.freed == t.freed
  }

  /** The first allowed UDP packet of a conversation opens an active session, or a finishing one when it cannot be sent. */
  lemma UdpOpens(t: Table, p: Packet, stale: nat, maxSessions: pos)
    requires p.protocol == EventLoop.UdpPacket && p.allowed && !KnowsUdp(t, p.key) && p.fd >= 0 && p.fd !in t.open
    requires stale < maxSessions || p.key.dport == 53
    ensures OneMore(t, EventLoop.HandleIp(t, p, stale, maxSessions), Udp(if p.sendOk then Active else Finishing), p)
  {
    hide EventLoop.First;
    KnownUdp(t, p.key);
  }

  /** A denied UDP packet leaves a block record without a descriptor, also for a known conversation. */
  lemma UdpBlocked(t: Table, p: Packet, stale: nat, maxSessions: pos)
    requires p.protocol == EventLoop.UdpPacket && !p.allowed
    requires stale < maxSessions || p.key.dport == 53 || KnowsUdp(t, p.key)
    ensures var q := EventLoop.HandleIp(t, p, stale, maxSessions);
      && q.list == [Session(t.nextId, Udp(Blocked), p.key, p.now, -1)] + t.list
      && q.open == t.open && q.watched == t.watched && q.bare == t.bare + {t.nextId} && q.nextId == t.nextId + 1
  {
    hide EventLoop.First;
    KnownUdp(t, p.key);
  }

  /** The first allowed echo request between two addresses opens a running session, or a stopped one when it cannot be sent;
      any other ICMP packet, and a denied one, changes nothing. */
  lemma IcmpOpens(t: Table, p: Packet, stale: nat, maxSessions: pos)
    requires p.protocol == EventLoop.IcmpPacket && !KnowsIcmp(t, p.key) && p.fd >= 0 && p.fd !in t.open && stale < maxSessions
    ensures var q := EventLoop.HandleIp(t, p, stale, maxSessions);
      if p.allowed && p.echo then OneMore(t, q, Icmp(!p.sendOk), p) else q == t
  {
    hide EventLoop.First;
    KnownIcmp(t, p.key);
  }

  /** A SYN without a session opens one, which starts closing when it is not allowed; any other TCP packet without a session
      changes nothing. */
  lemma TcpOpens(t: Table, p: Packet, stale: nat, maxSessions: pos)
    requires p.protocol == EventLoop.TcpPacket && !KnowsTcp(t, p.key) && p.fd >= 0 && p.fd !in t.open
    requires stale < maxSessions
    ensures var q := EventLoop.HandleIp(t, p, stale, maxSessions);
      if p.syn && !p.urg then OneMore(t, q, Tcp(if p.allowed then Listen else Closing), p) else q == t
  {
    hide EventLoop.First;
    KnownTcp(t, p.key);
  }

  /** Without a descriptor, no session is opened. */
  lemma NoDescriptor(t: Table, p: Packet, stale: nat, maxSessions: pos)
    requires p.fd < 0 && p.allowed
    requires match p.protocol
      case UdpPacket => !KnowsUdp(t, p.key)
      case TcpPacket => !KnowsTcp(t, p.key)
      case IcmpPacket => !KnowsIcmp(t, p.key)
    ensures EventLoop.HandleIp(t, p, stale, maxSessions) == t
  {
    hide EventLoop.First;
    KnownUdp(t, p.key);
    KnownTcp(t, p.key);
    KnownIcmp(t, p.key);
  }

  // ----- the limit

  /** At the limit, packets of known UDP conversations, queries to name servers and TCP packets that open nothing are handled
      as below it, and all others are dropped. */
  lemma AtTheLimit(t: Table, p: Packet, stale: nat, maxSessions: pos)
    requires stale >= maxSessions
    ensures var passes := match p.protocol
        case UdpPacket => p.key.dport == 53 || KnowsUdp(t, p.key)
        case TcpPacket => !p.syn
        case IcmpPacket => false;
      EventLoop.HandleIp(t, p, stale, maxSessions) ==
        if passes then EventLoop.HandleIp(t, p, 0, maxSessions) else t
  {
    hide EventLoop.First, EventLoop.HandleUdp, EventLoop.HandleTcp, EventLoop.HandleIcmp, Register;
    KnownUdp(t, p.key);
  }

  // ----- known sessions

  /** A packet that is not allowed starts closing its TCP session, unless that is closed already. */
  lemma TcpDenied(t: Table, p: Packet, s: Session, stale: nat, maxSessions: pos)
    requires TableInv(t) && p.protocol == EventLoop.TcpPacket && !p.allowed && !p.urg && (stale < maxSessions || !p.syn)
    requires EventLoop.First(t.list, EventLoop.Tcps(p.key)) == Found(s) && s.kind.tcp in {Listen, SynRecv, Established, CloseWait}
    ensures Find(EventLoop.HandleIp(t, p, stale, maxSessions).list, s.id) ==
            Found(s.(kind := Tcp(Closing), time := p.time))
  {
    hide TableInv, Pass, EventLoop.Touch, Find;
    EventLoop.FoundIsListed(t, s);
    EventLoop.TouchGives(t, s.id, Tcp(Closing), p.time, false);
  }

  /** An event of a UDP or ICMP socket without an error sets the time alone; with one, UDP finishes and ICMP stops. */
  lemma SocketEvent(t: Table, e: EventLoop.Event)
    requires TableInv(t) && e.FromSocket? && EventLoop.Alive(t, e.id) && !Find(t.list, e.id).s.kind.Tcp?
    ensures var s := Find(t.list, e.id).s;
      var kind := if !e.stop then s.kind else if s.kind.Udp? then Udp(Finishing) else Icmp(true);
      Find(EventLoop.OnSocket(t, e).list, e.id) == Found(s.(kind := kind, time := e.time))
  {
    EventLoop.OnSocketUpdates(t, e);
    hide TableInv, EventLoop.OnSocket, Find;
  }

  /** After a restart with new rules: a denied session finishes, stops or starts closing; an allowed one is as it was; and no
      block record is left. */
  lemma Restarted(t: Table, denied: set<nat>, id: nat)
    requires TableInv(t)
    ensures Find(Pass(t, Rechecker(denied)).list, id) ==
            match Find(t.list, id)
            case Nobody => Nobody
            case Found(s) =>
              if s.kind == Udp(Blocked) then Nobody
              else if id !in denied || !IsActive(s) then Found(s)
              else Found(s.(kind := if s.kind.Udp? then Udp(Finishing) else if s.kind.Icmp? then Icmp(true) else Tcp(Closing)))
  {
    RecheckIsSound(denied);
    StepsOk(t, Rechecker(denied));
    DistinctOf(t);
    FindAfter(t.list, Rechecker(denied), id);
    FindIn(t.list, id);
    hide TableInv, Sound, Remaining, ClosedIds, ClosedSockets, FreedIds, Find, Succeeds, SessionOk;
  }

  // ----- a new round

  /** What becomes of a session whose descriptor cannot be watched. */
  function Unwatched(f: Found, broken: bool): Found {
    if f.Found? && f.s.kind.Tcp? && f.s.socket >= 0 && broken then Found(f.s.(kind := Tcp(Closing))) else f
  }

  /** The count that the limit is tested against is taken before anything else in the round, ten packets may follow, and
      unless the check is due only TCP sessions whose descriptor cannot be watched change, which start closing. */
  lemma RoundBegins(t: Table, e: EventLoop.Event, maxSessions: pos, id: nat)
    requires TableInv(t) && e.Round?
    ensures var l := EventLoop.Step(EventLoop.Loop(t, EventLoop.Idle), e, maxSessions);
      && l.phase.Dispatch? && l.phase.stale == Count(t.list, IsActive) && l.phase.budget == 10
      && (e.due || Find(l.t.list, id) == Unwatched(Find(t.list, id), id in e.broken))
  {
    WatchIsSound(e.broken);
    FoundAfter(t, Watcher(e.broken), id);
    FindIn(t.list, id);
    hide TableInv, Sound, Count, Pass, Find, Sweeper;
  }

  /** A packet for a UDP session that is not active changes nothing. */
  lemma UdpIgnored(t: Table, p: Packet, stale: nat, maxSessions: pos)
    requires p.protocol == EventLoop.UdpPacket && p.allowed
    requires var f := EventLoop.First(t.list, EventLoop.Udps(p.key)); f.Found? && f.s.kind != Udp(Active)
    ensures EventLoop.HandleIp(t, p, stale, maxSessions) == t
  {
    hide EventLoop.First;
  }

  /** When the check is due, every session that was not broken is as its check leaves it, or gone. */
  lemma RoundSweeps(t: Table, e: EventLoop.Event, maxSessions: pos, id: nat)
    requires TableInv(t) && e.Round? && e.due && id !in e.broken
    ensures var l := EventLoop.Step(EventLoop.Loop(t, EventLoop.Idle), e, maxSessions);
      Find(l.t.list, id) ==
        match Find(t.list, id)
        case Nobody => Nobody
        case Found(s) =>
          var c := CheckSession(s, e.now, Count(t.list, IsActive), maxSessions);
          if c.deletes then Nobody else Found(c.s)
  {
    var stale := Count(t.list, IsActive);
    WatchIsSound(e.broken);
    PassKeeps(t, Watcher(e.broken));
    CheckIsSound(e.now, stale, maxSessions);
    FoundAfter(t, Watcher(e.broken), id);
    FoundAfter(Pass(t, Watcher(e.broken)), Sweeper(e.now, stale, maxSessions), id);
    FindIn(t.list, id);
    hide TableInv, Sound, Count, Pass, Find, CheckSession;
  }

  lemma FoundAfter(t: Table, step: Session -> Checked, id: nat)
    requires TableInv(t) && Sound(step)
    ensures Find(Pass(t, step).list, id) ==
            match Find(t.list, id)
            case Nobody => Nobody
            case Found(s) => if step(s).deletes then Nobody else Found(step(s).s)
  {
    StepsOk(t, step);
    DistinctOf(t);
    FindAfter(t.list, step, id);
  }

  /** Clearing leaves no session, and each that was registered is freed exactly once after its descriptor was closed. */
  lemma ClearedAll(t: Table, maxSessions: pos, id: nat)
    requires TableInv(t)
    ensures var q := EventLoop.Step(EventLoop.Loop(t, EventLoop.Idle), EventLoop.ClearAll, maxSessions).t;
      && Find(q.list, id) == Nobody
      && (id < q.nextId ==> q.freed[id] == 1 && (id in q.bare || q.closed[id] == 1))
  {
    ClearIsSound();
    FoundAfter(t, Clearer(), id);
    PassKeeps(t, Clearer());
    AccountOf(Pass(t, Clearer()), id);
    hide TableInv, Pass, Find;
  }
}
