/** The event loop of session.c over every run: descriptors are closed exactly once before their session is freed, events
    only reach sessions that are alive, keys stay unique, and the number of sessions stays bounded although the limit is
    tested against a count taken once per round. */
module EventLoop {
  import opened Serial
  import opened TcpModel
  import opened SessionTable
  import opened TableInvariants
  import opened TcpStates

  const TUN_YIELD := 10

  datatype Protocol = IcmpPacket | UdpPacket | TcpPacket

  /** A packet from the tun device with what the environment decides: whether it is allowed, which descriptor a new
      socket gets (negative for none), whether sending works, and the state and time of a known TCP session after it. */
  datatype Packet = Packet(protocol: Protocol, key: Key, syn: bool, urg: bool, echo: bool, allowed: bool,
                           fd: int, sendOk: bool, now: int, next: State, time: int)

  datatype Phase = Idle | Dispatch(stale: nat, budget: nat, pending: set<nat>)

  datatype Loop = Loop(t: Table, phase: Phase)

  datatype Event =
    | Round(due: bool, now: int, broken: set<nat>, ready: set<nat>)  // count, monitor, sweep when due, wait for events
    | FromTun(p: Packet)
    | FromSocket(id: nat, stop: bool, next: State, closes: bool, time: int)
    | EndOfRound
    | Restart(denied: set<nat>)  // a new epoll instance, and check_allowed
    | ClearAll

  // ----- packets

  predicate FreeDescriptor(t: Table, fd: int) {
    fd >= 0 && fd !in t.open
  }

  /** The first session that fits. */
  function First(list: seq<Session>, fits: Session -> bool): (f: Found)
    ensures f.Found? ==> f.s in list && fits(f.s)
    ensures f == Nobody ==> forall i :: 0 <= i < |list| ==> !fits(list[i])
  {
    if list == [] then Nobody else if fits(list[0]) then Found(list[0])
    else
      var f := First(list[1..], fits);
      assert f == Nobody ==> forall i :: 0 < i < |list| ==> list[i] == list[1..][i - 1];
      f
  }

  function Tcps(key: Key): Session -> bool {
    (s: Session) => SameTcp(s, key)
  }

  function Udps(key: Key): Session -> bool {
    (s: Session) => SameUdp(s, key)
  }

  function Icmps(key: Key): Session -> bool {
    (s: Session) => SameIcmp(s, key)
  }

  /** One session gets a new kind and time, if that is a possible successor; closing drops its descriptor. */
  function Touch(id: nat, kind: Kind, now: int, closes: bool): Session -> Checked {
    (s: Session) =>
      var n := s.(kind := kind, time := now, socket := if closes then NONE else s.socket);
      var c := Checked(n, closes && s.socket >= 0, false);
      if s.id == id && Succeeds(s, c) && Moves(s.kind, kind) then c else Checked(s, false, false)
  }

  /** TCP sessions move along the edges of their state machine. */
  predicate Moves(a: Kind, b: Kind) {
    a.Tcp? && b.Tcp? ==> Edge(a.tcp, b.tcp)
  }

  /** Dropped at the limit: all ICMP, UDP without a session unless it asks a name server, and TCP openings. */
  predicate Dropped(t: Table, p: Packet) {
    match p.protocol
    case IcmpPacket => true
    case UdpPacket => p.key.dport != 53 && First(t.list, Udps(p.key)) == Nobody
    case TcpPacket => p.syn
  }

  function HandleIcmp(t: Table, p: Packet): Table {
    if !p.echo then t
    else match First(t.list, Icmps(p.key))
      case Found(s) => Pass(t, Touch(s.id, Icmp(!p.sendOk), p.now, false))
      case Nobody => if FreeDescriptor(t, p.fd) then Register(t, Icmp(!p.sendOk), p.key, p.now, p.fd) else t
  }

  function HandleUdp(t: Table, p: Packet): Table {
    var kind := Udp(if p.sendOk then Active else Finishing);
    match First(t.list, Udps(p.key))
    case Found(s) => if s.kind.udp == Active then Pass(t, Touch(s.id, kind, p.now, false)) else t
    case Nobody => if FreeDescriptor(t, p.fd) then Register(t, kind, p.key, p.now, p.fd) else t
  }

  function HandleTcp(t: Table, p: Packet): Table {
    if p.urg then t
    else match First(t.list, Tcps(p.key))
      case Found(s) =>
        var next := if p.allowed then p.next else if s.kind.tcp == Close then Close else Closing;
        Pass(t, Touch(s.id, Tcp(next), p.time, false))
      case Nobody =>
        if p.syn && FreeDescriptor(t, p.fd)
        then Register(t, Tcp(if p.allowed then Listen else Closing), p.key, p.now, p.fd) else t
  }

  /** handle_ip, with the count of sessions taken at the start of the round. */
  function HandleIp(t: Table, p: Packet, stale: nat, maxSessions: pos): Table {
    if stale >= maxSessions && Dropped(t, p) then t
    else match p.protocol
      case IcmpPacket => if p.allowed then HandleIcmp(t, p) else t
      case UdpPacket => if p.allowed then HandleUdp(t, p) else Register(t, Udp(Blocked), p.key, p.now, NONE)
      case TcpPacket => HandleTcp(t, p)
  }

  // ----- the loop

  /** What epoll returns: any of the ids on its interest list, whatever became of their sessions. */
  function Pending(t: Table, ready: set<nat>): set<nat> {
    set fd | fd in t.watched && t.watched[fd] in ready :: t.watched[fd]
  }

  function SocketKind(s: Session, e: Event): Kind
    requires e.FromSocket?
  {
    match s.kind
    case Icmp(stop) => Icmp(stop || e.stop)
    case Udp(u) => Udp(if e.stop then Finishing else u)
    case Tcp(_) => Tcp(e.next)
  }

  function OnSocket(t: Table, e: Event): Table
    requires e.FromSocket?
  {
    match Find(t.list, e.id)
    case Nobody => t
    case Found(s) => Pass(t, Touch(e.id, SocketKind(s, e), e.time, s.kind.Tcp? && e.closes))
  }

  function Begin(t: Table, e: Event, maxSessions: pos): Loop
    requires e.Round?
  {
    var stale := Count(t.list, IsActive);
    var watched := Pass(t, Watcher(e.broken));
    var swept := if e.due then Pass(watched, Sweeper(e.now, stale, maxSessions)) else watched;
    Loop(swept, Dispatch(stale, TUN_YIELD, Pending(swept, e.ready)))
  }

  /** One event; those that the phase does not admit change nothing. */
  function Step(l: Loop, e: Event, maxSessions: pos): Loop {
    match l.phase
    case Idle =>
      (match e
       case Round(_, _, _, _) => Begin(l.t, e, maxSessions)
       case Restart(denied) => l.(t := Pass(l.t, Rechecker(denied)).(watched := map[]))
       case ClearAll => l.(t := Pass(l.t, Clearer()))
       case _ => l)
    case Dispatch(stale, budget, pending) =>
      (match e
       case FromTun(p) =>
         if budget == 0 then l else Loop(HandleIp(l.t, p, stale, maxSessions), Dispatch(stale, budget - 1, pending))
       case FromSocket(id, _, _, _, _) =>
         if id !in pending then l else Loop(OnSocket(l.t, e), Dispatch(stale, budget, pending - {id}))
       case EndOfRound => Loop(l.t, Idle)
       case _ => l)
  }

  function Run(l: Loop, events: seq<Event>, maxSessions: pos): Loop
    decreases |events|
  {
    if events == [] then l else Run(Step(l, events[0], maxSessions), events[1..], maxSessions)
  }

  // ----- every step keeps the invariant of the table

  lemma TouchIsSound(id: nat, kind: Kind, now: int, closes: bool)
    ensures Sound(Touch(id, kind, now, closes))
  {
    hide Moves;
  }

  lemma TouchKeeps(t: Table, id: nat, kind: Kind, now: int, closes: bool)
    requires TableInv(t)
    ensures TableInv(Pass(t, Touch(id, kind, now, closes)))
  {
    hide TableInv, Pass, Sound, Touch;
    TouchIsSound(id, kind, now, closes);
    PassKeeps(t, Touch(id, kind, now, closes));
  }

  lemma HandleIcmpKeeps(t: Table, p: Packet)
    requires TableInv(t)
    ensures TableInv(HandleIcmp(t, p))
  {
    hide TableInv, Pass, Touch, Register;
    match First(t.list, Icmps(p.key))
    case Found(s) => TouchKeeps(t, s.id, Icmp(!p.sendOk), p.now, false);
    case Nobody =>
      if FreeDescriptor(t, p.fd) {
        RegisterKeeps(t, Icmp(!p.sendOk), p.key, p.now, p.fd);
      }
  }

  lemma HandleUdpKeeps(t: Table, p: Packet)
    requires TableInv(t)
    ensures TableInv(HandleUdp(t, p))
  {
    hide TableInv, Pass, Touch, Register;
    var kind := Udp(if p.sendOk then Active else Finishing);
    match First(t.list, Udps(p.key))
    case Found(s) => TouchKeeps(t, s.id, kind, p.now, false);
    case Nobody =>
      if FreeDescriptor(t, p.fd) {
        RegisterKeeps(t, kind, p.key, p.now, p.fd);
      }
  }

  lemma HandleTcpKeeps(t: Table, p: Packet)
    requires TableInv(t)
    ensures TableInv(HandleTcp(t, p))
  {
    hide TableInv, Pass, Touch, Register;
    match First(t.list, Tcps(p.key))
    case Found(s) =>
      var next := if p.allowed then p.next else if s.kind.tcp == Close then Close else Closing;
      TouchKeeps(t, s.id, Tcp(next), p.time, false);
    case Nobody =>
      if p.syn && FreeDescriptor(t, p.fd) {
        RegisterKeeps(t, Tcp(if p.allowed then Listen else Closing), p.key, p.now, p.fd);
      }
  }

  lemma HandleIpKeeps(t: Table, p: Packet, stale: nat, maxSessions: pos)
    requires TableInv(t)
    ensures TableInv(HandleIp(t, p, stale, maxSessions))
  {
    hide TableInv, HandleIcmp, HandleUdp, HandleTcp, Dropped, Register;
    match p.protocol
    case IcmpPacket => HandleIcmpKeeps(t, p);
    case UdpPacket =>
      HandleUdpKeeps(t, p);
      RegisterKeeps(t, Udp(Blocked), p.key, p.now, NONE);
    case TcpPacket => HandleTcpKeeps(t, p);
  }

  lemma OnSocketKeeps(t: Table, e: Event)
    requires TableInv(t) && e.FromSocket?
    ensures TableInv(OnSocket(t, e))
  {
    hide TableInv, Pass, Touch;
    match Find(t.list, e.id)
    case Nobody =>
    case Found(s) => TouchKeeps(t, e.id, SocketKind(s, e), e.time, s.kind.Tcp? && e.closes);
  }

  lemma BeginKeeps(t: Table, e: Event, maxSessions: pos)
    requires TableInv(t) && e.Round?
    ensures TableInv(Begin(t, e, maxSessions).t)
  {
    hide TableInv, Pass, Sound, Watcher, Sweeper, Count, Pending;
    var stale := Count(t.list, IsActive);
    WatchIsSound(e.broken);
    PassKeeps(t, Watcher(e.broken));
    CheckIsSound(e.now, stale, maxSessions);
    PassKeeps(Pass(t, Watcher(e.broken)), Sweeper(e.now, stale, maxSessions));
  }

  lemma StepKeepsTable(l: Loop, e: Event, maxSessions: pos)
    requires TableInv(l.t)
    ensures TableInv(Step(l, e, maxSessions).t)
  {
    hide TableInv, Pass, Sound, Begin, HandleIp, OnSocket, Rechecker, Clearer;
    if l.phase.Idle? {
      match e {
        case Round(_, _, _, _) => BeginKeeps(l.t, e, maxSessions);
        case Restart(denied) =>
          RecheckIsSound(denied);
          PassKeeps(l.t, Rechecker(denied));
          ForgetKeeps(Pass(l.t, Rechecker(denied)));
        case ClearAll =>
          ClearIsSound();
          PassKeeps(l.t, Clearer());
        case _ =>
      }
    } else {
      match e {
        case FromTun(p) => HandleIpKeeps(l.t, p, l.phase.stale, maxSessions);
        case FromSocket(_, _, _, _, _) => OnSocketKeeps(l.t, e);
        case _ =>
      }
    }
  }

  // ----- nothing of UDP and ICMP is held back by the guard in Touch

  /** When the successor of a session is a possible one, touching gives it exactly that. */
  lemma TouchGives(t: Table, id: nat, kind: Kind, now: int, closes: bool)
    requires TableInv(t) && Find(t.list, id).Found?
    requires var s := Find(t.list, id).s;
      var c := Checked(s.(kind := kind, time := now, socket := if closes then NONE else s.socket), closes && s.socket >= 0, false);
      Succeeds(s, c) && Moves(s.kind, kind)
    ensures var s := Find(t.list, id).s;
      Find(Pass(t, Touch(id, kind, now, closes)).list, id) ==
        Found(s.(kind := kind, time := now, socket := if closes then NONE else s.socket))
  {
    hide TableInv, Sound;
    TouchIsSound(id, kind, now, closes);
    StepsOk(t, Touch(id, kind, now, closes));
    DistinctOf(t);
    FindAfter(t.list, Touch(id, kind, now, closes), id);
    FindIn(t.list, id);
    hide Remaining, ClosedIds, ClosedSockets, FreedIds, Find, Succeeds, SessionOk, Moves;
  }

  lemma FoundIsListed(t: Table, s: Session)
    requires TableInv(t) && s in t.list
    ensures Find(t.list, s.id) == Found(s) && SessionOk(s)
  {
    hide TableInv;
    var i :| 0 <= i < |t.list| && t.list[i] == s;
    ListedOk(t, i);
  }

  /** A packet for an active UDP session leaves it active, or finishing when sending fails. */
  lemma HandleUdpUpdates(t: Table, p: Packet)
    requires TableInv(t) && First(t.list, Udps(p.key)).Found? && First(t.list, Udps(p.key)).s.kind == Udp(Active)
    ensures var s := First(t.list, Udps(p.key)).s;
      Find(HandleUdp(t, p).list, s.id) == Found(s.(kind := Udp(if p.sendOk then Active else Finishing), time := p.now))
  {
    hide TableInv, Pass, Touch, Find;
    var s := First(t.list, Udps(p.key)).s;
    FoundIsListed(t, s);
    TouchGives(t, s.id, Udp(if p.sendOk then Active else Finishing), p.now, false);
  }

  /** An echo request for a running ICMP session leaves it running, or stopped when sending fails. */
  lemma HandleIcmpUpdates(t: Table, p: Packet)
    requires TableInv(t) && p.echo && First(t.list, Icmps(p.key)).Found?
    ensures var s := First(t.list, Icmps(p.key)).s;
      Find(HandleIcmp(t, p).list, s.id) == Found(s.(kind := Icmp(!p.sendOk), time := p.now))
  {
    hide TableInv, Pass, Touch, Find;
    var s := First(t.list, Icmps(p.key)).s;
    FoundIsListed(t, s);
    TouchGives(t, s.id, Icmp(!p.sendOk), p.now, false);
  }

  /** An event of an open UDP or ICMP socket sets the time, and finishes or stops the session on an error. */
  lemma OnSocketUpdates(t: Table, e: Event)
    requires TableInv(t) && e.FromSocket? && Alive(t, e.id) && !Find(t.list, e.id).s.kind.Tcp?
    ensures var s := Find(t.list, e.id).s;
      Find(OnSocket(t, e).list, e.id) == Found(s.(kind := SocketKind(s, e), time := e.time))
  {
    AccountOf(t, e.id);
    hide TableInv, Pass, Touch;
    FindIn(t.list, e.id);
    hide Find;
    TouchGives(t, e.id, SocketKind(Find(t.list, e.id).s, e), e.time, false);
  }

  // ----- events only reach sessions that are alive

  /** Registered, with its own descriptor open. */
  predicate Alive(t: Table, id: nat) {
    Find(t.list, id).Found? && Find(t.list, id).s.socket >= 0
  }

  ghost predicate PendingAlive(l: Loop) {
    l.phase.Dispatch? ==> forall id: nat :: id in l.phase.pending ==> Alive(l.t, id)
  }

  /** Touching a session leaves the others alone, and itself alive unless it closes. */
  lemma TouchAlive(t: Table, id: nat, kind: Kind, now: int, closes: bool, other: nat)
    requires TableInv(t) && Alive(t, other) && (other == id ==> !closes)
    ensures Alive(Pass(t, Touch(id, kind, now, closes)), other)
  {
    hide TableInv, Sound;
    TouchIsSound(id, kind, now, closes);
    StepsOk(t, Touch(id, kind, now, closes));
    DistinctOf(t);
    FindAfter(t.list, Touch(id, kind, now, closes), other);
    FindIn(t.list, other);
    hide Remaining, ClosedIds, ClosedSockets, FreedIds, Find, Succeeds, SessionOk, Moves;
  }

  lemma RegisterAlive(t: Table, kind: Kind, key: Key, now: int, fd: int, other: nat)
    requires TableInv(t) && Alive(t, other)
    ensures Alive(Register(t, kind, key, now, fd), other)
  {
    hide TableInv;
    AccountOf(t, other);
    assert Register(t, kind, key, now, fd).list[1..] == t.list;
  }

  lemma HandleIcmpAlive(t: Table, p: Packet, other: nat)
    requires TableInv(t) && Alive(t, other)
    ensures Alive(HandleIcmp(t, p), other)
  {
    hide TableInv, Pass, Touch, Register, Alive;
    match First(t.list, Icmps(p.key))
    case Found(s) => TouchAlive(t, s.id, Icmp(!p.sendOk), p.now, false, other);
    case Nobody => RegisterAlive(t, Icmp(!p.sendOk), p.key, p.now, p.fd, other);
  }

  lemma HandleUdpAlive(t: Table, p: Packet, other: nat)
    requires TableInv(t) && Alive(t, other)
    ensures Alive(HandleUdp(t, p), other)
  {
    hide TableInv, Pass, Touch, Register, Alive;
    var kind := Udp(if p.sendOk then Active else Finishing);
    match First(t.list, Udps(p.key))
    case Found(s) => TouchAlive(t, s.id, kind, p.now, false, other);
    case Nobody => RegisterAlive(t, kind, p.key, p.now, p.fd, other);
  }

  lemma HandleTcpAlive(t: Table, p: Packet, other: nat)
    requires TableInv(t) && Alive(t, other)
    ensures Alive(HandleTcp(t, p), other)
  {
    hide TableInv, Pass, Touch, Register, Alive;
    match First(t.list, Tcps(p.key))
    case Found(s) =>
      var next := if p.allowed then p.next else if s.kind.tcp == Close then Close else Closing;
      TouchAlive(t, s.id, Tcp(next), p.time, false, other);
    case Nobody => RegisterAlive(t, Tcp(if p.allowed then Listen else Closing), p.key, p.now, p.fd, other);
  }

  lemma HandleIpAlive(t: Table, p: Packet, stale: nat, maxSessions: pos, other: nat)
    requires TableInv(t) && Alive(t, other)
    ensures Alive(HandleIp(t, p, stale, maxSessions), other)
  {
    hide TableInv, HandleIcmp, HandleUdp, HandleTcp, Dropped, Register, Alive;
    match p.protocol
    case IcmpPacket => HandleIcmpAlive(t, p, other);
    case UdpPacket =>
      HandleUdpAlive(t, p, other);
      RegisterAlive(t, Udp(Blocked), p.key, p.now, NONE, other);
    case TcpPacket => HandleTcpAlive(t, p, other);
  }

  lemma OnSocketAlive(t: Table, e: Event, other: nat)
    requires TableInv(t) && Alive(t, other) && e.FromSocket? && other != e.id
    ensures Alive(OnSocket(t, e), other)
  {
    hide TableInv, Pass, Touch, Alive;
    match Find(t.list, e.id)
    case Nobody =>
    case Found(s) => TouchAlive(t, e.id, SocketKind(s, e), e.time, s.kind.Tcp? && e.closes, other);
  }

  lemma PendingIsAlive(t: Table, ready: set<nat>, id: nat)
    requires TableInv(t) && id in Pending(t, ready)
    ensures Alive(t, id)
  {
    var fd :| fd in t.watched && t.watched[fd] == id;
    assert Watches(t, fd);
  }

  lemma StepKeepsPending(l: Loop, e: Event, maxSessions: pos)
    requires TableInv(l.t) && PendingAlive(l)
    ensures PendingAlive(Step(l, e, maxSessions))
  {
    hide TableInv, Pass, Alive, HandleIp, OnSocket, Pending;
    var m := Step(l, e, maxSessions);
    if m.phase.Dispatch? {
      StepKeepsTable(l, e, maxSessions);
      forall id: nat | id in m.phase.pending
        ensures Alive(m.t, id)
      {
        if l.phase.Idle? {
          PendingIsAlive(m.t, e.ready, id);
        } else {
          match e {
            case FromTun(p) => HandleIpAlive(l.t, p, l.phase.stale, maxSessions, id);
            case FromSocket(_, _, _, _, _) =>
              if e.id in l.phase.pending {
                OnSocketAlive(l.t, e, id);
              }
            case _ =>
          }
        }
      }
    }
  }

  // ----- the limit on sessions

  /** What the limit is about: active sessions, except queries to name servers. */
  predicate Counted(s: Session) {
    IsActive(s) && !(s.kind.Udp? && s.key.dport == 53)
  }

  lemma {:induction false} CountedAreActive(list: seq<Session>)
    ensures Count(list, Counted) <= Count(list, IsActive)
  {
    if list != [] {
      CountedAreActive(list[1..]);
    }
  }

  lemma {:induction false} RemainingCount(list: seq<Session>, step: Session -> Checked)
    requires forall s: Session :: s in list ==> Counted(step(s).s) ==> Counted(s)
    ensures Count(Remaining(list, step), Counted) <= Count(list, Counted)
  {
    hide Counted;
    if list != [] {
      var rest := list[1..];
      assert list[0] in list && forall s: Session :: s in rest ==> s in list;
      RemainingCount(rest, step);
      var all, tail := Remaining(list, step), Remaining(rest, step);
      if step(list[0]).deletes {
        assert all == tail;
      } else {
        assert all[0] == step(list[0]).s && all[1..] == tail;
      }
    }
  }

  lemma PassCount(t: Table, step: Session -> Checked)
    requires TableInv(t) && Sound(step)
    ensures Count(Pass(t, step).list, Counted) <= Count(t.list, Counted)
  {
    hide TableInv, Sound, SessionOk, IsBare;
    StepsOk(t, step);
    RemainingCount(t.list, step);
  }

  lemma TouchCount(t: Table, id: nat, kind: Kind, now: int, closes: bool)
    requires TableInv(t)
    ensures Count(Pass(t, Touch(id, kind, now, closes)).list, Counted) <= Count(t.list, Counted)
  {
    hide TableInv, Pass, Sound, Touch;
    TouchIsSound(id, kind, now, closes);
    PassCount(t, Touch(id, kind, now, closes));
  }

  lemma RegisterCount(t: Table, kind: Kind, key: Key, now: int, fd: int)
    ensures Count(Register(t, kind, key, now, fd).list, Counted) ==
            Count(t.list, Counted) + if Counted(Session(t.nextId, kind, key, now, fd)) then 1 else 0
  {
    assert Register(t, kind, key, now, fd).list[1..] == t.list;
  }

  lemma HandleIcmpCount(t: Table, p: Packet)
    requires TableInv(t)
    ensures Count(HandleIcmp(t, p).list, Counted) <= Count(t.list, Counted) + 1
  {
    hide TableInv, Pass, Touch, Register, Count, Counted;
    match First(t.list, Icmps(p.key))
    case Found(s) => TouchCount(t, s.id, Icmp(!p.sendOk), p.now, false);
    case Nobody => RegisterCount(t, Icmp(!p.sendOk), p.key, p.now, p.fd);
  }

  lemma HandleUdpCount(t: Table, p: Packet)
    requires TableInv(t)
    ensures Count(HandleUdp(t, p).list, Counted) <=
            Count(t.list, Counted) + if First(t.list, Udps(p.key)) == Nobody && p.key.dport != 53 then 1 else 0
  {
    hide TableInv, Pass, Touch, Register, Count;
    var kind := Udp(if p.sendOk then Active else Finishing);
    match First(t.list, Udps(p.key))
    case Found(s) => TouchCount(t, s.id, kind, p.now, false);
    case Nobody => RegisterCount(t, kind, p.key, p.now, p.fd);
  }

  lemma HandleTcpCount(t: Table, p: Packet)
    requires TableInv(t)
    ensures Count(HandleTcp(t, p).list, Counted) <= Count(t.list, Counted) + if p.syn then 1 else 0
  {
    hide TableInv, Pass, Touch, Register, Count, Counted;
    match First(t.list, Tcps(p.key))
    case Found(s) =>
      var next := if p.allowed then p.next else if s.kind.tcp == Close then Close else Closing;
      TouchCount(t, s.id, Tcp(next), p.time, false);
    case Nobody => RegisterCount(t, Tcp(if p.allowed then Listen else Closing), p.key, p.now, p.fd);
  }

  /** A packet adds at most one counted session, and none at the limit. */
  lemma HandleIpCount(t: Table, p: Packet, stale: nat, maxSessions: pos)
    requires TableInv(t)
    ensures Count(HandleIp(t, p, stale, maxSessions).list, Counted) <=
            Count(t.list, Counted) + if stale < maxSessions then 1 else 0
  {
    hide TableInv, HandleIcmp, HandleUdp, HandleTcp, Register, Count, First;
    match p.protocol
    case IcmpPacket => HandleIcmpCount(t, p);
    case UdpPacket =>
      HandleUdpCount(t, p);
      RegisterCount(t, Udp(Blocked), p.key, p.now, NONE);
    case TcpPacket => HandleTcpCount(t, p);
  }

  lemma OnSocketCount(t: Table, e: Event)
    requires TableInv(t) && e.FromSocket?
    ensures Count(OnSocket(t, e).list, Counted) <= Count(t.list, Counted)
  {
    hide TableInv, Pass, Touch, Count, Counted;
    match Find(t.list, e.id)
    case Nobody =>
    case Found(s) => TouchCount(t, e.id, SocketKind(s, e), e.time, s.kind.Tcp? && e.closes);
  }

  /** A round starts with at most as many counted sessions as the count that the limit is tested against. */
  lemma BeginCount(t: Table, e: Event, maxSessions: pos)
    requires TableInv(t) && e.Round?
    ensures var m := Begin(t, e, maxSessions);
      && Count(m.t.list, Counted) <= Count(t.list, Counted)
      && Count(m.t.list, Counted) <= m.phase.stale
  {
    hide TableInv, Pass, Sound, Watcher, Sweeper, Count, Pending;
    var stale := Count(t.list, IsActive);
    WatchIsSound(e.broken);
    PassKeeps(t, Watcher(e.broken));
    PassCount(t, Watcher(e.broken));
    CheckIsSound(e.now, stale, maxSessions);
    PassCount(Pass(t, Watcher(e.broken)), Sweeper(e.now, stale, maxSessions));
    CountedAreActive(t.list);
  }

  /** Below the limit at the start of a round, each packet adds at most one; at the limit, none. */
  predicate Bounded(l: Loop, maxSessions: pos) {
    var n := Count(l.t.list, Counted);
    && n <= maxSessions + TUN_YIELD - 1
    && (l.phase.Dispatch? ==>
          && l.phase.budget <= TUN_YIELD
          && (l.phase.stale < maxSessions ==> n <= l.phase.stale + (TUN_YIELD - l.phase.budget)))
  }

  lemma StepKeepsBound(l: Loop, e: Event, maxSessions: pos)
    requires TableInv(l.t) && Bounded(l, maxSessions)
    ensures Bounded(Step(l, e, maxSessions), maxSessions)
  {
    hide TableInv, Pass, Sound, Begin, HandleIp, OnSocket, Rechecker, Clearer, Count;
    if l.phase.Idle? {
      match e {
        case Round(_, _, _, _) =>
          BeginCount(l.t, e, maxSessions);
          BeginPhase(l.t, e, maxSessions);
        case Restart(denied) =>
          RecheckIsSound(denied);
          PassCount(l.t, Rechecker(denied));
        case ClearAll =>
          ClearIsSound();
          PassCount(l.t, Clearer());
        case _ =>
      }
    } else {
      match e {
        case FromTun(p) => HandleIpCount(l.t, p, l.phase.stale, maxSessions);
        case FromSocket(_, _, _, _, _) => OnSocketCount(l.t, e);
        case _ =>
      }
    }
  }

  lemma BeginPhase(t: Table, e: Event, maxSessions: pos)
    requires e.Round?
    ensures Begin(t, e, maxSessions).phase.Dispatch? && Begin(t, e, maxSessions).phase.budget == TUN_YIELD
  {
  }

  // ----- whole runs

  ghost predicate LoopInv(l: Loop, maxSessions: pos) {
    TableInv(l.t) && PendingAlive(l) && Bounded(l, maxSessions)
  }

  lemma LoopStepKeeps(l: Loop, e: Event, maxSessions: pos)
    requires LoopInv(l, maxSessions)
    ensures LoopInv(Step(l, e, maxSessions), maxSessions)
  {
    hide TableInv, PendingAlive, Bounded, Step;
    StepKeepsTable(l, e, maxSessions);
    StepKeepsPending(l, e, maxSessions);
    StepKeepsBound(l, e, maxSessions);
  }

  lemma LoopIds(l: Loop, maxSessions: pos)
    requires LoopInv(l, maxSessions)
    ensures DistinctIds(l.t.list)
  {
  }

  lemma {:induction false} RunKeeps(l: Loop, events: seq<Event>, maxSessions: pos)
    requires LoopInv(l, maxSessions)
    ensures LoopInv(Run(l, events, maxSessions), maxSessions)
    decreases |events|
  {
    hide LoopInv, Step;
    if events != [] {
      LoopStepKeeps(l, events[0], maxSessions);
      RunKeeps(Step(l, events[0], maxSessions), events[1..], maxSessions);
    }
  }

  function Start(): Loop {
    Loop(Table([], {}, map[], multiset{}, multiset{}, {}, 0), Idle)
  }

  lemma StartInv(maxSessions: pos)
    ensures LoopInv(Start(), maxSessions)
  {
    EmptyTable();
  }

  /** Over every run: a session that is gone was freed once, after its descriptor was closed exactly once; one that is
      registered was not freed, and its descriptor is open and its own, or was closed exactly once. */
  lemma ClosedOnceBeforeFreed(events: seq<Event>, maxSessions: pos, id: nat)
    ensures var t := Run(Start(), events, maxSessions).t;
      && t.closed[id] <= 1 && t.freed[id] <= 1
      && (t.freed[id] == 1 ==> Find(t.list, id) == Nobody && (id in t.bare || t.closed[id] == 1))
      && (Alive(t, id) ==> t.closed[id] == 0 && Find(t.list, id).s.socket in t.open)
  {
    StartInv(maxSessions);
    RunKeeps(Start(), events, maxSessions);
    AccountOf(Run(Start(), events, maxSessions).t, id);
  }

  /** Over every run: whatever epoll returned and is not handled yet refers to a registered session with an open
      descriptor. */
  lemma EventsReachLiveSessions(events: seq<Event>, maxSessions: pos, id: nat)
    ensures var l := Run(Start(), events, maxSessions);
      l.phase.Dispatch? && id in l.phase.pending ==> Alive(l.t, id) && l.t.freed[id] == 0
  {
    StartInv(maxSessions);
    RunKeeps(Start(), events, maxSessions);
    AccountOf(Run(Start(), events, maxSessions).t, id);
  }

  /** Over every run: at most one TCP session and one UDP session that is not a block record per key, and one running ICMP
      session per pair of addresses. */
  lemma KeysAreUnique(events: seq<Event>, maxSessions: pos, i: nat, j: nat)
    requires i < j < |Run(Start(), events, maxSessions).t.list|
    ensures var list := Run(Start(), events, maxSessions).t.list;
      !Conflict(list[i], list[j])
  {
    StartInv(maxSessions);
    RunKeeps(Start(), events, maxSessions);
    var t := Run(Start(), events, maxSessions).t;
    ListedOk(t, i);
    ListedOk(t, j);
    assert t.list[i].id != t.list[j].id;
    assert Apart(Find(t.list, t.list[i].id), Find(t.list, t.list[j].id));
  }

  /** Over every run: active sessions other than queries to name servers never exceed the limit by TUN_YIELD. */
  lemma SessionsBounded(events: seq<Event>, maxSessions: pos)
    ensures Count(Run(Start(), events, maxSessions).t.list, Counted) <= maxSessions + TUN_YIELD - 1 == maxSessions + 9
  {
    StartInv(maxSessions);
    RunKeeps(Start(), events, maxSessions);
  }
}
