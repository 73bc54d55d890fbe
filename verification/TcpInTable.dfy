/** The event loop with the relay of every TCP session inside: what the table records of a session is what its relay does,
    on every run and whatever the packets carry. */
module TcpInTable {
  import opened Serial
  import opened TcpModel
  import opened TcpShapes
  import opened TcpStates
  import opened SessionTable
  import opened TableInvariants
  import TcpStream
  import TcpQueue
  import TcpDown
  import EventLoop

  /** The table's entry for a relay. */
  predicate Represents(s: Session, r: Relay) {
    s.kind == Tcp(r.state) && s.time == r.book.time && s.socket >= NONE && (s.socket >= 0 <==> r.socket)
  }

  function Entry(s: Session, q: Relay): Session {
    s.(kind := Tcp(q.state), time := q.book.time, socket := if q.socket then s.socket else NONE)
  }

  // ----- one session

  /** Every step of a relay is one that the table admits for its entry, so that touching the entry gives exactly the entry
      of the new relay. */
  lemma RelayStepSucceeds(r: Relay, e: Event, s: Session)
    requires Sane(r) && Represents(s, r)
    ensures var q := Step(r, e);
      && Sane(q) && Represents(Entry(s, q), q)
      && Succeeds(s, Checked(Entry(s, q), r.socket && !q.socket, false))
      && EventLoop.Moves(s.kind, Tcp(q.state))
      && EventLoop.Touch(s.id, Tcp(q.state), q.book.time, r.socket && !q.socket)(s) ==
           Checked(Entry(s, q), r.socket && !q.socket, false)
  {
    hide Step;
    StepEdge(r, e);
  }

  /** A packet never closes the socket, and one that is not allowed starts closing. */
  lemma PacketStep(r: Relay, p: Packet, allowed: bool, ackOk: bool, now: int)
    ensures var q := HandleTcp(r, p, allowed, ackOk, now);
      && q.socket == r.socket
      && (!allowed && !p.urg ==> q.state == if r.state == Close then Close else Closing)
      && (p.urg ==> q == r)
  {
    HandleTcpMoves(r, p, allowed, ackOk, now);
    WriteRstShape(r);
  }

  /** The sweep's check of an entry is check_tcp_session on the relay. */
  lemma CheckAgrees(r: Relay, s: Session, now: int, sessions: nat, maxSessions: pos)
    requires Represents(s, r) && (r.state == Close ==> !r.socket)
    ensures var (q, deletes) := CheckTcpSession(r, now, sessions, maxSessions);
      CheckTcp(s, now, sessions, maxSessions) == Checked(Entry(s, q), r.socket && !q.socket, deletes)
  {
    hide Timeout, WriteRst;
    WriteRstShape(r);
    WriteRstTime(r);
  }

  lemma WriteRstTime(r: Relay)
    ensures WriteRst(r).book == r.book
  {
  }

  /** Watching an entry is monitor_tcp_session on the relay, the session being broken when its state changes. */
  lemma WatchAgrees(r: Relay, s: Session, buffer: nat, ms: int, epollOk: bool, ackOk: bool, broken: set<nat>)
    requires Sane(r) && Represents(s, r)
    requires s.id in broken <==> Step(r, Monitor(buffer, ms, epollOk, ackOk)).state != r.state
    ensures Watcher(broken)(s) == Checked(Entry(s, Step(r, Monitor(buffer, ms, epollOk, ackOk))), false, false)
  {
    hide U32, KeepAlive, SendWindow, HeadReady;
    KeepAliveShape(r, ms, ackOk);
    KeepAliveTime(r, ms, ackOk);
  }

  lemma KeepAliveTime(r: Relay, ms: int, ok: bool)
    ensures KeepAlive(r, ms, ok).book.time == r.book.time
  {
    hide U32, TcpPacket;
  }

  /** Rechecking an entry resets the relay when it is no longer allowed. */
  lemma RecheckAgrees(r: Relay, s: Session, allowed: bool)
    requires Represents(s, r)
    ensures Recheck(s, allowed) == Checked(Entry(s, if allowed then r else Step(r, Disallow)), false, false)
  {
    hide WriteRst;
    WriteRstShape(r);
    WriteRstTime(r);
  }

  lemma NewSessionRepresented(id: nat, key: Key, fd: int, p: Packet, ipv4: bool, mss: u16, scale: nat, isn: u32,
                              buffer: nat, allowed: bool, now: int)
    requires fd >= 0
    ensures var r := NewSession(p, ipv4, mss, scale, isn, buffer, allowed, now);
      Sane(r) && Represents(Session(id, Tcp(if allowed then Listen else Closing), key, now, fd), r)
  {
    hide U32, ReceiveWindow, Shl, WriteRst;
    NewSessionSane(p, ipv4, mss, scale, isn, buffer, allowed, now);
    WriteRstShape(NewSession(p, ipv4, mss, scale, isn, buffer, true, now));
    WriteRstTime(NewSession(p, ipv4, mss, scale, isn, buffer, true, now));
  }

  // ----- the loop with its relays

  /** The loop, and for every TCP session ever opened what happened to it, by id. */
  datatype World = World(l: EventLoop.Loop, relays: map<nat, Past>)

  /** The SYN that opened a session, and the events delivered to it since. */
  datatype Past = Past(syn: Arrival, events: seq<Event>)

  /** The relay of a session: the run of what happened to it. */
  function Now(past: Past): Relay {
    Run(Opened(past.syn), past.events)
  }

  function After(past: Past, e: Event): (q: Past)
    ensures Now(q) == Step(Now(past), e)
  {
    RunOneMore(Opened(past.syn), past.events, e);
    past.(events := past.events + [e])
  }

  /** A TCP packet from the tun device, with what opening a session needs. */
  datatype Arrival = Arrival(packet: Packet, key: Key, fd: int, ipv4: bool, mss: u16, scale: nat, isn: u32, buffer: nat,
                             allowed: bool, ackOk: bool, now: int)

  datatype Watch = Watch(buffer: nat, ms: int, epollOk: bool, ackOk: bool)

  /** What happens to the loop; for UDP and ICMP, and what concerns no session, an event of EventLoop. */
  datatype Act =
    | TunTcp(a: Arrival)
    | SocketTcp(id: nat, event: Ready)
    | Turn(due: bool, now: int, ready: set<nat>, watch: nat -> Watch)
    | Restarted(denied: set<nat>)
    | Other(e: EventLoop.Event)

  function Monitored(past: Past, w: Watch): Past {
    After(past, Monitor(w.buffer, w.ms, w.epollOk, w.ackOk))
  }

  function Broken(relays: map<nat, Past>, watch: nat -> Watch): set<nat> {
    set id | id in relays && Now(Monitored(relays[id], watch(id))).state != Now(relays[id]).state
  }

  /** The event of the loop that an arrival is, given the relay of the session it belongs to. */
  function PacketOf(a: Arrival, q: Relay): EventLoop.Packet {
    EventLoop.Packet(EventLoop.TcpPacket, a.key, a.packet.syn, a.packet.urg, false, a.allowed, a.fd, true, a.now,
                     q.state, q.book.time)
  }

  function Opened(a: Arrival): Relay {
    NewSession(a.packet, a.ipv4, a.mss, a.scale, a.isn, a.buffer, a.allowed, a.now)
  }

  function HeardBy(past: Past, a: Arrival): Past {
    After(past, Tun(a.packet, a.allowed, a.ackOk, a.now))
  }

  /** A packet that belongs to no session opens one. */
  predicate Opens(t: Table, a: Arrival) {
    a.packet.syn && !a.packet.urg && EventLoop.FreeDescriptor(t, a.fd)
  }

  /** An arrival: the relay of its session hears it, or a new one is opened, unless it is dropped. */
  function Arrives(w: World, a: Arrival, maxSessions: pos): World {
    var t := w.l.t;
    if !w.l.phase.Dispatch? || w.l.phase.budget == 0 || (w.l.phase.stale >= maxSessions && a.packet.syn) then
      World(EventLoop.Step(w.l, EventLoop.FromTun(PacketOf(a, Opened(a))), maxSessions), w.relays)
    else match EventLoop.First(t.list, EventLoop.Tcps(a.key))
      case Found(s) =>
        if s.id !in w.relays then w
        else
          var q := HeardBy(w.relays[s.id], a);
          World(EventLoop.Step(w.l, EventLoop.FromTun(PacketOf(a, Now(q))), maxSessions), w.relays[s.id := q])
      case Nobody =>
        World(EventLoop.Step(w.l, EventLoop.FromTun(PacketOf(a, Opened(a))), maxSessions),
              if Opens(t, a) then w.relays[t.nextId := Past(a, [])] else w.relays)
  }

  function SocketEvent(w: World, id: nat, ready: Ready, maxSessions: pos): World {
    if !w.l.phase.Dispatch? || id !in w.l.phase.pending || id !in w.relays then w
    else
      var past := After(w.relays[id], Socket(ready));
      var r, q := Now(w.relays[id]), Now(past);
      World(EventLoop.Step(w.l, EventLoop.FromSocket(id, false, q.state, r.socket && !q.socket, q.book.time), maxSessions),
            w.relays[id := past])
  }

  /** Every relay is monitored and, when the check is due, checked. */
  function Turned(relays: map<nat, Past>, due: bool, now: int, stale: nat, watch: nat -> Watch, maxSessions: pos):
    map<nat, Past>
  {
    map id | id in relays ::
      var m := Monitored(relays[id], watch(id));
      if due then After(m, Check(now, stale, maxSessions)) else m
  }

  function Rechecked(relays: map<nat, Past>, denied: set<nat>): map<nat, Past> {
    map id | id in relays :: if id in denied then After(relays[id], Disallow) else relays[id]
  }

  /** Events that concern no TCP session. */
  predicate NotTcp(l: EventLoop.Loop, e: EventLoop.Event) {
    match e
    case FromTun(p) => p.protocol != EventLoop.TcpPacket
    case FromSocket(id, _, _, _, _) => Find(l.t.list, id).Found? && !Find(l.t.list, id).s.kind.Tcp?
    case EndOfRound => true
    case ClearAll => true
    case _ => false
  }

  function WorldStep(w: World, act: Act, maxSessions: pos): World {
    match act
    case TunTcp(a) => Arrives(w, a, maxSessions)
    case SocketTcp(id, ready) => SocketEvent(w, id, ready, maxSessions)
    case Turn(due, now, ready, watch) =>
      if w.l.phase != EventLoop.Idle then w
      else
        var e := EventLoop.Round(due, now, Broken(w.relays, watch), ready);
        World(EventLoop.Step(w.l, e, maxSessions),
              Turned(w.relays, due, now, Count(w.l.t.list, IsActive), watch, maxSessions))
    case Restarted(denied) =>
      if w.l.phase != EventLoop.Idle then w
      else World(EventLoop.Step(w.l, EventLoop.Restart(denied), maxSessions), Rechecked(w.relays, denied))
    case Other(e) => if NotTcp(w.l, e) then World(EventLoop.Step(w.l, e, maxSessions), w.relays) else w
  }

  function WorldRun(w: World, acts: seq<Act>, maxSessions: pos): World
    decreases |acts|
  {
    if acts == [] then w else WorldRun(WorldStep(w, acts[0], maxSessions), acts[1..], maxSessions)
  }

  // ----- the table mirrors the relays

  /** What the table has under an id, if it is a TCP session, is the entry of the relay with that id. */
  predicate Mirrors(f: Found, id: nat, relays: map<nat, Past>) {
    f.Found? && f.s.kind.Tcp? ==> id in relays && Sane(Now(relays[id])) && Represents(f.s, Now(relays[id]))
  }

  ghost predicate WorldInv(w: World, maxSessions: pos) {
    EventLoop.LoopInv(w.l, maxSessions) && forall id: nat :: Mirrors(Find(w.l.t.list, id), id, w.relays)
  }

  /** After a pass, an id still mirrors its relay, if the outcome for a TCP session represents the new relay. */
  lemma PassMirrors(t: Table, step: Session -> Checked, id: nat, relays: map<nat, Past>)
    requires TableInv(t) && Sound(step)
    requires var f := Find(t.list, id);
      f.Found? && f.s.kind.Tcp? && !step(f.s).deletes ==>
        id in relays && Sane(Now(relays[id])) && Represents(step(f.s).s, Now(relays[id]))
    ensures Mirrors(Find(Pass(t, step).list, id), id, relays)
  {
    StepsOk(t, step);
    DistinctOf(t);
    hide TableInv, Sound;
    FindAfter(t.list, step, id);
    FindIn(t.list, id);
    hide Remaining, ClosedIds, ClosedSockets, FreedIds, Find, Sane, Represents;
  }

  /** Touching a session that is no TCP session, or not this one, leaves the others as they are. */
  lemma TouchMirrors(t: Table, touched: nat, kind: Kind, now: int, closes: bool, id: nat, relays: map<nat, Past>)
    requires TableInv(t) && Mirrors(Find(t.list, id), id, relays)
    requires id == touched ==> Find(t.list, id).Found? && !Find(t.list, id).s.kind.Tcp?
    ensures Mirrors(Find(Pass(t, EventLoop.Touch(touched, kind, now, closes)).list, id), id, relays)
  {
    hide TableInv, Sound, Pass, Sane, Represents;
    EventLoop.TouchIsSound(touched, kind, now, closes);
    FindIn(t.list, id);
    PassMirrors(t, EventLoop.Touch(touched, kind, now, closes), id, relays);
  }

  lemma RegisterMirrors(t: Table, kind: Kind, key: Key, now: int, fd: int, id: nat, relays: map<nat, Past>)
    requires TableInv(t)
    requires id != t.nextId ==> Mirrors(Find(t.list, id), id, relays)
    requires id == t.nextId ==> Mirrors(Found(Session(t.nextId, kind, key, now, fd)), id, relays)
    ensures Mirrors(Find(Register(t, kind, key, now, fd).list, id), id, relays)
  {
    hide TableInv, Sane, Represents;
    assert Register(t, kind, key, now, fd).list[1..] == t.list;
  }

  // ----- every act

  lemma HeardMirrors(t: Table, a: Arrival, s: Session, id: nat, relays: map<nat, Past>)
    requires TableInv(t) && s in t.list && s.kind.Tcp? && Mirrors(Find(t.list, s.id), s.id, relays)
    requires s.id in relays && Mirrors(Find(t.list, id), id, relays)
    requires EventLoop.First(t.list, EventLoop.Tcps(a.key)) == Found(s)
    ensures var q := HeardBy(relays[s.id], a);
      Mirrors(Find(EventLoop.HandleTcp(t, PacketOf(a, Now(q))).list, id), id, relays[s.id := q])
  {
    hide TableInv, HandleTcp, Pass, Sound, Now, Succeeds, SessionOk;
    EventLoop.FoundIsListed(t, s);
    var r := Now(relays[s.id]);
    var e := Tun(a.packet, a.allowed, a.ackOk, a.now);
    var past := HeardBy(relays[s.id], a);
    var q := Now(past);
    RelayStepSucceeds(r, e, s);
    PacketStep(r, a.packet, a.allowed, a.ackOk, a.now);
    hide Sane, Represents;
    if a.packet.urg {
    } else if id == s.id {
      EventLoop.TouchIsSound(s.id, Tcp(q.state), q.book.time, false);
      PassMirrors(t, EventLoop.Touch(s.id, Tcp(q.state), q.book.time, false), id, relays[s.id := past]);
    } else {
      TouchMirrors(t, s.id, Tcp(q.state), q.book.time, false, id, relays[s.id := past]);
    }
  }

  lemma OpenedMirrors(t: Table, a: Arrival, id: nat, relays: map<nat, Past>)
    requires TableInv(t) && Mirrors(Find(t.list, id), id, relays)
    requires EventLoop.First(t.list, EventLoop.Tcps(a.key)) == Nobody
    ensures Mirrors(Find(EventLoop.HandleTcp(t, PacketOf(a, Opened(a))).list, id), id,
                    if Opens(t, a) then relays[t.nextId := Past(a, [])] else relays)
  {
    AccountOf(t, t.nextId);
    hide TableInv, Sane, Represents, Opened, Register;
    if Opens(t, a) {
      NewSessionRepresented(t.nextId, a.key, a.fd, a.packet, a.ipv4, a.mss, a.scale, a.isn, a.buffer, a.allowed, a.now);
      OpenedIs(a);
      RegisterMirrors(t, Tcp(if a.allowed then Listen else Closing), a.key, a.now, a.fd, id, relays[t.nextId := Past(a, [])]);
    }
  }

  lemma OpenedIs(a: Arrival)
    ensures Now(Past(a, [])) == Opened(a) == NewSession(a.packet, a.ipv4, a.mss, a.scale, a.isn, a.buffer, a.allowed, a.now)
  {
  }

  lemma WorldFacts(w: World, maxSessions: pos, id: nat)
    requires WorldInv(w, maxSessions)
    ensures TableInv(w.l.t) && Mirrors(Find(w.l.t.list, id), id, w.relays)
    ensures w.l.phase.Dispatch? && id in w.l.phase.pending ==> EventLoop.Alive(w.l.t, id)
    ensures w.l.t.nextId == id ==> Find(w.l.t.list, id) == Nobody
  {
    assert EventLoop.LoopInv(w.l, maxSessions);
    AccountOf(w.l.t, id);
    hide TableInv, EventLoop.Bounded, Mirrors;
  }

  lemma ArrivesMirrors(w: World, a: Arrival, maxSessions: pos, id: nat)
    requires WorldInv(w, maxSessions)
    ensures var v := Arrives(w, a, maxSessions);
      Mirrors(Find(v.l.t.list, id), id, v.relays)
  {
    hide EventLoop.HandleTcp, Sane, Represents, Opened, HeardBy, TableInv, WorldInv, EventLoop.Begin, EventLoop.OnSocket, Find;
    hide EventLoop.HandleIcmp, EventLoop.HandleUdp, Register, Pass;
    var t := w.l.t;
    WorldFacts(w, maxSessions, id);
    if w.l.phase.Dispatch? && w.l.phase.budget > 0 && !(w.l.phase.stale >= maxSessions && a.packet.syn) {
      match EventLoop.First(t.list, EventLoop.Tcps(a.key))
      case Found(s) =>
        WorldFacts(w, maxSessions, s.id);
        EventLoop.FoundIsListed(t, s);
        HeardMirrors(t, a, s, id, w.relays);
      case Nobody =>
        OpenedMirrors(t, a, id, w.relays);
    }
  }

  lemma SocketMirrors(w: World, touched: nat, ready: Ready, maxSessions: pos, id: nat)
    requires WorldInv(w, maxSessions)
    ensures var v := SocketEvent(w, touched, ready, maxSessions);
      Mirrors(Find(v.l.t.list, id), id, v.relays)
  {
    hide TableInv, Sane, Represents, Pass, Sound, Step, WorldInv, Find, EventLoop.Begin, EventLoop.HandleIp, EventLoop.Touch;
    hide Succeeds, EventLoop.Moves;
    var t := w.l.t;
    WorldFacts(w, maxSessions, id);
    WorldFacts(w, maxSessions, touched);
    FindIn(t.list, touched);
    if w.l.phase.Dispatch? && touched in w.l.phase.pending && touched in w.relays {
      var s, r := Find(t.list, touched).s, Now(w.relays[touched]);
      var past := After(w.relays[touched], Socket(ready));
      var q := Now(past);
      var relays := w.relays[touched := past];
      if s.kind.Tcp? {
        RelayStepSucceeds(r, Socket(ready), s);
        EventLoop.TouchIsSound(touched, Tcp(q.state), q.book.time, r.socket && !q.socket);
        if id == touched {
          PassMirrors(t, EventLoop.Touch(touched, Tcp(q.state), q.book.time, r.socket && !q.socket), id, relays);
        } else {
          TouchMirrors(t, touched, Tcp(q.state), q.book.time, r.socket && !q.socket, id, relays);
        }
      } else {
        var e := EventLoop.FromSocket(touched, false, q.state, r.socket && !q.socket, q.book.time);
        TouchMirrors(t, touched, EventLoop.SocketKind(s, e), q.book.time, false, id, relays);
      }
    }
  }

  lemma TurnMirrors(t: Table, relays: map<nat, Past>, due: bool, now: int, ready: set<nat>, watch: nat -> Watch,
                    maxSessions: pos, id: nat)
    requires TableInv(t) && Mirrors(Find(t.list, id), id, relays)
    ensures var stale := Count(t.list, IsActive);
      var l := EventLoop.Begin(t, EventLoop.Round(due, now, Broken(relays, watch), ready), maxSessions);
      Mirrors(Find(l.t.list, id), id, Turned(relays, due, now, stale, watch, maxSessions))
  {
    hide Pass, TableInv, Sane, Represents, Find, Count, Now, After, Sound, Broken, Watcher, Sweeper, Mirrors, EventLoop.Pending;
    var stale, broken := Count(t.list, IsActive), Broken(relays, watch);
    var first := Pass(t, Watcher(broken));
    var turned := Turned(relays, due, now, stale, watch, maxSessions);
    WatchIsSound(broken);
    PassKeeps(t, Watcher(broken));
    WatchMirrors(t, relays, watch, id);
    if due {
      CheckIsSound(now, stale, maxSessions);
      SweepMirrors(first, Monitors(relays, watch), now, stale, maxSessions, id);
      assert turned == Checks(Monitors(relays, watch), now, stale, maxSessions);
    } else {
      assert turned == Monitors(relays, watch);
    }
  }

  function Monitors(relays: map<nat, Past>, watch: nat -> Watch): map<nat, Past> {
    map id | id in relays :: Monitored(relays[id], watch(id))
  }

  function Checks(relays: map<nat, Past>, now: int, stale: nat, maxSessions: pos): map<nat, Past> {
    map id | id in relays :: After(relays[id], Check(now, stale, maxSessions))
  }

  lemma WatchMirrors(t: Table, relays: map<nat, Past>, watch: nat -> Watch, id: nat)
    requires TableInv(t) && Mirrors(Find(t.list, id), id, relays)
    ensures Mirrors(Find(Pass(t, Watcher(Broken(relays, watch))).list, id), id, Monitors(relays, watch))
  {
    var broken := Broken(relays, watch);
    WatchIsSound(broken);
    FindIn(t.list, id);
    hide TableInv, Sound, Pass, Find, Step;
    var f := Find(t.list, id);
    if f.Found? && f.s.kind.Tcp? {
      var w := watch(id);
      WatchAgrees(Now(relays[id]), f.s, w.buffer, w.ms, w.epollOk, w.ackOk, broken);
      RelayStepSucceeds(Now(relays[id]), Monitor(w.buffer, w.ms, w.epollOk, w.ackOk), f.s);
    }
    hide Sane, Represents, Watcher;
    PassMirrors(t, Watcher(broken), id, Monitors(relays, watch));
  }

  lemma SweepMirrors(t: Table, relays: map<nat, Past>, now: int, stale: nat, maxSessions: pos, id: nat)
    requires TableInv(t) && Mirrors(Find(t.list, id), id, relays)
    ensures Mirrors(Find(Pass(t, Sweeper(now, stale, maxSessions)).list, id), id, Checks(relays, now, stale, maxSessions))
  {
    hide TableInv, Sound, Pass, Find, Timeout, Now, Succeeds, EventLoop.Touch, CheckTcp, CheckTcpSession;
    CheckIsSound(now, stale, maxSessions);
    var f := Find(t.list, id);
    if f.Found? && f.s.kind.Tcp? {
      CheckAgrees(Now(relays[id]), f.s, now, stale, maxSessions);
      RelayStepSucceeds(Now(relays[id]), Check(now, stale, maxSessions), f.s);
    }
    hide Sane, Represents;
    PassMirrors(t, Sweeper(now, stale, maxSessions), id, Checks(relays, now, stale, maxSessions));
  }

  lemma RestartMirrors(t: Table, relays: map<nat, Past>, denied: set<nat>, id: nat)
    requires TableInv(t) && Mirrors(Find(t.list, id), id, relays)
    ensures Mirrors(Find(Pass(t, Rechecker(denied)).list, id), id, Rechecked(relays, denied))
  {
    RecheckIsSound(denied);
    FindIn(t.list, id);
    hide TableInv, Sound, Pass, Find, Step;
    var f := Find(t.list, id);
    if f.Found? && f.s.kind.Tcp? {
      RecheckAgrees(Now(relays[id]), f.s, id !in denied);
      RelayStepSucceeds(Now(relays[id]), Disallow, f.s);
    }
    hide Sane, Represents;
    PassMirrors(t, Rechecker(denied), id, Rechecked(relays, denied));
  }

  lemma OtherMirrors(l: EventLoop.Loop, e: EventLoop.Event, maxSessions: pos, id: nat, relays: map<nat, Past>)
    requires TableInv(l.t) && NotTcp(l, e) && Mirrors(Find(l.t.list, id), id, relays)
    requires l.t.nextId == id ==> Find(l.t.list, id) == Nobody
    ensures Mirrors(Find(EventLoop.Step(l, e, maxSessions).t.list, id), id, relays)
  {
    hide TableInv, Sane, Represents, Pass, Sound, EventLoop.HandleIcmp, EventLoop.HandleUdp, EventLoop.HandleTcp, Register;
    match e
    case FromTun(p) =>
      IcmpMirrors(l.t, p, id, relays);
      UdpMirrors(l.t, p, id, relays);
      RegisterMirrors(l.t, Udp(Blocked), p.key, p.now, NONE, id, relays);
    case FromSocket(touched, _, _, _, _) =>
      var s := Find(l.t.list, touched).s;
      TouchMirrors(l.t, touched, EventLoop.SocketKind(s, e), e.time, false, id, relays);
    case ClearAll =>
      ClearIsSound();
      PassMirrors(l.t, Clearer(), id, relays);
    case _ =>
  }

  lemma IcmpMirrors(t: Table, p: EventLoop.Packet, id: nat, relays: map<nat, Past>)
    requires TableInv(t) && Mirrors(Find(t.list, id), id, relays)
    ensures Mirrors(Find(EventLoop.HandleIcmp(t, p).list, id), id, relays)
  {
    hide TableInv, Sane, Represents, Pass, Register, EventLoop.Touch;
    match EventLoop.First(t.list, EventLoop.Icmps(p.key))
    case Found(s) =>
      EventLoop.FoundIsListed(t, s);
      TouchMirrors(t, s.id, Icmp(!p.sendOk), p.now, false, id, relays);
    case Nobody =>
      RegisterMirrors(t, Icmp(!p.sendOk), p.key, p.now, p.fd, id, relays);
  }

  lemma UdpMirrors(t: Table, p: EventLoop.Packet, id: nat, relays: map<nat, Past>)
    requires TableInv(t) && Mirrors(Find(t.list, id), id, relays)
    ensures Mirrors(Find(EventLoop.HandleUdp(t, p).list, id), id, relays)
  {
    hide TableInv, Sane, Represents, Pass, Register, EventLoop.Touch;
    var kind := Udp(if p.sendOk then Active else Finishing);
    match EventLoop.First(t.list, EventLoop.Udps(p.key))
    case Found(s) =>
      EventLoop.FoundIsListed(t, s);
      TouchMirrors(t, s.id, kind, p.now, false, id, relays);
    case Nobody =>
      RegisterMirrors(t, kind, p.key, p.now, p.fd, id, relays);
  }

  lemma WorldStepMirrors(w: World, act: Act, maxSessions: pos, id: nat)
    requires WorldInv(w, maxSessions)
    ensures var v := WorldStep(w, act, maxSessions);
      Mirrors(Find(v.l.t.list, id), id, v.relays)
  {
    hide TableInv, Find, Sane, Represents, Pass, Arrives, SocketEvent, WorldInv, EventLoop.Begin, EventLoop.HandleIp;
    WorldFacts(w, maxSessions, id);
    match act
    case TunTcp(a) =>
      ArrivesMirrors(w, a, maxSessions, id);
    case SocketTcp(touched, ready) =>
      SocketMirrors(w, touched, ready, maxSessions, id);
    case Turn(due, now, ready, watch) =>
      TurnMirrors(w.l.t, w.relays, due, now, ready, watch, maxSessions, id);
    case Restarted(denied) =>
      RestartMirrors(w.l.t, w.relays, denied, id);
    case Other(e) =>
      if NotTcp(w.l, e) {
        OtherMirrors(w.l, e, maxSessions, id, w.relays);
      }
  }

  /** The event of the loop that an act is, if it is one. */
  lemma WorldStepIsStep(w: World, act: Act, maxSessions: pos)
    ensures var v := WorldStep(w, act, maxSessions);
      v.l == w.l || exists e :: v.l == EventLoop.Step(w.l, e, maxSessions)
  {
    hide EventLoop.Step, Opened, HeardBy;
  }

  lemma WorldStepKeeps(w: World, act: Act, maxSessions: pos)
    requires WorldInv(w, maxSessions)
    ensures WorldInv(WorldStep(w, act, maxSessions), maxSessions)
  {
    var v := WorldStep(w, act, maxSessions);
    forall id: nat
      ensures Mirrors(Find(v.l.t.list, id), id, v.relays)
    {
      WorldStepMirrors(w, act, maxSessions, id);
    }
    WorldStepIsStep(w, act, maxSessions);
    hide WorldStep, Mirrors, EventLoop.LoopInv, EventLoop.Step;
    if v.l != w.l {
      var e :| v.l == EventLoop.Step(w.l, e, maxSessions);
      EventLoop.LoopStepKeeps(w.l, e, maxSessions);
    }
  }

  function Start(): World {
    World(EventLoop.Start(), map[])
  }

  lemma {:induction false} WorldRunKeeps(w: World, acts: seq<Act>, maxSessions: pos)
    requires WorldInv(w, maxSessions)
    ensures WorldInv(WorldRun(w, acts, maxSessions), maxSessions)
    decreases |acts|
  {
    hide WorldStep, WorldInv;
    if acts != [] {
      WorldStepKeeps(w, acts[0], maxSessions);
      WorldRunKeeps(WorldStep(w, acts[0], maxSessions), acts[1..], maxSessions);
    }
  }

  /** Over every run of the loop with its relays: every TCP session of the table has the state, the time and the open or
      closed socket of its relay, which is sane; so the loop's account of descriptors, events, keys and numbers of sessions
      is the account of the relays themselves. */
  lemma TableMirrorsRelays(acts: seq<Act>, maxSessions: pos, id: nat)
    ensures var w := WorldRun(Start(), acts, maxSessions);
      Mirrors(Find(w.l.t.list, id), id, w.relays) && EventLoop.LoopInv(w.l, maxSessions)
  {
    EventLoop.StartInv(maxSessions);
    WorldRunKeeps(Start(), acts, maxSessions);
    hide EventLoop.LoopInv, Mirrors, WorldRun;
  }

  /** What is proved of every run of a session holds inside the loop: of the SYN that opened it and the events that the loop
      delivered to it.  The application receives what was read from the server until a write fails; if the data that was
      delivered agrees with one stream, the server takes a prefix of it; and if it begins within 2^30 of the position, the
      queue is in order. */
  lemma SessionsInTheLoop(acts: seq<Act>, maxSessions: pos, id: nat, stream: seq<byte>)
    ensures var w := WorldRun(Start(), acts, maxSessions);
      id in w.relays ==>
        var past := w.relays[id];
        var r := Now(past);
        && TcpDown.TunData(r.log, true) <= r.down.read
        && (TcpDown.TunData(r.log, true) == r.down.read <==> TcpDown.FailedWrites(r.log) == 0)
        && (past.syn.packet.data == [] && TcpStream.RunAgrees(Opened(past.syn), past.events, stream) ==>
              r.up.taken <= stream)
        && (|past.syn.packet.data| < 0x1_0000 && TcpQueue.RunNear(Opened(past.syn), past.events) ==>
              TcpStream.Sorted(r.up.forward, r.up.seqno) && TcpStream.OnlyHeadSent(r.up.forward, r.up.seqno))
  {
    hide WorldRun, Run, TcpStream.RunAgrees, TcpQueue.RunNear, TcpStream.Sorted, TcpStream.OnlyHeadSent, NewSession, TcpDown.TunData, TcpDown.FailedWrites;
    var w := WorldRun(Start(), acts, maxSessions);
    if id in w.relays {
      var a, events := w.relays[id].syn, w.relays[id].events;
      TcpDown.ApplicationReceives(a.packet, a.ipv4, a.mss, a.scale, a.isn, a.buffer, a.allowed, a.now, events);
      if a.packet.data == [] && TcpStream.RunAgrees(Opened(a), events, stream) {
        TcpStream.ServerTakesPrefix(a.packet, a.ipv4, a.mss, a.scale, a.isn, a.buffer, a.allowed, a.now, events, stream);
      }
      if |a.packet.data| < 0x1_0000 && TcpQueue.RunNear(Opened(a), events) {
        TcpQueue.QueueInOrder(a.packet, a.ipv4, a.mss, a.scale, a.isn, a.buffer, a.allowed, a.now, events);
      }
    }
  }
}
