/** The table of sessions (session.c, udp.c, icmp.c) as a value, and what one pass over it does. */
module SessionTable {
  import opened Serial
  import opened TcpModel

  const NONE := -1
  const ICMP_TIMEOUT := 5
  const UDP_TIMEOUT_53 := 15
  const UDP_TIMEOUT_ANY := 300
  const UDP_KEEP_TIMEOUT := 60

  datatype UdpState = Active | Finishing | Closed | Blocked

  datatype Kind = Icmp(stop: bool) | Udp(udp: UdpState) | Tcp(tcp: State)

  /** What identifies a conversation; ICMP ignores the ports. */
  datatype Key = Key(version: int, saddr: seq<byte>, sport: int, daddr: seq<byte>, dport: int)

  /** A registered session; id stands for the address that epoll hands back. */
  datatype Session = Session(id: nat, kind: Kind, key: Key, time: int, socket: int)

  /** The list, the descriptors that are open, epoll's interest list from descriptors to the ids it hands back, the
      sessions whose descriptor was closed and those that were freed, once for every time, the sessions registered
      without a descriptor, and the next id. */
  datatype Table = Table(list: seq<Session>, open: set<int>, watched: map<int, nat>, closed: multiset<nat>,
                         freed: multiset<nat>, bare: set<nat>, nextId: nat)

  /** What checking one session gives: its new value, whether its descriptor is closed, and whether it is deleted. */
  datatype Checked = Checked(s: Session, closes: bool, deletes: bool)

  // ----- checking one session

  function CheckIcmp(s: Session, now: int, sessions: nat, maxSessions: pos): Checked
    requires s.kind.Icmp?
  {
    if s.kind.stop || s.time + Scaled(ICMP_TIMEOUT, sessions, maxSessions) < now
    then Checked(s.(socket := NONE), true, true)
    else Checked(s, false, false)
  }

  function CheckUdp(s: Session, now: int, sessions: nat, maxSessions: pos): Checked
    requires s.kind.Udp?
  {
    var timeout := Scaled(if s.key.dport == 53 then UDP_TIMEOUT_53 else UDP_TIMEOUT_ANY, sessions, maxSessions);
    var idle := s.kind.udp == Active && s.time + timeout < now;
    var closes := idle || s.kind.udp == Finishing;
    var t := if closes then s.(socket := NONE, time := now, kind := Udp(Closed)) else s;
    Checked(t, closes, t.kind.udp in {Closed, Blocked} && t.time + UDP_KEEP_TIMEOUT < now)
  }

  function CheckTcp(s: Session, now: int, sessions: nat, maxSessions: pos): Checked
    requires s.kind.Tcp?
  {
    var idle := s.kind.tcp !in {Closing, Close} && s.time + Timeout(s.kind.tcp, sessions, maxSessions) < now;
    var t := if idle || s.kind.tcp == Closing then s.(socket := NONE, time := now, kind := Tcp(Close)) else s;
    Checked(t, s.socket >= 0 && t.socket < 0, t.kind.tcp == Close && t.time + TCP_KEEP_TIMEOUT < now)
  }

  /** The sweep's check of one session. */
  function CheckSession(s: Session, now: int, sessions: nat, maxSessions: pos): Checked {
    match s.kind
    case Icmp(_) => CheckIcmp(s, now, sessions, maxSessions)
    case Udp(_) => CheckUdp(s, now, sessions, maxSessions)
    case Tcp(_) => CheckTcp(s, now, sessions, maxSessions)
  }

  /** check_allowed's treatment of one session. */
  function Recheck(s: Session, allowed: bool): Checked {
    match s.kind
    case Icmp(stop) => Checked(if allowed then s else s.(kind := Icmp(true)), false, false)
    case Udp(u) =>
      if u == Blocked then Checked(s, false, true)
      else Checked(if u == Active && !allowed then s.(kind := Udp(Finishing)) else s, false, false)
    case Tcp(t) =>
      Checked(if t !in {Closing, Close} && !allowed then s.(kind := Tcp(Closing)) else s, false, false)
  }

  /** clear closes what is open and deletes everything. */
  function Cleared(s: Session): Checked {
    Checked(s.(socket := NONE), s.socket >= 0, true)
  }

  // ----- a pass over the list

  /** The sessions that remain, in their order. */
  function Remaining(list: seq<Session>, step: Session -> Checked): seq<Session> {
    if list == [] then []
    else
      var c := step(list[0]);
      (if c.deletes then [] else [c.s]) + Remaining(list[1..], step)
  }

  function ClosedIds(list: seq<Session>, step: Session -> Checked): multiset<nat> {
    if list == [] then multiset{}
    else (if step(list[0]).closes then multiset{list[0].id} else multiset{}) + ClosedIds(list[1..], step)
  }

  function ClosedSockets(list: seq<Session>, step: Session -> Checked): set<int> {
    if list == [] then {}
    else (if step(list[0]).closes then {list[0].socket} else {}) + ClosedSockets(list[1..], step)
  }

  function FreedIds(list: seq<Session>, step: Session -> Checked): multiset<nat> {
    if list == [] then multiset{}
    else (if step(list[0]).deletes then multiset{list[0].id} else multiset{}) + FreedIds(list[1..], step)
  }

  /** Visits every session; closing a descriptor takes it off the interest list, and nothing else does. */
  function Pass(t: Table, step: Session -> Checked): Table {
    Table(Remaining(t.list, step), t.open - ClosedSockets(t.list, step), t.watched - ClosedSockets(t.list, step),
          t.closed + ClosedIds(t.list, step), t.freed + FreedIds(t.list, step), t.bare, t.nextId)
  }

  // ----- counting

  predicate IsActive(s: Session) {
    match s.kind
    case Icmp(stop) => !stop
    case Udp(u) => u == Active
    case Tcp(t) => t !in {Closing, Close}
  }

  function Count(list: seq<Session>, p: Session -> bool): nat {
    if list == [] then 0 else (if p(list[0]) then 1 else 0) + Count(list[1..], p)
  }

  // ----- finding and registering

  predicate SameTcp(s: Session, key: Key) {
    s.kind.Tcp? && s.key == key
  }

  predicate SameUdp(s: Session, key: Key) {
    s.kind.Udp? && s.key == key
  }

  predicate SameAddresses(a: Key, b: Key) {
    a.version == b.version && a.saddr == b.saddr && a.daddr == b.daddr
  }

  predicate SameIcmp(s: Session, key: Key) {
    s.kind == Icmp(false) && SameAddresses(s.key, key)
  }

  /** Registers a session at the head of the list, with a descriptor that epoll watches unless fd is NONE. */
  function Register(t: Table, kind: Kind, key: Key, now: int, fd: int): Table {
    t.(list := [Session(t.nextId, kind, key, now, fd)] + t.list,
       open := if fd >= 0 then t.open + {fd} else t.open,
       watched := if fd >= 0 then t.watched[fd := t.nextId] else t.watched,
       bare := if fd >= 0 then t.bare else t.bare + {t.nextId},
       nextId := t.nextId + 1)
  }

  // ----- the passes of the event loop

  /** monitor_tcp_session: a session whose descriptor cannot be watched, or that cannot write, starts closing. */
  function Watcher(broken: set<nat>): Session -> Checked {
    (s: Session) => Checked(if s.kind.Tcp? && s.socket >= 0 && s.id in broken then s.(kind := Tcp(Closing)) else s, false, false)
  }

  function Sweeper(now: int, sessions: nat, maxSessions: pos): Session -> Checked {
    (s: Session) => CheckSession(s, now, sessions, maxSessions)
  }

  function Rechecker(denied: set<nat>): Session -> Checked {
    (s: Session) => Recheck(s, s.id !in denied)
  }

  function Clearer(): Session -> Checked {
    (s: Session) => Cleared(s)
  }
}
