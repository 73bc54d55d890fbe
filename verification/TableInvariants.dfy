/** What every pass over the session table keeps: ids, descriptors, accounting and keys. */
module TableInvariants {
  import opened Serial
  import opened TcpModel
  import opened SessionTable

  datatype Found = Nobody | Found(s: Session)

  /** The session with a given id. */
  function Find(list: seq<Session>, id: nat): Found {
    if list == [] then Nobody else if list[0].id == id then Found(list[0]) else Find(list[1..], id)
  }

  predicate DistinctIds(list: seq<Session>) {
    forall i, j :: 0 <= i < j < |list| ==> list[i].id != list[j].id
  }

  // ----- one session

  /** Which sessions have a descriptor. */
  predicate SessionOk(s: Session) {
    match s.kind
    case Icmp(_) => s.socket >= 0
    case Udp(u) => if u in {Active, Finishing} then s.socket >= 0 else s.socket == NONE
    case Tcp(t) =>
      && (t in {Listen, SynRecv, Established, CloseWait} ==> s.socket >= 0)
      && (t in {FinWait1, LastAck, Close} ==> s.socket == NONE)
      && (t == Closing ==> s.socket >= NONE)
  }

  predicate IsBare(s: Session) {
    s.kind == Udp(Blocked)
  }

  /** The next value of a session in the same place: it keeps its id, key and protocol, closes its descriptor at most
      once, never becomes active again, and is deleted only without a descriptor. */
  predicate Succeeds(s: Session, c: Checked) {
    && c.s.id == s.id && c.s.key == s.key
    && (s.kind.Icmp? <==> c.s.kind.Icmp?) && (s.kind.Udp? <==> c.s.kind.Udp?)
    && (c.s.socket == s.socket || c.s.socket == NONE)
    && (c.closes <==> s.socket >= 0 && c.s.socket == NONE)
    && (c.deletes ==> c.s.socket == NONE)
    && (!c.deletes ==> SessionOk(c.s))
    && (IsBare(s) <==> IsBare(c.s))
    && (IsActive(c.s) ==> IsActive(s))
    && (c.s.kind == Icmp(false) ==> s.kind == Icmp(false))
  }

  ghost predicate Sound(step: Session -> Checked) {
    forall s: Session :: SessionOk(s) ==> Succeeds(s, step(s))
  }

  lemma CheckIsSound(now: int, sessions: nat, maxSessions: pos)
    ensures Sound(Sweeper(now, sessions, maxSessions))
  {
    hide Scaled, Timeout;
  }

  lemma WatchIsSound(broken: set<nat>)
    ensures Sound(Watcher(broken))
  {
  }

  lemma RecheckIsSound(denied: set<nat>)
    ensures Sound(Rechecker(denied))
  {
  }

  lemma ClearIsSound()
    ensures Sound(Clearer())
  {
  }

  // ----- a pass, session by session

  lemma {:induction false} FindIn(list: seq<Session>, id: nat)
    ensures Find(list, id) == Nobody <==> forall i :: 0 <= i < |list| ==> list[i].id != id
    ensures Find(list, id).Found? ==> Find(list, id).s in list && Find(list, id).s.id == id
  {
    if list != [] && list[0].id != id {
      FindIn(list[1..], id);
      assert forall i :: 0 < i < |list| ==> list[i] == list[1..][i - 1];
    }
  }

  lemma {:induction false} FindAt(list: seq<Session>, i: nat)
    requires DistinctIds(list) && i < |list|
    ensures Find(list, list[i].id) == Found(list[i])
  {
    if i > 0 {
      assert list[i] == list[1..][i - 1];
      FindAt(list[1..], i - 1);
    }
  }

  /** The session with a given id after a pass is the outcome of the one before, unless that was deleted. */
  lemma FindAfter(list: seq<Session>, step: Session -> Checked, id: nat)
    requires DistinctIds(list) && forall s: Session :: s in list ==> step(s).s.id == s.id
    ensures DistinctIds(Remaining(list, step))
    ensures Find(Remaining(list, step), id) ==
            match Find(list, id)
            case Nobody => Nobody
            case Found(s) => if step(s).deletes then Nobody else Found(step(s).s)
    ensures ClosedIds(list, step)[id] == if Find(list, id).Found? && step(Find(list, id).s).closes then 1 else 0
    ensures FreedIds(list, step)[id] == if Find(list, id).Found? && step(Find(list, id).s).deletes then 1 else 0
  {
    hide Remaining, ClosedIds, FreedIds, Find, DistinctIds;
    RemainingAfter(list, step, id);
    BooksAfter(list, step, id);
  }

  lemma {:induction false} RemainingAfter(list: seq<Session>, step: Session -> Checked, id: nat)
    requires DistinctIds(list) && forall s: Session :: s in list ==> step(s).s.id == s.id
    ensures DistinctIds(Remaining(list, step))
    ensures Find(Remaining(list, step), id) ==
            match Find(list, id)
            case Nobody => Nobody
            case Found(s) => if step(s).deletes then Nobody else Found(step(s).s)
  {
    if list != [] {
      var rest := list[1..];
      assert forall s: Session :: s in rest ==> s in list;
      RemainingAfter(rest, step, id);
      RemainingAfter(rest, step, list[0].id);
      FindIn(rest, list[0].id);
      var tail := Remaining(rest, step);
      var all := Remaining(list, step);
      assert list[0] in list;
      if step(list[0]).deletes {
        assert all == tail;
      } else {
        assert all == [step(list[0]).s] + tail;
        FindIn(tail, list[0].id);
        assert all[1..] == tail;
      }
    }
  }

  lemma {:induction false} BooksAfter(list: seq<Session>, step: Session -> Checked, id: nat)
    requires DistinctIds(list)
    ensures ClosedIds(list, step)[id] == if Find(list, id).Found? && step(Find(list, id).s).closes then 1 else 0
    ensures FreedIds(list, step)[id] == if Find(list, id).Found? && step(Find(list, id).s).deletes then 1 else 0
  {
    if list != [] {
      BooksAfter(list[1..], step, id);
      FindIn(list[1..], list[0].id);
    }
  }

  lemma {:induction false} ClosedSocketsAre(list: seq<Session>, step: Session -> Checked, fd: int)
    ensures fd in ClosedSockets(list, step) <==>
            exists i :: 0 <= i < |list| && step(list[i]).closes && list[i].socket == fd
  {
    if list != [] {
      ClosedSocketsAre(list[1..], step, fd);
      assert forall i :: 0 < i < |list| ==> list[i] == list[1..][i - 1];
      if exists i :: 0 <= i < |list[1..]| && step(list[1..][i]).closes && list[1..][i].socket == fd {
        var i :| 0 <= i < |list[1..]| && step(list[1..][i]).closes && list[1..][i].socket == fd;
        assert list[i + 1] == list[1..][i];
      }
    }
  }

  // ----- the invariant

  /** Two sessions that may not both be registered: TCP with one key, UDP with one key unless one only records a block,
      or running ICMP between the same addresses. */
  predicate Conflict(a: Session, b: Session) {
    || (a.key == b.key && a.kind.Tcp? && b.kind.Tcp?)
    || (a.key == b.key && a.kind.Udp? && b.kind.Udp? && !IsBare(a) && !IsBare(b))
    || (SameAddresses(a.key, b.key) && a.kind == Icmp(false) && b.kind == Icmp(false))
  }

  /** Different sessions own different descriptors and do not conflict. */
  predicate Apart(f: Found, g: Found) {
    f.Found? && g.Found? ==> !Conflict(f.s, g.s) && (f.s.socket >= 0 ==> f.s.socket != g.s.socket)
  }

  /** The account of one id.  Registered: not freed, and its descriptor is open, or was closed once, or never existed.
      Gone: freed once, and its descriptor was closed exactly once if it had one. */
  predicate Account(t: Table, id: nat) {
    match Find(t.list, id)
    case Found(s) =>
      && id < t.nextId && SessionOk(s) && t.freed[id] == 0
      && (id in t.bare <==> IsBare(s))
      && t.closed[id] == (if IsBare(s) || s.socket >= 0 then 0 else 1)
      && (s.socket >= 0 ==> s.socket in t.open)
    case Nobody =>
      if id < t.nextId then t.freed[id] == 1 && t.closed[id] == (if id in t.bare then 0 else 1)
      else t.freed[id] == 0 && t.closed[id] == 0 && id !in t.bare
  }

  /** What epoll hands back for a descriptor is the registered session that owns it. */
  predicate Watches(t: Table, fd: int)
    requires fd in t.watched
  {
    var f := Find(t.list, t.watched[fd]);
    fd >= 0 && f.Found? && f.s.socket == fd
  }

  ghost predicate TableInv(t: Table) {
    && DistinctIds(t.list)
    && (forall fd :: fd in t.watched ==> Watches(t, fd))
    && (forall id: nat :: Account(t, id))
    && (forall i: nat, j: nat :: i != j ==> Apart(Find(t.list, i), Find(t.list, j)))
  }

  lemma EmptyTable()
    ensures TableInv(Table([], {}, map[], multiset{}, multiset{}, {}, 0))
  {
  }

  lemma ListedOk(t: Table, i: nat)
    requires TableInv(t) && i < |t.list|
    ensures Find(t.list, t.list[i].id) == Found(t.list[i]) && SessionOk(t.list[i])
  {
    FindAt(t.list, i);
    assert Account(t, t.list[i].id);
  }

  lemma StepsOk(t: Table, step: Session -> Checked)
    requires TableInv(t) && Sound(step)
    ensures forall s: Session :: s in t.list ==> SessionOk(s) && Succeeds(s, step(s)) && step(s).s.id == s.id
  {
    forall s: Session | s in t.list
      ensures SessionOk(s) && Succeeds(s, step(s)) && step(s).s.id == s.id
    {
      var i :| 0 <= i < |t.list| && t.list[i] == s;
      ListedOk(t, i);
    }
  }

  /** A descriptor that stays open is not among those that the pass closes. */
  lemma StaysOpen(t: Table, step: Session -> Checked, id: nat)
    requires TableInv(t) && Sound(step)
    requires Find(t.list, id).Found? && !step(Find(t.list, id).s).closes && Find(t.list, id).s.socket >= 0
    ensures Find(t.list, id).s.socket !in ClosedSockets(t.list, step)
  {
    hide Account, SessionOk, Succeeds, Conflict;
    var s := Find(t.list, id).s;
    ClosedSocketsAre(t.list, step, s.socket);
    forall i | 0 <= i < |t.list| && step(t.list[i]).closes
      ensures t.list[i].socket != s.socket
    {
      ListedOk(t, i);
      FindIn(t.list, id);
      assert t.list[i].id != id;
      assert Apart(Find(t.list, id), Find(t.list, t.list[i].id));
    }
  }

  lemma AccountAfter(t: Table, step: Session -> Checked, id: nat)
    requires TableInv(t) && Sound(step)
    ensures Account(Pass(t, step), id)
  {
    hide TableInv, Sound;
    StepsOk(t, step);
    DistinctOf(t);
    FindAfter(t.list, step, id);
    FindIn(t.list, id);
    AccountOf(t, id);
    if Find(t.list, id).Found? && !step(Find(t.list, id).s).closes && Find(t.list, id).s.socket >= 0 {
      StaysOpen(t, step, id);
    }
    hide Remaining, ClosedIds, ClosedSockets, FreedIds, Find;
  }

  lemma DistinctOf(t: Table)
    requires TableInv(t)
    ensures DistinctIds(t.list)
  {
  }

  lemma AccountOf(t: Table, id: nat)
    requires TableInv(t)
    ensures Account(t, id)
  {
  }

  lemma ApartAfter(t: Table, step: Session -> Checked, i: nat, j: nat)
    requires TableInv(t) && Sound(step) && i != j
    ensures Apart(Find(Pass(t, step).list, i), Find(Pass(t, step).list, j))
  {
    assert Apart(Find(t.list, i), Find(t.list, j));
    StepsOk(t, step);
    DistinctOf(t);
    hide TableInv, Sound, Account;
    FindAfter(t.list, step, i);
    FindAfter(t.list, step, j);
    FindIn(t.list, i);
    FindIn(t.list, j);
    hide Remaining, ClosedIds, ClosedSockets, FreedIds, Find;
  }

  /** A descriptor is on the interest list until it is closed, and a session is freed only after that. */
  lemma WatchesAfter(t: Table, step: Session -> Checked, fd: int)
    requires TableInv(t) && Sound(step) && fd in Pass(t, step).watched
    ensures Watches(Pass(t, step), fd)
  {
    var id := t.watched[fd];
    assert Watches(t, fd);
    StepsOk(t, step);
    DistinctOf(t);
    hide TableInv, Sound, Account, Apart;
    FindAfter(t.list, step, id);
    FindIn(t.list, id);
    ClosedSocketsAre(t.list, step, fd);
    var s := Find(t.list, id).s;
    var i :| 0 <= i < |t.list| && t.list[i] == s;
    assert !step(s).closes;
    hide Remaining, ClosedIds, ClosedSockets, FreedIds, Find;
  }

  /** A new interest list, with nothing on it. */
  lemma ForgetKeeps(t: Table)
    requires TableInv(t)
    ensures TableInv(t.(watched := map[]))
  {
    var q := t.(watched := map[]);
    forall id: nat
      ensures Account(q, id)
    {
      AccountOf(t, id);
    }
    forall i: nat, j: nat | i != j
      ensures Apart(Find(q.list, i), Find(q.list, j))
    {
      assert Apart(Find(t.list, i), Find(t.list, j));
    }
    hide Account, Apart;
  }

  /** Every pass of the event loop keeps the invariant. */
  lemma PassKeeps(t: Table, step: Session -> Checked)
    requires TableInv(t) && Sound(step)
    ensures TableInv(Pass(t, step))
  {
    var q := Pass(t, step);
    StepsOk(t, step);
    FindAfter(t.list, step, 0);
    forall id: nat
      ensures Account(q, id)
    {
      AccountAfter(t, step, id);
    }
    forall i: nat, j: nat | i != j
      ensures Apart(Find(q.list, i), Find(q.list, j))
    {
      ApartAfter(t, step, i, j);
    }
    forall fd | fd in q.watched
      ensures Watches(q, fd)
    {
      WatchesAfter(t, step, fd);
    }
    hide Pass, Account, Apart, Sound, Watches;
  }

  /** Registering a session that conflicts with none keeps it too. */
  lemma RegisterKeeps(t: Table, kind: Kind, key: Key, now: int, fd: int)
    requires TableInv(t)
    requires fd >= NONE && (fd >= 0 ==> fd !in t.open)
    requires var s := Session(t.nextId, kind, key, now, fd);
      && SessionOk(s) && (IsBare(s) <==> fd < 0)
      && forall i :: 0 <= i < |t.list| ==> !Conflict(s, t.list[i]) && !Conflict(t.list[i], s)
    ensures TableInv(Register(t, kind, key, now, fd))
  {
    var s := Session(t.nextId, kind, key, now, fd);
    var q := Register(t, kind, key, now, fd);
    assert q.list[1..] == t.list;
    AccountOf(t, t.nextId);
    FindIn(t.list, t.nextId);
    forall d | d in q.watched
      ensures Watches(q, d)
    {
      assert d in t.watched ==> Watches(t, d);
    }
    forall id: nat
      ensures Account(q, id)
    {
      AccountOf(t, id);
    }
    forall i: nat, j: nat | i != j
      ensures Apart(Find(q.list, i), Find(q.list, j))
    {
      FindIn(t.list, i);
      FindIn(t.list, j);
      AccountOf(t, i);
      AccountOf(t, j);
      assert Apart(Find(t.list, i), Find(t.list, j));
    }
  }
}
