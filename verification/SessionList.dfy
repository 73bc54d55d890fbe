/** The session list as session.c has it: nodes linked through next, relinked in place.  A pass with a trailing pointer
    refines the pass over a sequence. */
module SessionList {
  import opened Serial
  import opened SessionTable

  class Node {
    var s: Session
    var next: Node?

    constructor (s: Session, next: Node?)
      ensures this.s == s && this.next == next
    {
      this.s, this.next := s, next;
    }
  }

  /** The node that follows position i - 1. */
  function At(nodes: seq<Node>, i: nat): Node?
    requires i <= |nodes|
  {
    if i < |nodes| then nodes[i] else null
  }

  /** From head on, the links run through exactly these nodes, without a cycle. */
  ghost predicate Linked(head: Node?, nodes: seq<Node>)
    reads nodes
  {
    && head == At(nodes, 0)
    && (forall i :: 0 <= i < |nodes| ==> nodes[i].next == At(nodes, i + 1))
    && (forall i, j :: 0 <= i < j < |nodes| ==> nodes[i] != nodes[j])
  }

  ghost function Values(nodes: seq<Node>): seq<Session>
    reads nodes
  {
    seq(|nodes|, i requires 0 <= i < |nodes| reads nodes => nodes[i].s)
  }

  /** The nodes of the sessions that a pass keeps. */
  ghost function Kept(nodes: seq<Node>, list: seq<Session>, step: Session -> Checked): (kept: seq<Node>)
    requires |nodes| == |list|
    ensures forall n :: n in kept ==> n in nodes
  {
    if nodes == [] then []
    else (if step(list[0]).deletes then [] else [nodes[0]]) + Kept(nodes[1..], list[1..], step)
  }

  /** The world after a pass has visited the first i sessions of list, keeping those in done. */
  ghost predicate Progress(list: seq<Session>, i: nat, step: Session -> Checked, done: seq<Session>, t: Table, goal: Table) {
    && i <= |list|
    && done + Remaining(list[i..], step) == goal.list
    && t.open - ClosedSockets(list[i..], step) == goal.open
    && t.watched - ClosedSockets(list[i..], step) == goal.watched
    && t.closed + ClosedIds(list[i..], step) == goal.closed
    && t.freed + FreedIds(list[i..], step) == goal.freed
    && t.nextId == goal.nextId && t.bare == goal.bare
  }

  /** The effect of one visit on the world, apart from the list. */
  function Visited(t: Table, s: Session, c: Checked): Table {
    t.(open := if c.closes then t.open - {s.socket} else t.open,
       watched := if c.closes then t.watched - {s.socket} else t.watched,
       closed := if c.closes then t.closed + multiset{s.id} else t.closed,
       freed := if c.deletes then t.freed + multiset{s.id} else t.freed)
  }

  lemma ProgressStep(list: seq<Session>, i: nat, step: Session -> Checked, done: seq<Session>, t: Table, goal: Table)
    requires Progress(list, i, step, done, t, goal) && i < |list|
    ensures var c := step(list[i]);
      Progress(list, i + 1, step, if c.deletes then done else done + [c.s], Visited(t, list[i], c), goal)
  {
    hide ClosedSockets, ClosedIds, FreedIds, Remaining;
    PassUnfolds(list, i, step);
    var c := step(list[i]);
    var sockets := ClosedSockets(list[i + 1..], step);
    assert done + ([c.s] + Remaining(list[i + 1..], step)) == done + [c.s] + Remaining(list[i + 1..], step);
    if c.closes {
      WithoutBoth(t.watched, list[i].socket, sockets);
      assert t.open - ({list[i].socket} + sockets) == t.open - {list[i].socket} - sockets;
    }
  }

  lemma WithoutBoth(m: map<int, nat>, x: int, s: set<int>)
    ensures m - ({x} + s) == m - {x} - s
  {
  }

  lemma PassUnfolds(list: seq<Session>, i: nat, step: Session -> Checked)
    requires i < |list|
    ensures var c, rest, more := step(list[i]), list[i..], list[i + 1..];
      && Remaining(rest, step) == (if c.deletes then Remaining(more, step) else [c.s] + Remaining(more, step))
      && ClosedSockets(rest, step) ==
           (if c.closes then {list[i].socket} + ClosedSockets(more, step) else ClosedSockets(more, step))
      && ClosedIds(rest, step) ==
           (if c.closes then multiset{list[i].id} + ClosedIds(more, step) else ClosedIds(more, step))
      && FreedIds(rest, step) == if c.deletes then multiset{list[i].id} + FreedIds(more, step) else FreedIds(more, step)
  {
    assert list[i..][0] == list[i] && list[i..][1..] == list[i + 1..];
  }

  lemma KeptStep(nodes: seq<Node>, list: seq<Session>, i: nat, step: Session -> Checked, kept: seq<Node>)
    requires |nodes| == |list| && i < |list|
    requires kept + Kept(nodes[i..], list[i..], step) == Kept(nodes, list, step)
    ensures var more := if step(list[i]).deletes then kept else kept + [nodes[i]];
      more + Kept(nodes[i + 1..], list[i + 1..], step) == Kept(nodes, list, step)
  {
    hide Kept;
    KeptUnfolds(nodes, list, i, step);
    AppendOne(kept, nodes[i], Kept(nodes[i + 1..], list[i + 1..], step));
  }

  lemma AppendOne(a: seq<Node>, n: Node, b: seq<Node>)
    ensures a + ([n] + b) == a + [n] + b
  {
  }

  lemma KeptUnfolds(nodes: seq<Node>, list: seq<Session>, i: nat, step: Session -> Checked)
    requires |nodes| == |list| && i < |list|
    ensures var tail := Kept(nodes[i + 1..], list[i + 1..], step);
      Kept(nodes[i..], list[i..], step) == if step(list[i]).deletes then tail else [nodes[i]] + tail
  {
    assert nodes[i..][1..] == nodes[i + 1..] && list[i..][1..] == list[i + 1..];
    assert nodes[i..][0] == nodes[i] && list[i..][0] == list[i];
  }

  ghost function Last(nodes: seq<Node>): Node? {
    if nodes == [] then null else nodes[|nodes| - 1]
  }

  class Context {
    var head: Node?
    var open: set<int>
    var watched: map<int, nat>
    var nextId: nat
    ghost var nodes: seq<Node>
    ghost var closed: multiset<nat>
    ghost var freed: multiset<nat>
    ghost var bare: set<nat>

    ghost predicate Valid()
      reads this, nodes
    {
      Linked(head, nodes)
    }

    /** The world apart from the list. */
    ghost function World(): Table
      reads this
    {
      Table([], open, watched, closed, freed, bare, nextId)
    }

    ghost function View(): Table
      reads this, nodes
    {
      World().(list := Values(nodes))
    }

    constructor ()
      ensures Valid() && nodes == [] && View() == Table([], {}, map[], multiset{}, multiset{}, {}, 0)
    {
      head, open, watched, nextId := null, {}, map[], 0;
      nodes, closed, freed, bare := [], multiset{}, multiset{}, {};
    }

    /** The first session that fits, or null. */
    method Search(fits: Session -> bool) returns (n: Node?)
      requires Valid()
      ensures n != null ==> exists i :: 0 <= i < |nodes| && nodes[i] == n && fits(n.s)
                                       && forall j :: 0 <= j < i ==> !fits(nodes[j].s)
      ensures n == null ==> forall i :: 0 <= i < |nodes| ==> !fits(nodes[i].s)
    {
      n := head;
      ghost var i := 0;
      while n != null && !fits(n.s)
        invariant 0 <= i <= |nodes| && n == At(nodes, i)
        invariant forall j :: 0 <= j < i ==> !fits(nodes[j].s)
        decreases |nodes| - i
      {
        n := n.next;
        i := i + 1;
      }
    }

    method CountActive() returns (count: nat)
      requires Valid()
      ensures count == Count(View().list, IsActive)
    {
      count := 0;
      var n := head;
      ghost var i := 0;
      ghost var list := View().list;
      while n != null
        invariant 0 <= i <= |nodes| && n == At(nodes, i)
        invariant Count(list, IsActive) == count + Count(list[i..], IsActive)
        decreases |nodes| - i
      {
        assert list[i] == n.s && list[i..][1..] == list[i + 1..];
        if IsActive(n.s) {
          count := count + 1;
        }
        n := n.next;
        i := i + 1;
      }
    }

    method Register(kind: Kind, key: Key, now: int, fd: int)
      requires Valid()
      modifies this
      ensures Valid() && View() == SessionTable.Register(old(View()), kind, key, now, fd)
      ensures |nodes| > 0 && fresh(nodes[0]) && nodes[1..] == old(nodes)
    {
      hide Linked, Values;
      ghost var was := nodes;
      ghost var vals := Values(was);
      var n := new Node(Session(nextId, kind, key, now, fd), head);
      Prepend(n);
      if fd >= 0 {
        open := open + {fd};
        watched := watched[fd := nextId];
      } else {
        bare := bare + {nextId};
      }
      nextId := nextId + 1;
      assert Values(was) == vals;
      ValuesCons(n, was);
      assert nodes[1..] == was;
    }

    method Prepend(n: Node)
      requires Valid() && n !in nodes && n.next == head
      modifies this`head, this`nodes
      ensures Valid() && nodes == [n] + old(nodes)
    {
      head := n;
      nodes := [n] + nodes;
      assert forall i :: 0 < i < |nodes| ==> nodes[i] == old(nodes)[i - 1];
    }

    /** Takes node n out of the list, through the node before it or the head. */
    method Unlink(last: Node?, n: Node, ghost kept: seq<Node>, ghost rest: seq<Node>)
      requires Linked(head, kept + [n] + rest) && last == Last(kept)
      modifies this`head, (if last == null then {} else {last})`next
      ensures Linked(head, kept + rest) && n.next == old(n.next)
    {
      ghost var all, less := kept + [n] + rest, kept + rest;
      ghost var k := |kept|;
      assert all[k] == n && n.next == At(all, k + 1);
      ShiftAt(kept, n, rest);
      if last == null {
        head := n.next;
      } else {
        assert last == all[k - 1];
        last.next := n.next;
      }
      forall i | 0 <= i < |less|
        ensures less[i].next == At(less, i + 1)
      {
        if i < k {
          assert less[i] == all[i] == kept[i];
          if i == k - 1 {
            assert less[i] == last;
          } else {
            assert all[i] != last && At(all, i + 1) == At(less, i + 1);
          }
        } else {
          assert less[i] == all[i + 1] && all[i + 1] != last;
          assert At(all, i + 2) == At(less, i + 1);
        }
      }
    }

    /** A new value for node n; being linked depends on the links alone. */
    method Store(n: Node, s: Session, ghost kept: seq<Node>, ghost rest: seq<Node>)
      requires Linked(head, kept + [n] + rest) && n !in kept
      modifies n`s
      ensures Linked(head, kept + [n] + rest) && n.s == s && Values(kept) == old(Values(kept))
    {
      n.s := s;
    }

    /** Closing and freeing, on the books. */
    method Settle(s: Session, c: Checked)
      modifies this`open, this`watched, this`closed, this`freed
      ensures World() == Visited(old(World()), s, c)
    {
      if c.closes {
        open := open - {s.socket};
        watched := watched - {s.socket};
        closed := closed + multiset{s.id};
      }
      if c.deletes {
        freed := freed + multiset{s.id};
      }
    }

    /** In the middle of a pass: the first i nodes of was are visited and those in kept remain. */
    ghost predicate Walking(step: Session -> Checked, was: seq<Node>, list: seq<Session>, goal: Table,
                            kept: seq<Node>, i: nat, last: Node?, n: Node?)
      reads this, was, kept
    {
      && i <= |was| == |list| && n == At(was, i)
      && Linked(head, kept + was[i..]) && last == Last(kept)
      && (forall j :: i <= j < |was| ==> was[j].s == list[j])
      && Progress(list, i, step, Values(kept), World(), goal)
      && kept + Kept(was[i..], list[i..], step) == Kept(was, list, step)
      && (forall x :: x in kept ==> x in was)
    }

    /** Visits node n: closes its descriptor if need be, and unlinks it through last when it is to be deleted. */
    method Visit(step: Session -> Checked, last: Node?, n: Node, ghost was: seq<Node>, ghost list: seq<Session>,
                 ghost goal: Table, ghost kept: seq<Node>, ghost i: nat)
      returns (newLast: Node?, next: Node?, ghost more: seq<Node>)
      requires i < |was| && Walking(step, was, list, goal, kept, i, last, n)
      modifies this`head, this`open, this`watched, this`closed, this`freed, was
      ensures Walking(step, was, list, goal, more, i + 1, newLast, next)
    {
      hide Linked, Progress, Kept, Visited;
      ghost var rest, vals := was[i + 1..], Values(kept);
      var s := n.s;
      var c := step(s);
      ProgressStep(list, i, step, vals, World(), goal);
      KeptStep(was, list, i, step, kept);
      assert kept + was[i..] == kept + [n] + rest;
      LinkedMiddle(head, kept, n, rest);
      LaterNodes(head, kept, was, i);
      Store(n, c.s, kept, rest);
      Settle(s, c);
      if c.deletes {
        newLast, more := last, kept;
        assert last != null ==> last in kept;
        Unlink(last, n, kept, rest);
        assert Values(more) == vals;
      } else {
        newLast, more := n, kept + [n];
        assert kept + [n] + rest == more + rest;
        assert Values(more) == vals + [c.s];
      }
      next := n.next;
    }

    /** The loop that the sweep, check_allowed and clear share: visit every session, and keep a trailing pointer to the
        last one that remains.  Exactly the sessions that are not deleted remain, in order. */
    method Walk(step: Session -> Checked)
      requires Valid()
      modifies this, nodes
      ensures Valid() && View() == Pass(old(View()), step)
      ensures nodes == Kept(old(nodes), old(View().list), step)
    {
      hide Linked, Progress, Kept, Pass, Visited;
      ghost var was, list, goal := nodes, Values(nodes), Pass(View(), step);
      ghost var kept: seq<Node> := [];
      ghost var i := 0;
      var last: Node? := null;
      var n := head;
      WalkStart(was, list, step, World(), goal);
      LinkedHead(head, was);
      assert Values(kept) == [];
      while n != null
        invariant Walking(step, was, list, goal, kept, i, last, n)
        decreases |was| - i
      {
        last, n, kept := Visit(step, last, n, was, list, goal, kept, i);
        i := i + 1;
      }
      nodes := kept;
      assert kept + was[i..] == kept;
      WalkEnd(was, list, step, Values(kept), World(), goal, kept);
    }

    // ----- the three loops of session.c

    method Sweep(now: int, sessions: nat, maxSessions: pos)
      requires Valid()
      modifies this, nodes
      ensures Valid() && View() == Pass(old(View()), Sweeper(now, sessions, maxSessions))
      ensures nodes == Kept(old(nodes), old(View().list), Sweeper(now, sessions, maxSessions))
    {
      Walk(Sweeper(now, sessions, maxSessions));
    }

    method CheckAllowed(denied: set<nat>)
      requires Valid()
      modifies this, nodes
      ensures Valid() && View() == Pass(old(View()), Rechecker(denied))
      ensures nodes == Kept(old(nodes), old(View().list), Rechecker(denied))
    {
      Walk(Rechecker(denied));
    }

    /** Closes and frees every session. */
    method Clear()
      requires Valid()
      modifies this, nodes
      ensures Valid() && View() == Pass(old(View()), Clearer()) && head == null
    {
      Walk(Clearer());
      NothingRemains(old(nodes), old(View().list));
    }
  }

  lemma ValuesCons(n: Node, nodes: seq<Node>)
    ensures Values([n] + nodes) == [n.s] + Values(nodes)
  {
    assert Values([n] + nodes) == [n.s] + Values(nodes);
  }

  lemma {:induction false} NothingRemains(nodes: seq<Node>, list: seq<Session>)
    requires |nodes| == |list|
    ensures Kept(nodes, list, Clearer()) == []
  {
    if nodes != [] {
      NothingRemains(nodes[1..], list[1..]);
    }
  }

  lemma WalkStart(was: seq<Node>, list: seq<Session>, step: Session -> Checked, world: Table, goal: Table)
    requires |was| == |list| && goal == Pass(world.(list := list), step)
    ensures Progress(list, 0, step, [], world, goal)
    ensures [] + Kept(was[0..], list[0..], step) == Kept(was, list, step)
    ensures [] + was[0..] == was
  {
    assert list[0..] == list && was[0..] == was;
  }

  lemma WalkEnd(was: seq<Node>, list: seq<Session>, step: Session -> Checked, done: seq<Session>, world: Table,
                goal: Table, kept: seq<Node>)
    requires |was| == |list| && Progress(list, |list|, step, done, world, goal)
    requires kept + Kept(was[|was|..], list[|was|..], step) == Kept(was, list, step)
    ensures world.(list := done) == goal && kept == Kept(was, list, step)
  {
    assert list[|list|..] == [] && was[|was|..] == [];
    assert done + [] == done && kept + [] == kept;
    assert world.open - {} == world.open && world.watched - {} == world.watched;
  }

  lemma LinkedHead(head: Node?, nodes: seq<Node>)
    requires Linked(head, nodes)
    ensures head == At(nodes, 0)
  {
  }

  lemma LinkedMiddle(head: Node?, kept: seq<Node>, n: Node, rest: seq<Node>)
    requires Linked(head, kept + [n] + rest)
    ensures n !in kept && n !in rest && n.next == At(rest, 0)
  {
    var all := kept + [n] + rest;
    assert all[|kept|] == n;
    assert forall i :: 0 <= i < |kept| ==> all[i] == kept[i];
    assert forall i :: 0 <= i < |rest| ==> all[|kept| + 1 + i] == rest[i];
  }

  lemma LaterNodes(head: Node?, kept: seq<Node>, was: seq<Node>, i: nat)
    requires i < |was| && Linked(head, kept + was[i..])
    ensures forall j :: i < j < |was| ==> was[j] != was[i]
    ensures At(was[i + 1..], 0) == At(was, i + 1)
  {
    var all := kept + was[i..];
    assert forall j :: i <= j < |was| ==> all[|kept| + j - i] == was[j];
  }

  lemma ShiftAt(kept: seq<Node>, n: Node, rest: seq<Node>)
    ensures forall i :: |kept| <= i <= |kept + rest| ==> At(kept + [n] + rest, i + 1) == At(kept + rest, i)
    ensures forall i :: 0 <= i < |kept| ==> At(kept + [n] + rest, i) == At(kept + rest, i) == kept[i]
  {
  }
}
