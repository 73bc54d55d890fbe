/** The aging cache of connection owners (`get_uid_sub` in ip.c). */
module UidCache {
  import opened Serial
  import opened Bytes

  const UID_MAX_AGE := 30000
  const NOT_FOUND := -1
  const FAILED := -2

  /** The addresses, ports and owner of one line of the connection table. */
  datatype Row = Row(saddr: seq<byte>, sport: u16, daddr: seq<byte>, dport: u16, uid: int)

  datatype Entry = Entry(version: int, protocol: int, row: Row, time: int)

  datatype Query = Query(version: int, protocol: int, saddr: seq<byte>, sport: u16, daddr: seq<byte>, dport: u16)

  predicate Zero(a: seq<byte>) {
    forall i :: 0 <= i < |a| ==> a[i] == 0
  }

  /** A row fits a query when its ports and addresses do, or are wildcards. */
  predicate Matches(r: Row, q: Query) {
    && r.sport == q.sport && (r.dport == q.dport || r.dport == 0)
    && (r.saddr == q.saddr || Zero(r.saddr))
    && (r.daddr == q.daddr || Zero(r.daddr))
  }

  predicate Live(e: Entry, now: int) {
    now - e.time <= UID_MAX_AGE
  }

  predicate Hit(e: Entry, q: Query, now: int) {
    Live(e, now) && e.version == q.version && e.protocol == q.protocol && Matches(e.row, q)
  }

  predicate HasTable(q: Query) {
    || (q.protocol == 1 && q.version == 4)    // ICMP
    || (q.protocol == 58 && q.version == 6)   // ICMPv6
    || q.protocol == 6 || q.protocol == 17    // TCP, UDP
  }

  // ----- counting live entries

  function LiveCount(s: seq<Entry>, now: int): nat {
    if s == [] then 0 else (if Live(s[|s| - 1], now) then 1 else 0) + LiveCount(s[..|s| - 1], now)
  }

  lemma {:induction false} LiveCountBound(s: seq<Entry>, now: int)
    ensures LiveCount(s, now) <= |s|
    ensures LiveCount(s, now) == |s| <==> forall i :: 0 <= i < |s| ==> Live(s[i], now)
  {
    if s != [] {
      LiveCountBound(s[..|s| - 1], now);
      assert forall i :: 0 <= i < |s| - 1 ==> s[i] == s[..|s| - 1][i];
    }
  }

  lemma {:induction false} LiveCountUpdate(s: seq<Entry>, c: nat, e: Entry, now: int)
    requires c < |s| && !Live(s[c], now) && Live(e, now)
    ensures LiveCount(s[c := e], now) == LiveCount(s, now) + 1
  {
    var t, n := s[c := e], |s| - 1;
    if c == n {
      assert t[..n] == s[..n];
    } else {
      assert t[..n] == s[..n][c := e];
      LiveCountUpdate(s[..n], c, e, now);
    }
  }

  // ----- what a scan does

  /** Row j went to place at[j], all places being different. */
  ghost predicate Placed(cache: seq<Entry>, entries: seq<Entry>, at: seq<nat>) {
    && |at| == |entries|
    && (forall j :: 0 <= j < |at| ==> at[j] < |cache| && cache[at[j]] == entries[j])
    && (forall j, k :: 0 <= j < k < |at| ==> at[j] < at[k])
  }

  /** Every other place keeps its entry, and no live entry was overwritten. */
  ghost predicate OthersKept(was: seq<Entry>, cache: seq<Entry>, at: seq<nat>, now: int) {
    && |was| <= |cache|
    && (forall i :: 0 <= i < |was| && Live(was[i], now) ==> i !in at)
    && (forall i :: 0 <= i < |was| && i !in at ==> cache[i] == was[i])
    && (forall i :: |was| <= i < |cache| ==> i in at)
  }

  function Max(a: nat, b: nat): nat {
    if a < b then b else a
  }

  /** The owner that the last matching row names. */
  function LastMatch(rows: seq<Row>, q: Query): int {
    if rows == [] then NOT_FOUND
    else if Matches(rows[|rows| - 1], q) then rows[|rows| - 1].uid
    else LastMatch(rows[..|rows| - 1], q)
  }

  function EntryOf(r: Row, q: Query, now: int): Entry {
    Entry(q.version, q.protocol, r, now)
  }

  function Entries(rows: seq<Row>, q: Query, now: int): seq<Entry> {
    seq(|rows|, i requires 0 <= i < |rows| => EntryOf(rows[i], q, now))
  }

  function ToSet<T>(s: seq<T>): set<T> {
    set x | x in s
  }

  /** The rows up to the first line that could not be read. */
  function Readable(lines: seq<Option<Row>>): seq<Row> {
    if lines == [] || lines[0] == None then [] else [lines[0].value] + Readable(lines[1..])
  }

  /** Storing e in cache gives cache', with e at c', the first place from c on that is not live. */
  predicate Stored(cache: seq<Entry>, e: Entry, c: nat, cache': seq<Entry>, c': nat, now: int) {
    && c <= c' <= |cache|
    && (forall i :: c <= i < c' ==> Live(cache[i], now))
    && if c' < |cache| then cache' == cache[c' := e] && !Live(cache[c'], now) else cache' == cache + [e]
  }

  /** The loop of a scan: the entries so far are placed, c is the last place, and nothing before it is stale. */
  ghost predicate Scanning(was: seq<Entry>, cache: seq<Entry>, entries: seq<Entry>, at: seq<nat>, c: nat, now: int) {
    && Placed(cache, entries, at) && OthersKept(was, cache, at, now)
    && c <= |cache| && (forall i :: 0 <= i < c ==> Live(cache[i], now))
    && (at != [] ==> at[|at| - 1] == c && c < |cache| && Live(cache[c], now))
    && LiveCount(cache, now) == LiveCount(was, now) + |at|
    && (|cache| > |was| ==> LiveCount(cache, now) == |cache|)
  }

  lemma CountStep(was: seq<Entry>, cache: seq<Entry>, at: seq<nat>, c: nat, now: int, e: Entry, cache': seq<Entry>,
                  c': nat)
    requires LiveCount(cache, now) == LiveCount(was, now) + |at|
    requires |was| <= |cache| && (|cache| > |was| ==> LiveCount(cache, now) == |cache|)
    requires forall i :: 0 <= i < c <= |cache| ==> Live(cache[i], now)
    requires Stored(cache, e, c, cache', c', now) && Live(e, now)
    ensures LiveCount(cache', now) == LiveCount(was, now) + |at| + 1
    ensures |cache'| > |was| ==> LiveCount(cache', now) == |cache'|
    ensures c' < |cache| ==> |cache| == |was|
  {
    LiveCountBound(cache, now);
    if c' < |cache| {
      LiveCountUpdate(cache, c', e, now);
    } else {
      assert cache'[..|cache|] == cache;
      assert forall i :: 0 <= i < |cache| ==> Live(cache[i], now);
    }
  }

  /** The place of the next entry is new, later than the others, and was not live. */
  lemma FreshPlace(was: seq<Entry>, cache: seq<Entry>, entries: seq<Entry>, at: seq<nat>, c: nat, now: int, c': nat)
    requires Scanning(was, cache, entries, at, c, now)
    requires c <= c' <= |cache| && (c' < |cache| ==> !Live(cache[c'], now) && |cache| == |was|)
    ensures forall j :: 0 <= j < |at| ==> at[j] < c'
    ensures c' < |was| ==> c' !in at && !Live(was[c'], now)
  {
    hide LiveCount;
    if at != [] {
      assert at[|at| - 1] == c && c != c';
    }
  }

  lemma PlacedStep(cache: seq<Entry>, entries: seq<Entry>, at: seq<nat>, c: nat, e: Entry, cache': seq<Entry>, c': nat)
    requires Placed(cache, entries, at) && (forall j :: 0 <= j < |at| ==> at[j] < c') && c' <= |cache|
    requires cache' == if c' < |cache| then cache[c' := e] else cache + [e]
    ensures Placed(cache', entries + [e], at + [c'])
  {
  }

  lemma KeptStep(was: seq<Entry>, cache: seq<Entry>, at: seq<nat>, now: int, e: Entry, cache': seq<Entry>, c': nat)
    requires OthersKept(was, cache, at, now) && c' <= |cache|
    requires cache' == if c' < |cache| then cache[c' := e] else cache + [e]
    requires c' < |was| ==> !Live(was[c'], now)
    ensures OthersKept(was, cache', at + [c'], now)
  {
    assert forall i: nat :: i in at + [c'] <==> i in at || i == c';
  }

  lemma ScanningStep(was: seq<Entry>, cache: seq<Entry>, entries: seq<Entry>, at: seq<nat>, c: nat, now: int,
                     e: Entry, cache': seq<Entry>, c': nat)
    requires Scanning(was, cache, entries, at, c, now)
    requires Stored(cache, e, c, cache', c', now) && Live(e, now)
    ensures Scanning(was, cache', entries + [e], at + [c'], c', now)
  {
    hide Placed, OthersKept, LiveCount, Live;
    KeptSize(was, cache, at, now);
    CountStep(was, cache, at, c, now, e, cache', c');
    FreshPlace(was, cache, entries, at, c, now, c');
    PlacedStep(cache, entries, at, c, e, cache', c');
    KeptStep(was, cache, at, now, e, cache', c');
    LiveStep(cache, c, now, e, cache', c');
  }

  lemma KeptSize(was: seq<Entry>, cache: seq<Entry>, at: seq<nat>, now: int)
    requires OthersKept(was, cache, at, now)
    ensures |was| <= |cache|
  {
  }

  /** Nothing up to the new place is stale. */
  lemma LiveStep(cache: seq<Entry>, c: nat, now: int, e: Entry, cache': seq<Entry>, c': nat)
    requires Stored(cache, e, c, cache', c', now) && Live(e, now) && c <= |cache|
    requires forall i :: 0 <= i < c ==> Live(cache[i], now)
    ensures c' < |cache'| && forall i :: 0 <= i <= c' ==> Live(cache'[i], now)
  {
    hide Live;
    forall i | 0 <= i <= c'
      ensures Live(cache'[i], now)
    {
      if i < c' {
        assert cache'[i] == cache[i];
      }
    }
  }

  lemma ScanningStart(was: seq<Entry>, lines: seq<Option<Row>>, q: Query, now: int)
    ensures Scanning(was, was, Entries([], q, now), [], 0, now)
    ensures ToSet(Entries([], q, now)) == {} && LastMatch([], q) == NOT_FOUND
    ensures Readable(lines) == [] + Readable(lines[0..])
  {
    assert lines[0..] == lines;
  }

  lemma InPlace(was: seq<Entry>, cache: seq<Entry>, entries: seq<Entry>, at: seq<nat>, c: nat, now: int)
    requires Scanning(was, cache, entries, at, c, now)
    ensures c <= |cache|
  {
  }

  lemma EntriesGrow(rows: seq<Row>, row: Row, q: Query, now: int)
    ensures Entries(rows + [row], q, now) == Entries(rows, q, now) + [EntryOf(row, q, now)]
    ensures ToSet(Entries(rows + [row], q, now)) == ToSet(Entries(rows, q, now)) + {EntryOf(row, q, now)}
    ensures LastMatch(rows + [row], q) == if Matches(row, q) then row.uid else LastMatch(rows, q)
  {
    var s, e := Entries(rows, q, now), EntryOf(row, q, now);
    assert Entries(rows + [row], q, now) == s + [e];
    assert forall x :: x in s + [e] <==> x in s || x == e;
    assert (rows + [row])[..|rows|] == rows;
  }

  lemma EntriesLength(rows: seq<Row>, q: Query, now: int)
    ensures |Entries(rows, q, now)| == |rows|
  {
  }

  lemma ReadableGrows(lines: seq<Option<Row>>, l: nat, rows: seq<Row>)
    requires l < |lines| && lines[l].Some? && Readable(lines) == rows + Readable(lines[l..])
    ensures Readable(lines) == rows + [lines[l].value] + Readable(lines[l + 1..])
  {
    assert lines[l..][1..] == lines[l + 1..];
  }

  lemma ReadableStops(lines: seq<Option<Row>>, rows: seq<Row>, l: nat)
    requires l <= |lines| && |rows| == l && (l < |lines| ==> lines[l] == None)
    requires Readable(lines) == rows + Readable(lines[l..])
    ensures Readable(lines) == rows
  {
  }

  /** How large the cache is after a scan. */
  lemma ScannedSize(was: seq<Entry>, cache: seq<Entry>, entries: seq<Entry>, at: seq<nat>, c: nat, now: int)
    requires Scanning(was, cache, entries, at, c, now)
    ensures |cache| == Max(|was|, LiveCount(was, now) + |at|)
    ensures Placed(cache, entries, at) && OthersKept(was, cache, at, now) && |at| == |entries|
  {
    LiveCountBound(cache, now);
  }

  // ----- the cache

  class Cache {
    var cache: seq<Entry>
    ghost var read: set<Entry>  // every row ever read, with the time of reading

    ghost predicate Valid()
      reads this
    {
      forall i :: 0 <= i < |cache| ==> cache[i] in read
    }

    constructor ()
      ensures Valid() && cache == [] && read == {}
    {
      cache, read := [], {};
    }

    /** The first live entry that fits. */
    method Lookup(q: Query, now: int) returns (r: Option<Entry>)
      ensures match r
        case Some(e) => exists i :: 0 <= i < |cache| && cache[i] == e && Hit(e, q, now)
                                    && forall j :: 0 <= j < i ==> !Hit(cache[j], q, now)
        case None => forall i :: 0 <= i < |cache| ==> !Hit(cache[i], q, now)
    {
      for i := 0 to |cache|
        invariant forall j :: 0 <= j < i ==> !Hit(cache[j], q, now)
      {
        if Hit(cache[i], q, now) {
          return Some(cache[i]);
        }
      }
      return None;
    }

    /** Writes one row into the next stale place from c on, or at the end. */
    method Store(e: Entry, start: nat, now: int) returns (c: nat)
      requires start <= |cache| && Live(e, now)
      modifies this`cache
      ensures Stored(old(cache), e, start, cache, c, now)
    {
      c := start;
      while c < |cache| && Live(cache[c], now)
        invariant start <= c <= |cache|
        invariant forall i :: start <= i < c ==> Live(cache[i], now)
      {
        c := c + 1;
      }
      if c >= |cache| {
        cache := cache + [e];
      } else {
        cache := cache[c := e];
      }
    }

    /** One row of a scan. */
    method StoreRow(row: Row, q: Query, c: nat, now: int, ghost was: seq<Entry>, ghost rows: seq<Row>, ghost at: seq<nat>)
      returns (next: nat)
      requires Valid() && Scanning(was, cache, Entries(rows, q, now), at, c, now)
      modifies this
      ensures Valid() && read == old(read) + {EntryOf(row, q, now)}
      ensures Scanning(was, cache, Entries(rows + [row], q, now), at + [next], next, now)
    {
      hide Scanning, Entries;
      var e := EntryOf(row, q, now);
      ghost var before := cache;
      InPlace(was, cache, Entries(rows, q, now), at, c, now);
      next := Store(e, c, now);
      ScanningStep(was, before, Entries(rows, q, now), at, c, now, e, cache, next);
      EntriesGrow(rows, row, q, now);
      read := read + {e};
    }

    /** Scans the lines of the table into the cache; the answer is the last matching row, or FAILED when a line could
        not be read. */
    method Scan(lines: seq<Option<Row>>, q: Query, now: int) returns (uid: int, ghost at: seq<nat>)
      requires Valid()
      modifies this
      ensures Valid()
      ensures var rows := Readable(lines);
        && read == old(read) + ToSet(Entries(rows, q, now))
        && Placed(cache, Entries(rows, q, now), at)
        && OthersKept(old(cache), cache, at, now)
        && |cache| == Max(|old(cache)|, LiveCount(old(cache), now) + |rows|)
        && uid == if |rows| == |lines| then LastMatch(rows, q) else -2
    {
      hide Scanning, Placed, OthersKept, LiveCount, Entries, ToSet, LastMatch, Readable, Matches;
      uid, at := NOT_FOUND, [];
      var c, l := 0, 0;
      ghost var rows: seq<Row> := [];
      ScanningStart(cache, lines, q, now);
      while l < |lines|
        invariant 0 <= l <= |lines| && |rows| == l
        invariant Readable(lines) == rows + Readable(lines[l..])
        invariant Scanning(old(cache), cache, Entries(rows, q, now), at, c, now)
        invariant read == old(read) + ToSet(Entries(rows, q, now)) && Valid()
        invariant uid == LastMatch(rows, q)
      {
        if lines[l] == None {
          break;
        }
        var row := lines[l].value;
        c := StoreRow(row, q, c, now, old(cache), rows, at);
        EntriesGrow(rows, row, q, now);
        ReadableGrows(lines, l, rows);
        at, rows := at + [c], rows + [row];
        if Matches(row, q) {
          uid := row.uid;
        }
        l := l + 1;
      }
      ScannedSize(old(cache), cache, Entries(rows, q, now), at, c, now);
      EntriesLength(rows, q, now);
      ReadableStops(lines, rows, l);
      if l < |lines| {
        uid := FAILED;
      }
    }

    /** The whole of get_uid_sub.  An answer from the cache is the owner of a matching row that was read at most
        UID_MAX_AGE ago; otherwise no live entry matched, and the table is scanned, unless there is none for the protocol
        or it could not be opened. */
    method GetUidSub(q: Query, lines: seq<Option<Row>>, canOpen: bool, now: int)
      returns (uid: int, cached: bool, ghost from: Entry, ghost at: seq<nat>)
      requires Valid()
      modifies this
      ensures Valid()
      ensures cached ==> from in old(read) && Hit(from, q, now) && uid == from.row.uid
      ensures !cached ==> forall i :: 0 <= i < |old(cache)| ==> !Hit(old(cache)[i], q, now)
      ensures cached || !HasTable(q) || !canOpen ==> cache == old(cache) && read == old(read)
      ensures !cached && !HasTable(q) ==> uid == -1
      ensures !cached && HasTable(q) && !canOpen ==> uid == -2
      ensures !cached && HasTable(q) && canOpen ==>
        var rows := Readable(lines);
        && read == old(read) + ToSet(Entries(rows, q, now))
        && Placed(cache, Entries(rows, q, now), at)
        && OthersKept(old(cache), cache, at, now)
        && |cache| == Max(|old(cache)|, LiveCount(old(cache), now) + |rows|)
        && uid == if |rows| == |lines| then LastMatch(rows, q) else -2
    {
      hide Placed, OthersKept, LiveCount, Entries, ToSet, LastMatch, Readable, Matches;
      cached, at := false, [];
      from := EntryOf(Row([], 0, [], 0, 0), q, now);
      var r := Lookup(q, now);
      if r.Some? {
        return r.value.row.uid, true, r.value, [];
      }
      if !HasTable(q) {
        uid := NOT_FOUND;
      } else if !canOpen {
        uid := FAILED;
      } else {
        uid, at := Scan(lines, q, now);
      }
    }
  }

  // ----- which rows match

  /** A row with the connection's own addresses and ports matches, and so does a socket that is bound to its port only. */
  lemma OwnRowsMatch(q: Query, uid: int, zero: seq<byte>)
    requires forall i :: 0 <= i < |zero| ==> zero[i] == 0
    ensures Matches(Row(q.saddr, q.sport, q.daddr, q.dport, uid), q)
    ensures Matches(Row(zero, q.sport, zero, 0, uid), q)
  {
  }

  /** A row with another local port, another remote port or other addresses does not match, unless these are wildcards; a
      local port never is. */
  lemma OtherRowsDoNot(q: Query, r: Row)
    ensures r.sport != q.sport ==> !Matches(r, q)
    ensures r.dport != q.dport && r.dport != 0 ==> !Matches(r, q)
    ensures r.saddr != q.saddr && (exists i :: 0 <= i < |r.saddr| && r.saddr[i] != 0) ==> !Matches(r, q)
    ensures r.daddr != q.daddr && (exists i :: 0 <= i < |r.daddr| && r.daddr[i] != 0) ==> !Matches(r, q)
  {
  }

  /** The connection the other way round is another one. */
  lemma SwappedDoesNot(q: Query, uid: int)
    requires q.sport != q.dport
    ensures !Matches(Row(q.daddr, q.dport, q.saddr, q.sport, uid), q)
  {
  }

  /** An entry answers for its version and protocol, for thirty seconds after it was read and no longer. */
  lemma HitAges(q: Query, uid: int, read: int, now: int)
    requires read <= now
    ensures Hit(Entry(q.version, q.protocol, Row(q.saddr, q.sport, q.daddr, q.dport, uid), read), q, now) <==>
            now - read <= 30000
    ensures forall e: Entry :: e.version != q.version || e.protocol != q.protocol ==> !Hit(e, q, now)
  {
  }

  /** The owner found is that of the last row that matches. */
  lemma {:induction false} LastMatchIs(rows: seq<Row>, q: Query, i: nat)
    requires i < |rows| && Matches(rows[i], q) && forall j :: i < j < |rows| ==> !Matches(rows[j], q)
    ensures LastMatch(rows, q) == rows[i].uid
  {
    hide Matches;
    var n := |rows| - 1;
    if i < n {
      LastMatchIs(rows[..n], q, i);
    }
  }

  /** When none matches, it is -1. */
  lemma {:induction false} NoMatch(rows: seq<Row>, q: Query)
    requires forall j :: 0 <= j < |rows| ==> !Matches(rows[j], q)
    ensures LastMatch(rows, q) == -1
  {
    hide Matches;
    if rows != [] {
      NoMatch(rows[..|rows| - 1], q);
    }
  }

  /** TCP and UDP have a table for both versions of IP, and the two ICMPs for their own only. */
  lemma TablesRead(q: Query)
    ensures q.protocol == 6 || q.protocol == 17 ==> HasTable(q)
    ensures q.protocol == 1 ==> (HasTable(q) <==> q.version == 4)
    ensures q.protocol == 58 ==> (HasTable(q) <==> q.version == 6)
    ensures q.protocol !in {1, 6, 17, 58} ==> !HasTable(q)
  {
  }
}
