/** Names in DNS messages (`get_qname` in dns.c, section 4.1.4 of RFC 1035). */
module DnsName {
  import opened Serial
  import opened Bytes

  const DNS_QNAME_MAX := 255
  const DOT: byte := 46

  // ----- the specification of get_qname

  /** A name as get_qname returns it, and the offset it reports. */
  datatype Name = Name(text: seq<byte>, next: nat)

  /** The buffer up to noff after one more label: noff has eight bits, so a full buffer counts as empty. */
  function Put(text: seq<byte>, part: seq<byte>): seq<byte> {
    if |text| + |part| + 1 == 0x100 then [] else text + part + [DOT]
  }

  predicate IsPointer(data: seq<byte>, ptr: nat) {
    ptr + 1 < |data| && data[ptr] >= 0x40
  }

  function Target(data: seq<byte>, ptr: nat): nat
    requires IsPointer(data, ptr)
  {
    BigEndian(data[ptr] % 0x40, data[ptr + 1])
  }

  predicate HasLabel(data: seq<byte>, ptr: nat, text: seq<byte>) {
    ptr < |data| && ptr + 1 + data[ptr] < |data| && |text| + data[ptr] <= DNS_QNAME_MAX
  }

  function LabelAt(data: seq<byte>, ptr: nat): seq<byte>
    requires ptr < |data| && ptr + 1 + data[ptr] < |data|
  {
    data[ptr + 1..ptr + 1 + data[ptr]]
  }

  datatype End = End(ptr: nat, text: seq<byte>, jumped: bool)

  /** The loop: labels and pointers from ptr on, at most steps of them, until a zero length. */
  function Walk(data: seq<byte>, ptr: nat, text: seq<byte>, jumped: bool, steps: nat): (r: Option<End>)
    requires ptr < |data|
    ensures r.Some? ==> r.value.ptr < |data|
    decreases steps
  {
    if data[ptr] == 0 then Some(End(ptr, text, jumped))
    else if steps == 0 then None
    else if IsPointer(data, ptr) then
      if Target(data, ptr) < |data| then Walk(data, Target(data, ptr), text, true, steps - 1) else None
    else if HasLabel(data, ptr, text) then
      Walk(data, ptr + 1 + data[ptr], Put(text, LabelAt(data, ptr)), jumped, steps - 1)
    else None
  }

  function NameAt(data: seq<byte>, off: nat): Option<Name> {
    if off >= |data| then None
    else match Walk(data, off, [], false, 26)
      case None => None
      case Some(end) =>
        if end.text == [] then None
        else Some(Name(end.text[..|end.text| - 1], if end.jumped then off + 2 else end.ptr + 1))
  }

  // ----- get_qname

  /** Decodes the name at off into the buffer qname; -1 means none.  Every access is in bounds. */
  method GetQname(data: seq<byte>, off: u16, qname: array<byte>) returns (next: int)
    requires |data| <= 0xFFFF && qname.Length == DNS_QNAME_MAX + 1
    modifies qname
    ensures match NameAt(data, off)
      case None => next == -1
      case Some(name) =>
        && next == name.next && |name.text| < DNS_QNAME_MAX
        && qname[..|name.text|] == name.text && qname[|name.text|] == 0
  {
    hide Walk, LabelAt, Target, Put;
    qname[0] := 0;
    if off >= |data| {
      return -1;
    }
    var c, noff, ptr: int := false, 0, off;
    var len := data[ptr];
    var count := 0;
    ghost var text: seq<byte> := [];
    while len != 0
      invariant 0 <= ptr < |data| && len == data[ptr]
      invariant 0 <= count <= 26
      invariant 0 <= noff <= DNS_QNAME_MAX && qname[..noff] == text
      invariant Walk(data, off, [], false, 26) == Walk(data, ptr, text, c, 26 - count)
      decreases 26 - count
    {
      WalkOnce(data, ptr, text, c, 26 - count);
      if count > 25 {
        return -1;
      }
      count := count + 1;
      if ptr + 1 < |data| && len >= 0x40 {
        TargetIs(data, ptr);
        var jump := BigEndian(len % 0x40, data[ptr + 1]);
        if jump >= |data| {
          return -1;
        }
        ptr := jump;
        len := data[ptr];
        c := true;
      } else if ptr + 1 + len < |data| && noff + len <= DNS_QNAME_MAX {
        LabelIs(data, ptr);
        noff := PutLabel(qname, noff, data[ptr + 1..ptr + 1 + len]);
        text := Put(text, LabelAt(data, ptr));
        ptr := ptr + 1 + len;
        len := data[ptr];
      } else {
        return -1;
      }
    }
    WalkOnce(data, ptr, text, c, 26 - count);
    if noff == 0 {
      return -1;
    }
    assert qname[..noff - 1] == text[..|text| - 1];
    qname[noff - 1] := 0;
    next := if c then off + 2 else ptr + 1;
  }

  /** The label s and a dot after the first noff bytes; the count of bytes wraps. */
  method PutLabel(qname: array<byte>, noff: nat, s: seq<byte>) returns (next: nat)
    requires qname.Length == DNS_QNAME_MAX + 1 && noff + |s| <= DNS_QNAME_MAX
    modifies qname
    ensures next <= DNS_QNAME_MAX && qname[..next] == Put(old(qname[..noff]), s)
  {
    Append(qname, noff, s);
    next := (noff + |s| + 1) % 0x100;
  }

  /** The label s and a dot, stored from offset at on. */
  method Append(a: array<byte>, at: nat, s: seq<byte>)
    requires at + |s| < a.Length
    modifies a
    ensures a[..at + |s| + 1] == old(a[..at]) + s + [DOT]
  {
    for i := 0 to |s|
      invariant a[..at + i] == old(a[..at]) + s[..i]
    {
      a[at + i] := s[i];
      assert a[..at + i + 1] == a[..at + i] + [s[i]];
      assert s[..i + 1] == s[..i] + [s[i]];
    }
    assert s[..|s|] == s;
    a[at + |s|] := DOT;
    assert a[..at + |s| + 1] == a[..at + |s|] + [DOT];
  }

  lemma TargetIs(data: seq<byte>, ptr: nat)
    requires IsPointer(data, ptr)
    ensures Target(data, ptr) == BigEndian(data[ptr] % 0x40, data[ptr + 1])
  {
  }

  lemma LabelIs(data: seq<byte>, ptr: nat)
    requires ptr < |data| && ptr + 1 + data[ptr] < |data|
    ensures LabelAt(data, ptr) == data[ptr + 1..ptr + 1 + data[ptr]]
  {
  }

  // ----- names as RFC 1035 writes them

  datatype Hop = Label(bytes: seq<byte>) | Pointer(target: nat)

  /** The message holds, from off on, the name that the hops spell. */
  predicate Spells(data: seq<byte>, off: nat, hops: seq<Hop>)
    decreases |hops|
  {
    off < |data| &&
    if hops == [] then data[off] == 0
    else match hops[0]
      case Label(b) =>
        && 1 <= |b| <= 63 && off + 1 + |b| < |data|
        && data[off] == |b| && data[off + 1..off + 1 + |b|] == b
        && Spells(data, off + 1 + |b|, hops[1..])
      case Pointer(t) =>
        && t < 0x4000 && off + 1 < |data|
        && data[off] == 0xC0 + t / 0x100 && data[off + 1] == t % 0x100
        && Spells(data, t, hops[1..])
  }

  /** The labels, each followed by a dot. */
  function Dotted(hops: seq<Hop>): seq<byte> {
    if hops == [] then []
    else (if hops[0].Label? then hops[0].bytes + [DOT] else []) + Dotted(hops[1..])
  }

  /** The labels joined by dots. */
  function Joined(hops: seq<Hop>): seq<byte> {
    var d := Dotted(hops);
    if d == [] then [] else d[..|d| - 1]
  }

  predicate Compressed(hops: seq<Hop>) {
    exists i :: 0 <= i < |hops| && hops[i].Pointer?
  }

  predicate PointerFirst(hops: seq<Hop>) {
    hops != [] && hops[0].Pointer?
  }

  /** The offset just past the name: a pointer ends it, and otherwise the zero byte. */
  function Past(off: nat, hops: seq<Hop>): nat
    decreases |hops|
  {
    if hops == [] then off + 1
    else match hops[0]
      case Pointer(_) => off + 2
      case Label(b) => Past(off + 1 + |b|, hops[1..])
  }

  /** What get_qname can hold: at most 26 hops, and between 1 and 255 bytes with the dots. */
  predicate Holds(hops: seq<Hop>) {
    |hops| <= 26 && 1 <= |Dotted(hops)| <= DNS_QNAME_MAX
  }

  /** The loop, unrolled once. */
  lemma WalkOnce(data: seq<byte>, ptr: nat, text: seq<byte>, jumped: bool, steps: nat)
    requires ptr < |data|
    ensures data[ptr] == 0 ==> Walk(data, ptr, text, jumped, steps) == Some(End(ptr, text, jumped))
    ensures data[ptr] != 0 && steps == 0 ==> Walk(data, ptr, text, jumped, steps) == None
    ensures data[ptr] != 0 && steps > 0 ==>
              Walk(data, ptr, text, jumped, steps) ==
                if IsPointer(data, ptr) then
                  if Target(data, ptr) < |data| then Walk(data, Target(data, ptr), text, true, steps - 1) else None
                else if HasLabel(data, ptr, text) then
                  Walk(data, ptr + 1 + data[ptr], Put(text, LabelAt(data, ptr)), jumped, steps - 1)
                else None
  {
  }

  /** What the first hop of a spelled name means for the loop. */
  lemma FirstHop(data: seq<byte>, off: nat, hops: seq<Hop>)
    requires Spells(data, off, hops) && hops != []
    ensures off < |data| && data[off] != 0
    ensures match hops[0]
      case Label(b) =>
        && !IsPointer(data, off) && data[off] == |b| && off + 1 + |b| < |data| && LabelAt(data, off) == b
        && Spells(data, off + 1 + |b|, hops[1..])
      case Pointer(t) =>
        IsPointer(data, off) && Target(data, off) == t && t < |data| && Spells(data, t, hops[1..])
  {
    var rest := hops[1..];
    match hops[0]
    case Label(b) =>
      assert Spells(data, off + 1 + |b|, rest);
    case Pointer(t) =>
      assert Spells(data, t, rest);
      SpellsInside(data, t, rest);
  }

  lemma SpellsInside(data: seq<byte>, off: nat, hops: seq<Hop>)
    requires Spells(data, off, hops)
    ensures off < |data|
  {
  }

  lemma FirstPart(hops: seq<Hop>)
    requires hops != []
    ensures Dotted(hops) == (if hops[0].Label? then hops[0].bytes + [DOT] else []) + Dotted(hops[1..])
  {
  }

  lemma LabelStep(data: seq<byte>, off: nat, hops: seq<Hop>, text: seq<byte>, jumped: bool, steps: nat)
    requires Spells(data, off, hops) && hops != [] && hops[0].Label? && steps > 0
    requires |text| + |Dotted(hops)| <= DNS_QNAME_MAX
    ensures var b, rest := hops[0].bytes, hops[1..];
      && Spells(data, off + 1 + |b|, rest)
      && Walk(data, off, text, jumped, steps) == Walk(data, off + 1 + |b|, text + b + [DOT], jumped, steps - 1)
      && text + Dotted(hops) == text + b + [DOT] + Dotted(rest)
  {
    hide Walk, Spells, LabelAt, IsPointer, Target, Dotted;
    FirstHop(data, off, hops);
    FirstPart(hops);
    WalkOnce(data, off, text, jumped, steps);
    assert Put(text, hops[0].bytes) == text + hops[0].bytes + [DOT];
  }

  lemma PointerStep(data: seq<byte>, off: nat, hops: seq<Hop>, text: seq<byte>, jumped: bool, steps: nat)
    requires Spells(data, off, hops) && hops != [] && hops[0].Pointer? && steps > 0
    ensures var t, rest := hops[0].target, hops[1..];
      && Spells(data, t, rest) && Dotted(hops) == Dotted(rest)
      && Walk(data, off, text, jumped, steps) == Walk(data, t, text, true, steps - 1)
  {
    hide Walk, Spells, LabelAt, IsPointer, Target, Dotted;
    FirstHop(data, off, hops);
    FirstPart(hops);
    WalkOnce(data, off, text, jumped, steps);
  }

  lemma WalkEnds(data: seq<byte>, off: nat, text: seq<byte>, jumped: bool, steps: nat)
    requires Spells(data, off, [])
    ensures Walk(data, off, text, jumped, steps) == Some(End(off, text, jumped))
    ensures text + Dotted([]) == text && !Compressed([]) && Past(off, []) == off + 1
  {
  }

  lemma PastCons(off: nat, hops: seq<Hop>)
    requires hops != []
    ensures hops[0].Label? ==> Past(off, hops) == Past(off + 1 + |hops[0].bytes|, hops[1..])
  {
  }

  /** Walking the hops of a name that fits collects its labels and ends at its zero byte. */
  lemma {:induction false} WalkSpells(data: seq<byte>, off: nat, hops: seq<Hop>, text: seq<byte>, jumped: bool, steps: nat)
    requires Spells(data, off, hops)
    requires |hops| <= steps && |text| + |Dotted(hops)| <= DNS_QNAME_MAX
    ensures var w := Walk(data, off, text, jumped, steps);
      && w.Some? && w.value.text == text + Dotted(hops)
      && w.value.jumped == (jumped || Compressed(hops))
      && (!Compressed(hops) ==> w.value.ptr + 1 == Past(off, hops))
    decreases |hops|
  {
    hide Walk, Spells, Dotted, Compressed, Past;
    if hops == [] {
      WalkEnds(data, off, text, jumped, steps);
      return;
    }
    CompressedCons(hops);
    PastCons(off, hops);
    if hops[0].Label? {
      LabelStep(data, off, hops, text, jumped, steps);
      WalkSpells(data, off + 1 + |hops[0].bytes|, hops[1..], text + hops[0].bytes + [DOT], jumped, steps - 1);
    } else {
      PointerStep(data, off, hops, text, jumped, steps);
      WalkSpells(data, hops[0].target, hops[1..], text, true, steps - 1);
    }
  }

  lemma CompressedCons(hops: seq<Hop>)
    requires hops != []
    ensures Compressed(hops) <==> hops[0].Pointer? || Compressed(hops[1..])
  {
    if Compressed(hops) && hops[0].Label? {
      var i :| 0 <= i < |hops| && hops[i].Pointer?;
      assert hops[1..][i - 1].Pointer?;
    }
    if Compressed(hops[1..]) {
      var i :| 0 <= i < |hops[1..]| && hops[1..][i].Pointer?;
      assert hops[i + 1].Pointer?;
    }
  }

  lemma {:induction false} TooManyHops(data: seq<byte>, off: nat, hops: seq<Hop>, text: seq<byte>, jumped: bool, steps: nat)
    requires Spells(data, off, hops) && |hops| > steps
    ensures Walk(data, off, text, jumped, steps) == None
    decreases steps
  {
    hide Walk, Spells;
    FirstHop(data, off, hops);
    WalkOnce(data, off, text, jumped, steps);
    if steps > 0 {
      match hops[0]
      case Label(b) => TooManyHops(data, off + 1 + |b|, hops[1..], Put(text, b), jumped, steps - 1);
      case Pointer(t) => TooManyHops(data, t, hops[1..], text, true, steps - 1);
    }
  }

  lemma {:induction false} TextFits(data: seq<byte>, ptr: nat, text: seq<byte>, jumped: bool, steps: nat)
    requires ptr < |data| && |text| <= DNS_QNAME_MAX
    ensures var w := Walk(data, ptr, text, jumped, steps);
      w.Some? ==> |w.value.text| <= DNS_QNAME_MAX
    decreases steps
  {
    if data[ptr] != 0 && steps > 0 {
      if IsPointer(data, ptr) {
        if Target(data, ptr) < |data| {
          TextFits(data, Target(data, ptr), text, true, steps - 1);
        }
      } else if HasLabel(data, ptr, text) {
        TextFits(data, ptr + 1 + data[ptr], Put(text, LabelAt(data, ptr)), jumped, steps - 1);
      }
    }
  }

  /** get_qname decodes a name that the message spells if and only if the name is not the root, has at most 26 labels
      and pointers, and at most 255 bytes with its dots. */
  lemma DecodesExactly(data: seq<byte>, off: nat, hops: seq<Hop>)
    requires Spells(data, off, hops)
    ensures NameAt(data, off).Some? && NameAt(data, off).value.text == Joined(hops) <==> Holds(hops)
    ensures Holds(hops) ==> NameAt(data, off).value.next == if Compressed(hops) then off + 2 else Past(off, hops)
  {
    if |hops| > 26 {
      TooManyHops(data, off, hops, [], false, 26);
    } else if |Dotted(hops)| > DNS_QNAME_MAX {
      TextFits(data, off, [], false, 26);
    } else {
      WalkSpells(data, off, hops, [], false, 26);
      assert [] + Dotted(hops) == Dotted(hops);
    }
  }

  /** The reported offset is just past the name if and only if the name is uncompressed or starts with the pointer. */
  lemma NextExactly(data: seq<byte>, off: nat, hops: seq<Hop>)
    requires Spells(data, off, hops) && Holds(hops)
    ensures NameAt(data, off).Some?
    ensures NameAt(data, off).value.next == Past(off, hops) <==> !Compressed(hops) || PointerFirst(hops)
  {
    hide NameAt, Spells, Compressed;
    DecodesExactly(data, off, hops);
    SpelledLabels(data, off, hops);
    PastGrows(off, hops);
  }

  lemma {:induction false} SpelledLabels(data: seq<byte>, off: nat, hops: seq<Hop>)
    requires Spells(data, off, hops)
    ensures forall i :: 0 <= i < |hops| && hops[i].Label? ==> |hops[i].bytes| >= 1
    decreases |hops|
  {
    if hops != [] {
      SpelledLabels(data, if hops[0].Label? then off + 1 + |hops[0].bytes| else hops[0].target, hops[1..]);
      assert forall i :: 0 < i < |hops| ==> hops[i] == hops[1..][i - 1];
    }
  }

  lemma {:induction false} PastGrows(off: nat, hops: seq<Hop>)
    requires forall i :: 0 <= i < |hops| && hops[i].Label? ==> |hops[i].bytes| >= 1
    ensures Past(off, hops) >= off + 1
    ensures Compressed(hops) ==> Past(off, hops) >= off + 2
    ensures Compressed(hops) && !PointerFirst(hops) ==> Past(off, hops) > off + 2
    decreases |hops|
  {
    if hops != [] && hops[0].Label? {
      CompressedCons(hops);
      PastGrows(off + 1 + |hops[0].bytes|, hops[1..]);
    }
  }
}
