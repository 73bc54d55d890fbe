/** The server name of a TLS client hello (`parse_sni` in tls.c, section 7.4.1.2 of RFC 5246 and section 3 of
    RFC 6066). */
module TlsSni {
  import opened Serial
  import opened Bytes

  const HANDSHAKE := 22
  const CLIENT_HELLO := 1
  const SERVER_NAME := 0
  const SNI_LENGTH := 255
  const FIRST := 43  // record and message header, version and random

  /** The index has eight bits. */
  function U8(x: nat): byte {
    x % 0x100
  }

  // ----- the specification

  predicate IsClientHello(data: seq<byte>) {
    && |data| >= 6
    && data[0] == HANDSHAKE && data[1] >= 3
    && 5 + Be16(data, 3) == |data|
    && data[5] == CLIENT_HELLO
  }

  /** Past a field at i whose length has one byte, or two; None when its length is not inside the data. */
  function Skip8(data: seq<byte>, i: nat): Option<byte> {
    if i < |data| then Some(U8(i + 1 + data[i])) else None
  }

  function Skip16(data: seq<byte>, i: nat): Option<byte> {
    if i + 1 < |data| then Some(U8(i + 2 + Be16(data, i))) else None
  }

  /** Where the length of the extensions is read: after session id, cipher suites and compression methods. */
  function LengthAt(data: seq<byte>): Option<byte> {
    match Skip8(data, FIRST)
    case None => None
    case Some(suites) =>
      match Skip16(data, suites)
      case None => None
      case Some(compression) => Skip8(data, compression)
  }

  /** The extension data, which must run to the end of the record. */
  function Extensions(data: seq<byte>): Option<seq<byte>> {
    if !IsClientHello(data) then None
    else match LengthAt(data)
      case None => None
      case Some(i) =>
        if i + 1 >= |data| then None
        else
          var length, start := Be16(data, i), U8(i + 2);
          if length == 0 || start + length != |data| then None else Some(data[start..])
  }

  /** The first host name of the server_name extension whose body starts at k. */
  function HostName(e: seq<byte>, k: nat): Option<seq<byte>> {
    if k + 1 >= |e| || k + 2 + Be16(e, k) >= |e| || e[k + 2] != 0 || k + 4 >= |e| then None
    else
      var length := Be16(e, k + 3);
      if k + 5 + length >= |e| || length >= SNI_LENGTH then None
      else Some(e[k + 5..k + 5 + length])
  }

  /** The host name among the extensions from i on. */
  function Search(e: seq<byte>, i: nat): Option<seq<byte>>
    decreases |e| - i
  {
    if i + 1 >= |e| || i + 3 >= |e| || i + 4 + Be16(e, i + 2) > |e| then None
    else if Be16(e, i) == SERVER_NAME then HostName(e, i + 4)
    else Search(e, i + 4 + Be16(e, i + 2))
  }

  function Sni(data: seq<byte>): Option<seq<byte>> {
    match Extensions(data)
    case None => None
    case Some(e) => Search(e, 0)
  }

  // ----- parse_sni

  /** On every input: terminates, stays in bounds, and finds the name that Sni specifies. */
  method ParseSni(data: seq<byte>) returns (name: Option<seq<byte>>)
    requires |data| <= 0xFFFF
    ensures name == Sni(data)
  {
    hide Be16, U8, Search;
    if |data| < 6 || data[0] != HANDSHAKE || data[1] < 3 || 5 + Be16(data, 3) != |data| || data[5] != CLIENT_HELLO {
      return None;
    }
    var index: byte := FIRST;
    if index >= |data| {
      return None;
    }
    index := U8(index + 1 + data[index]);
    if index + 1 >= |data| {
      return None;
    }
    index := U8(index + 2 + Be16(data, index));
    if index >= |data| {
      return None;
    }
    index := U8(index + 1 + data[index]);
    if index + 1 >= |data| {
      return None;
    }
    var length := Be16(data, index);
    index := U8(index + 2);
    if length == 0 || index + length != |data| {
      return None;
    }
    name := WalkExtensions(data[index..]);
  }

  method WalkExtensions(e: seq<byte>) returns (name: Option<seq<byte>>)
    ensures name == Search(e, 0)
  {
    hide Be16;
    var i := 0;
    while i < |e|
      invariant 0 <= i <= |e|
      invariant Search(e, 0) == Search(e, i)
    {
      if i + 1 >= |e| {
        return None;
      }
      var kind := Be16(e, i);
      if i + 3 >= |e| {
        return None;
      }
      var length := Be16(e, i + 2);
      i := i + 4;
      if i + length > |e| {
        return None;
      }
      if kind == SERVER_NAME {
        if i + 1 >= |e| || i + 2 + Be16(e, i) >= |e| || e[i + 2] != 0 || i + 4 >= |e| {
          return None;
        }
        var n := Be16(e, i + 3);
        if i + 5 + n >= |e| || n >= SNI_LENGTH {
          return None;
        }
        return Some(e[i + 5..i + 5 + n]);
      }
      i := i + length;
    }
    return None;
  }

  // ----- the encoder

  datatype Extension = Extension(kind: u16, body: seq<byte>)

  datatype Hello = Hello(major: byte, minor: byte, version: seq<byte>, random: seq<byte>, session: seq<byte>,
                         suites: seq<byte>, compression: seq<byte>,
                         before: seq<Extension>, name: seq<byte>, after: seq<Extension>)

  predicate Fits(x: Extension) {
    |x.body| < 0x1_0000
  }

  function EncodeExtension(x: Extension): seq<byte>
    requires Fits(x)
  {
    N16(x.kind) + (N16(|x.body|) + x.body)
  }

  function EncodeExtensions(xs: seq<Extension>): seq<byte>
    requires forall i :: 0 <= i < |xs| ==> Fits(xs[i])
  {
    if xs == [] then [] else EncodeExtension(xs[0]) + EncodeExtensions(xs[1..])
  }

  /** The body of a server_name extension with one host name. */
  function NameBody(name: seq<byte>): seq<byte>
    requires |name| + 3 < 0x1_0000
  {
    N16(|name| + 3) + ([0] + (N16(|name|) + name))
  }

  predicate ValidHello(h: Hello) {
    && h.major >= 3 && |h.version| == 2 && |h.random| == 32
    && |h.session| < 0x100 && |h.suites| < 0x1_0000 && |h.compression| < 0x100
    && |h.name| + 5 < 0x1_0000
    && (forall i :: 0 <= i < |h.before| ==> Fits(h.before[i]) && h.before[i].kind != SERVER_NAME)
    && (forall i :: 0 <= i < |h.after| ==> Fits(h.after[i]))
  }

  function ExtensionData(h: Hello): seq<byte>
    requires ValidHello(h)
  {
    EncodeExtensions(h.before) + (EncodeExtension(Extension(SERVER_NAME, NameBody(h.name))) + EncodeExtensions(h.after))
  }

  /** From the session id to the compression methods. */
  function Middle(h: Hello): seq<byte>
    requires ValidHello(h)
  {
    ([|h.session|] + h.session) + ((N16(|h.suites|) + h.suites) + ([|h.compression|] + h.compression))
  }

  /** Everything before the extension data. */
  function PreludeLength(h: Hello): nat
    requires ValidHello(h)
  {
    FIRST + |Middle(h)| + 2
  }

  function Length24(n: nat): seq<byte> {
    [n / 0x1_0000 % 0x100, n / 0x100 % 0x100, n % 0x100]
  }

  predicate FitsRecord(h: Hello) {
    ValidHello(h) && PreludeLength(h) + |ExtensionData(h)| <= 0xFFFF
  }

  function Encode(h: Hello): seq<byte>
    requires FitsRecord(h)
  {
    var rest := Middle(h) + (N16(|ExtensionData(h)|) + ExtensionData(h));
    ([HANDSHAKE, h.major, h.minor] + N16(FIRST - 5 + |rest|) + [CLIENT_HELLO] + Length24(34 + |rest|) + h.version + h.random)
    + rest
  }

  // ----- searching encoded extensions

  lemma {:induction false} SearchSkips(e: seq<byte>, i: nat, xs: seq<Extension>)
    requires forall j :: 0 <= j < |xs| ==> Fits(xs[j]) && xs[j].kind != SERVER_NAME
    requires Has(e, i, EncodeExtensions(xs))
    ensures Search(e, i) == Search(e, i + |EncodeExtensions(xs)|)
    decreases |xs|
  {
    hide Has, Be16, EncodeExtension, HostName;
    if xs != [] {
      var x, rest := xs[0], EncodeExtensions(xs[1..]);
      HasConcat(e, i, EncodeExtension(x), rest);
      ExtensionRead(e, i, x);
      SearchSkips(e, i + |EncodeExtension(x)|, xs[1..]);
    }
  }

  lemma ExtensionRead(e: seq<byte>, i: nat, x: Extension)
    requires Fits(x) && Has(e, i, EncodeExtension(x))
    ensures |EncodeExtension(x)| == 4 + |x.body| && i + 4 + |x.body| <= |e|
    ensures Be16(e, i) == x.kind && Be16(e, i + 2) == |x.body| && Has(e, i + 4, x.body)
  {
    hide Has, Be16;
    HasInside(e, i, EncodeExtension(x));
    HasConcat(e, i, N16(x.kind), N16(|x.body|) + x.body);
    HasConcat(e, i + 2, N16(|x.body|), x.body);
    ReadN16(e, i, x.kind);
    ReadN16(e, i + 2, |x.body|);
  }

  /** The host name is found exactly when something follows its extension and it is short enough. */
  lemma HostNameRead(e: seq<byte>, k: nat, name: seq<byte>)
    requires |name| + 5 < 0x1_0000 && Has(e, k, NameBody(name))
    ensures HostName(e, k) == if k + |NameBody(name)| < |e| && |name| < SNI_LENGTH then Some(name) else None
  {
    HasInside(e, k, NameBody(name));
    HasConcat(e, k, N16(|name| + 3), [0] + (N16(|name|) + name));
    HasConcat(e, k + 2, [0], N16(|name|) + name);
    assert e[k + 2..k + 3][0] == e[k + 2] == 0;
    HasConcat(e, k + 3, N16(|name|), name);
    ReadN16(e, k, |name| + 3);
    ReadN16(e, k + 3, |name|);
    assert |NameBody(name)| == |name| + 5;
  }

  lemma SearchFinds(h: Hello)
    requires ValidHello(h)
    ensures var e := ExtensionData(h);
      Search(e, 0) == if h.after != [] && |h.name| < SNI_LENGTH then Some(h.name) else None
  {
    hide Has, EncodeExtensions, NameBody, HostName, Be16;
    var e := ExtensionData(h);
    var x := Extension(SERVER_NAME, NameBody(h.name));
    NameBodyLength(h.name);
    var a, b, c := EncodeExtensions(h.before), EncodeExtension(x), EncodeExtensions(h.after);
    HasAll(e);
    HasConcat(e, 0, a, b + c);
    HasConcat(e, |a|, b, c);
    SearchSkips(e, 0, h.before);
    ExtensionRead(e, |a|, x);
    HostNameRead(e, |a| + 4, h.name);
    AfterEmpty(h.after);
  }

  lemma NameBodyLength(name: seq<byte>)
    requires |name| + 3 < 0x1_0000
    ensures |NameBody(name)| == |name| + 5
  {
  }

  lemma HasAll(e: seq<byte>)
    ensures Has(e, 0, e)
  {
  }

  lemma AfterEmpty(xs: seq<Extension>)
    requires forall i :: 0 <= i < |xs| ==> Fits(xs[i])
    ensures EncodeExtensions(xs) == [] <==> xs == []
  {
    if xs != [] {
      assert |EncodeExtension(xs[0])| >= 4;
    }
  }

  // ----- reading the prelude

  lemma Skip8Read(data: seq<byte>, i: nat, b: seq<byte>)
    requires |b| < 0x100 && Has(data, i, [|b|] + b)
    ensures Skip8(data, i) == Some(U8(i + 1 + |b|))
  {
    assert data[i..i + |[|b|] + b|][0] == data[i] == |b|;
  }

  lemma Skip16Read(data: seq<byte>, i: nat, b: seq<byte>)
    requires |b| < 0x1_0000 && Has(data, i, N16(|b|) + b)
    ensures Skip16(data, i) == Some(U8(i + 2 + |b|))
  {
    HasInside(data, i, N16(|b|) + b);
    HasConcat(data, i, N16(|b|), b);
    ReadN16(data, i, |b|);
  }

  lemma EncodeParts(h: Hello)
    requires FitsRecord(h)
    ensures var data, m, e := Encode(h), Middle(h), ExtensionData(h);
      && IsClientHello(data) && |data| == PreludeLength(h) + |e|
      && Has(data, FIRST, m) && Has(data, FIRST + |m|, N16(|e|)) && Has(data, FIRST + |m| + 2, e)
  {
    hide Middle, ExtensionData;
    var m, e := Middle(h), ExtensionData(h);
    var rest := m + (N16(|e|) + e);
    var data := Encode(h);
    var head := [HANDSHAKE, h.major, h.minor] + N16(FIRST - 5 + |rest|) + [CLIENT_HELLO] + Length24(34 + |rest|) + h.version + h.random;
    assert |head| == FIRST && data == head + rest;
    HasAll(data);
    HasConcat(data, 0, head, rest);
    HasConcat(data, FIRST, m, N16(|e|) + e);
    HasConcat(data, FIRST + |m|, N16(|e|), e);
    assert data[0] == head[0] == HANDSHAKE && data[1] == head[1] == h.major && data[5] == head[5] == CLIENT_HELLO;
    assert data[3] == head[3] == (FIRST - 5 + |rest|) / 0x100 && data[4] == head[4] == (FIRST - 5 + |rest|) % 0x100;
  }

  /** The index reaches the extension length, as long as it has not wrapped before. */
  lemma LengthAtRead(h: Hello)
    requires FitsRecord(h) && FIRST + |Middle(h)| <= 0xFF
    ensures LengthAt(Encode(h)) == Some(FIRST + |Middle(h)|)
  {
    hide Has, Encode, ExtensionData, Skip8, Skip16, U8, IsClientHello;
    EncodeParts(h);
    var data := Encode(h);
    var s, c, z := [|h.session|] + h.session, N16(|h.suites|) + h.suites, [|h.compression|] + h.compression;
    assert Middle(h) == s + (c + z);
    hide Middle;
    HasConcat(data, FIRST, s, c + z);
    HasConcat(data, FIRST + |s|, c, z);
    Skip8Read(data, FIRST, h.session);
    Skip16Read(data, FIRST + |s|, h.suites);
    Skip8Read(data, FIRST + |s| + |c|, h.compression);
    U8Id(FIRST + |s|);
    U8Id(FIRST + |s| + |c|);
    U8Id(FIRST + |s| + |c| + |z|);
  }

  lemma U8Id(x: nat)
    requires x < 0x100
    ensures U8(x) == x
  {
  }

  /** parse_sni inverts the encoder: when all that precedes the extension data fits in 255 bytes, it finds exactly the
      encoded name if and only if another extension follows it and it has fewer than 255 bytes. */
  lemma FindsName(h: Hello)
    requires FitsRecord(h) && PreludeLength(h) <= 0xFF
    ensures Sni(Encode(h)) == if h.after != [] && |h.name| < SNI_LENGTH then Some(h.name) else None
  {
    hide Middle, Encode, ExtensionData, LengthAt, IsClientHello, Search, Be16;
    EncodeParts(h);
    LengthAtRead(h);
    SearchFinds(h);
    var data, m, e := Encode(h), Middle(h), ExtensionData(h);
    ReadN16(data, FIRST + |m|, |e|);
    DataNotEmpty(h);
    assert data[FIRST + |m| + 2..] == e;
  }

  lemma DataNotEmpty(h: Hello)
    requires ValidHello(h)
    ensures |ExtensionData(h)| > 0
  {
    NameBodyLength(h.name);
    assert |EncodeExtension(Extension(SERVER_NAME, NameBody(h.name)))| >= 4;
  }

  /** Why 255 bytes: when the index wraps on its last step, no name is found at all. */
  lemma WrappedIndexFindsNothing(h: Hello)
    requires FitsRecord(h) && 0x100 <= PreludeLength(h) <= 0x101
    ensures Sni(Encode(h)) == None
  {
    hide Middle, Encode, ExtensionData, LengthAt, IsClientHello, Search, Be16;
    EncodeParts(h);
    LengthAtRead(h);
    ReadN16(Encode(h), FIRST + |Middle(h)|, |ExtensionData(h)|);
  }

  // ----- the bytes of the encoding

  /** A handshake record of type 22 with a ClientHello of type 1. */
  lemma HelloBytes(h: Hello)
    requires FitsRecord(h)
    ensures var data := Encode(h);
      |data| > 43 && data[0] == 22 && data[1] == h.major && data[2] == h.minor && Be16(data, 3) == |data| - 5 && data[5] == 1
  {
    EncodeParts(h);
    var data := Encode(h);
    var rest := Middle(h) + (N16(|ExtensionData(h)|) + ExtensionData(h));
    assert data[3] == N16(38 + |rest|)[0] && data[4] == N16(38 + |rest|)[1];
  }

  /** The server_name extension has type 0 and holds a list of one name of type 0. */
  lemma NameExtensionBytes(name: seq<byte>)
    requires |name| + 5 < 0x1_0000
    ensures EncodeExtension(Extension(SERVER_NAME, NameBody(name))) ==
            [0, 0] + N16(|name| + 5) + N16(|name| + 3) + [0] + N16(|name|) + name
  {
    NameBodyLength(name);
    assert N16(0) == [0, 0];
    var n, m, k := N16(|name| + 5), N16(|name| + 3), N16(|name|);
    assert [0, 0] + (n + (m + ([0] + (k + name)))) == [0, 0] + n + m + [0] + k + name;
  }

  /** Nothing but a complete record of type 22, of version 3 at least, with a message of type 1, gives a name. */
  lemma OnlyHellos(data: seq<byte>)
    requires |data| < 6 || data[0] != 22 || data[1] < 3 || data[5] != 1 || Be16(data, 3) != |data| - 5
    ensures Sni(data) == None
  {
  }

  /** A server_name extension that begins with another type of name than 0 gives no name. */
  lemma OtherNameType(e: seq<byte>, i: nat)
    requires i + 7 <= |e| && Be16(e, i) == 0 && e[i + 6] != 0
    ensures Search(e, i) == None
  {
    hide Be16;
  }
}
