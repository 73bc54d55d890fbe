/** DNS responses (`parse_dns_response` in dns.c, sections 4.1.1 to 4.1.3 of RFC 1035). */
module DnsMessage {
  import opened Serial
  import opened Bytes
  import opened DnsName

  const HEADER := 12
  const CLASS_IN := 1
  const TYPE_A := 1
  const TYPE_AAAA := 28

  /** What dns_resolved is told: question name, owner name, address and time to live. */
  datatype Report = Report(qname: seq<byte>, name: seq<byte>, address: seq<byte>, ttl: u32)

  // ----- reading fields

  /** Names are C strings: they end at the first zero byte. */
  function CString(s: seq<byte>): seq<byte> {
    if s == [] || s[0] == 0 then [] else [s[0]] + CString(s[1..])
  }

  /** A standard response with at least one question and one answer. */
  predicate IsResponse(data: seq<byte>) {
    && |data| >= HEADER + 1
    && data[2] >= 0x80 && data[2] / 8 % 16 == 0
    && Be16(data, 4) > 0 && Be16(data, 6) > 0
  }

  // ----- the specification

  /** The fixed part of a record after its owner name, and the offset past the record. */
  datatype Fields = Fields(rtype: u16, rclass: u16, ttl: u32, rdata: nat, next: nat)

  function FieldsAt(data: seq<byte>, off: nat): (f: Option<Fields>)
    ensures f.Some? ==> f.value.rdata == off + 10 && off + 10 <= f.value.next <= |data|
  {
    if off + 10 > |data| then None
    else
      var next := off + 10 + Be16(data, off + 8);
      if next > |data| then None
      else Some(Fields(Be16(data, off), Be16(data, off + 2), Be32(data, off + 4), off + 10, next))
  }

  predicate IsAddress(f: Fields) {
    f.rclass == CLASS_IN && (f.rtype == TYPE_A || f.rtype == TYPE_AAAA)
  }

  /** The address bytes, read at the record data whatever its length says. */
  function AddressAt(data: seq<byte>, f: Fields): Option<seq<byte>> {
    var n := if f.rtype == TYPE_A then 4 else 16;
    if f.rdata + n <= |data| then Some(data[f.rdata..f.rdata + n]) else None
  }

  /** One record: where the next one starts, and what is reported. */
  datatype Record = Record(next: nat, reports: seq<Report>)

  function RecordAt(data: seq<byte>, off: nat, qname: seq<byte>): (r: Option<Record>)
    ensures r.Some? ==> r.value.next <= |data|
  {
    match NameAt(data, off)
    case None => None
    case Some(name) =>
      match FieldsAt(data, name.next)
      case None => None
      case Some(f) =>
        if !IsAddress(f) then Some(Record(f.next, []))
        else match AddressAt(data, f)
          case None => None
          case Some(address) => Some(Record(f.next, [Report(qname, CString(name.text), address, f.ttl)]))
  }

  /** The reports on count records from off on, up to the first one that is not in order. */
  function Answers(data: seq<byte>, off: nat, count: nat, qname: seq<byte>): seq<Report>
    decreases count
  {
    if count == 0 then []
    else match RecordAt(data, off, qname)
      case None => []
      case Some(r) => r.reports + Answers(data, r.next, count - 1, qname)
  }

  function Response(data: seq<byte>): seq<Report> {
    if !IsResponse(data) then []
    else match NameAt(data, HEADER)
      case None => []
      case Some(q) =>
        if q.next + 4 > |data| then []
        else Answers(data, q.next + 4, Be16(data, 6), CString(q.text))
  }

  // ----- parse_dns_response

  /** The string that a C buffer holds. */
  method ReadString(buffer: array<byte>, ghost text: seq<byte>) returns (s: seq<byte>)
    requires |text| < buffer.Length && buffer[..|text|] == text && buffer[|text|] == 0
    ensures s == CString(text)
  {
    var i := 0;
    while buffer[i] != 0
      invariant 0 <= i <= |text|
      invariant forall j :: 0 <= j < i ==> text[j] == buffer[j] != 0
      invariant CString(text) == text[..i] + CString(text[i..])
      decreases |text| - i
    {
      assert text[i] == buffer[i];
      assert text[i..][1..] == text[i + 1..];
      assert text[..i] + [text[i]] == text[..i + 1];
      i := i + 1;
    }
    s := buffer[..i];
    assert i < |text| ==> text[i] == buffer[i];
    assert s == text[..i] && CString(text[i..]) == [];
  }

  method ParseRecord(data: seq<byte>, off: u16, qname: seq<byte>, buffer: array<byte>) returns (r: Option<Record>)
    requires |data| <= 0xFFFF && buffer.Length == DNS_QNAME_MAX + 1
    modifies buffer
    ensures r == RecordAt(data, off, qname)
  {
    hide NameAt, CString, Be16, Be32;
    var at := GetQname(data, off, buffer);
    if at == -1 || at + 10 > |data| {
      return None;
    }
    var name := ReadString(buffer, NameAt(data, off).value.text);
    var rtype, rclass := Be16(data, at), Be16(data, at + 2);
    var ttl, rdlength := Be32(data, at + 4), Be16(data, at + 8);
    at := at + 10;
    if at + rdlength > |data| {
      return None;
    }
    var reports: seq<Report> := [];
    if rclass == CLASS_IN && (rtype == TYPE_A || rtype == TYPE_AAAA) {
      var size := if rtype == TYPE_A then 4 else 16;
      if at + size > |data| {
        return None;
      }
      reports := [Report(qname, name, data[at..at + size], ttl)];
    }
    return Some(Record(at + rdlength, reports));
  }

  method ParseDnsResponse(data: seq<byte>) returns (reports: seq<Report>)
    requires |data| <= 0xFFFF
    ensures reports == Response(data)
  {
    reports := [];
    if !IsResponse(data) {
      return;
    }
    var acount := Be16(data, 6);
    hide NameAt, CString, Be16, RecordAt, IsResponse;
    var buffer := new byte[DNS_QNAME_MAX + 1];
    var off := GetQname(data, HEADER, buffer);
    if off == -1 || off + 4 > |data| {
      return;
    }
    var qname := ReadString(buffer, NameAt(data, HEADER).value.text);
    reports := ParseAnswers(data, off + 4, acount, qname, buffer);
  }

  method ParseAnswers(data: seq<byte>, start: nat, acount: nat, qname: seq<byte>, buffer: array<byte>)
    returns (reports: seq<Report>)
    requires start <= |data| <= 0xFFFF && buffer.Length == DNS_QNAME_MAX + 1
    modifies buffer
    ensures reports == Answers(data, start, acount, qname)
  {
    hide RecordAt;
    reports := [];
    var off := start;
    for a := 0 to acount
      invariant 0 <= off <= |data|
      invariant Answers(data, start, acount, qname) == reports + Answers(data, off, acount - a, qname)
    {
      var r := ParseRecord(data, off, qname, buffer);
      ghost var before := reports;
      if r == None {
        assert reports + [] == reports;
        return;
      }
      reports := reports + r.value.reports;
      off := r.value.next;
      assert before + (r.value.reports + Answers(data, off, acount - a - 1, qname)) ==
             reports + Answers(data, off, acount - a - 1, qname);
    }
    assert reports + [] == reports;
  }

  // ----- every message

  /** A name that is found ends inside the message, at least two bytes on. */
  lemma {:induction false} WalkAdvances(data: seq<byte>, off: nat, ptr: nat, text: seq<byte>, jumped: bool, steps: nat)
    requires off <= |data| && ptr < |data|
    requires jumped || off <= ptr
    requires jumped ==> off + 2 <= |data|
    requires text != [] && !jumped ==> off + 2 <= ptr
    ensures var w := Walk(data, ptr, text, jumped, steps);
      w.Some? && w.value.text != [] ==>
        off + 2 <= (if w.value.jumped then off + 2 else w.value.ptr + 1) <= |data|
    decreases steps
  {
    hide Walk, Put, LabelAt, Target;
    WalkOnce(data, ptr, text, jumped, steps);
    if data[ptr] != 0 && steps > 0 {
      if IsPointer(data, ptr) {
        if Target(data, ptr) < |data| {
          WalkAdvances(data, off, Target(data, ptr), text, true, steps - 1);
        }
      } else if HasLabel(data, ptr, text) {
        WalkAdvances(data, off, ptr + 1 + data[ptr], Put(text, LabelAt(data, ptr)), jumped, steps - 1);
      }
    }
  }

  lemma NameAdvances(data: seq<byte>, off: nat)
    ensures NameAt(data, off).Some? ==> off + 2 <= NameAt(data, off).value.next <= |data|
  {
    if off < |data| {
      WalkAdvances(data, off, off, [], false, 26);
    }
  }

  /** On any message, each record walked over takes at least 12 bytes and ends inside the message. */
  lemma RecordAdvances(data: seq<byte>, off: nat, qname: seq<byte>)
    ensures RecordAt(data, off, qname).Some? ==>
              && off + 12 <= RecordAt(data, off, qname).value.next <= |data|
              && |RecordAt(data, off, qname).value.reports| <= 1
  {
    hide NameAt, CString;
    NameAdvances(data, off);
  }

  /** So a message of n bytes never gives more than n / 12 reports. */
  lemma {:induction false} ReportsBounded(data: seq<byte>, off: nat, count: nat, qname: seq<byte>)
    requires off <= |data|
    ensures 12 * |Answers(data, off, count, qname)| <= |data| - off
    decreases count
  {
    hide RecordAt;
    if count > 0 && RecordAt(data, off, qname).Some? {
      RecordAdvances(data, off, qname);
      ReportsBounded(data, RecordAt(data, off, qname).value.next, count - 1, qname);
    }
  }

  // ----- encoded responses

  /** A resource record, its owner name given by the hops that spell it. */
  datatype Rr = Rr(owner: seq<Hop>, rtype: u16, rclass: u16, ttl: u32, rdata: seq<byte>)

  /** get_qname holds the name and reports the offset past it. */
  predicate Readable(hops: seq<Hop>) {
    Holds(hops) && (!Compressed(hops) || PointerFirst(hops))
  }

  predicate IsAddressRecord(rr: Rr) {
    rr.rclass == CLASS_IN && (rr.rtype == TYPE_A || rr.rtype == TYPE_AAAA)
  }

  /** An address record carries an address of its family. */
  predicate Proper(rr: Rr) {
    && Readable(rr.owner) && |rr.rdata| < 0x1_0000
    && (IsAddressRecord(rr) ==> |rr.rdata| == if rr.rtype == TYPE_A then 4 else 16)
  }

  function FieldBytes(rr: Rr): seq<byte>
    requires |rr.rdata| < 0x1_0000
  {
    N16(rr.rtype) + (N16(rr.rclass) + (N32(rr.ttl) + (N16(|rr.rdata|) + rr.rdata)))
  }

  /** From off on, the message holds exactly these records. */
  predicate RecordsAt(data: seq<byte>, off: nat, rrs: seq<Rr>)
    decreases |rrs|
  {
    rrs != [] ==>
      var rr := rrs[0];
      && Proper(rr) && Spells(data, off, rr.owner)
      && var at := Past(off, rr.owner);
         && Has(data, at, FieldBytes(rr))
         && RecordsAt(data, at + |FieldBytes(rr)|, rrs[1..])
  }

  /** One report for each address record of class IN, in order. */
  function Expected(rrs: seq<Rr>, qname: seq<byte>): seq<Report> {
    if rrs == [] then []
    else
      var rr := rrs[0];
      (if IsAddressRecord(rr) then [Report(qname, CString(Joined(rr.owner)), rr.rdata, rr.ttl)] else [])
      + Expected(rrs[1..], qname)
  }

  lemma FieldsRead(data: seq<byte>, at: nat, rr: Rr)
    requires |rr.rdata| < 0x1_0000 && Has(data, at, FieldBytes(rr))
    ensures FieldsAt(data, at) ==
            Some(Fields(rr.rtype, rr.rclass, rr.ttl, at + 10, at + |FieldBytes(rr)|))
    ensures |FieldBytes(rr)| == 10 + |rr.rdata| && Has(data, at + 10, rr.rdata)
  {
    hide Has, Be16, Be32;
    HasInside(data, at, FieldBytes(rr));
    HasConcat(data, at, N16(rr.rtype), N16(rr.rclass) + (N32(rr.ttl) + (N16(|rr.rdata|) + rr.rdata)));
    HasConcat(data, at + 2, N16(rr.rclass), N32(rr.ttl) + (N16(|rr.rdata|) + rr.rdata));
    HasConcat(data, at + 4, N32(rr.ttl), N16(|rr.rdata|) + rr.rdata);
    HasConcat(data, at + 8, N16(|rr.rdata|), rr.rdata);
    ReadN16(data, at, rr.rtype);
    ReadN16(data, at + 2, rr.rclass);
    ReadN32(data, at + 4, rr.ttl);
    ReadN16(data, at + 8, |rr.rdata|);
  }

  lemma {:induction false} RecordRead(data: seq<byte>, off: nat, rr: Rr, qname: seq<byte>)
    requires Proper(rr) && Spells(data, off, rr.owner)
    requires Has(data, Past(off, rr.owner), FieldBytes(rr))
    ensures RecordAt(data, off, qname) ==
            Some(Record(Past(off, rr.owner) + |FieldBytes(rr)|, Expected([rr], qname)))
  {
    hide NameAt, Spells, FieldsAt, FieldBytes, CString, Compressed, Joined, Past;
    DecodesExactly(data, off, rr.owner);
    NextExactly(data, off, rr.owner);
    FieldsRead(data, Past(off, rr.owner), rr);
    assert [rr][1..] == [] && Expected([], qname) == [];
    var r := Report(qname, CString(Joined(rr.owner)), rr.rdata, rr.ttl);
    assert [r] + [] == [r];
    var name := NameAt(data, off).value;
    assert name == Name(Joined(rr.owner), Past(off, rr.owner));
    var f := FieldsAt(data, name.next).value;
    assert IsAddress(f) == IsAddressRecord(rr);
    assert IsAddress(f) ==> AddressAt(data, f) == Some(rr.rdata);
    assert Expected([rr], qname) == if IsAddressRecord(rr) then [r] else [];
  }

  lemma {:induction false} AnswersRead(data: seq<byte>, off: nat, rrs: seq<Rr>, qname: seq<byte>)
    requires RecordsAt(data, off, rrs)
    ensures Answers(data, off, |rrs|, qname) == Expected(rrs, qname)
    decreases |rrs|
  {
    hide RecordAt, Spells, FieldBytes, CString, Joined, Past, Readable, Has;
    if rrs != [] {
      var rr := rrs[0];
      RecordRead(data, off, rr, qname);
      AnswersRead(data, Past(off, rr.owner) + |FieldBytes(rr)|, rrs[1..], qname);
      assert [rr][1..] == [];
    }
  }

  /** A response with one question: its header, the question's name and type, and the records. */
  predicate Describes(data: seq<byte>, question: seq<Hop>, rrs: seq<Rr>) {
    && IsResponse(data) && Be16(data, 4) == 1 && Be16(data, 6) == |rrs|
    && Spells(data, HEADER, question) && Readable(question)
    && Past(HEADER, question) + 4 <= |data|
    && RecordsAt(data, Past(HEADER, question) + 4, rrs)
  }

  /** Each class-IN A or AAAA record of the response is reported once, in order, with the question's name. */
  lemma ReportsEveryAddress(data: seq<byte>, question: seq<Hop>, rrs: seq<Rr>)
    requires Describes(data, question, rrs)
    ensures Response(data) == Expected(rrs, CString(Joined(question)))
  {
    hide NameAt, Spells, CString, Joined, Past, RecordsAt, Compressed, Answers, Expected, Be16;
    DecodesExactly(data, HEADER, question);
    NextExactly(data, HEADER, question);
    AnswersRead(data, Past(HEADER, question) + 4, rrs, CString(Joined(question)));
  }

  /** Only answers of class 1 and type 1 or 28 are addresses. */
  lemma AddressTypes(rr: Rr)
    ensures IsAddressRecord(rr) <==> rr.rclass == 1 && rr.rtype in {1, 28}
  {
  }

  /** A query, another kind of message than a standard query, or one without question or answer gives no reports. */
  lemma OnlyResponses(data: seq<byte>)
    requires |data| > 12
    requires data[2] < 128 || (data[2] / 8) % 16 != 0 || data[4..6] == [0, 0] || data[6..8] == [0, 0]
    ensures Response(data) == []
  {
    assert data[4..6] == [0, 0] ==> data[4] == data[4..6][0] && data[5] == data[4..6][1];
    assert data[6..8] == [0, 0] ==> data[6] == data[6..8][0] && data[7] == data[6..8][1];
  }
}
