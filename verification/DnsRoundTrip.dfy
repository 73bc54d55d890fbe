/** Encoding a DNS response and parsing it again gives back its addresses. */
module DnsRoundTrip {
  import opened Serial
  import opened Bytes
  import opened DnsName
  import opened DnsMessage

  type Labels = seq<seq<byte>>

  /** An owner name written out, or a pointer to the question's name. */
  datatype Owner = Plain(labels: Labels) | OfQuestion

  datatype Answer = Answer(owner: Owner, rtype: u16, rclass: u16, ttl: u32, rdata: seq<byte>)

  // ----- the encoder

  predicate ValidLabels(labels: Labels) {
    forall i :: 0 <= i < |labels| ==> 1 <= |labels[i]| <= 63
  }

  function EncodeName(labels: Labels): seq<byte>
    requires ValidLabels(labels)
  {
    if labels == [] then [0] else [|labels[0]|] + labels[0] + EncodeName(labels[1..])
  }

  predicate ValidOwner(o: Owner) {
    o.Plain? ==> ValidLabels(o.labels)
  }

  function EncodeOwner(o: Owner): seq<byte>
    requires ValidOwner(o)
  {
    if o.Plain? then EncodeName(o.labels) else [0xC0, HEADER]
  }

  function Hops(labels: Labels): seq<Hop> {
    if labels == [] then [] else [Label(labels[0])] + Hops(labels[1..])
  }

  function OwnerHops(o: Owner, question: Labels): seq<Hop> {
    if o.Plain? then Hops(o.labels) else [Pointer(HEADER)] + Hops(question)
  }

  function RrOf(a: Answer, question: Labels): Rr {
    Rr(OwnerHops(a.owner, question), a.rtype, a.rclass, a.ttl, a.rdata)
  }

  function Rrs(answers: seq<Answer>, question: Labels): seq<Rr> {
    if answers == [] then [] else [RrOf(answers[0], question)] + Rrs(answers[1..], question)
  }

  predicate ValidAnswers(answers: seq<Answer>, question: Labels) {
    forall i :: 0 <= i < |answers| ==> ValidOwner(answers[i].owner) && Proper(RrOf(answers[i], question))
  }

  function EncodeAnswers(answers: seq<Answer>, question: Labels): seq<byte>
    requires ValidAnswers(answers, question)
  {
    if answers == [] then []
    else EncodeOwner(answers[0].owner) + (FieldBytes(RrOf(answers[0], question)) + EncodeAnswers(answers[1..], question))
  }

  function EncodeHeader(id: u16, rcode: byte, answers: u16): seq<byte> {
    N16(id) + [0x81, rcode] + N16(1) + N16(answers) + N16(0) + N16(0)
  }

  function Encode(id: u16, rcode: byte, question: Labels, qtype: u16, qclass: u16, answers: seq<Answer>): seq<byte>
    requires ValidLabels(question) && ValidAnswers(answers, question) && |answers| < 0x1_0000
  {
    EncodeHeader(id, rcode, |answers|) +
    (EncodeName(question) + ((N16(qtype) + N16(qclass)) + EncodeAnswers(answers, question)))
  }

  // ----- what was written can be read

  lemma {:induction false} PlainIsNotCompressed(labels: Labels)
    ensures !Compressed(Hops(labels))
  {
    if labels != [] {
      PlainIsNotCompressed(labels[1..]);
      CompressedCons(Hops(labels));
      assert Hops(labels)[1..] == Hops(labels[1..]);
    }
  }

  lemma {:induction false} EncodedNameSpells(data: seq<byte>, off: nat, labels: Labels)
    requires ValidLabels(labels) && Has(data, off, EncodeName(labels))
    ensures Spells(data, off, Hops(labels))
    ensures Past(off, Hops(labels)) == off + |EncodeName(labels)|
    decreases |labels|
  {
    if labels == [] {
      RootSpells(data, off);
    } else {
      hide Has, Spells, Past, EncodeName;
      var b, rest := labels[0], EncodeName(labels[1..]);
      NameUnfolds(labels);
      HasConcat(data, off, [|b|], b + rest);
      HasConcat(data, off + 1, b, rest);
      EncodedNameSpells(data, off + 1 + |b|, labels[1..]);
      NameNotEmpty(labels[1..]);
      HasInside(data, off + 1 + |b|, rest);
      LabelSpells(data, off, b, Hops(labels[1..]));
    }
  }

  lemma RootSpells(data: seq<byte>, off: nat)
    requires Has(data, off, EncodeName([]))
    ensures Spells(data, off, []) && Past(off, []) == off + |EncodeName([])|
  {
    assert data[off..off + 1][0] == 0;
  }

  lemma NameUnfolds(labels: Labels)
    requires ValidLabels(labels) && labels != []
    ensures EncodeName(labels) == [|labels[0]|] + (labels[0] + EncodeName(labels[1..]))
  {
    hide Has;
    assert [|labels[0]|] + labels[0] + EncodeName(labels[1..]) == [|labels[0]|] + (labels[0] + EncodeName(labels[1..]));
  }

  lemma LabelSpells(data: seq<byte>, off: nat, b: seq<byte>, rest: seq<Hop>)
    requires 1 <= |b| <= 63 && off + 1 + |b| < |data|
    requires Has(data, off, [|b|]) && Has(data, off + 1, b) && Spells(data, off + 1 + |b|, rest)
    ensures Spells(data, off, [Label(b)] + rest)
    ensures Past(off, [Label(b)] + rest) == Past(off + 1 + |b|, rest)
  {
    assert data[off..off + 1][0] == |b|;
    assert ([Label(b)] + rest)[1..] == rest;
  }

  lemma NameNotEmpty(labels: Labels)
    requires ValidLabels(labels)
    ensures |EncodeName(labels)| >= 1
  {
  }

  lemma OwnerSpells(data: seq<byte>, off: nat, o: Owner, question: Labels)
    requires ValidOwner(o) && Has(data, off, EncodeOwner(o))
    requires Spells(data, HEADER, Hops(question))
    ensures Spells(data, off, OwnerHops(o, question))
    ensures Past(off, OwnerHops(o, question)) == off + |EncodeOwner(o)|
  {
    if o.Plain? {
      EncodedNameSpells(data, off, o.labels);
    } else {
      assert data[off..off + 2][0] == 0xC0 && data[off..off + 2][1] == HEADER;
      assert OwnerHops(o, question)[1..] == Hops(question);
    }
  }

  lemma {:induction false} EncodedAnswers(data: seq<byte>, off: nat, answers: seq<Answer>, question: Labels)
    requires ValidAnswers(answers, question) && Has(data, off, EncodeAnswers(answers, question))
    requires Spells(data, HEADER, Hops(question))
    ensures RecordsAt(data, off, Rrs(answers, question)) && |Rrs(answers, question)| == |answers|
    decreases |answers|
  {
    hide Spells, Has, FieldBytes, Past, Readable, EncodeOwner, OwnerHops, Hops;
    if answers != [] {
      var a := answers[0];
      var rr := RrOf(a, question);
      var owner, fields, rest := EncodeOwner(a.owner), FieldBytes(rr), EncodeAnswers(answers[1..], question);
      HasConcat(data, off, owner, fields + rest);
      HasConcat(data, off + |owner|, fields, rest);
      OwnerSpells(data, off, a.owner, question);
      EncodedAnswers(data, off + |owner| + |fields|, answers[1..], question);
      assert Rrs(answers, question)[1..] == Rrs(answers[1..], question);
    }
  }

  lemma HeaderRead(data: seq<byte>, id: u16, rcode: byte, answers: u16)
    requires Has(data, 0, EncodeHeader(id, rcode, answers)) && |data| > HEADER && answers > 0
    ensures IsResponse(data) && Be16(data, 4) == 1 && Be16(data, 6) == answers
  {
    var h := EncodeHeader(id, rcode, answers);
    assert data[0..|h|] == h && |h| == HEADER;
    assert data[2] == h[2] == 0x81 && data[4] == h[4] == 0 && data[5] == h[5] == 1;
    assert data[6] == h[6] == answers / 0x100 && data[7] == h[7] == answers % 0x100;
  }

  /** Parsing an encoded response reports exactly its class-IN addresses, in order, with the question's name. */
  lemma RoundTrip(id: u16, rcode: byte, question: Labels, qtype: u16, qclass: u16, answers: seq<Answer>)
    requires ValidLabels(question) && Holds(Hops(question))
    requires ValidAnswers(answers, question) && 0 < |answers| < 0x1_0000
    ensures Response(Encode(id, rcode, question, qtype, qclass, answers)) ==
            Expected(Rrs(answers, question), CString(Joined(Hops(question))))
  {
    hide Spells, FieldBytes, Past, Proper, EncodeOwner, OwnerHops, Hops, Be16, IsResponse, RecordsAt;
    var data := Encode(id, rcode, question, qtype, qclass, answers);
    var h, n, q, rest := EncodeHeader(id, rcode, |answers|), EncodeName(question), N16(qtype) + N16(qclass),
                         EncodeAnswers(answers, question);
    assert Has(data, 0, data);
    hide Has;
    HasConcat(data, 0, h, n + (q + rest));
    HasConcat(data, |h|, n, q + rest);
    HasConcat(data, |h| + |n|, q, rest);
    NameNotEmpty(question);
    HasInside(data, |h| + |n| + |q|, rest);
    HeaderRead(data, id, rcode, |answers|);
    EncodedNameSpells(data, HEADER, question);
    PlainIsNotCompressed(question);
    EncodedAnswers(data, HEADER + |n| + 4, answers, question);
    ReportsEveryAddress(data, Hops(question), Rrs(answers, question));
  }
}
