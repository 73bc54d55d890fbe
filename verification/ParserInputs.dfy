/** Inputs on which the parsers of names fall short. */
module ParserInputs {
  import opened Serial
  import opened Bytes
  import opened DnsName
  import Tls = TlsSni

  // ----- names in DNS messages

  /** The name b at offset 0, and at offset 3 the label a with a pointer to it. */
  function Pointed(): seq<byte> {
    [1, 98, 0, 1, 97, 0xC0, 0]
  }

  /** The name a.b ends at offset 7, and get_qname says 5. */
  lemma LabelBeforePointer()
    ensures var hops := [Label([97]), Pointer(0), Label([98])];
      && Spells(Pointed(), 3, hops) && Past(3, hops) == 7
      && NameAt(Pointed(), 3) == Some(Name([97, 46, 98], 5))
  {
    var data, hops := Pointed(), [Label([97]), Pointer(0), Label([98])];
    var rest, last := [Pointer(0), Label([98])], [Label([98])];
    assert hops[1..] == rest && rest[1..] == last && last[1..] == [];
    assert data[1..2] == [98] && data[4..5] == [97];
    assert Spells(data, 0, last);
    assert Spells(data, 5, rest);
    assert Past(5, rest) == 7;
    assert Dotted(last) == [98, DOT] && Dotted(rest) == [98, DOT] && Dotted(hops) == [97, DOT, 98, DOT];
    assert Joined(hops) == [97, DOT, 98];
    assert hops[1].Pointer?;
    DecodesExactly(data, 3, hops);
  }

  /** A name of n labels with one letter each. */
  function Letters(n: nat): seq<byte> {
    if n == 0 then [0] else [1, 97] + Letters(n - 1)
  }

  function LetterHops(n: nat): (hops: seq<Hop>)
    ensures |hops| == n
  {
    if n == 0 then [] else [Label([97])] + LetterHops(n - 1)
  }

  lemma {:induction false} LettersSpell(data: seq<byte>, off: nat, n: nat)
    requires Has(data, off, Letters(n))
    ensures Spells(data, off, LetterHops(n))
    decreases n
  {
    if n == 0 {
      assert data[off] == data[off..off + 1][0];
    } else {
      HasConcat(data, off, [1, 97], Letters(n - 1));
      assert data[off] == data[off..off + 2][0] && data[off + 1] == data[off..off + 2][1];
      LettersSpell(data, off + 2, n - 1);
      assert LetterHops(n)[1..] == LetterHops(n - 1);
      assert data[off + 1..off + 2] == [97];
      LettersEnd(data, off + 2, n - 1);
    }
  }

  lemma LettersEnd(data: seq<byte>, off: nat, n: nat)
    requires Has(data, off, Letters(n))
    ensures off < |data|
  {
  }

  /** A name of 27 labels is not found. */
  lemma TooManyLabels()
    ensures Spells(Letters(27), 0, LetterHops(27)) && NameAt(Letters(27), 0) == None
  {
    hide Letters, LetterHops;
    var data := Letters(27);
    assert data[0..|data|] == data;
    LettersSpell(data, 0, 27);
    hide Spells, Walk;
    TooManyHops(data, 0, LetterHops(27), [], false, 26);
  }

  // ----- the server name

  /** A ClientHello with one cipher suite whose only extension is server_name. */
  function OnlyName(name: seq<byte>): Tls.Hello {
    Tls.Hello(3, 1, [3, 3], seq(32, i => 0), [], [0, 47], [0], [], name, [])
  }

  /** Its name is not found, however short. */
  lemma LastExtension(name: seq<byte>)
    requires |name| < 255
    ensures Tls.FitsRecord(OnlyName(name)) && Tls.PreludeLength(OnlyName(name)) <= 0xFF
    ensures Tls.Sni(Tls.Encode(OnlyName(name))) == None
  {
    var h := OnlyName(name);
    assert |Tls.Middle(h)| == 7;
    Tls.NameBodyLength(name);
    assert |Tls.ExtensionData(h)| == 9 + |name|;
    hide Tls.Sni, Tls.Encode, Tls.Middle, Tls.ExtensionData;
    Tls.FindsName(h);
  }

  /** A length of 64 or more is taken for a pointer, also where section 4.1.4 of RFC 1035 reserves it. */
  lemma ReservedIsPointer()
    ensures NameAt([0x40, 2, 1, 97, 0], 0) == Some(Name([97], 2))
  {
    hide Walk;
    var data: seq<byte> := [0x40, 2, 1, 97, 0];
    WalkOnce(data, 0, [], false, 26);
    WalkOnce(data, 2, [], true, 25);
    assert LabelAt(data, 2) == [97] && Put([], [97]) == [97, 46];
    WalkOnce(data, 4, [97, 46], true, 24);
    assert [97, 46][..1] == [97];
  }
}
