/** Numbers in network order, and where they lie in a buffer. */
module Bytes {
  import opened Serial

  datatype Option<T> = None | Some(value: T)

  function Be16(data: seq<byte>, off: nat): u16
    requires off + 2 <= |data|
  {
    BigEndian(data[off], data[off + 1])
  }

  function Be32(data: seq<byte>, off: nat): u32
    requires off + 4 <= |data|
  {
    Be16(data, off) * 0x1_0000 + Be16(data, off + 2)
  }

  function N16(x: u16): seq<byte> {
    [x / 0x100, x % 0x100]
  }

  function N32(x: u32): seq<byte> {
    N16(x / 0x1_0000) + N16(x % 0x1_0000)
  }

  /** The bytes b lie in data from off on. */
  predicate Has(data: seq<byte>, off: nat, b: seq<byte>) {
    off + |b| <= |data| && data[off..off + |b|] == b
  }

  lemma HasConcat(data: seq<byte>, off: nat, a: seq<byte>, b: seq<byte>)
    requires Has(data, off, a + b)
    ensures Has(data, off, a) && Has(data, off + |a|, b)
  {
    assert data[off..off + |a|] == data[off..off + |a + b|][..|a|] == a;
    assert data[off + |a|..off + |a| + |b|] == data[off..off + |a + b|][|a|..] == b;
  }

  lemma ReadN16(data: seq<byte>, off: nat, x: u16)
    requires Has(data, off, N16(x))
    ensures Be16(data, off) == x
  {
    var s := data[off..off + 2];
    assert s[0] == data[off] && s[1] == data[off + 1];
  }

  lemma ReadN32(data: seq<byte>, off: nat, x: u32)
    requires Has(data, off, N32(x))
    ensures Be32(data, off) == x
  {
    HasConcat(data, off, N16(x / 0x1_0000), N16(x % 0x1_0000));
    ReadN16(data, off, x / 0x1_0000);
    ReadN16(data, off + 2, x % 0x1_0000);
  }

  lemma HasInside(data: seq<byte>, off: nat, b: seq<byte>)
    requires Has(data, off, b)
    ensures off + |b| <= |data|
  {
  }
}
