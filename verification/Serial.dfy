/** 32-bit serial arithmetic (`compare_u32` in util.c) and its relation to unbounded integers. */
module Serial {


  type byte = x: int | 0 <= x < 0x100
  type u16 = x: int | 0 <= x < 0x1_0000
  type u32 = x: int | 0 <= x < 0x1_0000_0000
  type pos = x: int | 0 < x witness 1

  /** Truncation to an unsigned 32-bit word. */
  function U32(x: int): u32 {
    x % 0x1_0000_0000
  }

  function U16(x: int): u16 {
    x % 0x1_0000
  }

  /** A 16-bit number from its bytes in network order. */
  function BigEndian(hi: int, lo: int): int {
    0x100 * hi + lo
  }

  /** C's integer division, which truncates toward zero. */
  function CDiv(a: int, b: int): int
    requires b > 0
  {
    if a >= 0 then a / b else -((-a) / b)
  }

  function Min(a: int, b: int): int {
    if a < b then a else b
  }

  function Sign(x: int): int {
    if x < 0 then -1 else if x == 0 then 0 else 1
  }

  function CompareU32(s1: u32, s2: u32): int {
    if s1 == s2 then 0
    else if (s1 < s2 && s2 - s1 < 0x7FFF_FFFF) || (s1 > s2 && s1 - s2 > 0x7FFF_FFFF) then -1
    else 1
  }

  /** The signed distance from b to a, in [-2^31, 2^31). */
  function Diff(a: u32, b: u32): (d: int)
    ensures -0x8000_0000 <= d < 0x8000_0000
  {
    var d := a - b;
    if d >= 0x8000_0000 then d - 0x1_0000_0000 else if d < -0x8000_0000 then d + 0x1_0000_0000 else d
  }

  lemma U32Id(x: int)
    requires 0 <= x < 0x1_0000_0000
    ensures U32(x) == x
  {
  }

  /** Truncation may be done early or late. */
  lemma U32Add(x: int, y: int)
    ensures U32(U32(x) + y) == U32(x + y)
  {
    var q := x / 0x1_0000_0000;
    assert x == q * 0x1_0000_0000 + U32(x);
    ModShift(U32(x) + y, q);
  }

  lemma ModShift(x: int, q: int)
    ensures (x + q * 0x1_0000_0000) % 0x1_0000_0000 == x % 0x1_0000_0000
  {
    var a, b := x / 0x1_0000_0000, (x + q * 0x1_0000_0000) / 0x1_0000_0000;
    assert x == a * 0x1_0000_0000 + x % 0x1_0000_0000;
    assert x + q * 0x1_0000_0000 == b * 0x1_0000_0000 + (x + q * 0x1_0000_0000) % 0x1_0000_0000;
    assert (a + q - b) * 0x1_0000_0000 == (x + q * 0x1_0000_0000) % 0x1_0000_0000 - x % 0x1_0000_0000;
  }

  /** Inside half the number circle, the signed distance of two truncated integers is their true distance. */
  lemma DiffIsTrueDistance(x: int, y: int)
    requires -0x8000_0000 <= x - y < 0x8000_0000
    ensures Diff(U32(x), U32(y)) == x - y
  {
    var a, b := x / 0x1_0000_0000, y / 0x1_0000_0000;
    assert x == a * 0x1_0000_0000 + U32(x) && y == b * 0x1_0000_0000 + U32(y);
    assert x - y == (a - b) * 0x1_0000_0000 + (U32(x) - U32(y));
  }

  lemma DiffWord(a: u32, b: u32)
    ensures U32(b + Diff(a, b)) == a
  {
  }

  lemma DiffSelf(a: u32)
    ensures Diff(a, a) == 0
  {
  }

  lemma DiffShift(a: u32, b: u32, n: int)
    requires -0x8000_0000 <= Diff(a, b) - n < 0x8000_0000
    ensures Diff(a, U32(b + n)) == Diff(a, b) - n
  {
    DiffWord(a, b);
    DiffIsTrueDistance(b + Diff(a, b), b + n);
  }

  /** compare_u32 orders two truncated integers as the integers themselves, whenever these lie less than
      2^31 - 1 apart. */
  lemma CompareRefinesIntegerOrder(x: int, y: int)
    requires -0x7FFF_FFFF < x - y < 0x7FFF_FFFF
    ensures CompareU32(U32(x), U32(y)) == Sign(x - y)
  {
    DiffIsTrueDistance(x, y);
  }

  /** The exact reach of compare_u32 on integers less than 2^32 apart: the largest distance at which it
      still answers as the integers do depends on the direction and on whether the words wrapped. */
  lemma CompareExactly(x: int, y: int)
    requires -0x1_0000_0000 < x - y < 0x1_0000_0000
    ensures CompareU32(U32(x), U32(y)) == Sign(x - y) <==>
            if x >= y then x - y <= (if U32(x) < U32(y) then 0x8000_0001 else 0x7FFF_FFFF)
            else y - x <= (if U32(x) < U32(y) then 0x7FFF_FFFE else 0x8000_0000)
  {
    var a, b := x / 0x1_0000_0000, y / 0x1_0000_0000;
    assert x == a * 0x1_0000_0000 + U32(x) && y == b * 0x1_0000_0000 + U32(y);
    assert x - y == (a - b) * 0x1_0000_0000 + (U32(x) - U32(y));
  }

  /** At 2^31 - 1 apart the answer depends on where the words lie: here it is the wrong one. */
  lemma CompareFailsAtTheEdge()
    ensures CompareU32(U32(0), U32(0x7FFF_FFFF)) == 1
    ensures CompareU32(U32(0xFFFF_FFFF), U32(0x1_7FFF_FFFE)) == -1
  {
  }

  /** Comparing two words is comparing their signed distances to a common base, if both are near it. */
  lemma CompareByDistance(a: u32, b: u32, base: u32)
    requires -0x7FFF_FFFF < Diff(a, base) - Diff(b, base) < 0x7FFF_FFFF
    ensures CompareU32(a, b) == Sign(Diff(a, base) - Diff(b, base))
  {
    DiffWord(a, base);
    DiffWord(b, base);
    CompareRefinesIntegerOrder(base + Diff(a, base), base + Diff(b, base));
  }
}
