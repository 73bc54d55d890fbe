/** The Internet checksum (`calc_checksum` in util.c, RFC 1071) and the packets that write_tcp and write_udp seal
    with it.  The code sums 16-bit words in host order, which is little-endian; the RFC sums in network order. */
module Checksum {
  import opened Serial
  import opened Bytes

  // ----- reference definitions

  /** The words of s in host order, summed without overflow; an odd last byte counts as itself. */
  function WordSum(s: seq<byte>): nat {
    if |s| == 0 then 0
    else if |s| == 1 then s[0]
    else s[0] + 0x100 * s[1] + WordSum(s[2..])
  }

  /** The words of s in network order, padded with a zero byte: the sum of section 1 of RFC 1071. */
  function NetworkSum(s: seq<byte>): nat {
    if |s| == 0 then 0
    else if |s| == 1 then 0x100 * s[0]
    else 0x100 * s[0] + s[1] + NetworkSum(s[2..])
  }

  /** The one's complement representative of n: congruent modulo 2^16 - 1, and zero only for zero. */
  function OnesComplement(n: nat): u16 {
    if n == 0 then 0 else (n - 1) % 0xFFFF + 1
  }

  // ----- calc_checksum

  method CalcChecksum(start: u16, buffer: seq<byte>) returns (r: u16)
    ensures |buffer| <= 0x1_FFFC ==> r == OnesComplement(start + WordSum(buffer))
  {
    var sum := SumWords(start, buffer);
    r := Fold(sum);
  }

  /** The first loop, with a 32-bit sum. */
  method SumWords(start: u16, buffer: seq<byte>) returns (sum: u32)
    ensures |buffer| <= 0x1_FFFC ==> sum == start + WordSum(buffer)
  {
    sum := start;
    var i := 0;
    while |buffer| - i > 1
      invariant 0 <= i <= |buffer|
      invariant |buffer| <= 0x1_FFFC ==>
        2 * sum <= 2 * start + 0xFFFF * i && start + WordSum(buffer) == sum + WordSum(buffer[i..])
    {
      assert buffer[i..][2..] == buffer[i + 2..];
      var lo: int, hi: int := buffer[i], buffer[i + 1];
      sum := U32(sum + lo + 0x100 * hi);
      i := i + 2;
    }
    if |buffer| - i > 0 {
      sum := U32(sum + buffer[i]);
    }
  }

  /** The second loop, which folds the carries back. */
  method Fold(total: u32) returns (r: u16)
    ensures r == OnesComplement(total)
  {
    var sum := total;
    while sum / 0x1_0000 > 0
      invariant OnesComplement(sum) == OnesComplement(total)
      decreases sum
    {
      FoldOnce(sum);
      sum := sum % 0x1_0000 + sum / 0x1_0000;
    }
    r := sum;
  }

  lemma FoldOnce(n: nat)
    requires n >= 0x1_0000
    ensures OnesComplement(n) == OnesComplement(n % 0x1_0000 + n / 0x1_0000)
    ensures n % 0x1_0000 + n / 0x1_0000 < n
  {
    var q := n / 0x1_0000;
    assert n - 1 == (n % 0x1_0000 + q - 1) + q * 0xFFFF;
    ModMultiple(n % 0x1_0000 + q - 1, q);
  }

  lemma ModMultiple(x: int, q: int)
    ensures (x + q * 0xFFFF) % 0xFFFF == x % 0xFFFF
  {
    var a, b := x / 0xFFFF, (x + q * 0xFFFF) / 0xFFFF;
    assert x == a * 0xFFFF + x % 0xFFFF;
    assert x + q * 0xFFFF == b * 0xFFFF + (x + q * 0xFFFF) % 0xFFFF;
    assert (a + q - b) * 0xFFFF == (x + q * 0xFFFF) % 0xFFFF - x % 0xFFFF;
  }

  // ----- laws

  lemma {:induction false} WordSumConcat(a: seq<byte>, b: seq<byte>)
    requires |a| % 2 == 0
    ensures WordSum(a + b) == WordSum(a) + WordSum(b)
  {
    if |a| == 0 {
      assert a + b == b;
    } else {
      assert (a + b)[2..] == a[2..] + b;
      WordSumConcat(a[2..], b);
    }
  }

  lemma OnesComplementAdd(m: nat, n: nat)
    ensures OnesComplement(OnesComplement(m) + n) == OnesComplement(m + n)
  {
    if m > 0 {
      var q := (m - 1) / 0xFFFF;
      assert m - 1 == q * 0xFFFF + (m - 1) % 0xFFFF;
      assert m + n - 1 == OnesComplement(m) + n - 1 + q * 0xFFFF;
      ModMultiple(OnesComplement(m) + n - 1, q);
    }
  }

  /** Feeding one result into the next call sums the concatenation, if all parts but the last have even length. */
  lemma Chained(start: nat, a: seq<byte>, b: seq<byte>)
    requires |a| % 2 == 0
    ensures OnesComplement(OnesComplement(start + WordSum(a)) + WordSum(b)) == OnesComplement(start + WordSum(a + b))
  {
    WordSumConcat(a, b);
    OnesComplementAdd(start + WordSum(a), WordSum(b));
  }

  /** Summing in network order gives the byte-swapped sum: the same multiple of 256 modulo 2^16 - 1. */
  lemma {:induction false} NetworkOrder(s: seq<byte>)
    ensures exists q: int :: NetworkSum(s) + q * 0xFFFF == 0x100 * WordSum(s)
    ensures NetworkSum(s) == 0 <==> WordSum(s) == 0
  {
    if |s| == 0 {
      assert NetworkSum(s) + 0 * 0xFFFF == 0x100 * WordSum(s);
    } else if |s| == 1 {
      assert NetworkSum(s) + 0 * 0xFFFF == 0x100 * WordSum(s);
    } else {
      NetworkOrder(s[2..]);
      var q: int :| NetworkSum(s[2..]) + q * 0xFFFF == 0x100 * WordSum(s[2..]);
      assert NetworkSum(s) + (q + s[1]) * 0xFFFF == 0x100 * WordSum(s);
    }
  }

  lemma MultipleIsAllOnes(n: nat, q: int)
    requires n > 0 && n == q * 0xFFFF
    ensures OnesComplement(n) == 0xFFFF
  {
    ModMultiple(0xFFFE, q - 1);
  }

  lemma AllOnesIsMultiple(n: nat) returns (q: int)
    requires OnesComplement(n) == 0xFFFF
    ensures n > 0 && n == q * 0xFFFF
  {
    q := (n - 1) / 0xFFFF + 1;
  }

  /** A sum of all ones in host order is one in network order, so that any receiver accepts the packet. */
  lemma AllOnesInNetworkOrder(s: seq<byte>)
    ensures OnesComplement(WordSum(s)) == 0xFFFF <==> OnesComplement(NetworkSum(s)) == 0xFFFF
  {
    NetworkOrder(s);
    var q: int :| NetworkSum(s) + q * 0xFFFF == 0x100 * WordSum(s);
    if OnesComplement(WordSum(s)) == 0xFFFF {
      var k := AllOnesIsMultiple(WordSum(s));
      MultipleIsAllOnes(NetworkSum(s), 0x100 * k - q);
    }
    if OnesComplement(NetworkSum(s)) == 0xFFFF {
      var k := AllOnesIsMultiple(NetworkSum(s));
      // 256 * 256 is 1 modulo 2^16 - 1
      assert WordSum(s) == 0x100 * (0x100 * WordSum(s)) - WordSum(s) * 0xFFFF;
      MultipleIsAllOnes(WordSum(s), 0x100 * (k + q) - WordSum(s));
    }
  }

  // ----- sealing a packet

  /** The 16-bit word c as it lies in memory. */
  function Host16(c: u16): seq<byte> {
    [c % 0x100, c / 0x100]
  }

  /** Header h with the checksum c stored at offset k. */
  function Patch(h: seq<byte>, k: nat, c: u16): seq<byte>
    requires k + 2 <= |h|
  {
    h[..k] + Host16(c) + h[k + 2..]
  }

  lemma PatchSum(h: seq<byte>, k: nat, c: u16)
    requires k + 2 <= |h| && k % 2 == 0 && h[k..k + 2] == [0, 0]
    ensures WordSum(Patch(h, k, c)) == WordSum(h) + c && |Patch(h, k, c)| == |h|
  {
    hide WordSum;
    var zero: seq<byte> := [0, 0];
    WordSumPair(0, 0);
    WordSumPair(c % 0x100, c / 0x100);
    assert h == h[..k] + (zero + h[k + 2..]);
    assert Patch(h, k, c) == h[..k] + (Host16(c) + h[k + 2..]);
    WordSumConcat(h[..k], zero + h[k + 2..]);
    WordSumConcat(zero, h[k + 2..]);
    WordSumConcat(h[..k], Host16(c) + h[k + 2..]);
    WordSumConcat(Host16(c), h[k + 2..]);
  }

  lemma WordSumPair(a: byte, b: byte)
    ensures WordSum([a, b]) == a + 0x100 * b
  {
  }

  lemma ComplementSums(n: nat)
    ensures OnesComplement(n + (0xFFFF - OnesComplement(n))) == 0xFFFF
  {
    if n > 0 {
      var q := (n - 1) / 0xFFFF;
      MultipleIsAllOnes(n + (0xFFFF - OnesComplement(n)), q + 1);
    }
  }

  /** The tail of write_tcp and write_udp: sum the pseudo-header, the header with a zero checksum at offset k, the
      options and the data, and store the complement.  Whatever the parity of the data, the receiver's sum over
      pseudo-header and packet is all ones, in host order and by RFC 1071. */
  method Seal(pseudo: seq<byte>, header: seq<byte>, k: nat, options: seq<byte>, data: seq<byte>)
    returns (packet: seq<byte>)
    requires |pseudo| % 2 == 0 && |header| % 2 == 0 && |options| % 2 == 0
    requires k + 2 <= |header| && k % 2 == 0 && header[k..k + 2] == [0, 0]
    requires |pseudo| <= 0x1_0000 && |header| <= 0x1_0000 && |options| <= 0x1_0000 && |data| <= 0x1_0000
    ensures |packet| == |header| + |options| + |data|
    ensures packet[|header|..] == options + data
    ensures packet[..k] == header[..k] && packet[k + 2..|header|] == header[k + 2..]
    ensures packet[k..k + 2] == Host16(0xFFFF - OnesComplement(WordSum(pseudo + (header + options + data))))
    ensures OnesComplement(WordSum(pseudo + packet)) == 0xFFFF
    ensures OnesComplement(NetworkSum(pseudo + packet)) == 0xFFFF
  {
    hide OnesComplement, WordSum, NetworkSum;
    var csum := CalcChecksum(0, pseudo);
    csum := CalcChecksum(csum, header);
    csum := CalcChecksum(csum, options);
    csum := CalcChecksum(csum, data);
    packet := Patch(header, k, 0xFFFF - csum) + options + data;
    ChainSum(WordSum(pseudo), WordSum(header), WordSum(options), WordSum(data));
    ComplementSums(WordSum(pseudo) + WordSum(header) + WordSum(options) + WordSum(data));
    SealedSum(pseudo, header, k, options, data, 0xFFFF - csum);
    TotalSum(pseudo, header, options, data);
    AllOnesInNetworkOrder(pseudo + packet);
  }

  lemma SealedSum(pseudo: seq<byte>, header: seq<byte>, k: nat, options: seq<byte>, data: seq<byte>, c: u16)
    requires |pseudo| % 2 == 0 && |header| % 2 == 0 && |options| % 2 == 0
    requires k + 2 <= |header| && k % 2 == 0 && header[k..k + 2] == [0, 0]
    ensures WordSum(pseudo + (Patch(header, k, c) + options + data)) ==
            WordSum(pseudo) + WordSum(header) + WordSum(options) + WordSum(data) + c
  {
    PatchSum(header, k, c);
    TotalSum(pseudo, Patch(header, k, c), options, data);
  }

  lemma ChainSum(p: nat, h: nat, o: nat, d: nat)
    ensures OnesComplement(OnesComplement(OnesComplement(OnesComplement(p) + h) + o) + d) == OnesComplement(p + h + o + d)
  {
    hide OnesComplement;
    OnesComplementAdd(p, h);
    OnesComplementAdd(p + h, o);
    OnesComplementAdd(p + h + o, d);
  }

  lemma TotalSum(a: seq<byte>, b: seq<byte>, c: seq<byte>, d: seq<byte>)
    requires |a| % 2 == 0 && |b| % 2 == 0 && |c| % 2 == 0
    ensures WordSum(a + (b + c + d)) == WordSum(a) + WordSum(b) + WordSum(c) + WordSum(d)
  {
    hide WordSum;
    WordSumConcat(a, b + c + d);
    WordSumConcat(b + c, d);
    WordSumConcat(b, c);
  }

  /** The header checksum of IPv4: no pseudo-header, options or data. */
  method SealIp4(header: seq<byte>) returns (sealed: seq<byte>)
    requires |header| == 20 && header[10..12] == [0, 0]
    ensures |sealed| == 20 && sealed[..10] == header[..10] && sealed[12..] == header[12..]
    ensures OnesComplement(NetworkSum(sealed)) == 0xFFFF
  {
    hide OnesComplement, NetworkSum;
    sealed := Seal([], header, 10, [], []);
    assert |sealed| == 20;
    assert [] + sealed == sealed;
    assert sealed[..20] == sealed;
  }

  /** The one's complement sum is all ones exactly for the positive multiples of 2^16 - 1. */
  lemma AllOnesExactly(n: nat)
    ensures OnesComplement(n) == 0xFFFF <==> n > 0 && n % 0xFFFF == 0
  {
    if n > 0 {
      var q := (n - 1) / 0xFFFF;
      assert n == q * 0xFFFF + OnesComplement(n);
      ModMultiple(OnesComplement(n), q);
    }
  }

  // ----- the pseudo-headers

  function PseudoV4(source: seq<byte>, dest: seq<byte>, protocol: byte, length: u16): seq<byte> {
    source + dest + [0, protocol] + N16(length)
  }

  /** As section 8.1 of RFC 8200 has it, for lengths below 2^16. */
  function PseudoV6(source: seq<byte>, dest: seq<byte>, protocol: byte, length: u16): seq<byte> {
    source + dest + ([0, 0] + N16(length)) + [0, 0, 0, protocol]
  }

  /** As the code builds it: addresses swapped, and the 16-bit length in the first half of its 32-bit field. */
  function PseudoV6AsBuilt(source: seq<byte>, dest: seq<byte>, protocol: byte, length: u16): seq<byte> {
    dest + source + (N16(length) + [0, 0]) + [0, 0, 0, protocol]
  }

  /** Both IPv6 pseudo-headers sum to the same. */
  lemma PseudoV6Sums(source: seq<byte>, dest: seq<byte>, protocol: byte, length: u16)
    requires |source| == |dest| == 16
    ensures WordSum(PseudoV6AsBuilt(source, dest, protocol, length)) == WordSum(PseudoV6(source, dest, protocol, length))
  {
    var l, z, p: seq<byte> := N16(length), [0, 0], [0, 0, 0, protocol];
    WordSumConcat(l, z);
    WordSumConcat(z, l);
    WordSumConcat(source, dest);
    WordSumConcat(dest, source);
    WordSumConcat(source + dest, z + l);
    WordSumConcat(dest + source, l + z);
    WordSumConcat(source + dest + (z + l), p);
    WordSumConcat(dest + source + (l + z), p);
  }

  /** A packet sealed with the pseudo-header as built is valid under the pseudo-header of RFC 8200. */
  lemma SealedForRfc(source: seq<byte>, dest: seq<byte>, protocol: byte, length: u16, packet: seq<byte>)
    requires |source| == |dest| == 16
    requires OnesComplement(WordSum(PseudoV6AsBuilt(source, dest, protocol, length) + packet)) == 0xFFFF
    ensures OnesComplement(NetworkSum(PseudoV6(source, dest, protocol, length) + packet)) == 0xFFFF
  {
    PseudoV6Sums(source, dest, protocol, length);
    WordSumConcat(PseudoV6AsBuilt(source, dest, protocol, length), packet);
    WordSumConcat(PseudoV6(source, dest, protocol, length), packet);
    AllOnesInNetworkOrder(PseudoV6(source, dest, protocol, length) + packet);
  }

  // ----- write_tcp and write_udp

  datatype Flags = Flags(syn: bool, ack: bool, fin: bool, rst: bool)

  function FlagByte(f: Flags): byte {
    (if f.fin then 1 else 0) + (if f.syn then 2 else 0) + (if f.rst then 4 else 0) + (if f.ack then 16 else 0)
  }

  /** MSS, in host order as the code stores it, and window scale. */
  function SynOptions(mss: u16, scale: byte): seq<byte> {
    [2, 4] + Host16(mss) + [3, 3, scale, 0]
  }

  /** The TCP header with a zero checksum; ports are in network order already. */
  function TcpHeader(ports: seq<byte>, seqno: u32, ackSeq: u32, f: Flags, window: u16): seq<byte> {
    ports + N32(seqno) + N32(if f.ack then ackSeq else 0)
    + [if f.syn then 0x70 else 0x50, FlagByte(f)] + N16(window) + [0, 0] + [0, 0]
  }

  /** The pseudo-header that the receiver uses. */
  function Pseudo(ipv4: bool, source: seq<byte>, dest: seq<byte>, protocol: byte, length: u16): seq<byte> {
    if ipv4 then PseudoV4(source, dest, protocol, length) else PseudoV6(source, dest, protocol, length)
  }

  predicate Addresses(ipv4: bool, source: seq<byte>, dest: seq<byte>) {
    |source| == |dest| == if ipv4 then 4 else 16
  }

  /** The sum that a sender forms by RFC 1071, over the pseudo-header and the segment with a zero checksum. */
  function SenderSum(ipv4: bool, source: seq<byte>, dest: seq<byte>, protocol: byte, segment: seq<byte>): nat
    requires |segment| < 0x1_0000
  {
    NetworkSum(Pseudo(ipv4, source, dest, protocol, |segment|) + segment)
  }

  /** A segment sealed with the code's pseudo-header is valid under the receiver's, and the checksum stored is zero exactly
      when the sender's sum is a positive multiple of 2^16 - 1. */
  method SealFor(ipv4: bool, source: seq<byte>, dest: seq<byte>, protocol: byte, header: seq<byte>, k: nat,
                 options: seq<byte>, data: seq<byte>) returns (packet: seq<byte>)
    requires Addresses(ipv4, source, dest)
    requires |header| % 2 == 0 && |options| % 2 == 0 && |header| + |options| + |data| < 0x1_0000
    requires k + 2 <= |header| && k % 2 == 0 && header[k..k + 2] == [0, 0]
    ensures |packet| == |header| + |options| + |data|
    ensures packet[|header|..] == options + data
    ensures packet[..k] == header[..k] && packet[k + 2..|header|] == header[k + 2..]
    ensures OnesComplement(NetworkSum(Pseudo(ipv4, source, dest, protocol, |packet|) + packet)) == 0xFFFF
    ensures var n := SenderSum(ipv4, source, dest, protocol, header + options + data);
      packet[k..k + 2] == [0, 0] <==> n > 0 && n % 0xFFFF == 0
  {
    hide OnesComplement, WordSum, NetworkSum;
    var length: u16 := |header| + |options| + |data|;
    ghost var whole := header + options + data;
    ZeroStored(Pseudo(ipv4, source, dest, protocol, length) + whole);
    if ipv4 {
      packet := Seal(PseudoV4(source, dest, protocol, length), header, k, options, data);
    } else {
      packet := Seal(PseudoV6AsBuilt(source, dest, protocol, length), header, k, options, data);
      SealedForRfc(source, dest, protocol, length, packet);
      SameSums(source, dest, protocol, length, whole);
    }
  }

  lemma ZeroStored(s: seq<byte>)
    ensures Host16(0xFFFF - OnesComplement(WordSum(s))) == [0, 0] <==> NetworkSum(s) > 0 && NetworkSum(s) % 0xFFFF == 0
  {
    hide OnesComplement, WordSum, NetworkSum;
    AllOnesInNetworkOrder(s);
    AllOnesExactly(NetworkSum(s));
  }

  lemma SameSums(source: seq<byte>, dest: seq<byte>, protocol: byte, length: u16, s: seq<byte>)
    requires |source| == |dest| == 16
    ensures WordSum(PseudoV6AsBuilt(source, dest, protocol, length) + s) == WordSum(PseudoV6(source, dest, protocol, length) + s)
  {
    hide WordSum;
    PseudoV6Sums(source, dest, protocol, length);
    WordSumConcat(PseudoV6AsBuilt(source, dest, protocol, length), s);
    WordSumConcat(PseudoV6(source, dest, protocol, length), s);
  }

  // ----- the IP header

  const TTL: byte := 64

  /** The IPv4 header with a zero checksum. */
  function Ip4Header(source: seq<byte>, dest: seq<byte>, protocol: byte, length: u16): seq<byte> {
    [0x45, 0] + N16(length) + [0, 0, 0, 0, TTL, protocol] + [0, 0] + (source + dest)
  }

  function Ip6Header(source: seq<byte>, dest: seq<byte>, protocol: byte, length: u16): seq<byte> {
    [0x60, 0, 0, 0] + N16(length) + [protocol, TTL] + (source + dest)
  }

  function IpLength(ipv4: bool): nat {
    if ipv4 then 20 else 40
  }

  /** The packet carries a segment from source to dest.  IPv4: version 4 and five words of header, its whole length, no
      fragments, 64 hops, and a valid header checksum.  IPv6: version 6, the length of the segment, and 64 hops. */
  predicate Carries(packet: seq<byte>, ipv4: bool, source: seq<byte>, dest: seq<byte>, protocol: byte, segment: seq<byte>) {
    && IpLength(ipv4) + |segment| == |packet| < 0x1_0000
    && packet[IpLength(ipv4)..] == segment
    && if ipv4 then
         && packet[0] == 0x45 && packet[1] == 0 && Be16(packet, 2) == |packet| && packet[4..8] == [0, 0, 0, 0]
         && packet[8] == 64 && packet[9] == protocol && packet[12..16] == source && packet[16..20] == dest
         && OnesComplement(NetworkSum(packet[..20])) == 0xFFFF
       else
         && packet[..4] == [0x60, 0, 0, 0] && Be16(packet, 4) == |segment| && packet[6] == protocol && packet[7] == 64
         && packet[8..24] == source && packet[24..40] == dest
  }

  method WriteIp(ipv4: bool, source: seq<byte>, dest: seq<byte>, protocol: byte, segment: seq<byte>)
    returns (packet: seq<byte>)
    requires Addresses(ipv4, source, dest) && |segment| + 40 < 0x1_0000
    ensures Carries(packet, ipv4, source, dest, protocol, segment)
  {
    hide OnesComplement, NetworkSum;
    if ipv4 {
      var h := Ip4Header(source, dest, protocol, 20 + |segment|);
      Ip4Fields(source, dest, protocol, 20 + |segment|);
      hide Ip4Header;
      var sealed := SealIp4(h);
      packet := sealed + segment;
      assert packet[..20] == sealed;
      SealedFields(h, sealed, packet);
    } else {
      packet := Ip6Header(source, dest, protocol, |segment|) + segment;
      Ip6Fields(source, dest, protocol, |segment|, packet);
    }
  }

  lemma Ip4Fields(source: seq<byte>, dest: seq<byte>, protocol: byte, length: u16)
    requires |source| == |dest| == 4
    ensures var h := Ip4Header(source, dest, protocol, length);
      && |h| == 20 && h[10..12] == [0, 0] && h[0] == 0x45 && h[1] == 0 && Be16(h, 2) == length && h[4..8] == [0, 0, 0, 0]
      && h[8] == 64 && h[9] == protocol && h[12..16] == source && h[16..20] == dest
  {
  }

  lemma SealedFields(h: seq<byte>, sealed: seq<byte>, packet: seq<byte>)
    requires |h| == |sealed| == 20 <= |packet| && packet[..20] == sealed
    requires sealed[..10] == h[..10] && sealed[12..] == h[12..]
    ensures packet[0] == h[0] && packet[1] == h[1] && Be16(packet, 2) == Be16(h, 2) && packet[4..8] == h[4..8]
    ensures packet[8] == h[8] && packet[9] == h[9] && packet[12..16] == h[12..16] && packet[16..20] == h[16..20]
  {
    assert forall i :: 0 <= i < 10 ==> packet[i] == sealed[..10][i] == h[..10][i] == h[i];
    assert forall i :: 12 <= i < 20 ==> packet[i] == sealed[12..][i - 12] == h[12..][i - 12] == h[i];
  }

  lemma Ip6Fields(source: seq<byte>, dest: seq<byte>, protocol: byte, length: u16, packet: seq<byte>)
    requires |source| == |dest| == 16 && Ip6Header(source, dest, protocol, length) <= packet
    ensures |Ip6Header(source, dest, protocol, length)| == 40
    ensures packet[..4] == [0x60, 0, 0, 0] && Be16(packet, 4) == length && packet[6] == protocol && packet[7] == 64
    ensures packet[8..24] == source && packet[24..40] == dest
  {
    var h := Ip6Header(source, dest, protocol, length);
    assert h[..4] == [0x60, 0, 0, 0] && h[8..24] == source && h[24..40] == dest;
    assert packet[..40] == h;
    assert packet[..4] == packet[..40][..4] && packet[8..24] == packet[..40][8..24] && packet[24..40] == packet[..40][24..40];
  }

  // ----- whole packets

  /** The two ends of a session: the application's address and port, and the server's, as bytes in network order. */
  datatype Ends = Ends(saddr: seq<byte>, source: seq<byte>, daddr: seq<byte>, dest: seq<byte>)

  predicate ValidEnds(ends: Ends, ipv4: bool) {
    Addresses(ipv4, ends.saddr, ends.daddr) && |ends.source| == |ends.dest| == 2
  }

  predicate Bit(b: byte, mask: nat)
    requires mask > 0
  {
    b / mask % 2 == 1
  }

  /** The fixed fields of a TCP header except its length, as section 3.1 of RFC 9293 places them: ports, numbers, flags and
      window; neither PSH nor URG is set. */
  predicate TcpFields(s: seq<byte>, source: seq<byte>, dest: seq<byte>, seqno: u32, ackSeq: u32, f: Flags, window: u16) {
    && |s| >= 20
    && s[..2] == source && s[2..4] == dest && Be32(s, 4) == seqno && Be32(s, 8) == ackSeq
    && (Bit(s[13], 1) <==> f.fin) && (Bit(s[13], 2) <==> f.syn) && (Bit(s[13], 4) <==> f.rst) && (Bit(s[13], 16) <==> f.ack)
    && !Bit(s[13], 8) && !Bit(s[13], 32)
    && Be16(s, 14) == window && Be16(s, 18) == 0
  }

  /** A TCP segment: the fixed fields, the data offset in words, the options and the data. */
  predicate TcpSegment(s: seq<byte>, source: seq<byte>, dest: seq<byte>, seqno: u32, ackSeq: u32, f: Flags, window: u16,
                       options: seq<byte>, data: seq<byte>)
  {
    && |s| == 20 + |options| + |data| && TcpFields(s, source, dest, seqno, ackSeq, f, window)
    && s[12] / 16 * 4 == 20 + |options| && s[12] % 16 == 0
    && s[20..20 + |options|] == options && s[20 + |options|..] == data
  }

  lemma TcpHeaderFields(source: seq<byte>, dest: seq<byte>, seqno: u32, ackSeq: u32, f: Flags, window: u16)
    requires |source| == |dest| == 2
    ensures var h := TcpHeader(source + dest, seqno, ackSeq, f, window);
      && |h| == 20 && h[16..18] == [0, 0] && h[12] == (if f.syn then 0x70 else 0x50)
      && TcpFields(h, source, dest, seqno, if f.ack then ackSeq else 0, f, window)
  {
    hide N16, N32, FlagByte, Bit, Be32, Be16;
    var h := TcpHeader(source + dest, seqno, ackSeq, f, window);
    var a: u32 := if f.ack then ackSeq else 0;
    Lengths(seqno, window);
    Lengths(a, window);
    HeaderLayout(source + dest, N32(seqno), N32(a), [if f.syn then 0x70 else 0x50, FlagByte(f)], N16(window), h);
    hide TcpHeader;
    FlagBits(f);
    ReadN32(h, 4, seqno);
    ReadN32(h, 8, a);
    ReadN16(h, 14, window);
    PortsApart(source, dest, h);
  }

  lemma Lengths(x: u32, y: u16)
    ensures |N32(x)| == 4 && |N16(y)| == 2
  {
  }

  lemma PortsApart(source: seq<byte>, dest: seq<byte>, h: seq<byte>)
    requires |source| == |dest| == 2 && |h| >= 4 && h[..4] == source + dest
    ensures h[..2] == source && h[2..4] == dest
  {
    assert h[..2] == h[..4][..2] && h[2..4] == h[..4][2..4];
  }

  lemma HeaderLayout(ports: seq<byte>, a: seq<byte>, b: seq<byte>, c: seq<byte>, d: seq<byte>, h: seq<byte>)
    requires |ports| == |a| == |b| == 4 && |c| == |d| == 2 && h == ports + a + b + c + d + [0, 0] + [0, 0]
    ensures |h| == 20 && h[..4] == ports && Has(h, 4, a) && Has(h, 8, b) && h[12] == c[0] && h[13] == c[1] && Has(h, 14, d)
    ensures h[16..18] == [0, 0] && Be16(h, 18) == 0
  {
    assert h[..4] == ports && h[4..8] == a && h[8..12] == b && h[14..16] == d;
  }

  lemma FlagBits(f: Flags)
    ensures var b := FlagByte(f);
      && (Bit(b, 1) <==> f.fin) && (Bit(b, 2) <==> f.syn) && (Bit(b, 4) <==> f.rst) && (Bit(b, 16) <==> f.ack)
      && !Bit(b, 8) && !Bit(b, 32)
  {
  }

  /** A sealed segment has the fields of its header. */
  lemma SealedSegment(h: seq<byte>, s: seq<byte>, source: seq<byte>, dest: seq<byte>, seqno: u32, ackSeq: u32, f: Flags,
                      window: u16, options: seq<byte>, data: seq<byte>)
    requires |h| == 20 && TcpFields(h, source, dest, seqno, ackSeq, f, window)
    requires |s| == 20 + |options| + |data| && s[..16] == h[..16] && s[18..20] == h[18..] && s[20..] == options + data
    requires h[12] / 16 * 4 == 20 + |options| && h[12] % 16 == 0
    ensures TcpSegment(s, source, dest, seqno, ackSeq, f, window, options, data)
  {
    hide Bit;
    forall i | 0 <= i < 16
      ensures s[i] == h[i]
    {
      assert s[i] == s[..16][i] == h[..16][i];
    }
    assert s[18] == s[18..20][0] == h[18..][0] && s[19] == s[18..20][1] == h[18..][1];
    assert s[..2] == h[..2] && s[2..4] == h[2..4];
    assert s[20..20 + |options|] == (options + data)[..|options|] == options;
    assert s[20 + |options|..] == (options + data)[|options|..] == data;
  }

  lemma SynOptionBytes(mss: u16, scale: byte)
    ensures SynOptions(mss, scale) == [2, 4, mss % 0x100, mss / 0x100, 3, 3, scale, 0]
  {
  }

  /** A packet back to the application: from the server's address and port to its own. */
  method WriteTcp(ipv4: bool, ends: Ends, seqno: u32, ackSeq: u32, f: Flags, window: u16, mss: u16, scale: byte,
                  data: seq<byte>) returns (packet: seq<byte>)
    requires ValidEnds(ends, ipv4) && |data| + 68 < 0x1_0000
    ensures |packet| > IpLength(ipv4)
    ensures var segment := packet[IpLength(ipv4)..];
      && Carries(packet, ipv4, ends.daddr, ends.saddr, 6, segment)
      && TcpSegment(segment, ends.dest, ends.source, seqno, if f.ack then ackSeq else 0, f, window,
                    if f.syn then [2, 4, mss % 0x100, mss / 0x100, 3, 3, scale, 0] else [], data)
      && OnesComplement(NetworkSum(Pseudo(ipv4, ends.daddr, ends.saddr, 6, |segment|) + segment)) == 0xFFFF
  {
    hide OnesComplement, NetworkSum, Pseudo, Carries, TcpSegment, TcpFields;
    var h := TcpHeader(ends.dest + ends.source, seqno, ackSeq, f, window);
    var options := if f.syn then SynOptions(mss, scale) else [];
    TcpHeaderFields(ends.dest, ends.source, seqno, ackSeq, f, window);
    hide TcpHeader;
    SynOptionBytes(mss, scale);
    var segment := SealFor(ipv4, ends.daddr, ends.saddr, 6, h, 16, options, data);
    SealedSegment(h, segment, ends.dest, ends.source, seqno, if f.ack then ackSeq else 0, f, window, options, data);
    packet := WriteIp(ipv4, ends.daddr, ends.saddr, 6, segment);
    CarriesIt(packet, ipv4, ends.daddr, ends.saddr, 6, segment);
  }

  lemma CarriesIt(packet: seq<byte>, ipv4: bool, source: seq<byte>, dest: seq<byte>, protocol: byte, segment: seq<byte>)
    requires Carries(packet, ipv4, source, dest, protocol, segment)
    ensures |packet| == IpLength(ipv4) + |segment| && packet[IpLength(ipv4)..] == segment
  {
  }

  /** The UDP header with a zero checksum. */
  function UdpHeader(ports: seq<byte>, length: u16): seq<byte> {
    ports + N16(length) + [0, 0]
  }

  /** The stored checksum is zero, which RFC 768 reserves for none, exactly when the sender's sum is a
      positive multiple of 2^16 - 1. */
  method WriteUdp(ipv4: bool, ends: Ends, data: seq<byte>) returns (packet: seq<byte>)
    requires ValidEnds(ends, ipv4) && |data| + 48 < 0x1_0000
    ensures |packet| == IpLength(ipv4) + 8 + |data|
    ensures var segment := packet[IpLength(ipv4)..];
      && Carries(packet, ipv4, ends.daddr, ends.saddr, 17, segment)
      && segment[..2] == ends.dest && segment[2..4] == ends.source && Be16(segment, 4) == 8 + |data| && segment[8..] == data
      && OnesComplement(NetworkSum(Pseudo(ipv4, ends.daddr, ends.saddr, 17, |segment|) + segment)) == 0xFFFF
    ensures var n := SenderSum(ipv4, ends.daddr, ends.saddr, 17, UdpHeader(ends.dest + ends.source, 8 + |data|) + data);
      packet[IpLength(ipv4)..][6..8] == [0, 0] <==> n > 0 && n % 0xFFFF == 0
  {
    hide OnesComplement, NetworkSum, Pseudo, Carries, SenderSum;
    var h := UdpHeader(ends.dest + ends.source, 8 + |data|);
    assert |h| == 8 && h[6..8] == [0, 0] && h[..6] == ends.dest + ends.source + N16(8 + |data|);
    hide UdpHeader;
    var segment := SealFor(ipv4, ends.daddr, ends.saddr, 17, h, 6, [], data);
    assert [] + data == data && h + [] + data == h + data;
    UdpFields(segment, ends, 8 + |data|);
    packet := WriteIp(ipv4, ends.daddr, ends.saddr, 17, segment);
    CarriesIt(packet, ipv4, ends.daddr, ends.saddr, 17, segment);
  }

  lemma UdpFields(s: seq<byte>, ends: Ends, length: u16)
    requires |ends.source| == |ends.dest| == 2 && |s| >= 6 && s[..6] == ends.dest + ends.source + N16(length)
    ensures s[..2] == ends.dest && s[2..4] == ends.source && Be16(s, 4) == length
  {
    assert s[..2] == s[..6][..2] && s[2..4] == s[..6][2..4];
    assert s[4] == s[..6][4] && s[5] == s[..6][5];
  }

  /** The pseudo-headers byte by byte: section 3.1 of RFC 9293 for IPv4, and section 8.1 of RFC 8200. */
  lemma PseudoBytes(source: seq<byte>, dest: seq<byte>, protocol: byte, length: u16)
    ensures Pseudo(true, source, dest, protocol, length) == source + dest + [0, protocol, length / 0x100, length % 0x100]
    ensures Pseudo(false, source, dest, protocol, length) ==
            source + dest + [0, 0, length / 0x100, length % 0x100, 0, 0, 0, protocol]
  {
    assert [0, protocol] + N16(length) == [0, protocol, length / 0x100, length % 0x100];
    assert ([0, 0] + N16(length)) + [0, 0, 0, protocol] == [0, 0, length / 0x100, length % 0x100, 0, 0, 0, protocol];
  }

  /** Such a datagram: two bytes from port 53 of 10.0.0.2 to port 4096 of 10.0.0.1. */
  lemma ZeroChecksumDatagram()
    ensures SenderSum(true, [10, 0, 0, 2], [10, 0, 0, 1], 17, UdpHeader([0, 53, 16, 0], 10) + [0xDB, 0xA2]) == 0xFFFF
  {
    hide NetworkSum;
    var port := ZeroTail();
    var t5 := NetPair(0, 10, port);
    var t4 := NetPair(0, 17, t5);
    var t3 := NetPair(0, 1, t4);
    var t2 := NetPair(10, 0, t3);
    var t1 := NetPair(0, 2, t2);
    var t0 := NetPair(10, 0, t1);
    assert Pseudo(true, [10, 0, 0, 2], [10, 0, 0, 1], 17, 10) + (UdpHeader([0, 53, 16, 0], 10) + [0xDB, 0xA2]) == t0;
  }

  /** Header and data of that datagram. */
  lemma ZeroTail() returns (t: seq<byte>)
    ensures t == [0, 53, 16, 0, 0, 10, 0, 0, 0xDB, 0xA2] && NetworkSum(t) == 0xDBA2 + 10 + 0x1000 + 53
  {
    hide NetworkSum;
    assert NetworkSum([]) == 0 by { NetEmpty(); }
    t := NetPair(0xDB, 0xA2, []);
    t := NetPair(0, 0, t);
    t := NetPair(0, 10, t);
    t := NetPair(16, 0, t);
    t := NetPair(0, 53, t);
  }

  lemma NetEmpty()
    ensures NetworkSum([]) == 0
  {
  }

  lemma NetPair(a: byte, b: byte, rest: seq<byte>) returns (s: seq<byte>)
    ensures s == [a, b] + rest && NetworkSum(s) == 0x100 * (a as int) + b + NetworkSum(rest)
  {
    s := [a, b] + rest;
    assert s[2..] == rest;
  }
}
