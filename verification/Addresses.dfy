/**
 Address classification of src/safe-url.js. An IPv4 address is a number below 2^32, an IPv6 address
 eight groups below 2^16; bits are numbered from the most significant, as RFC 6052 does. The source
 works with shifts and masks on disjoint fields: a shift is written as a division or a
 multiplication by a power of two, a low mask as a remainder, and an `|` as a sum.
 */
module Addresses {
  import opened Options

  type Group = x: int | 0 <= x < 0x10000
  type Address = x: int | 0 <= x < 0x1_0000_0000
  type Groups = g: seq<Group> | |g| == 8 witness [0, 0, 0, 0, 0, 0, 0, 0]

  datatype Reason =
    Loopback | LinkLocal | Metadata | Rfc1918 | Unspecified | Ula | Cgnat | Benchmark | Multicast | Reserved

  // A declared NAT64 prefix.
  datatype Prefix = Prefix(groups: Groups, len: nat)

  predicate IsLength(len: nat) {
    len == 32 || len == 40 || len == 48 || len == 56 || len == 64 || len == 96
  }

  // ---- IPv4 -----------------------------------------------------------------------------------------

  function V4Octet(v: Address, j: nat): (o: nat)
    requires j < 4
    ensures o < 0x100
  {
    if j == 0 then v / 0x1000000 else if j == 1 then v / 0x10000 % 0x100 else if j == 2 then v / 0x100 % 0x100
    else v % 0x100
  }

  function ClassifyIpv4(addr: Address): Option<Reason> {
    ClassifyOctets(V4Octet(addr, 0), V4Octet(addr, 1), V4Octet(addr, 2), V4Octet(addr, 3))
  }

  function ClassifyOctets(a: nat, b: nat, c: nat, d: nat): Option<Reason> {
    if a == 169 && b == 254 && c == 169 && d == 254 then Some(Metadata)
    else if a == 0 then Some(Unspecified)
    else if a == 127 then Some(Loopback)
    else if a == 169 && b == 254 then Some(LinkLocal)
    else if a == 10 then Some(Rfc1918)
    else if a == 172 && b >= 16 && b <= 31 then Some(Rfc1918)
    else if a == 192 && b == 168 then Some(Rfc1918)
    else if a == 100 && b >= 64 && b <= 127 then Some(Cgnat)
    else if a == 198 && (b == 18 || b == 19) then Some(Benchmark)
    else if a == 192 && b == 0 && c == 0 then Some(Reserved)
    else if a >= 224 && a <= 239 then Some(Multicast)
    else if a >= 240 then Some(Reserved)
    else None
  }

  function Pow2(k: nat): (p: nat)
    ensures p > 0
  {
    if k == 0 then 1 else 2 * Pow2(k - 1)
  }

  /** The octets a.b.c.d as one address. */
  function V4(a: nat, b: nat, c: nat, d: nat): Address
    requires a < 256 && b < 256 && c < 256 && d < 256
  {
    a * 0x1000000 + b * 0x10000 + c * 0x100 + d
  }

  /** addr lies in base/len: between its first address and its last. */
  predicate In(addr: Address, base: Address, len: nat)
    requires len <= 32
  {
    base <= addr < base + Pow2(32 - len)
  }

  /** The blocked ranges, in the notation of their RFCs. */
  predicate InRange(addr: Address, r: Reason) {
    match r
    case Metadata => addr == V4(169, 254, 169, 254)
    case Unspecified => In(addr, 0, 8)
    case Loopback => In(addr, V4(127, 0, 0, 0), 8)
    case LinkLocal => In(addr, V4(169, 254, 0, 0), 16) && addr != V4(169, 254, 169, 254)
    case Rfc1918 => In(addr, V4(10, 0, 0, 0), 8) || In(addr, V4(172, 16, 0, 0), 12) || In(addr, V4(192, 168, 0, 0), 16)
    case Cgnat => In(addr, V4(100, 64, 0, 0), 10)
    case Benchmark => In(addr, V4(198, 18, 0, 0), 15)
    case Multicast => In(addr, V4(224, 0, 0, 0), 4)
    case Reserved => In(addr, V4(192, 0, 0, 0), 24) || In(addr, V4(240, 0, 0, 0), 4)
    case Ula => false
  }

  lemma RangeSizes()
    ensures Pow2(8) == 0x100 && Pow2(16) == 0x10000 && Pow2(17) == 0x20000 && Pow2(20) == 0x100000
    ensures Pow2(22) == 0x400000 && Pow2(24) == 0x1000000 && Pow2(28) == 0x10000000
  {
    assert Pow2(4) == 16;
    assert Pow2(8) == 0x100;
    assert Pow2(12) == 0x1000;
    assert Pow2(16) == 0x10000;
    assert Pow2(20) == 0x100000;
    assert Pow2(24) == 0x1000000;
    assert Pow2(28) == 0x10000000;
  }

  lemma OctetsSum(v: Address)
    ensures v == V4(V4Octet(v, 0), V4Octet(v, 1), V4Octet(v, 2), V4Octet(v, 3))
  {
    var high, mid := v / 0x10000, v / 0x100;
    assert v == mid * 0x100 + v % 0x100;
    assert mid == mid / 0x100 * 0x100 + mid % 0x100 && mid / 0x100 == high;
    assert high == high / 0x100 * 0x100 + high % 0x100 && high / 0x100 == v / 0x1000000;
  }

  // A range whose prefix ends inside the first, or the second, octet.
  lemma WideRange(a: nat, b: nat, c: nat, d: nat, first: nat, len: nat)
    requires a < 256 && b < 256 && c < 256 && d < 256 && first < 256 && (len == 4 || len == 8)
    requires len == 4 ==> first <= 240
    ensures In(V4(a, b, c, d), V4(first, 0, 0, 0), len) <==> first <= a < first + if len == 8 then 1 else 16
  {
    RangeSizes();
  }

  lemma NarrowRange(a: nat, b: nat, c: nat, d: nat, first: nat, second: nat, len: nat)
    requires a < 256 && b < 256 && c < 256 && d < 256 && first < 256
    requires (len == 10 && second <= 192) || (len == 12 && second <= 240) || (len == 15 && second <= 254)
      || (len == 16 && second <= 255)
    ensures
      var span := if len == 10 then 64 else if len == 12 then 16 else if len == 15 then 2 else 1;
      In(V4(a, b, c, d), V4(first, second, 0, 0), len) <==> a == first && second <= b < second + span
  {
    RangeSizes();
  }

  lemma ZeroRange(a: nat, b: nat, c: nat, d: nat)
    requires a < 256 && b < 256 && c < 256 && d < 256
    ensures InRange(V4(a, b, c, d), Unspecified) <==> a == 0
    ensures ClassifyOctets(a, b, c, d) == Some(Unspecified) <==> a == 0
  {
    RangeSizes();
  }

  lemma LeastRange(a: nat, b: nat, c: nat, d: nat)
    requires a < 256 && b < 256 && c < 256 && d < 256
    ensures In(V4(a, b, c, d), V4(192, 0, 0, 0), 24) <==> a == 192 && b == 0 && c == 0
  {
    RangeSizes();
  }

  lemma OctetRanges(a: nat, b: nat, c: nat, d: nat, r: Reason)
    requires a < 256 && b < 256 && c < 256 && d < 256
    ensures ClassifyOctets(a, b, c, d) == Some(r) <==> InRange(V4(a, b, c, d), r)
  {
    match r
    case Metadata =>
    case Unspecified => ZeroRange(a, b, c, d);
    case Loopback => WideRange(a, b, c, d, 127, 8);
    case LinkLocal => NarrowRange(a, b, c, d, 169, 254, 16);
    case Rfc1918 =>
      WideRange(a, b, c, d, 10, 8);
      NarrowRange(a, b, c, d, 172, 16, 12);
      NarrowRange(a, b, c, d, 192, 168, 16);
    case Cgnat => NarrowRange(a, b, c, d, 100, 64, 10);
    case Benchmark => NarrowRange(a, b, c, d, 198, 18, 15);
    case Multicast => WideRange(a, b, c, d, 224, 4);
    case Reserved =>
      WideRange(a, b, c, d, 240, 4);
      LeastRange(a, b, c, d);
    case Ula =>
  }

  /** An address is refused for a reason exactly when it lies in one of that reason's ranges. */
  lemma Ipv4Ranges(addr: Address, r: Reason)
    ensures ClassifyIpv4(addr) == Some(r) <==> InRange(addr, r)
  {
    OctetsSum(addr);
    OctetRanges(V4Octet(addr, 0), V4Octet(addr, 1), V4Octet(addr, 2), V4Octet(addr, 3), r);
  }

  // ---- embedding (RFC 6052, section 2.2) ------------------------------------------------------------

  function Octet(g: Groups, k: nat): nat
    requires k < 16
  {
    if k % 2 == 0 then g[k / 2] / 0x100 else g[k / 2] % 0x100
  }

  // Octet k of the address: the prefix, then v stepping over octet 8, then zeros.
  function EncodedOctet(p: Groups, len: nat, v: Address, k: nat): (o: nat)
    requires IsLength(len) && k < 16
    ensures o < 0x100
  {
    var n := len / 8;
    if k < n then Octet(p, k)
    else if len < 96 && k == 8 then 0
    else
      var j := if len < 96 && k > 8 then k - n - 1 else k - n;
      if j < 4 then V4Octet(v, j) else 0
  }

  function EncodedGroup(p: Groups, len: nat, v: Address, i: nat): Group
    requires IsLength(len) && i < 8
  {
    EncodedOctet(p, len, v, 2 * i) * 0x100 + EncodedOctet(p, len, v, 2 * i + 1)
  }

  function Encode(p: Groups, len: nat, v: Address): (g: Groups)
    requires IsLength(len)
    ensures forall i | 0 <= i < 8 :: g[i] == EncodedGroup(p, len, v, i)
  {
    seq(8, i requires 0 <= i < 8 => EncodedGroup(p, len, v, i))
  }

  // ---- nat64ReadAt ------------------------------------------------------------------------------------

  function ReadAt(g: Groups, len: nat): Address
    requires IsLength(len)
  {
    var g2: int, g3: int, g4: int, g5: int, g6: int, g7: int := g[2], g[3], g[4], g[5], g[6], g[7];
    if len == 32 then g2 * 0x10000 + g3
    else if len == 40 then g2 % 0x100 * 0x1000000 + g3 * 0x100 + g4 % 0x100
    else if len == 48 then g3 * 0x10000 + g4 % 0x100 * 0x100 + g5 / 0x100
    else if len == 56 then g3 % 0x100 * 0x1000000 + g4 % 0x100 * 0x10000 + g5
    else if len == 64 then g4 % 0x100 * 0x1000000 + g5 * 0x100 + g6 / 0x100
    else g6 * 0x10000 + g7
  }

  // The same encoding, group by group: the figure of that section.
  function Layout(p: Groups, len: nat, v: Address): Groups
    requires IsLength(len)
  {
    if len == 32 then [p[0], p[1], v / 0x10000, v % 0x10000, 0, 0, 0, 0]
    else if len == 40 then
      [p[0], p[1], p[2] / 0x100 * 0x100 + v / 0x1000000, v / 0x100 % 0x10000, v % 0x100, 0, 0, 0]
    else if len == 48 then [p[0], p[1], p[2], v / 0x10000, v / 0x100 % 0x100, v % 0x100 * 0x100, 0, 0]
    else if len == 56 then
      [p[0], p[1], p[2], p[3] / 0x100 * 0x100 + v / 0x1000000, v / 0x10000 % 0x100, v % 0x10000, 0, 0]
    else if len == 64 then
      [p[0], p[1], p[2], p[3], v / 0x1000000, v / 0x100 % 0x10000, v % 0x100 * 0x100, 0]
    else [p[0], p[1], p[2], p[3], p[4], p[5], v / 0x10000, v % 0x10000]
  }

  lemma EncodedLayout(p: Groups, len: nat, v: Address)
    requires IsLength(len)
    ensures Encode(p, len, v) == Layout(p, len, v)
  {
    forall i | 0 <= i < 8 ensures EncodedGroup(p, len, v, i) == Layout(p, len, v)[i] {
      LayoutGroup(p, len, v, i);
    }
  }

  lemma OctetPairs(v: Address)
    ensures V4Octet(v, 0) * 0x100 + V4Octet(v, 1) == v / 0x10000
    ensures V4Octet(v, 1) * 0x100 + V4Octet(v, 2) == v / 0x100 % 0x10000
    ensures V4Octet(v, 2) * 0x100 + V4Octet(v, 3) == v % 0x10000
  {
    OctetsSum(v);
    var a, b, c, d := V4Octet(v, 0), V4Octet(v, 1), V4Octet(v, 2), V4Octet(v, 3);
    assert v == (a * 0x100 + b) * 0x10000 + (c * 0x100 + d);
    var w := v / 0x100;
    assert w == a * 0x10000 + (b * 0x100 + c);
  }

  lemma PrefixGroup(p: Groups, len: nat, v: Address, i: nat)
    requires IsLength(len) && i < len / 16
    ensures EncodedGroup(p, len, v, i) == p[i]
  {
  }

  lemma LayoutOf32(p: Groups, v: Address, i: nat)
    requires i < 8
    ensures EncodedGroup(p, 32, v, i) == Layout(p, 32, v)[i]
  {
    OctetPairs(v);
    if i < 2 { PrefixGroup(p, 32, v, i); } else if i == 2 {} else if i == 3 {} else if i == 4 {}
    else if i == 5 {} else if i == 6 {} else {}
  }

  lemma LayoutOf40(p: Groups, v: Address, i: nat)
    requires i < 8
    ensures EncodedGroup(p, 40, v, i) == Layout(p, 40, v)[i]
  {
    OctetPairs(v);
    if i < 2 { PrefixGroup(p, 40, v, i); } else if i == 2 {} else if i == 3 {} else if i == 4 {}
    else if i == 5 {} else if i == 6 {} else {}
  }

  lemma LayoutOf48(p: Groups, v: Address, i: nat)
    requires i < 8
    ensures EncodedGroup(p, 48, v, i) == Layout(p, 48, v)[i]
  {
    OctetPairs(v);
    if i < 3 { PrefixGroup(p, 48, v, i); } else if i == 3 {} else if i == 4 {}
    else if i == 5 {} else if i == 6 {} else {}
  }

  lemma LayoutOf56(p: Groups, v: Address, i: nat)
    requires i < 8
    ensures EncodedGroup(p, 56, v, i) == Layout(p, 56, v)[i]
  {
    OctetPairs(v);
    if i < 3 { PrefixGroup(p, 56, v, i); } else if i == 3 {} else if i == 4 {}
    else if i == 5 {} else if i == 6 {} else {}
  }

  lemma LayoutOf64(p: Groups, v: Address, i: nat)
    requires i < 8
    ensures EncodedGroup(p, 64, v, i) == Layout(p, 64, v)[i]
  {
    OctetPairs(v);
    if i < 4 { PrefixGroup(p, 64, v, i); } else if i == 4 {} else if i == 5 {} else if i == 6 {} else {}
  }

  lemma LayoutOf96(p: Groups, v: Address, i: nat)
    requires i < 8
    ensures EncodedGroup(p, 96, v, i) == Layout(p, 96, v)[i]
  {
    OctetPairs(v);
    if i < 6 { PrefixGroup(p, 96, v, i); } else if i == 6 {} else {}
  }

  lemma LayoutGroup(p: Groups, len: nat, v: Address, i: nat)
    requires IsLength(len) && i < 8
    ensures EncodedGroup(p, len, v, i) == Layout(p, len, v)[i]
  {
    if len == 32 { LayoutOf32(p, v, i); }
    else if len == 40 { LayoutOf40(p, v, i); }
    else if len == 48 { LayoutOf48(p, v, i); }
    else if len == 56 { LayoutOf56(p, v, i); }
    else if len == 64 { LayoutOf64(p, v, i); }
    else { LayoutOf96(p, v, i); }
  }

  lemma HalfJoined(high: nat, low: nat)
    requires low < 0x100
    ensures (high * 0x100 + low) % 0x100 == low && (high * 0x100 + low) / 0x100 == high
  {
  }

  lemma ReadLayoutShort(p: Groups, len: nat, v: Address)
    requires len == 32 || len == 40 || len == 48
    ensures ReadAt(Layout(p, len, v), len) == v
  {
    OctetPairs(v);
    OctetsSum(v);
    HalfJoined(p[2] / 0x100, v / 0x1000000);
    HalfJoined(V4Octet(v, 3), 0);
  }

  lemma ReadLayoutLong(p: Groups, len: nat, v: Address)
    requires len == 56 || len == 64 || len == 96
    ensures ReadAt(Layout(p, len, v), len) == v
  {
    OctetPairs(v);
    OctetsSum(v);
    HalfJoined(p[3] / 0x100, v / 0x1000000);
    HalfJoined(V4Octet(v, 3), 0);
  }

  /** Reading an RFC 6052 encoding at its own length gives the address back, whatever the prefix. */
  lemma ReadBack(p: Groups, len: nat, v: Address)
    requires IsLength(len)
    ensures ReadAt(Encode(p, len, v), len) == v
  {
    EncodedLayout(p, len, v);
    if len <= 48 { ReadLayoutShort(p, len, v); } else { ReadLayoutLong(p, len, v); }
  }

  // ---- bits -------------------------------------------------------------------------------------------

  function Shift(x: Group, n: nat): Group {
    if n == 0 then x else Shift(x, n - 1) / 2
  }

  function BitOf(x: Group, j: nat): nat
    requires j < 16
  {
    Shift(x, 15 - j) % 2
  }

  function Bit(g: Groups, i: nat): nat
    requires i < 128
  {
    BitOf(g[i / 16], i % 16)
  }

  /** The two addresses agree on their leading len bits. */
  predicate SharesPrefix(g: Groups, p: Groups, len: nat)
    requires len <= 128
  {
    forall i | 0 <= i < len :: Bit(g, i) == Bit(p, i)
  }

  // /96 fills the tail; /64 runs 72-103; the shorter layouts resume at 72 and end at len + 40.
  function SuffixStart(len: nat): (start: nat)
    requires IsLength(len)
    ensures start <= 128
  {
    if len == 96 then 128 else if len == 64 then 104 else len + 40
  }

  /** Some bit is set after the embedded address. */
  predicate Dirty(g: Groups, len: nat)
    requires IsLength(len)
  {
    exists i | SuffixStart(len) <= i < 128 :: Bit(g, i) == 1
  }

  lemma ShiftedOut(x: Group)
    ensures Shift(x, 8) == x / 0x100 && Shift(x, 16) == 0
  {
    assert Shift(x, 1) == x / 2;
    assert Shift(x, 2) == x / 4;
    assert Shift(x, 3) == x / 8;
    assert Shift(x, 4) == x / 0x10;
    assert Shift(x, 5) == x / 0x20;
    assert Shift(x, 6) == x / 0x40;
    assert Shift(x, 7) == x / 0x80;
    assert Shift(x, 8) == x / 0x100;
    var y := Shift(x, 8);
    assert Shift(x, 10) == y / 2 / 2;
    assert Shift(x, 12) == y / 2 / 2 / 2 / 2;
    assert Shift(x, 14) == y / 2 / 2 / 2 / 2 / 2 / 2;
    assert Shift(x, 16) == y / 2 / 2 / 2 / 2 / 2 / 2 / 2 / 2;
  }

  /** The leading k bits of two groups agree exactly when what is left of them after shifting is equal. */
  lemma {:induction false} LeadingBits(x: Group, y: Group, k: nat)
    requires k <= 16
    ensures Shift(x, 16 - k) == Shift(y, 16 - k) <==> forall j | 0 <= j < k :: BitOf(x, j) == BitOf(y, j)
  {
    if k == 0 {
      ShiftedOut(x);
      ShiftedOut(y);
    } else {
      LeadingBits(x, y, k - 1);
      assert Shift(x, 16 - k) == 2 * Shift(x, 17 - k) + BitOf(x, k - 1);
      assert Shift(y, 16 - k) == 2 * Shift(y, 17 - k) + BitOf(y, k - 1);
    }
  }

  lemma {:induction false} ZeroShifts(n: nat)
    ensures Shift(0, n) == 0
  {
    if n > 0 { ZeroShifts(n - 1); }
  }

  lemma ZeroGroup(x: Group)
    ensures x == 0 <==> forall j | 0 <= j < 16 :: BitOf(x, j) != 1
  {
    LeadingBits(x, 0, 16);
    forall j | 0 <= j < 16 ensures BitOf(0, j) == 0 { ZeroShifts(15 - j); }
  }

  lemma QuotientDecides(k: nat, s: nat, q: nat, r: nat, d: nat)
    requires k < q && s < d
    ensures k * d + s < q * d + r
  {
    assert q * d == k * d + d + (q - k - 1) * d;
  }

  lemma Remainder(x: nat, q: nat, r: nat, d: nat)
    requires d > 0 && r < d && x == q * d + r
    ensures x % d == r
  {
    var k, s := x / d, x % d;
    assert x == k * d + s;
    if k < q { QuotientDecides(k, s, q, r, d); }
    if q < k { QuotientDecides(q, r, k, s, d); }
  }

  lemma Halved(x: nat, m: nat)
    requires m > 0
    ensures x % (2 * m) == 0 <==> x % 2 == 0 && x / 2 % m == 0
  {
    var h := x / 2;
    var q, r := h / m, h % m;
    assert h == q * m + r;
    assert x == q * (2 * m) + (2 * r + x % 2) by { assert q * (2 * m) == 2 * (q * m); }
    Remainder(x, q, 2 * r + x % 2, 2 * m);
  }

  lemma ZeroLowHalf(x: Group)
    ensures x % 0x100 == 0 <==> forall j | 8 <= j < 16 :: BitOf(x, j) != 1
  {
    Halved(x, 0x80);
    Halved(Shift(x, 1), 0x40);
    Halved(Shift(x, 2), 0x20);
    Halved(Shift(x, 3), 0x10);
    Halved(Shift(x, 4), 8);
    Halved(Shift(x, 5), 4);
    Halved(Shift(x, 6), 2);
    EightBits(x);
  }

  lemma EightBits(x: Group)
    ensures (forall j | 8 <= j < 16 :: BitOf(x, j) != 1)
      <==> && BitOf(x, 8) != 1 && BitOf(x, 9) != 1 && BitOf(x, 10) != 1 && BitOf(x, 11) != 1
           && BitOf(x, 12) != 1 && BitOf(x, 13) != 1 && BitOf(x, 14) != 1 && BitOf(x, 15) != 1
  {
  }

  /** Prefix equality, group by group. */
  predicate SameGroups(g: Groups, p: Groups, len: nat)
    requires IsLength(len)
  {
    && (forall i | 0 <= i < len / 16 :: g[i] == p[i])
    && (len % 16 == 8 ==> g[len / 16] / 0x100 == p[len / 16] / 0x100)
  }

  lemma SharesByGroups(g: Groups, p: Groups, len: nat)
    requires IsLength(len)
    ensures SharesPrefix(g, p, len) <==> SameGroups(g, p, len)
  {
    forall i | 0 <= i < 8
      ensures g[i] == p[i] <==> forall j | 0 <= j < 16 :: BitOf(g[i], j) == BitOf(p[i], j)
      ensures g[i] / 0x100 == p[i] / 0x100 <==> forall j | 0 <= j < 8 :: BitOf(g[i], j) == BitOf(p[i], j)
    {
      LeadingBits(g[i], p[i], 16);
      LeadingBits(g[i], p[i], 8);
      ShiftedOut(g[i]);
      ShiftedOut(p[i]);
    }
    if SharesPrefix(g, p, len) {
      forall i, j | 0 <= i < 8 && 0 <= j < 16 && 16 * i + j < len ensures BitOf(g[i], j) == BitOf(p[i], j) {
        assert Bit(g, 16 * i + j) == Bit(p, 16 * i + j);
      }
    }
  }

  /** A clean suffix, group by group. */
  predicate ZeroTail(g: Groups, from: nat)
    requires from <= 128
  {
    && (from % 16 == 8 ==> g[from / 16] % 0x100 == 0)
    && (forall i | (from + 15) / 16 <= i < 8 :: g[i] == 0)
  }

  lemma CleanByGroups(g: Groups, len: nat)
    requires IsLength(len)
    ensures !Dirty(g, len) <==> ZeroTail(g, SuffixStart(len))
  {
    var from := SuffixStart(len);
    forall i | 0 <= i < 8
      ensures g[i] == 0 <==> forall j | 0 <= j < 16 :: BitOf(g[i], j) != 1
      ensures g[i] % 0x100 == 0 <==> forall j | 8 <= j < 16 :: BitOf(g[i], j) != 1
    {
      ZeroGroup(g[i]);
      ZeroLowHalf(g[i]);
    }
    if !Dirty(g, len) {
      forall i, j | 0 <= i < 8 && 0 <= j < 16 && from <= 16 * i + j ensures BitOf(g[i], j) != 1 {
        assert Bit(g, 16 * i + j) != 1;
      }
    }
  }

  // nat64InPrefix
  method Nat64InPrefix(g: Groups, prefix: Groups, len: nat) returns (inside: bool)
    requires IsLength(len)
    ensures inside == SharesPrefix(g, prefix, len)
  {
    SharesByGroups(g, prefix, len);
    var whole := len / 16;
    var i := 0;
    while i < whole
      invariant 0 <= i <= whole
      invariant forall k | 0 <= k < i :: g[k] == prefix[k]
    {
      if g[i] != prefix[i] { return false; }
      i := i + 1;
    }
    // The mask keeps the leading len % 16 bits, which is half a group when it is not none.
    if len % 16 != 0 {
      if g[whole] / 0x100 != prefix[whole] / 0x100 { return false; }
    }
    return true;
  }

  // nat64SuffixDirty
  method Nat64SuffixDirty(g: Groups, len: nat) returns (dirty: bool)
    requires IsLength(len)
    ensures dirty == Dirty(g, len)
  {
    var bit := SuffixStart(len);
    while bit < 128
      invariant SuffixStart(len) <= bit <= 128
      invariant forall k | SuffixStart(len) <= k < bit :: Bit(g, k) != 1
    {
      if Bit(g, bit) != 0 {
        assert Bit(g, bit) == 1;
        return true;
      }
      bit := bit + 1;
    }
    return false;
  }

  lemma LayoutShares(p: Groups, len: nat, v: Address)
    requires IsLength(len)
    ensures SameGroups(Layout(p, len, v), p, len)
  {
    HalfJoined(p[len / 16] / 0x100, v / 0x1000000);
  }

  lemma LayoutClean(p: Groups, len: nat, v: Address)
    requires IsLength(len)
    ensures ZeroTail(Layout(p, len, v), SuffixStart(len))
  {
    HalfJoined(v % 0x100, 0);
  }

  /** An RFC 6052 encoding lies in its prefix and has a clean suffix. */
  lemma EncodedShares(p: Groups, len: nat, v: Address)
    requires IsLength(len)
    ensures SharesPrefix(Encode(p, len, v), p, len) && !Dirty(Encode(p, len, v), len)
  {
    EncodedLayout(p, len, v);
    LayoutShares(p, len, v);
    LayoutClean(p, len, v);
    SharesByGroups(Encode(p, len, v), p, len);
    CleanByGroups(Encode(p, len, v), len);
  }

  // Octet 8 of an address, which section 2.2 reserves as zero.
  function UOctet(g: Groups): nat { g[4] / 0x100 }

  lemma Fields(a: nat, m: nat, d: nat)
    requires a < 0x100 && m < 0x10000 && d < 0x100
    ensures
      var v := a * 0x1000000 + m * 0x100 + d;
      v / 0x1000000 == a && v / 0x100 % 0x10000 == m && v % 0x100 == d
  {
    var v := a * 0x1000000 + m * 0x100 + d;
    assert v / 0x100 == a * 0x10000 + m;
  }

  lemma CleanIs32(g: Groups, p: Groups)
    requires SameGroups(g, p, 32) && ZeroTail(g, SuffixStart(32)) && UOctet(g) == 0
    ensures g == Layout(p, 32, ReadAt(g, 32))
  {
  }

  lemma CleanIs40(g: Groups, p: Groups)
    requires SameGroups(g, p, 40) && ZeroTail(g, SuffixStart(40)) && UOctet(g) == 0
    ensures g == Layout(p, 40, ReadAt(g, 40))
  {
    Fields(g[2] % 0x100, g[3], g[4] % 0x100);
  }

  lemma CleanIs48(g: Groups, p: Groups)
    requires SameGroups(g, p, 48) && ZeroTail(g, SuffixStart(48)) && UOctet(g) == 0
    ensures g == Layout(p, 48, ReadAt(g, 48))
  {
    WordOctets(g[3], g[4] % 0x100, g[5] / 0x100);
    assert g[4] == g[4] % 0x100 && g[5] == g[5] / 0x100 * 0x100;
  }

  // A word and two octets after it, and two octets and a word.
  lemma WordOctets(w: nat, a: nat, b: nat)
    requires w < 0x10000 && a < 0x100 && b < 0x100
    ensures
      var v := w * 0x10000 + a * 0x100 + b;
      v / 0x10000 == w && v / 0x100 % 0x100 == a && v % 0x100 == b
  {
    var v := w * 0x10000 + a * 0x100 + b;
    assert v / 0x100 == w * 0x100 + a;
  }

  lemma OctetsWord(a: nat, b: nat, w: nat)
    requires a < 0x100 && b < 0x100 && w < 0x10000
    ensures
      var v := a * 0x1000000 + b * 0x10000 + w;
      v / 0x1000000 == a && v / 0x10000 % 0x100 == b && v % 0x10000 == w
  {
    var v := a * 0x1000000 + b * 0x10000 + w;
    assert v / 0x10000 == a * 0x100 + b;
  }

  lemma CleanIs56(g: Groups, p: Groups)
    requires SameGroups(g, p, 56) && ZeroTail(g, SuffixStart(56)) && UOctet(g) == 0
    ensures g == Layout(p, 56, ReadAt(g, 56))
  {
    OctetsWord(g[3] % 0x100, g[4] % 0x100, g[5]);
    assert g[4] == g[4] % 0x100;
  }

  lemma CleanIs64(g: Groups, p: Groups)
    requires SameGroups(g, p, 64) && ZeroTail(g, SuffixStart(64)) && UOctet(g) == 0
    ensures g == Layout(p, 64, ReadAt(g, 64))
  {
    Fields(g[4] % 0x100, g[5], g[6] / 0x100);
  }

  lemma CleanIs96(g: Groups, p: Groups)
    requires SameGroups(g, p, 96) && ZeroTail(g, SuffixStart(96))
    ensures g == Layout(p, 96, ReadAt(g, 96))
  {
  }

  lemma CleanIsLayout(g: Groups, p: Groups, len: nat)
    requires IsLength(len) && SameGroups(g, p, len) && ZeroTail(g, SuffixStart(len)) && (len < 96 ==> UOctet(g) == 0)
    ensures g == Layout(p, len, ReadAt(g, len))
  {
    if len == 32 { CleanIs32(g, p); }
    else if len == 40 { CleanIs40(g, p); }
    else if len == 48 { CleanIs48(g, p); }
    else if len == 56 { CleanIs56(g, p); }
    else if len == 64 { CleanIs64(g, p); }
    else { CleanIs96(g, p); }
  }

  lemma LayoutUOctet(p: Groups, len: nat, v: Address)
    requires IsLength(len) && len < 96
    ensures UOctet(Layout(p, len, v)) == 0
  {
  }

  /**
   The encodings of one prefix are exactly the addresses that share it, leave octet 8 as section 2.2
   wants it and have a clean suffix: reading and encoding are inverse.
   */
  lemma EncodingsAreClean(g: Groups, p: Groups, len: nat)
    requires IsLength(len)
    ensures g == Encode(p, len, ReadAt(g, len))
      <==> SharesPrefix(g, p, len) && !Dirty(g, len) && (len < 96 ==> UOctet(g) == 0)
  {
    var v := ReadAt(g, len);
    SharesByGroups(g, p, len);
    CleanByGroups(g, len);
    EncodedLayout(p, len, v);
    if g == Encode(p, len, v) {
      EncodedShares(p, len, v);
      if len < 96 { LayoutUOctet(p, len, v); }
    }
    if SameGroups(g, p, len) && ZeroTail(g, SuffixStart(len)) && (len < 96 ==> UOctet(g) == 0) {
      CleanIsLayout(g, p, len);
    }
  }
}
