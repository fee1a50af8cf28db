/**
 classifyIpv6 of src/safe-url.js, and what it makes of IPv4 addresses embedded under 64:ff9b::/32,
 with the NAT64 prefix declared and without.
 */
module Classify {
  import opened Options
  import opened Addresses

  // The address in the last 32 bits.
  function Tail32(g: Groups): Address { ReadAt(g, 96) }

  // What the rules ahead of NAT64 answer, null included; None when none of them does.
  function NativeAnswer(g: Groups): Option<Option<Reason>> {
    var highZero := g[0] == 0 && g[1] == 0 && g[2] == 0 && g[3] == 0 && g[4] == 0;
    if highZero && g[5] == 0xffff then Some(ClassifyIpv4(Tail32(g)))
    else if highZero && g[5] == 0 && (g[6] != 0 || g[7] != 0) && Tail32(g) != 1 && ClassifyIpv4(Tail32(g)).Some? then
      Some(ClassifyIpv4(Tail32(g)))
    else if highZero && g[5] == 0 && g[6] == 0 && g[7] == 0 then Some(Some(Unspecified))
    else if highZero && g[5] == 0 && g[6] == 0 && g[7] == 1 then Some(Some(Loopback))
    else if g == [0xfd00, 0x0ec2, 0, 0, 0, 0, 0, 0x0254] then Some(Some(Metadata))
    else if g[0] == 0 && g[1] == 0 && g[2] == 0 && g[3] == 0 && g[4] == 0xffff && g[5] == 0
      then Some(ClassifyIpv4(Tail32(g)))
    else if g[0] / 0x200 == 0x7e then Some(Some(Ula))                // fc00::/7
    else if g[0] / 0x40 == 0x3fa then Some(Some(LinkLocal))          // fe80::/10
    else if g[0] / 0x40 == 0x3fb then Some(Some(Ula))                // fec0::/10
    else if g[0] / 0x100 == 0xff then Some(Some(Multicast))          // ff00::/8
    else None
  }

  function ClassifyIpv6(g: Groups, nat64: Option<Prefix>): Option<Reason> {
    var native := NativeAnswer(g);
    if native.Some? then native.value
    else if nat64.Some? && IsLength(nat64.value.len) && SharesPrefix(g, nat64.value.groups, nat64.value.len) then
      Declared(g, nat64.value.len)
    else if InNat64(g) then Undeclared(g)
    else Tunnelled(g)
  }

  predicate InNat64(g: Groups) { g[0] == 0x0064 && g[1] == 0xff9b }

  // Under a declared prefix there is one reading, and the address has to be a conformant encoding.
  function Declared(g: Groups, len: nat): Option<Reason>
    requires IsLength(len)
  {
    if ClassifyIpv4(ReadAt(g, len)).Some? then ClassifyIpv4(ReadAt(g, len))
    else if UOctet(g) != 0 then Some(Reserved)
    else if Dirty(g, len) then Some(Reserved)
    else Tunnelled(g)
  }

  function Readings(g: Groups): seq<Address> {
    [ReadAt(g, 32), ReadAt(g, 40), ReadAt(g, 48), ReadAt(g, 56), ReadAt(g, 64), ReadAt(g, 96)]
  }

  predicate IsPadding(v: Address) { V4Octet(v, 0) == 0 }

  predicate AllPadding(readings: seq<Address>) {
    forall i | 0 <= i < |readings| :: IsPadding(readings[i])
  }

  // The first reading in a blocked range, one in 0.0.0.0/8 counting only when all are there.
  function FirstBlocked(readings: seq<Address>, allPadding: bool): Option<Reason> {
    if readings == [] then None
    else if (allPadding || !IsPadding(readings[0])) && ClassifyIpv4(readings[0]).Some? then ClassifyIpv4(readings[0])
    else FirstBlocked(readings[1..], allPadding)
  }

  function Undeclared(g: Groups): Option<Reason> {
    var blocked := FirstBlocked(Readings(g), AllPadding(Readings(g)));
    if blocked.Some? then blocked
    else if g[3] == 0 && g[4] == 0 && g[5] == 0 && g[6] == 0 && g[7] == 0 then Some(Unspecified)
    else if UOctet(g) != 0 then Some(Reserved)
    else None
  }

  // 6to4, Teredo and ISATAP.
  function Tunnelled(g: Groups): Option<Reason> {
    var g1: int := g[1];
    if g[0] == 0x2002 && ClassifyIpv4(g1 * 0x10000 + g[2]).Some? then ClassifyIpv4(g1 * 0x10000 + g[2])
    else if g[0] == 0x2001 && g[1] == 0 then Some(Reserved)
    else if (g[4] == 0 || g[4] == 0x0200) && g[5] == 0x5efe && ClassifyIpv4(Tail32(g)).Some?
      then ClassifyIpv4(Tail32(g))
    else None
  }

  // The loop over the readings.
  method FirstBlockedReading(readings: seq<Address>) returns (r: Option<Reason>)
    ensures r == FirstBlocked(readings, AllPadding(readings))
  {
    var allPadding := AllPadding(readings);
    var i := 0;
    while i < |readings|
      invariant 0 <= i <= |readings|
      invariant FirstBlocked(readings, allPadding) == FirstBlocked(readings[i..], allPadding)
    {
      assert readings[i..][1..] == readings[i + 1..];
      if allPadding || !IsPadding(readings[i]) {
        r := ClassifyIpv4(readings[i]);
        if r.Some? { return; }
      }
      i := i + 1;
    }
    return None;
  }

  /** A reading blocks when it lies in a blocked range, and nothing is skipped but 0.0.0.0/8. */
  lemma {:induction false} BlockedExactly(readings: seq<Address>, allPadding: bool)
    ensures FirstBlocked(readings, allPadding).None?
      <==> forall i | 0 <= i < |readings| :: ClassifyIpv4(readings[i]).None? || (!allPadding && IsPadding(readings[i]))
  {
    if readings != [] {
      BlockedExactly(readings[1..], allPadding);
      assert forall i | 0 < i < |readings| :: readings[i] == readings[1..][i - 1];
      assert forall i | 0 <= i < |readings[1..]| :: readings[1..][i] == readings[i + 1];
    }
  }

  predicate Public(v: Address) { ClassifyIpv4(v).None? }

  lemma PaddingIsBlocked(v: Address)
    requires IsPadding(v)
    ensures !Public(v)
  {
  }

  /** The readings let an address through exactly when each is public or padding and one is not padding. */
  lemma ReadingsPass(rs: seq<Address>)
    requires rs != []
    ensures FirstBlocked(rs, AllPadding(rs)).None?
      <==> (forall i | 0 <= i < |rs| :: Public(rs[i]) || IsPadding(rs[i])) && !AllPadding(rs)
  {
    BlockedExactly(rs, AllPadding(rs));
    if AllPadding(rs) { PaddingIsBlocked(rs[0]); }
  }

  ghost predicate Readable(g: Groups) {
    forall len | IsLength(len) :: Public(ReadAt(g, len)) || IsPadding(ReadAt(g, len))
  }

  ghost predicate Padded(g: Groups) {
    forall len | IsLength(len) :: IsPadding(ReadAt(g, len))
  }

  lemma SixReadings(g: Groups)
    ensures Readable(g) <==> forall i | 0 <= i < 6 :: Public(Readings(g)[i]) || IsPadding(Readings(g)[i])
    ensures Padded(g) <==> AllPadding(Readings(g))
  {
    var rs := Readings(g);
    assert rs[0] == ReadAt(g, 32) && rs[1] == ReadAt(g, 40) && rs[2] == ReadAt(g, 48);
    assert rs[3] == ReadAt(g, 56) && rs[4] == ReadAt(g, 64) && rs[5] == ReadAt(g, 96);
  }

  /**
   With no prefix declared, an address in 64:ff9b::/32 passes exactly when each of its six readings is
   public or in 0.0.0.0/8, some reading is not in 0.0.0.0/8, octet 8 is zero, and something follows
   the first 48 bits.
   */
  lemma UndeclaredPasses(g: Groups)
    requires InNat64(g)
    ensures ClassifyIpv6(g, None).None?
      <==> Readable(g) && !Padded(g) && UOctet(g) == 0
           && !(g[3] == 0 && g[4] == 0 && g[5] == 0 && g[6] == 0 && g[7] == 0)
  {
    UndeclaredRules(g, Readings(g));
    ReadingsPass(Readings(g));
    SixReadings(g);
  }

  lemma UndeclaredRules(g: Groups, rs: seq<Address>)
    requires InNat64(g) && rs == Readings(g)
    ensures ClassifyIpv6(g, None).None?
      <==> FirstBlocked(rs, AllPadding(rs)).None? && UOctet(g) == 0
           && !(g[3] == 0 && g[4] == 0 && g[5] == 0 && g[6] == 0 && g[7] == 0)
  {
  }

  /**
   Hence a blocked address outside 0.0.0.0/8 is refused under any prefix in 64:ff9b::/32 and at any of
   the six lengths, whatever the bits that length does not read hold.
   */
  lemma NeverSmuggled(g: Groups, len: nat)
    requires InNat64(g) && IsLength(len)
    requires !Public(ReadAt(g, len)) && !IsPadding(ReadAt(g, len))
    ensures ClassifyIpv6(g, None).Some?
  {
    UndeclaredPasses(g);
  }

  // ---- under a declared prefix ------------------------------------------------------------------------

  // A /56 encoding whose interface identifier happens to spell ISATAP's: v is x.0.94.254.
  predicate SpellsIsatap(len: nat, v: Address) {
    len == 56 && V4Octet(v, 1) == 0 && V4Octet(v, 2) == 0x5e && V4Octet(v, 3) == 0xfe
  }

  /** A prefix none of the other rules knows: no native range, not 6to4 and not Teredo. */
  predicate Ordinary(p: Groups) {
    && p[0] != 0 && p[0] / 0x200 != 0x7e && p[0] / 0x40 != 0x3fa && p[0] / 0x40 != 0x3fb && p[0] / 0x100 != 0xff
    && p[0] != 0x2002 && (p[0] != 0x2001 || p[1] != 0)
  }

  // What the 6to4 rule reads behind 2002: two groups, which a short prefix leaves partly to v.
  function SixToFour(p: Groups, len: nat, v: Address): Address {
    var p1: int, p2: int := p[1], p[2];
    if len == 32 then p1 * 0x10000 + v / 0x10000
    else if len == 40 then p1 * 0x10000 + p2 / 0x100 * 0x100 + v / 0x1000000
    else p1 * 0x10000 + p2
  }

  /** What lets a public address through once no native range answers. */
  predicate PublicPasses(p: Groups, len: nat, v: Address) {
    && (len == 96 ==> UOctet(p) == 0)
    && (p[0] == 0x2002 ==> Public(SixToFour(p, len, v)))
    && !(p[0] == 0x2001 && p[1] == 0)
    && !SpellsIsatap(len, v)
  }

  predicate ZeroHalf(p: Groups) { p[0] == 0 && p[1] == 0 && p[2] == 0 && p[3] == 0 }

  // IPv4-mapped ::ffff:0:0/96 and IPv4-translated ::ffff:0:0:0/96.
  predicate CarriesIpv4(p: Groups, len: nat) {
    len == 96 && ZeroHalf(p) && ((p[4] == 0 && p[5] == 0xffff) || (p[4] == 0xffff && p[5] == 0))
  }

  predicate IsCompatible(p: Groups, len: nat) { len == 96 && ZeroHalf(p) && p[4] == 0 && p[5] == 0 }

  // Under ::/64 the address 0.255.255.d or 0.0.0.d, d not zero, reads as a mapped or compatible d.0.0.0.
  predicate ReadsAside(v: Address) {
    && V4Octet(v, 0) == 0 && V4Octet(v, 3) != 0
    && ((V4Octet(v, 1) == 0xff && V4Octet(v, 2) == 0xff)
        || (V4Octet(v, 1) == 0 && V4Octet(v, 2) == 0 && ClassifyOctets(V4Octet(v, 3), 0, 0, 0).Some?))
  }

  /** When a declared prefix is transparent for v, from the prefix and v alone, space by space. */
  predicate Transparent(p: Groups, len: nat, v: Address) {
    if p[0] / 0x200 == 0x7e || p[0] / 0x40 == 0x3fb then false               // fc00::/7 and fec0::/10
    else if p[0] / 0x40 == 0x3fa then ClassifyIpv4(v) == Some(LinkLocal)     // fe80::/10
    else if p[0] / 0x100 == 0xff then ClassifyIpv4(v) == Some(Multicast)     // ff00::/8
    else if CarriesIpv4(p, len) then true
    else if IsCompatible(p, len) then v != 1
    else if len == 64 && ZeroHalf(p) then !ReadsAside(v)
    else Public(v) ==> PublicPasses(p, len, v)
  }

  // What an encoding comes to under its own declared prefix, whatever that prefix is.
  lemma DeclaredAnswers(p: Groups, len: nat, v: Address)
    requires IsLength(len)
    ensures
      var g := Layout(p, len, v);
      && Encode(p, len, v) == g
      && ClassifyIpv6(g, Some(Prefix(p, len)))
         == if NativeAnswer(g).Some? then NativeAnswer(g).value
            else if !Public(v) then ClassifyIpv4(v)
            else if UOctet(g) != 0 then Some(Reserved)
            else Tunnelled(g)
    ensures UOctet(Layout(p, len, v)) == if len == 96 then UOctet(p) else 0
  {
    EncodedShares(p, len, v);
    ReadBack(p, len, v);
    EncodedLayout(p, len, v);
    if len < 96 { LayoutUOctet(p, len, v); }
  }

  /** For every declared prefix, wherever it lives: when an encoding is classified as the address it embeds. */
  lemma TransparentExactly(p: Groups, len: nat, v: Address)
    requires IsLength(len)
    ensures ClassifyIpv6(Encode(p, len, v), Some(Prefix(p, len))) == ClassifyIpv4(v) <==> Transparent(p, len, v)
  {
    DeclaredAnswers(p, len, v);
    if IsHigh(p) {
      HighSpaces(p, len, v);
    } else if CarriesIpv4(p, len) || IsCompatible(p, len) {
      TailIsV(p, v);
    } else if len == 64 && ZeroHalf(p) {
      ZeroHalfAt64(p, v);
    } else {
      NativeIsSilent(p, len, v);
      if Public(v) { TunnelsExactly(p, len, v); }
    }
  }

  predicate IsHigh(p: Groups) {
    p[0] / 0x200 == 0x7e || p[0] / 0x40 == 0x3fa || p[0] / 0x40 == 0x3fb || p[0] / 0x100 == 0xff
  }

  // The first group answers, and no IPv4 address is ever unique-local.
  lemma HighSpaces(p: Groups, len: nat, v: Address)
    requires IsLength(len) && IsHigh(p)
    ensures
      var native := NativeAnswer(Layout(p, len, v));
      if p[0] / 0x200 == 0x7e || p[0] / 0x40 == 0x3fb then native.Some? && native.value != ClassifyIpv4(v)
      else if p[0] / 0x40 == 0x3fa then native == Some(Some(LinkLocal))
      else native == Some(Some(Multicast)) && p[0] / 0x100 == 0xff
  {
    // The one metadata address there would embed an unspecified IPv4 address.
    if len == 96 && v == 0x0254 { assert V4Octet(v, 0) == 0; }
  }

  lemma TailIsV(p: Groups, v: Address)
    ensures Tail32(Layout(p, 96, v)) == v
    ensures IsCompatible(p, 96) ==> UOctet(p) == 0 && Tunnelled(Layout(p, 96, v)) == None
  {
  }

  // ::/64: only an address in 0.0.0.0/8 leaves group 4 zero.
  lemma ZeroHalfAt64(p: Groups, v: Address)
    requires ZeroHalf(p)
    ensures
      var native := NativeAnswer(Layout(p, 64, v));
      if native.Some? then native.value == ClassifyIpv4(v) <==> !ReadsAside(v)
      else !ReadsAside(v) && (Public(v) ==> Tunnelled(Layout(p, 64, v)) == None)
  {
    OctetPairs(v);
    OctetsAt64(V4Octet(v, 0), V4Octet(v, 1), V4Octet(v, 2), V4Octet(v, 3), Layout(p, 64, v));
    OctetsUnspecified(V4Octet(v, 3), 0, 0, 0);
    UnspecifiedIsZero(v);
    if Public(v) { IsatapAt64(p, v); }
  }

  lemma OctetsAt64(a: nat, b: nat, c: nat, d: nat, g: Groups)
    requires a < 0x100 && b < 0x100 && c < 0x100 && d < 0x100
    requires g == [0, 0, 0, 0, a, b * 0x100 + c, d * 0x100, 0]
    ensures
      var behind := ClassifyOctets(d, 0, 0, 0);
      NativeAnswer(g)
        == if a != 0 then None
           else if b == 0xff && c == 0xff then Some(behind)
           else if b == 0 && c == 0 && (d == 0 || behind.Some?) then Some(behind)
           else None
  {
    TopOctet(d, Tail32(g));
    OctetsUnspecified(d, 0, 0, 0);
  }

  lemma TopOctet(d: nat, v: Address)
    requires d < 0x100 && v == d * 0x1000000
    ensures ClassifyIpv4(v) == ClassifyOctets(d, 0, 0, 0)
  {
    assert v / 0x1000000 == d && v / 0x10000 == d * 0x100 && v / 0x100 == d * 0x10000;
    assert d * 0x100 % 0x100 == 0 && d * 0x10000 % 0x100 == 0 && v % 0x100 == 0;
  }

  lemma UnspecifiedIsZero(v: Address)
    ensures ClassifyIpv4(v) == Some(Unspecified) <==> V4Octet(v, 0) == 0
  {
    OctetsUnspecified(V4Octet(v, 0), V4Octet(v, 1), V4Octet(v, 2), V4Octet(v, 3));
  }

  lemma OctetsUnspecified(a: nat, b: nat, c: nat, d: nat)
    ensures ClassifyOctets(a, b, c, d) == Some(Unspecified) <==> a == 0
  {
  }

  // Elsewhere a native range answers only for an encoding of zeros, and as the address does.
  lemma NativeIsSilent(p: Groups, len: nat, v: Address)
    requires IsLength(len) && !IsHigh(p)
    requires !CarriesIpv4(p, len) && !IsCompatible(p, len) && !(len == 64 && ZeroHalf(p))
    ensures
      var native := NativeAnswer(Layout(p, len, v));
      native.Some? ==> native.value == ClassifyIpv4(v) && !Public(v)
  {
    OctetPairs(v);
    var g := Layout(p, len, v);
    if len < 64 && ZeroHalf(g) { assert V4Octet(v, 0) == 0; }
  }

  // For a public address: when no tunnel rule objects.
  lemma TunnelsExactly(p: Groups, len: nat, v: Address)
    requires IsLength(len) && Public(v)
    ensures Tunnelled(Layout(p, len, v)).None?
      <==> (p[0] == 0x2002 ==> Public(SixToFour(p, len, v))) && !(p[0] == 0x2001 && p[1] == 0) && !SpellsIsatap(len, v)
  {
    IsatapShape(p, len, v);
  }

  // The identifier, with a blocked address behind it.
  predicate IsatapBlocks(g: Groups) {
    (g[4] == 0 || g[4] == 0x0200) && g[5] == 0x5efe && !Public(Tail32(g))
  }

  lemma IsatapShape(p: Groups, len: nat, v: Address)
    requires IsLength(len) && Public(v)
    ensures IsatapBlocks(Layout(p, len, v)) <==> SpellsIsatap(len, v)
    ensures SpellsIsatap(len, v) ==> Tail32(Layout(p, len, v)) == 0
  {
    if len == 56 { IsatapAt56(p, v); }
    else if len == 64 { IsatapAt64(p, v); }
    else if len == 96 { TailIsV(p, v); }
    else { IsatapElsewhere(p, len, v); }
  }

  lemma IsatapAt56(p: Groups, v: Address)
    ensures Tail32(Layout(p, 56, v)) == 0
    ensures IsatapBlocks(Layout(p, 56, v)) <==> SpellsIsatap(56, v)
  {
    OctetPairs(v);
    assert Tail32(Layout(p, 56, v)) == 0;
  }

  // Under a /64 the identifier would need a zero leading octet, and such a v is not public.
  lemma IsatapAt64(p: Groups, v: Address)
    requires Public(v)
    ensures !IsatapBlocks(Layout(p, 64, v))
  {
  }

  lemma IsatapElsewhere(p: Groups, len: nat, v: Address)
    requires len == 32 || len == 40 || len == 48
    ensures !IsatapBlocks(Layout(p, len, v))
  {
    assert Layout(p, len, v)[5] % 0x100 == 0;
  }

  /**
   Under an ordinary prefix, 64:ff9b::/32 and an operator's own space included, an encoding is answered as its
   address but for a public one under a dirty u-octet or of the shape the ISATAP rule answers.
   */
  lemma DeclaredIsTransparent(p: Groups, len: nat, v: Address)
    requires Ordinary(p) && IsLength(len)
    ensures ClassifyIpv6(Encode(p, len, v), Some(Prefix(p, len)))
      == if Public(v) && len == 96 && UOctet(p) != 0 then Some(Reserved)
         else if Public(v) && SpellsIsatap(len, v) then Some(Unspecified)
         else ClassifyIpv4(v)
  {
    DeclaredAnswers(p, len, v);
    NativeIsSilent(p, len, v);
    if Public(v) { IsatapShape(p, len, v); }
  }

  /** So there it fails exactly for those. */
  lemma OrdinaryExactly(p: Groups, len: nat, v: Address)
    requires Ordinary(p) && IsLength(len)
    ensures ClassifyIpv6(Encode(p, len, v), Some(Prefix(p, len))) == ClassifyIpv4(v)
      <==> !(Public(v) && ((len == 96 && UOctet(p) != 0) || SpellsIsatap(len, v)))
  {
    DeclaredIsTransparent(p, len, v);
  }

  /** The exception is real: 8.0.94.254 under 64:ff9b:1::/56 is public, and is refused as unspecified. */
  lemma IsatapAnswersPublic()
    ensures
      var p := [0x0064, 0xff9b, 0x0001, 0, 0, 0, 0, 0];
      && Public(V4(8, 0, 94, 254))
      && ClassifyIpv6(Encode(p, 56, V4(8, 0, 94, 254)), Some(Prefix(p, 56))) == Some(Unspecified)
  {
    var v := V4(8, 0, 94, 254);
    assert V4Octet(v, 0) == 8 && V4Octet(v, 1) == 0 && V4Octet(v, 2) == 94 && V4Octet(v, 3) == 254;
    DeclaredIsTransparent([0x0064, 0xff9b, 0x0001, 0, 0, 0, 0, 0], 56, v);
  }
}
