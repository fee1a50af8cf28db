/**
 What classifyIpv6 of src/safe-url.js answers, by address space: the native ranges as blocks of leading bits, the
 spaces that carry an IPv4 address, and nothing anywhere else.
 */
module Spaces {
  import opened Options
  import opened Addresses
  import opened Classify

  const UNSPECIFIED: Groups := [0, 0, 0, 0, 0, 0, 0, 0]
  const LOOPBACK: Groups := [0, 0, 0, 0, 0, 0, 0, 1]
  const METADATA: Groups := [0xfd00, 0x0ec2, 0, 0, 0, 0, 0, 0x0254]
  const UNIQUE_LOCAL: Groups := [0xfc00, 0, 0, 0, 0, 0, 0, 0]
  const LINK_LOCAL: Groups := [0xfe80, 0, 0, 0, 0, 0, 0, 0]
  const SITE_LOCAL: Groups := [0xfec0, 0, 0, 0, 0, 0, 0, 0]
  const MULTICAST: Groups := [0xff00, 0, 0, 0, 0, 0, 0, 0]
  const MAPPED: Groups := [0, 0, 0, 0, 0, 0xffff, 0, 0]
  const TRANSLATED: Groups := [0, 0, 0, 0, 0xffff, 0, 0, 0]
  const NAT64: Groups := [0x0064, 0xff9b, 0, 0, 0, 0, 0, 0]
  const SIX_TO_FOUR: Groups := [0x2002, 0, 0, 0, 0, 0, 0, 0]
  const TEREDO: Groups := [0x2001, 0, 0, 0, 0, 0, 0, 0]

  /** The native ranges; the metadata address is a unique-local one called out by itself. */
  predicate NativeRange(g: Groups, r: Reason) {
    match r
    case Unspecified => SharesPrefix(g, UNSPECIFIED, 128)
    case Loopback => SharesPrefix(g, LOOPBACK, 128)
    case Metadata => SharesPrefix(g, METADATA, 128)
    case Ula => (SharesPrefix(g, UNIQUE_LOCAL, 7) && !SharesPrefix(g, METADATA, 128)) || SharesPrefix(g, SITE_LOCAL, 10)
    case LinkLocal => SharesPrefix(g, LINK_LOCAL, 10)
    case Multicast => SharesPrefix(g, MULTICAST, 8)
    case _ => false
  }

  ghost predicate IsNative(g: Groups) {
    exists r :: NativeRange(g, r)
  }

  ghost predicate Blocked(v: Address) {
    exists r :: InRange(v, r)
  }

  // The IPv4 address in bits 96 to 127, and in bits 16 to 47.
  function Low32(g: Groups): Address {
    var high: int := g[6];
    high * 0x10000 + g[7]
  }

  function Middle32(g: Groups): Address {
    var high: int := g[1];
    high * 0x10000 + g[2]
  }

  predicate Carries(g: Groups) {
    SharesPrefix(g, MAPPED, 96) || SharesPrefix(g, TRANSLATED, 96)
  }

  // ::a.b.c.d, which leaves a public address to the rules after it.
  predicate IsCompatibleAddress(g: Groups) {
    SharesPrefix(g, UNSPECIFIED, 96) && !SharesPrefix(g, UNSPECIFIED, 128) && !SharesPrefix(g, LOOPBACK, 128)
  }

  // Bits 64 to 95 spell 0000:5efe, or 0200:5efe with the u/l bit set.
  predicate HasIsatap(g: Groups) {
    var id: Groups := [g[4], g[5], 0, 0, 0, 0, 0, 0];
    SharesPrefix(id, [0, 0x5efe, 0, 0, 0, 0, 0, 0], 32) || SharesPrefix(id, [0x0200, 0x5efe, 0, 0, 0, 0, 0, 0], 32)
  }

  /** 6to4 at its address's class, Teredo whole, and an ISATAP identifier anywhere else at its address's class. */
  ghost predicate TunnelRange(g: Groups, r: Reason) {
    var six := SharesPrefix(g, SIX_TO_FOUR, 16) && Blocked(Middle32(g));
    || (six && InRange(Middle32(g), r))
    || (SharesPrefix(g, TEREDO, 32) && r == Reserved)
    || (HasIsatap(g) && !six && !SharesPrefix(g, TEREDO, 32) && InRange(Low32(g), r))
  }

  /** The one reading of a declared prefix, then what no encoding has, then the tunnels. */
  ghost predicate DeclaredRange(g: Groups, len: nat, r: Reason)
    requires IsLength(len)
  {
    if Blocked(ReadAt(g, len)) then InRange(ReadAt(g, len), r)
    else if UOctet(g) != 0 || Dirty(g, len) then r == Reserved
    else TunnelRange(g, r)
  }

  // A reading in a blocked range counts unless it is padding next to one that is not.
  ghost predicate Counts(readings: seq<Address>, i: nat) {
    i < |readings| && CountsIn(readings[i], AllPadding(readings))
  }

  ghost predicate CountsIn(v: Address, all: bool) {
    Blocked(v) && (all || !IsPadding(v))
  }

  ghost predicate CountsFirst(readings: seq<Address>, i: nat) {
    Counts(readings, i) && forall j: nat | j < i :: !Counts(readings, j)
  }

  ghost predicate NoneCounts(readings: seq<Address>) {
    forall i: nat | i < |readings| :: !Counts(readings, i)
  }

  /** The first of the six readings that counts; else the bare prefix; else a dirty u-octet. */
  ghost predicate UndeclaredRange(g: Groups, r: Reason) {
    var rs := Readings(g);
    || (exists i: nat :: CountsFirst(rs, i) && InRange(rs[i], r))
    || (NoneCounts(rs) && BarePrefix(g) && r == Unspecified)
    || (NoneCounts(rs) && !BarePrefix(g) && UOctet(g) != 0 && r == Reserved)
  }

  predicate BarePrefix(g: Groups) {
    forall i | 3 <= i < 8 :: g[i] == 0
  }

  predicate IsDeclared(g: Groups, nat64: Option<Prefix>) {
    nat64.Some? && IsLength(nat64.value.len) && SharesPrefix(g, nat64.value.groups, nat64.value.len)
  }

  /** The reason an address is refused for, space by space. */
  ghost predicate Refuses(g: Groups, nat64: Option<Prefix>, r: Reason) {
    if Carries(g) then InRange(Low32(g), r)
    else if IsNative(g) then NativeRange(g, r)
    else if IsCompatibleAddress(g) && Blocked(Low32(g)) then InRange(Low32(g), r)
    else if IsDeclared(g, nat64) then DeclaredRange(g, nat64.value.len, r)
    else if SharesPrefix(g, NAT64, 32) then UndeclaredRange(g, r)
    else TunnelRange(g, r)
  }

  // ---- blocks, group by group -----------------------------------------------------------------------------

  // The leading k bits of group i.
  predicate SameBits(g: Groups, p: Groups, i: nat, k: nat) {
    i < 8 && k <= 16 && forall j | 0 <= j < k :: BitOf(g[i], j) == BitOf(p[i], j)
  }

  lemma BitsByGroups(g: Groups, p: Groups, len: nat)
    requires len <= 128
    ensures SharesPrefix(g, p, len) <==>
      && (forall i | 0 <= i < len / 16 :: SameBits(g, p, i, 16))
      && (len % 16 > 0 ==> SameBits(g, p, len / 16, len % 16))
  {
    if SharesPrefix(g, p, len) {
      forall i, j | 0 <= i < 8 && 0 <= j < 16 && 16 * i + j < len ensures BitOf(g[i], j) == BitOf(p[i], j) {
        assert Bit(g, 16 * i + j) == Bit(p, 16 * i + j);
      }
    } else {
      var i :| 0 <= i < len && Bit(g, i) != Bit(p, i);
      assert !SameBits(g, p, i / 16, if i / 16 < len / 16 then 16 else len % 16);
    }
  }

  lemma BlockByGroups(g: Groups, p: Groups, len: nat)
    requires len <= 128
    ensures SharesPrefix(g, p, len) <==>
      && (forall i | 0 <= i < len / 16 :: g[i] == p[i])
      && (len % 16 > 0 ==> Shift(g[len / 16], 16 - len % 16) == Shift(p[len / 16], 16 - len % 16))
  {
    BitsByGroups(g, p, len);
    forall i | 0 <= i < len / 16 ensures SameBits(g, p, i, 16) <==> g[i] == p[i] {
      LeadingBits(g[i], p[i], 16);
    }
    if len % 16 > 0 { LeadingBits(g[len / 16], p[len / 16], len % 16); }
  }

  lemma ShiftsOf(x: Group)
    ensures Shift(x, 9) == x / 0x200 && Shift(x, 8) == x / 0x100 && Shift(x, 6) == x / 0x40
  {
    ShiftedOut(x);
    assert Shift(x, 9) == Shift(x, 8) / 2;
    assert Shift(x, 6) == Shift(x, 5) / 2 && Shift(x, 5) == Shift(x, 4) / 2 && Shift(x, 4) == Shift(x, 3) / 2;
    assert Shift(x, 3) == Shift(x, 2) / 2 && Shift(x, 2) == Shift(x, 1) / 2 && Shift(x, 1) == x / 2;
  }

  // A block that ends inside the first group.
  lemma ShortBlock(g: Groups, p: Groups, len: nat)
    requires len == 7 || len == 8 || len == 10
    ensures SharesPrefix(g, p, len) <==>
      var d := if len == 7 then 0x200 else if len == 8 then 0x100 else 0x40;
      g[0] / d == p[0] / d
  {
    BlockByGroups(g, p, len);
    ShiftsOf(g[0]);
    ShiftsOf(p[0]);
  }

  lemma WholeBlock(g: Groups, p: Groups)
    ensures SharesPrefix(g, p, 128) <==> g == p
  {
    BlockByGroups(g, p, 128);
    if forall i | 0 <= i < 8 :: g[i] == p[i] { assert g == p; }
  }

  lemma NinetySixBlock(g: Groups, p: Groups)
    ensures SharesPrefix(g, p, 96) <==>
      g[0] == p[0] && g[1] == p[1] && g[2] == p[2] && g[3] == p[3] && g[4] == p[4] && g[5] == p[5]
  {
    BlockByGroups(g, p, 96);
  }

  lemma StartBlock(g: Groups, p: Groups)
    ensures SharesPrefix(g, p, 16) <==> g[0] == p[0]
    ensures SharesPrefix(g, p, 32) <==> g[0] == p[0] && g[1] == p[1]
  {
    BlockByGroups(g, p, 16);
    BlockByGroups(g, p, 32);
  }

  lemma BlockedIs(v: Address, r: Reason)
    ensures InRange(v, r) <==> ClassifyIpv4(v) == Some(r)
    ensures Blocked(v) <==> ClassifyIpv4(v).Some?
  {
    forall s ensures InRange(v, s) <==> ClassifyIpv4(v) == Some(s) { Ipv4Ranges(v, s); }
    if ClassifyIpv4(v).Some? { assert InRange(v, ClassifyIpv4(v).value); }
  }

  // ---- the native ranges ------------------------------------------------------------------------------------

  // The last rules of NativeAnswer, and the first ones, as what they test.
  lemma NativeBlocks(g: Groups)
    ensures SharesPrefix(g, UNSPECIFIED, 128) <==> g == UNSPECIFIED
    ensures SharesPrefix(g, LOOPBACK, 128) <==> g == LOOPBACK
    ensures SharesPrefix(g, METADATA, 128) <==> g == METADATA
    ensures SharesPrefix(g, UNIQUE_LOCAL, 7) <==> g[0] / 0x200 == 0x7e
    ensures SharesPrefix(g, LINK_LOCAL, 10) <==> g[0] / 0x40 == 0x3fa
    ensures SharesPrefix(g, SITE_LOCAL, 10) <==> g[0] / 0x40 == 0x3fb
    ensures SharesPrefix(g, MULTICAST, 8) <==> g[0] / 0x100 == 0xff
  {
    WholeBlock(g, UNSPECIFIED);
    WholeBlock(g, LOOPBACK);
    WholeBlock(g, METADATA);
    ShortBlock(g, UNIQUE_LOCAL, 7);
    ShortBlock(g, LINK_LOCAL, 10);
    ShortBlock(g, SITE_LOCAL, 10);
    ShortBlock(g, MULTICAST, 8);
  }

  lemma SpaceBlocks(g: Groups)
    ensures Carries(g) <==>
      && g[0] == 0 && g[1] == 0 && g[2] == 0 && g[3] == 0
      && ((g[4] == 0 && g[5] == 0xffff) || (g[4] == 0xffff && g[5] == 0))
    ensures SharesPrefix(g, UNSPECIFIED, 96)
      <==> g[0] == 0 && g[1] == 0 && g[2] == 0 && g[3] == 0 && g[4] == 0 && g[5] == 0
    ensures SharesPrefix(g, NAT64, 32) <==> InNat64(g)
    ensures SharesPrefix(g, SIX_TO_FOUR, 16) <==> g[0] == 0x2002
    ensures SharesPrefix(g, TEREDO, 32) <==> g[0] == 0x2001 && g[1] == 0
    ensures HasIsatap(g) <==> (g[4] == 0 || g[4] == 0x0200) && g[5] == 0x5efe
  {
    NinetySixBlock(g, MAPPED);
    NinetySixBlock(g, TRANSLATED);
    NinetySixBlock(g, UNSPECIFIED);
    StartBlock(g, NAT64);
    StartBlock(g, SIX_TO_FOUR);
    StartBlock(g, TEREDO);
    StartBlock([g[4], g[5], 0, 0, 0, 0, 0, 0], [0, 0x5efe, 0, 0, 0, 0, 0, 0]);
    StartBlock([g[4], g[5], 0, 0, 0, 0, 0, 0], [0x0200, 0x5efe, 0, 0, 0, 0, 0, 0]);
  }

  lemma TailIsLow32(g: Groups)
    ensures Tail32(g) == Low32(g)
  {
  }

  lemma NativeOnce(g: Groups, r: Reason)
    requires NativeRange(g, r)
    ensures !Carries(g) && NativeAnswer(g) == Some(Some(r))
  {
    NativeBlocks(g);
    SpaceBlocks(g);
    if r == Unspecified || r == Loopback || r == Metadata {
      NamedAddresses();
    } else {
      HighGroup(g);
    }
  }

  lemma NamedAddresses()
    ensures NativeAnswer(UNSPECIFIED) == Some(Some(Unspecified))
    ensures NativeAnswer(LOOPBACK) == Some(Some(Loopback))
    ensures NativeAnswer(METADATA) == Some(Some(Metadata))
  {
    assert Tail32(LOOPBACK) == 1;
  }

  // From fc00::/7 up no rule before the ranges applies, but for the metadata address.
  lemma HighGroup(g: Groups)
    requires g[0] != 0 && g != METADATA
    ensures NativeAnswer(g)
      == if g[0] / 0x200 == 0x7e then Some(Some(Ula))
         else if g[0] / 0x40 == 0x3fa then Some(Some(LinkLocal))
         else if g[0] / 0x40 == 0x3fb then Some(Some(Ula))
         else if g[0] / 0x100 == 0xff then Some(Some(Multicast))
         else None
  {
  }

  // Outside the native ranges only the spaces that carry an address answer.
  lemma NativeElse(g: Groups)
    requires !IsNative(g)
    ensures
      var v := ClassifyIpv4(Low32(g));
      NativeAnswer(g) == if Carries(g) then Some(v) else if IsCompatibleAddress(g) && v.Some? then Some(v) else None
  {
    NativeBlocks(g);
    SpaceBlocks(g);
    assert !NativeRange(g, Unspecified) && !NativeRange(g, Loopback) && !NativeRange(g, Metadata);
    assert !NativeRange(g, Ula) && !NativeRange(g, LinkLocal) && !NativeRange(g, Multicast);
    if g[0] != 0 { HighGroup(g); } else { LowGroup(g, ClassifyIpv4(Low32(g))); }
  }

  lemma LowGroup(g: Groups, v: Option<Reason>)
    requires g[0] == 0 && g != UNSPECIFIED && g != LOOPBACK && v == ClassifyIpv4(Low32(g))
    ensures
      var zero := g[1] == 0 && g[2] == 0 && g[3] == 0;
      NativeAnswer(g)
        == if zero && ((g[4] == 0 && g[5] == 0xffff) || (g[4] == 0xffff && g[5] == 0)) then Some(v)
           else if zero && g[4] == 0 && g[5] == 0 && v.Some? then Some(v)
           else None
  {
    var t := Tail32(g);
    assert t == Low32(g);
    if g[1] == 0 && g[2] == 0 && g[3] == 0 && g[4] == 0 && g[5] == 0 { assert g == [0, 0, 0, 0, 0, 0, g[6], g[7]]; }
  }

  // ---- the tunnels, and under NAT64 prefixes ------------------------------------------------------------------

  lemma TunnelRules(g: Groups, six: Option<Reason>, low: Option<Reason>)
    requires six == ClassifyIpv4(Middle32(g)) && low == ClassifyIpv4(Low32(g))
    ensures Tunnelled(g)
      == if g[0] == 0x2002 && six.Some? then six
         else if g[0] == 0x2001 && g[1] == 0 then Some(Reserved)
         else if (g[4] == 0 || g[4] == 0x0200) && g[5] == 0x5efe then low
         else None
  {
    TailIsLow32(g);
  }

  lemma TunnelExactly(g: Groups, r: Reason)
    ensures Tunnelled(g) == Some(r) <==> TunnelRange(g, r)
  {
    TunnelRules(g, ClassifyIpv4(Middle32(g)), ClassifyIpv4(Low32(g)));
    SpaceBlocks(g);
    BlockedIs(Middle32(g), r);
    BlockedIs(Low32(g), r);
  }

  lemma DeclaredExactly(g: Groups, len: nat, r: Reason)
    requires IsLength(len)
    ensures Declared(g, len) == Some(r) <==> DeclaredRange(g, len, r)
  {
    BlockedIs(ReadAt(g, len), r);
    TunnelExactly(g, r);
  }

  // Where the loop over the readings stops.
  lemma {:induction false} FirstCounts(rs: seq<Address>, all: bool) returns (i: nat)
    ensures i <= |rs| && forall j | 0 <= j < i :: !CountsIn(rs[j], all)
    ensures i < |rs| ==> CountsIn(rs[i], all) && FirstBlocked(rs, all) == ClassifyIpv4(rs[i])
    ensures i == |rs| ==> FirstBlocked(rs, all) == None
  {
    i := 0;
    if rs != [] {
      BlockedIs(rs[0], Reserved);
      if !CountsIn(rs[0], all) {
        i := FirstCounts(rs[1..], all);
        forall j | 0 < j < i + 1 ensures !CountsIn(rs[j], all) { assert rs[j] == rs[1..][j - 1]; }
        i := i + 1;
      }
    }
  }

  lemma UndeclaredRules(g: Groups, blocked: Option<Reason>)
    requires blocked == FirstBlocked(Readings(g), AllPadding(Readings(g)))
    ensures Undeclared(g)
      == if blocked.Some? then blocked
         else if BarePrefix(g) then Some(Unspecified)
         else if UOctet(g) != 0 then Some(Reserved)
         else None
  {
    assert BarePrefix(g) <==> g[3] == 0 && g[4] == 0 && g[5] == 0 && g[6] == 0 && g[7] == 0;
  }

  lemma UndeclaredExactly(g: Groups, r: Reason)
    ensures Undeclared(g) == Some(r) <==> UndeclaredRange(g, r)
  {
    var rs := Readings(g);
    UndeclaredRules(g, FirstBlocked(rs, AllPadding(rs)));
    FirstCounting(rs, r);
  }

  lemma FirstCounting(rs: seq<Address>, r: Reason)
    ensures FirstBlocked(rs, AllPadding(rs)) == Some(r) <==> exists i: nat :: CountsFirst(rs, i) && InRange(rs[i], r)
    ensures FirstBlocked(rs, AllPadding(rs)).None? <==> NoneCounts(rs)
    ensures forall i: nat | CountsFirst(rs, i) :: !NoneCounts(rs)
  {
    var i := FirstCounts(rs, AllPadding(rs));
    forall j: nat | j < i ensures !Counts(rs, j) { assert !CountsIn(rs[j], AllPadding(rs)); }
    if i < |rs| {
      assert CountsFirst(rs, i);
      forall k: nat | CountsFirst(rs, k) ensures k == i { assert k < i ==> !Counts(rs, k); }
      BlockedIs(rs[i], r);
    }
  }

  // ---- every address ----------------------------------------------------------------------------------------

  /** Every address, with a prefix declared or without: it is refused for a reason exactly when its space says so. */
  lemma RefusedExactly(g: Groups, nat64: Option<Prefix>, r: Reason)
    ensures ClassifyIpv6(g, nat64) == Some(r) <==> Refuses(g, nat64, r)
  {
    BlockedIs(Low32(g), r);
    SpaceBlocks(g);
    if s :| NativeRange(g, s) {
      NativeOnce(g, s);
      if NativeRange(g, r) { NativeOnce(g, r); }
    } else {
      NativeElse(g);
      if IsDeclared(g, nat64) { DeclaredExactly(g, nat64.value.len, r); }
      UndeclaredExactly(g, r);
      TunnelExactly(g, r);
    }
  }

  /** And it passes exactly when no space refuses it. */
  lemma PassesExactly(g: Groups, nat64: Option<Prefix>)
    ensures ClassifyIpv6(g, nat64) == None <==> forall r :: !Refuses(g, nat64, r)
  {
    forall r ensures ClassifyIpv6(g, nat64) == Some(r) <==> Refuses(g, nat64, r) { RefusedExactly(g, nat64, r); }
  }
}
