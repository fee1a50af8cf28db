/**
 parseIpv4 of src/safe-url.js: dotted decimal, octal and hex, with fewer than four parts allowed.
 parseInt is taken as exact; a numeral too long for a double is far beyond every bound here.
 */
module Ipv4Text {
  import opened Options
  import opened Strings

  function PartValue(part: string): Option<nat> {
    if |part| >= 3 && part[0] == '0' && (part[1] == 'x' || part[1] == 'X') && IsNumeral(part[2..], 16) then
      Some(Number(part[2..], 16))
    else if |part| >= 2 && part[0] == '0' && IsNumeral(part[1..], 8) then Some(Number(part[1..], 8))
    else if part == "0" then Some(0)
    else if part != "" && part[0] != '0' && IsNumeral(part, 10) then Some(Number(part, 10))
    else None
  }

  function Pow256(k: nat): nat {
    if k == 0 then 1 else 256 * Pow256(k - 1)
  }

  // The last part fills what is left of the 32 bits.
  function Last(parts: seq<string>): Option<nat>
    requires |parts| > 0
  {
    PartValue(parts[|parts| - 1])
  }

  /** Each leading part is one octet, the last is the rest. */
  predicate Fits(parts: seq<string>) {
    && 1 <= |parts| <= 4
    && (forall i | 0 <= i < |parts| :: PartValue(parts[i]).Some?)
    && (forall i | 0 <= i < |parts| - 1 :: PartValue(parts[i]).value < 256)
    && Last(parts).value < Pow256(5 - |parts|)
  }

  // The first n parts at their octets' weights.
  function Leading(parts: seq<string>, n: nat): nat
    requires n <= |parts| && n <= 4 && forall i | 0 <= i < n :: PartValue(parts[i]).Some?
  {
    if n == 0 then 0 else Leading(parts, n - 1) + PartValue(parts[n - 1]).value * Pow256(4 - n)
  }

  function AddressOf(parts: seq<string>): nat
    requires Fits(parts)
  {
    Leading(parts, |parts| - 1) + Last(parts).value
  }

  lemma Powers()
    ensures Pow256(0) == 1 && Pow256(1) == 0x100 && Pow256(2) == 0x10000
    ensures Pow256(3) == 0x1000000 && Pow256(4) == 0x1_0000_0000
  {
    assert Pow256(2) == 256 * Pow256(1);
  }

  lemma {:induction false} LeadingBound(parts: seq<string>, n: nat)
    requires n <= |parts| && n <= 3
    requires forall i | 0 <= i < n :: PartValue(parts[i]).Some? && PartValue(parts[i]).value < 256
    ensures Leading(parts, n) + Pow256(4 - n) <= Pow256(4)
  {
    Powers();
    if n > 0 {
      LeadingBound(parts, n - 1);
      assert PartValue(parts[n - 1]).value * Pow256(4 - n) <= 255 * Pow256(4 - n);
    }
  }

  /** Every spelling stays below 2^32, so the parser's closing modulo never changes anything. */
  lemma AddressIs32Bit(parts: seq<string>)
    requires Fits(parts)
    ensures AddressOf(parts) < 0x1_0000_0000
  {
    LeadingBound(parts, |parts| - 1);
    Powers();
  }

  predicate Read(parts: seq<string>, nums: seq<nat>) {
    |nums| == |parts| && forall k | 0 <= k < |parts| :: PartValue(parts[k]) == Some(nums[k])
  }

  // The numbers of the parts; None when one is no numeral.
  method ReadParts(parts: seq<string>) returns (r: Option<seq<nat>>)
    ensures r.Some? ==> Read(parts, r.value)
    ensures r.None? ==> exists i :: 0 <= i < |parts| && PartValue(parts[i]).None?
  {
    var nums: seq<nat> := [];
    for i := 0 to |parts|
      invariant |nums| == i
      invariant forall k | 0 <= k < i :: PartValue(parts[k]) == Some(nums[k])
    {
      var value := PartValue(parts[i]);
      if value.None? { return None; }
      nums := nums + [value.value];
    }
    return Some(nums);
  }

  // The last number and the octets before it at their weights; None when an octet is over 255.
  method Weigh(parts: seq<string>, nums: seq<nat>) returns (r: Option<nat>)
    requires Read(parts, nums) && 1 <= |parts| <= 4
    ensures r.Some? <==> forall i | 0 <= i < |parts| - 1 :: nums[i] <= 255
    ensures r.Some? ==> r.value == Leading(parts, |parts| - 1) + nums[|nums| - 1]
  {
    var addr := nums[|nums| - 1];
    for i := 0 to |nums| - 1
      invariant forall k | 0 <= k < i :: nums[k] <= 255
      invariant addr == nums[|nums| - 1] + Leading(parts, i)
    {
      if nums[i] > 255 { return None; }
      addr := addr + nums[i] * Pow256(3 - i);
    }
    return Some(addr);
  }

  // addr >>> 0 === addr ? addr : addr % 2^32
  function Unsigned32(addr: nat): (r: nat)
    ensures r < 0x1_0000_0000 && (addr < 0x1_0000_0000 ==> r == addr)
  {
    if addr < 0x1_0000_0000 then addr else addr % 0x1_0000_0000
  }

  // parseIpv4
  method ParseIpv4(host: string) returns (r: Option<nat>)
    ensures
      var parts := Split(host, '.');
      r == if Fits(parts) then Some(AddressOf(parts)) else None
  {
    var parts := Split(host, '.');
    if |host| == 0 {
      assert PartValue(parts[0]).None?;
      return None;
    }
    if |parts| > 4 { return None; }
    var read := ReadParts(parts);
    if read.None? { return None; }
    var nums := read.value;
    if nums[|nums| - 1] >= Pow256(4 - (|nums| - 1)) { return None; }
    var addr := Weigh(parts, nums);
    if addr.None? { return None; }
    AddressIs32Bit(parts);
    return Some(Unsigned32(addr.value));
  }

  lemma PartLacksDot(part: string)
    requires PartValue(part).Some?
    ensures '.' !in part
  {
    forall i | 0 <= i < |part| ensures part[i] != '.' {
      assert i >= 2 ==> part[2..][i - 2] == part[i];
      assert i >= 1 ==> part[1..][i - 1] == part[i];
    }
  }

  /** One to four numerals, each decimal, octal or hex, joined by dots, spell the address their values weigh. */
  lemma Ipv4Spelling(parts: seq<string>)
    requires Fits(parts)
    ensures Split(Join(parts, '.'), '.') == parts
  {
    forall i | 0 <= i < |parts| ensures '.' !in parts[i] { PartLacksDot(parts[i]); }
    SplitJoin(parts, '.');
  }

  datatype Base = Octal | Plain | Hex

  /** A number as one part: 0x and its hex digits, 0 and its octal ones, or its decimal ones. */
  function Spelled(n: nat, base: Base): string {
    match base
    case Octal => "0" + Render(n, 8)
    case Plain => Render(n, 10)
    case Hex => "0x" + Render(n, 16)
  }

  /** Each of the three spellings of a number is read as that number. */
  lemma PartReads(n: nat, base: Base)
    ensures PartValue(Spelled(n, base)) == Some(n)
  {
    var part := Spelled(n, base);
    match base
    case Octal =>
      RenderReads(n, 8);
      OctalIsNoHex(Render(n, 8));
      assert part[1..] == Render(n, 8);
    case Plain =>
      RenderReads(n, 10);
      if n == 0 { assert part == "0"; }
    case Hex =>
      RenderReads(n, 16);
      assert part[2..] == Render(n, 16);
  }

  lemma OctalIsNoHex(digits: string)
    requires IsNumeral(digits, 8)
    ensures digits[0] != 'x' && digits[0] != 'X'
  {
  }

  predicate Among(s: string, chars: string) {
    s != "" && forall i | 0 <= i < |s| :: s[i] in chars
  }

  /** And no part is read but these, with digits in either case. */
  lemma PartForms(part: string)
    ensures PartValue(part).Some? <==>
      || (|part| >= 2 && part[0] == '0' && part[1] in "xX" && Among(part[2..], "0123456789abcdefABCDEF"))
      || (|part| >= 1 && part[0] == '0' && Among(part[1..], "01234567"))
      || part == "0"
      || (|part| >= 1 && part[0] != '0' && Among(part, "0123456789"))
  {
    NumeralsAre(part);
    if |part| >= 1 { NumeralsAre(part[1..]); }
    if |part| >= 2 {
      NumeralsAre(part[2..]);
      assert part[1] in "xX" <==> part[1] == 'x' || part[1] == 'X';
    }
  }

  lemma NumeralsAre(s: string)
    ensures IsNumeral(s, 16) <==> Among(s, "0123456789abcdefABCDEF")
    ensures IsNumeral(s, 10) <==> Among(s, "0123456789")
    ensures IsNumeral(s, 8) <==> Among(s, "01234567")
  {
    forall i | 0 <= i < |s|
      ensures DigitValue(s[i]) < 16 <==> s[i] in "0123456789abcdefABCDEF"
      ensures DigitValue(s[i]) < 10 <==> s[i] in "0123456789"
      ensures DigitValue(s[i]) < 8 <==> s[i] in "01234567"
    {
      DigitSets(s[i]);
    }
  }

  lemma DigitSets(c: char)
    ensures DigitValue(c) < 16 <==> c in "0123456789abcdefABCDEF"
    ensures DigitValue(c) < 10 <==> c in "0123456789"
    ensures DigitValue(c) < 8 <==> c in "01234567"
  {
    if '0' <= c <= '9' {
      assert "0123456789abcdefABCDEF"[(c - '0') as int] == c && "0123456789"[(c - '0') as int] == c;
      if c <= '7' { assert "01234567"[(c - '0') as int] == c; }
    } else if 'a' <= c <= 'f' {
      assert "0123456789abcdefABCDEF"[(c - 'a') as int + 10] == c;
    } else if 'A' <= c <= 'F' {
      assert "0123456789abcdefABCDEF"[(c - 'A') as int + 16] == c;
    }
  }

  function SpelledAll(ns: seq<nat>, bases: seq<Base>): (parts: seq<string>)
    requires |ns| == |bases|
    ensures |parts| == |ns| && forall i | 0 <= i < |ns| :: parts[i] == Spelled(ns[i], bases[i])
  {
    seq(|ns|, i requires 0 <= i < |ns| => Spelled(ns[i], bases[i]))
  }

  /** An octet for each part but the last, which has the rest of the 32 bits. */
  predicate OctetsAndRest(ns: seq<nat>) {
    && 1 <= |ns| <= 4
    && (forall i | 0 <= i < |ns| - 1 :: ns[i] < 0x100)
    && ns[|ns| - 1] < (if |ns| == 1 then 0x1_0000_0000 else if |ns| == 2 then 0x1000000
                       else if |ns| == 3 then 0x10000 else 0x100)
  }

  function Weighed(ns: seq<nat>): nat
    requires OctetsAndRest(ns)
  {
    if |ns| == 1 then ns[0]
    else if |ns| == 2 then ns[0] * 0x1000000 + ns[1]
    else if |ns| == 3 then ns[0] * 0x1000000 + ns[1] * 0x10000 + ns[2]
    else ns[0] * 0x1000000 + ns[1] * 0x10000 + ns[2] * 0x100 + ns[3]
  }

  /** Every address in every form: one to four parts, each in any of the three bases, read back as what they weigh. */
  lemma EveryFormReads(ns: seq<nat>, bases: seq<Base>)
    requires |ns| == |bases| && OctetsAndRest(ns)
    ensures
      var parts := SpelledAll(ns, bases);
      Split(Join(parts, '.'), '.') == parts && Fits(parts) && AddressOf(parts) == Weighed(ns)
  {
    var parts := SpelledAll(ns, bases);
    forall i | 0 <= i < |ns| ensures PartValue(parts[i]) == Some(ns[i]) { PartReads(ns[i], bases[i]); }
    Powers();
    Ipv4Spelling(parts);
    Weights(parts, ns);
  }

  lemma Weights(parts: seq<string>, ns: seq<nat>)
    requires OctetsAndRest(ns) && |parts| == |ns| && forall i | 0 <= i < |ns| :: PartValue(parts[i]) == Some(ns[i])
    ensures Leading(parts, |parts| - 1) + ns[|ns| - 1] == Weighed(ns)
  {
    Powers();
    assert Leading(parts, 0) == 0;
    if |ns| > 1 { assert Leading(parts, 1) == ns[0] * 0x1000000; }
    if |ns| > 2 { assert Leading(parts, 2) == Leading(parts, 1) + ns[1] * 0x10000; }
    if |ns| > 3 { assert Leading(parts, 3) == Leading(parts, 2) + ns[2] * 0x100; }
  }

  /** The dotted decimal of four octets, for one, reads back as their address. */
  lemma DottedDecimal(a: nat, b: nat, c: nat, d: nat)
    requires a < 256 && b < 256 && c < 256 && d < 256
    ensures
      var parts := [Decimal(a), Decimal(b), Decimal(c), Decimal(d)];
      && Split(Join(parts, '.'), '.') == parts && Fits(parts)
      && AddressOf(parts) == a * 0x1000000 + b * 0x10000 + c * 0x100 + d
  {
    EveryFormReads([a, b, c, d], [Plain, Plain, Plain, Plain]);
    assert SpelledAll([a, b, c, d], [Plain, Plain, Plain, Plain]) == [Decimal(a), Decimal(b), Decimal(c), Decimal(d)];
  }
}
