/** String.prototype.split by one character, with its inverse. */
module Strings {

  function Split(s: string, c: char): (parts: seq<string>)
    ensures |parts| >= 1
  {
    if s == "" then [""]
    else
      var rest := Split(s[1..], c);
      if s[0] == c then [""] + rest else [[s[0]] + rest[0]] + rest[1..]
  }

  function Join(parts: seq<string>, c: char): string {
    if |parts| == 0 then ""
    else if |parts| == 1 then parts[0]
    else parts[0] + [c] + Join(parts[1..], c)
  }

  predicate Lack(parts: seq<string>, c: char) {
    forall i | 0 <= i < |parts| :: c !in parts[i]
  }

  /** Joining what split gave is the string again, and no part holds the separator. */
  lemma {:induction false} JoinSplit(s: string, c: char)
    ensures Join(Split(s, c), c) == s && Lack(Split(s, c), c)
  {
    if s != "" {
      JoinSplit(s[1..], c);
      var rest := Split(s[1..], c);
      if s[0] == c {
        assert Split(s, c)[1..] == rest;
      } else if |rest| > 1 {
        assert Split(s, c)[1..] == rest[1..];
        assert Join(rest, c) == rest[0] + [c] + Join(rest[1..], c);
      }
    }
  }

  lemma {:induction false} SplitPlain(s: string, c: char)
    requires c !in s
    ensures Split(s, c) == [s]
  {
    if s != "" {
      SplitPlain(s[1..], c);
      assert s[0] in s && s == [s[0]] + s[1..];
    }
  }

  lemma {:induction false} SplitAtFirst(a: string, rest: string, c: char)
    requires c !in a
    ensures Split(a + [c] + rest, c) == [a] + Split(rest, c)
  {
    var s := a + [c] + rest;
    if a == "" {
      assert s == [c] + rest;
      assert s[1..] == rest;
    } else {
      SplitAtFirst(a[1..], rest, c);
      assert s[1..] == a[1..] + [c] + rest;
      assert [a[0]] + a[1..] == a;
    }
  }

  /** Splitting a join gives the parts back when none of them holds the separator. */
  lemma {:induction false} SplitJoin(parts: seq<string>, c: char)
    requires |parts| >= 1 && Lack(parts, c)
    ensures Split(Join(parts, c), c) == parts
  {
    if |parts| == 1 {
      SplitPlain(parts[0], c);
    } else {
      SplitJoin(parts[1..], c);
      SplitAtFirst(parts[0], Join(parts[1..], c), c);
    }
  }

  // ---- numerals ---------------------------------------------------------------------------------------

  function DigitValue(c: char): nat {
    if '0' <= c <= '9' then (c - '0') as nat
    else if 'a' <= c <= 'f' then (c - 'a') as nat + 10
    else if 'A' <= c <= 'F' then (c - 'A') as nat + 10
    else 16
  }

  predicate IsNumeral(s: string, base: nat) {
    s != "" && forall i | 0 <= i < |s| :: DigitValue(s[i]) < base
  }

  // parseInt(s, base) of a numeral, as an exact number
  function Number(s: string, base: nat): nat {
    if s == "" then 0 else Number(s[..|s| - 1], base) * base + DigitValue(s[|s| - 1])
  }

  // ---- every number has its digits ------------------------------------------------------------------

  function DigitChar(d: nat): char
    requires d < 16
  {
    if d < 10 then '0' + d as char else 'a' + (d - 10) as char
  }

  /** Each digit, in either case, is worth its place. */
  lemma DigitsAreWorth(d: nat)
    requires d < 16
    ensures DigitChar(d) == "0123456789abcdef"[d]
    ensures DigitValue("0123456789abcdef"[d]) == d == DigitValue("0123456789ABCDEF"[d])
  {
  }

  function Render(n: nat, base: nat): (s: string)
    requires 2 <= base <= 16
    ensures s != ""
  {
    if n < base then [DigitChar(n)] else Render(n / base, base) + [DigitChar(n % base)]
  }

  function Decimal(n: nat): (s: string)
    ensures s != ""
  {
    Render(n, 10)
  }

  lemma DigitReads(d: nat)
    requires d < 16
    ensures DigitValue(DigitChar(d)) == d && (d > 0 ==> DigitChar(d) != '0')
  {
  }

  lemma OneDigitMore(s: string, c: char, base: nat)
    requires (s == "" || IsNumeral(s, base)) && DigitValue(c) < base
    ensures IsNumeral(s + [c], base) && Number(s + [c], base) == Number(s, base) * base + DigitValue(c)
  {
    assert (s + [c])[..|s|] == s;
  }

  // One digit more than a number that is spelled.
  lemma RenderStep(s: string, q: nat, d: nat, base: nat)
    requires d < base <= 16 && IsNumeral(s, base) && Number(s, base) == q
    ensures IsNumeral(s + [DigitChar(d)], base) && Number(s + [DigitChar(d)], base) == q * base + d
  {
    DigitReads(d);
    OneDigitMore(s, DigitChar(d), base);
  }

  lemma RenderOne(d: nat, base: nat)
    requires d < base <= 16
    ensures IsNumeral([DigitChar(d)], base) && Number([DigitChar(d)], base) == d
    ensures d > 0 ==> DigitChar(d) != '0'
  {
    DigitReads(d);
    var s := [DigitChar(d)];
    assert s[..|s| - 1] == "" && Number("", base) == 0;
    ZeroTimes(base);
  }

  lemma ZeroTimes(base: nat)
    ensures 0 * base == 0
  {
  }

  /** A number's digits, in any base, spell it. */
  lemma {:induction false} RenderReads(n: nat, base: nat)
    requires 2 <= base <= 16
    ensures IsNumeral(Render(n, base), base) && Number(Render(n, base), base) == n
    ensures n > 0 ==> Render(n, base)[0] != '0'
  {
    if n < base {
      RenderOne(n, base);
    } else {
      var q, d := n / base, n % base;
      Divided(n, base);
      RenderReads(q, base);
      RenderStep(Render(q, base), q, d, base);
    }
  }

  lemma Divided(n: nat, base: nat)
    requires 2 <= base <= n
    ensures n / base * base + n % base == n && n / base > 0
  {
  }
}
