/**
 parseIpv6 of src/safe-url.js: eight hex groups, `::` for a run of zeros, and a dotted-quad tail.
 What it accepts is a little more than section 2.2 of RFC 4291 writes down: `::` may stand for no
 group at all, and a dotted quad may end the part before `::` as well.
 */
module Ipv6Text {
  import opened Options
  import opened Strings

  type Groups = seq<nat>

  predicate AreGroups(g: Groups) {
    forall i | 0 <= i < |g| :: g[i] < 0x10000
  }

  // ---- tokens ---------------------------------------------------------------------------------------

  predicate IsOctetText(part: string) {
    1 <= |part| <= 3 && IsNumeral(part, 10) && Number(part, 10) <= 255
  }

  function OfOctets(a: nat, b: nat, c: nat, d: nat): nat {
    ((a * 256 + b) * 256 + c) * 256 + d
  }

  // parseDottedQuadV6Tail
  function DottedQuad(tail: string): (r: Option<nat>)
    ensures r.Some? ==> r.value < 0x1_0000_0000
  {
    var parts := Split(tail, '.');
    if |parts| != 4 || exists i | 0 <= i < 4 :: !IsOctetText(parts[i]) then None
    else Some(OfOctets(Number(parts[0], 10), Number(parts[1], 10), Number(parts[2], 10), Number(parts[3], 10)))
  }

  method ParseDottedQuad(tail: string) returns (r: Option<nat>)
    ensures r == DottedQuad(tail)
  {
    var parts := Split(tail, '.');
    if |parts| != 4 { return None; }
    var addr := 0;
    for i := 0 to 4
      invariant forall k | 0 <= k < i :: IsOctetText(parts[k])
      invariant i == 0 ==> addr == 0
      invariant i == 1 ==> addr == Number(parts[0], 10)
      invariant i == 2 ==> addr == Number(parts[0], 10) * 256 + Number(parts[1], 10)
      invariant i == 3 ==> addr == (Number(parts[0], 10) * 256 + Number(parts[1], 10)) * 256 + Number(parts[2], 10)
      invariant i == 4 ==> Some(addr) == DottedQuad(tail)
    {
      if !(1 <= |parts[i]| <= 3 && IsNumeral(parts[i], 10)) { return None; }
      var n := Number(parts[i], 10);
      if n > 255 { return None; }
      addr := addr * 256 + n;
    }
    return Some(addr);
  }

  predicate IsHexGroup(tok: string) {
    1 <= |tok| <= 4 && IsNumeral(tok, 16)
  }

  lemma {:induction false} NumberBound(s: string, base: nat)
    requires base > 0 && forall i | 0 <= i < |s| :: DigitValue(s[i]) < base
    ensures Number(s, base) < Power(base, |s|)
  {
    if s != "" {
      NumberBound(s[..|s| - 1], base);
      OneDigitMore(Number(s[..|s| - 1], base), DigitValue(s[|s| - 1]), base, Power(base, |s| - 1));
    }
  }

  lemma OneDigitMore(n: nat, d: nat, base: nat, bound: nat)
    requires n < bound && d < base
    ensures n * base + d < bound * base
  {
    assert (n + 1) * base <= bound * base;
  }

  function Power(base: nat, k: nat): nat {
    if k == 0 then 1 else Power(base, k - 1) * base
  }

  lemma HexGroupBound(tok: string)
    requires IsHexGroup(tok)
    ensures Number(tok, 16) < 0x10000
  {
    NumberBound(tok, 16);
    assert Power(16, 2) == 256 && Power(16, 4) == 0x10000;
  }

  // The groups of one token, dotted when it is the last of its run.
  function TokenGroups(tok: string, last: bool): (r: Option<Groups>)
    ensures r.Some? ==> AreGroups(r.value) && 1 <= |r.value| <= 2
  {
    if '.' in tok then
      if !last || DottedQuad(tok).None? then None
      else Some([DottedQuad(tok).value / 0x10000, DottedQuad(tok).value % 0x10000])
    else if IsHexGroup(tok) then
      HexGroupBound(tok);
      Some([Number(tok, 16)])
    else None
  }

  function TokensGroups(tokens: seq<string>): (r: Option<Groups>)
    ensures r.Some? ==> AreGroups(r.value)
  {
    if |tokens| == 0 then Some([])
    else
      var head := TokenGroups(tokens[0], |tokens| == 1);
      var tail := TokensGroups(tokens[1..]);
      if head.None? || tail.None? then None else Some(head.value + tail.value)
  }

  // expand
  function Expand(run: string): (r: Option<Groups>)
    ensures r.Some? ==> AreGroups(r.value)
  {
    if run == "" then Some([]) else TokensGroups(Split(run, ':'))
  }

  method ParseToken(tok: string, last: bool) returns (r: Option<Groups>)
    ensures r == TokenGroups(tok, last)
  {
    if '.' in tok {
      if !last { return None; }
      var v4 := ParseDottedQuad(tok);
      if v4.None? { return None; }
      return Some([v4.value / 0x10000, v4.value % 0x10000]);
    }
    if !IsHexGroup(tok) { return None; }
    return Some([Number(tok, 16)]);
  }

  // What the tokens from i on add to the groups so far.
  function Grown(groups: Groups, rest: Option<Groups>): Option<Groups> {
    if rest.None? then None else Some(groups + rest.value)
  }

  lemma GrownStep(groups: Groups, tokens: seq<string>, i: nat)
    requires i < |tokens|
    ensures
      var head := TokenGroups(tokens[i], i == |tokens| - 1);
      Grown(groups, TokensGroups(tokens[i..]))
        == if head.None? then None else Grown(groups + head.value, TokensGroups(tokens[i + 1..]))
  {
    assert tokens[i..][1..] == tokens[i + 1..];
    var head, rest := TokenGroups(tokens[i], i == |tokens| - 1), TokensGroups(tokens[i + 1..]);
    if head.Some? && rest.Some? {
      assert groups + (head.value + rest.value) == (groups + head.value) + rest.value;
    }
  }

  method ExpandRun(run: string) returns (r: Option<Groups>)
    ensures r == Expand(run)
  {
    if |run| == 0 { return Some([]); }
    var tokens := Split(run, ':');
    var groups: Groups := [];
    assert tokens[0..] == tokens;
    assert Grown([], TokensGroups(tokens)) == TokensGroups(tokens) by {
      if TokensGroups(tokens).Some? { assert [] + TokensGroups(tokens).value == TokensGroups(tokens).value; }
    }
    for i := 0 to |tokens|
      invariant Grown(groups, TokensGroups(tokens[i..])) == TokensGroups(tokens)
    {
      GrownStep(groups, tokens, i);
      var add := ParseToken(tokens[i], i == |tokens| - 1);
      if add.None? { return None; }
      groups := groups + add.value;
    }
    assert groups + [] == groups;
    return Some(groups);
  }

  // ---- the whole text -----------------------------------------------------------------------------------

  predicate StartsPair(s: string) { |s| >= 2 && s[0] == ':' && s[1] == ':' }

  // host.split('::')
  function SplitPairs(s: string): (parts: seq<string>)
    ensures |parts| >= 1
  {
    if s == "" then [""]
    else if StartsPair(s) then [""] + SplitPairs(s[2..])
    else
      var rest := SplitPairs(s[1..]);
      [[s[0]] + rest[0]] + rest[1..]
  }

  // host.slice(0, host.indexOf('%')), the whole host when there is none
  function Unzoned(host: string): string {
    if host == "" || host[0] == '%' then "" else [host[0]] + Unzoned(host[1..])
  }

  function Zeros(n: nat): (z: Groups)
    ensures |z| == n && AreGroups(z)
  {
    seq(n, i => 0)
  }

  function Ipv6Groups(host: string): (r: Option<Groups>)
    ensures r.Some? ==> |r.value| == 8 && AreGroups(r.value)
  {
    var text := Unzoned(host);
    var halves := SplitPairs(text);
    if |halves| > 2 then None
    else if |halves| == 2 then
      var head, tail := Expand(halves[0]), Expand(halves[1]);
      if head.None? || tail.None? || |head.value| + |tail.value| > 8 then None
      else Some(head.value + Zeros(8 - |head.value| - |tail.value|) + tail.value)
    else
      var groups := Expand(text);
      if groups.None? || |groups.value| != 8 then None else groups
  }

  // parseIpv6
  method ParseIpv6(host: string) returns (r: Option<Groups>)
    ensures r == Ipv6Groups(host)
  {
    var text := Unzoned(host);
    var halves := SplitPairs(text);
    if |halves| > 2 { return None; }
    if |halves| == 2 {
      var head := ExpandRun(halves[0]);
      var tail := ExpandRun(halves[1]);
      if head.None? || tail.None? { return None; }
      if 8 < |head.value| + |tail.value| { return None; }
      return Some(head.value + Zeros(8 - |head.value| - |tail.value|) + tail.value);
    }
    var groups := ExpandRun(text);
    if groups.None? || |groups.value| != 8 { return None; }
    return groups;
  }

  // ---- what is accepted -----------------------------------------------------------------------------------

  /** The spelled groups of a run of tokens. */
  ghost predicate Spells(tokens: seq<string>, g: Groups) {
    TokensGroups(tokens) == Some(g)
  }

  // Neither is a digit or a dot.
  predicate Separates(c: char) { c == ':' || c == '%' }

  lemma TokenShape(tok: string, last: bool, c: char)
    requires TokenGroups(tok, last).Some? && Separates(c)
    ensures tok != "" && c !in tok
  {
    if c in tok {
      if '.' in tok {
        JoinSplit(tok, '.');
        QuadLacks(tok, c);
      }
    }
  }

  lemma QuadLacks(tok: string, c: char)
    requires DottedQuad(tok).Some? && Separates(c)
    ensures c !in tok
  {
    var parts := Split(tok, '.');
    JoinSplit(tok, '.');
    forall i | 0 <= i < 4 ensures c !in parts[i] {
      assert IsOctetText(parts[i]);
      assert forall k | 0 <= k < |parts[i]| :: DigitValue(parts[i][k]) < 10;
    }
    JoinLacks(parts, '.', c);
  }

  lemma {:induction false} JoinLacks(parts: seq<string>, c: char, d: char)
    requires Lack(parts, d) && c != d
    ensures d !in Join(parts, c)
  {
    if |parts| > 1 { JoinLacks(parts[1..], c, d); }
  }

  lemma {:induction false} TokensShape(tokens: seq<string>, c: char)
    requires TokensGroups(tokens).Some? && Separates(c)
    ensures Lack(tokens, c) && forall i | 0 <= i < |tokens| :: tokens[i] != ""
  {
    if |tokens| > 0 {
      TokenShape(tokens[0], |tokens| == 1, c);
      TokensShape(tokens[1..], c);
      assert forall i | 0 < i < |tokens| :: tokens[i] == tokens[1..][i - 1];
    }
  }

  // A spelled run has no zone.
  lemma RunLacksZone(tokens: seq<string>)
    requires TokensGroups(tokens).Some?
    ensures '%' !in Join(tokens, ':')
  {
    TokensShape(tokens, '%');
    JoinLacks(tokens, ':', '%');
  }

  /** A run of tokens and its joined text are two views of the same thing. */
  lemma ExpandJoined(tokens: seq<string>)
    requires TokensGroups(tokens).Some?
    ensures Expand(Join(tokens, ':')) == TokensGroups(tokens)
  {
    TokensShape(tokens, ':');
    if |tokens| > 0 {
      SplitJoin(tokens, ':');
      JoinNonempty(tokens);
    }
  }

  lemma JoinNonempty(tokens: seq<string>)
    requires |tokens| > 0 && tokens[0] != ""
    ensures Join(tokens, ':') != ""
  {
  }

  lemma ExpandTokens(run: string) returns (tokens: seq<string>)
    requires Expand(run).Some?
    ensures TokensGroups(tokens) == Expand(run) && Join(tokens, ':') == run
  {
    tokens := if run == "" then [] else Split(run, ':');
    JoinSplit(run, ':');
  }

  // ---- `::` -------------------------------------------------------------------------------------------

  predicate NoPair(s: string) {
    forall i | 0 < i < |s| :: s[i - 1] != ':' || s[i] != ':'
  }

  lemma {:induction false} SplitPairsPlain(s: string)
    requires NoPair(s)
    ensures SplitPairs(s) == [s]
  {
    if s != "" {
      forall i | 0 < i < |s[1..]| ensures s[1..][i - 1] != ':' || s[1..][i] != ':' {
        assert s[i] != ':' || s[i + 1] != ':';
      }
      SplitPairsPlain(s[1..]);
      assert |s| > 1 ==> s[1 - 1] != ':' || s[1] != ':';
      assert s == [s[0]] + s[1..];
    }
  }

  lemma {:induction false} SplitPairsAt(a: string, rest: string)
    requires NoPair(a) && (a != "" ==> a[|a| - 1] != ':')
    ensures SplitPairs(a + "::" + rest) == [a] + SplitPairs(rest)
  {
    var s := a + "::" + rest;
    if a == "" {
      assert s[2..] == rest;
    } else {
      forall i | 0 < i < |a[1..]| ensures a[1..][i - 1] != ':' || a[1..][i] != ':' {
        assert a[i] != ':' || a[i + 1] != ':';
      }
      SplitPairsAt(a[1..], rest);
      assert s[1..] == a[1..] + "::" + rest;
      assert |a| > 1 ==> a[1 - 1] != ':' || a[1] != ':';
      assert !StartsPair(s);
      assert a == [a[0]] + a[1..];
    }
  }

  lemma SplitStep(s: string)
    requires s != ""
    ensures
      var parts, rest := SplitPairs(s), SplitPairs(if StartsPair(s) then s[2..] else s[1..]);
      if StartsPair(s) then s == "::" + s[2..] && |parts| == |rest| + 1 && parts[0] == "" && parts[1..] == rest
      else s == [s[0]] + s[1..] && |parts| == |rest| && parts[0] == [s[0]] + rest[0] && parts[1..] == rest[1..]
  {
  }

  lemma OneMore(c: char, a: string, b: string)
    ensures [c] + (a + "::" + b) == ([c] + a) + "::" + b
  {
  }

  lemma {:induction false} PairsRejoin(s: string)
    ensures |SplitPairs(s)| == 1 ==> s == SplitPairs(s)[0]
    ensures |SplitPairs(s)| == 2 ==> s == SplitPairs(s)[0] + "::" + SplitPairs(s)[1]
  {
    if s != "" {
      SplitStep(s);
      if StartsPair(s) {
        PairsRejoin(s[2..]);
        assert |SplitPairs(s)| == 2 ==> SplitPairs(s)[1] == SplitPairs(s)[1..][0];
      } else {
        var rest := SplitPairs(s[1..]);
        PairsRejoin(s[1..]);
        if |rest| == 2 {
          OneMore(s[0], rest[0], rest[1]);
          assert SplitPairs(s)[1] == SplitPairs(s)[1..][0] == rest[1..][0];
        }
      }
    }
  }

  lemma {:induction false} JoinHasNoPair(tokens: seq<string>)
    requires Lack(tokens, ':') && forall i | 0 <= i < |tokens| :: tokens[i] != ""
    ensures
      var s := Join(tokens, ':');
      NoPair(s) && (s != "" ==> s[0] != ':' && s[|s| - 1] != ':') && (|tokens| > 0 ==> s != "")
  {
    if |tokens| > 0 {
      var tok, s := tokens[0], Join(tokens, ':');
      assert forall i | 0 <= i < |tok| :: tok[i] in tok;
      if |tokens| > 1 {
        var rest := Join(tokens[1..], ':');
        assert Lack(tokens[1..], ':');
        JoinHasNoPair(tokens[1..]);
        forall i | 0 < i < |s| ensures s[i - 1] != ':' || s[i] != ':' {
          if i > |tok| + 1 {
            assert s[i - 1] == rest[(i - |tok| - 1) - 1] && s[i] == rest[i - |tok| - 1];
          } else if i == |tok| + 1 {
            assert s[i] == rest[0];
          } else {
            assert s[i - 1] == tok[i - 1];
          }
        }
      }
    }
  }

  lemma FullSpelling(tokens: seq<string>, text: string)
    requires TokensGroups(tokens).Some? && text == Join(tokens, ':')
    ensures SplitPairs(text) == [text] && Expand(text) == TokensGroups(tokens)
  {
    ExpandJoined(tokens);
    TokensShape(tokens, ':');
    JoinHasNoPair(tokens);
    SplitPairsPlain(text);
  }

  lemma ShortSpelling(head: seq<string>, tail: seq<string>, text: string)
    requires TokensGroups(head).Some? && TokensGroups(tail).Some?
    requires text == Join(head, ':') + "::" + Join(tail, ':')
    ensures SplitPairs(text) == [Join(head, ':'), Join(tail, ':')]
    ensures Expand(Join(head, ':')) == TokensGroups(head) && Expand(Join(tail, ':')) == TokensGroups(tail)
  {
    FullSpelling(head, Join(head, ':'));
    FullSpelling(tail, Join(tail, ':'));
    TokensShape(head, ':');
    JoinHasNoPair(head);
    SplitPairsAt(Join(head, ':'), Join(tail, ':'));
  }

  ghost predicate SpellsFull(text: string, g: Groups) {
    exists tokens: seq<string> :: Spells(tokens, g) && |g| == 8 && text == Join(tokens, ':')
  }

  ghost predicate SpellsShort(text: string, g: Groups, h: Groups, t: Groups) {
    && (exists head: seq<string>, tail: seq<string> ::
          Spells(head, h) && Spells(tail, t) && text == Join(head, ':') + "::" + Join(tail, ':'))
    && |h| + |t| <= 8
    && g == h + Zeros(8 - |h| - |t|) + t
  }

  /** text spells g in full, or with `::` standing for the zeros between two runs. */
  ghost predicate SpellsAddress(text: string, g: Groups) {
    SpellsFull(text, g) || exists h: Groups, t: Groups :: SpellsShort(text, g, h, t)
  }

  lemma ShortParses(text: string, g: Groups, h: Groups, t: Groups)
    requires SpellsShort(text, g, h, t)
    ensures |SplitPairs(text)| == 2
    ensures Expand(SplitPairs(text)[0]) == Some(h) && Expand(SplitPairs(text)[1]) == Some(t)
  {
    var head: seq<string>, tail: seq<string> :|
      Spells(head, h) && Spells(tail, t) && text == Join(head, ':') + "::" + Join(tail, ':');
    ShortSpelling(head, tail, text);
  }

  lemma FullParses(text: string, g: Groups)
    requires SpellsFull(text, g)
    ensures SplitPairs(text) == [text] && Expand(text) == Some(g) && |g| == 8
  {
    var tokens: seq<string> :| Spells(tokens, g) && |g| == 8 && text == Join(tokens, ':');
    FullSpelling(tokens, text);
  }

  lemma ParsesSpell(host: string, g: Groups)
    requires Ipv6Groups(host) == Some(g)
    ensures SpellsAddress(Unzoned(host), g)
  {
    var text := Unzoned(host);
    var halves := SplitPairs(text);
    PairsRejoin(text);
    if |halves| == 2 {
      var head := ExpandTokens(halves[0]);
      var tail := ExpandTokens(halves[1]);
      var h, t := Expand(halves[0]).value, Expand(halves[1]).value;
      assert Spells(head, h) && Spells(tail, t);
      assert SpellsShort(text, g, h, t);
    } else {
      var tokens := ExpandTokens(text);
      assert Spells(tokens, g);
    }
  }

  /** The parser answers g for exactly the spellings of g. */
  lemma SpellingsParse(host: string, g: Groups)
    ensures Ipv6Groups(host) == Some(g) <==> SpellsAddress(Unzoned(host), g)
  {
    var text := Unzoned(host);
    if Ipv6Groups(host) == Some(g) { ParsesSpell(host, g); }
    if SpellsFull(text, g) { FullParses(text, g); }
    if h: Groups, t: Groups :| SpellsShort(text, g, h, t) { ShortParses(text, g, h, t); }
  }

  /** So a text spells at most one address, and a full spelling never reads as a shortened one. */
  lemma OneAddress(text: string, g: Groups, other: Groups)
    requires SpellsAddress(text, g) && SpellsAddress(text, other)
    ensures g == other
  {
    SpelledPlain(text, g);
    SpellingsParse(text, g);
    SpellingsParse(text, other);
  }

  lemma SpelledPlain(text: string, g: Groups)
    requires SpellsAddress(text, g)
    ensures Unzoned(text) == text
  {
    if SpellsFull(text, g) {
      var tokens: seq<string> :| Spells(tokens, g) && |g| == 8 && text == Join(tokens, ':');
      RunLacksZone(tokens);
    } else {
      var h: Groups, t: Groups :| SpellsShort(text, g, h, t);
      var head: seq<string>, tail: seq<string> :|
        Spells(head, h) && Spells(tail, t) && text == Join(head, ':') + "::" + Join(tail, ':');
      RunLacksZone(head);
      RunLacksZone(tail);
    }
    UnzonedPlain(text);
  }

  /** A zone, from the first `%` on, is dropped. */
  lemma {:induction false} ZoneDropped(text: string, zone: string)
    requires '%' !in text
    ensures Unzoned(text + "%" + zone) == text
  {
    var host := text + "%" + zone;
    if text == "" {
      assert host[0] == '%';
    } else {
      ZoneDropped(text[1..], zone);
      assert host[0] == text[0] && text[0] in text && host[1..] == text[1..] + "%" + zone;
      assert [text[0]] + text[1..] == text;
    }
  }

  lemma {:induction false} UnzonedPlain(text: string)
    requires '%' !in text
    ensures Unzoned(text) == text
  {
    if text != "" {
      assert text[0] in text;
      UnzonedPlain(text[1..]);
    }
  }

  lemma OneToken(tok: string, g: Groups)
    requires TokenGroups(tok, true) == Some(g)
    ensures TokensGroups([tok]) == Some(g) && Join([tok], ':') == tok
  {
    assert [tok][1..] == [];
    assert g + [] == g;
  }

  /** Four octets joined by dots read as the word they weigh. */
  lemma QuadSpelled(parts: seq<string>)
    requires |parts| == 4 && forall i | 0 <= i < 4 :: IsOctetText(parts[i])
    ensures DottedQuad(Join(parts, '.'))
      == Some(OfOctets(Number(parts[0], 10), Number(parts[1], 10), Number(parts[2], 10), Number(parts[3], 10)))
  {
    OctetsLackDot(parts);
    SplitJoin(parts, '.');
    FourParts(Join(parts, '.'), parts);
  }

  lemma OctetsLackDot(parts: seq<string>)
    requires forall i | 0 <= i < |parts| :: IsOctetText(parts[i])
    ensures Lack(parts, '.')
  {
    forall i | 0 <= i < |parts| ensures '.' !in parts[i] { OctetLacksDot(parts[i]); }
  }

  lemma FourParts(tail: string, parts: seq<string>)
    requires Split(tail, '.') == parts && |parts| == 4 && forall i | 0 <= i < 4 :: IsOctetText(parts[i])
    ensures DottedQuad(tail)
      == Some(OfOctets(Number(parts[0], 10), Number(parts[1], 10), Number(parts[2], 10), Number(parts[3], 10)))
  {
  }

  lemma OctetLacksDot(a: string)
    requires IsOctetText(a)
    ensures '.' !in a
  {
    assert forall i | 0 <= i < |a| :: DigitValue(a[i]) < 10;
  }

  lemma OneDigit(c: char)
    requires DigitValue(c) < 10
    ensures IsOctetText([c]) && Number([c], 10) == DigitValue(c)
  {
    assert [c][..0] == "";
  }

  lemma FourJoined(a: string, b: string, c: string, d: string)
    ensures Join([a, b, c, d], '.') == a + "." + (b + "." + (c + "." + d))
  {
    assert [a, b, c, d][1..] == [b, c, d] && [b, c, d][1..] == [c, d] && [c, d][1..] == [d];
    assert Join([c, d], '.') == c + "." + d;
    assert Join([b, c, d], '.') == b + "." + (c + "." + d);
  }

  lemma DottedToken()
    ensures DottedQuad("1.2.3.4") == Some(0x01020304)
  {
    DigitsSpell('1', '2', '3', '4');
    assert ['1', '.', '2', '.', '3', '.', '4'] == "1.2.3.4";
  }

  lemma DigitsSpell(a: char, b: char, c: char, d: char)
    requires DigitValue(a) < 10 && DigitValue(b) < 10 && DigitValue(c) < 10 && DigitValue(d) < 10
    ensures DottedQuad([a, '.', b, '.', c, '.', d])
      == Some(((DigitValue(a) * 256 + DigitValue(b)) * 256 + DigitValue(c)) * 256 + DigitValue(d))
  {
    OneDigit(a);
    OneDigit(b);
    OneDigit(c);
    OneDigit(d);
    QuadSpelled([[a], [b], [c], [d]]);
    FourJoined([a], [b], [c], [d]);
    assert [a] + "." + ([b] + "." + ([c] + "." + [d])) == [a, '.', b, '.', c, '.', d];
  }

  // A head alone before `::`, the rest zeros.
  lemma HeadBeforePair(tok: string, h: Groups)
    requires TokenGroups(tok, true) == Some(h)
    ensures Ipv6Groups(tok + "::") == Some(h + Zeros(8 - |h|))
  {
    var text, g := tok + "::", h + Zeros(8 - |h|);
    OneToken(tok, h);
    assert text == Join([tok], ':') + "::" + Join([], ':');
    assert Spells([tok], h) && Spells([], []);
    assert g == h + Zeros(8 - |h| - 0) + [];
    assert SpellsShort(text, g, h, []);
    SpelledPlain(text, g);
    SpellingsParse(text, g);
  }

  // ---- every address has its spellings -----------------------------------------------------------------

  // At most four hex digits.
  lemma HexLength(n: nat)
    requires n < 0x10000
    ensures |Render(n, 16)| <= 4
  {
    if n >= 0x10 { assert Render(n, 16) == Render(n / 0x10, 16) + [DigitChar(n % 0x10)]; }
    if n >= 0x100 { assert Render(n / 0x10, 16) == Render(n / 0x10 / 0x10, 16) + [DigitChar(n / 0x10 % 0x10)]; }
    if n >= 0x1000 {
      assert Render(n / 0x10 / 0x10, 16) == Render(n / 0x10 / 0x10 / 0x10, 16) + [DigitChar(n / 0x10 / 0x10 % 0x10)];
    }
  }

  /** A group's hex digits are read as the group. */
  lemma HexGroupReads(n: nat, last: bool)
    requires n < 0x10000
    ensures TokenGroups(Render(n, 16), last) == Some([n])
  {
    RenderReads(n, 16);
    HexLength(n);
    assert DigitValue('.') == 16;
  }

  function HexTokens(g: Groups): (tokens: seq<string>)
    ensures |tokens| == |g|
  {
    if g == [] then [] else [Render(g[0], 16)] + HexTokens(g[1..])
  }

  lemma {:induction false} HexTokensSpell(g: Groups)
    requires AreGroups(g)
    ensures Spells(HexTokens(g), g)
  {
    if g != [] {
      HexTokensSpell(g[1..]);
      HexGroupReads(g[0], |g| == 1);
      assert HexTokens(g)[1..] == HexTokens(g[1..]);
      assert g == [g[0]] + g[1..];
    }
  }

  /** All eight groups in hex, between colons. */
  lemma EightGroupsRead(g: Groups)
    requires AreGroups(g) && |g| == 8
    ensures Ipv6Groups(Join(HexTokens(g), ':')) == Some(g)
  {
    HexTokensSpell(g);
    assert SpellsFull(Join(HexTokens(g), ':'), g);
    SpelledPlain(Join(HexTokens(g), ':'), g);
    SpellingsParse(Join(HexTokens(g), ':'), g);
  }

  /** `::` for any run of zero groups. */
  lemma ShortenedReads(g: Groups, i: nat, j: nat)
    requires AreGroups(g) && |g| == 8 && i <= j <= 8 && g[i..j] == Zeros(j - i)
    ensures Ipv6Groups(Join(HexTokens(g[..i]), ':') + "::" + Join(HexTokens(g[j..]), ':')) == Some(g)
  {
    var h, t := g[..i], g[j..];
    var text := Join(HexTokens(h), ':') + "::" + Join(HexTokens(t), ':');
    HexTokensSpell(h);
    HexTokensSpell(t);
    assert g == h + Zeros(8 - |h| - |t|) + t;
    assert SpellsShort(text, g, h, t);
    SpelledPlain(text, g);
    SpellingsParse(text, g);
  }

  lemma DecimalLength(n: nat)
    requires n < 256
    ensures |Decimal(n)| <= 3
  {
    if n >= 10 { assert Render(n, 10) == Render(n / 10, 10) + [DigitChar(n % 10)]; }
    if n >= 100 { assert Render(n / 10, 10) == Render(n / 10 / 10, 10) + [DigitChar(n / 10 % 10)]; }
  }

  /** Every octet has such a text. */
  lemma OctetReads(n: nat)
    requires n < 256
    ensures IsOctetText(Decimal(n)) && Number(Decimal(n), 10) == n
  {
    RenderReads(n, 10);
    DecimalLength(n);
  }

  /** Four octets' decimal texts, between dots, end a run as its two groups. */
  lemma OctetTextsRead(tokens: seq<string>, ns: seq<nat>, tok: string, high: nat, low: nat)
    requires |tokens| == |ns| == 4 && tok == Join(tokens, '.')
    requires forall i | 0 <= i < 4 :: ns[i] < 256 && IsOctetText(tokens[i]) && Number(tokens[i], 10) == ns[i]
    requires high == ns[0] * 256 + ns[1] && low == ns[2] * 256 + ns[3]
    ensures TokenGroups(tok, true) == Some([high, low])
  {
    DotInside(tokens);
    var v := QuadValue(tokens, ns);
    QuadGroups(tok, v, high, low);
  }

  lemma QuadGroups(tok: string, v: nat, high: nat, low: nat)
    requires '.' in tok && DottedQuad(tok) == Some(v) && v / 0x10000 == high && v % 0x10000 == low
    ensures TokenGroups(tok, true) == Some([high, low])
  {
  }

  lemma QuadValue(tokens: seq<string>, ns: seq<nat>) returns (v: nat)
    requires |tokens| == |ns| == 4
    requires forall i | 0 <= i < 4 :: ns[i] < 256 && IsOctetText(tokens[i]) && Number(tokens[i], 10) == ns[i]
    ensures DottedQuad(Join(tokens, '.')) == Some(v)
    ensures v / 0x10000 == ns[0] * 256 + ns[1] && v % 0x10000 == ns[2] * 256 + ns[3]
  {
    QuadSpelled(tokens);
    v := OfOctets(ns[0], ns[1], ns[2], ns[3]);
    TwoGroups(ns[0], ns[1], ns[2], ns[3]);
  }

  lemma DotInside(parts: seq<string>)
    requires |parts| > 1
    ensures '.' in Join(parts, '.')
  {
    assert Join(parts, '.')[|parts[0]|] == '.';
  }

  lemma TwoGroups(a: nat, b: nat, c: nat, d: nat)
    requires a < 256 && b < 256 && c < 256 && d < 256
    ensures OfOctets(a, b, c, d) / 0x10000 == a * 256 + b && OfOctets(a, b, c, d) % 0x10000 == c * 256 + d
  {
    assert OfOctets(a, b, c, d) == (a * 256 + b) * 0x10000 + (c * 256 + d);
  }

  lemma QuadToken(tok: string, v: nat)
    requires '.' in tok && DottedQuad(tok) == Some(v)
    ensures TokenGroups(tok, true) == Some([v / 0x10000, v % 0x10000])
  {
  }

  /** Past section 2.2 of RFC 4291: a dotted quad may end the run before `::`. */
  lemma QuadBeforePair()
    ensures Ipv6Groups("1.2.3.4" + "::") == Some([0x0102, 0x0304] + Zeros(6))
  {
    var tok := "1.2.3.4";
    DottedToken();
    assert tok[1] == '.';
    QuadToken(tok, 0x01020304);
    HeadBeforePair(tok, [0x01020304 / 0x10000, 0x01020304 % 0x10000]);
  }

  /** And `::` may stand for no group at all: any eight groups parse with `::` between any two of them. */
  lemma EmptyPair(head: seq<string>, tail: seq<string>, h: Groups, t: Groups)
    requires Spells(head, h) && Spells(tail, t) && |h| + |t| == 8
    ensures Ipv6Groups(Join(head, ':') + "::" + Join(tail, ':')) == Some(h + t)
  {
    var text := Join(head, ':') + "::" + Join(tail, ':');
    assert h + Zeros(0) + t == h + t;
    assert SpellsShort(text, h + t, h, t);
    SpelledPlain(text, h + t);
    SpellingsParse(text, h + t);
  }
}
