/** JSON.parse reads back what the ASCII-only printer wrote, and what that text can never contain. */
module JsonProofs {
  import opened Options
  import opened Text
  import opened Json

  /** Numbers are JSON numbers and no object repeats a key: what JSON.stringify can meet. */
  predicate WellFormed(v: Value) {
    match v
    case Num(lexeme) => IsNumber(lexeme)
    case Arr(items) => WellFormedItems(items)
    case Obj(members) => WellFormedMembers(members)
    case _ => true
  }

  predicate WellFormedItems(items: Items) {
    items.NoItems? || (WellFormed(items.head) && WellFormedItems(items.tail))
  }

  predicate WellFormedMembers(ms: Members) {
    ms.NoMembers? || (!HasKey(ms.tail, ms.key) && WellFormed(ms.value) && WellFormedMembers(ms.tail))
  }

  // ---- the two-pass printer in one pass, onto the text that follows --------------------------------

  function PrintUnit(c: Unit): (t: Text)
    ensures t != []
  {
    if ShortEscape(c) != 0 then [BACKSLASH, ShortEscape(c)]
    else if c < 0x20 || c >= 0x7f then UnicodeEscape(c)
    else [c]
  }

  function BodyOn(s: Text, rest: Text): Text {
    if s == [] then [QUOTE] + rest else PrintUnit(s[0]) + BodyOn(s[1..], rest)
  }

  function StringOn(s: Text, rest: Text): Text {
    [QUOTE] + BodyOn(s, rest)
  }

  function PrintOn(v: Value, rest: Text): Text {
    match v
    case Null => A("null") + rest
    case True => A("true") + rest
    case False => A("false") + rest
    case Num(lexeme) => lexeme + rest
    case Str(text) => StringOn(text, rest)
    case Arr(items) => [OPEN_ARR] + ItemsOn(items, true, rest)
    case Obj(members) => [OPEN_OBJ] + MembersOn(members, true, rest)
  }

  function CommaOn(first: bool, rest: Text): Text {
    if first then rest else [COMMA] + rest
  }

  function ItemsOn(items: Items, first: bool, rest: Text): Text {
    match items
    case NoItems => [CLOSE_ARR] + rest
    case Item(head, tail) => CommaOn(first, PrintOn(head, ItemsOn(tail, false, rest)))
  }

  function MembersOn(members: Members, first: bool, rest: Text): Text {
    match members
    case NoMembers => [CLOSE_OBJ] + rest
    case Member(key, value, tail) =>
      CommaOn(first, StringOn(key, [COLON] + PrintOn(value, MembersOn(tail, false, rest))))
  }

  // The escaped text of t, followed by rest.
  function EscapeOn(t: Text, rest: Text): Text {
    EscapeNonAscii(t) + rest
  }

  lemma {:induction false} EscapeOnSplits(a: Text, b: Text, rest: Text)
    ensures EscapeOn(a + b, rest) == EscapeOn(a, EscapeOn(b, rest))
  {
    if a == [] {
      assert a + b == b;
    } else {
      assert (a + b)[1..] == a[1..] + b;
      EscapeOnSplits(a[1..], b, rest);
      EscapeOnHead(a + b, rest);
      EscapeOnHead(a, EscapeOn(b, rest));
    }
  }

  lemma EscapeOnHead(t: Text, rest: Text)
    requires t != []
    ensures EscapeOn(t, rest) == (if t[0] >= 0x7f then UnicodeEscape(t[0]) else [t[0]]) + EscapeOn(t[1..], rest)
  {
  }

  lemma {:induction false} EscapeOnAscii(t: Text, rest: Text)
    requires forall i | 0 <= i < |t| :: t[i] < 0x7f
    ensures EscapeOn(t, rest) == t + rest
  {
    if t != [] {
      EscapeOnAscii(t[1..], rest);
      EscapeOnHead(t, rest);
      assert t + rest == [t[0]] + (t[1..] + rest);
    }
  }

  lemma UnitOn(c: Unit, rest: Text)
    ensures EscapeOn(QuoteUnit(c), rest) == PrintUnit(c) + rest
    ensures c >= 0x7f ==> EscapeOn([c], rest) == PrintUnit(c) + rest
  {
    if QuoteUnit(c) == [c] {
      EscapeOnHead([c], rest);
    } else {
      EscapeOnAscii(QuoteUnit(c), rest);
      if c >= 0x7f { EscapeOnHead([c], rest); }
    }
  }

  lemma {:induction false} BodyIsPrinted(s: Text, rest: Text)
    ensures EscapeOn(QuoteBody(s), [QUOTE] + rest) == BodyOn(s, rest)
  {
    if s == [] {
    } else if StartsWithPair(s) {
      BodyIsPrinted(s[2..], rest);
      var more := QuoteBody(s[2..]);
      assert QuoteBody(s) == [s[0]] + ([s[1]] + more);
      EscapeOnSplits([s[0]], [s[1]] + more, [QUOTE] + rest);
      EscapeOnSplits([s[1]], more, [QUOTE] + rest);
      UnitOn(s[1], BodyOn(s[2..], rest));
      UnitOn(s[0], BodyOn(s[1..], rest));
    } else {
      BodyIsPrinted(s[1..], rest);
      EscapeOnSplits(QuoteUnit(s[0]), QuoteBody(s[1..]), [QUOTE] + rest);
      UnitOn(s[0], BodyOn(s[1..], rest));
    }
  }

  lemma StringIsPrinted(s: Text, rest: Text)
    ensures EscapeOn(Quote(s), rest) == StringOn(s, rest)
  {
    BodyIsPrinted(s, rest);
    EscapeOnSplits([QUOTE] + QuoteBody(s), [QUOTE], rest);
    EscapeOnSplits([QUOTE], QuoteBody(s), EscapeOn([QUOTE], rest));
    EscapeOnAscii([QUOTE], rest);
    EscapeOnAscii([QUOTE], BodyOn(s, rest));
  }

  lemma BracketsPrinted(open: Unit, inner: Text, close: Unit, rest: Text)
    requires open < 0x7f && close < 0x7f
    ensures EscapeOn([open] + inner + [close], rest) == [open] + EscapeOn(inner, [close] + rest)
  {
    EscapeOnSplits([open] + inner, [close], rest);
    EscapeOnSplits([open], inner, EscapeOn([close], rest));
    EscapeOnAscii([close], rest);
    EscapeOnAscii([open], EscapeOn(inner, [close] + rest));
  }

  lemma {:induction false} ValueIsPrinted(v: Value, rest: Text)
    requires WellFormed(v)
    ensures EscapeOn(Stringify(v), rest) == PrintOn(v, rest)
  {
    match v
    case Null => EscapeOnAscii(A("null"), rest);
    case True => EscapeOnAscii(A("true"), rest);
    case False => EscapeOnAscii(A("false"), rest);
    case Num(lexeme) => EscapeOnAscii(lexeme, rest);
    case Str(text) => StringIsPrinted(text, rest);
    case Arr(items) =>
      ItemsArePrinted(items, true, rest);
      BracketsPrinted(OPEN_ARR, StringifyItems(items, true), CLOSE_ARR, rest);
    case Obj(members) =>
      MembersArePrinted(members, true, rest);
      BracketsPrinted(OPEN_OBJ, StringifyMembers(members, true), CLOSE_OBJ, rest);
  }

  lemma CommaIsPrinted(first: bool, t: Text, rest: Text)
    ensures EscapeOn((if first then [] else [COMMA]) + t, rest) == CommaOn(first, EscapeOn(t, rest))
  {
    var comma: Text := if first then [] else [COMMA];
    EscapeOnSplits(comma, t, rest);
    EscapeOnAscii(comma, EscapeOn(t, rest));
  }

  lemma CommaRegroups(first: bool, head: Text, tail: Text)
    ensures (if first then [] else [COMMA]) + head + tail == (if first then [] else [COMMA]) + (head + tail)
  {
  }

  lemma {:induction false} ItemsArePrinted(items: Items, first: bool, rest: Text)
    requires WellFormedItems(items)
    ensures EscapeOn(StringifyItems(items, first), [CLOSE_ARR] + rest) == ItemsOn(items, first, rest)
  {
    if items.Item? {
      var head, tail := Stringify(items.head), StringifyItems(items.tail, false);
      ItemsArePrinted(items.tail, false, rest);
      ValueIsPrinted(items.head, ItemsOn(items.tail, false, rest));
      EscapeOnSplits(head, tail, [CLOSE_ARR] + rest);
      CommaIsPrinted(first, head + tail, [CLOSE_ARR] + rest);
      CommaRegroups(first, head, tail);
    }
  }

  lemma {:induction false} MembersArePrinted(ms: Members, first: bool, rest: Text)
    requires WellFormedMembers(ms)
    ensures EscapeOn(StringifyMembers(ms, first), [CLOSE_OBJ] + rest) == MembersOn(ms, first, rest)
  {
    if ms.Member? {
      var key, value, tail := Quote(ms.key), Stringify(ms.value), StringifyMembers(ms.tail, false);
      MembersArePrinted(ms.tail, false, rest);
      ValueIsPrinted(ms.value, MembersOn(ms.tail, false, rest));
      MemberIsPrinted(ms.key, value, tail, [CLOSE_OBJ] + rest);
      CommaIsPrinted(first, key + ([COLON] + (value + tail)), [CLOSE_OBJ] + rest);
      Regroup(if first then [] else [COMMA], key, [COLON], value, tail);
    }
  }

  lemma Regroup(a: Text, b: Text, c: Text, d: Text, e: Text)
    ensures a + b + c + d + e == a + (b + (c + (d + e)))
  {
  }

  lemma MemberIsPrinted(key: Text, value: Text, tail: Text, rest: Text)
    ensures EscapeOn(Quote(key) + ([COLON] + (value + tail)), rest)
      == StringOn(key, [COLON] + EscapeOn(value, EscapeOn(tail, rest)))
  {
    var more := EscapeOn(value, EscapeOn(tail, rest));
    EscapeOnSplits(Quote(key), [COLON] + (value + tail), rest);
    EscapeOnSplits([COLON], value + tail, rest);
    EscapeOnSplits(value, tail, rest);
    EscapeOnAscii([COLON], more);
    StringIsPrinted(key, [COLON] + more);
  }

  lemma AsciiJsonIsPrinted(v: Value, rest: Text)
    requires WellFormed(v)
    ensures AsciiJson(v) + rest == PrintOn(v, rest)
  {
    ValueIsPrinted(v, rest);
  }

  // ---- parsing what was printed -----------------------------------------------------------------------

  lemma HexDigitRoundTrip(d: nat)
    requires d < 16
    ensures HexValue(HexDigit(d)) == Some(d)
  {
  }

  lemma FourDigits(c: nat)
    ensures c == c / 0x1000 * 0x1000 + c / 0x100 % 0x10 * 0x100 + c / 0x10 % 0x10 * 0x10 + c % 0x10
  {
    assert c == c / 0x10 * 0x10 + c % 0x10;
    assert c / 0x10 == c / 0x100 * 0x10 + c / 0x10 % 0x10;
    assert c / 0x100 == c / 0x1000 * 0x10 + c / 0x100 % 0x10;
  }

  lemma HexUnitOf(s: Text, a: nat, b: nat, c: nat, d: nat)
    requires |s| >= 4 && a < 16 && b < 16 && c < 16 && d < 16
    requires s[0] == HexDigit(a) && s[1] == HexDigit(b) && s[2] == HexDigit(c) && s[3] == HexDigit(d)
    ensures HexUnit(s) == Some(a * 0x1000 + b * 0x100 + c * 0x10 + d)
  {
    HexDigitRoundTrip(a);
    HexDigitRoundTrip(b);
    HexDigitRoundTrip(c);
    HexDigitRoundTrip(d);
  }

  lemma HexRoundTrip(c: Unit, s: Text)
    requires |s| >= 4 && s[0] == HexDigit(c / 0x1000) && s[1] == HexDigit(c / 0x100 % 0x10)
    requires s[2] == HexDigit(c / 0x10 % 0x10) && s[3] == HexDigit(c % 0x10)
    ensures HexUnit(s) == Some(c)
  {
    HexUnitOf(s, c / 0x1000, c / 0x100 % 0x10, c / 0x10 % 0x10, c % 0x10);
    FourDigits(c);
  }

  lemma UnitRoundTrip(c: Unit, rest: Text)
    ensures ParseString(PrintUnit(c) + rest) == Prefixed(c, ParseString(rest))
  {
    var t := PrintUnit(c) + rest;
    if ShortEscape(c) != 0 {
      assert t[2..] == rest;
      assert Unescape(t[1]) == Some(c);
    } else if c < 0x20 || c >= 0x7f {
      HexRoundTrip(c, t[2..]);
      assert t[6..] == rest;
    } else {
      assert t[1..] == rest;
    }
  }

  lemma {:induction false} StringRoundTrip(s: Text, rest: Text)
    ensures ParseString(BodyOn(s, rest)) == Some((s, rest))
  {
    if s == [] {
      assert BodyOn(s, rest)[1..] == rest;
    } else {
      StringRoundTrip(s[1..], rest);
      UnitRoundTrip(s[0], BodyOn(s[1..], rest));
      assert s == [s[0]] + s[1..];
    }
  }

  lemma {:induction false} RunEnds(s: Text, rest: Text)
    requires forall i | 0 <= i < |s| :: IsNumberUnit(s[i])
    requires Delimits(rest)
    ensures NumberRun(s + rest) == |s|
  {
    if s == [] {
      assert s + rest == rest;
    } else {
      assert (s + rest)[1..] == s[1..] + rest;
      RunEnds(s[1..], rest);
    }
  }

  lemma NumberStarts(s: Text)
    requires IsNumber(s)
    ensures s != [] && (IsDigit(s[0]) || s[0] == 0x2d)
  {
  }

  predicate Delimits(rest: Text) {
    rest == [] || !IsNumberUnit(rest[0])
  }

  lemma NumberRoundTrip(s: Text, rest: Text)
    requires IsNumber(s) && Delimits(rest)
    ensures ParseValue(s + rest) == Some((Num(s), rest))
  {
    NumberStarts(s);
    RunEnds(s, rest);
    var t := s + rest;
    assert SkipSpace(t) == t;
    assert t[..|s|] == s && t[|s|..] == rest;
  }

  lemma WordRoundTrip(word: Text, v: Value, rest: Text)
    ensures ParseWord(word + rest, word, v) == Some((v, rest))
  {
    assert (word + rest)[|word|..] == rest;
  }

  lemma LiteralRoundTrip(v: Value, rest: Text)
    requires v.Null? || v.True? || v.False?
    ensures ParseValue(PrintOn(v, rest)) == Some((v, rest))
  {
    match v
    case Null => WordRoundTrip(A("null"), Null, rest);
    case True => WordRoundTrip(A("true"), True, rest);
    case False => WordRoundTrip(A("false"), False, rest);
  }

  // A bracketed text reads as what its inside reads as.
  lemma ArrayRead(items: Items, rest: Text)
    requires items.Item? ==> ParseItems(ItemsOn(items, true, rest)) == Some((items, rest))
    requires items.Item? ==>
      var t := ItemsOn(items, true, rest);
      t != [] && !IsSpace(t[0]) && t[0] != CLOSE_ARR
    ensures ParseValue(PrintOn(Arr(items), rest)) == Some((Arr(items), rest))
  {
    assert PrintOn(Arr(items), rest)[1..] == ItemsOn(items, true, rest);
    if items.NoItems? { assert ItemsOn(items, true, rest)[1..] == rest; }
  }

  lemma ObjectRead(members: Members, rest: Text)
    requires members.Member? ==> ParseMembers(MembersOn(members, true, rest)) == Some((members, rest))
    ensures ParseValue(PrintOn(Obj(members), rest)) == Some((Obj(members), rest))
  {
    assert PrintOn(Obj(members), rest)[1..] == MembersOn(members, true, rest);
    if members.NoMembers? { assert MembersOn(members, true, rest)[1..] == rest; }
  }

  lemma {:induction false} ValueRoundTrip(v: Value, rest: Text)
    requires WellFormed(v) && Delimits(rest)
    ensures ParseValue(PrintOn(v, rest)) == Some((v, rest))
  {
    match v
    case Num(lexeme) => NumberRoundTrip(lexeme, rest);
    case Str(text) =>
      StringRoundTrip(text, rest);
      assert PrintOn(v, rest)[1..] == BodyOn(text, rest);
    case Arr(items) =>
      if items.Item? {
        ItemsRoundTrip(items, rest);
        ValueStarts(items.head, ItemsOn(items.tail, false, rest));
      }
      ArrayRead(items, rest);
    case Obj(members) =>
      if members.Member? { MembersRoundTrip(members, rest); }
      ObjectRead(members, rest);
    case _ => LiteralRoundTrip(v, rest);
  }

  /** A printed value starts with a character that is neither space nor a closing bracket nor `s`. */
  lemma ValueStarts(v: Value, rest: Text)
    requires WellFormed(v)
    ensures
      var t := PrintOn(v, rest);
      t != [] && !IsSpace(t[0]) && t[0] != CLOSE_ARR && t[0] != 0x73
  {
    match v
    case Num(lexeme) => NumberStarts(lexeme);
    case _ =>
  }

  lemma {:induction false} ItemsRoundTrip(items: Items, rest: Text)
    requires items.Item? && WellFormedItems(items)
    ensures ParseItems(ItemsOn(items, true, rest)) == Some((items, rest))
  {
    var after := ItemsOn(items.tail, false, rest);
    if items.tail.Item? {
      ItemsRoundTrip(items.tail, rest);
      assert after == [COMMA] + ItemsOn(items.tail, true, rest);
      assert after[1..] == ItemsOn(items.tail, true, rest);
    } else {
      assert after[1..] == rest;
    }
    ValueRoundTrip(items.head, after);
  }

  lemma MemberRoundTrip(key: Text, v: Value, text: Text, after: Text)
    requires ParseValue(text) == Some((v, after))
    ensures ParseMembers(StringOn(key, [COLON] + text)) == ParseMoreMembers(key, v, after)
  {
    StringRoundTrip(key, [COLON] + text);
    assert StringOn(key, [COLON] + text)[1..] == BodyOn(key, [COLON] + text);
    assert ([COLON] + text)[1..] == text;
  }

  lemma {:induction false} MembersRoundTrip(ms: Members, rest: Text)
    requires ms.Member? && WellFormedMembers(ms)
    ensures ParseMembers(MembersOn(ms, true, rest)) == Some((ms, rest))
  {
    var after := MembersOn(ms.tail, false, rest);
    if ms.tail.Member? { MembersRoundTrip(ms.tail, rest); }
    MoreMembersRead(ms, rest);
    ValueRoundTrip(ms.value, after);
    MemberRoundTrip(ms.key, ms.value, PrintOn(ms.value, after), after);
  }

  lemma MoreMembersRead(ms: Members, rest: Text)
    requires ms.Member? && WellFormedMembers(ms)
    requires ms.tail.Member? ==> ParseMembers(MembersOn(ms.tail, true, rest)) == Some((ms.tail, rest))
    ensures ParseMoreMembers(ms.key, ms.value, MembersOn(ms.tail, false, rest)) == Some((ms, rest))
    ensures Delimits(MembersOn(ms.tail, false, rest))
  {
    var after := MembersOn(ms.tail, false, rest);
    if ms.tail.Member? {
      assert after == [COMMA] + MembersOn(ms.tail, true, rest);
      assert after[1..] == MembersOn(ms.tail, true, rest);
    } else {
      assert after[1..] == rest;
    }
  }

  /** JSON.parse(asciiJson(v)) is v, for every JSON value. */
  lemma RoundTrip(v: Value)
    requires WellFormed(v)
    ensures Parse(AsciiJson(v)) == Some(v)
  {
    AsciiJsonIsPrinted(v, []);
    ValueRoundTrip(v, []);
    assert AsciiJson(v) + [] == AsciiJson(v);
  }

  // ---- what the printed text never contains -------------------------------------------------------------

  predicate Printable(t: Text) {
    forall i | 0 <= i < |t| :: 0x20 <= t[i] <= 0x7e
  }

  // t starts with {"s, which after a space begins the marker of a diagnostic line
  predicate MarkTail(t: Text) {
    |t| >= 3 && t[0] == OPEN_OBJ && t[1] == QUOTE && t[2] == 0x73
  }

  /** No space is followed by {"s, and every unit is printable ASCII. */
  predicate Clean(t: Text) {
    t == [] || (0x20 <= t[0] <= 0x7e && (t[0] == 0x20 ==> !MarkTail(t[1..])) && Clean(t[1..]))
  }

  // Printable, and without a space.
  predicate Bare(t: Text) {
    forall i | 0 <= i < |t| :: 0x20 < t[i] <= 0x7e
  }

  lemma {:induction false} CleanOn(p: Text, t: Text)
    requires Clean(t) && Bare(p)
    ensures Clean(p + t)
  {
    if p == [] {
      assert p + t == t;
    } else {
      CleanOn(p[1..], t);
      assert (p + t)[1..] == p[1..] + t;
    }
  }

  lemma CleanSpace(t: Text)
    requires Clean(t) && !MarkTail(t)
    ensures Clean([0x20] + t)
  {
    assert ([0x20] + t)[1..] == t;
  }

  lemma {:induction false} CleanFrom(t: Text, k: nat)
    requires Clean(t) && k <= |t|
    ensures Clean(t[k..])
  {
    if k > 0 {
      CleanFrom(t[1..], k - 1);
      assert t[1..][k - 1..] == t[k..];
    }
  }

  lemma {:induction false} CleanIsPrintable(t: Text)
    requires Clean(t)
    ensures Printable(t)
  {
    if t != [] {
      CleanIsPrintable(t[1..]);
      assert forall i | 0 < i < |t| :: t[i] == t[1..][i - 1];
    }
  }

  lemma UnitPrintable(c: Unit)
    ensures c != 0x20 ==> Bare(PrintUnit(c))
    ensures c == 0x20 ==> PrintUnit(c) == [c]
    ensures PrintUnit(c)[0] != QUOTE
    ensures PrintUnit(c)[0] == OPEN_OBJ ==> PrintUnit(c) == [c]
  {
  }

  // A body opens with the mark's tail only by ending at once on a text that goes on with an s.
  lemma BodyNoMark(s: Text, rest: Text)
    requires rest == [] || rest[0] != 0x73
    ensures !MarkTail(BodyOn(s, rest))
  {
    if s != [] {
      UnitPrintable(s[0]);
      if PrintUnit(s[0]) == [s[0]] {
        assert BodyOn(s, rest)[1..] == BodyOn(s[1..], rest);
        if s[1..] != [] { UnitPrintable(s[1]); }
      }
    }
  }

  lemma {:induction false} BodyClean(s: Text, rest: Text)
    requires Clean(rest) && (rest == [] || rest[0] != 0x73)
    ensures Clean(BodyOn(s, rest)) && !MarkTail(BodyOn(s, rest))
  {
    BodyNoMark(s, rest);
    if s == [] {
      CleanOn([QUOTE], rest);
    } else {
      BodyClean(s[1..], rest);
      UnitPrintable(s[0]);
      if s[0] == 0x20 { CleanSpace(BodyOn(s[1..], rest)); } else { CleanOn(PrintUnit(s[0]), BodyOn(s[1..], rest)); }
    }
  }

  lemma StringClean(s: Text, rest: Text)
    requires Clean(rest) && (rest == [] || rest[0] != 0x73)
    ensures Clean(StringOn(s, rest))
  {
    BodyClean(s, rest);
    CleanOn([QUOTE], BodyOn(s, rest));
  }

  lemma {:induction false} ValueClean(v: Value, rest: Text)
    requires WellFormed(v) && Clean(rest) && (rest == [] || rest[0] != 0x73)
    ensures Clean(PrintOn(v, rest))
  {
    match v
    case Null => CleanOn(A("null"), rest);
    case True => CleanOn(A("true"), rest);
    case False => CleanOn(A("false"), rest);
    case Num(lexeme) => CleanOn(lexeme, rest);
    case Str(text) => StringClean(text, rest);
    case Arr(items) =>
      ItemsClean(items, true, rest);
      CleanOn([OPEN_ARR], ItemsOn(items, true, rest));
    case Obj(members) =>
      MembersClean(members, true, rest);
      CleanOn([OPEN_OBJ], MembersOn(members, true, rest));
  }

  lemma {:induction false} ItemsClean(items: Items, first: bool, rest: Text)
    requires WellFormedItems(items) && Clean(rest)
    ensures Clean(ItemsOn(items, first, rest))
  {
    if items.NoItems? {
      CleanOn([CLOSE_ARR], rest);
    } else {
      var after := ItemsOn(items.tail, false, rest);
      ItemsClean(items.tail, false, rest);
      ValueClean(items.head, after);
      CleanOn([COMMA], PrintOn(items.head, after));
    }
  }

  lemma {:induction false} MembersClean(ms: Members, first: bool, rest: Text)
    requires WellFormedMembers(ms) && Clean(rest)
    ensures Clean(MembersOn(ms, first, rest))
  {
    if ms.NoMembers? {
      CleanOn([CLOSE_OBJ], rest);
    } else {
      var after := MembersOn(ms.tail, false, rest);
      MembersClean(ms.tail, false, rest);
      ValueClean(ms.value, after);
      var value := [COLON] + PrintOn(ms.value, after);
      CleanOn([COLON], PrintOn(ms.value, after));
      StringClean(ms.key, value);
      CleanOn([COMMA], StringOn(ms.key, value));
    }
  }

  // ---- what JSON.parse returns ------------------------------------------------------------------------

  lemma {:induction false} RemoveKeepsShape(ms: Members, key: Text)
    requires WellFormedMembers(ms)
    ensures WellFormedMembers(Remove(ms, key)) && !HasKey(Remove(ms, key), key)
    ensures forall k :: HasKey(Remove(ms, key), k) ==> HasKey(ms, k)
  {
    if ms.Member? { RemoveKeepsShape(ms.tail, key); }
  }

  lemma {:induction false} LookupWellFormed(ms: Members, key: Text)
    requires WellFormedMembers(ms) && HasKey(ms, key)
    ensures WellFormed(Lookup(ms, key))
  {
    if ms.key != key { LookupWellFormed(ms.tail, key); }
  }

  lemma DefineWellFormed(key: Text, v: Value, rest: Members)
    requires WellFormed(v) && WellFormedMembers(rest)
    ensures WellFormedMembers(Define(key, v, rest))
  {
    if HasKey(rest, key) {
      LookupWellFormed(rest, key);
      RemoveKeepsShape(rest, key);
    }
  }

  /** Whatever text JSON.parse accepts, its value is one JSON.stringify can meet. */
  lemma {:induction false} ParsedWellFormed(s: Text)
    ensures ParseValue(s).Some? ==> WellFormed(ParseValue(s).value.0)
    decreases |s|, 1
  {
    var t := SkipSpace(s);
    if t != [] && t[0] == OPEN_ARR && ParseItems(SkipSpace(t[1..])).Some? {
      ParsedItemsWellFormed(SkipSpace(t[1..]));
    } else if t != [] && t[0] == OPEN_OBJ && ParseMembers(SkipSpace(t[1..])).Some? {
      ParsedMembersWellFormed(SkipSpace(t[1..]));
    }
  }

  lemma {:induction false} ParsedItemsWellFormed(s: Text)
    ensures ParseItems(s).Some? ==> WellFormedItems(ParseItems(s).value.0)
    decreases |s|, 2
  {
    var head := ParseValue(s);
    ParsedWellFormed(s);
    if head.Some? {
      var t := SkipSpace(head.value.1);
      if t != [] && t[0] == COMMA { ParsedItemsWellFormed(t[1..]); }
    }
  }

  lemma {:induction false} ParsedMembersWellFormed(s: Text)
    ensures ParseMembers(s).Some? ==> WellFormedMembers(ParseMembers(s).value.0)
    decreases |s|, 2
  {
    var t := SkipSpace(s);
    if t != [] && t[0] == QUOTE && ParseString(t[1..]).Some? {
      var key := ParseString(t[1..]).value;
      var u := SkipSpace(key.1);
      if u != [] && u[0] == COLON && ParseValue(u[1..]).Some? {
        ParsedWellFormed(u[1..]);
        var value := ParseValue(u[1..]).value;
        var w := SkipSpace(value.1);
        if w != [] && w[0] == COMMA && ParseMembers(w[1..]).Some? {
          ParsedMembersWellFormed(w[1..]);
          DefineWellFormed(key.0, value.0, ParseMembers(w[1..]).value.0);
        }
      }
    }
  }

  // ---- what is printed ------------------------------------------------------------------------------------

  /** How one unit of a string is printed, as section 7 of RFC 8259 spells the escapes. */
  lemma UnitsSpelled(c: Unit)
    ensures QuoteUnit(c)
      == if c == 8 then A("\\b") else if c == 9 then A("\\t") else if c == 10 then A("\\n")
         else if c == 12 then A("\\f") else if c == 13 then A("\\r")
         else if c == 34 then A("\\\"") else if c == 92 then A("\\\\")
         else if c < 32 || 0xd800 <= c <= 0xdfff then UnicodeEscape(c)
         else [c]
  {
    LettersSpelled();
  }

  lemma LettersSpelled()
    ensures A("\\b") == [92, 98] && A("\\t") == [92, 116] && A("\\n") == [92, 110] && A("\\f") == [92, 102]
    ensures A("\\r") == [92, 114] && A("\\\"") == [92, 34] && A("\\\\") == [92, 92]
  {
  }

  /** The words, brackets, commas and colons of JSON. */
  lemma ValuesSpelled(a: Value, b: Value, k: Text, l: Text)
    ensures Stringify(Null) == A("null") && Stringify(True) == A("true") && Stringify(False) == A("false")
    ensures Stringify(Arr(Item(a, Item(b, NoItems)))) == A("[") + (Stringify(a) + (A(",") + Stringify(b))) + A("]")
    ensures Stringify(Obj(Member(k, a, Member(l, b, NoMembers))))
      == A("{") + (Quote(k) + A(":") + Stringify(a) + (A(",") + Quote(l) + A(":") + Stringify(b))) + A("}")
  {
    MarksSpelled();
    LastSpelled(b, l);
    FirstSpelled(a, Item(b, NoItems), k, Member(l, b, NoMembers));
  }

  lemma MarksSpelled()
    ensures A("[") == [OPEN_ARR] && A("]") == [CLOSE_ARR] && A("{") == [OPEN_OBJ] && A("}") == [CLOSE_OBJ]
    ensures A(",") == [COMMA] && A(":") == [COLON]
  {
  }

  lemma LastSpelled(b: Value, l: Text)
    ensures StringifyItems(Item(b, NoItems), false) == [COMMA] + Stringify(b)
    ensures StringifyMembers(Member(l, b, NoMembers), false) == [COMMA] + Quote(l) + [COLON] + Stringify(b)
  {
    assert [COMMA] + Stringify(b) + [] == [COMMA] + Stringify(b);
    assert [COMMA] + Quote(l) + [COLON] + Stringify(b) + [] == [COMMA] + Quote(l) + [COLON] + Stringify(b);
  }

  lemma FirstSpelled(a: Value, items: Items, k: Text, members: Members)
    ensures StringifyItems(Item(a, items), true) == Stringify(a) + StringifyItems(items, false)
    ensures StringifyMembers(Member(k, a, members), true)
      == Quote(k) + [COLON] + Stringify(a) + StringifyMembers(members, false)
  {
    assert [] + Stringify(a) == Stringify(a);
    assert [] + Quote(k) == Quote(k);
  }
}
