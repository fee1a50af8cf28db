/**
 JSON text over UTF-16 code units: JSON.stringify, the ASCII-only form diagnostics use, and
 JSON.parse (RFC 8259). A number is its own text: what doubles print as is the engine's business.
 An object keeps the order its members were given in.
 */
module Json {
  import opened Options
  import opened Text

  datatype Value = Null | True | False | Num(lexeme: Text) | Str(text: Text) | Arr(items: Items) | Obj(members: Members)
  datatype Items = NoItems | Item(head: Value, tail: Items)
  datatype Members = NoMembers | Member(key: Text, value: Value, tail: Members)

  const QUOTE: Unit := 0x22
  const COMMA: Unit := 0x2c
  const COLON: Unit := 0x3a
  const OPEN_ARR: Unit := 0x5b
  const BACKSLASH: Unit := 0x5c
  const CLOSE_ARR: Unit := 0x5d
  const OPEN_OBJ: Unit := 0x7b
  const CLOSE_OBJ: Unit := 0x7d

  // ---- printing ---------------------------------------------------------------------------------

  function HexDigit(d: nat): Unit
    requires d < 16
  {
    if d < 10 then 0x30 + d else 0x61 + (d - 10)
  }

  // '\\u' and four lower-case hex digits
  function UnicodeEscape(c: Unit): Text {
    [BACKSLASH, 0x75, HexDigit(c / 0x1000), HexDigit(c / 0x100 % 0x10), HexDigit(c / 0x10 % 0x10), HexDigit(c % 0x10)]
  }

  // The one-letter escapes of QuoteJSONString; 0 for a unit that has none.
  function ShortEscape(c: Unit): Unit {
    if c == 0x08 then 0x62 else if c == 0x09 then 0x74 else if c == 0x0a then 0x6e
    else if c == 0x0c then 0x66 else if c == 0x0d then 0x72
    else if c == QUOTE then QUOTE else if c == BACKSLASH then BACKSLASH else 0
  }

  function QuoteUnit(c: Unit): Text {
    if ShortEscape(c) != 0 then [BACKSLASH, ShortEscape(c)]
    else if c < 0x20 || IsHigh(c) || IsLow(c) then UnicodeEscape(c)
    else [c]
  }

  function QuoteBody(s: Text): Text {
    if s == [] then []
    else if StartsWithPair(s) then s[..2] + QuoteBody(s[2..])
    else QuoteUnit(s[0]) + QuoteBody(s[1..])
  }

  function Quote(s: Text): Text {
    [QUOTE] + QuoteBody(s) + [QUOTE]
  }

  // JSON.stringify
  function Stringify(v: Value): Text {
    match v
    case Null => A("null")
    case True => A("true")
    case False => A("false")
    case Num(lexeme) => lexeme
    case Str(text) => Quote(text)
    case Arr(items) => [OPEN_ARR] + StringifyItems(items, true) + [CLOSE_ARR]
    case Obj(members) => [OPEN_OBJ] + StringifyMembers(members, true) + [CLOSE_OBJ]
  }

  function StringifyItems(items: Items, first: bool): Text {
    match items
    case NoItems => []
    case Item(head, tail) => (if first then [] else [COMMA]) + Stringify(head) + StringifyItems(tail, false)
  }

  function StringifyMembers(members: Members, first: bool): Text {
    match members
    case NoMembers => []
    case Member(key, value, tail) =>
      (if first then [] else [COMMA]) + Quote(key) + [COLON] + Stringify(value) + StringifyMembers(tail, false)
  }

  // .replace(/[\u007f-\uffff]/g, unicodeEscape)
  function EscapeNonAscii(t: Text): Text {
    if t == [] then []
    else (if t[0] >= 0x7f then UnicodeEscape(t[0]) else [t[0]]) + EscapeNonAscii(t[1..])
  }

  function AsciiJson(v: Value): Text {
    EscapeNonAscii(Stringify(v))
  }

  // ---- parsing ------------------------------------------------------------------------------------

  predicate IsSpace(c: Unit) { c == 0x20 || c == 0x09 || c == 0x0a || c == 0x0d }

  function SkipSpace(s: Text): (r: Text)
    ensures |r| <= |s|
  {
    if s != [] && IsSpace(s[0]) then SkipSpace(s[1..]) else s
  }

  predicate IsDigit(c: Unit) { 0x30 <= c <= 0x39 }

  function HexValue(c: Unit): Option<nat> {
    if IsDigit(c) then Some(c - 0x30)
    else if 0x61 <= c <= 0x66 then Some(c - 0x61 + 10)
    else if 0x41 <= c <= 0x46 then Some(c - 0x41 + 10)
    else None
  }

  function HexUnit(s: Text): (r: Option<Unit>)
    requires |s| >= 4
  {
    var a, b, c, d := HexValue(s[0]), HexValue(s[1]), HexValue(s[2]), HexValue(s[3]);
    if a.Some? && b.Some? && c.Some? && d.Some? && a.value < 16 && b.value < 16 && c.value < 16 && d.value < 16
    then Some(a.value * 0x1000 + b.value * 0x100 + c.value * 0x10 + d.value)
    else None
  }

  function Unescape(c: Unit): Option<Unit> {
    if c == 0x62 then Some(0x08) else if c == 0x74 then Some(0x09) else if c == 0x6e then Some(0x0a)
    else if c == 0x66 then Some(0x0c) else if c == 0x72 then Some(0x0d)
    else if c == QUOTE || c == BACKSLASH || c == 0x2f then Some(c)
    else None
  }

  // A string literal after its opening quote: its value and what follows the closing one.
  function ParseString(s: Text): (r: Option<(Text, Text)>)
    ensures r.Some? ==> |r.value.1| < |s|
  {
    if s == [] || s[0] < 0x20 then None
    else if s[0] == QUOTE then Some(([], s[1..]))
    else if s[0] != BACKSLASH then Prefixed(s[0], ParseString(s[1..]))
    else if |s| >= 6 && s[1] == 0x75 && HexUnit(s[2..]).Some? then
      Prefixed(HexUnit(s[2..]).value, ParseString(s[6..]))
    else if |s| >= 2 && Unescape(s[1]).Some? then Prefixed(Unescape(s[1]).value, ParseString(s[2..]))
    else None
  }

  function Prefixed(c: Unit, r: Option<(Text, Text)>): Option<(Text, Text)> {
    if r.None? then None else Some(([c] + r.value.0, r.value.1))
  }

  predicate IsNumberUnit(c: Unit) {
    IsDigit(c) || c == 0x2b || c == 0x2d || c == 0x2e || c == 0x65 || c == 0x45
  }

  function NumberRun(s: Text): (n: nat)
    ensures n <= |s|
    ensures forall i | 0 <= i < n :: IsNumberUnit(s[i])
    ensures n < |s| ==> !IsNumberUnit(s[n])
  {
    if s != [] && IsNumberUnit(s[0]) then 1 + NumberRun(s[1..]) else 0
  }

  function DigitRun(s: Text): (n: nat)
    ensures n <= |s|
  {
    if s != [] && IsDigit(s[0]) then 1 + DigitRun(s[1..]) else 0
  }

  // RFC 8259, section 6: [ minus ] int [ frac ] [ exp ]
  predicate IsNumber(s: Text) {
    var t := if s != [] && s[0] == 0x2d then s[1..] else s;
    var n := DigitRun(t);
    && n > 0 && (t[0] == 0x30 ==> n == 1)
    && (forall i | 0 <= i < |s| :: IsNumberUnit(s[i]))
    && IsFraction(t[n..])
  }

  predicate IsFraction(s: Text) {
    if s != [] && s[0] == 0x2e then
      var n := DigitRun(s[1..]);
      n > 0 && IsExponent(s[1 + n..])
    else IsExponent(s)
  }

  predicate IsExponent(s: Text) {
    if s == [] then true
    else
      var t := if |s| >= 2 && (s[1] == 0x2b || s[1] == 0x2d) then s[2..] else s[1..];
      (s[0] == 0x65 || s[0] == 0x45) && t != [] && DigitRun(t) == |t|
  }

  predicate HasKey(ms: Members, key: Text) {
    ms.Member? && (ms.key == key || HasKey(ms.tail, key))
  }

  function Lookup(ms: Members, key: Text): Value
    requires HasKey(ms, key)
  {
    if ms.key == key then ms.value else Lookup(ms.tail, key)
  }

  function Remove(ms: Members, key: Text): Members {
    match ms
    case NoMembers => NoMembers
    case Member(k, v, tail) => if k == key then Remove(tail, key) else Member(k, v, Remove(tail, key))
  }

  function ToMap(ms: Members): map<Text, Value> {
    match ms
    case NoMembers => map[]
    case Member(key, value, tail) => ToMap(tail)[key := value]
  }

  // A repeated key keeps its first place and takes its last value.
  function Define(key: Text, value: Value, rest: Members): Members {
    if HasKey(rest, key) then Member(key, Lookup(rest, key), Remove(rest, key)) else Member(key, value, rest)
  }

  function ParseWord(s: Text, word: Text, v: Value): Option<(Value, Text)> {
    if word <= s then Some((v, s[|word|..])) else None
  }

  function ParseValue(s: Text): (r: Option<(Value, Text)>)
    ensures r.Some? ==> |r.value.1| < |s|
    decreases |s|, 1
  {
    var t := SkipSpace(s);
    if t == [] then None
    else if t[0] == QUOTE then
      var str := ParseString(t[1..]);
      if str.None? then None else Some((Str(str.value.0), str.value.1))
    else if t[0] == OPEN_ARR then
      var u := SkipSpace(t[1..]);
      if u != [] && u[0] == CLOSE_ARR then Some((Arr(NoItems), u[1..]))
      else
        var items := ParseItems(u);
        if items.None? then None else Some((Arr(items.value.0), items.value.1))
    else if t[0] == OPEN_OBJ then
      var u := SkipSpace(t[1..]);
      if u != [] && u[0] == CLOSE_OBJ then Some((Obj(NoMembers), u[1..]))
      else
        var members := ParseMembers(u);
        if members.None? then None else Some((Obj(members.value.0), members.value.1))
    else if t[0] == 0x6e then ParseWord(t, A("null"), Null)
    else if t[0] == 0x74 then ParseWord(t, A("true"), True)
    else if t[0] == 0x66 then ParseWord(t, A("false"), False)
    else
      var n := NumberRun(t);
      if IsNumber(t[..n]) then Some((Num(t[..n]), t[n..])) else None
  }

  // The items of an array after its bracket, up to and with the closing one.
  function ParseItems(s: Text): (r: Option<(Items, Text)>)
    ensures r.Some? ==> |r.value.1| < |s|
    decreases |s|, 2
  {
    var head := ParseValue(s);
    if head.None? then None
    else
      var t := SkipSpace(head.value.1);
      if t != [] && t[0] == CLOSE_ARR then Some((Item(head.value.0, NoItems), t[1..]))
      else if t != [] && t[0] == COMMA then
        var tail := ParseItems(t[1..]);
        if tail.None? then None else Some((Item(head.value.0, tail.value.0), tail.value.1))
      else None
  }

  function ParseMembers(s: Text): (r: Option<(Members, Text)>)
    ensures r.Some? ==> |r.value.1| < |s|
    decreases |s|, 2
  {
    var t := SkipSpace(s);
    var key := if t != [] && t[0] == QUOTE then ParseString(t[1..]) else None;
    var u := if key.Some? then SkipSpace(key.value.1) else [];
    var value := if u != [] && u[0] == COLON then ParseValue(u[1..]) else None;
    if value.None? then None else ParseMoreMembers(key.value.0, value.value.0, value.value.1)
  }

  // What follows a member: a comma and more of them, or the closing brace.
  function ParseMoreMembers(key: Text, value: Value, s: Text): (r: Option<(Members, Text)>)
    ensures r.Some? ==> |r.value.1| < |s|
    decreases |s|, 3
  {
    var w := SkipSpace(s);
    if w != [] && w[0] == CLOSE_OBJ then Some((Member(key, value, NoMembers), w[1..]))
    else if w != [] && w[0] == COMMA then
      var tail := ParseMembers(w[1..]);
      if tail.None? then None else Some((Define(key, value, tail.value.0), tail.value.1))
    else None
  }

  // JSON.parse
  function Parse(s: Text): Option<Value> {
    var r := ParseValue(s);
    if r.Some? && SkipSpace(r.value.1) == [] then Some(r.value.0) else None
  }
}
