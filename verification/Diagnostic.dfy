/**
 The one-line diagnostic grammar: the printer of src/runtime/diagnostic-format.js and the canonical
 half of the parser of src/runtime/diagnostic.js.
 */
module Diagnostic {
  import opened Options
  import opened Text
  import opened Json

  const MAX_TEXT := 512
  const SPACE: Unit := 0x20

  function Unknown(): Text { A("unknown") }
  function Prefix(): Text { A("lantean/diagnostic") }
  function Marker(): Text { A(" {\"schemaVersion\":") }

  // ---- normalizeDiagnosticMessage -------------------------------------------------------------------

  // [\u0000-\u001f\u007f-\uffff]
  predicate IsUnsafe(c: Unit) { c <= 0x1f || c >= 0x7f }

  // \s of a JavaScript regular expression, also what trim() takes off
  predicate IsWhite(c: Unit) {
    0x09 <= c <= 0x0d || c == 0x20 || c == 0xa0 || c == 0x1680 || 0x2000 <= c <= 0x200a
    || c == 0x2028 || c == 0x2029 || c == 0x202f || c == 0x205f || c == 0x3000 || c == 0xfeff
  }

  function EscapeUnsafe(t: Text): Text {
    if t == [] then [] else (if IsUnsafe(t[0]) then UnicodeEscape(t[0]) else [t[0]]) + EscapeUnsafe(t[1..])
  }

  // .replace(/\s+/g, ' ')
  function Collapse(t: Text): Text {
    if t == [] then []
    else if IsWhite(t[0]) then
      if |t| > 1 && IsWhite(t[1]) then Collapse(t[1..]) else [SPACE] + Collapse(t[1..])
    else [t[0]] + Collapse(t[1..])
  }

  function TrimStart(t: Text): Text {
    if t != [] && IsWhite(t[0]) then TrimStart(t[1..]) else t
  }

  function TrimEnd(t: Text): Text {
    if t != [] && IsWhite(t[|t| - 1]) then TrimEnd(t[..|t| - 1]) else t
  }

  function Trim(t: Text): Text { TrimEnd(TrimStart(t)) }

  function Truncate(t: Text): Text {
    if |t| <= MAX_TEXT then t else t[..MAX_TEXT]
  }

  function Normalize(value: Option<Text>): Text {
    var text := Trim(Collapse(EscapeUnsafe(if value.Some? then value.value else Unknown())));
    TrimEnd(Truncate(if text == [] then Unknown() else text))
  }

  // ---- checked fields -------------------------------------------------------------------------------

  predicate IsLower(c: Unit) { 0x61 <= c <= 0x7a }

  // /^[a-z0-9@][a-z0-9@/._-]{0,127}$/
  predicate IsSource(t: Text) {
    && 1 <= |t| <= 128
    && (forall i | 0 <= i < |t| :: IsLower(t[i]) || IsDigit(t[i]) || t[i] == 0x40 || (i > 0 && t[i] in A("/._-")))
  }

  // /^[a-z][a-z0-9-]*(?:\.[a-z0-9-]+)+$/: dotted segments, none empty, at least two
  predicate IsDotName(t: Text) {
    && t != [] && IsLower(t[0]) && t[|t| - 1] != 0x2e
    && (exists i | 0 <= i < |t| :: t[i] == 0x2e)
    && (forall i | 0 <= i < |t| :: IsLower(t[i]) || IsDigit(t[i]) || t[i] == 0x2d || t[i] == 0x2e)
    && (forall i | 0 < i < |t| :: t[i - 1] != 0x2e || t[i] != 0x2e)
  }

  predicate IsSeverity(t: Text) {
    t == A("debug") || t == A("info") || t == A("warn") || t == A("error") || t == A("fatal")
  }

  predicate IsDataClass(t: Text) {
    t == A("operational") || t == A("pseudonymous") || t == A("application") || t == A("secret")
  }

  // ---- createDiagnostic, formatDiagnostic -------------------------------------------------------------

  datatype Input = Input(
    source: Text, component: Text, event: Text, severity: Text, message: Option<Text>,
    occurredAt: Option<Text>, dataClass: Option<Text>, attributes: Option<Value>)

  datatype Record = Record(
    occurredAt: Option<Text>, source: Text, component: Text, event: Text, severity: Text,
    dataClass: Text, message: Text, attributes: Value)

  predicate Accepted(x: Input) {
    && (x.occurredAt.Some? ==> x.occurredAt.value != [])
    && IsSeverity(x.severity) && IsSource(x.source) && IsDotName(x.component) && IsDotName(x.event)
    && (x.dataClass.Some? ==> IsDataClass(x.dataClass.value))
  }

  /** None where createDiagnostic throws. */
  function CreateDiagnostic(x: Input): Option<Record> {
    if !Accepted(x) then None
    else Some(Record(x.occurredAt, x.source, x.component, x.event, x.severity,
                     if x.dataClass.Some? then x.dataClass.value else A("operational"),
                     Normalize(x.message), if x.attributes.Some? then x.attributes.value else Null))
  }

  // The record as the object the source builds, in its key order.
  function RecordValue(r: Record): Value {
    Obj(Member(A("schemaVersion"), Num(A("1")),
        Member(A("occurredAt"), if r.occurredAt.Some? then Str(r.occurredAt.value) else Null,
        Member(A("source"), Str(r.source),
        Member(A("component"), Str(r.component),
        Member(A("event"), Str(r.event),
        Member(A("severity"), Str(r.severity),
        Member(A("level"), Str(r.severity),
        Member(A("dataClass"), Str(r.dataClass),
        Member(A("message"), Str(r.message),
        Member(A("attributes"), r.attributes, NoMembers)))))))))))
  }

  function Header(r: Record): Text {
    Prefix() + (A(" source=") + (r.source + (A(" component=") + (r.component
    + (A(" event=") + (r.event + (A(" severity=") + r.severity)))))))
  }

  function FormatRecord(r: Record): Text {
    A("[") + Header(r) + A("] ") + r.message + A(" ") + AsciiJson(RecordValue(r))
  }

  function FormatDiagnostic(x: Input): Option<Text> {
    var r := CreateDiagnostic(x);
    if r.None? then None else Some(FormatRecord(r.value))
  }

  // ---- parseDiagnostic, its canonical half --------------------------------------------------------------

  // indexOf of one unit; |t| when absent
  function IndexOf(t: Text, c: Unit): (i: nat)
    ensures i <= |t|
  {
    if t == [] || t[0] == c then 0 else 1 + IndexOf(t[1..], c)
  }

  // lastIndexOf, among the starts up to `from`; -1 when absent
  function LastIndexOf(t: Text, m: Text, from: nat): (i: int)
    requires from <= |t|
    ensures -1 <= i <= from
  {
    if m <= t[from..] then from else if from == 0 then -1 else LastIndexOf(t, m, from - 1)
  }

  // The rest of t after one space and the field's name, split at the next space; None if it is not there.
  function HeaderField(t: Text, name: Text): Option<(Text, Text)> {
    if !(name <= t) then None
    else
      var rest := t[|name|..];
      var n := IndexOf(rest, SPACE);
      if n == 0 then None else Some((rest[..n], rest[n..]))
  }

  // /^lantean\/diagnostic source=([^ ]+) component=([^ ]+) event=([^ ]+) severity=([^ ]+)$/
  function MatchHeader(t: Text): Option<(Text, Text, Text, Text)> {
    var source := if Prefix() <= t then HeaderField(t[|Prefix()|..], A(" source=")) else None;
    if source.None? then None
    else
      var component := HeaderField(source.value.1, A(" component="));
      if component.None? then None
      else
        var event := HeaderField(component.value.1, A(" event="));
        if event.None? then None
        else
          var severity := HeaderField(event.value.1, A(" severity="));
          if severity.None? || severity.value.1 != [] then None
          else Some((source.value.0, component.value.0, event.value.0, severity.value.0))
  }

  function Field(v: Value, key: Text): Option<Value> {
    if v.Obj? && key in ToMap(v.members) then Some(ToMap(v.members)[key]) else None
  }

  predicate IsRecordFor(v: Value, header: (Text, Text, Text, Text), message: Text) {
    && Field(v, A("schemaVersion")) == Some(Num(A("1")))
    && Field(v, A("source")) == Some(Str(header.0))
    && Field(v, A("component")) == Some(Str(header.1))
    && Field(v, A("event")) == Some(Str(header.2))
    && Field(v, A("severity")) == Some(Str(header.3))
    && Field(v, A("level")) == Some(Str(header.3))
    && Field(v, A("message")) == Some(Str(message))
    && Normalize(Some(message)) == message
    && Field(v, A("attributes")).Some?
    && IsInstant(Field(v, A("occurredAt")))
    && IsSource(header.0) && IsDotName(header.1) && IsDotName(header.2) && IsSeverity(header.3)
    && IsClassField(Field(v, A("dataClass")))
  }

  predicate IsInstant(v: Option<Value>) {
    v.Some? && (v.value.Null? || (v.value.Str? && v.value.text != []))
  }

  predicate IsClassField(v: Option<Value>) {
    v.Some? && v.value.Str? && IsDataClass(v.value.text)
  }

  function Opening(): Text { A("[") + Prefix() + A(" ") }

  // The check of a parsed record against the header and the message of its line.
  type Check = (Value, (Text, Text, Text, Text), Text) -> bool

  // canonicalRecord
  function CanonicalRecord(line: Text, accepts: Check): Option<Value> {
    var close := IndexOf(line, CLOSE_ARR);
    if close == |line| || !(Opening() <= line) then None
    else
      var header := MatchHeader(line[1..close]);
      if header.None? then None else RecordAfter(line, close, header.value, accepts)
  }

  function RecordAfter(line: Text, close: nat, header: (Text, Text, Text, Text), accepts: Check): Option<Value>
    requires close < |line|
  {
    RecordFrom(line, close, LastIndexOf(line, Marker(), |line|), header, accepts)
  }

  function RecordFrom(line: Text, close: nat, marker: int, header: (Text, Text, Text, Text),
                      accepts: Check): Option<Value>
    requires close < |line| && -1 <= marker <= |line| && (marker < |line| || marker <= close)
  {
    if marker <= close then None else Judged(Parse(line[marker + 1..]), header, Trim(line[close + 1..marker]), accepts)
  }

  function Judged(record: Option<Value>, header: (Text, Text, Text, Text), message: Text,
                  accepts: Check): Option<Value> {
    if record.Some? && accepts(record.value, header, message) then record else None
  }

  predicate HasUnsafeText(t: Text) {
    exists i | 0 <= i < |t| :: IsUnsafe(t[i])
  }

  /** The record of a line parseDiagnostic reads as canonical; None where it answers null or falls back to legacy. */
  function ParseCanonical(line: Text): Option<Value> {
    if Opening() <= line && HasUnsafeText(line) then None else CanonicalRecord(line, IsRecordFor)
  }
}
