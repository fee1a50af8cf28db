/**
 What a diagnostic line says: the message it shows for any text, the input it was printed from, and exactly which
 lines are read (src/runtime/diagnostic-format.js, src/runtime/diagnostic.js).
 */
module DiagnosticLines {
  import opened Options
  import opened Text
  import opened Json
  import opened JsonProofs
  import opened Diagnostic
  import opened DiagnosticProofs

  // ---- messages ---------------------------------------------------------------------------------------

  /** The words of a text: its runs of anything but white space. */
  function Words(t: Text): seq<Text> {
    if t == [] then []
    else if IsWhite(t[0]) then Words(t[1..])
    else if |t| == 1 || IsWhite(t[1]) then [[t[0]]] + Words(t[1..])
    else
      var rest := Words(t[1..]);
      if rest == [] then [[t[0]]] else [[t[0]] + rest[0]] + rest[1..]
  }

  /** Words with one space between each. */
  function Spaced(words: seq<Text>): Text {
    if |words| == 0 then [] else if |words| == 1 then words[0] else words[0] + [SPACE] + Spaced(words[1..])
  }

  lemma {:induction false} WordsStart(t: Text)
    ensures t != [] && !IsWhite(t[0]) ==> Words(t) != [] && Words(t)[0] != [] && Words(t)[0][0] == t[0]
  {
    if |t| > 1 && !IsWhite(t[0]) && !IsWhite(t[1]) { WordsStart(t[1..]); }
  }

  lemma {:induction false} CollapseStart(t: Text)
    ensures Collapse(t) == [] <==> t == []
    ensures t != [] ==> Collapse(t)[0] == if IsWhite(t[0]) then SPACE else t[0]
  {
    if |t| > 1 && IsWhite(t[0]) && IsWhite(t[1]) { CollapseStart(t[1..]); }
  }

  lemma {:induction false} CollapseKeepsWords(t: Text)
    ensures Words(Collapse(t)) == Words(t)
  {
    if t != [] {
      CollapseKeepsWords(t[1..]);
      CollapseStart(t[1..]);
      var rest := Collapse(t[1..]);
      assert ([SPACE] + rest)[1..] == rest && ([t[0]] + rest)[1..] == rest;
    }
  }

  lemma {:induction false} TrimStartKeepsWords(t: Text)
    ensures Words(TrimStart(t)) == Words(t)
  {
    if t != [] && IsWhite(t[0]) { TrimStartKeepsWords(t[1..]); }
  }

  lemma {:induction false} LastWhite(t: Text, c: Unit)
    requires IsWhite(c)
    ensures Words(t + [c]) == Words(t)
  {
    if t == [] {
      assert ([c])[1..] == [];
    } else {
      LastWhite(t[1..], c);
      assert (t + [c])[1..] == t[1..] + [c];
    }
  }

  lemma {:induction false} TrimEndKeepsWords(t: Text)
    ensures Words(TrimEnd(t)) == Words(t)
  {
    if t != [] && IsWhite(t[|t| - 1]) {
      TrimEndKeepsWords(t[..|t| - 1]);
      LastWhite(t[..|t| - 1], t[|t| - 1]);
      assert t[..|t| - 1] + [t[|t| - 1]] == t;
    }
  }

  // Printable text with single spaces, none at either end.
  predicate Neat(t: Text) {
    Printable(t) && SingleSpaced(t) && (t != [] ==> t[0] != SPACE && t[|t| - 1] != SPACE)
  }

  lemma NeatRest(t: Text, k: nat)
    requires Neat(t) && k < |t| && t[k] != SPACE
    ensures Neat(t[k..])
  {
    var u := t[k..];
    forall i | 0 < i < |u| ensures u[i - 1] != SPACE || u[i] != SPACE {
      assert u[i - 1] == t[i + k - 1] && u[i] == t[i + k];
    }
  }

  /** It is its words spaced. */
  lemma {:induction false} SpacedWords(t: Text)
    requires Neat(t)
    ensures Spaced(Words(t)) == t
  {
    if |t| == 1 {
      assert t[1..] == [] && t == [t[0]];
    } else if |t| > 1 && IsWhite(t[1]) {
      NeatRest(t, 2);
      SpacedWords(t[2..]);
      SpacedAfter(t);
    } else if |t| > 1 {
      NeatRest(t, 1);
      SpacedWords(t[1..]);
      SpacedOn(t);
    }
  }

  // A word goes on.
  lemma SpacedOn(t: Text)
    requires |t| > 1 && !IsWhite(t[0]) && !IsWhite(t[1]) && Spaced(Words(t[1..])) == t[1..]
    ensures Spaced(Words(t)) == t
  {
    WordsStart(t[1..]);
    SpacedFirst(t[0], Words(t[1..]));
    assert t == [t[0]] + t[1..];
  }

  // A word of one unit.
  lemma SpacedAfter(t: Text)
    requires Neat(t) && |t| > 2 && t[1] == SPACE && t[2] != SPACE && Spaced(Words(t[2..])) == t[2..]
    ensures Spaced(Words(t)) == t
  {
    var u := t[2..];
    assert t[1..][1..] == u && !IsWhite(u[0]);
    WordsStart(u);
    assert Words(t) == [[t[0]]] + Words(u);
    assert Words(t)[1..] == Words(u);
    assert t == [t[0]] + [SPACE] + u;
  }

  lemma SpacedFirst(c: Unit, words: seq<Text>)
    requires words != []
    ensures Spaced([[c] + words[0]] + words[1..]) == [c] + Spaced(words)
  {
    var more := [[c] + words[0]] + words[1..];
    assert more[1..] == words[1..];
    if |words| > 1 {
      var rest := Spaced(words[1..]);
      assert ([c] + words[0]) + [SPACE] + rest == [c] + (words[0] + [SPACE] + rest);
    }
  }

  /** What a text is shown as, before it is cut to its length: its words, each unsafe unit escaped. */
  function Shown(value: Option<Text>): Text {
    var words := Words(EscapeUnsafe(if value.Some? then value.value else A("unknown")));
    if words == [] then A("unknown") else Spaced(words)
  }

  /** The message of a diagnostic: its words, one space apart, in at most 512 units, never ending in a space. */
  lemma NormalizeExactly(value: Option<Text>)
    ensures
      var text := Shown(value);
      Normalize(value)
        == if |text| <= 512 then text else if text[511] == SPACE then text[..511] else text[..512]
  {
    CutsShown(value);
    CutEnd(Shown(value));
  }

  lemma CutsShown(value: Option<Text>)
    ensures Normalize(value) == TrimEnd(Truncate(Shown(value)))
    ensures Shown(value) != [] && Neat(Shown(value))
  {
    var raw := if value.Some? then value.value else A("unknown");
    var r := Trim(Collapse(EscapeUnsafe(raw)));
    TrimmedShape(raw);
    UnknownIsNormal();
    ShownIsTrimmed(EscapeUnsafe(raw), r);
    assert Shown(value) == if r == [] then Unknown() else r;
  }

  lemma ShownIsTrimmed(e: Text, r: Text)
    requires r == Trim(Collapse(e)) && Neat(r)
    ensures Spaced(Words(e)) == r && (Words(e) == [] <==> r == [])
  {
    TrimmedWords(e);
    SpacedWords(r);
    if r != [] { WordsStart(r); }
  }

  lemma TrimmedWords(e: Text)
    ensures Words(Trim(Collapse(e))) == Words(e)
  {
    CollapseKeepsWords(e);
    TrimStartKeepsWords(Collapse(e));
    TrimEndKeepsWords(TrimStart(Collapse(e)));
  }

  lemma CutEnd(text: Text)
    requires text != [] && Neat(text)
    ensures TrimEnd(Truncate(text))
      == if |text| <= 512 then text else if text[511] == SPACE then text[..511] else text[..512]
  {
    if |text| > 512 {
      assert text[..512][..511] == text[..511];
      if text[511] == SPACE {
        assert text[510] != SPACE;
        assert TrimEnd(text[..511]) == text[..511];
      }
    }
  }

  // A lower-case hex digit.
  predicate IsHexDigit(c: Unit) { IsDigit(c) || 0x61 <= c <= 0x66 }

  /** Each unit outside printable ASCII becomes its four lower-case hex digits, and every other stays. */
  lemma EscapesExactly(a: Text, c: Unit)
    ensures EscapeUnsafe(a + [c]) == EscapeUnsafe(a) + if 0x20 <= c <= 0x7e then [c] else UnicodeEscape(c)
    ensures UnicodeEscape(c)[..2] == A("\\u") && HexUnit(UnicodeEscape(c)[2..]) == Some(c)
    ensures |UnicodeEscape(c)| == 6 && forall i | 2 <= i < 6 :: IsHexDigit(UnicodeEscape(c)[i])
  {
    EscapeReads(c);
    EscapeMore(a, c, if IsUnsafe(c) then UnicodeEscape(c) else [c]);
  }

  lemma {:induction false} EscapeMore(a: Text, c: Unit, e: Text)
    requires e == if IsUnsafe(c) then UnicodeEscape(c) else [c]
    ensures EscapeUnsafe(a + [c]) == EscapeUnsafe(a) + e
  {
    if a == [] {
      assert ([c])[1..] == [];
    } else {
      EscapeMore(a[1..], c, e);
      assert (a + [c])[1..] == a[1..] + [c];
      Grouped(if IsUnsafe(a[0]) then UnicodeEscape(a[0]) else [a[0]], EscapeUnsafe(a[1..]), e);
    }
  }

  lemma Grouped(a: Text, b: Text, c: Text)
    ensures a + (b + c) == (a + b) + c
  {
  }

  lemma EscapeReads(c: Unit)
    ensures UnicodeEscape(c)[..2] == A("\\u") && HexUnit(UnicodeEscape(c)[2..]) == Some(c)
    ensures |UnicodeEscape(c)| == 6 && forall i | 2 <= i < 6 :: IsHexDigit(UnicodeEscape(c)[i])
  {
    HexRoundTrip(c, UnicodeEscape(c)[2..]);
    assert A("\\u") == [BACKSLASH, 0x75];
  }

  // ---- what is printed -----------------------------------------------------------------------------------

  /** At least two segments, none empty, of lower-case letters, digits and dashes; the first opens with a letter. */
  ghost predicate Dotted(segments: seq<Text>) {
    && |segments| >= 2
    && (forall i | 0 <= i < |segments| :: segments[i] != []
          && forall c | c in segments[i] :: 0x61 <= c <= 0x7a || 0x30 <= c <= 0x39 || c == 0x2d)
    && 0x61 <= segments[0][0] <= 0x7a
  }

  function Joined(segments: seq<Text>): Text {
    if |segments| == 0 then []
    else if |segments| == 1 then segments[0]
    else segments[0] + A(".") + Joined(segments[1..])
  }

  // What every segment after the first is made of.
  predicate IsTail(t: Text) {
    && t != [] && t[0] != 0x2e && t[|t| - 1] != 0x2e
    && (forall i | 0 <= i < |t| :: IsLower(t[i]) || IsDigit(t[i]) || t[i] == 0x2d || t[i] == 0x2e)
    && (forall i | 0 < i < |t| :: t[i - 1] != 0x2e || t[i] != 0x2e)
  }

  ghost predicate Segments(segments: seq<Text>) {
    forall i | 0 <= i < |segments| :: segments[i] != []
      && forall c | c in segments[i] :: IsLower(c) || IsDigit(c) || c == 0x2d
  }

  lemma {:induction false} JoinedTail(segments: seq<Text>)
    requires segments != [] && Segments(segments)
    ensures IsTail(Joined(segments)) && Joined(segments)[0] == segments[0][0]
    ensures |segments| > 1 ==> exists i | 0 <= i < |Joined(segments)| :: Joined(segments)[i] == 0x2e
  {
    assert A(".") == [0x2e];
    var head := segments[0];
    assert forall i | 0 <= i < |head| :: head[i] in head;
    if |segments| > 1 {
      JoinedTail(segments[1..]);
      var rest := Joined(segments[1..]);
      var t := Joined(segments);
      assert t == head + [0x2e] + rest && t[|head|] == 0x2e;
      TailAfter(head, rest);
    }
  }

  lemma TailAfter(head: Text, rest: Text)
    requires head != [] && (forall i | 0 <= i < |head| :: IsLower(head[i]) || IsDigit(head[i]) || head[i] == 0x2d)
    requires IsTail(rest)
    ensures IsTail(head + [0x2e] + rest)
  {
    var t := head + [0x2e] + rest;
    forall i | 0 < i < |t| ensures t[i - 1] != 0x2e || t[i] != 0x2e {
      if i > |head| + 1 { assert t[i - 1] == rest[i - |head| - 2] && t[i] == rest[i - |head| - 1]; }
    }
  }

  lemma {:induction false} TailSplits(t: Text) returns (segments: seq<Text>)
    requires IsTail(t)
    ensures segments != [] && Segments(segments) && Joined(segments) == t
    ensures (exists i | 0 <= i < |t| :: t[i] == 0x2e) ==> |segments| > 1
    decreases |t|
  {
    assert A(".") == [0x2e];
    var n := IndexOf(t, 0x2e);
    IndexOfIs(t, 0x2e);
    if n == |t| {
      segments := [t];
    } else {
      TailRest(t, n);
      var more := TailSplits(t[n + 1..]);
      segments := [t[..n]] + more;
      OneSegmentMore(t[..n], more, t);
    }
  }

  lemma TailRest(t: Text, n: nat)
    requires IsTail(t) && 0 < n < |t| && t[n] == 0x2e
    ensures n + 1 < |t| && IsTail(t[n + 1..])
  {
    var rest := t[n + 1..];
    assert rest != [] && rest[0] == t[n + 1];
    forall i | 0 < i < |rest| ensures rest[i - 1] != 0x2e || rest[i] != 0x2e {
      assert rest[i - 1] == t[n + i] && rest[i] == t[n + i + 1];
    }
  }

  lemma OneSegmentMore(head: Text, more: seq<Text>, t: Text)
    requires head != [] && more != [] && Segments(more) && t == head + [0x2e] + Joined(more)
    requires forall c | c in head :: IsLower(c) || IsDigit(c) || c == 0x2d
    ensures Segments([head] + more) && Joined([head] + more) == t
  {
    assert A(".") == [0x2e] && ([head] + more)[1..] == more;
  }

  lemma {:induction false} IndexOfIs(t: Text, c: Unit)
    ensures forall i | 0 <= i < IndexOf(t, c) :: t[i] != c
    ensures IndexOf(t, c) < |t| ==> t[IndexOf(t, c)] == c
  {
    if t != [] && t[0] != c {
      IndexOfIs(t[1..], c);
      assert forall i | 0 < i < |t| :: t[i] == t[1..][i - 1];
    }
  }

  /** A name is accepted exactly when it is such segments between dots. */
  lemma DotNameExactly(t: Text)
    ensures IsDotName(t) <==> exists segments :: Dotted(segments) && Joined(segments) == t
  {
    if IsDotName(t) {
      var segments := TailSplits(t);
      assert Dotted(segments) && Joined(segments) == t;
    }
    if segments :| Dotted(segments) && Joined(segments) == t {
      assert Segments(segments);
      JoinedTail(segments);
    }
  }

  /** An input is printed exactly when its fields are these. */
  lemma PrintsExactly(x: Input)
    ensures FormatDiagnostic(x).Some? <==>
      && x.occurredAt != Some([])
      && x.severity in [A("debug"), A("info"), A("warn"), A("error"), A("fatal")]
      && (x.dataClass.None?
          || x.dataClass.value in [A("operational"), A("pseudonymous"), A("application"), A("secret")])
      && 1 <= |x.source| <= 128 && x.source[0] !in A("/._-")
      && (forall c | c in x.source :: 0x61 <= c <= 0x7a || 0x30 <= c <= 0x39 || c in A("@/._-"))
      && (exists segments :: Dotted(segments) && Joined(segments) == x.component)
      && (exists segments :: Dotted(segments) && Joined(segments) == x.event)
  {
    DotNameExactly(x.component);
    DotNameExactly(x.event);
    SourceExactly(x.source);
    WordsExactly(x.severity);
    if x.dataClass.Some? { WordsExactly(x.dataClass.value); }
  }

  lemma WordsExactly(t: Text)
    ensures IsSeverity(t) <==> t in [A("debug"), A("info"), A("warn"), A("error"), A("fatal")]
    ensures IsDataClass(t) <==> t in [A("operational"), A("pseudonymous"), A("application"), A("secret")]
  {
  }

  lemma SourceExactly(t: Text)
    ensures IsSource(t) <==>
      && 1 <= |t| <= 128 && t[0] !in A("/._-")
      && forall c | c in t :: 0x61 <= c <= 0x7a || 0x30 <= c <= 0x39 || c in A("@/._-")
  {
    PunctuationIs();
    if IsSource(t) {
      forall c | c in t ensures 0x61 <= c <= 0x7a || 0x30 <= c <= 0x39 || c in A("@/._-") {
        var i :| 0 <= i < |t| && t[i] == c;
      }
    } else if 1 <= |t| <= 128 && forall c | c in t :: 0x61 <= c <= 0x7a || 0x30 <= c <= 0x39 || c in A("@/._-") {
      var i :| 0 <= i < |t| && !(IsLower(t[i]) || IsDigit(t[i]) || t[i] == 0x40 || (i > 0 && t[i] in A("/._-")));
      assert t[i] in t;
    }
  }

  lemma PunctuationIs()
    ensures forall c: Unit :: c in A("/._-") <==> c == 0x2f || c == 0x2e || c == 0x5f || c == 0x2d
    ensures forall c: Unit :: c in A("@/._-") <==> c == 0x40 || c in A("/._-")
  {
    assert A("/._-") == [0x2f, 0x2e, 0x5f, 0x2d] && A("@/._-") == [0x40, 0x2f, 0x2e, 0x5f, 0x2d];
  }

  /** The line printed for an input, field by field, and the record it is read back as. */
  lemma FormatShows(x: Input) returns (json: Text, v: Value)
    requires FormatDiagnostic(x).Some? && (x.attributes.Some? ==> WellFormed(x.attributes.value))
    ensures FormatDiagnostic(x).value
      == A("[") + (A("lantean/diagnostic") + (A(" source=") + (x.source + (A(" component=") + (x.component
         + (A(" event=") + (x.event + (A(" severity=") + x.severity))))))))
         + A("] ") + Normalize(x.message) + A(" ") + json
    ensures Printable(FormatDiagnostic(x).value)
    ensures Parse(json) == Some(v) && ParseCanonical(FormatDiagnostic(x).value) == Some(v)
    ensures Field(v, A("schemaVersion")) == Some(Num(A("1")))
    ensures Field(v, A("occurredAt")) == Some(if x.occurredAt.Some? then Str(x.occurredAt.value) else Null)
    ensures Field(v, A("source")) == Some(Str(x.source))
    ensures Field(v, A("component")) == Some(Str(x.component))
    ensures Field(v, A("event")) == Some(Str(x.event))
    ensures Field(v, A("severity")) == Some(Str(x.severity))
    ensures Field(v, A("level")) == Some(Str(x.severity))
    ensures Field(v, A("dataClass")) == Some(Str(if x.dataClass.Some? then x.dataClass.value else A("operational")))
    ensures Field(v, A("message")) == Some(Str(Normalize(x.message)))
    ensures Field(v, A("attributes")) == Some(if x.attributes.Some? then x.attributes.value else Null)
  {
    var r := CreateDiagnostic(x).value;
    CreatedIsSound(x);
    v := RecordValue(r);
    json := AsciiJson(v);
    var _ := RecordMembers(r);
    JsonIsClean(r);
    FormatParses(x);
    FormatPrintable(r);
  }

  lemma FormatPrintable(r: Record)
    requires Sound(r)
    ensures Printable(FormatRecord(r))
  {
    RecordLine(r);
    HeaderShape(r);
    JsonIsClean(r);
    CleanIsPrintable(AsciiJson(RecordValue(r)));
    LinePrintable(Header(r), r.message, AsciiJson(RecordValue(r)));
  }

  // ---- what is read --------------------------------------------------------------------------------------

  type Fields = (Text, Text, Text, Text)

  /** The header with these fields between its brackets. */
  function HeaderOf(f: Fields): Text {
    A("lantean/diagnostic") + (A(" source=") + (f.0 + (A(" component=") + (f.1
    + (A(" event=") + (f.2 + (A(" severity=") + f.3)))))))
  }

  predicate NoSpace(t: Text) { t != [] && SPACE !in t }

  predicate NoSpaces(f: Fields) { NoSpace(f.0) && NoSpace(f.1) && NoSpace(f.2) && NoSpace(f.3) }

  lemma FieldExactly(t: Text, name: Text, f: Text, rest: Text)
    ensures HeaderField(t, name) == Some((f, rest))
      <==> t == name + (f + rest) && NoSpace(f) && (rest == [] || rest[0] == SPACE)
  {
    if name <= t {
      var u := t[|name|..];
      IndexOfIs(u, SPACE);
      assert t == name + u;
      if t == name + (f + rest) && NoSpace(f) && (rest == [] || rest[0] == SPACE) {
        assert u == f + rest;
        IndexOfFirst(f, SPACE, rest);
        assert u[..|f|] == f && u[|f|..] == rest;
      }
      var n := IndexOf(u, SPACE);
      assert u == u[..n] + u[n..];
    }
  }

  // The four fields one after the other.
  lemma HeaderExactly(t: Text, f: Fields)
    ensures MatchHeader(t) == Some(f) <==> t == HeaderOf(f) && NoSpaces(f)
  {
    var severity := A(" severity=") + f.3;
    var event := A(" event=") + (f.2 + severity);
    var component := A(" component=") + (f.1 + event);
    var source := A(" source=") + (f.0 + component);
    if t == HeaderOf(f) && NoSpaces(f) {
      PrefixDropped(Prefix(), source);
      FieldExactly(source, A(" source="), f.0, component);
      FieldExactly(component, A(" component="), f.1, event);
      FieldExactly(event, A(" event="), f.2, severity);
      FieldExactly(severity, A(" severity="), f.3, []);
      assert f.3 + [] == f.3;
      FieldsChain(t, f.0, component, f.1, event, f.2, severity, f.3);
    }
    if MatchHeader(t) == Some(f) { HeaderRebuilt(t, f); }
  }

  lemma HeaderRebuilt(t: Text, f: Fields)
    requires MatchHeader(t) == Some(f)
    ensures t == HeaderOf(f) && NoSpaces(f)
  {
    var source := HeaderField(t[|Prefix()|..], A(" source=")).value;
    var component := HeaderField(source.1, A(" component=")).value;
    var event := HeaderField(component.1, A(" event=")).value;
    var severity := HeaderField(event.1, A(" severity=")).value;
    FieldExactly(t[|Prefix()|..], A(" source="), source.0, source.1);
    FieldExactly(source.1, A(" component="), component.0, component.1);
    FieldExactly(component.1, A(" event="), event.0, event.1);
    FieldExactly(event.1, A(" severity="), severity.0, severity.1);
    assert severity.0 + [] == severity.0;
    assert t == Prefix() + t[|Prefix()|..];
  }

  predicate Same(v: Value, w: Value, key: string) {
    Field(v, A(key)) == Field(w, A(key))
  }

  /** v has the ten fields of the record. */
  predicate Agrees(v: Value, r: Record) {
    var w := RecordValue(r);
    && Same(v, w, "schemaVersion") && Same(v, w, "occurredAt") && Same(v, w, "source") && Same(v, w, "component")
    && Same(v, w, "event") && Same(v, w, "severity") && Same(v, w, "level") && Same(v, w, "dataClass")
    && Same(v, w, "message") && Same(v, w, "attributes")
  }

  ghost predicate IsRecordOf(v: Value, r: Record, f: Fields, message: Text) {
    Sound(r) && f == (r.source, r.component, r.event, r.severity) && r.message == message && Agrees(v, r)
  }

  /** The parser's check: the ten fields are those of a record the constructor would build from this line. */
  lemma RecordForExactly(v: Value, f: Fields, message: Text)
    requires WellFormed(v)
    ensures IsRecordFor(v, f, message) <==> exists r :: IsRecordOf(v, r, f, message)
  {
    if IsRecordFor(v, f, message) {
      InputAccepted(v, f, message);
      FieldWellFormed(v.members, A("attributes"));
      CreatedIsSound(InputOf(v));
      var r := CreateDiagnostic(InputOf(v)).value;
      AgreesWith(v, r, f, message);
      assert IsRecordOf(v, r, f, message);
    }
    if r :| IsRecordOf(v, r, f, message) {
      RecordAccepted(r);
      Transfers(v, r, f, message);
    }
  }

  lemma AgreesWith(v: Value, r: Record, f: Fields, message: Text)
    requires IsRecordFor(v, f, message) && Sound(r) && r == CreateDiagnostic(InputOf(v)).value
    requires CreateDiagnostic(InputOf(v)).Some?
    ensures Agrees(v, r)
  {
    var _ := RecordMembers(r);
    InputAccepted(v, f, message);
  }

  lemma Transfers(v: Value, r: Record, f: Fields, message: Text)
    requires Agrees(v, r) && IsRecordFor(RecordValue(r), f, message)
    ensures IsRecordFor(v, f, message)
  {
  }

  /** A line, given its header's fields, what stands between the bracket and the JSON, and the JSON. */
  ghost predicate IsLineOf(line: Text, v: Value, f: Fields, between: Text, json: Text) {
    && Printable(line) && line == [OPEN_ARR] + HeaderOf(f) + [CLOSE_ARR] + between + [SPACE] + json
    && NoSpaces(f) && CLOSE_ARR !in HeaderOf(f)
    // the last place where a JSON text of a schema version starts
    && A(" {\"schemaVersion\":") <= [SPACE] + json
    && (forall i | 0 <= i <= |json| :: !(A(" {\"schemaVersion\":") <= json[i..]))
    && Parse(json) == Some(v) && exists r :: IsRecordOf(v, r, f, Trim(between))
  }

  lemma LastIndexIs(t: Text, m: Text, from: nat)
    requires from <= |t|
    ensures
      var n := LastIndexOf(t, m, from);
      && (n >= 0 ==> m <= t[n..])
      && (forall i | n < i <= from :: !(m <= t[i..]))
  {
    if !(m <= t[from..]) && from > 0 { LastIndexIs(t, m, from - 1); }
  }

  // The two places the parser looks for.
  lemma PlacesOf(f: Fields, between: Text, json: Text) returns (line: Text, close: nat, marker: nat)
    requires CLOSE_ARR !in HeaderOf(f) && Marker() <= [SPACE] + json
    requires forall i | 0 <= i <= |json| :: !(Marker() <= json[i..])
    ensures line == [OPEN_ARR] + HeaderOf(f) + [CLOSE_ARR] + between + [SPACE] + json
    ensures 1 <= close < marker < |line| && close == IndexOf(line, CLOSE_ARR) && line[1..close] == HeaderOf(f)
    ensures marker == LastIndexOf(line, Marker(), |line|) && line[marker + 1..] == json
    ensures line[close + 1..marker] == between && Opening() <= line
  {
    var header := HeaderOf(f);
    line := [OPEN_ARR] + header + [CLOSE_ARR] + between + [SPACE] + json;
    close, marker := |header| + 1, |header| + 2 + |between|;
    var tail := [CLOSE_ARR] + between + [SPACE] + json;
    assert line == ([OPEN_ARR] + header) + tail;
    IndexOfFirst([OPEN_ARR] + header, CLOSE_ARR, tail);
    var head := [OPEN_ARR] + header + [CLOSE_ARR] + between;
    assert line == head + [SPACE] + json && line[marker..] == [SPACE] + json;
    forall i | marker < i <= |line| ensures !(Marker() <= line[i..]) {
      assert line[i..] == json[i - marker - 1..];
    }
    LastIndexOfAt(line, Marker(), marker, |line|);
    HeaderOpens(f, tail);
  }

  lemma HeaderOpens(f: Fields, tail: Text)
    ensures Opening() <= ([OPEN_ARR] + HeaderOf(f)) + tail
  {
    var source := A(" source=") + (f.0 + (A(" component=") + (f.1 + (A(" event=") + (f.2 + (A(" severity=") + f.3))))));
    assert HeaderOf(f) == Prefix() + source && A("[") == [OPEN_ARR] && A(" ") == [SPACE];
    assert source[0] == SPACE;
    OpensOn(Prefix(), source, tail);
  }

  lemma OpensOn(p: Text, source: Text, tail: Text)
    requires source != [] && source[0] == SPACE
    ensures [OPEN_ARR] + p + [SPACE] <= ([OPEN_ARR] + (p + source)) + tail
  {
    assert ([OPEN_ARR] + (p + source)) + tail == ([OPEN_ARR] + p + [SPACE]) + (source[1..] + tail);
  }

  lemma LineIsRead(line: Text, v: Value, f: Fields, between: Text, json: Text)
    requires IsLineOf(line, v, f, between, json)
    ensures ParseCanonical(line) == Some(v)
  {
    var l, close, marker := PlacesOf(f, between, json);
    HeaderExactly(HeaderOf(f), f);
    ParsedWellFormed(json);
    RecordForExactly(v, f, Trim(between));
    ReadsAt(line, close, marker, HeaderOf(f), f, Trim(between), json, v, IsRecordFor);
    PrintableIsRead(line, v);
  }

  lemma ReadIsLine(line: Text, v: Value) returns (f: Fields, between: Text, json: Text)
    requires ParseCanonical(line) == Some(v)
    ensures IsLineOf(line, v, f, between, json)
  {
    f, between, json := SplitLine(line, v, IsRecordFor);
    ParsedWellFormed(json);
    RecordForExactly(v, f, Trim(between));
    AllPrintable(line);
  }

  lemma AllPrintable(line: Text)
    requires !HasUnsafeText(line)
    ensures Printable(line)
  {
    forall i | 0 <= i < |line| ensures 0x20 <= line[i] <= 0x7e { assert !IsUnsafe(line[i]); }
  }

  lemma SplitLine(line: Text, v: Value, accepts: Check) returns (f: Fields, between: Text, json: Text)
    requires CanonicalRecord(line, accepts) == Some(v)
    ensures line == [OPEN_ARR] + HeaderOf(f) + [CLOSE_ARR] + between + [SPACE] + json
    ensures NoSpaces(f) && CLOSE_ARR !in HeaderOf(f)
    ensures Marker() <= [SPACE] + json && forall i | 0 <= i <= |json| :: !(Marker() <= json[i..])
    ensures Parse(json) == Some(v) && accepts(v, f, Trim(between))
  {
    var close;
    close, f := HeaderFound(line, v, accepts);
    between, json := LineParts(line, close, f, v, accepts);
    LineOfParts(line, close);
    Regrouped([OPEN_ARR] + HeaderOf(f) + [CLOSE_ARR], between, json);
  }

  lemma HeaderFound(line: Text, v: Value, accepts: Check) returns (close: nat, f: Fields)
    requires CanonicalRecord(line, accepts) == Some(v)
    ensures 1 <= close < |line| && line[0] == OPEN_ARR && line[close] == CLOSE_ARR && line[1..close] == HeaderOf(f)
    ensures NoSpaces(f) && CLOSE_ARR !in HeaderOf(f) && RecordAfter(line, close, f, accepts) == Some(v)
  {
    close := IndexOf(line, CLOSE_ARR);
    FirstClose(line, close);
    f := MatchHeader(line[1..close]).value;
    HeaderExactly(line[1..close], f);
  }

  lemma FirstClose(line: Text, close: nat)
    requires Opening() <= line && close == IndexOf(line, CLOSE_ARR) < |line|
    ensures 1 <= close && line[0] == OPEN_ARR && line[close] == CLOSE_ARR && CLOSE_ARR !in line[1..close]
  {
    IndexOfIs(line, CLOSE_ARR);
    assert line[0] == Opening()[0] == OPEN_ARR;
  }

  lemma LineOfParts(line: Text, close: nat)
    requires 1 <= close < |line|
    ensures line == [line[0]] + line[1..close] + [line[close]] + line[close + 1..]
  {
  }

  lemma Regrouped(a: Text, b: Text, c: Text)
    ensures a + (b + [SPACE] + c) == a + b + [SPACE] + c
  {
  }

  lemma LineParts(line: Text, close: nat, f: Fields, v: Value, accepts: Check) returns (between: Text, json: Text)
    requires close < |line| && RecordAfter(line, close, f, accepts) == Some(v)
    ensures line[close + 1..] == between + [SPACE] + json && Marker() <= [SPACE] + json
    ensures forall i | 0 <= i <= |json| :: !(Marker() <= json[i..])
    ensures Parse(json) == Some(v) && accepts(v, f, Trim(between))
  {
    var marker := LastIndexOf(line, Marker(), |line|);
    between, json := line[close + 1..marker], line[marker + 1..];
    MarkerIsLast(line, marker, json);
    assert line[close + 1..] == between + line[marker..];
  }

  lemma MarkerIsLast(line: Text, marker: nat, json: Text)
    requires marker < |line| && marker == LastIndexOf(line, Marker(), |line|) && json == line[marker + 1..]
    ensures line[marker..] == [SPACE] + json && Marker() <= [SPACE] + json
    ensures forall i | 0 <= i <= |json| :: !(Marker() <= json[i..])
  {
    LastIndexIs(line, Marker(), |line|);
    MarkerStands(line, marker);
    forall i | 0 <= i <= |json| ensures !(Marker() <= json[i..]) {
      assert json[i..] == line[marker + 1 + i..];
    }
  }

  lemma MarkerStands(line: Text, marker: nat)
    requires marker < |line| && Marker() <= line[marker..]
    ensures line[marker..] == [SPACE] + line[marker + 1..]
  {
    assert line[marker] == line[marker..][0] == Marker()[0] == SPACE;
  }

  /** Exactly which lines are read as canonical, and as what. */
  lemma ReadsExactly(line: Text, v: Value)
    ensures ParseCanonical(line) == Some(v) <==> exists f: Fields, between, json :: IsLineOf(line, v, f, between, json)
  {
    if ParseCanonical(line) == Some(v) {
      var f, between, json := ReadIsLine(line, v);
    }
    if f: Fields, between, json :| IsLineOf(line, v, f, between, json) {
      LineIsRead(line, v, f, between, json);
    }
  }
}
