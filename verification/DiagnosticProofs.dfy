/** Every diagnostic the printer accepts is read back, as canonical and unchanged, by the parser. */
module DiagnosticProofs {
  import opened Options
  import opened Text
  import opened Json
  import opened JsonProofs
  import opened Diagnostic

  // ---- normalized messages --------------------------------------------------------------------------

  predicate SingleSpaced(t: Text) {
    forall i | 0 < i < |t| :: t[i - 1] != SPACE || t[i] != SPACE
  }

  /** The shape of a normalized message: short printable ASCII, single spaces, none at either end. */
  predicate Normal(t: Text) {
    0 < |t| <= MAX_TEXT && Printable(t) && SingleSpaced(t) && t[0] != SPACE && t[|t| - 1] != SPACE
  }

  lemma PrintableJoin(a: Text, b: Text)
    requires Printable(a) && Printable(b)
    ensures Printable(a + b)
  {
  }

  lemma EscapeIsPrintable(c: Unit)
    ensures Printable(UnicodeEscape(c))
  {
    var e := UnicodeEscape(c);
    forall i | 0 <= i < |e| ensures 0x20 <= e[i] <= 0x7e {
      if i == 0 {} else if i == 1 {} else if i == 2 {} else if i == 3 {} else if i == 4 {} else {}
    }
  }

  lemma {:induction false} EscapePrintable(t: Text)
    ensures Printable(EscapeUnsafe(t))
    ensures Printable(t) ==> EscapeUnsafe(t) == t
  {
    if t != [] {
      EscapePrintable(t[1..]);
      EscapeIsPrintable(t[0]);
      PrintableJoin(if IsUnsafe(t[0]) then UnicodeEscape(t[0]) else [t[0]], EscapeUnsafe(t[1..]));
      if Printable(t) { assert t == [t[0]] + t[1..]; }
    }
  }

  lemma SpacedCons(c: Unit, rest: Text)
    requires SingleSpaced(rest) && (rest != [] && c == SPACE ==> rest[0] != SPACE)
    ensures SingleSpaced([c] + rest)
  {
    var t := [c] + rest;
    forall i | 0 < i < |t| ensures t[i - 1] != SPACE || t[i] != SPACE {
      if i > 1 { assert t[i - 1] == rest[i - 2] && t[i] == rest[i - 1]; }
    }
  }

  lemma TailSingle(t: Text)
    requires t != [] && SingleSpaced(t)
    ensures SingleSpaced(t[1..]) && (|t| > 1 && t[0] == SPACE ==> t[1] != SPACE)
  {
    forall i | 0 < i < |t| - 1 ensures t[1..][i - 1] != SPACE || t[1..][i] != SPACE {
      assert t[1..][i - 1] == t[i] && t[1..][i] == t[i + 1];
    }
  }

  lemma PrintableWhite(t: Text, i: nat)
    requires Printable(t) && i < |t|
    ensures IsWhite(t[i]) <==> t[i] == SPACE
  {
  }

  lemma {:induction false} CollapseShape(t: Text)
    requires Printable(t)
    ensures
      var c := Collapse(t);
      && Printable(c) && SingleSpaced(c)
      && (t != [] ==> c != [] && c[0] == t[0])
      && (SingleSpaced(t) ==> c == t)
  {
    if t != [] {
      var rest := Collapse(t[1..]);
      CollapseShape(t[1..]);
      PrintableWhite(t, 0);
      if |t| > 1 { PrintableWhite(t, 1); }
      if SingleSpaced(t) {
        TailSingle(t);
        assert t == [t[0]] + t[1..];
      }
      if !(t[0] == SPACE && |t| > 1 && t[1] == SPACE) {
        PrintableJoin([t[0]], rest);
        SpacedCons(t[0], rest);
      }
    }
  }

  lemma {:induction false} TrimStartShape(t: Text)
    requires Printable(t) && SingleSpaced(t)
    ensures
      var r := TrimStart(t);
      && Printable(r) && SingleSpaced(r)
      && (r != [] ==> r[0] != SPACE)
      && (t != [] && t[0] != SPACE ==> r == t)
  {
    if t != [] && IsWhite(t[0]) { TrimStartShape(t[1..]); }
  }

  lemma {:induction false} TrimEndShape(t: Text)
    requires Printable(t) && SingleSpaced(t)
    ensures
      var r := TrimEnd(t);
      && Printable(r) && SingleSpaced(r) && r <= t
      && (r != [] ==> r[|r| - 1] != SPACE)
      && (t != [] && t[0] != SPACE ==> r != [])
      && (t != [] && t[|t| - 1] != SPACE ==> r == t)
  {
    if t != [] && IsWhite(t[|t| - 1]) { TrimEndShape(t[..|t| - 1]); }
  }

  lemma UnknownIsNormal()
    ensures Normal(Unknown())
  {
  }

  lemma TrimmedShape(t: Text)
    ensures
      var r := Trim(Collapse(EscapeUnsafe(t)));
      Printable(r) && SingleSpaced(r) && (r != [] ==> r[0] != SPACE && r[|r| - 1] != SPACE)
  {
    EscapePrintable(t);
    var c := Collapse(EscapeUnsafe(t));
    CollapseShape(EscapeUnsafe(t));
    TrimStartShape(c);
    TrimEndShape(TrimStart(c));
  }

  /** Whatever the message, its normalized form is short, printable, single-spaced and not empty. */
  lemma NormalizeIsNormal(value: Option<Text>)
    ensures Normal(Normalize(value))
  {
    var raw := if value.Some? then value.value else Unknown();
    TrimmedShape(raw);
    UnknownIsNormal();
    var text := Trim(Collapse(EscapeUnsafe(raw)));
    var kept := if text == [] then Unknown() else text;
    TrimEndShape(Truncate(kept));
  }

  /** Normalizing again changes nothing: the parser's own check of the message always passes. */
  lemma NormalizeFixes(t: Text)
    requires Normal(t)
    ensures Normalize(Some(t)) == t
  {
    EscapePrintable(t);
    CollapseShape(t);
    TrimStartShape(t);
    TrimEndShape(t);
  }

  lemma NormalizeIdempotent(value: Option<Text>)
    ensures Normalize(Some(Normalize(value))) == Normalize(value)
  {
    NormalizeIsNormal(value);
    NormalizeFixes(Normalize(value));
  }

  // ---- searching ----------------------------------------------------------------------------------------

  lemma {:induction false} IndexOfFirst(a: Text, c: Unit, rest: Text)
    requires c !in a
    requires rest == [] || rest[0] == c
    ensures IndexOf(a + rest, c) == |a|
  {
    if a == [] {
      assert a + rest == rest;
    } else {
      assert (a + rest)[1..] == a[1..] + rest;
      IndexOfFirst(a[1..], c, rest);
    }
  }

  lemma {:induction false} LastIndexOfAt(t: Text, m: Text, at: nat, from: nat)
    requires at <= from <= |t| && m <= t[at..]
    requires forall i | at < i <= from :: !(m <= t[i..])
    ensures LastIndexOf(t, m, from) == at
  {
    if at < from { LastIndexOfAt(t, m, at, from - 1); }
  }

  lemma MarkerShape(t: Text)
    requires t == [] || t[0] != SPACE || !MarkTail(t[1..])
    ensures !(Marker() <= t)
  {
    assert Marker()[0] == 0x20 && Marker()[1] == 0x7b && Marker()[2] == 0x22 && Marker()[3] == 0x73;
    if |t| >= |Marker()| { assert t[1..][0] == t[1] && t[1..][1] == t[2] && t[1..][2] == t[3]; }
  }

  lemma NoMarkerInside(json: Text, k: nat)
    requires Clean(json) && k <= |json|
    ensures !(Marker() <= json[k..])
  {
    var t := json[k..];
    CleanFrom(json, k);
    MarkerShape(t);
  }

  /** The last marker of a line is the one before its clean JSON suffix, whatever came before it. */
  lemma MarkerFound(head: Text, json: Text)
    requires Clean(json) && Marker() <= [SPACE] + json
    ensures LastIndexOf(head + [SPACE] + json, Marker(), |head + [SPACE] + json|) == |head|
  {
    var t := head + [SPACE] + json;
    assert t[|head|..] == [SPACE] + json;
    forall i | |head| < i <= |t| ensures !(Marker() <= t[i..]) {
      NoMarkerInside(json, i - |head| - 1);
      assert t[i..] == json[i - |head| - 1..];
    }
    LastIndexOfAt(t, Marker(), |head|, |t|);
  }

  // ---- the record -----------------------------------------------------------------------------------------

  predicate Sound(r: Record) {
    && (r.occurredAt.Some? ==> r.occurredAt.value != [])
    && IsSeverity(r.severity) && IsSource(r.source) && IsDotName(r.component) && IsDotName(r.event)
    && IsDataClass(r.dataClass) && Normal(r.message) && WellFormed(r.attributes)
  }

  lemma CreatedIsSound(x: Input)
    requires CreateDiagnostic(x).Some?
    requires x.attributes.Some? ==> WellFormed(x.attributes.value)
    ensures Sound(CreateDiagnostic(x).value)
  {
    NormalizeIsNormal(x.message);
  }

  lemma KeysDiffer()
    ensures A("event") != A("level")
    ensures A("dataClass") != A("component")
    ensures A("occurredAt") != A("attributes")
  {
    assert A("event")[0] != A("level")[0];
    assert A("dataClass")[0] != A("component")[0];
    assert A("occurredAt")[0] != A("attributes")[0];
  }

  lemma OneIsNumber()
    ensures IsNumber(A("1"))
  {
    assert A("1") == [0x31];
    assert A("1")[1..] == [];
  }

  lemma {:induction false} KeysOfMap(ms: Members, key: Text)
    ensures HasKey(ms, key) <==> key in ToMap(ms)
  {
    if ms.Member? { KeysOfMap(ms.tail, key); }
  }

  lemma AddMember(key: Text, v: Value, tail: Members, m: map<Text, Value>)
    requires ToMap(tail) == m && key !in m && WellFormed(v) && WellFormedMembers(tail)
    ensures ToMap(Member(key, v, tail)) == m[key := v] && WellFormedMembers(Member(key, v, tail))
  {
    KeysOfMap(tail, key);
  }

  // The last five members, then all ten.
  lemma RecordEnds(r: Record) returns (ms: Members, m: map<Text, Value>)
    requires Sound(r)
    ensures ms == RecordValue(r).members.tail.tail.tail.tail.tail
    ensures WellFormedMembers(ms) && ToMap(ms) == m
    ensures m == map[A("attributes") := r.attributes, A("message") := Str(r.message),
      A("dataClass") := Str(r.dataClass),
                     A("level") := Str(r.severity), A("severity") := Str(r.severity)]
  {
    ms, m := NoMembers, map[];
    AddMember(A("attributes"), r.attributes, ms, m);
    ms, m := Member(A("attributes"), r.attributes, ms), m[A("attributes") := r.attributes];
    AddMember(A("message"), Str(r.message), ms, m);
    ms, m := Member(A("message"), Str(r.message), ms), m[A("message") := Str(r.message)];
    AddMember(A("dataClass"), Str(r.dataClass), ms, m);
    ms, m := Member(A("dataClass"), Str(r.dataClass), ms), m[A("dataClass") := Str(r.dataClass)];
    AddMember(A("level"), Str(r.severity), ms, m);
    ms, m := Member(A("level"), Str(r.severity), ms), m[A("level") := Str(r.severity)];
    AddMember(A("severity"), Str(r.severity), ms, m);
    ms, m := Member(A("severity"), Str(r.severity), ms), m[A("severity") := Str(r.severity)];
  }

  lemma RecordMembers(r: Record) returns (m: map<Text, Value>)
    requires Sound(r)
    ensures WellFormedMembers(RecordValue(r).members) && ToMap(RecordValue(r).members) == m
    ensures A("attributes") in m && m[A("attributes")] == r.attributes
    ensures A("message") in m && m[A("message")] == Str(r.message)
    ensures A("dataClass") in m && m[A("dataClass")] == Str(r.dataClass)
    ensures A("level") in m && m[A("level")] == Str(r.severity)
    ensures A("severity") in m && m[A("severity")] == Str(r.severity)
    ensures A("event") in m && m[A("event")] == Str(r.event)
    ensures A("component") in m && m[A("component")] == Str(r.component)
    ensures A("source") in m && m[A("source")] == Str(r.source)
    ensures A("occurredAt") in m && m[A("occurredAt")] == if r.occurredAt.Some? then Str(r.occurredAt.value) else Null
    ensures A("schemaVersion") in m && m[A("schemaVersion")] == Num(A("1"))
  {
    KeysDiffer();
    OneIsNumber();
    var ms;
    ms, m := RecordEnds(r);
    AddMember(A("event"), Str(r.event), ms, m);
    ms, m := Member(A("event"), Str(r.event), ms), m[A("event") := Str(r.event)];
    AddMember(A("component"), Str(r.component), ms, m);
    ms, m := Member(A("component"), Str(r.component), ms), m[A("component") := Str(r.component)];
    AddMember(A("source"), Str(r.source), ms, m);
    ms, m := Member(A("source"), Str(r.source), ms), m[A("source") := Str(r.source)];
    var at := if r.occurredAt.Some? then Str(r.occurredAt.value) else Null;
    AddMember(A("occurredAt"), at, ms, m);
    ms, m := Member(A("occurredAt"), at, ms), m[A("occurredAt") := at];
    AddMember(A("schemaVersion"), Num(A("1")), ms, m);
    ms, m := Member(A("schemaVersion"), Num(A("1")), ms), m[A("schemaVersion") := Num(A("1"))];
  }

  lemma RecordAccepted(r: Record)
    requires Sound(r)
    ensures IsRecordFor(RecordValue(r), (r.source, r.component, r.event, r.severity), r.message)
  {
    var _ := RecordMembers(r);
    NormalizeFixes(r.message);
  }

  lemma {:induction false} PlainBody(s: Text, rest: Text)
    requires forall i | 0 <= i < |s| :: IsLower(s[i]) || 0x41 <= s[i] <= 0x5a
    ensures BodyOn(s, rest) == s + [QUOTE] + rest
  {
    if s != [] { PlainBody(s[1..], rest); }
  }

  // A printed object starts with its first key.
  lemma FirstKeyPrinted(key: Text, v: Value, tail: Members) returns (after: Text)
    requires forall i | 0 <= i < |key| :: IsLower(key[i]) || 0x41 <= key[i] <= 0x5a
    ensures PrintOn(Obj(Member(key, v, tail)), []) == [OPEN_OBJ] + ([QUOTE] + (key + [QUOTE] + ([COLON] + after)))
  {
    after := PrintOn(v, MembersOn(tail, false, []));
    PlainBody(key, [COLON] + after);
    assert MembersOn(Member(key, v, tail), true, []) == StringOn(key, [COLON] + after);
  }

  lemma MarkerPrefixes(key: Text, after: Text)
    ensures [SPACE, OPEN_OBJ, QUOTE] + key + [QUOTE, COLON]
      <= [SPACE] + ([OPEN_OBJ] + ([QUOTE] + (key + [QUOTE] + ([COLON] + after))))
  {
    assert [SPACE] + ([OPEN_OBJ] + ([QUOTE] + (key + [QUOTE] + ([COLON] + after))))
      == ([SPACE, OPEN_OBJ, QUOTE] + key + [QUOTE, COLON]) + after;
  }

  lemma MarkerSpelled()
    ensures Marker() == [SPACE, OPEN_OBJ, QUOTE] + A("schemaVersion") + [QUOTE, COLON]
  {
  }

  /** The JSON of a record starts with its schema version, as the marker expects. */
  lemma RecordStarts(r: Record)
    requires Sound(r)
    ensures Marker() <= [SPACE] + PrintOn(RecordValue(r), [])
  {
    var ms := RecordValue(r).members;
    var key := A("schemaVersion");
    assert ms.key == key;
    var after := FirstKeyPrinted(key, ms.value, ms.tail);
    MarkerPrefixes(key, after);
    MarkerSpelled();
  }

  // ---- the header ------------------------------------------------------------------------------------------

  predicate Plain(t: Text) {
    t != [] && SPACE !in t && CLOSE_ARR !in t && Printable(t)
  }

  lemma FieldsArePlain(r: Record)
    requires Sound(r)
    ensures Plain(r.source) && Plain(r.component) && Plain(r.event) && Plain(r.severity)
  {
    assert forall c | c in A("/._-") :: 0x2d <= c <= 0x5f && c != CLOSE_ARR;
  }

  lemma HeaderFieldRead(name: Text, f: Text, rest: Text)
    requires Plain(f) && (rest == [] || rest[0] == SPACE)
    ensures HeaderField(name + (f + rest), name) == Some((f, rest))
  {
    var t := name + (f + rest);
    assert t[|name|..] == f + rest;
    IndexOfFirst(f, SPACE, rest);
    assert (f + rest)[..|f|] == f && (f + rest)[|f|..] == rest;
  }

  lemma PrefixDropped(a: Text, b: Text)
    ensures a <= a + b && (a + b)[|a|..] == b
  {
  }

  lemma HeaderRead(r: Record)
    requires Sound(r)
    ensures MatchHeader(Header(r)) == Some((r.source, r.component, r.event, r.severity))
  {
    FieldsArePlain(r);
    var severity := A(" severity=") + r.severity;
    var event := A(" event=") + (r.event + severity);
    var component := A(" component=") + (r.component + event);
    var source := A(" source=") + (r.source + component);
    PrefixDropped(Prefix(), source);
    HeaderFieldRead(A(" source="), r.source, component);
    HeaderFieldRead(A(" component="), r.component, event);
    HeaderFieldRead(A(" event="), r.event, severity);
    HeaderFieldRead(A(" severity="), r.severity, []);
    assert r.severity + [] == r.severity;
    FieldsChain(Header(r), r.source, component, r.component, event, r.event, severity, r.severity);
  }

  lemma FieldsChain(t: Text, a: Text, afterA: Text, b: Text, afterB: Text, c: Text, afterC: Text, d: Text)
    requires Prefix() <= t && HeaderField(t[|Prefix()|..], A(" source=")) == Some((a, afterA))
    requires HeaderField(afterA, A(" component=")) == Some((b, afterB))
    requires HeaderField(afterB, A(" event=")) == Some((c, afterC))
    requires HeaderField(afterC, A(" severity=")) == Some((d, []))
    ensures MatchHeader(t) == Some((a, b, c, d))
  {
  }

  predicate HeaderText(t: Text) {
    Printable(t) && CLOSE_ARR !in t
  }

  lemma HeaderTextJoin(a: Text, b: Text)
    requires HeaderText(a) && HeaderText(b)
    ensures HeaderText(a + b)
  {
  }

  lemma LiteralsAreHeaderText()
    ensures HeaderText(Prefix()) && HeaderText(A(" source=")) && HeaderText(A(" component="))
    ensures HeaderText(A(" event=")) && HeaderText(A(" severity="))
  {
    assert forall i | 0 <= i < |Prefix()| :: 0x20 <= Prefix()[i] <= 0x7e && Prefix()[i] != CLOSE_ARR;
  }

  lemma HeaderShape(r: Record)
    requires Sound(r)
    ensures HeaderText(Header(r)) && Prefix() + A(" ") <= Header(r)
  {
    FieldsArePlain(r);
    LiteralsAreHeaderText();
    HeaderTextJoin(A(" severity="), r.severity);
    var severity := A(" severity=") + r.severity;
    HeaderTextJoin(r.event, severity);
    HeaderTextJoin(A(" event="), r.event + severity);
    var event := A(" event=") + (r.event + severity);
    HeaderTextJoin(r.component, event);
    HeaderTextJoin(A(" component="), r.component + event);
    var component := A(" component=") + (r.component + event);
    HeaderTextJoin(r.source, component);
    HeaderTextJoin(A(" source="), r.source + component);
    var source := A(" source=") + (r.source + component);
    HeaderTextJoin(Prefix(), source);
    assert source[0] == A(" ")[0];
    assert (Prefix() + source)[..|Prefix()| + 1] == Prefix() + A(" ");
  }

  // ---- the whole line ----------------------------------------------------------------------------------------

  // The printed line, its literals as units.
  function Line(header: Text, message: Text, json: Text): Text {
    [OPEN_ARR] + header + [CLOSE_ARR, SPACE] + message + [SPACE] + json
  }

  lemma RecordLine(r: Record)
    ensures FormatRecord(r) == Line(Header(r), r.message, AsciiJson(RecordValue(r)))
  {
    assert A("[") == [OPEN_ARR] && A("] ") == [CLOSE_ARR, SPACE] && A(" ") == [SPACE];
  }

  // Where the header stands in a line.
  lemma HeaderSplits(header: Text, message: Text, json: Text)
    requires CLOSE_ARR !in header
    ensures
      var line := Line(header, message, json);
      IndexOf(line, CLOSE_ARR) == |header| + 1 < |line| && line[1..|header| + 1] == header
  {
    var tail := [CLOSE_ARR, SPACE] + message + [SPACE] + json;
    assert Line(header, message, json) == ([OPEN_ARR] + header) + tail;
    IndexOfFirst([OPEN_ARR] + header, CLOSE_ARR, tail);
  }

  lemma MessageTrimmed(message: Text)
    requires Normal(message)
    ensures Trim([SPACE] + message) == message
  {
    assert TrimStart([SPACE] + message) == TrimStart(message) by { assert ([SPACE] + message)[1..] == message; }
    TrimStartShape(message);
    TrimEndShape(message);
  }

  // Where the JSON starts in it, and what stands between.
  lemma MarkerSplits(header: Text, message: Text, json: Text)
    requires Normal(message) && Clean(json) && Marker() <= [SPACE] + json
    ensures
      var line, n := Line(header, message, json), |header| + 3 + |message|;
      && LastIndexOf(line, Marker(), |line|) == n && n < |line|
      && line[n + 1..] == json
      && Trim(line[|header| + 2..n]) == message
  {
    var line, head := Line(header, message, json), [OPEN_ARR] + header + [CLOSE_ARR, SPACE] + message;
    assert line == head + [SPACE] + json;
    MarkerFound(head, json);
    assert line[|header| + 2..|head|] == head[|header| + 2..] == [SPACE] + message;
    MessageTrimmed(message);
  }

  lemma LinePrintable(header: Text, message: Text, json: Text)
    requires Printable(header) && Printable(message) && Printable(json)
    ensures Printable(Line(header, message, json))
  {
    PrintableJoin([OPEN_ARR], header);
    PrintableJoin([OPEN_ARR] + header, [CLOSE_ARR, SPACE]);
    PrintableJoin([OPEN_ARR] + header + [CLOSE_ARR, SPACE], message);
    PrintableJoin([OPEN_ARR] + header + [CLOSE_ARR, SPACE] + message, [SPACE]);
    PrintableJoin([OPEN_ARR] + header + [CLOSE_ARR, SPACE] + message + [SPACE], json);
  }

  lemma JsonIsClean(r: Record)
    requires Sound(r)
    ensures
      var json := AsciiJson(RecordValue(r));
      && Clean(json) && Marker() <= [SPACE] + json && Parse(json) == Some(RecordValue(r))
  {
    var v := RecordValue(r);
    var _ := RecordMembers(r);
    AsciiJsonIsPrinted(v, []);
    assert AsciiJson(v) + [] == AsciiJson(v);
    ValueClean(v, []);
    RecordStarts(r);
    RoundTrip(v);
  }

  lemma FromRead(line: Text, close: nat, header: (Text, Text, Text, Text), marker: nat, v: Value, message: Text,
                 accepts: Check)
    requires close < marker < |line| && Parse(line[marker + 1..]) == Some(v) && Trim(line[close + 1..marker]) == message
    requires accepts(v, header, message)
    ensures RecordFrom(line, close, marker, header, accepts) == Some(v)
  {
    assert Judged(Some(v), header, message, accepts) == Some(v);
  }

  lemma AfterRead(line: Text, close: nat, header: (Text, Text, Text, Text), marker: nat, v: Value, message: Text,
                  accepts: Check)
    requires close < marker < |line| && LastIndexOf(line, Marker(), |line|) == marker
    requires Parse(line[marker + 1..]) == Some(v) && Trim(line[close + 1..marker]) == message
    requires accepts(v, header, message)
    ensures RecordAfter(line, close, header, accepts) == Some(v)
  {
    FromRead(line, close, header, marker, v, message, accepts);
  }

  lemma CanonicalRead(line: Text, close: nat, header: (Text, Text, Text, Text), v: Value, accepts: Check)
    requires Opening() <= line && close == IndexOf(line, CLOSE_ARR) && 1 <= close < |line|
    requires MatchHeader(line[1..close]) == Some(header)
    requires RecordAfter(line, close, header, accepts) == Some(v)
    ensures CanonicalRecord(line, accepts) == Some(v)
  {
  }

  lemma PrintableIsRead(line: Text, v: Value)
    requires Printable(line) && CanonicalRecord(line, IsRecordFor) == Some(v)
    ensures ParseCanonical(line) == Some(v)
  {
  }

  lemma LineOpens(header: Text, message: Text, json: Text)
    requires Prefix() + A(" ") <= header
    ensures Opening() <= Line(header, message, json)
  {
    var p := Prefix() + A(" ");
    assert A("[") == [OPEN_ARR];
    assert Opening() == [OPEN_ARR] + p;
    OpensLine(p, header, message, json);
  }

  lemma OpensLine(p: Text, header: Text, message: Text, json: Text)
    requires p <= header
    ensures [OPEN_ARR] + p <= Line(header, message, json)
  {
    assert Line(header, message, json) == ([OPEN_ARR] + header) + ([CLOSE_ARR, SPACE] + message + [SPACE] + json);
    assert [OPEN_ARR] + p <= [OPEN_ARR] + header;
  }

  // A line of any header: every place the parser looks for is where the printer put it.
  lemma LineOf(header: Text, message: Text, json: Text) returns (line: Text, close: nat, marker: nat)
    requires HeaderText(header) && Prefix() + A(" ") <= header && Normal(message)
    requires Clean(json) && Marker() <= [SPACE] + json
    ensures line == Line(header, message, json)
    ensures Printable(line) && Opening() <= line && 1 <= close < marker < |line|
    ensures close == IndexOf(line, CLOSE_ARR) && line[1..close] == header
    ensures LastIndexOf(line, Marker(), |line|) == marker
    ensures line[marker + 1..] == json && Trim(line[close + 1..marker]) == message
  {
    line, close, marker := Line(header, message, json), |header| + 1, |header| + 3 + |message|;
    HeaderSplits(header, message, json);
    MarkerSplits(header, message, json);
    CleanIsPrintable(json);
    LinePrintable(header, message, json);
    LineOpens(header, message, json);
  }

  // So a line of any header the expression reads, and any JSON the check accepts with it, is read back.
  lemma LineParses(header: Text, fields: (Text, Text, Text, Text), message: Text, json: Text, v: Value, accepts: Check)
    requires HeaderText(header) && Prefix() + A(" ") <= header && MatchHeader(header) == Some(fields) && Normal(message)
    requires Clean(json) && Marker() <= [SPACE] + json && Parse(json) == Some(v) && accepts(v, fields, message)
    ensures Printable(Line(header, message, json)) && CanonicalRecord(Line(header, message, json), accepts) == Some(v)
  {
    var line, close, marker := LineOf(header, message, json);
    ReadsAt(line, close, marker, header, fields, message, json, v, accepts);
  }

  // A line, given where it splits and what its parts are.
  lemma ReadsAt(line: Text, close: nat, marker: nat, header: Text, fields: (Text, Text, Text, Text), message: Text,
                json: Text, v: Value, accepts: Check)
    requires Opening() <= line && 1 <= close < marker < |line| && close == IndexOf(line, CLOSE_ARR)
      && line[1..close] == header
    requires LastIndexOf(line, Marker(), |line|) == marker && line[marker + 1..] == json
      && Trim(line[close + 1..marker]) == message
    requires MatchHeader(header) == Some(fields) && Parse(json) == Some(v) && accepts(v, fields, message)
    ensures CanonicalRecord(line, accepts) == Some(v)
  {
    AfterRead(line, close, fields, marker, v, message, accepts);
    CanonicalRead(line, close, fields, v, accepts);
  }

  lemma LineRoundTrip(r: Record, json: Text)
    requires Sound(r) && Clean(json) && Marker() <= [SPACE] + json && Parse(json) == Some(RecordValue(r))
    ensures ParseCanonical(Line(Header(r), r.message, json)) == Some(RecordValue(r))
  {
    HeaderShape(r);
    HeaderRead(r);
    RecordAccepted(r);
    LineParses(Header(r), (r.source, r.component, r.event, r.severity), r.message, json, RecordValue(r), IsRecordFor);
    PrintableIsRead(Line(Header(r), r.message, json), RecordValue(r));
  }

  lemma RecordRoundTrip(r: Record)
    requires Sound(r)
    ensures ParseCanonical(FormatRecord(r)) == Some(RecordValue(r))
  {
    JsonIsClean(r);
    RecordLine(r);
    LineRoundTrip(r, AsciiJson(RecordValue(r)));
  }

  /**
   parseDiagnostic(formatDiagnostic(x)) is canonical and is the record createDiagnostic(x) built, for
   every input the printer accepts, markers inside its message or attributes included.
   */
  lemma FormatParses(x: Input)
    requires CreateDiagnostic(x).Some?
    requires x.attributes.Some? ==> WellFormed(x.attributes.value)
    ensures ParseCanonical(FormatDiagnostic(x).value) == Some(RecordValue(CreateDiagnostic(x).value))
  {
    CreatedIsSound(x);
    RecordRoundTrip(CreateDiagnostic(x).value);
  }

  // ---- what the parser accepts is a diagnostic ----------------------------------------------------------------

  function TextOf(v: Option<Value>): Text {
    if v.Some? && v.value.Str? then v.value.text else []
  }

  // The input that would build the record v holds.
  function InputOf(v: Value): Input {
    var at := Field(v, A("occurredAt"));
    Input(TextOf(Field(v, A("source"))), TextOf(Field(v, A("component"))), TextOf(Field(v, A("event"))),
          TextOf(Field(v, A("severity"))), Some(TextOf(Field(v, A("message")))),
          if at.Some? && at.value.Str? then Some(at.value.text) else None,
          Some(TextOf(Field(v, A("dataClass")))), Field(v, A("attributes")))
  }

  lemma {:induction false} FieldWellFormed(ms: Members, key: Text)
    requires WellFormedMembers(ms) && key in ToMap(ms)
    ensures WellFormed(ToMap(ms)[key])
  {
    if ms.key != key { FieldWellFormed(ms.tail, key); }
  }

  lemma AfterParts(line: Text, close: nat, header: (Text, Text, Text, Text), v: Value, accepts: Check)
    returns (message: Text)
    requires close < |line| && RecordAfter(line, close, header, accepts) == Some(v)
    ensures accepts(v, header, message) && WellFormed(v)
  {
    var marker := LastIndexOf(line, Marker(), |line|);
    message := Trim(line[close + 1..marker]);
    ParsedWellFormed(line[marker + 1..]);
  }

  // What any accepted line shows: a check that passed on a parsed value.
  lemma CanonicalParts(line: Text, v: Value, accepts: Check) returns (header: (Text, Text, Text, Text), message: Text)
    requires CanonicalRecord(line, accepts) == Some(v)
    ensures accepts(v, header, message) && WellFormed(v)
  {
    var close := IndexOf(line, CLOSE_ARR);
    header := MatchHeader(line[1..close]).value;
    message := AfterParts(line, close, header, v, accepts);
  }

  // The input built from a record passes every check of the constructor, and its fields come back.
  lemma InputAccepted(v: Value, header: (Text, Text, Text, Text), message: Text)
    requires IsRecordFor(v, header, message)
    ensures
      var r := CreateDiagnostic(InputOf(v));
      && r.Some?
      && r.value.attributes == Field(v, A("attributes")).value
      && Field(v, A("source")) == Some(Str(r.value.source))
      && Field(v, A("component")) == Some(Str(r.value.component))
      && Field(v, A("event")) == Some(Str(r.value.event))
      && Field(v, A("severity")) == Some(Str(r.value.severity))
      && Field(v, A("message")) == Some(Str(r.value.message))
      && Field(v, A("dataClass")) == Some(Str(r.value.dataClass))
      && Field(v, A("occurredAt")) == Some(if r.value.occurredAt.Some? then Str(r.value.occurredAt.value) else Null)
  {
  }

  /**
   Any line read as canonical holds a record the constructor accepts unchanged, and printing that
   record gives a line that reads back to the same fields.
   */
  lemma CanonicalReprints(line: Text, v: Value)
    requires ParseCanonical(line) == Some(v)
    ensures
      var r := CreateDiagnostic(InputOf(v));
      && r.Some? && ParseCanonical(FormatRecord(r.value)) == Some(RecordValue(r.value))
      && r.value.attributes == Field(v, A("attributes")).value
      && Field(v, A("source")) == Some(Str(r.value.source))
      && Field(v, A("component")) == Some(Str(r.value.component))
      && Field(v, A("event")) == Some(Str(r.value.event))
      && Field(v, A("severity")) == Some(Str(r.value.severity))
      && Field(v, A("message")) == Some(Str(r.value.message))
      && Field(v, A("dataClass")) == Some(Str(r.value.dataClass))
      && Field(v, A("occurredAt")) == Some(if r.value.occurredAt.Some? then Str(r.value.occurredAt.value) else Null)
  {
    var header, message := CanonicalParts(line, v, IsRecordFor);
    InputAccepted(v, header, message);
    FieldWellFormed(v.members, A("attributes"));
    CreatedIsSound(InputOf(v));
    RecordRoundTrip(CreateDiagnostic(InputOf(v)).value);
  }
}
