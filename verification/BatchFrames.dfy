/** The size of the control frames the chunks of module Chunking become. */
module BatchFrames {
  import opened Options
  import opened Text
  import opened Json
  import opened Strings
  import opened Chunking
  import Utf8

  function Digits(n: nat): Text { A(Decimal(n)) }

  function TopicItems(topics: seq<Topic>): Items {
    if topics == [] then NoItems else Item(Str(topics[0]), TopicItems(topics[1..]))
  }

  // Object.keys order: a topic enters the map where the chunk first names it.
  function RecoverMembers(topics: seq<Topic>, recover: map<Topic, Entry>, seen: set<Topic>): Members {
    if topics == [] then NoMembers
    else if topics[0] in recover && topics[0] !in seen then
      Member(topics[0], EntryValue(recover[topics[0]]), RecoverMembers(topics[1..], recover, seen + {topics[0]}))
    else RecoverMembers(topics[1..], recover, seen)
  }

  // { type: 'subscribe-batch', topics, ref, recover? }
  function BatchFrame(topics: seq<Topic>, number: nat, recover: Option<map<Topic, Entry>>): Value {
    Obj(Member(A("type"), Str(A("subscribe-batch")),
      Member(A("topics"), Arr(TopicItems(topics)),
        Member(A("ref"), Num(Digits(number)),
          if recover.None? then NoMembers
          else Member(A("recover"), Obj(RecoverMembers(topics, recover.value, {})), NoMembers)))))
  }

  function FrameBytes(topics: seq<Topic>, number: nat, recover: Option<map<Topic, Entry>>): nat {
    Bytes(Stringify(BatchFrame(topics, number, recover)))
  }

  // ---- byte counts ------------------------------------------------------------------------------------

  /** Joining two texts never takes more bytes than the texts; it takes fewer only where it completes a pair. */
  lemma {:induction false} BytesJoin(a: Text, b: Text)
    ensures Bytes(a + b) <= Bytes(a) + Bytes(b)
    decreases |a|
  {
    if a == [] {
      assert a + b == b;
    } else if StartsWithPair(a) {
      assert (a + b)[2..] == a[2..] + b;
      BytesJoin(a[2..], b);
    } else if StartsWithPair(a + b) {
      assert |a| == 1;
      assert a[1..] == [] && (a + b)[2..] == b[1..];
      assert Utf8.Encode(b) == Utf8.EncodePoint(b[0]) + Utf8.Encode(b[1..]);
    } else {
      assert (a + b)[1..] == a[1..] + b;
      BytesJoin(a[1..], b);
    }
  }

  predicate IsPlain(s: Text) {
    forall i | 0 <= i < |s| :: 0x20 <= s[i] < 0x7f && s[i] != QUOTE && s[i] != BACKSLASH
  }

  lemma {:induction false} PlainBody(s: Text)
    requires IsPlain(s)
    ensures QuoteBody(s) == s
  {
    if s != [] {
      PlainBody(s[1..]);
      assert QuoteUnit(s[0]) == [s[0]];
      assert s == [s[0]] + s[1..];
    }
  }

  lemma PlainQuote(s: Text)
    requires IsPlain(s)
    ensures Bytes(Quote(s)) == |s| + 2
  {
    PlainBody(s);
    Utf8.AsciiLength(Quote(s));
  }

  lemma {:induction false} DecimalDigits(n: nat, k: nat)
    requires n < Tens(k)
    ensures |Decimal(n)| <= if k == 0 then 1 else k
    ensures forall i | 0 <= i < |Decimal(n)| :: '0' <= Decimal(n)[i] <= '9'
  {
    if n >= 10 { DecimalDigits(n / 10, k - 1); }
  }

  function Tens(k: nat): nat {
    if k == 0 then 1 else 10 * Tens(k - 1)
  }

  lemma RefBytes(n: nat)
    requires n <= MAX_SAFE_INTEGER
    ensures Bytes(Digits(n)) <= 16
  {
    assert Tens(4) == 10000;
    assert Tens(8) == 10000 * Tens(4);
    assert Tens(12) == 10000 * Tens(8);
    assert Tens(16) == 10000 * Tens(12);
    DecimalDigits(n, 16);
    Utf8.AsciiLength(Digits(n));
  }

  // ---- the two lists ------------------------------------------------------------------------------------

  function TopicCosts(topics: seq<Topic>): nat {
    if topics == [] then 0 else TopicCost(topics[0]) + TopicCosts(topics[1..])
  }

  function RecoverCosts(topics: seq<Topic>, recover: map<Topic, Entry>): nat {
    if topics == [] then 0
    else
      var here := if topics[0] in recover then RecoverCost(topics[0], recover[topics[0]]) else 0;
      here + RecoverCosts(topics[1..], recover)
  }

  lemma {:induction false} CostSplits(topics: seq<Topic>, recover: map<Topic, Entry>)
    ensures Cost(topics, PriceOf(recover)) == TopicCosts(topics) + RecoverCosts(topics, recover)
  {
    if topics != [] { CostSplits(topics[1..], recover); }
  }

  function Comma(first: bool): Text { if first then [] else [COMMA] }

  lemma CommaBytes(first: bool)
    ensures Bytes(Comma(first)) <= 1
  {
    Utf8.AsciiLength(Comma(first));
  }

  lemma {:induction false} TopicsBytes(topics: seq<Topic>, first: bool)
    ensures Bytes(StringifyItems(TopicItems(topics), first)) <= TopicCosts(topics)
  {
    if topics != [] {
      var quoted, rest := Quote(topics[0]), StringifyItems(TopicItems(topics[1..]), false);
      TopicsBytes(topics[1..], false);
      CommaBytes(first);
      BytesJoin(Comma(first), quoted);
      BytesJoin(Comma(first) + quoted, rest);
      assert Stringify(Str(topics[0])) == quoted;
    }
  }

  lemma FourRegroup(a: Text, b: Text, c: Text, d: Text)
    ensures a + b + c + d == a + (b + c + d)
  {
  }

  lemma FiveJoin(a: Text, b: Text, c: Text, d: Text, e: Text)
    ensures Bytes(a + b + c + d + e) <= Bytes(a) + Bytes(b + c + d) + Bytes(e)
  {
    var m := b + c + d;
    FourRegroup(a, b, c, d);
    BytesJoin(a, m);
    BytesJoin(a + m, e);
  }

  lemma MemberBytes(key: Text, value: Value, tail: Members, first: bool)
    ensures Bytes(StringifyMembers(Member(key, value, tail), first))
      <= 1 + Bytes(Quote(key) + [COLON] + Stringify(value)) + Bytes(StringifyMembers(tail, false))
  {
    CommaBytes(first);
    FiveJoin(Comma(first), Quote(key), [COLON], Stringify(value), StringifyMembers(tail, false));
  }

  lemma {:induction false} RecoverBytes(topics: seq<Topic>, recover: map<Topic, Entry>, seen: set<Topic>, first: bool)
    ensures Bytes(StringifyMembers(RecoverMembers(topics, recover, seen), first)) <= RecoverCosts(topics, recover)
  {
    if topics != [] {
      var t := topics[0];
      if t in recover && t !in seen {
        RecoverBytes(topics[1..], recover, seen + {t}, false);
        MemberBytes(t, EntryValue(recover[t]), RecoverMembers(topics[1..], recover, seen + {t}), first);
      } else {
        RecoverBytes(topics[1..], recover, seen, first);
      }
    }
  }

  // ---- the frame ------------------------------------------------------------------------------------------

  lemma PlainMember(key: Text, value: Value, tail: Members, first: bool)
    requires IsPlain(key)
    ensures Bytes(StringifyMembers(Member(key, value, tail), first))
      <= |key| + 4 + Bytes(Stringify(value)) + Bytes(StringifyMembers(tail, false))
  {
    MemberBytes(key, value, tail, first);
    PlainQuote(key);
    Utf8.AsciiLength([COLON]);
    BytesJoin(Quote(key), [COLON]);
    BytesJoin(Quote(key) + [COLON], Stringify(value));
  }

  lemma Bracketed(open: Unit, inner: Text, close: Unit)
    requires open < 0x80 && close < 0x80
    ensures Bytes([open] + inner + [close]) <= Bytes(inner) + 2
  {
    Utf8.AsciiLength([open]);
    Utf8.AsciiLength([close]);
    BytesJoin([open], inner);
    BytesJoin([open] + inner, [close]);
  }

  function ThreeFields(k: Text, kind: Text, l: Text, topics: Items, m: Text, number: Text, tail: Members): Value {
    Obj(Member(k, Str(kind), Member(l, Arr(topics), Member(m, Num(number), tail))))
  }

  // The fields around the two lists.
  lemma Scaffolding(k: Text, kind: Text, l: Text, topics: Items, m: Text, number: Text, tail: Members)
    requires IsPlain(k) && IsPlain(kind) && IsPlain(l) && IsPlain(m)
    ensures Bytes(Stringify(ThreeFields(k, kind, l, topics, m, number, tail)))
      <= |k| + |kind| + |l| + |m| + 18 + Bytes(StringifyItems(topics, true)) + Bytes(number)
         + Bytes(StringifyMembers(tail, false))
  {
    var third := Member(m, Num(number), tail);
    var second := Member(l, Arr(topics), third);
    PlainMember(m, Num(number), tail, false);
    PlainMember(l, Arr(topics), third, false);
    PlainMember(k, Str(kind), second, true);
    PlainQuote(kind);
    Bracketed(OPEN_ARR, StringifyItems(topics, true), CLOSE_ARR);
    Bracketed(OPEN_OBJ, StringifyMembers(Member(k, Str(kind), second), true), CLOSE_OBJ);
  }

  lemma FieldsBytes(topics: Items, number: Text, tail: Members)
    ensures Bytes(Stringify(Obj(Member(A("type"), Str(A("subscribe-batch")),
        Member(A("topics"), Arr(topics), Member(A("ref"), Num(number), tail))))))
      <= Bytes(StringifyItems(topics, true)) + Bytes(number) + Bytes(StringifyMembers(tail, false)) + 46
  {
    Scaffolding(A("type"), A("subscribe-batch"), A("topics"), topics, A("ref"), number, tail);
  }

  lemma RecoverField(topics: seq<Topic>, recover: map<Topic, Entry>)
    ensures Bytes(StringifyMembers(Member(A("recover"), Obj(RecoverMembers(topics, recover, {})), NoMembers), false))
      <= RecoverCosts(topics, recover) + 13
  {
    var members := RecoverMembers(topics, recover, {});
    PlainMember(A("recover"), Obj(members), NoMembers, false);
    RecoverBytes(topics, recover, {}, true);
    Bracketed(OPEN_OBJ, StringifyMembers(members, true), CLOSE_OBJ);
  }

  /** A frame is its budgeted cost and at most 75 bytes of fields, whatever its ref. */
  lemma FrameSize(topics: seq<Topic>, number: nat, recover: Option<map<Topic, Entry>>)
    requires number <= MAX_SAFE_INTEGER
    ensures FrameBytes(topics, number, recover) <= Cost(topics, PriceOf(AskedFrom(recover))) + 75
  {
    CostSplits(topics, AskedFrom(recover));
    RefBytes(number);
    TopicsBytes(topics, true);
    if recover.Some? {
      RecoverField(topics, recover.value);
      FieldsBytes(TopicItems(topics), Digits(number),
        Member(A("recover"), Obj(RecoverMembers(topics, recover.value, {})), NoMembers));
    } else {
      FieldsBytes(TopicItems(topics), Digits(number), NoMembers);
    }
  }

  // ---- every frame stays under the ceiling ------------------------------------------------------------------

  /** Every subscribe-batch frame cut from topics that each cost at most 7950 bytes is under the parse ceiling. */
  lemma ResubscribeFrameFits(out: seq<Chunk>, i: nat, tracked: map<Topic, Entry>, number: nat)
    requires i < |out| && Greedy(TopicsOf(out), PriceOf(tracked)) && RecoversExactly(out, tracked)
    requires forall t | t in Flat(TopicsOf(out)) :: EntryCost(t, tracked) <= MAX_BYTES - ENVELOPE_BYTES
    requires number <= MAX_SAFE_INTEGER
    ensures FrameBytes(out[i].topics, number, out[i].recover) < PARSE_CEILING
  {
    var topics, recover := out[i].topics, out[i].recover;
    TopicsAt(out, i);
    RecoversAt(out, i, tracked);
    FitsAt(TopicsOf(out), i, PriceOf(tracked));
    if |topics| == 1 {
      assert Cost(topics[1..], PriceOf(tracked)) == 0;
      assert topics[0] in topics;
    }
    RecoverCovers(tracked, topics);
    CostOfRestricted(topics, tracked, AskedFrom(recover));
    FrameSize(topics, number, recover);
  }

  /** The plain chunker's frames too. */
  lemma BatchFrameFits(out: seq<seq<Topic>>, i: nat, number: nat)
    requires i < |out| && Greedy(out, PriceOf(map[]))
    requires forall t | t in Flat(out) :: TopicCost(t) <= MAX_BYTES - ENVELOPE_BYTES
    requires number <= MAX_SAFE_INTEGER
    ensures FrameBytes(out[i], number, None) < PARSE_CEILING
  {
    FitsAt(out, i, PriceOf(map[]));
    if |out[i]| == 1 {
      assert Cost(out[i][1..], PriceOf(map[])) == 0;
      assert out[i][0] in out[i];
    }
    FrameSize(out[i], number, None);
  }

  /** So a frame that lost topics behind the flow window or the retry timer still fits. */
  lemma FilteredFrameFits(topics: seq<Topic>, wanted: set<Topic>, recover: Option<map<Topic, Entry>>, number: nat)
    requires number <= MAX_SAFE_INTEGER && ENVELOPE_BYTES + Cost(topics, PriceOf(AskedFrom(recover))) <= MAX_BYTES
    ensures
      var kept := Filter(topics, wanted);
      FrameBytes(kept, number, if recover.Some? then Some(Restrict(recover.value, kept)) else None) < PARSE_CEILING
  {
    var kept := Filter(topics, wanted);
    var asked := if recover.Some? then Some(Restrict(recover.value, kept)) else None;
    FilterCheaper(topics, wanted, PriceOf(AskedFrom(recover)));
    CostOfRestricted(kept, AskedFrom(recover), AskedFrom(asked));
    FrameSize(kept, number, asked);
  }

  /** Any frame within the batch budget is under the ceiling, unless one topic's own entry takes it over. */
  lemma LightFrameFits(topics: seq<Topic>, number: nat, recover: Option<map<Topic, Entry>>)
    requires Fits(topics, PriceOf(AskedFrom(recover))) && number <= MAX_SAFE_INTEGER
    requires |topics| == 1 ==> EntryCost(topics[0], AskedFrom(recover)) <= MAX_BYTES - ENVELOPE_BYTES
    ensures FrameBytes(topics, number, recover) < PARSE_CEILING
  {
    if |topics| == 1 {
      assert Cost(topics[1..], PriceOf(AskedFrom(recover))) == 0;
    }
    FrameSize(topics, number, recover);
  }
}
