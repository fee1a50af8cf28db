/**
 The subscribe-batch chunkers of src/client.js: topics cut, in order, into frames that stay under
 the server's control-frame ceiling.
 */
module Chunking {
  import opened Options
  import opened Text
  import opened Json
  import Utf8
  import opened Strings

  type Topic = Text

  /** A number and the text the engine prints it as. */
  datatype Numeral = Numeral(value: real, lexeme: Text)

  /** What a recover map asks for one topic. */
  datatype Entry = Entry(offset: Numeral, epoch: Option<Numeral>)

  datatype Chunk = Chunk(topics: seq<Topic>, recover: Option<map<Topic, Entry>>)

  const ENVELOPE_BYTES := 50
  const MAX_BYTES := 8000
  const MAX_TOPICS := 200
  const PARSE_CEILING := 8192
  const MAX_SAFE_INTEGER := 9007199254740991

  function Bytes(t: Text): nat { |Utf8.Encode(t)| }

  function EntryValue(e: Entry): Value {
    Obj(Member(A("offset"), Num(e.offset.lexeme),
      if e.epoch.Some? then Member(A("epoch"), Num(e.epoch.value.lexeme), NoMembers) else NoMembers))
  }

  function TopicCost(t: Topic): nat { Bytes(Quote(t)) + 1 }

  function RecoverCost(t: Topic, e: Entry): nat { Bytes(Quote(t) + [COLON] + Stringify(EntryValue(e))) + 1 }

  // entryBytes
  function EntryCost(t: Topic, tracked: map<Topic, Entry>): nat {
    TopicCost(t) + if t in tracked then RecoverCost(t, tracked[t]) else 0
  }

  /** What each topic adds to its frame. */
  type Price = Topic -> nat

  function PriceOf(tracked: map<Topic, Entry>): Price {
    t => EntryCost(t, tracked)
  }

  function Cost(topics: seq<Topic>, price: Price): nat {
    if topics == [] then 0 else price(topics[0]) + Cost(topics[1..], price)
  }

  function Flat(chunks: seq<seq<Topic>>): seq<Topic> {
    if chunks == [] then [] else chunks[0] + Flat(chunks[1..])
  }

  // topics.filter(t => t is not managed)
  function Unmanaged(topics: seq<Topic>, managed: set<Topic>): seq<Topic> {
    if topics == [] then []
    else (if topics[0] in managed then [] else [topics[0]]) + Unmanaged(topics[1..], managed)
  }

  // chunk.filter(wanted)
  function Filter(topics: seq<Topic>, wanted: set<Topic>): (r: seq<Topic>)
    ensures forall t :: t in r <==> t in topics && t in wanted
  {
    if topics == [] then []
    else (if topics[0] in wanted then [topics[0]] else []) + Filter(topics[1..], wanted)
  }

  lemma {:induction false} FilterLength(topics: seq<Topic>, wanted: set<Topic>)
    ensures |Filter(topics, wanted)| <= |topics|
    ensures |Filter(topics, wanted)| == |topics| ==> Filter(topics, wanted) == topics
  {
    if topics != [] { FilterLength(topics[1..], wanted); }
  }

  lemma {:induction false} FilterAll(topics: seq<Topic>, wanted: set<Topic>)
    requires forall t | t in topics :: t in wanted
    ensures Filter(topics, wanted) == topics
  {
    if topics != [] {
      FilterAll(topics[1..], wanted);
      assert topics == [topics[0]] + topics[1..];
    }
  }

  lemma {:induction false} UnmanagedMembers(topics: seq<Topic>, managed: set<Topic>)
    ensures forall t :: t in Unmanaged(topics, managed) <==> t in topics && t !in managed
  {
    if topics != [] {
      UnmanagedMembers(topics[1..], managed);
      assert topics == [topics[0]] + topics[1..];
    }
  }

  /** Every topic with a remembered offset, and what recovering it would ask. */
  function Tracked(seqs: map<Topic, Numeral>, epochs: map<Topic, Numeral>): map<Topic, Entry> {
    map t | t in seqs :: Entry(seqs[t], if t in epochs then Some(epochs[t]) else None)
  }

  function Restrict(tracked: map<Topic, Entry>, topics: seq<Topic>): map<Topic, Entry> {
    map t | t in tracked && t in topics :: tracked[t]
  }

  function TrackedEntry(tracked: map<Topic, Entry>, t: Topic): Option<Entry> {
    if t in tracked then Some(tracked[t]) else None
  }

  function WithEntry(recover: Option<map<Topic, Entry>>, t: Topic, entry: Option<Entry>): Option<map<Topic, Entry>> {
    if entry.None? then recover else Some((if recover.None? then map[] else recover.value)[t := entry.value])
  }

  // What a frame's recover field asks, nothing when it is null.
  function AskedFrom(recover: Option<map<Topic, Entry>>): map<Topic, Entry> {
    if recover.Some? then recover.value else map[]
  }

  // The recover map of a chunk, or null.
  function RecoverOf(tracked: map<Topic, Entry>, topics: seq<Topic>): Option<map<Topic, Entry>> {
    if topics == [] then None
    else
      var n := |topics| - 1;
      WithEntry(RecoverOf(tracked, topics[..n]), topics[n], TrackedEntry(tracked, topics[n]))
  }

  /** It covers exactly the tracked topics of the chunk, each with its own entry, and is null when there is none. */
  lemma {:induction false} RecoverCovers(tracked: map<Topic, Entry>, topics: seq<Topic>)
    ensures RecoverOf(tracked, topics)
      == if Restrict(tracked, topics) == map[] then None else Some(Restrict(tracked, topics))
  {
    if topics == [] {
      assert Restrict(tracked, topics) == map[];
    } else {
      var n := |topics| - 1;
      RecoverCovers(tracked, topics[..n]);
      RestrictAppend(tracked, topics[..n], topics[n]);
      assert topics[..n] + [topics[n]] == topics;
    }
  }

  lemma RestrictAppend(tracked: map<Topic, Entry>, topics: seq<Topic>, t: Topic)
    ensures
      var before, after := Restrict(tracked, topics), Restrict(tracked, topics + [t]);
      if t in tracked then after == before[t := tracked[t]] && t in after else after == before
  {
  }

  // ---- what a cut into chunks must be -------------------------------------------------------------

  /** Never empty, at most 200 topics, and over the byte budget only when one topic alone is. */
  predicate Fits(chunk: seq<Topic>, price: Price) {
    && 1 <= |chunk| <= MAX_TOPICS
    && (|chunk| == 1 || ENVELOPE_BYTES + Cost(chunk, price) <= MAX_BYTES)
  }

  // No room was left in chunk for the topic that follows it.
  predicate Full(chunk: seq<Topic>, next: Topic, price: Price) {
    |chunk| >= MAX_TOPICS || ENVELOPE_BYTES + Cost(chunk, price) + price(next) > MAX_BYTES
  }

  /** Every chunk fits, and none left room for the topic after it. */
  predicate Greedy(chunks: seq<seq<Topic>>, price: Price) {
    chunks == []
    || (Fits(chunks[0], price) && Greedy(chunks[1..], price)
        && (|chunks| > 1 ==> Full(chunks[0], chunks[1][0], price)))
  }

  lemma {:induction false} CostAppend(topics: seq<Topic>, t: Topic, price: Price)
    ensures Cost(topics + [t], price) == Cost(topics, price) + price(t)
  {
    if topics != [] {
      CostAppend(topics[1..], t, price);
      assert (topics + [t])[1..] == topics[1..] + [t];
    } else {
      assert (topics + [t])[1..] == [];
    }
  }

  lemma {:induction false} CostOfRestricted(topics: seq<Topic>, a: map<Topic, Entry>, b: map<Topic, Entry>)
    requires forall t | t in topics :: (t in a <==> t in b) && (t in a ==> a[t] == b[t])
    ensures Cost(topics, PriceOf(a)) == Cost(topics, PriceOf(b))
  {
    if topics != [] {
      assert topics[0] in topics;
      CostOfRestricted(topics[1..], a, b);
    }
  }

  /** Dropping topics from a chunk while it waits only makes its frame cheaper. */
  lemma {:induction false} FilterCheaper(topics: seq<Topic>, wanted: set<Topic>, price: Price)
    ensures Cost(Filter(topics, wanted), price) <= Cost(topics, price)
  {
    if topics != [] {
      FilterCheaper(topics[1..], wanted, price);
      var rest := Filter(topics[1..], wanted);
      assert ([topics[0]] + rest)[1..] == rest && [] + rest == rest;
    }
  }

  /** What is left of a chunk that fits, with the recover map cut down to it, fits. */
  lemma FilteredFits(topics: seq<Topic>, wanted: set<Topic>, recover: Option<map<Topic, Entry>>)
    requires Fits(topics, PriceOf(AskedFrom(recover)))
    ensures
      var kept := Filter(topics, wanted);
      var narrowed := if recover.None? then None else Some(Restrict(recover.value, kept));
      kept != [] ==> Fits(kept, PriceOf(AskedFrom(narrowed))) && Fits(kept, PriceOf(AskedFrom(recover)))
  {
    var kept := Filter(topics, wanted);
    FilterLength(topics, wanted);
    FilterCheaper(topics, wanted, PriceOf(AskedFrom(recover)));
    CostOfRestricted(kept, AskedFrom(recover),
      AskedFrom(if recover.None? then None else Some(Restrict(recover.value, kept))));
  }

  lemma {:induction false} CostOfPrefix(topics: seq<Topic>, n: nat, price: Price)
    requires n <= |topics|
    ensures Cost(topics[..n], price) <= Cost(topics, price)
  {
    if n > 0 {
      CostOfPrefix(topics[1..], n - 1, price);
      assert topics[..n][1..] == topics[1..][..n - 1];
    }
  }

  lemma {:induction false} FlatAppend(chunks: seq<seq<Topic>>, last: seq<Topic>)
    ensures Flat(chunks + [last]) == Flat(chunks) + last
  {
    if chunks == [] {
      assert (chunks + [last])[1..] == [];
    } else {
      FlatAppend(chunks[1..], last);
      assert (chunks + [last])[1..] == chunks[1..] + [last];
      assert chunks[0] + (Flat(chunks[1..]) + last) == chunks[0] + Flat(chunks[1..]) + last;
    }
  }

  // A chunk that fits had room for each topic it took.
  lemma RoomInside(chunk: seq<Topic>, n: nat, price: Price)
    requires Fits(chunk, price)
    ensures 0 < n < |chunk| ==> !Full(chunk[..n], chunk[n], price)
  {
    if 0 < n < |chunk| {
      CostAppend(chunk[..n], chunk[n], price);
      assert chunk[..n] + [chunk[n]] == chunk[..n + 1];
      CostOfPrefix(chunk, n + 1, price);
    }
  }

  lemma FullFirst(chunks: seq<seq<Topic>>, price: Price)
    requires chunks != [] && Greedy(chunks, price)
    ensures var flat, n := Flat(chunks), |chunks[0]|;
      n <= |flat| && flat[..n] == chunks[0] && (n < |flat| ==> Full(flat[..n], flat[n], price))
  {
    if |chunks| > 1 {
      assert Flat(chunks[1..])[0] == chunks[1][0];
    }
  }

  lemma SameFirst(xs: seq<seq<Topic>>, ys: seq<seq<Topic>>, price: Price)
    requires xs != [] && ys != [] && Greedy(xs, price) && Greedy(ys, price) && Flat(xs) == Flat(ys)
    ensures |xs[0]| >= |ys[0]|
  {
    FullFirst(xs, price);
    FullFirst(ys, price);
    assert Fits(xs[0], price);
    var n := if |xs[0]| < |ys[0]| then |xs[0]| else |ys[0]|;
    assert Flat(ys)[..|ys[0]|][..n] == Flat(ys)[..n];
    RoomInside(ys[0], n, price);
  }

  lemma {:induction false} FitsAt(chunks: seq<seq<Topic>>, i: nat, price: Price)
    requires i < |chunks| && Greedy(chunks, price)
    ensures Fits(chunks[i], price)
    ensures forall t | t in chunks[i] :: t in Flat(chunks)
  {
    if i > 0 { FitsAt(chunks[1..], i - 1, price); }
  }

  lemma NothingFromNothing(chunks: seq<seq<Topic>>, price: Price)
    requires Greedy(chunks, price)
    ensures chunks == [] <==> Flat(chunks) == []
  {
  }

  /** Order, content, the bounds and leaving no room unused fix the cut completely. */
  lemma {:induction false} GreedyIsUnique(xs: seq<seq<Topic>>, ys: seq<seq<Topic>>, price: Price)
    requires Greedy(xs, price) && Greedy(ys, price) && Flat(xs) == Flat(ys)
    ensures xs == ys
  {
    if xs == [] {
      NothingFromNothing(ys, price);
    } else {
      NothingFromNothing(xs, price);
      SameFirst(xs, ys, price);
      SameFirst(ys, xs, price);
      assert xs[0] == Flat(xs)[..|xs[0]|] == ys[0];
      assert Flat(xs[1..]) == Flat(xs)[|xs[0]|..];
      GreedyIsUnique(xs[1..], ys[1..], price);
    }
  }

  // chunks so far, and the chunk being filled
  ghost predicate Filling(chunks: seq<seq<Topic>>, chunk: seq<Topic>, price: Price) {
    if chunk == [] then chunks == [] else Greedy(chunks + [chunk], price)
  }

  lemma {:induction false} GreedyAppend(chunks: seq<seq<Topic>>, last: seq<Topic>, next: seq<Topic>, price: Price)
    requires Greedy(chunks + [last], price) && Fits(next, price)
    ensures Full(last, next[0], price) ==> Greedy(chunks + [last] + [next], price)
    ensures last <= next ==> Greedy(chunks + [next], price)
  {
    var was: seq<seq<Topic>> := chunks + [last];
    var two: seq<seq<Topic>> := was + [next];
    var one: seq<seq<Topic>> := chunks + [next];
    if chunks == [] {
      assert two[1..] == [next] == one;
    } else {
      assert was[1..] == chunks[1..] + [last];
      assert two[1..] == chunks[1..] + [last] + [next];
      assert one[1..] == chunks[1..] + [next];
      assert Fits((chunks[1..] + [last])[0], price);
      GreedyAppend(chunks[1..], last, next, price);
      assert last == was[|chunks|];
      assert Greedy(was[1..], price);
    }
  }

  // One turn of either loop: what became of the chunks, their content and the bytes counted.
  lemma TakeTopic(out: seq<seq<Topic>>, chunk: seq<Topic>, t: Topic, price: Price)
    requires Filling(out, chunk, price)
    ensures chunk != [] && Full(chunk, t, price) ==>
      && Filling(out + [chunk], [t], price)
      && Flat(out + [chunk]) + [t] == Flat(out) + chunk + [t]
      && Cost([t], price) == price(t)
    ensures chunk == [] || !Full(chunk, t, price) ==>
      && Filling(out, chunk + [t], price)
      && Flat(out) + (chunk + [t]) == Flat(out) + chunk + [t]
      && Cost(chunk + [t], price) == Cost(chunk, price) + price(t)
  {
    CostAppend(chunk, t, price);
    CostAppend([], t, price);
    assert [] + [t] == [t];
    FlatAppend(out, chunk);
    if chunk == [] {
      assert [[t]][1..] == [];
    } else {
      GreedyAppend(out, chunk, if Full(chunk, t, price) then [t] else chunk + [t], price);
    }
  }

  lemma TakeLast(out: seq<seq<Topic>>, chunk: seq<Topic>, price: Price)
    requires Filling(out, chunk, price)
    ensures var all := if chunk == [] then out else out + [chunk];
      Flat(all) == Flat(out) + chunk && Greedy(all, price)
  {
    FlatAppend(out, chunk);
  }

  lemma NextPrefix(topics: seq<Topic>, i: nat)
    requires i < |topics|
    ensures topics[..i + 1] == topics[..i] + [topics[i]]
  {
  }

  lemma WholePrefix(topics: seq<Topic>)
    ensures topics[..|topics|] == topics
  {
  }

  // chunkTopicsForBatch
  method ChunkTopicsForBatch(topics: seq<Topic>) returns (out: seq<seq<Topic>>)
    ensures Flat(out) == topics && Greedy(out, PriceOf(map[]))
  {
    ghost var price := PriceOf(map[]);
    out := [];
    var chunk: seq<Topic> := [];
    var chunkBytes := ENVELOPE_BYTES;
    for i := 0 to |topics|
      invariant Flat(out) + chunk == topics[..i]
      invariant Filling(out, chunk, price)
      invariant chunkBytes == ENVELOPE_BYTES + Cost(chunk, price)
    {
      var t := topics[i];
      var entryBytes := TopicCost(t);
      TakeTopic(out, chunk, t, price);
      NextPrefix(topics, i);
      if |chunk| > 0 && (|chunk| >= MAX_TOPICS || chunkBytes + entryBytes > MAX_BYTES) {
        out := out + [chunk];
        chunk := [];
        chunkBytes := ENVELOPE_BYTES;
        assert chunk + [t] == [t];
      }
      chunk := chunk + [t];
      chunkBytes := chunkBytes + entryBytes;
    }
    WholePrefix(topics);
    TakeLast(out, chunk, price);
    if |chunk| > 0 { out := out + [chunk]; }
  }

  function TopicsOf(chunks: seq<Chunk>): (r: seq<seq<Topic>>)
    ensures |r| == |chunks|
  {
    if chunks == [] then [] else TopicsOf(chunks[..|chunks| - 1]) + [chunks[|chunks| - 1].topics]
  }

  lemma {:induction false} TopicsAt(chunks: seq<Chunk>, i: nat)
    requires i < |chunks|
    ensures TopicsOf(chunks)[i] == chunks[i].topics
  {
    if i < |chunks| - 1 { TopicsAt(chunks[..|chunks| - 1], i); }
  }

  predicate RecoversExactly(chunks: seq<Chunk>, tracked: map<Topic, Entry>) {
    chunks == []
    || (RecoversExactly(chunks[..|chunks| - 1], tracked)
        && chunks[|chunks| - 1].recover == RecoverOf(tracked, chunks[|chunks| - 1].topics))
  }

  /** Every chunk's recover map is exactly that of its own topics. */
  lemma {:induction false} RecoversAt(chunks: seq<Chunk>, i: nat, tracked: map<Topic, Entry>)
    requires i < |chunks| && RecoversExactly(chunks, tracked)
    ensures chunks[i].recover == RecoverOf(tracked, chunks[i].topics)
  {
    if i < |chunks| - 1 { RecoversAt(chunks[..|chunks| - 1], i, tracked); }
  }

  /** A chunk asks to recover just its own tracked topics, each from its offset and in its epoch if it has one. */
  ghost predicate RecoversFrom(chunk: Chunk, seqs: map<Topic, Numeral>, epochs: map<Topic, Numeral>) {
    && (chunk.recover.None? <==> forall t | t in chunk.topics :: t !in seqs)
    && (forall t :: t in AskedFrom(chunk.recover) <==> t in chunk.topics && t in seqs)
    && (forall t | t in AskedFrom(chunk.recover) ::
          && AskedFrom(chunk.recover)[t].offset == seqs[t]
          && (t in epochs ==> AskedFrom(chunk.recover)[t].epoch == Some(epochs[t]))
          && (t !in epochs ==> AskedFrom(chunk.recover)[t].epoch.None?))
  }

  lemma RecoversTracked(chunks: seq<Chunk>, i: nat, seqs: map<Topic, Numeral>, epochs: map<Topic, Numeral>)
    requires i < |chunks| && RecoversExactly(chunks, Tracked(seqs, epochs))
    ensures RecoversFrom(chunks[i], seqs, epochs)
  {
    var tracked := Tracked(seqs, epochs);
    RecoversAt(chunks, i, tracked);
    RecoverCovers(tracked, chunks[i].topics);
    var r := Restrict(tracked, chunks[i].topics);
    assert forall t :: t in r <==> t in chunks[i].topics && t in seqs;
    if t :| t in r { assert r != map[]; }
  }

  /**
   Each chunk has one to 200 topics, is within 8000 bytes unless it is one topic alone, and had no room for the
   topic that begins the next.
   */
  lemma {:induction false} ChunkBounds(chunks: seq<seq<Topic>>, i: nat, price: Price)
    requires i < |chunks| && Greedy(chunks, price)
    ensures 1 <= |chunks[i]| <= 200 && (|chunks[i]| == 1 || 50 + Cost(chunks[i], price) <= 8000)
    ensures i + 1 < |chunks| ==>
      chunks[i + 1] != [] && (|chunks[i]| == 200 || 50 + Cost(chunks[i], price) + price(chunks[i + 1][0]) > 8000)
  {
    FitsAt(chunks, i, price);
    if i + 1 < |chunks| { FitsAt(chunks, i + 1, price); }
    if i > 0 { ChunkBounds(chunks[1..], i - 1, price); }
  }

  lemma TopicsRegroup(a: seq<Topic>, b: seq<Topic>, c: seq<Topic>)
    ensures a + (b + c) == (a + b) + c
  {
  }

  /** Managed topics are dropped where they stand, and the others keep their order. */
  lemma {:induction false} UnmanagedJoins(a: seq<Topic>, b: seq<Topic>, managed: set<Topic>)
    ensures Unmanaged(a + b, managed) == Unmanaged(a, managed) + Unmanaged(b, managed)
    ensures forall t: Topic :: Unmanaged([t], managed) == if t in managed then [] else [t]
  {
    if a == [] {
      assert a + b == b;
    } else {
      UnmanagedJoins(a[1..], b, managed);
      assert (a + b)[1..] == a[1..] + b;
      TopicsRegroup(if a[0] in managed then [] else [a[0]], Unmanaged(a[1..], managed), Unmanaged(b, managed));
    }
    forall t: Topic ensures Unmanaged([t], managed) == if t in managed then [] else [t] { assert [t][1..] == []; }
  }

  lemma {:induction false} UnmanagedAppend(topics: seq<Topic>, t: Topic, managed: set<Topic>)
    ensures Unmanaged(topics + [t], managed) == Unmanaged(topics, managed) + if t in managed then [] else [t]
  {
    if topics == [] {
      assert (topics + [t])[1..] == [];
    } else {
      UnmanagedAppend(topics[1..], t, managed);
      assert (topics + [t])[1..] == topics[1..] + [t];
    }
  }

  lemma UnmanagedNext(topics: seq<Topic>, i: nat, managed: set<Topic>)
    requires i < |topics|
    ensures Unmanaged(topics[..i + 1], managed)
      == Unmanaged(topics[..i], managed) + if topics[i] in managed then [] else [topics[i]]
  {
    UnmanagedAppend(topics[..i], topics[i], managed);
    NextPrefix(topics, i);
  }

  lemma RecoverAppend(tracked: map<Topic, Entry>, topics: seq<Topic>, t: Topic)
    ensures RecoverOf(tracked, topics + [t]) == WithEntry(RecoverOf(tracked, topics), t, TrackedEntry(tracked, t))
  {
    assert (topics + [t])[..|topics|] == topics;
  }

  lemma ChunkAppend(out: seq<Chunk>, chunk: Chunk, tracked: map<Topic, Entry>)
    requires RecoversExactly(out, tracked) && chunk.recover == RecoverOf(tracked, chunk.topics)
    ensures TopicsOf(out + [chunk]) == TopicsOf(out) + [chunk.topics] && RecoversExactly(out + [chunk], tracked)
  {
    assert (out + [chunk])[..|out|] == out;
  }

  // entry: null, or what the recover map asks for the topic
  function EntryFor(t: Topic, seqs: map<Topic, Numeral>, epochs: map<Topic, Numeral>): Option<Entry> {
    if t !in seqs then None else Some(Entry(seqs[t], if t in epochs then Some(epochs[t]) else None))
  }

  ghost predicate Tracks(tracked: map<Topic, Entry>, seqs: map<Topic, Numeral>, epochs: map<Topic, Numeral>) {
    forall t: Topic :: EntryFor(t, seqs, epochs) == TrackedEntry(tracked, t)
  }

  ghost predicate Prices(price: Price, tracked: map<Topic, Entry>) {
    forall t: Topic {:trigger EntryCost(t, tracked)} :: price(t) == EntryCost(t, tracked)
  }

  // The chunks done, the one being filled with its recover map, and together the topics taken so far.
  ghost predicate Sorted(out: seq<Chunk>, chunk: seq<Topic>, recover: Option<map<Topic, Entry>>, taken: seq<Topic>,
                         tracked: map<Topic, Entry>, price: Price) {
    && Flat(TopicsOf(out)) + chunk == taken
    && Filling(TopicsOf(out), chunk, price)
    && RecoversExactly(out, tracked)
    && recover == RecoverOf(tracked, chunk)
  }

  lemma SortTopic(out: seq<Chunk>, chunk: seq<Topic>, recover: Option<map<Topic, Entry>>, taken: seq<Topic>, t: Topic,
                  tracked: map<Topic, Entry>, price: Price)
    requires Sorted(out, chunk, recover, taken, tracked, price)
    ensures chunk != [] && Full(chunk, t, price) ==>
      && Sorted(out + [Chunk(chunk, recover)], [t], WithEntry(None, t, TrackedEntry(tracked, t)), taken + [t],
        tracked, price)
      && Cost([t], price) == price(t)
    ensures chunk == [] || !Full(chunk, t, price) ==>
      && Sorted(out, chunk + [t], WithEntry(recover, t, TrackedEntry(tracked, t)), taken + [t], tracked, price)
      && Cost(chunk + [t], price) == Cost(chunk, price) + price(t)
  {
    TakeTopic(TopicsOf(out), chunk, t, price);
    if chunk != [] && Full(chunk, t, price) {
      ChunkAppend(out, Chunk(chunk, recover), tracked);
      assert RecoverOf(tracked, []) == None;
      RecoverAppend(tracked, [], t);
      assert [] + [t] == [t];
    } else {
      RecoverAppend(tracked, chunk, t);
    }
  }

  lemma SortLast(out: seq<Chunk>, chunk: seq<Topic>, recover: Option<map<Topic, Entry>>, taken: seq<Topic>,
                 tracked: map<Topic, Entry>, price: Price)
    requires Sorted(out, chunk, recover, taken, tracked, price)
    ensures
      var all := if chunk == [] then out else out + [Chunk(chunk, recover)];
      Flat(TopicsOf(all)) == taken && Greedy(TopicsOf(all), price) && RecoversExactly(all, tracked)
  {
    TakeLast(TopicsOf(out), chunk, price);
    if chunk != [] { ChunkAppend(out, Chunk(chunk, recover), tracked); }
  }

  // entry and entryBytes of one topic
  method CountEntry(t: Topic, seqs: map<Topic, Numeral>, epochs: map<Topic, Numeral>, ghost tracked: map<Topic, Entry>,
                    ghost price: Price) returns (entry: Option<Entry>, entryBytes: nat)
    requires Tracks(tracked, seqs, epochs) && Prices(price, tracked)
    ensures entry == TrackedEntry(tracked, t) && entryBytes == price(t)
  {
    entry, entryBytes := None, TopicCost(t);
    if t in seqs {
      entry := Some(Entry(seqs[t], if t in epochs then Some(epochs[t]) else None));
      entryBytes := entryBytes + RecoverCost(t, entry.value);
    }
    assert entry == EntryFor(t, seqs, epochs) && entryBytes == EntryCost(t, tracked);
  }

  // chunkResubscribe
  method ChunkResubscribe(topics: seq<Topic>, managed: set<Topic>, seqs: map<Topic, Numeral>,
                          epochs: map<Topic, Numeral>)
    returns (out: seq<Chunk>)
    ensures Flat(TopicsOf(out)) == Unmanaged(topics, managed)
    ensures Greedy(TopicsOf(out), PriceOf(Tracked(seqs, epochs)))
    ensures RecoversExactly(out, Tracked(seqs, epochs))
  {
    ghost var tracked := Tracked(seqs, epochs);
    ghost var c := CutAll(topics, managed, tracked, PriceOf(tracked));
    CutIsSorted(topics, managed, tracked, PriceOf(tracked));
    SortLast(c.out, c.chunk, c.recover, Unmanaged(topics, managed), tracked, PriceOf(tracked));
    out := CutChunks(topics, managed, seqs, epochs, tracked, PriceOf(tracked));
  }

  /** The chunks done, the chunk being filled with its recover map, and the bytes counted for it. */
  datatype Cut = Cut(out: seq<Chunk>, chunk: seq<Topic>, recover: Option<map<Topic, Entry>>, bytes: nat)

  // One topic more.
  function CutTopic(c: Cut, t: Topic, entry: Option<Entry>, entryBytes: nat): Cut {
    var d := if c.chunk != [] && (|c.chunk| >= MAX_TOPICS || c.bytes + entryBytes > MAX_BYTES)
             then Cut(c.out + [Chunk(c.chunk, c.recover)], [], None, ENVELOPE_BYTES) else c;
    Cut(d.out, d.chunk + [t], WithEntry(d.recover, t, entry), d.bytes + entryBytes)
  }

  function CutAll(topics: seq<Topic>, managed: set<Topic>, tracked: map<Topic, Entry>, price: Price): Cut {
    if topics == [] then Cut([], [], None, ENVELOPE_BYTES)
    else
      var c, t := CutAll(topics[..|topics| - 1], managed, tracked, price), topics[|topics| - 1];
      if t in managed then c else CutTopic(c, t, TrackedEntry(tracked, t), price(t))
  }

  lemma CutNext(topics: seq<Topic>, i: nat, managed: set<Topic>, tracked: map<Topic, Entry>, price: Price)
    requires i < |topics|
    ensures
      var c, t := CutAll(topics[..i], managed, tracked, price), topics[i];
      CutAll(topics[..i + 1], managed, tracked, price)
        == if t in managed then c else CutTopic(c, t, TrackedEntry(tracked, t), price(t))
  {
    assert topics[..i + 1][..i] == topics[..i];
  }

  /** What the cut of a list is: its unmanaged topics in order, greedily, each chunk with its own recover map. */
  lemma {:induction false} CutIsSorted(topics: seq<Topic>, managed: set<Topic>, tracked: map<Topic, Entry>,
                                       price: Price)
    ensures
      var c := CutAll(topics, managed, tracked, price);
      && Sorted(c.out, c.chunk, c.recover, Unmanaged(topics, managed), tracked, price)
      && c.bytes == ENVELOPE_BYTES + Cost(c.chunk, price)
  {
    if topics != [] {
      var n := |topics| - 1;
      var c := CutAll(topics[..n], managed, tracked, price);
      CutIsSorted(topics[..n], managed, tracked, price);
      WholePrefix(topics);
      UnmanagedNext(topics, n, managed);
      if topics[n] !in managed {
        SortTopic(c.out, c.chunk, c.recover, Unmanaged(topics[..n], managed), topics[n], tracked, price);
        assert [] + [topics[n]] == [topics[n]];
      }
    }
  }

  method CutChunks(topics: seq<Topic>, managed: set<Topic>, seqs: map<Topic, Numeral>, epochs: map<Topic, Numeral>,
                   ghost tracked: map<Topic, Entry>, ghost price: Price) returns (out: seq<Chunk>)
    requires Tracks(tracked, seqs, epochs) && Prices(price, tracked)
    ensures
      var c := CutAll(topics, managed, tracked, price);
      out == if c.chunk == [] then c.out else c.out + [Chunk(c.chunk, c.recover)]
  {
    out := [];
    var chunk: seq<Topic> := [];
    var recover: Option<map<Topic, Entry>> := None;
    var chunkBytes: nat := ENVELOPE_BYTES;
    for i := 0 to |topics|
      invariant Cut(out, chunk, recover, chunkBytes) == CutAll(topics[..i], managed, tracked, price)
    {
      var t := topics[i];
      CutNext(topics, i, managed, tracked, price);
      if t in managed { continue; }
      var entry, entryBytes := CountEntry(t, seqs, epochs, tracked, price);
      if |chunk| > 0 && (|chunk| >= MAX_TOPICS || chunkBytes + entryBytes > MAX_BYTES) {
        out := out + [Chunk(chunk, recover)];
        chunk := [];
        recover := None;
        chunkBytes := ENVELOPE_BYTES;
      }
      chunk := chunk + [t];
      recover := WithEntry(recover, t, entry);
      chunkBytes := chunkBytes + entryBytes;
    }
    WholePrefix(topics);
    if |chunk| > 0 { out := out + [Chunk(chunk, recover)]; }
  }
}
