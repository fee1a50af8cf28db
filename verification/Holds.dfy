/**
 Who holds which topic (src/client.js), as values: store keys, wrappers and their listeners, and the aspects of
 the books that every step keeps.
 */
module Holds {
  import opened Options
  import opened Text

  type Topic = Text

  const NUL: Unit := 0

  /** A key of topicStores or of eventStores; the two maps are kept as one over tagged keys. */
  datatype Place = TopicPlace(topic: Topic) | EventPlace(key: Text)

  /**
   What onTopic (no event) or onEvent closes over. `era` is history: how often the topic's last hold had been
   dropped when the wrapper took its store for a first listener.
   */
  datatype Wrapper = Wrapper(topic: Topic, event: Option<Text>, subs: int, store: nat, era: Option<nat>)

  /**
   The function one wrappedSubscribe call returned: the wrapper it closes over and the store its listener
   subscribed on. That store's era and how often the function was called nothing in the code records.
   */
  datatype Listener = Listener(wrapper: nat, store: nat, era: nat, calls: nat)

  /** The microtask that takes back a store nobody listened to. */
  datatype Cleanup = Cleanup(wrapper: nat, store: nat)

  type Stores = map<Place, nat>
  type Counts = map<Topic, nat>
  type Wrappers = seq<Wrapper>
  type Listeners = seq<Listener>
  type Cleanups = seq<Cleanup>

  function EraOf(w: Wrapper): nat { if w.era.Some? then w.era.value else 0 }

  predicate NulFree(s: Text) { NUL !in s }

  function Key(topic: Topic, event: Text): Text { topic + [NUL] + event }

  function PlaceFor(topic: Topic, event: Option<Text>): Place {
    if event.None? then TopicPlace(topic) else EventPlace(Key(topic, event.value))
  }

  function PlaceOf(w: Wrapper): Place { PlaceFor(w.topic, w.event) }

  // What doUnsubscribe(topic) deletes: the topic's own store and every key that starts with it and a NUL.
  predicate Owns(topic: Topic, place: Place) {
    match place
    case TopicPlace(t) => t == topic
    case EventPlace(key) => topic + [NUL] <= key
  }

  function Count(counts: Counts, topic: Topic): nat {
    if topic in counts then counts[topic] else 0
  }

  // ---- keys ---------------------------------------------------------------------------------------

  /** Neither topic is the other followed by a NUL and more. */
  predicate Apart(a: Topic, b: Topic) {
    !(a + [NUL] <= b) && !(b + [NUL] <= a)
  }

  predicate Clear(a: Topic, b: Topic) { a == b || Apart(a, b) }

  /** Releasing one topic can delete the store of another's event exactly when one extends the other past a NUL. */
  lemma OwnsExactly(released: Topic, topic: Topic)
    ensures (exists e: Text :: Owns(released, PlaceFor(topic, Some(e))))
      <==> released == topic || released + [NUL] <= topic || topic + [NUL] <= released
  {
    if e: Text :| Owns(released, PlaceFor(topic, Some(e))) {
      PrefixesMeet(released, topic, e);
    }
    if released == topic || released + [NUL] <= topic {
      assert Key(topic, []) == topic + [NUL];
      assert Owns(released, PlaceFor(topic, Some([])));
    } else if topic + [NUL] <= released {
      var rest := released[|topic| + 1..] + [NUL];
      assert Key(topic, rest) == released + [NUL];
      assert Owns(released, PlaceFor(topic, Some(rest)));
    }
  }

  lemma PrefixesMeet(released: Topic, topic: Topic, event: Text)
    requires released + [NUL] <= Key(topic, event)
    ensures released == topic || released + [NUL] <= topic || topic + [NUL] <= released
  {
    var key := Key(topic, event);
    assert topic + [NUL] <= key;
    assert released == key[..|released|] && topic == key[..|topic|];
    if |released| < |topic| {
      assert released + [NUL] == key[..|released| + 1];
    } else if |topic| < |released| {
      assert topic + [NUL] == key[..|topic| + 1];
    }
  }

  /** So a release deletes just its own topic's places, whatever the events, exactly when the two are clear. */
  lemma ReleasesItsOwn(released: Topic, topic: Topic)
    ensures Clear(released, topic)
      <==> forall event: Option<Text> :: Owns(released, PlaceFor(topic, event)) <==> released == topic
  {
    OwnsExactly(released, topic);
    if Clear(released, topic) {
      forall event: Option<Text> ensures Owns(released, PlaceFor(topic, event)) <==> released == topic {
        OwnsItsOwn(released, topic, event);
      }
    } else {
      var e: Text :| Owns(released, PlaceFor(topic, Some(e)));
      assert Owns(released, PlaceFor(topic, Some(e)));
    }
  }

  lemma OwnsItsOwn(released: Topic, topic: Topic, event: Option<Text>)
    requires Clear(released, topic)
    ensures Owns(released, PlaceFor(topic, event)) <==> released == topic
  {
    OwnsExactly(released, topic);
    if event.Some? && Owns(released, PlaceFor(topic, event)) {
      PrefixesMeet(released, topic, event.value);
    }
  }

  /** Topics without a NUL are always clear of each other. */
  lemma NulFreeIsClear(a: Topic, b: Topic)
    requires NulFree(a) && NulFree(b)
    ensures Clear(a, b)
  {
    StartsWithNul(a, b);
    StartsWithNul(b, a);
  }

  lemma StartsWithNul(a: Topic, b: Topic)
    ensures a + [NUL] <= b ==> NUL in b
  {
    if a + [NUL] <= b { assert b[|a|] == NUL; }
  }

  /** With a NUL in a topic the keys of two topics can meet, and releasing one takes the other's store. */
  lemma NulTopicsClash()
    ensures
      var a, b: Text, c: Text := A("a"), A("b"), A("c");
      var nulTopic := a + [NUL] + b;
      && !NulFree(nulTopic) && a != nulTopic
      && Key(nulTopic, c) == Key(a, b + [NUL] + c)
      && Owns(a, PlaceFor(nulTopic, Some(c)))
  {
    var a, b: Text, c: Text := A("a"), A("b"), A("c");
    var nulTopic := a + [NUL] + b;
    assert nulTopic[1] == NUL;
    assert nulTopic + [NUL] + c == a + [NUL] + (b + [NUL] + c);
    assert |nulTopic| == 3;
  }

  // ---- counting listeners ---------------------------------------------------------------------------

  function LiveIn(w: Wrapper, topic: Topic): nat {
    if w.topic == topic && w.subs > 0 then 1 else 0
  }

  /** The wrappers of a topic with a live listener. */
  function Live(ws: Wrappers, topic: Topic): nat {
    if ws == [] then 0 else Live(ws[..|ws| - 1], topic) + LiveIn(ws[|ws| - 1], topic)
  }

  lemma {:induction false} LiveUpdate(ws: Wrappers, i: nat, w: Wrapper, topic: Topic)
    requires i < |ws|
    ensures Live(ws[i := w], topic) == Live(ws, topic) - LiveIn(ws[i], topic) + LiveIn(w, topic)
    ensures Live(ws, topic) >= LiveIn(ws[i], topic)
  {
    var n := |ws| - 1;
    if i == n {
      assert ws[i := w][..n] == ws[..n];
    } else {
      LiveUpdate(ws[..n], i, w, topic);
      assert ws[i := w][..n] == ws[..n][i := w];
    }
  }

  // What is left of a wrapper's count: one up for each listener, one down for each call.
  function Subs(ls: Listeners, w: nat): int {
    if ls == [] then 0
    else
      var last := ls[|ls| - 1];
      Subs(ls[..|ls| - 1], w) + if last.wrapper == w then 1 - last.calls else 0
  }

  /** The listeners of a wrapper whose returned function was not called. */
  function LiveListeners(ls: Listeners, w: nat): nat {
    if ls == [] then 0
    else
      var last := ls[|ls| - 1];
      LiveListeners(ls[..|ls| - 1], w) + if last.wrapper == w && last.calls == 0 then 1 else 0
  }

  /** The calls of a wrapper's returned functions past the first of each. */
  function Surplus(ls: Listeners, w: nat): nat {
    if ls == [] then 0
    else
      var last := ls[|ls| - 1];
      Surplus(ls[..|ls| - 1], w) + if last.wrapper == w && last.calls > 1 then last.calls - 1 else 0
  }

  /** A wrapper's count is its live listeners less the surplus calls: right exactly when nothing was called twice. */
  lemma {:induction false} SubsCountLive(ls: Listeners, w: nat)
    ensures Subs(ls, w) == LiveListeners(ls, w) - Surplus(ls, w)
    ensures Surplus(ls, w) == 0 <==> forall i | 0 <= i < |ls| && ls[i].wrapper == w :: ls[i].calls <= 1
    ensures LiveListeners(ls, w) == 0 <==> forall i | 0 <= i < |ls| && ls[i].wrapper == w :: ls[i].calls > 0
  {
    if ls != [] {
      var n := |ls| - 1;
      SubsCountLive(ls[..n], w);
      assert forall i | 0 <= i < n :: ls[..n][i] == ls[i];
    }
  }

  lemma {:induction false} SubsCalled(ls: Listeners, i: nat, w: nat)
    requires i < |ls|
    ensures Subs(ls[i := ls[i].(calls := ls[i].calls + 1)], w) == Subs(ls, w) - if ls[i].wrapper == w then 1 else 0
  {
    var n, after := |ls| - 1, ls[i := ls[i].(calls := ls[i].calls + 1)];
    if i == n {
      assert after[..n] == ls[..n];
    } else {
      SubsCalled(ls[..n], i, w);
      assert after[..n] == ls[..n][i := ls[i].(calls := ls[i].calls + 1)];
    }
  }

  lemma SubsMore(ls: Listeners, l: Listener, w: nat)
    ensures Subs(ls + [l], w) == Subs(ls, w) + if l.wrapper == w then 1 - l.calls else 0
  {
    assert (ls + [l])[..|ls|] == ls;
  }

  // The wrapper never had a listener.
  predicate Unheard(ls: Listeners, w: nat) {
    forall i | 0 <= i < |ls| :: ls[i].wrapper != w
  }

  lemma {:induction false} NoListeners(ls: Listeners, w: nat)
    requires Unheard(ls, w)
    ensures Subs(ls, w) == 0
  {
    if ls != [] {
      assert forall i | 0 <= i < |ls| - 1 :: ls[..|ls| - 1][i] == ls[i];
      NoListeners(ls[..|ls| - 1], w);
    }
  }

  /** Each wrapper counts its own listeners. */
  predicate Tallied(ws: Wrappers, ls: Listeners) {
    && (forall i | 0 <= i < |ws| :: ws[i].subs == Subs(ls, i))
    && (forall i | 0 <= i < |ls| :: ls[i].wrapper < |ws|)
  }

  /** The wrappers of a topic somebody listens to. */
  function Listened(ws: Wrappers, ls: Listeners, topic: Topic): nat {
    if ws == [] then 0
    else
      var n := |ws| - 1;
      Listened(ws[..n], ls, topic) + if ws[n].topic == topic && LiveListeners(ls, n) > 0 then 1 else 0
  }

  // The wrapper's live listeners are more than its surplus calls.
  predicate Outlasts(ls: Listeners, w: nat) {
    LiveListeners(ls, w) > 0 ==> Surplus(ls, w) < LiveListeners(ls, w)
  }

  lemma {:induction false} ListenedAtLeast(ws: Wrappers, ls: Listeners, topic: Topic)
    requires forall i | 0 <= i < |ws| :: ws[i].subs == Subs(ls, i)
    ensures Live(ws, topic) <= Listened(ws, ls, topic)
    ensures Live(ws, topic) == Listened(ws, ls, topic)
      <==> forall i | 0 <= i < |ws| && ws[i].topic == topic :: Outlasts(ls, i)
  {
    if ws != [] {
      var n := |ws| - 1;
      assert forall i | 0 <= i < n :: ws[..n][i] == ws[i];
      ListenedAtLeast(ws[..n], ls, topic);
      SubsCountLive(ls, n);
    }
  }

  // ---- the invariant, one aspect at a time --------------------------------------------------------------

  /** A topic's count is its direct subscribes and its wrappers with a live listener. */
  ghost predicate Counted(counts: Counts, direct: Counts, ws: Wrappers) {
    && (forall t | t in counts :: counts[t] > 0)
    && (forall t: Topic {:trigger Count(counts, t)} :: Count(counts, t) == Count(direct, t) + Live(ws, t))
  }

  /** A live wrapper's store is the one dispatch looks up. */
  predicate Dispatched(stores: Stores, ws: Wrappers) {
    forall i | 0 <= i < |ws| && ws[i].subs > 0 :: PlaceOf(ws[i]) in stores && stores[PlaceOf(ws[i])] == ws[i].store
  }

  predicate ClearOf(topic: Topic, ws: Wrappers) {
    forall i | 0 <= i < |ws| :: Clear(topic, ws[i].topic)
  }

  /** No topic in use extends another past a NUL. */
  predicate Separate(ws: Wrappers) {
    forall i | 0 <= i < |ws| :: ClearOf(ws[i].topic, ws)
  }

  lemma SeparateMore(ws: Wrappers, w: Wrapper)
    requires Separate(ws) && ClearOf(w.topic, ws)
    ensures Separate(ws + [w])
  {
    var more := ws + [w];
    forall i, j | 0 <= i < |more| && 0 <= j < |more| ensures Clear(more[i].topic, more[j].topic) {
      if i < |ws| && j < |ws| { assert ClearOf(ws[i].topic, ws); }
    }
  }

  lemma SeparateUpdate(ws: Wrappers, i: nat, w: Wrapper)
    requires Separate(ws) && i < |ws| && w.topic == ws[i].topic
    ensures Separate(ws[i := w])
  {
    var next := ws[i := w];
    forall j, k | 0 <= j < |next| && 0 <= k < |next| ensures Clear(next[j].topic, next[k].topic) {
      assert ClearOf(ws[j].topic, ws);
      assert next[j].topic == ws[j].topic && next[k].topic == ws[k].topic;
    }
  }

  // A clean-up for this very store at this place is still to run.
  predicate Awaited(place: Place, store: nat, cleanups: Cleanups, ws: Wrappers) {
    exists i :: 0 <= i < |cleanups| && IsFor(cleanups[i], place, store, ws)
  }

  predicate IsFor(c: Cleanup, place: Place, store: nat, ws: Wrappers) {
    c.wrapper < |ws| && PlaceOf(ws[c.wrapper]) == place && c.store == store
  }

  ghost predicate Held(place: Place, counts: Counts) {
    exists t :: t in counts && Owns(t, place)
  }

  /** No store outlives its use: it belongs to a held topic, or its clean-up is still to run. */
  ghost predicate Accounted(stores: Stores, counts: Counts, cleanups: Cleanups, ws: Wrappers) {
    forall p | p in stores :: Held(p, counts) || Awaited(p, stores[p], cleanups, ws)
  }

  lemma CountedAdd(counts: Counts, direct: Counts, ws: Wrappers, topic: Topic)
    requires Counted(counts, direct, ws)
    ensures Counted(counts[topic := Count(counts, topic) + 1], direct[topic := Count(direct, topic) + 1], ws)
  {
    var more, moreDirect := counts[topic := Count(counts, topic) + 1], direct[topic := Count(direct, topic) + 1];
    forall t: Topic ensures Count(more, t) == Count(moreDirect, t) + Live(ws, t) {
      assert Count(counts, t) == Count(direct, t) + Live(ws, t);
    }
  }

  function Less(counts: Counts, topic: Topic): Counts {
    if Count(counts, topic) <= 1 then counts - {topic} else counts[topic := counts[topic] - 1]
  }

  lemma LessCounts(counts: Counts, topic: Topic, t: Topic)
    ensures Count(counts, topic) > 0 ==>
      Count(Less(counts, topic), t) == Count(counts, t) - (if t == topic then 1 else 0)
    ensures (forall u | u in counts :: counts[u] > 0)
      ==> forall u | u in Less(counts, topic) :: Less(counts, topic)[u] > 0
  {
  }

  lemma CountedLess(counts: Counts, direct: Counts, ws: Wrappers, topic: Topic)
    requires Counted(counts, direct, ws) && Count(direct, topic) > 0
    ensures Counted(Less(counts, topic), Less(direct, topic), ws)
  {
    assert Count(counts, topic) == Count(direct, topic) + Live(ws, topic);
    LessCounts(counts, topic, topic);
    forall t: Topic ensures Count(Less(counts, topic), t) == Count(Less(direct, topic), t) + Live(ws, t) {
      LessCounts(counts, topic, t);
      LessCounts(direct, topic, t);
      assert Count(counts, t) == Count(direct, t) + Live(ws, t);
    }
  }

  // A wrapper's first listener arrives, or another one: the wrapper before and after.
  lemma CountedListen(counts: Counts, direct: Counts, ws: Wrappers, i: nat, w: Wrapper)
    requires Counted(counts, direct, ws) && i < |ws| && w.topic == ws[i].topic && w.subs == ws[i].subs + 1
    ensures
      var topic := w.topic;
      var more := if ws[i].subs == 0 then counts[topic := Count(counts, topic) + 1] else counts;
      Counted(more, direct, ws[i := w])
  {
    var topic := w.topic;
    var more := if ws[i].subs == 0 then counts[topic := Count(counts, topic) + 1] else counts;
    forall t: Topic ensures Count(more, t) == Count(direct, t) + Live(ws[i := w], t) {
      LiveUpdate(ws, i, w, t);
      assert Count(counts, t) == Count(direct, t) + Live(ws, t);
    }
  }

  lemma CountedUnlisten(counts: Counts, direct: Counts, ws: Wrappers, i: nat)
    requires Counted(counts, direct, ws) && i < |ws|
    ensures
      var w := ws[i].(subs := ws[i].subs - 1);
      Counted(if w.subs == 0 then Less(counts, w.topic) else counts, direct, ws[i := w])
  {
    var topic, w := ws[i].topic, ws[i].(subs := ws[i].subs - 1);
    assert Count(counts, topic) == Count(direct, topic) + Live(ws, topic);
    LiveUpdate(ws, i, w, topic);
    LessCounts(counts, topic, topic);
    var fewer := if w.subs == 0 then Less(counts, topic) else counts;
    forall t: Topic ensures Count(fewer, t) == Count(direct, t) + Live(ws[i := w], t) {
      if w.subs == 0 { LessCounts(counts, topic, t); }
      LiveUpdate(ws, i, w, t);
      assert Count(counts, t) == Count(direct, t) + Live(ws, t);
    }
    assert forall t | t in fewer :: fewer[t] > 0;
    assert Counted(fewer, direct, ws[i := w]);
  }

  lemma CountedMore(counts: Counts, direct: Counts, ws: Wrappers, w: Wrapper)
    requires Counted(counts, direct, ws) && w.subs == 0
    ensures Counted(counts, direct, ws + [w])
  {
    assert (ws + [w])[..|ws|] == ws;
    forall t: Topic ensures Count(counts, t) == Count(direct, t) + Live(ws + [w], t) {
      assert Count(counts, t) == Count(direct, t) + Live(ws, t);
    }
  }

  // A wrapper with a live listener keeps its topic counted.
  lemma LiveIsCounted(counts: Counts, direct: Counts, ws: Wrappers, i: nat)
    requires Counted(counts, direct, ws) && i < |ws|
    ensures ws[i].subs > 0 ==> ws[i].topic in counts
  {
    var t := ws[i].topic;
    assert Count(counts, t) == Count(direct, t) + Live(ws, t);
    LiveUpdate(ws, i, ws[i], t);
  }

  /** Once a topic has gone no wrapper of it has a listener, so the stores it takes along were in nobody's use. */
  lemma DispatchedWithout(stores: Stores, counts: Counts, direct: Counts, ws: Wrappers, topic: Topic)
    requires Dispatched(stores, ws) && Counted(counts, direct, ws) && topic !in counts
    requires Separate(ws) && ClearOf(topic, ws)
    ensures Dispatched(Without(stores, topic), ws)
  {
    forall i | 0 <= i < |ws| && ws[i].subs > 0
      ensures PlaceOf(ws[i]) in Without(stores, topic) && stores[PlaceOf(ws[i])] == ws[i].store
    {
      LiveIsCounted(counts, direct, ws, i);
      OwnsItsOwn(topic, ws[i].topic, ws[i].event);
    }
  }

  // The stores after one hold on topic was dropped.
  function Left(stores: Stores, counts: Counts, topic: Topic): Stores {
    if Count(counts, topic) <= 1 then Without(stores, topic) else stores
  }

  function Without(stores: Stores, topic: Topic): (r: Stores)
    ensures forall p | p in r :: !Owns(topic, p)
  {
    map p | p in stores && !Owns(topic, p) :: stores[p]
  }

  lemma SamePlaces(place: Place, store: nat, cleanups: Cleanups, ws: Wrappers, moreCleanups: Cleanups, moreWs: Wrappers)
    requires Awaited(place, store, cleanups, ws) && |ws| <= |moreWs| && cleanups <= moreCleanups
    requires forall i | 0 <= i < |ws| :: PlaceOf(moreWs[i]) == PlaceOf(ws[i])
    ensures Awaited(place, store, moreCleanups, moreWs)
  {
    var i :| 0 <= i < |cleanups| && IsFor(cleanups[i], place, store, ws);
    assert IsFor(moreCleanups[i], place, store, moreWs);
  }

  /** Stores are kept or added at held places, topics stay held: everything is still accounted for. */
  lemma AccountedGrows(stores: Stores, counts: Counts, cleanups: Cleanups, ws: Wrappers,
                       stores': Stores, counts': Counts, cleanups': Cleanups, ws': Wrappers)
    requires Accounted(stores, counts, cleanups, ws)
    requires |ws| <= |ws'| && (forall i | 0 <= i < |ws| :: PlaceOf(ws'[i]) == PlaceOf(ws[i])) && cleanups <= cleanups'
    requires forall p | p in stores' ::
      || (p in stores && stores[p] == stores'[p] && (Held(p, counts) ==> Held(p, counts')))
      || Held(p, counts') || Awaited(p, stores'[p], cleanups', ws')
    ensures Accounted(stores', counts', cleanups', ws')
  {
    forall p | p in stores' ensures Held(p, counts') || Awaited(p, stores'[p], cleanups', ws') {
      if p in stores && stores[p] == stores'[p] && Awaited(p, stores[p], cleanups, ws) {
        SamePlaces(p, stores[p], cleanups, ws, cleanups', ws');
      }
    }
  }

  lemma HeldGrows(counts: Counts, topic: Topic)
    ensures forall p | Held(p, counts) :: Held(p, counts[topic := Count(counts, topic) + 1])
  {
    forall p | Held(p, counts) ensures Held(p, counts[topic := Count(counts, topic) + 1]) {
      var t :| t in counts && Owns(t, p);
      assert t in counts[topic := Count(counts, topic) + 1];
    }
  }

  lemma HeldBy(topic: Topic, event: Option<Text>, counts: Counts)
    requires topic in counts
    ensures Held(PlaceFor(topic, event), counts)
  {
    assert Owns(topic, PlaceFor(topic, event));
  }

  lemma StillHeld(place: Place, counts: Counts, topic: Topic)
    requires Held(place, counts) && (topic in Less(counts, topic) || !Owns(topic, place))
    ensures Held(place, Less(counts, topic))
  {
    var t :| t in counts && Owns(t, place);
    assert t in Less(counts, topic);
  }

  ghost predicate AllBalanced(stores: Stores, counts: Counts, direct: Counts,
                              ws: Wrappers, cleanups: Cleanups) {
    Counted(counts, direct, ws) && Dispatched(stores, ws) && Separate(ws) && Accounted(stores, counts, cleanups, ws)
  }

  lemma NothingIsBalanced()
    ensures AllBalanced(map[], map[], map[], [], [])
  {
    forall t: Topic ensures Count(map[], t) == Count(map[], t) + Live([], t) {}
  }

  // After a wrapper's first listener arrived, and after another one.
  lemma ListenKeeps(stores: Stores, counts: Counts, direct: Counts, ws: Wrappers,
                    cleanups: Cleanups, i: nat, me: Wrapper)
    requires AllBalanced(stores, counts, direct, ws, cleanups) && i < |ws| && ws[i].subs == 0
    requires me.topic == ws[i].topic && me.event == ws[i].event && me.subs == 1
    requires PlaceOf(me) in stores ==> me.store == stores[PlaceOf(me)]
    ensures AllBalanced(stores[PlaceOf(me) := me.store], counts[me.topic := Count(counts, me.topic) + 1], direct,
              ws[i := me], cleanups)
  {
    CountedListen(counts, direct, ws, i, me);
    SeparateUpdate(ws, i, me);
    AccountedListen(stores, counts, cleanups, ws, i, me);
  }

  lemma AccountedListen(stores: Stores, counts: Counts, cleanups: Cleanups, ws: Wrappers, i: nat, me: Wrapper)
    requires Accounted(stores, counts, cleanups, ws) && i < |ws| && me.topic == ws[i].topic && me.event == ws[i].event
    ensures Accounted(stores[PlaceOf(me) := me.store], counts[me.topic := Count(counts, me.topic) + 1], cleanups,
      ws[i := me])
  {
    var counts', stores' := counts[me.topic := Count(counts, me.topic) + 1], stores[PlaceOf(me) := me.store];
    HeldBy(me.topic, me.event, counts');
    HeldGrows(counts, me.topic);
    AccountedGrows(stores, counts, cleanups, ws, stores', counts', cleanups, ws[i := me]);
  }

  lemma JoinKeeps(stores: Stores, counts: Counts, direct: Counts, ws: Wrappers,
                  cleanups: Cleanups, i: nat)
    requires AllBalanced(stores, counts, direct, ws, cleanups) && i < |ws| && ws[i].subs != 0
    ensures AllBalanced(stores, counts, direct, ws[i := ws[i].(subs := ws[i].subs + 1)], cleanups)
  {
    var me := ws[i].(subs := ws[i].subs + 1);
    CountedListen(counts, direct, ws, i, me);
    SeparateUpdate(ws, i, me);
    AccountedGrows(stores, counts, cleanups, ws, stores, counts, cleanups, ws[i := me]);
  }

  lemma TalliedListen(ws: Wrappers, ls: Listeners, w: nat, me: Wrapper, l: Listener)
    requires Tallied(ws, ls) && w < |ws| && me.subs == ws[w].subs + 1 && l.wrapper == w && l.calls == 0
    ensures Tallied(ws[w := me], ls + [l])
  {
    forall i | 0 <= i < |ws| ensures ws[w := me][i].subs == Subs(ls + [l], i) {
      SubsMore(ls, l, i);
    }
  }

  lemma TalliedUnlisten(ws: Wrappers, ls: Listeners, l: nat)
    requires Tallied(ws, ls) && l < |ls|
    ensures
      var w := ls[l].wrapper;
      Tallied(ws[w := ws[w].(subs := ws[w].subs - 1)], ls[l := ls[l].(calls := ls[l].calls + 1)])
  {
    var w := ls[l].wrapper;
    var ws', ls' := ws[w := ws[w].(subs := ws[w].subs - 1)], ls[l := ls[l].(calls := ls[l].calls + 1)];
    forall i | 0 <= i < |ws| ensures ws'[i].subs == Subs(ls', i)
    {
      SubsCalled(ls, l, i);
    }
  }

  // After a hold was dropped, whoever held it.
  lemma DropKeeps(stores: Stores, counts: Counts, direct: Counts, ws: Wrappers,
                  cleanups: Cleanups, topic: Topic)
    requires Dispatched(stores, ws) && Separate(ws) && Accounted(stores, counts, cleanups, ws) && ClearOf(topic, ws)
    requires Counted(Less(counts, topic), direct, ws)
    ensures AllBalanced(Left(stores, counts, topic), Less(counts, topic), direct, ws, cleanups)
  {
    var counts', stores' := Less(counts, topic), Left(stores, counts, topic);
    if topic !in counts' { DispatchedWithout(stores, counts', direct, ws, topic); }
    forall p | p in stores' && Held(p, counts) ensures Held(p, counts') { StillHeld(p, counts, topic); }
    AccountedGrows(stores, counts, cleanups, ws, stores', counts', cleanups, ws);
  }

  // After one of a wrapper's listeners left.
  lemma UnlistenKeeps(stores: Stores, counts: Counts, direct: Counts, ws: Wrappers,
                      cleanups: Cleanups, i: nat)
    requires AllBalanced(stores, counts, direct, ws, cleanups) && i < |ws|
    ensures
      var me := ws[i].(subs := ws[i].subs - 1);
      if me.subs == 0
      then AllBalanced(Left(stores, counts, me.topic), Less(counts, me.topic), direct, ws[i := me], cleanups)
      else AllBalanced(stores, counts, direct, ws[i := me], cleanups)
  {
    var me := ws[i].(subs := ws[i].subs - 1);
    CountedUnlisten(counts, direct, ws, i);
    SeparateUpdate(ws, i, me);
    AccountedGrows(stores, counts, cleanups, ws, stores, counts, cleanups, ws[i := me]);
    if me.subs == 0 {
      assert ClearOf(ws[i := me][i].topic, ws[i := me]);
      DropKeeps(stores, counts, direct, ws[i := me], cleanups, me.topic);
    }
  }

  // The first clean-up has run: what it answered for is held, or gone.
  lemma AccountedAfter(stores: Stores, counts: Counts, cleanups: Cleanups, ws: Wrappers, stores': Stores)
    requires Accounted(stores, counts, cleanups, ws) && |cleanups| > 0
    requires forall p | p in stores' :: p in stores && stores'[p] == stores[p]
    requires forall p | p in stores' && IsFor(cleanups[0], p, stores[p], ws) :: Held(p, counts)
    ensures Accounted(stores', counts, cleanups[1..], ws)
  {
    forall p | p in stores' && !Held(p, counts) ensures Awaited(p, stores'[p], cleanups[1..], ws) {
      var i :| 0 <= i < |cleanups| && IsFor(cleanups[i], p, stores[p], ws);
      assert cleanups[1..][i - 1] == cleanups[i];
    }
  }

  /**
   A store whose clean-up is still to run, at a topic nobody holds, was never listened to through the
   wrapper it was made for.
   */
  predicate Unused(stores: Stores, counts: Counts, cleanups: Cleanups, ws: Wrappers,
                   ls: Listeners, next: nat) {
    forall i | 0 <= i < |cleanups| :: IsUnused(cleanups[i], stores, counts, ws, ls, next)
  }

  predicate IsUnused(c: Cleanup, stores: Stores, counts: Counts, ws: Wrappers, ls: Listeners, next: nat) {
    && c.wrapper < |ws| && c.store < next
    && (IsKept(stores, PlaceOf(ws[c.wrapper]), c.store) && ws[c.wrapper].topic !in counts ==> Unheard(ls, c.wrapper))
  }

  predicate IsKept(stores: Stores, place: Place, store: nat) {
    place in stores && stores[place] == store
  }

  // Stores stay or are new, and a store left at a topic nobody holds was there before, as little used.
  lemma UnusedGrows(stores: Stores, counts: Counts, cleanups: Cleanups, ws: Wrappers, ls: Listeners, next: nat,
                    stores': Stores, counts': Counts, ws': Wrappers, ls': Listeners, next': nat)
    requires Unused(stores, counts, cleanups, ws, ls, next) && next <= next' && |ws| <= |ws'|
    requires forall i | 0 <= i < |ws| :: ws'[i].topic == ws[i].topic && ws'[i].event == ws[i].event
    requires forall p | p in stores' :: IsKept(stores, p, stores'[p]) || stores'[p] >= next
    requires forall w | 0 <= w < |ws| && ws[w].topic !in counts' && PlaceOf(ws[w]) in stores' ::
      ws[w].topic !in counts && (Unheard(ls, w) ==> Unheard(ls', w))
    ensures Unused(stores', counts', cleanups, ws', ls', next')
  {
    forall i | 0 <= i < |cleanups| ensures IsUnused(cleanups[i], stores', counts', ws', ls', next') {
      assert IsUnused(cleanups[i], stores, counts, ws, ls, next);
    }
  }

  lemma UnusedWithout(stores: Stores, counts: Counts, cleanups: Cleanups, ws: Wrappers, ls: Listeners,
                      next: nat, topic: Topic)
    requires Unused(stores, counts, cleanups, ws, ls, next)
    ensures Unused(Without(stores, topic), counts - {topic}, cleanups, ws, ls, next)
  {
    UnusedGrows(stores, counts, cleanups, ws, ls, next, Without(stores, topic), counts - {topic}, ws, ls, next);
  }

  lemma UnusedDrop(stores: Stores, counts: Counts, cleanups: Cleanups, ws: Wrappers, ls: Listeners,
                   next: nat, topic: Topic)
    requires Unused(stores, counts, cleanups, ws, ls, next)
    ensures Unused(Left(stores, counts, topic), Less(counts, topic), cleanups, ws, ls, next)
  {
    if Count(counts, topic) <= 1 {
      UnusedWithout(stores, counts, cleanups, ws, ls, next, topic);
    } else {
      UnusedGrows(stores, counts, cleanups, ws, ls, next, stores, Less(counts, topic), ws, ls, next);
    }
  }

  lemma NoListenersAt(ls: Listeners, w: nat)
    ensures Unheard(ls, w) ==> Subs(ls, w) == 0
  {
    if Unheard(ls, w) { NoListeners(ls, w); }
  }

  lemma UnusedUnlisten(stores: Stores, counts: Counts, cleanups: Cleanups, ws: Wrappers, ls: Listeners,
                       next: nat, l: nat, me: Wrapper)
    requires Unused(stores, counts, cleanups, ws, ls, next) && Tallied(ws, ls) && l < |ls|
    requires me.topic == ws[ls[l].wrapper].topic && me.event == ws[ls[l].wrapper].event
    ensures
      var ws', ls' := ws[ls[l].wrapper := me], ls[l := ls[l].(calls := ls[l].calls + 1)];
      && Unused(stores, counts, cleanups, ws', ls', next)
      && Unused(Left(stores, counts, me.topic), Less(counts, me.topic), cleanups, ws', ls', next)
  {
    var ws', ls' := ws[ls[l].wrapper := me], ls[l := ls[l].(calls := ls[l].calls + 1)];
    forall v: nat | Unheard(ls, v) ensures Unheard(ls', v) {
      forall i | 0 <= i < |ls'| ensures ls'[i].wrapper != v { assert ls[i].wrapper != v; }
    }
    UnusedGrows(stores, counts, cleanups, ws, ls, next, stores, counts, ws', ls', next);
    UnusedDrop(stores, counts, cleanups, ws', ls', next, me.topic);
  }

  lemma FirstIsUnused(stores: Stores, counts: Counts, cleanups: Cleanups, ws: Wrappers, ls: Listeners, next: nat)
    requires Unused(stores, counts, cleanups, ws, ls, next) && Tallied(ws, ls) && |cleanups| > 0
    ensures
      var c := cleanups[0];
      var w := ws[c.wrapper];
      IsKept(stores, PlaceOf(w), c.store) ==> Held(PlaceOf(w), counts) || (w.subs == 0 && w.topic !in counts)
  {
    var c := cleanups[0];
    assert IsUnused(c, stores, counts, ws, ls, next);
    var w := ws[c.wrapper];
    NoListenersAt(ls, c.wrapper);
    if w.topic in counts { HeldBy(w.topic, w.event, counts); }
  }

  lemma TalliedMore(ws: Wrappers, ls: Listeners, w: Wrapper)
    requires Tallied(ws, ls) && w.subs == 0
    ensures Tallied(ws + [w], ls)
  {
    NoListeners(ls, |ws|);
  }

  // A wrapper was made, on a store already there or on a new one with its clean-up.
  lemma OnKeeps(stores: Stores, counts: Counts, direct: Counts, ws: Wrappers, ls: Listeners,
                cleanups: Cleanups, next: nat, w: Wrapper, balanced: bool)
    requires Tallied(ws, ls) && Unused(stores, counts, cleanups, ws, ls, next) && w.subs == 0
    requires balanced ==> AllBalanced(stores, counts, direct, ws, cleanups) && ClearOf(w.topic, ws)
    ensures Tallied(ws + [w], ls) && Unused(stores, counts, cleanups, ws + [w], ls, next)
    ensures balanced ==> AllBalanced(stores, counts, direct, ws + [w], cleanups)
  {
    TalliedMore(ws, ls, w);
    UnusedGrows(stores, counts, cleanups, ws, ls, next, stores, counts, ws + [w], ls, next);
    if balanced {
      SeparateMore(ws, w);
      CountedMore(counts, direct, ws, w);
      AccountedGrows(stores, counts, cleanups, ws, stores, counts, cleanups, ws + [w]);
    }
  }

  lemma OnCreates(stores: Stores, counts: Counts, direct: Counts, ws: Wrappers, ls: Listeners,
                  cleanups: Cleanups, next: nat, w: Wrapper, balanced: bool)
    requires Tallied(ws, ls) && Unused(stores, counts, cleanups, ws, ls, next) && w.subs == 0 && PlaceOf(w) !in stores
    requires balanced ==> AllBalanced(stores, counts, direct, ws, cleanups) && ClearOf(w.topic, ws)
    ensures
      var stores', ws', cleanups' := stores[PlaceOf(w) := next], ws + [w], cleanups + [Cleanup(|ws|, next)];
      && Tallied(ws', ls) && Unused(stores', counts, cleanups', ws', ls, next + 1)
      && (balanced ==> AllBalanced(stores', counts, direct, ws', cleanups'))
  {
    var stores', ws', cleanups' := stores[PlaceOf(w) := next], ws + [w], cleanups + [Cleanup(|ws|, next)];
    TalliedMore(ws, ls, w);
    UnusedGrows(stores, counts, cleanups, ws, ls, next, stores', counts, ws', ls, next + 1);
    assert Unheard(ls, |ws|);
    assert IsFor(cleanups'[|cleanups|], PlaceOf(w), next, ws');
    if balanced {
      SeparateMore(ws, w);
      CountedMore(counts, direct, ws, w);
      AccountedGrows(stores, counts, cleanups, ws, stores', counts, cleanups', ws');
    }
  }

  // A first listener by the code's count: the topic gets one more hold, the wrapper a store in use.
  lemma ListenStarts(stores: Stores, counts: Counts, direct: Counts, ws: Wrappers, ls: Listeners, cleanups: Cleanups,
                     next: nat, w: nat, me: Wrapper, l: Listener, balanced: bool)
    requires Tallied(ws, ls) && Unused(stores, counts, cleanups, ws, ls, next) && w < |ws| && ws[w].subs == 0
    requires me.topic == ws[w].topic && me.event == ws[w].event && me.subs == 1 && l.wrapper == w && l.calls == 0
    requires me.store == if PlaceOf(me) in stores then stores[PlaceOf(me)] else next
    requires balanced ==> AllBalanced(stores, counts, direct, ws, cleanups)
    ensures
      var stores', counts' := stores[PlaceOf(me) := me.store], counts[me.topic := Count(counts, me.topic) + 1];
      var ws', ls' := ws[w := me], ls + [l];
      && Tallied(ws', ls')
      && Unused(stores', counts', cleanups, ws', ls', if PlaceOf(me) in stores then next else next + 1)
      && (balanced ==> AllBalanced(stores', counts', direct, ws', cleanups))
  {
    TalliedListen(ws, ls, w, me, l);
    forall v: nat | v != w && Unheard(ls, v) ensures Unheard(ls + [l], v) {}
    UnusedGrows(stores, counts, cleanups, ws, ls, next, stores[PlaceOf(me) := me.store],
      counts[me.topic := Count(counts, me.topic) + 1], ws[w := me], ls + [l],
      if PlaceOf(me) in stores then next else next + 1);
    if balanced { ListenKeeps(stores, counts, direct, ws, cleanups, w, me); }
  }

  lemma ListenJoins(stores: Stores, counts: Counts, direct: Counts, ws: Wrappers, ls: Listeners, cleanups: Cleanups,
                    next: nat, w: nat, l: Listener, balanced: bool)
    requires Tallied(ws, ls) && Unused(stores, counts, cleanups, ws, ls, next) && w < |ws| && ws[w].subs != 0
    requires l.wrapper == w && l.calls == 0
    requires balanced ==> AllBalanced(stores, counts, direct, ws, cleanups)
    ensures
      var ws', ls' := ws[w := ws[w].(subs := ws[w].subs + 1)], ls + [l];
      && Tallied(ws', ls') && Unused(stores, counts, cleanups, ws', ls', next)
      && (balanced ==> AllBalanced(stores, counts, direct, ws', cleanups))
  {
    var me := ws[w].(subs := ws[w].subs + 1);
    TalliedListen(ws, ls, w, me, l);
    NoListenersAt(ls, w);
    forall v: nat | v != w && Unheard(ls, v) ensures Unheard(ls + [l], v) {}
    UnusedGrows(stores, counts, cleanups, ws, ls, next, stores, counts, ws[w := me], ls + [l], next);
    if balanced { JoinKeeps(stores, counts, direct, ws, cleanups, w); }
  }

  // A returned function was called: the wrapper's count goes down, and at zero the topic loses a hold.
  lemma UnlistenAll(stores: Stores, counts: Counts, direct: Counts, ws: Wrappers, ls: Listeners,
                    cleanups: Cleanups, next: nat, l: nat, balanced: bool)
    requires Tallied(ws, ls) && Unused(stores, counts, cleanups, ws, ls, next) && l < |ls|
    requires balanced ==> AllBalanced(stores, counts, direct, ws, cleanups)
    ensures
      var w := ls[l].wrapper;
      var me := ws[w].(subs := ws[w].subs - 1);
      var ws', ls' := ws[w := me], ls[l := ls[l].(calls := ls[l].calls + 1)];
      var stores' := if me.subs == 0 then Left(stores, counts, me.topic) else stores;
      var counts' := if me.subs == 0 then Less(counts, me.topic) else counts;
      && Tallied(ws', ls') && Unused(stores', counts', cleanups, ws', ls', next)
      && (balanced ==> AllBalanced(stores', counts', direct, ws', cleanups))
  {
    var w := ls[l].wrapper;
    TalliedUnlisten(ws, ls, l);
    UnusedUnlisten(stores, counts, cleanups, ws, ls, next, l, ws[w].(subs := ws[w].subs - 1));
    if balanced { UnlistenKeeps(stores, counts, direct, ws, cleanups, w); }
  }
}
