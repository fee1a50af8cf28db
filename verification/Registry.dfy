/**
 The maps of src/client.js that say who holds which topic, and the stores inbound events are dispatched to. A
 wrapper's notifications run user code, but only after its own bookkeeping is done, so re-entrant calls are
 further steps here.
 */
module Registry {
  import opened Options
  import opened Text
  import opened Holds
  import opened Hearing

  class Registry {
    var refCounts: Counts
    var stores: Stores
    var wrappers: Wrappers
    var listeners: Listeners
    var cleanups: Cleanups
    var nextStore: nat

    // History: how often each topic's last hold was dropped, and the direct subscribes not yet released.
    var drops: Counts
    ghost var direct: Counts

    // And whether every release so far was owed and unforced, over topics none of which extends another past a NUL.
    ghost var orderly: bool

    /** The books are sound in every run, and balanced in every orderly one. */
    ghost predicate Valid()
      reads this
    {
      Sound(Picture(), cleanups) && (orderly ==> Even(Picture(), direct, cleanups))
    }

    function Picture(): Scene
      reads this
    {
      Scene(stores, refCounts, wrappers, listeners, drops, nextStore)
    }

    constructor ()
      ensures Valid() && orderly && refCounts == map[] && stores == map[] && wrappers == [] && listeners == []
      ensures cleanups == [] && direct == map[] && drops == map[] && nextStore == 0
    {
      NothingIsBalanced();
      EvenMeans(Scene(map[], map[], [], [], map[], 0), map[], []);
      refCounts, stores, wrappers, listeners, cleanups, nextStore := map[], map[], [], [], [], 0;
      drops, direct, orderly := map[], map[], true;
    }

    // The store an inbound event is set on.
    function Lookup(topic: Topic, event: Option<Text>): Option<nat>
      reads this
    {
      var p := PlaceFor(topic, event);
      if p in stores then Some(stores[p]) else None
    }

    // subscribe, up to the wire: true when nobody held the topic
    method Add(topic: Topic) returns (first: bool)
      modifies `refCounts
      ensures first == (Count(old(refCounts), topic) == 0)
      ensures Picture() == Subscribed(old(Picture()), topic)
    {
      var count := Count(refCounts, topic);
      refCounts := refCounts[topic := count + 1];
      return count == 0;
    }

    // release, up to the wire: true when that was the last hold
    method Drop(topic: Topic) returns (gone: bool)
      modifies `refCounts, `stores, `drops
      ensures gone == (Count(old(refCounts), topic) <= 1)
      ensures Picture() == Dropped(old(Picture()), topic)
      ensures gone ==> topic !in refCounts && forall p | p in stores :: !Owns(topic, p)
    {
      drops := GoneAfter(drops, refCounts, topic);
      var count := Count(refCounts, topic);
      gone := count <= 1;
      if gone {
        refCounts := refCounts - {topic};
        stores := Without(stores, topic);
      } else {
        refCounts := refCounts[topic := count - 1];
      }
    }

    // A direct subscribe.
    method Subscribe(topic: Topic) returns (first: bool)
      requires Valid()
      modifies `refCounts, `direct
      ensures Valid()
      ensures first == (Count(old(refCounts), topic) == 0)
      ensures refCounts == old(refCounts)[topic := Count(old(refCounts), topic) + 1]
      ensures direct == old(direct)[topic := Count(old(direct), topic) + 1]
    {
      SubscribeKeeps(Picture(), direct, cleanups, topic);
      first := Add(topic);
      direct := direct[topic := Count(direct, topic) + 1];
    }

    // A direct release.
    method Release(topic: Topic) returns (gone: bool)
      requires Valid()
      modifies `refCounts, `stores, `drops, `direct, `orderly
      ensures Valid()
      ensures orderly == (old(orderly) && Count(old(direct), topic) > 0 && ClearOf(topic, wrappers))
      ensures gone == (Count(old(refCounts), topic) <= 1) && refCounts == Less(old(refCounts), topic)
      ensures direct == Less(old(direct), topic)
      ensures gone ==> topic !in refCounts && forall p | p in stores :: !Owns(topic, p)
      ensures stores == Left(old(stores), old(refCounts), topic)
    {
      ReleaseKeeps(Picture(), direct, cleanups, topic);
      orderly := orderly && Count(direct, topic) > 0 && ClearOf(topic, wrappers);
      gone := Drop(topic);
      direct := Less(direct, topic);
    }

    // onTopic (event None) and onEvent
    method On(topic: Topic, event: Option<Text>) returns (w: nat)
      requires Valid()
      modifies `stores, `wrappers, `cleanups, `nextStore, `orderly
      ensures Valid() && orderly == (old(orderly) && ClearOf(topic, old(wrappers)))
      ensures w == |old(wrappers)|
      ensures
        var store := if old(Lookup(topic, event)).Some? then old(Lookup(topic, event)).value else old(nextStore);
        && Picture() == Made(old(Picture()), Wrapper(topic, event, 0, store, None))
        && cleanups == MadeCleanups(old(Picture()), old(cleanups), Wrapper(topic, event, 0, store, None))
    {
      var place := PlaceFor(topic, event);
      w := |wrappers|;
      var me := Wrapper(topic, event, 0, if place in stores then stores[place] else nextStore, None);
      MakeKeeps(Picture(), direct, cleanups, me);
      orderly := orderly && ClearOf(topic, wrappers);
      Make(me);
    }

    // The wrapper, and a store with its clean-up where there was none.
    method Make(me: Wrapper)
      modifies `stores, `wrappers, `cleanups, `nextStore
      ensures Picture() == Made(old(Picture()), me)
      ensures cleanups == MadeCleanups(old(Picture()), old(cleanups), me)
    {
      var place := PlaceOf(me);
      if place !in stores {
        stores := stores[place := nextStore];
        cleanups := cleanups + [Cleanup(|wrappers|, nextStore)];
        nextStore := nextStore + 1;
      }
      wrappers := wrappers + [me];
    }

    // wrappedSubscribe: true when the wire subscription is this listener's doing
    method Listen(w: nat) returns (first: bool)
      requires Valid() && w < |wrappers|
      modifies `stores, `wrappers, `listeners, `nextStore, `refCounts
      ensures Valid()
      ensures first == (old(wrappers)[w].subs == 0 && Count(old(refCounts), old(wrappers)[w].topic) == 0)
      ensures Picture() == Arrived(old(Picture()), w)
    {
      ListenKept(Picture(), direct, cleanups, w);
      first := false;
      if wrappers[w].subs == 0 { first := Take(w); }
      Join(w);
    }

    // subs++ and store.subscribe(fn)
    method Join(w: nat)
      requires w < |wrappers|
      modifies `wrappers, `listeners
      ensures Picture() == Joined(old(Picture()), w)
    {
      var me := wrappers[w];
      wrappers := wrappers[w := me.(subs := me.subs + 1)];
      listeners := listeners + [Listener(w, me.store, EraOf(me), 0)];
    }

    // A first listener: the wrapper adopts the store dispatch looks up, or registers a new one, and holds the topic.
    method Take(w: nat) returns (first: bool)
      requires w < |wrappers|
      modifies `stores, `wrappers, `nextStore, `refCounts
      ensures first == (Count(old(refCounts), old(wrappers)[w].topic) == 0)
      ensures Picture() == Taken(old(Picture()), w)
    {
      var me := wrappers[w];
      var place := PlaceOf(me);
      var store := if place in stores then stores[place] else nextStore;
      if place !in stores { nextStore := nextStore + 1; }
      stores := stores[place := store];
      wrappers := wrappers[w := me.(store := store, era := Some(Count(drops, me.topic)))];
      first := Add(me.topic);
    }

    // A call of the function wrappedSubscribe returned for listener l, its first or a later one: true when
    // that was the topic's last hold.
    method Unlisten(l: nat) returns (gone: bool)
      requires Valid() && l < |listeners|
      modifies `refCounts, `stores, `wrappers, `listeners, `drops
      ensures Valid()
      ensures Picture() == Unlistened(old(Picture()), l)
      ensures
        var me := old(wrappers)[old(listeners)[l].wrapper];
        && gone == (me.subs == 1 && Count(old(refCounts), me.topic) <= 1)
        && (gone ==> me.topic !in refCounts && forall p | p in stores :: !Owns(me.topic, p))
    {
      UnlistenKept(Picture(), direct, cleanups, l);
      var me := wrappers[listeners[l].wrapper];
      Call(l);
      gone := false;
      if me.subs == 1 { gone := Drop(me.topic); }
    }

    method Call(l: nat)
      requires l < |listeners| && listeners[l].wrapper < |wrappers|
      modifies `wrappers, `listeners
      ensures Picture() == Called(old(Picture()), l)
    {
      var w := listeners[l].wrapper;
      wrappers := wrappers[w := wrappers[w].(subs := wrappers[w].subs - 1)];
      listeners := listeners[l := listeners[l].(calls := listeners[l].calls + 1)];
    }

    // The next clean-up microtask.
    method CleanUp()
      requires Valid() && |cleanups| > 0
      modifies `stores, `cleanups
      ensures Valid()
      ensures cleanups == old(cleanups)[1..]
      ensures
        var c := old(cleanups)[0];
        var w := wrappers[c.wrapper];
        stores == if w.subs == 0 && w.topic !in refCounts && IsKept(old(stores), PlaceOf(w), c.store)
                  then old(stores) - {PlaceOf(w)} else old(stores)
    {
      CleanUpKept(Picture(), direct, cleanups);
      var c := cleanups[0];
      var w := wrappers[c.wrapper];
      var place := PlaceOf(w);
      cleanups := cleanups[1..];
      if w.subs == 0 && w.topic !in refCounts && IsKept(stores, place, c.store) { stores := stores - {place}; }
    }

    /** The code's count of every wrapper is its live listeners exactly when no returned function was called twice. */
    lemma CountsAreListeners()
      requires Valid()
      ensures (forall w | 0 <= w < |wrappers| :: wrappers[w].subs == LiveListeners(listeners, w))
        <==> forall l | 0 <= l < |listeners| :: listeners[l].calls <= 1
    {
      forall w | 0 <= w < |wrappers|
        ensures wrappers[w].subs == LiveListeners(listeners, w)
          <==> forall l | 0 <= l < |listeners| && listeners[l].wrapper == w :: listeners[l].calls <= 1
      {
        SubsCountLive(listeners, w);
      }
      if forall w | 0 <= w < |wrappers| :: wrappers[w].subs == LiveListeners(listeners, w) {
        forall l | 0 <= l < |listeners| ensures listeners[l].calls <= 1 {
          var w := listeners[l].wrapper;
          assert wrappers[w].subs == LiveListeners(listeners, w);
        }
      }
    }

    /** A topic's count is its direct subscribes and the wrappers somebody listens to. */
    ghost predicate Owned()
      reads this
    {
      forall t: Topic {:trigger Count(refCounts, t)} ::
        Count(refCounts, t) == Count(direct, t) + Listened(wrappers, listeners, t)
    }

    /**
     Ownership, over the listeners themselves: it holds exactly when no wrapper's surplus calls have used up
     its live listeners, and then each wrapper somebody listens to is on the store dispatch looks up.
     */
    lemma OwnershipExactly()
      requires Valid() && orderly
      ensures Owned() <==> forall w | 0 <= w < |wrappers| :: Outlasts(listeners, w)
      ensures Owned() ==> forall w | 0 <= w < |wrappers| && LiveListeners(listeners, w) > 0 ::
        Lookup(wrappers[w].topic, wrappers[w].event) == Some(wrappers[w].store)
    {
      EvenMeans(Picture(), direct, cleanups);
      forall t: Topic
        ensures Count(refCounts, t) == Count(direct, t) + Listened(wrappers, listeners, t)
          <==> forall w | 0 <= w < |wrappers| && wrappers[w].topic == t :: Outlasts(listeners, w)
      {
        assert Count(refCounts, t) == Count(direct, t) + Live(wrappers, t);
        ListenedAtLeast(wrappers, listeners, t);
      }
      if Owned() {
        forall w | 0 <= w < |wrappers| ensures Outlasts(listeners, w) {
          var t := wrappers[w].topic;
          assert Count(refCounts, t) == Count(direct, t) + Listened(wrappers, listeners, t);
        }
      }
      forall w | 0 <= w < |wrappers| && Outlasts(listeners, w) && LiveListeners(listeners, w) > 0
        ensures wrappers[w].subs > 0
      {
        SubsCountLive(listeners, w);
      }
    }

    /** The store listener l subscribed on is the one dispatch looks up for it. */
    predicate Hears(l: nat)
      reads this
      requires l < |listeners| && listeners[l].wrapper < |wrappers|
    {
      var w := wrappers[listeners[l].wrapper];
      Lookup(w.topic, w.event) == Some(listeners[l].store)
    }

    // It hears exactly when its topic's last hold was not dropped since its wrapper took the store it is on.
    predicate HearsInEra(l: nat)
      reads this
      requires l < |listeners|
    {
      && listeners[l].wrapper < |wrappers|
      && (Hears(l) <==> listeners[l].era == Count(drops, wrappers[listeners[l].wrapper].topic))
    }

    /** Which listeners hear; so every live listener hears exactly when that is so of each. */
    lemma HearingExactly()
      requires Valid() && orderly
      ensures forall l | 0 <= l < |listeners| :: HearsInEra(l)
    {
      EvenMeans(Picture(), direct, cleanups);
      forall l | 0 <= l < |listeners| ensures HearsInEra(l) {
        HearsInItsEra(Picture(), l);
      }
    }

    /** When no returned function was called twice, ownership holds and every live listener hears. */
    lemma OnceEachIsOwned()
      requires Valid() && orderly && OnceEach(listeners)
      ensures Owned()
      ensures forall l | 0 <= l < |listeners| && listeners[l].calls == 0 :: Hears(l)
    {
      EvenMeans(Picture(), direct, cleanups);
      forall w | 0 <= w < |wrappers| ensures Outlasts(listeners, w) { SubsCountLive(listeners, w); }
      OwnershipExactly();
      forall l | 0 <= l < |listeners| && listeners[l].calls == 0 ensures Hears(l) {
        SubsCountLive(listeners, listeners[l].wrapper);
        assert OnWrapperStore(Picture(), l);
      }
    }

    /** Once the clean-ups have run, every store left belongs to a topic somebody holds. */
    lemma NothingLeaks()
      requires Valid() && orderly && cleanups == []
      ensures forall p | p in stores :: Held(p, refCounts)
      ensures stores.Keys != {} ==> refCounts.Keys != {}
    {
      EvenMeans(Picture(), direct, cleanups);
      if p :| p in stores {
        assert Held(p, refCounts);
      }
    }

    // unsubscribe: forced, whatever the count
    method Forget(topic: Topic)
      requires Valid()
      modifies `refCounts, `stores, `orderly
      ensures Valid() && !orderly
      ensures refCounts == old(refCounts) - {topic} && stores == Without(old(stores), topic)
    {
      UnusedWithout(stores, refCounts, cleanups, wrappers, listeners, nextStore, topic);
      refCounts := refCounts - {topic};
      stores := Without(stores, topic);
      orderly := false;
    }
  }

  // ---- two runs with a function called twice ------------------------------------------------------------

  // One wrapper of this topic that has taken stores 0 to store in turn; the latest is there while the topic is held.
  function OneWrapper(topic: Topic, subs: int, store: nat, held: bool, ls: Listeners): Scene {
    Scene(if held then map[TopicPlace(topic) := store] else map[], if held then map[topic := 1] else map[],
      [Wrapper(topic, None, subs, store, Some(store))], ls,
      if held && store == 0 then map[] else map[topic := if held then store else store + 1], store + 1)
  }

  ghost predicate Shows(r: Registry, s: Scene)
    reads r
  {
    r.Valid() && r.orderly && r.direct == map[] && r.Picture() == s
  }

  lemma JoinedAt(topic: Topic, subs: int, store: nat, held: bool, ls: Listeners)
    ensures Joined(OneWrapper(topic, subs, store, held, ls), 0)
      == OneWrapper(topic, subs + 1, store, held, ls + [Listener(0, store, store, 0)])
  {
  }

  lemma TakenAt(topic: Topic, store: nat, ls: Listeners)
    ensures Taken(OneWrapper(topic, 0, store, false, ls), 0) == OneWrapper(topic, 0, store + 1, true, ls)
  {
  }

  lemma CalledAt(topic: Topic, subs: int, store: nat, held: bool, ls: Listeners, l: nat)
    requires l < |ls| && ls[l].wrapper == 0
    ensures Called(OneWrapper(topic, subs, store, held, ls), l)
      == OneWrapper(topic, subs - 1, store, held, ls[l := ls[l].(calls := ls[l].calls + 1)])
  {
  }

  lemma DroppedAt(topic: Topic, subs: int, store: nat, ls: Listeners)
    ensures Dropped(OneWrapper(topic, subs, store, true, ls), topic) == OneWrapper(topic, subs, store, false, ls)
  {
    assert Owns(topic, TopicPlace(topic));
    assert Without(map[TopicPlace(topic) := store], topic) == map[];
  }

  method OneListener(topic: Topic) returns (r: Registry)
    ensures fresh(r) && Shows(r, OneWrapper(topic, 1, 0, true, [Listener(0, 0, 0, 0)]))
  {
    r := new Registry();
    var w := r.On(topic, None);
    assert Taken(r.Picture(), 0) == OneWrapper(topic, 0, 0, true, []);
    JoinedAt(topic, 0, 0, true, []);
    var first := r.Listen(w);
  }

  // Another listener: a first one by the count takes a store anew, and any other joins what the wrapper has.
  method Another(r: Registry, topic: Topic, ghost subs: int, ghost store: nat, ghost held: bool, ghost ls: Listeners)
    requires Shows(r, OneWrapper(topic, subs, store, held, ls)) && (subs == 0 ==> !held)
    modifies r
    ensures
      var now := if subs == 0 then store + 1 else store;
      Shows(r, OneWrapper(topic, subs + 1, now, held || subs == 0, ls + [Listener(0, now, now, 0)]))
  {
    if subs == 0 { TakenAt(topic, store, ls); }
    JoinedAt(topic, subs, if subs == 0 then store + 1 else store, held || subs == 0, ls);
    var first := r.Listen(0);
  }

  // Listener 0's function is called.
  method CallFirst(r: Registry, topic: Topic, ghost subs: int, ghost store: nat, ghost held: bool, ghost ls: Listeners)
    requires Shows(r, OneWrapper(topic, subs, store, held, ls)) && |ls| > 0 && ls[0].wrapper == 0
    requires subs == 1 ==> held
    modifies r
    ensures Shows(r, OneWrapper(topic, subs - 1, store, held && subs != 1, ls[0 := ls[0].(calls := ls[0].calls + 1)]))
  {
    CalledAt(topic, subs, store, held, ls, 0);
    if subs == 1 { DroppedAt(topic, 0, store, ls[0 := ls[0].(calls := ls[0].calls + 1)]); }
    var gone := r.Unlisten(0);
  }

  /**
   The double call: a listener's returned function is called twice and another listener arrives. The topic has
   a listener and no hold, so nothing subscribes it on the wire, and the listener is on a store that is gone.
   */
  method DoubleCall(topic: Topic) returns (r: Registry)
    ensures Shows(r, OneWrapper(topic, 0, 0, false, [Listener(0, 0, 0, 2), Listener(0, 0, 0, 0)]))
    ensures LiveListeners(r.listeners, 0) == 1 && topic !in r.refCounts && !r.Owned() && !r.Hears(1)
  {
    r := CalledTwice(topic);
    Another(r, topic, -1, 0, false, [Listener(0, 0, 0, 2)]);
    DoubleCallMisses(r.wrappers, r.listeners, topic);
    assert Count(r.refCounts, topic) == Count(r.direct, topic) == 0;
  }

  method CalledTwice(topic: Topic) returns (r: Registry)
    ensures fresh(r) && Shows(r, OneWrapper(topic, -1, 0, false, [Listener(0, 0, 0, 2)]))
  {
    r := OneListener(topic);
    CallFirst(r, topic, 1, 0, true, [Listener(0, 0, 0, 0)]);
    CallFirst(r, topic, 0, 0, false, [Listener(0, 0, 0, 1)]);
  }

  /** With that input the counts differ: a listener is there, and the wrapper counts none. */
  lemma DoubleCallMisses(ws: Wrappers, ls: Listeners, topic: Topic)
    requires ls == [Listener(0, 0, 0, 2), Listener(0, 0, 0, 0)] && |ws| == 1 && ws[0].topic == topic
    ensures Subs(ls, 0) == 0 && LiveListeners(ls, 0) == 1 && Surplus(ls, 0) == 1
    ensures !Outlasts(ls, 0) && Listened(ws, ls, topic) == 1
  {
    var one := [Listener(0, 0, 0, 2)];
    assert ls[..1] == one && one[..0] == [];
    assert Subs(one[..0], 0) == 0 && LiveListeners(one[..0], 0) == 0 && Surplus(one[..0], 0) == 0;
    assert Subs(one, 0) == -1 && LiveListeners(one, 0) == 0 && Surplus(one, 0) == 1;
    assert Listened(ws[..0], ls, topic) == 0;
  }

  /**
   The listener left behind: two listen, the first's function is called twice, and a third arrives. The counts
   are right again, so ownership holds, and yet the second listener is on a store nobody will set.
   */
  method LeftBehind(topic: Topic) returns (r: Registry)
    ensures r.Valid() && r.orderly && r.Owned() && topic in r.refCounts
    ensures r.listeners == [Listener(0, 0, 0, 2), Listener(0, 0, 0, 0), Listener(0, 1, 1, 0)]
    ensures !r.Hears(1) && r.Hears(2)
  {
    r := OneLeft(topic);
    Another(r, topic, 0, 0, false, [Listener(0, 0, 0, 2), Listener(0, 0, 0, 0)]);
    LeftBehindCounts(r.listeners);
    r.OwnershipExactly();
  }

  method OneLeft(topic: Topic) returns (r: Registry)
    ensures fresh(r) && Shows(r, OneWrapper(topic, 0, 0, false, [Listener(0, 0, 0, 2), Listener(0, 0, 0, 0)]))
  {
    r := OneListener(topic);
    Another(r, topic, 1, 0, true, [Listener(0, 0, 0, 0)]);
    CallFirst(r, topic, 2, 0, true, [Listener(0, 0, 0, 0), Listener(0, 0, 0, 0)]);
    CallFirst(r, topic, 1, 0, true, [Listener(0, 0, 0, 1), Listener(0, 0, 0, 0)]);
  }

  lemma LeftBehindCounts(ls: Listeners)
    requires ls == [Listener(0, 0, 0, 2), Listener(0, 0, 0, 0), Listener(0, 1, 1, 0)]
    ensures LiveListeners(ls, 0) == 2 && Surplus(ls, 0) == 1 && Outlasts(ls, 0)
  {
    var one, two := [Listener(0, 0, 0, 2)], [Listener(0, 0, 0, 2), Listener(0, 0, 0, 0)];
    assert ls[..2] == two && two[..1] == one && one[..0] == [];
    assert LiveListeners(one[..0], 0) == 0 && Surplus(one[..0], 0) == 0;
    assert LiveListeners(one, 0) == 0 && Surplus(one, 0) == 1;
    assert LiveListeners(two, 0) == 1 && Surplus(two, 0) == 1;
  }
}
