/**
 Which listeners hear (src/client.js:2584-2607): a listener subscribes on the store its wrapper holds at that
 moment, and dispatch looks the topic's store up anew. The two are the same exactly as long as the topic's last
 hold has not been dropped since the wrapper took the store.
 */
module Hearing {
  import opened Options
  import opened Holds

  /** The stores, the counts, the wrappers and their listeners, and how often each topic's last hold was dropped. */
  datatype Scene = Scene(stores: Stores, counts: Counts, ws: Wrappers, ls: Listeners, gone: Counts, next: nat)

  // A store taken for w in an era: the one looked up if the era still lasts, and never again afterwards.
  predicate Tagged(s: Scene, w: Wrapper, store: nat, era: nat) {
    && store < s.next && era <= Count(s.gone, w.topic)
    && if era == Count(s.gone, w.topic) then w.topic in s.counts && IsKept(s.stores, PlaceOf(w), store)
       else !IsKept(s.stores, PlaceOf(w), store)
  }

  predicate OnceEach(ls: Listeners) {
    forall l | 0 <= l < |ls| :: ls[l].calls <= 1
  }

  predicate WrapperTagged(s: Scene, i: nat)
    requires i < |s.ws|
  {
    if s.ws[i].era.Some? then Tagged(s, s.ws[i], s.ws[i].store, s.ws[i].era.value) else Unheard(s.ls, i)
  }

  predicate ListenerTagged(s: Scene, l: nat)
    requires l < |s.ls|
  {
    s.ls[l].wrapper < |s.ws| && Tagged(s, s.ws[s.ls[l].wrapper], s.ls[l].store, s.ls[l].era)
  }

  // A live listener is on its wrapper's own store.
  predicate OnWrapperStore(s: Scene, l: nat)
    requires l < |s.ls|
  {
    && s.ls[l].wrapper < |s.ws|
    && var w := s.ws[s.ls[l].wrapper];
       (s.ls[l].calls == 0 ==> s.ls[l].store == w.store && w.era == Some(s.ls[l].era))
  }

  predicate Tuned(s: Scene) {
    && (forall p | p in s.stores :: s.stores[p] < s.next)
    && (forall i | 0 <= i < |s.ws| :: WrapperTagged(s, i))
    && (forall l | 0 <= l < |s.ls| :: ListenerTagged(s, l))
    && (OnceEach(s.ls) ==> forall l | 0 <= l < |s.ls| :: OnWrapperStore(s, l))
  }

  // What a step may do at one wrapper's place: nothing that matters, drop its topic, or take an unheld store back.
  predicate Follows(s: Scene, t: Scene, w: Wrapper) {
    var p := PlaceOf(w);
    && s.next <= t.next
    && (|| (&& Count(t.gone, w.topic) == Count(s.gone, w.topic) && (w.topic in s.counts ==> w.topic in t.counts)
            && (p in s.stores ==> IsKept(t.stores, p, s.stores[p]))
            && (p in t.stores && p !in s.stores ==> t.stores[p] >= s.next))
        || (Count(t.gone, w.topic) == Count(s.gone, w.topic) + 1 && p !in t.stores)
        || (Count(t.gone, w.topic) == Count(s.gone, w.topic) && w.topic !in s.counts && p !in t.stores))
  }

  // A step that touches no wrapper and no listener.
  lemma TunedFollows(s: Scene, t: Scene)
    requires Tuned(s) && t.ws == s.ws && t.ls == s.ls && (forall p | p in t.stores :: t.stores[p] < t.next)
    requires forall i | 0 <= i < |s.ws| :: Follows(s, t, s.ws[i])
    ensures Tuned(t)
  {
    forall i | 0 <= i < |t.ws| ensures WrapperTagged(t, i) {
      assert WrapperTagged(s, i) && Follows(s, t, s.ws[i]);
    }
    forall l | 0 <= l < |t.ls| ensures ListenerTagged(t, l) {
      assert ListenerTagged(s, l) && Follows(s, t, s.ws[s.ls[l].wrapper]);
    }
    forall l | 0 <= l < |t.ls| && OnceEach(t.ls) ensures OnWrapperStore(t, l) {
      assert ListenerTagged(s, l) && OnWrapperStore(s, l);
    }
  }

  lemma TunedAdd(s: Scene, topic: Topic)
    requires Tuned(s)
    ensures Tuned(s.(counts := s.counts[topic := Count(s.counts, topic) + 1]))
  {
    TunedFollows(s, s.(counts := s.counts[topic := Count(s.counts, topic) + 1]));
  }

  // How often the topic's last hold was dropped, after one hold more.
  function GoneAfter(gone: Counts, counts: Counts, topic: Topic): Counts {
    if Count(counts, topic) <= 1 then gone[topic := Count(gone, topic) + 1] else gone
  }

  function Dropped(s: Scene, topic: Topic): Scene {
    s.(stores := Left(s.stores, s.counts, topic), counts := Less(s.counts, topic),
      gone := GoneAfter(s.gone, s.counts, topic))
  }

  lemma TunedDrop(s: Scene, topic: Topic)
    requires Tuned(s) && ClearOf(topic, s.ws)
    ensures Tuned(Dropped(s, topic))
  {
    forall i | 0 <= i < |s.ws| ensures Follows(s, Dropped(s, topic), s.ws[i]) {
      OwnsItsOwn(topic, s.ws[i].topic, s.ws[i].event);
    }
    TunedFollows(s, Dropped(s, topic));
  }

  // A clean-up took back a store at a place whose topic nobody holds.
  lemma TunedCleanUp(s: Scene, c: nat)
    requires Tuned(s) && Separate(s.ws) && c < |s.ws| && s.ws[c].topic !in s.counts
    ensures Tuned(s.(stores := s.stores - {PlaceOf(s.ws[c])}))
  {
    var t := s.(stores := s.stores - {PlaceOf(s.ws[c])});
    forall i | 0 <= i < |s.ws| ensures Follows(s, t, s.ws[i]) {
      assert ClearOf(s.ws[c].topic, s.ws);
      OwnsItsOwn(s.ws[c].topic, s.ws[i].topic, s.ws[i].event);
      OwnsItsOwn(s.ws[c].topic, s.ws[c].topic, s.ws[c].event);
    }
    TunedFollows(s, t);
  }

  // A wrapper is made, with a store where there was none.
  function Made(s: Scene, me: Wrapper): Scene {
    if PlaceOf(me) in s.stores then s.(ws := s.ws + [me])
    else s.(ws := s.ws + [me], stores := s.stores[PlaceOf(me) := s.next], next := s.next + 1)
  }

  lemma TunedOn(s: Scene, w: Wrapper)
    requires Tuned(s) && Tallied(s.ws, s.ls) && w.era.None?
    ensures Tuned(Made(s, w))
  {
    TunedMore(s, w);
    if PlaceOf(w) !in s.stores {
      var t := s.(stores := s.stores[PlaceOf(w) := s.next], next := s.next + 1);
      TunedFollows(s, t);
      TunedMore(t, w);
    }
  }

  lemma TunedMore(s: Scene, w: Wrapper)
    requires Tuned(s) && w.era.None? && Unheard(s.ls, |s.ws|)
    ensures Tuned(s.(ws := s.ws + [w]))
  {
    var t := s.(ws := s.ws + [w]);
    forall i | 0 <= i < |t.ws| ensures WrapperTagged(t, i) {
      if i < |s.ws| { assert WrapperTagged(s, i); }
    }
    forall l | 0 <= l < |t.ls| ensures ListenerTagged(t, l) { assert ListenerTagged(s, l); }
    forall l | 0 <= l < |t.ls| && OnceEach(t.ls) ensures OnWrapperStore(t, l) {
      assert ListenerTagged(s, l) && OnWrapperStore(s, l);
    }
  }

  // A listener's function was called: the wrapper counts one less.
  function Called(s: Scene, l: nat): Scene
    requires l < |s.ls| && s.ls[l].wrapper < |s.ws|
  {
    var w := s.ls[l].wrapper;
    s.(ws := s.ws[w := s.ws[w].(subs := s.ws[w].subs - 1)], ls := s.ls[l := s.ls[l].(calls := s.ls[l].calls + 1)])
  }

  lemma TunedCalled(s: Scene, l: nat)
    requires Tuned(s) && l < |s.ls| && s.ls[l].wrapper < |s.ws|
    ensures Tuned(Called(s, l))
  {
    var t := Called(s, l);
    forall i | 0 <= i < |t.ws| ensures WrapperTagged(t, i) {
      assert WrapperTagged(s, i);
      if Unheard(s.ls, i) {
        forall k | 0 <= k < |t.ls| ensures t.ls[k].wrapper != i { assert s.ls[k].wrapper != i; }
      }
    }
    forall k | 0 <= k < |t.ls| ensures ListenerTagged(t, k) { assert ListenerTagged(s, k); }
    if OnceEach(t.ls) {
      forall k | 0 <= k < |s.ls| ensures s.ls[k].calls <= 1 { assert t.ls[k].calls <= 1; }
      forall k | 0 <= k < |t.ls| ensures OnWrapperStore(t, k) {
        assert ListenerTagged(s, k) && OnWrapperStore(s, k);
      }
    }
  }

  // One more listener on what its wrapper now holds.
  function Joined(s: Scene, w: nat): Scene
    requires w < |s.ws|
  {
    var me := s.ws[w];
    s.(ws := s.ws[w := me.(subs := me.subs + 1)], ls := s.ls + [Listener(w, me.store, EraOf(me), 0)])
  }

  lemma TunedJoin(s: Scene, w: nat)
    requires Tuned(s) && w < |s.ws| && s.ws[w].era.Some?
    ensures Tuned(Joined(s, w))
  {
    var t := Joined(s, w);
    assert WrapperTagged(s, w);
    forall i | 0 <= i < |t.ws| ensures WrapperTagged(t, i) { assert WrapperTagged(s, i); }
    forall l | 0 <= l < |t.ls| ensures ListenerTagged(t, l) {
      if l < |s.ls| { assert ListenerTagged(s, l); }
    }
    if OnceEach(t.ls) {
      forall l | 0 <= l < |s.ls| ensures s.ls[l].calls <= 1 { assert t.ls[l].calls <= 1; }
      forall l | 0 <= l < |t.ls| ensures OnWrapperStore(t, l) {
        if l < |s.ls| { assert ListenerTagged(s, l) && OnWrapperStore(s, l); }
      }
    }
  }

  // The wrapper takes the store looked up, or a new one, for a first listener.
  function Taken(s: Scene, w: nat): Scene
    requires w < |s.ws|
  {
    var place := PlaceOf(s.ws[w]);
    var store := if place in s.stores then s.stores[place] else s.next;
    var me := s.ws[w].(store := store, era := Some(Count(s.gone, s.ws[w].topic)));
    s.(ws := s.ws[w := me], stores := s.stores[place := store],
       next := if place in s.stores then s.next else s.next + 1,
       counts := s.counts[me.topic := Count(s.counts, me.topic) + 1])
  }

  lemma TunedTake(s: Scene, w: nat)
    requires Tuned(s) && Tallied(s.ws, s.ls) && w < |s.ws| && s.ws[w].subs == 0
    ensures Tuned(Taken(s, w))
  {
    var t := Taken(s, w);
    var u := t.(ws := s.ws);
    TunedFollows(s, u);
    forall i | 0 <= i < |t.ws| ensures WrapperTagged(t, i) { assert WrapperTagged(u, i); }
    forall l | 0 <= l < |t.ls| ensures ListenerTagged(t, l) { assert ListenerTagged(u, l); }
    SubsCountLive(s.ls, w);
    forall l | 0 <= l < |t.ls| && OnceEach(t.ls) ensures OnWrapperStore(t, l) {
      assert ListenerTagged(u, l) && OnWrapperStore(u, l);
      assert s.ls[l].calls <= 1;
    }
  }

  // The whole of a first listener's arrival, and of another's.
  lemma TunedStart(s: Scene, w: nat)
    requires Tuned(s) && Tallied(s.ws, s.ls) && w < |s.ws| && s.ws[w].subs == 0
    ensures Tuned(Joined(Taken(s, w), w))
  {
    TunedTake(s, w);
    TunedJoin(Taken(s, w), w);
  }

  lemma TunedAnother(s: Scene, w: nat)
    requires Tuned(s) && Tallied(s.ws, s.ls) && w < |s.ws| && s.ws[w].subs != 0
    ensures Tuned(Joined(s, w))
  {
    assert WrapperTagged(s, w);
    NoListenersAt(s.ls, w);
    TunedJoin(s, w);
  }

  lemma TunedUnlisten(s: Scene, l: nat)
    requires Tuned(s) && Separate(s.ws) && l < |s.ls| && s.ls[l].wrapper < |s.ws|
    ensures
      var w := s.ws[s.ls[l].wrapper];
      Tuned(Called(s, l)) && Tuned(Dropped(Called(s, l), w.topic))
  {
    var i := s.ls[l].wrapper;
    TunedCalled(s, l);
    SeparateUpdate(s.ws, i, Called(s, l).ws[i]);
    assert ClearOf(Called(s, l).ws[i].topic, Called(s, l).ws);
    TunedDrop(Called(s, l), s.ws[i].topic);
  }

  /** A listener is on the store dispatch looks up exactly when the era of its store still lasts. */
  lemma HearsInItsEra(s: Scene, l: nat)
    requires Tuned(s) && l < |s.ls| && s.ls[l].wrapper < |s.ws|
    ensures
      var w := s.ws[s.ls[l].wrapper];
      IsKept(s.stores, PlaceOf(w), s.ls[l].store) <==> s.ls[l].era == Count(s.gone, w.topic)
  {
    assert ListenerTagged(s, l);
  }

  // ---- every step keeps the whole ----------------------------------------------------------------------

  /** What holds in every run: wrappers count their own listeners, and no clean-up can take a used store. */
  predicate Sound(s: Scene, cleanups: Cleanups) {
    Tallied(s.ws, s.ls) && Unused(s.stores, s.counts, cleanups, s.ws, s.ls, s.next)
  }

  datatype Aspect = Holding | Hearing

  ghost predicate Keeps(a: Aspect, s: Scene, direct: Counts, cleanups: Cleanups) {
    match a
    case Holding => AllBalanced(s.stores, s.counts, direct, s.ws, cleanups)
    case Hearing => Tuned(s)
  }

  /** What holds by the code's own counts, in every run over separate topics with no forced unsubscribe. */
  ghost predicate Even(s: Scene, direct: Counts, cleanups: Cleanups) {
    forall a: Aspect :: Keeps(a, s, direct, cleanups)
  }

  lemma EvenMeans(s: Scene, direct: Counts, cleanups: Cleanups)
    ensures Even(s, direct, cleanups) <==> AllBalanced(s.stores, s.counts, direct, s.ws, cleanups) && Tuned(s)
  {
    assert Keeps(Holding, s, direct, cleanups) <==> AllBalanced(s.stores, s.counts, direct, s.ws, cleanups);
    assert Keeps(Hearing, s, direct, cleanups) <==> Tuned(s);
  }

  function Subscribed(s: Scene, topic: Topic): Scene {
    s.(counts := s.counts[topic := Count(s.counts, topic) + 1])
  }

  lemma SubscribeKeeps(s: Scene, direct: Counts, cleanups: Cleanups, topic: Topic)
    requires Sound(s, cleanups)
    ensures Sound(Subscribed(s, topic), cleanups)
    ensures Even(s, direct, cleanups) ==>
      Even(Subscribed(s, topic), direct[topic := Count(direct, topic) + 1], cleanups)
  {
    EvenMeans(s, direct, cleanups);
    var t := Subscribed(s, topic);
    UnusedGrows(s.stores, s.counts, cleanups, s.ws, s.ls, s.next, t.stores, t.counts, t.ws, t.ls, t.next);
    if Even(s, direct, cleanups) {
      CountedAdd(s.counts, direct, s.ws, topic);
      HeldGrows(s.counts, topic);
      AccountedGrows(s.stores, s.counts, cleanups, s.ws, t.stores, t.counts, cleanups, t.ws);
      TunedAdd(s, topic);
    }
    EvenMeans(t, direct[topic := Count(direct, topic) + 1], cleanups);
  }

  lemma ReleaseKeeps(s: Scene, direct: Counts, cleanups: Cleanups, topic: Topic)
    requires Sound(s, cleanups)
    ensures Sound(Dropped(s, topic), cleanups)
    ensures Even(s, direct, cleanups) && Count(direct, topic) > 0 && ClearOf(topic, s.ws) ==>
      Even(Dropped(s, topic), Less(direct, topic), cleanups)
  {
    EvenMeans(s, direct, cleanups);
    UnusedDrop(s.stores, s.counts, cleanups, s.ws, s.ls, s.next, topic);
    if Even(s, direct, cleanups) && Count(direct, topic) > 0 && ClearOf(topic, s.ws) {
      CountedLess(s.counts, direct, s.ws, topic);
      DropKeeps(s.stores, s.counts, Less(direct, topic), s.ws, cleanups, topic);
      TunedDrop(s, topic);
    }
    EvenMeans(Dropped(s, topic), Less(direct, topic), cleanups);
  }

  // A new store has its clean-up.
  function MadeCleanups(s: Scene, cleanups: Cleanups, me: Wrapper): Cleanups {
    if PlaceOf(me) in s.stores then cleanups else cleanups + [Cleanup(|s.ws|, s.next)]
  }

  lemma MakeKeeps(s: Scene, direct: Counts, cleanups: Cleanups, me: Wrapper)
    requires Sound(s, cleanups) && me.subs == 0 && me.era.None?
    ensures Sound(Made(s, me), MadeCleanups(s, cleanups, me))
    ensures Even(s, direct, cleanups) && ClearOf(me.topic, s.ws) ==>
      Even(Made(s, me), direct, MadeCleanups(s, cleanups, me))
  {
    EvenMeans(s, direct, cleanups);
    MakeKeepsHolds(s, direct, cleanups, me, Even(s, direct, cleanups) && ClearOf(me.topic, s.ws));
    if Even(s, direct, cleanups) { TunedOn(s, me); }
    EvenMeans(Made(s, me), direct, MadeCleanups(s, cleanups, me));
  }

  lemma MakeKeepsHolds(s: Scene, direct: Counts, cleanups: Cleanups, me: Wrapper, fair: bool)
    requires Sound(s, cleanups) && me.subs == 0
    requires fair ==> AllBalanced(s.stores, s.counts, direct, s.ws, cleanups) && ClearOf(me.topic, s.ws)
    ensures Sound(Made(s, me), MadeCleanups(s, cleanups, me))
    ensures fair ==> AllBalanced(Made(s, me).stores, s.counts, direct, s.ws + [me], MadeCleanups(s, cleanups, me))
  {
    if PlaceOf(me) in s.stores {
      OnKeeps(s.stores, s.counts, direct, s.ws, s.ls, cleanups, s.next, me, fair);
    } else {
      OnCreates(s.stores, s.counts, direct, s.ws, s.ls, cleanups, s.next, me, fair);
    }
  }

  // A listener arrives: a first one by the wrapper's count has the wrapper take a store.
  function Arrived(s: Scene, w: nat): Scene
    requires w < |s.ws|
  {
    if s.ws[w].subs == 0 then Joined(Taken(s, w), w) else Joined(s, w)
  }

  lemma ListenKept(s: Scene, direct: Counts, cleanups: Cleanups, w: nat)
    requires Sound(s, cleanups) && w < |s.ws|
    ensures Sound(Arrived(s, w), cleanups)
    ensures Even(s, direct, cleanups) ==> Even(Arrived(s, w), direct, cleanups)
  {
    EvenMeans(s, direct, cleanups);
    ListenKeepsHolds(s, direct, cleanups, w, Even(s, direct, cleanups));
    if Even(s, direct, cleanups) && s.ws[w].subs == 0 { TunedStart(s, w); }
    if Even(s, direct, cleanups) && s.ws[w].subs != 0 { TunedAnother(s, w); }
    EvenMeans(Arrived(s, w), direct, cleanups);
  }

  lemma ListenKeepsHolds(s: Scene, direct: Counts, cleanups: Cleanups, w: nat, fair: bool)
    requires Sound(s, cleanups) && w < |s.ws|
    requires fair ==> AllBalanced(s.stores, s.counts, direct, s.ws, cleanups)
    ensures Sound(Arrived(s, w), cleanups)
    ensures fair ==> AllBalanced(Arrived(s, w).stores, Arrived(s, w).counts, direct, Arrived(s, w).ws, cleanups)
  {
    if s.ws[w].subs == 0 {
      StartKeepsHolds(s, direct, cleanups, w, fair, Arrived(s, w));
    } else {
      ListenJoins(s.stores, s.counts, direct, s.ws, s.ls, cleanups, s.next, w, Arrived(s, w).ls[|s.ls|], fair);
    }
  }

  lemma StartKeepsHolds(s: Scene, direct: Counts, cleanups: Cleanups, w: nat, fair: bool, t: Scene)
    requires Sound(s, cleanups) && w < |s.ws| && s.ws[w].subs == 0 && t == Arrived(s, w)
    requires fair ==> AllBalanced(s.stores, s.counts, direct, s.ws, cleanups)
    ensures Sound(t, cleanups) && (fair ==> AllBalanced(t.stores, t.counts, direct, t.ws, cleanups))
  {
    StartParts(s, w, t.ws[w], t.ls[|s.ls|]);
    ListenStarts(s.stores, s.counts, direct, s.ws, s.ls, cleanups, s.next, w, t.ws[w], t.ls[|s.ls|], fair);
  }

  lemma StartParts(s: Scene, w: nat, me: Wrapper, l: Listener)
    requires w < |s.ws| && s.ws[w].subs == 0
    requires me == Arrived(s, w).ws[w] && l == Arrived(s, w).ls[|s.ls|]
    ensures Arrived(s, w) == s.(ws := s.ws[w := me], ls := s.ls + [l], stores := s.stores[PlaceOf(me) := me.store],
      counts := s.counts[me.topic := Count(s.counts, me.topic) + 1],
      next := if PlaceOf(me) in s.stores then s.next else s.next + 1)
    ensures me.topic == s.ws[w].topic && me.event == s.ws[w].event && me.subs == 1 && l.wrapper == w && l.calls == 0
    ensures me.store == if PlaceOf(me) in s.stores then s.stores[PlaceOf(me)] else s.next
  {
    var t := Taken(s, w);
    assert s.ws[w := t.ws[w]][w := me] == s.ws[w := me];
  }

  // A returned function is called: when the wrapper's count reaches zero its topic loses a hold.
  function Unlistened(s: Scene, l: nat): Scene
    requires l < |s.ls| && s.ls[l].wrapper < |s.ws|
  {
    var me := s.ws[s.ls[l].wrapper];
    if me.subs == 1 then Dropped(Called(s, l), me.topic) else Called(s, l)
  }

  lemma UnlistenKept(s: Scene, direct: Counts, cleanups: Cleanups, l: nat)
    requires Sound(s, cleanups) && l < |s.ls|
    ensures Sound(Unlistened(s, l), cleanups)
    ensures Even(s, direct, cleanups) ==> Even(Unlistened(s, l), direct, cleanups)
  {
    EvenMeans(s, direct, cleanups);
    var fair := Even(s, direct, cleanups);
    UnlistenAll(s.stores, s.counts, direct, s.ws, s.ls, cleanups, s.next, l, fair);
    if fair { TunedUnlisten(s, l); }
    EvenMeans(Unlistened(s, l), direct, cleanups);
  }

  // A clean-up runs: it takes back its store if it is still there, at a topic nobody holds and the wrapper unused.
  function CleanedUp(s: Scene, c: Cleanup): Scene
    requires c.wrapper < |s.ws|
  {
    var w := s.ws[c.wrapper];
    if w.subs == 0 && w.topic !in s.counts && IsKept(s.stores, PlaceOf(w), c.store)
    then s.(stores := s.stores - {PlaceOf(w)}) else s
  }

  lemma CleanUpKept(s: Scene, direct: Counts, cleanups: Cleanups)
    requires Sound(s, cleanups) && |cleanups| > 0
    ensures cleanups[0].wrapper < |s.ws| && Sound(CleanedUp(s, cleanups[0]), cleanups[1..])
    ensures Even(s, direct, cleanups) ==> Even(CleanedUp(s, cleanups[0]), direct, cleanups[1..])
  {
    EvenMeans(s, direct, cleanups);
    CleanUpIsSound(s, cleanups);
    if Even(s, direct, cleanups) {
      CleanUpIsBalanced(s, direct, cleanups);
      var c := cleanups[0].wrapper;
      if s.ws[c].topic !in s.counts { TunedCleanUp(s, c); }
    }
    EvenMeans(CleanedUp(s, cleanups[0]), direct, cleanups[1..]);
  }

  lemma CleanUpIsSound(s: Scene, cleanups: Cleanups)
    requires Sound(s, cleanups) && |cleanups| > 0
    ensures cleanups[0].wrapper < |s.ws| && Sound(CleanedUp(s, cleanups[0]), cleanups[1..])
  {
    assert IsUnused(cleanups[0], s.stores, s.counts, s.ws, s.ls, s.next);
    var t := CleanedUp(s, cleanups[0]);
    UnusedGrows(s.stores, s.counts, cleanups[1..], s.ws, s.ls, s.next, t.stores, t.counts, t.ws, t.ls, t.next);
  }

  lemma CleanUpIsBalanced(s: Scene, direct: Counts, cleanups: Cleanups)
    requires Sound(s, cleanups) && |cleanups| > 0 && AllBalanced(s.stores, s.counts, direct, s.ws, cleanups)
    requires cleanups[0].wrapper < |s.ws|
    ensures AllBalanced(CleanedUp(s, cleanups[0]).stores, s.counts, direct, s.ws, cleanups[1..])
  {
    FirstIsUnused(s.stores, s.counts, cleanups, s.ws, s.ls, s.next);
    AccountedAfter(s.stores, s.counts, cleanups, s.ws, CleanedUp(s, cleanups[0]).stores);
    OthersKeepTheirs(s.counts, direct, s.ws, cleanups[0].wrapper);
  }

  /** No live wrapper looks where one looks whose topic nobody holds. */
  lemma OthersKeepTheirs(counts: Counts, direct: Counts, ws: Wrappers, c: nat)
    requires Counted(counts, direct, ws) && Separate(ws) && c < |ws|
    ensures ws[c].topic !in counts ==>
      forall i | 0 <= i < |ws| && ws[i].subs > 0 :: PlaceOf(ws[i]) != PlaceOf(ws[c])
  {
    forall i | 0 <= i < |ws| && ws[i].subs > 0
      ensures PlaceOf(ws[i]) == PlaceOf(ws[c]) ==> ws[c].topic in counts
    {
      LiveIsCounted(counts, direct, ws, i);
      assert ClearOf(ws[c].topic, ws);
      OwnsItsOwn(ws[c].topic, ws[i].topic, ws[i].event);
      OwnsItsOwn(ws[c].topic, ws[c].topic, ws[c].event);
    }
  }
}
