/**
 followStore and ensureConnection of src/client.js: stores that follow the singleton connection
 across replacement. A store callback may connect, close, create, subscribe or unsubscribe;
 `script` lists what the callbacks will do, so a proof over every script is a proof over every
 finite re-entry.
 */
module Following {
  import opened Options

  datatype Reaction =
    | Return
    | CallConnect
    | CallClose(conn: nat)
    | CallFollowStore
    | CallSubscribe(store: nat)
    | CallUnsubscribe(follower: nat)

  // One subscriber of a followed store, and one subscription it took on a connection's own store.
  datatype Follower = Follower(store: nat, active: bool, generation: nat, stop: Option<nat>)
  datatype Upstream = Upstream(conn: nat, owner: nat, generation: nat)

  // connectionFollowers holds exactly the active ones, each once.
  predicate Listed(following: seq<nat>, followers: seq<Follower>) {
    && (forall i | 0 <= i < |following| :: following[i] < |followers| && followers[following[i]].active)
    && (forall i, j | 0 <= i < j < |following| :: following[i] != following[j])
    && (forall f | 0 <= f < |followers| && followers[f].active :: f in following)
  }

  // A subscription a follower keeps is its own, and no follow() still on the stack has it.
  ghost predicate Owned(followers: seq<Follower>, subs: seq<Upstream>, held: set<nat>) {
    && (forall s | 0 <= s < |subs| :: subs[s].owner < |followers|)
    && (forall s | s in held :: s < |subs|)
    && (forall f | 0 <= f < |followers| && followers[f].stop.Some? ::
          followers[f].active && followers[f].stop.value < |subs| && followers[f].stop.value !in held
          && subs[followers[f].stop.value].owner == f)
  }

  // Released once, unless still taken.
  ghost predicate Balanced(followers: seq<Follower>, subs: seq<Upstream>, releases: seq<nat>, held: set<nat>) {
    && |releases| == |subs|
    && forall s | 0 <= s < |subs| && subs[s].owner < |followers| ::
         releases[s] == if s in held || followers[subs[s].owner].stop == Some(s) then 0 else 1
  }

  /** The module's variables at one moment. Connections, stores, followers and subscriptions are numbered. */
  datatype World = World(
    connections: nat, singletonClosed: bool,
    following: seq<nat>,          // connectionFollowers, in insertion order
    selected: seq<nat>,           // the connection each followed store last selected
    followers: seq<Follower>,
    subs: seq<Upstream>,
    releases: seq<nat>,           // how often each subscription was released
    // History: whether each connection was created by connect(), and the connections whose close() was called.
    makers: seq<bool>, closings: set<nat>)
  {
    // The singleton is the last connection created; 0 created means none.
    predicate IsSingleton(conn: nat) { connections == conn + 1 }

    predicate Holds(f: nat, s: nat)
      requires f < |followers|
    {
      followers[f].stop == Some(s)
    }

    /** A follower is where it should be: gone, or on the singleton with a callback that still passes its filter. */
    predicate Good(f: nat)
      requires f < |followers|
    {
      followers[f].active ==>
        && followers[f].stop.Some?
        && followers[f].stop.value < |subs|
        && IsSingleton(subs[followers[f].stop.value].conn)
        && subs[followers[f].stop.value].generation == followers[f].generation
    }

    /** Book-keeping that holds at every callback; `held` are subscriptions a follow() still on the stack has taken. */
    ghost predicate Coherent(held: set<nat>) {
      && Warranted()
      && Listed(following, followers)
      && (forall f | 0 <= f < |followers| :: followers[f].store < |selected|)
      && (forall s | 0 <= s < |subs| :: subs[s].conn < connections)
      && Owned(followers, subs, held)
      && Balanced(followers, subs, releases, held)
    }

    /**
     Why there are as many connections as there are: each one after the first was asked for by connect() once
     close() had been called on the one before; and the module knows whether the singleton's was.
     */
    ghost predicate Warranted() {
      && |makers| == connections
      && (forall c | c in closings :: c < connections)
      && (forall c | 1 <= c < connections :: makers[c] && c - 1 in closings)
      && (singletonClosed <==> connections > 0 && connections - 1 in closings)
    }

    /** What holds whenever no call is in progress. */
    ghost predicate Steady() {
      Coherent({}) && forall f | 0 <= f < |followers| :: Good(f)
    }
  }

  /**
   What any mix of calls may do to the world before it; `unsettled` are the followers a call in
   progress has still to place.
   */
  ghost predicate MovedBut(a: World, b: World, unsettled: set<nat>) {
    && a.connections <= b.connections
    && |a.followers| <= |b.followers|
    && |a.selected| <= |b.selected|
    && a.subs <= b.subs
    && a.makers <= b.makers && a.closings <= b.closings
    && (forall f | 0 <= f < |a.followers| :: Aged(a.followers[f], b.followers[f]))
    && (forall f | 0 <= f < |b.followers| && f !in unsettled :: Placed(a, b, f))
  }

  predicate Aged(before: Follower, after: Follower) {
    && before.generation <= after.generation
    && (before.generation == after.generation ==> before == after)
    && (after.active ==> before.active)
    && before.store == after.store
  }

  predicate Placed(a: World, b: World, f: nat)
    requires f < |b.followers|
  {
    (a.connections == b.connections && f < |a.followers| && a.followers[f] == b.followers[f]) || b.Good(f)
  }

  ghost predicate Moved(a: World, b: World) {
    MovedBut(a, b, {})
  }

  lemma MovedTransitive(a: World, b: World, c: World, unsettled: set<nat>)
    requires MovedBut(a, b, unsettled) && Moved(b, c)
    ensures MovedBut(a, c, unsettled)
    ensures b.connections < c.connections ==> Moved(a, c)
  {
    forall f | 0 <= f < |c.followers|
      ensures f !in unsettled || b.connections < c.connections ==> Placed(a, c, f)
    {
      assert Placed(b, c, f);
      if f < |b.followers| && f !in unsettled { assert Placed(a, b, f); }
    }
    forall f | 0 <= f < |a.followers| ensures Aged(a.followers[f], c.followers[f]) {
      assert Aged(a.followers[f], b.followers[f]) && Aged(b.followers[f], c.followers[f]);
    }
  }

  /** A follower placed before a move is placed after it, and one the move touched is placed. */
  lemma StaysGood(a: World, b: World, f: nat)
    requires Moved(a, b) && f < |a.followers|
    ensures a.Good(f) || a.followers[f] != b.followers[f] || a.connections != b.connections ==> b.Good(f)
  {
    assert Placed(a, b, f);
  }

  lemma SteadyAgain(a: World, b: World)
    requires a.Steady() && Moved(a, b) && b.Coherent({})
    ensures b.Steady()
  {
    forall f | 0 <= f < |b.followers| ensures b.Good(f) {
      assert Placed(a, b, f);
      if f < |a.followers| { assert a.Good(f); }
    }
  }

  /**
   Each live follower holds exactly one subscription, on the singleton; every other subscription it
   ever took has been released exactly once.
   */
  lemma HoldsExactlyOne(w: World, f: nat, s: nat)
    requires w.Steady() && f < |w.followers| && s < |w.subs| && w.subs[s].owner == f
    ensures w.releases[s] == if w.followers[f].stop == Some(s) then 0 else 1
    ensures w.followers[f].active <==> w.followers[f].stop.Some?
    ensures w.followers[f].stop == Some(s) ==> w.IsSingleton(w.subs[s].conn)
  {
    assert w.Good(f);
  }

  // ---- the steps of one follow() ----------------------------------------------------------------

  function Release(w: World, s: nat): World
    requires s < |w.releases|
  {
    w.(releases := w.releases[s := w.releases[s] + 1])
  }

  function Detach(w: World, f: nat, active: bool): World
    requires f < |w.followers|
    requires w.followers[f].stop.Some? ==> w.followers[f].stop.value < |w.releases|
  {
    var was := w.followers[f];
    var freed := w.(followers := w.followers[f := Follower(was.store, active, was.generation + 1, None)]);
    if was.stop.Some? then Release(freed, was.stop.value) else freed
  }

  function Take(w: World, f: nat): World
    requires f < |w.followers| && w.followers[f].store < |w.selected|
  {
    w.(subs := w.subs + [Upstream(w.selected[w.followers[f].store], f, w.followers[f].generation)],
       releases := w.releases + [0])
  }

  function Keep(w: World, f: nat, s: nat): World
    requires f < |w.followers|
  {
    w.(followers := w.followers[f := w.followers[f].(stop := Some(s))])
  }

  lemma DetachCoherent(w: World, held: set<nat>, f: nat)
    requires w.Coherent(held) && f < |w.followers| && w.followers[f].active
    ensures Detach(w, f, true).Coherent(held) && MovedBut(w, Detach(w, f, true), {f})
  {
    var d := Detach(w, f, true);
    forall s | 0 <= s < |d.subs|
      ensures d.releases[s] == if s in held || d.Holds(d.subs[s].owner, s) then 0 else 1
    {
    }
  }

  lemma TakeCoherent(w: World, held: set<nat>, f: nat)
    requires w.Coherent(held) && f < |w.followers| && w.selected[w.followers[f].store] < w.connections
    ensures Take(w, f).Coherent(held + {|w.subs|}) && Moved(w, Take(w, f))
  {
    var t := Take(w, f);
    forall s | 0 <= s < |t.subs|
      ensures t.releases[s] == if s in held + {|w.subs|} || t.Holds(t.subs[s].owner, s) then 0 else 1
    {
    }
    forall g | 0 <= g < |t.followers| ensures Placed(w, t, g) {}
  }

  ghost function Members(fs: seq<nat>): set<nat> {
    set f | f in fs
  }

  lemma OneFewer(a: World, b: World, copy: seq<nat>, k: nat)
    requires k < |copy| && copy[k] < |b.followers| && b.Good(copy[k])
    requires MovedBut(a, b, Members(copy[k..]))
    ensures MovedBut(a, b, Members(copy[k + 1..]))
  {
    assert copy[k..] == [copy[k]] + copy[k + 1..];
    forall f | 0 <= f < |b.followers| && f !in Members(copy[k + 1..]) ensures Placed(a, b, f) {
    }
  }

  function Replace(w: World, explicit: bool): World {
    w.(singletonClosed := false, connections := w.connections + 1, makers := w.makers + [explicit])
  }

  lemma ReplaceCoherent(w: World, held: set<nat>, explicit: bool)
    requires w.Coherent(held) && (w.connections == 0 || (explicit && w.singletonClosed))
    ensures Replace(w, explicit).Coherent(held) && MovedBut(w, Replace(w, explicit), Members(w.following))
  {
    forall f | 0 <= f < |w.followers| && f !in w.following ensures Placed(w, Replace(w, explicit), f) {
      assert !w.followers[f].active;
    }
  }

  function Join(w: World, store: nat): World {
    w.(followers := w.followers + [Follower(store, true, 0, None)], following := w.following + [|w.followers|])
  }

  lemma JoinMoves(w: World, held: set<nat>, store: nat)
    requires w.Coherent(held) && store < |w.selected|
    ensures MovedBut(w, Join(w, store), {|w.followers|})
  {
    forall f | 0 <= f < |w.followers| ensures Placed(w, Join(w, store), f) {}
  }

  lemma JoinCoherent(w: World, held: set<nat>, store: nat)
    requires w.Coherent(held) && store < |w.selected|
    ensures Join(w, store).Coherent(held) && MovedBut(w, Join(w, store), {|w.followers|})
  {
    JoinMoves(w, held, store);
    var j := Join(w, store);
    forall s | 0 <= s < |j.subs|
      ensures j.releases[s] == if s in held || j.Holds(j.subs[s].owner, s) then 0 else 1
    {
    }
  }

  function Without(fs: seq<nat>, f: nat): (r: seq<nat>)
    requires forall i, j | 0 <= i < j < |fs| :: fs[i] != fs[j]
    ensures forall g :: g in r <==> g in fs && g != f
    ensures forall i, j | 0 <= i < j < |r| :: r[i] != r[j]
  {
    if fs == [] then []
    else if fs[0] == f then fs[1..]
    else
      var rest := Without(fs[1..], f);
      assert fs[0] !in rest;
      [fs[0]] + rest
  }

  function Leave(w: World, f: nat): World
    requires f < |w.followers|
    requires w.followers[f].stop.Some? ==> w.followers[f].stop.value < |w.releases|
    requires forall i, j | 0 <= i < j < |w.following| :: w.following[i] != w.following[j]
  {
    Detach(w, f, false).(following := Without(w.following, f))
  }

  lemma LeaveMoves(w: World, held: set<nat>, f: nat)
    requires w.Coherent(held) && f < |w.followers| && w.followers[f].active
    ensures Moved(w, Leave(w, f))
  {
    forall g | 0 <= g < |w.followers| ensures Placed(w, Leave(w, f), g) {}
  }

  lemma LeaveCoherent(w: World, held: set<nat>, f: nat)
    requires w.Coherent(held) && f < |w.followers| && w.followers[f].active
    ensures Leave(w, f).Coherent(held) && Moved(w, Leave(w, f))
  {
    LeaveMoves(w, held, f);
    LeaveReleases(w, held, f);
    var l := Leave(w, f);
    forall i | 0 <= i < |l.following| ensures l.following[i] < |l.followers| && l.followers[l.following[i]].active {
      assert l.following[i] in w.following;
    }
  }

  lemma LeaveReleases(w: World, held: set<nat>, f: nat)
    requires w.Coherent(held) && f < |w.followers| && w.followers[f].active
    ensures
      var l := Leave(w, f);
      forall s | 0 <= s < |l.subs| :: l.releases[s] == if s in held || l.Holds(l.subs[s].owner, s) then 0 else 1
  {
  }

  lemma KeepCoherent(w: World, held: set<nat>, f: nat, s: nat)
    requires w.Coherent(held) && f < |w.followers| && s in held
    requires w.followers[f].active && w.followers[f].stop.None? && w.subs[s].owner == f
    ensures Keep(w, f, s).Coherent(held - {s})
  {
    var k := Keep(w, f, s);
    forall r | 0 <= r < |k.subs|
      ensures k.releases[r] == if r in held - {s} || k.Holds(k.subs[r].owner, r) then 0 else 1
    {
    }
  }

  lemma KeepMoved(start: World, w: World, f: nat, s: nat)
    requires MovedBut(start, w, {f}) && f < |start.followers| && s < |w.subs|
    requires start.followers[f].generation < w.followers[f].generation
    requires w.IsSingleton(w.subs[s].conn) && w.subs[s].generation == w.followers[f].generation
    ensures Moved(start, Keep(w, f, s)) && Keep(w, f, s).Good(f)
  {
    var k := Keep(w, f, s);
    forall g | 0 <= g < |k.followers| ensures Placed(start, k, g) {
      if g != f { assert Placed(start, w, g); }
    }
  }

  lemma ReleaseCoherent(w: World, held: set<nat>, s: nat)
    requires w.Coherent(held) && s in held
    ensures Release(w, s).Coherent(held - {s}) && Moved(w, Release(w, s))
  {
    var r := Release(w, s);
    forall t | 0 <= t < |r.subs|
      ensures r.releases[t] == if t in held - {s} || r.Holds(r.subs[t].owner, t) then 0 else 1
    {
    }
    forall g | 0 <= g < |r.followers| ensures Placed(w, r, g) {}
  }

  // A new followed store, with the connection it selected.
  function Offer(w: World, conn: nat): World {
    w.(selected := w.selected + [conn])
  }

  lemma OfferCoherent(start: World, w: World, held: set<nat>, conn: nat)
    requires w.Coherent(held) && Moved(start, w)
    ensures Offer(w, conn).Coherent(held) && Moved(start, Offer(w, conn))
  {
    forall f | 0 <= f < |w.followers| ensures Placed(w, Offer(w, conn), f) {}
    MovedTransitive(start, w, Offer(w, conn), {});
  }

  /** The module itself: its variables, stepped by the calls of its users. */
  class Module {
    var world: World
    var script: seq<Reaction>
    ghost var held: set<nat>

    twostate predicate Onward()
      reads this
    {
      && world.Coherent(held)
      && held == old(held)
      && Moved(old(world), world)
      && |script| <= old(|script|)
    }

    // With no callback left to run, a call creates no connection but its own.
    twostate predicate Quiet()
      reads this
    {
      old(script) == [] ==> world.connections == old(world).connections && script == []
    }

    constructor (script: seq<Reaction>)
      ensures world.Steady() && held == {}
    {
      world := World(0, false, [], [], [], [], [], [], {});
      held := {};
      this.script := script;
    }

    // A callback runs and may call back in.
    method React()
      requires world.Coherent(held)
      modifies this
      ensures Onward() && Quiet()
      decreases |script|, 0
    {
      while script != [] && script[0] != Return
        invariant Onward() && Quiet()
        decreases |script|
      {
        ghost var before := world;
        var reaction := script[0];
        script := script[1..];
        match reaction {
          case CallConnect => var _ := EnsureConnection(true);
          case CallClose(conn) => if conn < world.connections { Close(conn); }
          case CallFollowStore => var _ := FollowStore();
          case CallSubscribe(store) => if store < |world.selected| { var _ := Subscribe(store); }
          case CallUnsubscribe(f) => if f < |world.followers| { Unsubscribe(f); }
          case Return => assert false;
        }
        MovedTransitive(old(world), before, world, {});
      }
      if script != [] { script := script[1..]; }
    }

    // There is no singleton, or its user closed it and connect() asks for another.
    predicate Wanting(explicit: bool)
      reads `world
    {
      world.connections == 0 || (explicit && world.singletonClosed)
    }

    // ensureConnection; connect() is the explicit call.
    method EnsureConnection(explicit: bool) returns (conn: nat)
      requires world.Coherent(held)
      modifies this
      ensures Onward()
      ensures world.IsSingleton(conn)
      ensures !old(Wanting(explicit)) ==> world == old(world) && script == old(script)
      ensures old(Wanting(explicit)) ==>
        world.connections > old(world).connections && world.makers[old(world).connections] == explicit
      ensures old(script) == [] ==>
        script == [] && world.connections == old(world).connections + if old(Wanting(explicit)) then 1 else 0
      decreases |script|, 5
    {
      if world.connections == 0 || (explicit && world.singletonClosed) {
        conn := world.connections;
        ReplaceCoherent(world, held, explicit);
        world := Replace(world, explicit);
        FollowAll(world.following, conn, old(world));
      }
      conn := world.connections - 1;
    }

    // The loop of ensureConnection over a copy of the followers.
    method FollowAll(copy: seq<nat>, conn: nat, ghost start: World)
      requires world.Coherent(held) && world.IsSingleton(conn) && start.connections <= conn
      requires forall i | 0 <= i < |copy| :: copy[i] < |world.followers|
      requires MovedBut(start, world, Members(copy))
      modifies this
      ensures world.Coherent(held) && held == old(held) && |script| <= old(|script|) && Quiet()
      ensures Moved(start, world) && conn < world.connections && old(world).makers <= world.makers
      decreases |script|, 4
    {
      for k := 0 to |copy|
        invariant world.Coherent(held) && held == old(held) && |script| <= old(|script|) && Quiet()
        invariant conn < world.connections && old(world).makers <= world.makers
        invariant |old(world).followers| <= |world.followers|
        invariant MovedBut(start, world, if world.connections == conn + 1 then Members(copy[k..]) else {})
      {
        if world.connections != conn + 1 { return; }
        ghost var before := world;
        Follow(copy[k], conn);
        MovedTransitive(start, before, world, Members(copy[k..]));
        OneFewer(start, world, copy, k);
      }
    }

    // The follow(connection) closure of one subscriber.
    method Follow(f: nat, conn: nat)
      requires world.Coherent(held) && f < |world.followers| && world.IsSingleton(conn)
      modifies this
      ensures Onward() && Quiet() && world.Good(f)
      decreases |script|, 3
    {
      if !world.followers[f].active { return; }
      ghost var start := world;
      var own := world.followers[f].generation + 1;
      LetGo(f);
      if !Ours(f, own, conn) { return; }
      Attach(f, conn, start);
    }

    predicate Ours(f: nat, own: nat, conn: nat)
      requires f < |world.followers|
      reads this
    {
      world.followers[f].active && own == world.followers[f].generation && world.connections == conn + 1
    }

    // const previous = stop; stop = null; previous?.()
    method LetGo(f: nat)
      requires world.Coherent(held) && f < |world.followers| && world.followers[f].active
      modifies this
      ensures world.Coherent(held) && held == old(held) && |script| <= old(|script|) && Quiet()
      ensures MovedBut(old(world), world, {f})
      ensures
        var was := old(world).followers[f];
        if world.followers[f].generation == was.generation + 1
        then world.followers[f] == Follower(was.store, true, was.generation + 1, None)
        else world.Good(f)
      ensures world.connections != old(world).connections ==> world.Good(f)
      decreases |script|, 2
    {
      DetachCoherent(world, held, f);
      var previous := world.followers[f].stop;
      world := Detach(world, f, true);
      if previous.Some? {
        ghost var detached := world;
        React();
        MovedTransitive(old(world), detached, world, {f});
        StaysGood(detached, world, f);
      }
    }

    // The rest of follow(), once the check after the clean-up passed.
    method Attach(f: nat, conn: nat, ghost start: World)
      requires world.Coherent(held) && f < |world.followers| && world.IsSingleton(conn)
      requires world.followers[f].active && world.followers[f].stop.None?
      requires f < |start.followers| && start.followers[f].generation < world.followers[f].generation
      requires MovedBut(start, world, {f})
      modifies this
      ensures world.Coherent(held) && held == old(held) && |script| <= old(|script|) && Quiet()
      ensures Moved(start, world) && world.Good(f)
      decreases |script|, 2
    {
      var own := world.followers[f].generation;
      var cleanup := Select(f, conn, start);
      if Ours(f, own, conn) {
        KeepHold(f, cleanup, start);
      } else {
        Discard(f, cleanup, start);
      }
    }

    // selected, and the subscription taken on it
    method Select(f: nat, conn: nat, ghost start: World) returns (cleanup: nat)
      requires world.Coherent(held) && f < |world.followers| && world.IsSingleton(conn)
      requires world.followers[f].active && world.followers[f].stop.None?
      requires f < |start.followers| && start.followers[f].generation < world.followers[f].generation
      requires MovedBut(start, world, {f})
      modifies this
      ensures world.Coherent(held) && held == old(held) + {cleanup} && cleanup !in old(held)
        && |script| <= old(|script|) && Quiet()
      ensures MovedBut(start, world, {f}) && cleanup < |world.subs| && |start.followers| <= |world.followers|
      ensures world.subs[cleanup] == Upstream(conn, f, old(world).followers[f].generation)
      ensures
        var was := old(world).followers[f];
        if Ours(f, was.generation, conn) then world.followers[f] == was && Keep(world, f, cleanup).Good(f)
        else world.Good(f)
      decreases |script|, 2, 0
    {
      if world.selected[world.followers[f].store] != conn {
        world := world.(selected := world.selected[world.followers[f].store := conn]);
      }
      ghost var ready := world;
      cleanup := TakeUpstream(f);
      MovedTransitive(start, ready, world, {f});
      StaysGood(ready, world, f);
    }

    // stop = cleanup
    method KeepHold(f: nat, s: nat, ghost start: World)
      requires world.Coherent(held) && f < |start.followers| <= |world.followers| && s in held
      requires world.followers[f].active && world.followers[f].stop.None? && world.subs[s].owner == f
      requires start.followers[f].generation < world.followers[f].generation
      requires MovedBut(start, world, {f}) && Keep(world, f, s).Good(f)
      modifies `world, `held
      ensures held == old(held) - {s} && world.Coherent(held)
      ensures Moved(start, world) && world.Good(f) && world.connections == old(world).connections
    {
      KeepCoherent(world, held, f, s);
      KeepMoved(start, world, f, s);
      world := Keep(world, f, s);
      held := held - {s};
    }

    // else cleanup()
    method Discard(f: nat, s: nat, ghost start: World)
      requires world.Coherent(held) && f < |start.followers| <= |world.followers| && s in held
      requires MovedBut(start, world, {f}) && world.Good(f)
      modifies this
      ensures held == old(held) - {s}
      ensures world.Coherent(held) && |script| <= old(|script|) && Quiet()
      ensures Moved(start, world) && world.Good(f)
      decreases |script|, 1
    {
      ReleaseCoherent(world, held, s);
      world := Release(world, s);
      held := held - {s};
      ghost var released := world;
      React();
      MovedTransitive(start, old(world), released, {f});
      StaysGood(old(world), released, f);
      MovedTransitive(start, released, world, {f});
      StaysGood(released, world, f);
      assert Placed(start, world, f);
    }

    // selectedStore.subscribe(...): the store's current value is delivered at once.
    method TakeUpstream(f: nat) returns (s: nat)
      requires world.Coherent(held) && f < |world.followers|
      requires world.selected[world.followers[f].store] < world.connections
      modifies this
      ensures held == old(held) + {s} && s !in old(held)
      ensures world.Coherent(held) && |script| <= old(|script|) && Quiet()
      ensures s == |old(world).subs| < |world.subs|
      ensures world.subs[s] == Take(old(world), f).subs[s]
      ensures Moved(old(world), world)
      decreases |script|, 1
    {
      TakeCoherent(world, held, f);
      s := |world.subs|;
      world := Take(world, f);
      held := held + {s};
      ghost var taken := world;
      React();
      MovedTransitive(old(world), taken, world, {});
    }

    method FollowStore() returns (store: nat)
      requires world.Coherent(held)
      modifies this
      ensures Onward() && store < |world.selected|
      decreases |script|, 6
    {
      var conn := EnsureConnection(false);
      store := |world.selected|;
      OfferCoherent(old(world), world, held, conn);
      world := Offer(world, conn);
    }

    method Subscribe(store: nat) returns (f: nat)
      requires world.Coherent(held) && store < |world.selected|
      modifies this
      ensures Onward() && f == |old(world).followers| < |world.followers| && world.Good(f)
      decreases |script|, 6
    {
      f := |world.followers|;
      JoinCoherent(world, held, store);
      world := Join(world, store);
      ghost var joined := world;
      var conn := EnsureConnection(false);
      MovedTransitive(old(world), joined, world, {f});
      ghost var ensured := world;
      Follow(f, conn);
      MovedTransitive(old(world), ensured, world, {f});
    }

    // The function subscribe returns.
    method Unsubscribe(f: nat)
      requires world.Coherent(held) && f < |world.followers|
      modifies this
      ensures Onward() && Quiet() && !world.followers[f].active
      decreases |script|, 1
    {
      if !world.followers[f].active { return; }
      LeaveCoherent(world, held, f);
      var cleanup := world.followers[f].stop;
      world := Leave(world, f);
      if cleanup.Some? {
        ghost var left := world;
        React();
        MovedTransitive(old(world), left, world, {});
      }
    }

    // close() of a connection; its stores notify their subscribers.
    method Close(conn: nat)
      requires world.Coherent(held) && conn < world.connections
      modifies this
      ensures Onward() && Quiet() && conn in world.closings
      decreases |script|, 1
    {
      MarkClosed(conn);
      ghost var closed := world;
      React();
      MovedTransitive(old(world), closed, world, {});
    }

    // if (singleton === connection) singletonClosed = true
    method MarkClosed(conn: nat)
      requires world.Coherent(held) && conn < world.connections
      modifies `world
      ensures world.Coherent(held) && Moved(old(world), world)
      ensures world == old(world).(closings := old(world).closings + {conn},
        singletonClosed := old(world).singletonClosed || old(world).IsSingleton(conn))
    {
      if world.IsSingleton(conn) { world := world.(singletonClosed := true); }
      world := world.(closings := world.closings + {conn});
    }

    /**
     Any run of calls from outside, each with whatever re-entry the script holds: after each of
     them every follower is settled, and no connection was created but by the first use or by a connect() after
     the close() of the one before.
     */
    method Drive(calls: seq<Reaction>)
      requires world.Steady() && held == {}
      modifies this
      ensures world.Steady() && held == {} && world.Warranted()
    {
      for i := 0 to |calls|
        invariant world.Steady() && held == {}
      {
        ghost var before := world;
        match calls[i] {
          case CallConnect => var _ := EnsureConnection(true);
          case CallClose(conn) => if conn < world.connections { Close(conn); }
          case CallFollowStore => var _ := FollowStore();
          case CallSubscribe(store) => if store < |world.selected| { var _ := Subscribe(store); }
          case CallUnsubscribe(f) => if f < |world.followers| { Unsubscribe(f); }
          case Return => React();   // an upstream store publishes a value
        }
        SteadyAgain(before, world);
      }
    }
  }
}
