/**
 The subscription side of one connection (src/client.js): subscribe and release down to the wire, the
 microtask that coalesces mounts, rate-limit retries, resubscription with recovery, and the answers to
 all of them. The socket is what this side sees of it: whether one is held, whether it reads OPEN, and the
 generation. A method is one stretch of code no user callback can interrupt; a run is any sequence of them. The
 one exception is the callback of a degraded lease, which runs in the middle of a gated send: it is left out.
 */
module Sessions {
  import opened Options
  import opened Text
  import opened Chunking
  import opened Recovery
  import opened Subscriptions
  import opened FlowControl
  import Backoff
  import BatchFrames
  import Hearing
  import Holds
  import Registry

  const RETRY_MS := 250

  // The least delay of a retry at this step.
  function RetryBase(step: nat): (base: nat)
    requires step >= 1
    ensures base >= RETRY_MS
  {
    RETRY_MS * Pow2(step - 1)
  }

  /** A quarter of a second, doubled with every further refusal. */
  lemma RetryPaces(step: nat)
    requires step >= 1
    ensures RetryBase(1) == 250 && RetryBase(step + 1) == 2 * RetryBase(step)
  {
  }

  type Span = x: real | x >= 0.0

  // [...someSet], in some order
  method Spread(s: set<Topic>) returns (order: seq<Topic>)
    ensures forall t :: t in order <==> t in s
    ensures |order| == |s|
  {
    order := [];
    var rest := s;
    while rest != {}
      invariant rest <= s
      invariant forall t :: t in order <==> t in s - rest
      invariant |order| + |rest| == |s|
      decreases |rest|
    {
      var t :| t in rest;
      rest := rest - {t};
      order := order + [t];
    }
  }

  /** One stretch of the code, as a run makes it happen. */
  datatype Call =
    | Subscribing(topic: Topic)
    | Releasing(topic: Topic, current: bool)
    | Wrapping(topic: Topic, event: Option<Text>)
    | Listening(wrapper: nat)
    | Unlistening(listener: nat, current: bool)
    | CleaningUp
    | Forcing(topic: Topic, current: bool)
    | Flushing
    | Leasing
    | Granting(count: real, ttlMs: real)
    | Accepting(topic: Topic, ref: Option<nat>, epoch: Option<Numeral>)
    | Denying(topic: Topic, ref: Option<nat>)
    | Refusing(topic: Topic, random: real)
    | RetryTimer
    | Sequence(topic: Topic, seqno: Numeral)
    | Invalidating(topic: Topic, epoch: Option<Numeral>)
    | Attempting
    | Dialing
    | Opening
    | ClosingSocket
    | Dropping
    | Pausing
    | Ending
    | LettingGo
    | Marking(topic: Topic, on: bool)

  // The direct subscribes not yet released, after a call.
  function DirectAfter(direct: Holds.Counts, c: Call): Holds.Counts {
    match c
    case Subscribing(topic) => direct[topic := Holds.Count(direct, topic) + 1]
    case Releasing(topic, _) => Holds.Less(direct, topic)
    case _ => direct
  }

  // Not forced, and a release only of what a subscribe still owes.
  predicate Covers(direct: map<Topic, nat>, c: Call) {
    match c
    case Releasing(topic, _) => Holds.Count(direct, topic) > 0
    case Forcing(_, _) => false
    case _ => true
  }

  /** A run with no forced unsubscribe, each of whose direct releases is covered by an earlier subscribe. */
  predicate Owed(calls: seq<Call>, direct: map<Topic, nat>) {
    calls == [] || (Covers(direct, calls[0]) && Owed(calls[1..], DirectAfter(direct, calls[0])))
  }

  // The topics whose store keys a call makes or deletes.
  function Names(c: Call): set<Topic> {
    match c
    case Releasing(topic, _) => {topic}
    case Wrapping(topic, _) => {topic}
    case _ => {}
  }

  predicate InUse(calls: seq<Call>, used: set<Topic>) {
    forall i | 0 <= i < |calls| :: Names(calls[i]) <= used
  }

  // A wrapper's topic was there before the call, or is the one the call names.
  predicate IsNamed(topic: Topic, c: Call, wrappers: Holds.Wrappers) {
    topic in Names(c) || exists w :: 0 <= w < |wrappers| && wrappers[w].topic == topic
  }

  // Wrappers keep their topics, and a new one's is named by the call.
  lemma NamesKept(c: Call, was: Holds.Wrappers, now: Holds.Wrappers)
    requires |was| <= |now| && forall w | 0 <= w < |was| :: now[w].topic == was[w].topic
    requires forall w | |was| <= w < |now| :: now[w].topic in Names(c)
    ensures forall w | 0 <= w < |now| :: IsNamed(now[w].topic, c, was)
  {
  }

  predicate Within(wrappers: Holds.Wrappers, used: set<Topic>) {
    forall w | 0 <= w < |wrappers| :: wrappers[w].topic in used
  }

  /** No topic in use extends another past a NUL. */
  predicate Apart(used: set<Topic>) {
    forall a, b | a in used && b in used :: Holds.Clear(a, b)
  }

  class Session {
    const registry: Registry.Registry
    const window: Window<Job>

    var managed: set<Topic>
    var subscribed: set<Topic>
    var seqs: map<Topic, Numeral>
    var epochs: map<Topic, Numeral>
    var recoveries: map<Topic, Pending>
    var retryRefs: map<Topic, nat>
    var limited: map<Topic, nat>
    var retryTimer: Option<nat>
    var mounting: Option<seq<Topic>>
    var nextRef: nat
    var generation: nat

    // ws !== null, whether it reads OPEN, and intentionallyClosed.
    var held: bool
    var open: bool
    var ended: bool

    // The clock: its last reading, and how much time passes before each of the next ones.
    var lastNow: real
    var ticks: seq<Span>

    var wire: seq<Frame>

    // History: the moment of each frame, and what happened to the topics.
    ghost var moments: seq<Moment>
    ghost var trail: seq<Note>

    // And of the retry timer: whether it was armed with a socket held or after close, whether an attempt was begun
    // with no socket held since, and how often the retries were cleared.
    ghost var armedSafe: bool
    ghost var strayed: bool
    ghost var clears: nat

    ghost predicate Around()
      reads `lastNow, registry, window
    {
      registry.Valid() && window.Valid() && window.clock <= lastNow && AllFormed(window.queue)
    }

    // What left, and what became of each topic.
    ghost predicate Recorded()
      reads `wire, `moments, `seqs, `recoveries, `trail
    {
      AllProper(wire, moments) && Followed(seqs, recoveries, trail)
    }

    ghost predicate Valid()
      reads this, registry, window
    {
      && Around() && Recorded() && Timed()
      && Nested(registry.refCounts.Keys, subscribed, recoveries, retryRefs, limited)
    }

    /**
     A pending retry timer is in its generation exactly when no attempt was begun with no socket held since it was
     armed, and none can have been when a socket was held then: whatever empties the socket clears the retries.
     */
    ghost predicate Timed()
      reads `retryTimer, `armedSafe, `strayed, `generation, `held, `open, `ended
    {
      && (open ==> held)
      && (retryTimer.Some? ==>
            && retryTimer.value <= generation
            && (retryTimer.value == generation <==> !strayed)
            && (armedSafe ==> !strayed && (held || ended)))
    }

    constructor (ticks: seq<Span>)
      ensures Valid() && registry.orderly && wire == [] && !held && !ended && retryTimer == None
      ensures generation == 0
      ensures registry.wrappers == [] && registry.direct == map[] && registry.refCounts == map[]
      ensures managed == {} && fresh(registry) && fresh(window)
    {
      registry := new Registry.Registry();
      window := new Window<Job>();
      managed, subscribed, seqs, epochs, recoveries, retryRefs, limited := {}, {}, map[], map[], map[], map[], map[];
      retryTimer, mounting, nextRef, generation, lastNow := None, None, 1, 0, 0.0;
      held, open, ended := false, false, false;
      wire, moments, trail := [], [], [];
      armedSafe, strayed, clears := false, false, 0;
      this.ticks := ticks;
    }

    method Now() returns (now: real)
      modifies `lastNow, `ticks
      ensures now == lastNow && lastNow >= old(lastNow)
    {
      if |ticks| > 0 {
        lastNow := lastNow + ticks[0];
        ticks := ticks[1..];
      }
      now := lastNow;
    }

    // ---- frames out ---------------------------------------------------------------------------------

    // ws.send of a frame that is proper now
    method Put(f: Frame)
      requires Recorded() && Proper(f, Moment(registry.refCounts.Keys, managed))
      modifies `wire, `moments
      ensures Recorded() && wire == old(wire) + [f]
    {
      ProperMore(wire, moments, f, Moment(registry.refCounts.Keys, managed));
      wire := wire + [f];
      moments := moments + [Moment(registry.refCounts.Keys, managed)];
    }

    // The topics of a recover map begin to wait for their answer, in some order.
    method AskAll(recover: map<Topic, Entry>, number: nat) returns (keys: seq<Topic>)
      modifies `recoveries, `seqs, `trail
      ensures (forall t :: t in keys <==> t in recover)
      ensures Book(seqs, recoveries, trail) == AskTopics(old(Book(seqs, recoveries, trail)), recover, number, keys)
    {
      keys := Spread(recover.Keys);
      for i := 0 to |keys|
        invariant Book(seqs, recoveries, trail)
          == AskTopics(old(Book(seqs, recoveries, trail)), recover, number, keys[..i])
      {
        var t := keys[i];
        AskNext(old(Book(seqs, recoveries, trail)), recover, number, keys, i);
        recoveries := recoveries[t := Pending(number, None)];
        seqs := seqs[t := recover[t].offset];
        trail := trail + [Note(t, Asked(number, recover[t].offset))];
      }
      assert keys[..|keys|] == keys;
    }

    // sendRecoveryFrame
    method SendRecovery(f: Frame)
      requires Valid() && f.Batch? && Proper(f, Moment(registry.refCounts.Keys, managed))
      requires forall t | t in f.topics :: t in subscribed
      modifies `wire, `moments, `recoveries, `seqs, `trail
      ensures Valid()
      ensures wire == if open then old(wire) + [f] else old(wire)
      ensures if open then AskedAll(old(seqs), old(recoveries), AskedFrom(f.recover), f.number, seqs, recoveries)
              else seqs == old(seqs) && recoveries == old(recoveries)
    {
      if !open { return; }
      BeginRecoveries(AskedFrom(f.recover), f.number);
      Put(f);
    }

    method BeginRecoveries(recover: map<Topic, Entry>, number: nat)
      requires Valid() && recover.Keys <= subscribed
      modifies `recoveries, `seqs, `trail
      ensures Valid() && AskedAll(old(seqs), old(recoveries), recover, number, seqs, recoveries)
    {
      var keys := AskAll(recover, number);
      AskTopicsKeeps(old(Book(seqs, recoveries, trail)), recover, number, keys);
      assert Members(keys) == recover.Keys;
      AskedKeys(old(seqs), old(recoveries), recover, number, seqs, recoveries);
    }

    // The topics a frame may ask for now.
    function Wanted(): set<Topic>
      reads `subscribed, `managed
    {
      subscribed - managed
    }

    function CurrentRefs(): Refs
      reads `retryRefs, `nextRef
    {
      Refs(retryRefs, nextRef)
    }

    // A single topic's gated subscribe, when its turn comes.
    method AskForOne(topic: Topic)
      requires Valid()
      modifies `wire, `moments, `nextRef
      ensures Valid()
      ensures wire == old(wire) + Emitted(SubscribeOne(topic), Wanted(), retryRefs, generation, old(nextRef), open)
      ensures nextRef == RefAfter(SubscribeOne(topic), Wanted(), old(nextRef))
    {
      if topic in subscribed && topic !in managed { PutNext(Single(topic, nextRef)); }
    }

    // A chunk's.
    method AskForMany(topics: seq<Topic>)
      requires Valid() && IsLight(topics, None)
      modifies `wire, `moments, `nextRef
      ensures Valid()
      ensures wire == old(wire) + Emitted(SubscribeMany(topics), Wanted(), retryRefs, generation, old(nextRef), open)
      ensures nextRef == RefAfter(SubscribeMany(topics), Wanted(), old(nextRef))
    {
      var kept := Filter(topics, Wanted());
      SendingIsProper(SubscribeMany(topics), registry.refCounts.Keys, subscribed, managed, retryRefs, generation,
        nextRef);
      if |kept| > 0 { PutNext(Batch(kept, nextRef, None)); }
    }

    // ws.send of a frame with the next ref
    method PutNext(f: Frame)
      requires Valid() && Proper(f, Moment(registry.refCounts.Keys, managed))
      modifies `wire, `moments, `nextRef
      ensures Valid() && wire == old(wire) + [f] && nextRef == old(nextRef) + 1
    {
      Put(f);
      nextRef := nextRef + 1;
    }

    // A retried chunk's: nothing once the generation has passed, and only the topics it is still the latest retry of.
    method AskAgain(job: Job)
      requires Valid() && JobFormed(job) && job.Retry?
      modifies `wire, `moments, `recoveries, `seqs, `trail, `retryRefs
      ensures Valid()
      ensures retryRefs == RetriesAfter(job, Wanted(), old(retryRefs), generation)
      ensures
        var left := Emitted(job, Wanted(), old(retryRefs), generation, nextRef, open);
        && wire == old(wire) + left
        // and the topics it recovers wait for its answer
        && Waits(old(seqs), old(recoveries), left, job.number, seqs, recoveries)
    {
      if job.generation != generation {
        StaleComesToNothing(job, Wanted(), retryRefs, generation, nextRef, open);
        return;
      }
      AskCurrent(job);
    }

    method AskCurrent(job: Job)
      requires Valid() && JobFormed(job) && job.Retry? && job.generation == generation
      modifies `wire, `moments, `recoveries, `seqs, `trail, `retryRefs
      ensures Valid()
      ensures retryRefs == RetriesAfter(job, Wanted(), old(retryRefs), generation)
      ensures
        var left := Emitted(job, Wanted(), old(retryRefs), generation, nextRef, open);
        wire == old(wire) + left && Waits(old(seqs), old(recoveries), left, job.number, seqs, recoveries)
    {
      var kept := Filter(job.topics, Wanted() * Latest(retryRefs, job.number));
      var left := if |kept| == |job.topics| then job.recover else Narrowed(job.topics, kept, job.recover);
      RetryComesTo(job, kept, left, registry.refCounts.Keys, subscribed, managed, retryRefs, generation, nextRef, open);
      SendAgain(kept, job.number, left);
    }

    method SendAgain(kept: seq<Topic>, number: nat, recover: Option<map<Topic, Entry>>)
      requires Valid() && forall t | t in kept :: t in subscribed
      requires kept != [] ==> Proper(Batch(kept, number, recover), Moment(registry.refCounts.Keys, managed))
      modifies `wire, `moments, `recoveries, `seqs, `trail, `retryRefs
      ensures Valid() && retryRefs == old(retryRefs) - (set t | t in kept)
      ensures
        var left := if open && kept != [] then [Batch(kept, number, recover)] else [];
        wire == old(wire) + left && Waits(old(seqs), old(recoveries), left, number, seqs, recoveries)
    {
      Withdraw(kept);
      if |kept| > 0 { SendRecovery(Batch(kept, number, recover)); }
    }

    // These topics no longer wait for the frame of a retry.
    method Withdraw(topics: seq<Topic>)
      requires Valid()
      modifies `retryRefs
      ensures Valid() && retryRefs == old(retryRefs) - (set t | t in topics)
    {
      retryRefs := retryRefs - (set t | t in topics);
    }

    // What a gated send does when its turn comes.
    method DoJob(job: Job)
      requires Valid() && JobFormed(job)
      modifies `wire, `moments, `recoveries, `seqs, `trail, `retryRefs, `nextRef
      ensures Valid()
      ensures wire == old(wire) + Emitted(job, Wanted(), old(retryRefs), generation, old(nextRef), open)
      ensures CurrentRefs() == JobRefs(job, Wanted(), old(CurrentRefs()), generation)
    {
      match job
      case SubscribeOne(topic) => AskForOne(topic);
      case SubscribeMany(topics) => AskForMany(topics);
      case Retry(_, _, _, _) => AskAgain(job);
    }

    // Sends whose turn has come, in order.
    method DoJobs(jobs: seq<Job>)
      requires Valid() && AllFormed(jobs)
      modifies `wire, `moments, `recoveries, `seqs, `trail, `retryRefs, `nextRef
      ensures Valid()
      ensures wire == old(wire) + SentAll(jobs, Wanted(), old(CurrentRefs()), generation, open)
    {
      for i := 0 to |jobs|
        invariant Valid()
        invariant CurrentRefs() == RefsAfter(jobs[..i], Wanted(), old(CurrentRefs()), generation)
        invariant wire == old(wire) + SentAll(jobs[..i], Wanted(), old(CurrentRefs()), generation, open)
      {
        SentNext(old(wire), jobs, i, Wanted(), old(CurrentRefs()), generation, open);
        DoJob(jobs[i]);
      }
      WholeJobs(jobs);
    }

    // The window's half of a gated send: true when the send is to leave now.
    method TakePermit(job: Job) returns (immediate: bool)
      requires Valid() && JobFormed(job)
      modifies `lastNow, `ticks, window
      ensures Valid() && window.active == old(window.active)
      ensures !old(window.active) ==> immediate
      ensures window.active && old(window.queue) != [] ==> !immediate
      ensures Permitted(immediate, old(window.avail))
      ensures window.queue == if immediate then old(window.queue) else Waiting(old(window.queue), job)
    {
      var now := Now();
      var later := Now();
      immediate := window.Gate(job, now, later, open);
      assert forall i | 0 <= i < |window.queue| :: JobFormed(window.queue[i]);
    }

    // A send leaves on a permit, and waits only with none left or past the deadline.
    predicate Permitted(immediate: bool, avail: real)
      reads `lastNow, window
    {
      && (immediate && window.active ==> avail > 0.0)
      && (!immediate ==> avail <= 0.0 || lastNow >= window.expiresAt)
    }

    // _flowSend
    method Gate(job: Job) returns (immediate: bool)
      requires Valid() && JobFormed(job)
      modifies `wire, `moments, `recoveries, `seqs, `trail, `retryRefs, `nextRef, `lastNow, `ticks, window
      ensures Valid() && window.active == old(window.active)
      ensures !old(window.active) ==> immediate
      ensures window.active && old(window.queue) != [] ==> !immediate
      ensures Permitted(immediate, old(window.avail))
      ensures window.queue == if immediate then old(window.queue) else Waiting(old(window.queue), job)
      ensures wire
        == if immediate then old(wire) + Emitted(job, Wanted(), old(retryRefs), generation, old(nextRef), open)
           else old(wire)
      ensures CurrentRefs()
        == if immediate then JobRefs(job, Wanted(), old(CurrentRefs()), generation) else old(CurrentRefs())
    {
      immediate := TakePermit(job);
      if immediate { DoJob(job); }
    }

    // A lease frame from the server, _applyFlowWindow: as many queued sends as it grants leave, oldest first.
    method ApplyWindow(count: real, ttlMs: real)
      requires Valid()
      modifies `wire, `moments, `recoveries, `seqs, `trail, `retryRefs, `nextRef, `lastNow, `ticks, window
      ensures Valid() && window.active
      ensures
        var n := Min(Permits(count), |old(window.queue)|);
        && window.queue == old(window.queue)[n..]
        && wire == old(wire) + SentAll(old(window.queue)[..n], Wanted(), old(CurrentRefs()), generation, open)
    {
      var drained := ReceiveWindow(count, ttlMs);
      DoJobs(drained);
    }

    // The window's half: the sends its permits let go.
    method ReceiveWindow(count: real, ttlMs: real) returns (drained: seq<Job>)
      requires Valid()
      modifies `lastNow, `ticks, window
      ensures Valid() && window.active && AllFormed(drained)
      ensures
        var n := Min(Permits(count), |old(window.queue)|);
        drained == old(window.queue)[..n] && window.queue == old(window.queue)[n..]
    {
      var now := Now();
      drained := window.Apply(count, ttlMs, now);
      DrainedFormed(old(window.queue), drained, window.queue);
    }

    // ---- the mount coalescer ----------------------------------------------------------------------------

    // subscribe, past the count: true for the topic's first hold
    method SubscribeOnWire(topic: Topic, first: bool)
      requires Valid() && (first ==> topic in registry.refCounts)
      modifies `subscribed, `mounting
      ensures Valid()
      ensures
        var asked := first && !IsTap(topic) && topic !in managed;
        && subscribed == (if asked then old(subscribed) + {topic} else old(subscribed))
        && mounting == if asked && open
                       then Some((if old(mounting).None? then [] else old(mounting).value) + [topic])
                       else old(mounting)
    {
      if !first { return; }
      if IsTap(topic) || topic in managed { return; }
      subscribed := subscribed + {topic};
      if !open { return; }
      if mounting.None? { mounting := Some([]); }
      mounting := Some(mounting.value + [topic]);
    }

    // flushPendingSubscribes, the microtask of the first of them: one send for a single topic, one per chunk
    // for more, and nothing while the socket is not open. The first m leave, those up to n wait.
    method Flush() returns (ghost jobs: seq<Job>, ghost m: nat, ghost n: nat)
      requires Valid()
      modifies `mounting, `wire, `moments, `recoveries, `seqs, `trail, `retryRefs, `nextRef, `lastNow, `ticks, window
      ensures Valid() && mounting == None && window.active == old(window.active)
      ensures IsMount(jobs, old(Mounts()))
      ensures GatedTo(old(Sends(wire, CurrentRefs(), window.queue)), jobs, m, n)
      ensures !window.active ==> AsksIn(wire) == AsksIn(old(wire)) + Filter(old(Mounts()), Wanted())
    {
      var batch := mounting;
      FilterNothing(Wanted());
      mounting := None;
      jobs, m, n := [], 0, 0;
      if batch.None? || |batch.value| == 0 { return; }
      if !open { return; }
      jobs, m, n := SendMounts(batch.value);
    }

    method SendMounts(batch: seq<Topic>) returns (ghost jobs: seq<Job>, ghost m: nat, ghost n: nat)
      requires Valid() && |batch| > 0
      modifies `wire, `moments, `recoveries, `seqs, `trail, `retryRefs, `nextRef, `lastNow, `ticks, window
      ensures Valid() && window.active == old(window.active)
      ensures IsMount(jobs, batch)
      ensures GatedTo(old(Sends(wire, CurrentRefs(), window.queue)), jobs, m, n)
      ensures !window.active ==> AsksIn(wire) == AsksIn(old(wire)) + Filter(batch, Wanted())
    {
      jobs, m, n := SendBatch(batch);
      MountLeft(old(Sends(wire, CurrentRefs(), window.queue)), jobs, m, n, batch);
    }

    // The topics a flush sends for.
    function Mounts(): seq<Topic>
      reads `open, `mounting
    {
      if open && mounting.Some? then mounting.value else []
    }

    lemma MountLeft(start: Sends, jobs: seq<Job>, m: nat, n: nat, batch: seq<Topic>)
      requires GatedTo(start, jobs, m, n) && IsMount(jobs, batch)
      ensures !window.active ==> AsksIn(wire) == AsksIn(start.wire) + Filter(batch, Wanted())
    {
      if !window.active {
        UngatedMount(start, Sends(wire, CurrentRefs(), window.queue), jobs, m, n, Wanted(), generation, open, batch);
      }
    }

    method SendBatch(batch: seq<Topic>) returns (ghost jobs: seq<Job>, ghost m: nat, ghost n: nat)
      requires Valid() && |batch| > 0
      modifies `wire, `moments, `recoveries, `seqs, `trail, `retryRefs, `nextRef, `lastNow, `ticks, window
      ensures Valid() && window.active == old(window.active)
      ensures IsMount(jobs, batch)
      ensures GatedTo(old(Sends(wire, CurrentRefs(), window.queue)), jobs, m, n)
    {
      if |batch| == 1 {
        var one := [SubscribeOne(batch[0])];
        jobs := one;
        m, n := GateAll(one);
      } else {
        var chunks := ChunkTopicsForBatch(batch);
        var all := MountJobs(chunks);
        jobs := all;
        MountJobsFormed(chunks);
        m, n := GateAll(all);
      }
    }

    // Sends gated one after the other.
    method GateAll(jobs: seq<Job>) returns (ghost m: nat, ghost n: nat)
      requires Valid() && AllFormed(jobs)
      modifies `wire, `moments, `recoveries, `seqs, `trail, `retryRefs, `nextRef, `lastNow, `ticks, window
      ensures Valid() && window.active == old(window.active)
      ensures GatedTo(old(Sends(wire, CurrentRefs(), window.queue)), jobs, m, n)
    {
      ghost var start := Sends(wire, CurrentRefs(), window.queue);
      m, n := 0, 0;
      for i := 0 to |jobs|
        invariant Valid() && window.active == old(window.active)
        invariant GatedTo(start, jobs[..i], m, n)
      {
        m, n := GateNext(start, jobs, i, m, n);
      }
      WholeJobs(jobs);
    }

    /** Of the sends gated since the start the first m left, those up to n wait, and the others were dropped. */
    predicate GatedTo(start: Sends, jobs: seq<Job>, m: nat, n: nat)
      reads this, window
    {
      Gated(start, Sends(wire, CurrentRefs(), window.queue), jobs, m, n, window.active, Wanted(), generation, open)
    }

    // The next of them. Whether it leaves, waits or is dropped, the split grows by it.
    method GateNext(ghost start: Sends, jobs: seq<Job>, i: nat, ghost m: nat, ghost n: nat)
      returns (ghost m': nat, ghost n': nat)
      requires Valid() && AllFormed(jobs) && i < |jobs| && GatedTo(start, jobs[..i], m, n)
      modifies `wire, `moments, `recoveries, `seqs, `trail, `retryRefs, `nextRef, `lastNow, `ticks, window
      ensures Valid() && window.active == old(window.active) && GatedTo(start, jobs[..i + 1], m', n')
    {
      ghost var before := Sends(wire, CurrentRefs(), window.queue);
      var immediate := Gate(jobs[i]);
      GatedNext(start, before, jobs, i, m, n, window.active, Wanted(), generation, open, immediate);
      m', n' := if immediate then i + 1 else m, if immediate || |before.queue| < MAX_QUEUE then i + 1 else n;
    }

    // ---- release ------------------------------------------------------------------------------------------

    // The topic leaves every per-topic set but what is remembered of its sequence.
    method Abandon(topic: Topic, ghost held: set<Topic>)
      requires Recorded() && Nested(held, subscribed, recoveries, retryRefs, limited)
      modifies `subscribed, `recoveries, `retryRefs, `limited, `trail
      ensures Recorded() && Nested(held - {topic}, subscribed, recoveries, retryRefs, limited)
      ensures subscribed == old(subscribed) - {topic} && recoveries == old(recoveries) - {topic}
      ensures retryRefs == old(retryRefs) - {topic} && limited == old(limited) - {topic}
    {
      FollowedNote(seqs, recoveries, trail, topic, Released, seqs, recoveries - {topic});
      trail := trail + [Note(topic, Released)];
      subscribed := subscribed - {topic};
      recoveries := recoveries - {topic};
      retryRefs := retryRefs - {topic};
      limited := limited - {topic};
    }

    // doUnsubscribe, past the stores. `current` is whether this connection is still the module's singleton.
    method UnsubscribeOnWire(topic: Topic, current: bool, ghost held: set<Topic>)
      requires Around() && Recorded() && Timed()
      requires Nested(held, subscribed, recoveries, retryRefs, limited) && registry.refCounts.Keys == held - {topic}
      modifies `managed, `subscribed, `recoveries, `retryRefs, `limited, `trail, `wire, `moments
      ensures Valid()
      ensures managed == if current then old(managed) - {topic} else old(managed)
      ensures subscribed == old(subscribed) - {topic} && recoveries == old(recoveries) - {topic}
      ensures retryRefs == old(retryRefs) - {topic} && limited == old(limited) - {topic}
      ensures wire == if open && !IsTap(topic) then old(wire) + [Unsubscribe(topic)] else old(wire)
    {
      Discard(topic, current, held);
      TellGone(topic);
    }

    method Discard(topic: Topic, current: bool, ghost held: set<Topic>)
      requires Recorded() && Nested(held, subscribed, recoveries, retryRefs, limited)
      modifies `managed, `subscribed, `recoveries, `retryRefs, `limited, `trail
      ensures Recorded() && Nested(held - {topic}, subscribed, recoveries, retryRefs, limited)
      ensures managed == if current then old(managed) - {topic} else old(managed)
      ensures subscribed == old(subscribed) - {topic} && recoveries == old(recoveries) - {topic}
      ensures retryRefs == old(retryRefs) - {topic} && limited == old(limited) - {topic}
    {
      if current { managed := managed - {topic}; }
      Abandon(topic, held);
    }

    // Taps were never on the wire.
    method TellGone(topic: Topic)
      requires Recorded()
      modifies `wire, `moments
      ensures Recorded() && wire == if open && !IsTap(topic) then old(wire) + [Unsubscribe(topic)] else old(wire)
    {
      if IsTap(topic) { return; }
      if open { Put(Unsubscribe(topic)); }
    }

    // ---- holds ----------------------------------------------------------------------------------------------

    // subscribe
    method Subscribe(topic: Topic)
      requires Valid()
      modifies `subscribed, `mounting, registry
      ensures Valid() && registry.orderly == old(registry.orderly) && registry.wrappers == old(registry.wrappers)
      ensures registry.direct == old(registry.direct)[topic := Holds.Count(old(registry.direct), topic) + 1]
      ensures subscribed == if Holds.Count(old(registry.refCounts), topic) == 0 && !IsTap(topic) && topic !in managed
                            then old(subscribed) + {topic} else old(subscribed)
      ensures registry.refCounts == old(registry.refCounts)[topic := Holds.Count(old(registry.refCounts), topic) + 1]
    {
      var first := registry.Subscribe(topic);
      SubscribeOnWire(topic, first);
    }

    // release
    method Release(topic: Topic, current: bool)
      requires Valid()
      modifies `managed, `subscribed, `recoveries, `retryRefs, `limited, `trail, `wire, `moments, registry
      ensures Valid()
      ensures registry.orderly
        == (old(registry.orderly) && Holds.Count(old(registry.direct), topic) > 0
          && Holds.ClearOf(topic, old(registry.wrappers)))
      ensures registry.refCounts == Holds.Less(old(registry.refCounts), topic)
      ensures registry.stores == Holds.Left(old(registry.stores), old(registry.refCounts), topic)
      ensures registry.direct == Holds.Less(old(registry.direct), topic) && registry.wrappers == old(registry.wrappers)
      ensures if Holds.Count(old(registry.refCounts), topic) <= 1 then Departed(topic, current) && Gone(topic)
        else Unmoved()
    {
      ghost var held := registry.refCounts.Keys;
      var gone := registry.Release(topic);
      if gone { UnsubscribeOnWire(topic, current, held); }
    }

    /** Every per-topic set lost this topic and nothing else, and the server was told. */
    twostate predicate Departed(topic: Topic, current: bool)
      reads this
    {
      && managed == (if current then old(managed) - {topic} else old(managed))
      && subscribed == old(subscribed) - {topic} && recoveries == old(recoveries) - {topic}
      && retryRefs == old(retryRefs) - {topic} && limited == old(limited) - {topic}
      && wire == if open && !IsTap(topic) then old(wire) + [Unsubscribe(topic)] else old(wire)
    }

    twostate predicate Unmoved()
      reads this
    {
      && managed == old(managed) && subscribed == old(subscribed) && recoveries == old(recoveries)
      && retryRefs == old(retryRefs) && limited == old(limited) && wire == old(wire)
    }

    /**
     No per-topic map remembers the topic, but for the sequence and epoch a later hold resumes from. The
     mount batch may still name it; its send then finds it unwanted.
     */
    ghost predicate Gone(topic: Topic)
      reads `subscribed, `recoveries, `retryRefs, `limited, registry
    {
      && topic !in subscribed && topic !in recoveries && topic !in retryRefs && topic !in limited
      && topic !in registry.refCounts
      && forall p | p in registry.stores :: !Holds.Owns(topic, p)
    }

    // onTopic (event None) and onEvent
    method On(topic: Topic, event: Option<Text>) returns (w: nat)
      requires Valid()
      modifies registry
      ensures Valid() && w == |old(registry.wrappers)| && |registry.wrappers| == w + 1
      ensures registry.wrappers == old(registry.wrappers) + [registry.wrappers[w]]
        && registry.wrappers[w].topic == topic
      ensures registry.orderly == (old(registry.orderly) && Holds.ClearOf(topic, old(registry.wrappers)))
      ensures registry.refCounts == old(registry.refCounts) && registry.direct == old(registry.direct)
    {
      w := registry.On(topic, event);
    }

    // wrappedSubscribe
    method Listen(w: nat)
      requires Valid() && w < |registry.wrappers|
      modifies `subscribed, `mounting, registry
      ensures Valid() && registry.orderly == old(registry.orderly) && registry.direct == old(registry.direct)
      ensures registry.Picture() == Hearing.Arrived(old(registry.Picture()), w) && SameTopics()
    {
      var topic := registry.wrappers[w].topic;
      var first := registry.Listen(w);
      SubscribeOnWire(topic, first);
    }

    // A call of the function wrappedSubscribe returned, the listener's first or a later one.
    method Unlisten(l: nat, current: bool)
      requires Valid() && l < |registry.listeners|
      modifies `managed, `subscribed, `recoveries, `retryRefs, `limited, `trail, `wire, `moments, registry
      ensures Valid() && registry.orderly == old(registry.orderly) && registry.direct == old(registry.direct)
      ensures registry.Picture() == Hearing.Unlistened(old(registry.Picture()), l) && SameTopics()
      ensures
        var me := old(registry.wrappers)[old(registry.listeners)[l].wrapper];
        if me.subs == 1 && Holds.Count(old(registry.refCounts), me.topic) <= 1
        then Departed(me.topic, current) && Gone(me.topic) else Unmoved()
    {
      ghost var held := registry.refCounts.Keys;
      var topic := registry.wrappers[registry.listeners[l].wrapper].topic;
      var gone := registry.Unlisten(l);
      if gone { UnsubscribeOnWire(topic, current, held); }
    }

    twostate predicate SameTopics()
      reads registry
    {
      && |registry.wrappers| == |old(registry.wrappers)|
      && forall w | 0 <= w < |registry.wrappers| :: registry.wrappers[w].topic == old(registry.wrappers)[w].topic
    }

    // A clean-up microtask.
    method CleanUp()
      requires Valid() && |registry.cleanups| > 0
      modifies registry
      ensures Valid() && registry.cleanups == old(registry.cleanups)[1..]
        && registry.refCounts == old(registry.refCounts)
      ensures registry.orderly == old(registry.orderly)
      ensures registry.wrappers == old(registry.wrappers) && registry.direct == old(registry.direct)
    {
      registry.CleanUp();
    }

    // unsubscribe, whatever the count
    method Forget(topic: Topic, current: bool)
      requires Valid()
      modifies `managed, `subscribed, `recoveries, `retryRefs, `limited, `trail, `wire, `moments, registry
      ensures Valid() && Gone(topic) && Departed(topic, current) && !registry.orderly
      ensures registry.refCounts == old(registry.refCounts) - {topic} && registry.direct == old(registry.direct)
      ensures registry.stores == Holds.Without(old(registry.stores), topic)
        && registry.wrappers == old(registry.wrappers)
    {
      ghost var held := registry.refCounts.Keys;
      registry.Forget(topic);
      UnsubscribeOnWire(topic, current, held);
    }

    // ---- what the server says -------------------------------------------------------------------------------

    // finishRecovery
    method FinishRecovery(topic: Topic, ref: Option<nat>, accepted: bool)
      requires Valid()
      modifies `recoveries, `seqs, `trail
      ensures Valid()
      ensures Became(old(seqs), old(recoveries), topic,
                Step(View(old(seqs), old(recoveries), topic), Answered(ref, accepted)), seqs, recoveries)
    {
      TakeAnswer(topic, ref, accepted);
      FollowedNote(old(seqs), old(recoveries), trail, topic, Answered(ref, accepted), seqs, recoveries);
      trail := trail + [Note(topic, Answered(ref, accepted))];
    }

    method TakeAnswer(topic: Topic, ref: Option<nat>, accepted: bool)
      modifies `recoveries, `seqs
      ensures Became(old(seqs), old(recoveries), topic,
                Step(View(old(seqs), old(recoveries), topic), Answered(ref, accepted)), seqs, recoveries)
      ensures recoveries.Keys <= old(recoveries).Keys
    {
      if topic in recoveries && ref == Some(recoveries[topic].number) {
        var pending := recoveries[topic];
        recoveries := recoveries - {topic};
        if accepted && pending.highest.Some? {
          var highest := pending.highest.value;
          if topic !in seqs || highest.value > seqs[topic].value { seqs := seqs[topic := highest]; }
        }
      }
    }

    // subscribed
    method Accepted(topic: Topic, ref: Option<nat>, epoch: Option<Numeral>)
      requires Valid()
      modifies `recoveries, `seqs, `trail, `epochs, `limited
      ensures Valid() && limited == old(limited) - {topic}
      ensures epochs == if epoch.Some? then old(epochs)[topic := epoch.value] else old(epochs)
      ensures Became(old(seqs), old(recoveries), topic,
                Step(View(old(seqs), old(recoveries), topic), Answered(ref, true)), seqs, recoveries)
    {
      FinishRecovery(topic, ref, true);
      if epoch.Some? { epochs := epochs[topic := epoch.value]; }
      limited := limited - {topic};
    }

    // dispatchEvent, of an event that carries a sequence
    method Sequenced(topic: Topic, s: Numeral)
      requires Valid()
      modifies `recoveries, `seqs, `trail
      ensures Valid()
      ensures Became(old(seqs), old(recoveries), topic,
                Step(View(old(seqs), old(recoveries), topic), Seen(s)), seqs, recoveries)
    {
      TakeSequence(topic, s);
      FollowedNote(old(seqs), old(recoveries), trail, topic, Seen(s), seqs, recoveries);
      trail := trail + [Note(topic, Seen(s))];
    }

    method TakeSequence(topic: Topic, s: Numeral)
      modifies `recoveries, `seqs
      ensures Became(old(seqs), old(recoveries), topic,
                Step(View(old(seqs), old(recoveries), topic), Seen(s)), seqs, recoveries)
      ensures recoveries.Keys == old(recoveries).Keys
    {
      if topic in recoveries {
        var pending := recoveries[topic];
        if pending.highest.None? || s.value > pending.highest.value.value {
          recoveries := recoveries[topic := pending.(highest := Some(s))];
        }
      } else if topic !in seqs || s.value > seqs[topic].value {
        seqs := seqs[topic := s];
      }
    }

    // dispatchEvent, of a __replay: event that says the missed window is lost; a rehydrate may carry the new epoch
    method WindowLost(topic: Topic, epoch: Option<Numeral>)
      requires Valid()
      modifies `recoveries, `seqs, `trail, `epochs
      ensures Valid()
      ensures epochs == if epoch.Some? then old(epochs)[topic := epoch.value] else old(epochs)
      ensures Became(old(seqs), old(recoveries), topic,
                Step(View(old(seqs), old(recoveries), topic), Invalidated), seqs, recoveries)
    {
      ForgetOffset(topic);
      if epoch.Some? { epochs := epochs[topic := epoch.value]; }
    }

    method ForgetOffset(topic: Topic)
      requires Valid()
      modifies `recoveries, `seqs, `trail
      ensures Valid()
      ensures Became(old(seqs), old(recoveries), topic,
                Step(View(old(seqs), old(recoveries), topic), Invalidated), seqs, recoveries)
    {
      DropOffset(topic);
      FollowedNote(old(seqs), old(recoveries), trail, topic, Invalidated, seqs, recoveries);
      trail := trail + [Note(topic, Invalidated)];
    }

    method DropOffset(topic: Topic)
      modifies `recoveries, `seqs
      ensures Became(old(seqs), old(recoveries), topic,
                Step(View(old(seqs), old(recoveries), topic), Invalidated), seqs, recoveries)
      ensures recoveries.Keys == old(recoveries).Keys
    {
      seqs := seqs - {topic};
      if topic in recoveries { recoveries := recoveries[topic := recoveries[topic].(highest := None)]; }
    }

    // ---- rate-limit retries ---------------------------------------------------------------------------------

    // One more refusal: out of attempts, a topic is given up on.
    method CountRetry(topic: Topic)
      requires Valid() && topic in subscribed
      modifies `limited
      ensures Valid() && limited == Refused(old(limited), topic)
    {
      var attempts := 1 + if topic in limited then limited[topic] else 0;
      if attempts > MAX_RETRIES {
        limited := limited - {topic};
      } else {
        limited := limited[topic := attempts];
      }
    }

    // retryRateLimitedSubscribe: whether this refusal armed the timer, at which step, and how far ahead. The
    // generation it captures is the one the refusal is handled in.
    method RetryLater(topic: Topic, random: real) returns (step: Option<nat>, delay: real)
      requires Valid()
      modifies `limited, `retryTimer, `armedSafe, `strayed
      ensures Valid()
      ensures limited == if topic in subscribed && topic !in managed then Refused(old(limited), topic) else old(limited)
      ensures step.None? ==> retryTimer == old(retryTimer) && armedSafe == old(armedSafe) && strayed == old(strayed)
      ensures step.Some? ==> old(retryTimer).None? && retryTimer == Some(generation) && IsLeast(step.value)
      ensures step.Some? ==> armedSafe == (held || ended) && !strayed
      ensures step.Some? <==> old(retryTimer).None? && topic in subscribed && topic !in managed && topic in limited
      ensures step.Some? ==>
        step.value >= 1 && RetryBase(step.value) as real <= delay < 2.0 * RetryBase(step.value) as real
    {
      step, delay := None, 0.0;
      if topic !in subscribed || topic in managed { return; }
      CountRetry(topic);
      if topic !in limited || retryTimer.Some? { return; }
      var least := LeastRetried(topic);
      Arm();
      step, delay := Some(least), Pace(least, random);
    }

    // setTimer, in the current generation
    method Arm()
      requires Valid() && retryTimer.None?
      modifies `retryTimer, `armedSafe, `strayed
      ensures Valid() && retryTimer == Some(generation) && armedSafe == (held || ended) && !strayed
    {
      retryTimer, armedSafe, strayed := Some(generation), held || ended, false;
    }

    function Pace(step: nat, random: real): (delay: real)
      requires step >= 1
      ensures RetryBase(step) as real <= delay < 2.0 * RetryBase(step) as real
    {
      var base := RetryBase(step) as real;
      base + Backoff.DispersedReconnectDelay(0.0, base, random)
    }

    /** The pace of the least retried topic. */
    predicate IsLeast(step: nat)
      reads `limited
    {
      && (exists t :: t in limited && limited[t] == step)
      && (forall t | t in limited :: step <= limited[t])
    }

    method LeastRetried(topic: Topic) returns (step: nat)
      requires topic in limited
      ensures IsLeast(step)
    {
      step := limited[topic];
      var keys := Spread(limited.Keys);
      ghost var least := topic;
      for i := 0 to |keys|
        invariant least in limited && limited[least] == step
        invariant forall k | 0 <= k < i :: step <= limited[keys[k]]
      {
        if limited[keys[i]] < step { step, least := limited[keys[i]], keys[i]; }
      }
    }

    /**
     A pending retry timer that was armed with a socket held, or after close, runs when it fires; any other one runs
     exactly when no attempt was begun with no socket held since.
     */
    lemma TimerIsCurrent()
      requires Valid() && retryTimer.Some?
      ensures armedSafe ==> retryTimer == Some(generation)
      ensures retryTimer == Some(generation) <==> !strayed
    {
    }

    // The retry timer: one that is not current does nothing, and stays to block the next.
    method TimerFires()
      requires Valid() && retryTimer.Some?
      modifies `retryTimer, `limited, `nextRef, `retryRefs, `wire, `moments, `recoveries, `seqs, `trail
      modifies `lastNow, `ticks, window
      ensures Valid() && old(wire) <= wire
      ensures if strayed then wire == old(wire) && limited == old(limited) && retryTimer == old(retryTimer)
              else retryTimer == None && limited == Kept(old(limited), Wanted())
    {
      if retryTimer == Some(generation) { var chunks, m, n := FlushRetries(); }
    }

    // pendingRetryRefs of a chunk
    method MarkRetries(topics: seq<Topic>, number: nat)
      requires Valid() && forall t | t in topics :: t in subscribed
      modifies `retryRefs
      ensures Valid() && forall t | t in topics :: t in retryRefs && retryRefs[t] == number
    {
      for i := 0 to |topics|
        invariant Valid()
        invariant forall k | 0 <= k < i :: topics[k] in retryRefs && retryRefs[topics[k]] == number
      {
        retryRefs := retryRefs[topics[i] := number];
      }
    }

    // flushRateLimitedRetries: every refused topic still wanted is gated again, from where it stands. The first
    // m chunks leave, those up to n wait.
    method FlushRetries() returns (chunks: seq<Chunk>, ghost m: nat, ghost n: nat)
      requires Valid()
      modifies `retryTimer, `limited, `nextRef, `retryRefs, `wire, `moments, `recoveries, `seqs, `trail, `lastNow,
        `ticks, window
      ensures Valid() && retryTimer == None && window.active == old(window.active)
      ensures limited == Kept(old(limited), Wanted())
      ensures forall t :: t in Flat(TopicsOf(chunks)) <==> open && t in limited
      ensures RecoversExactly(chunks, Tracked(old(seqs), epochs))
      ensures RetriedTo(old(Sends(wire, CurrentRefs(), window.queue)), chunks,
        RetryJobs(chunks, generation, old(nextRef)), m, n)
    {
      var topics := DueTopics();
      chunks, m, n := RetryWhenOpen(topics);
    }

    method DueTopics() returns (topics: seq<Topic>)
      requires Valid()
      modifies `retryTimer, `limited
      ensures Valid() && retryTimer == None && limited == Kept(old(limited), Wanted())
      ensures forall t :: t in topics <==> t in limited
    {
      retryTimer := None;
      topics := StillWanted();
      DropUnwanted();
    }

    method RetryWhenOpen(topics: seq<Topic>) returns (chunks: seq<Chunk>, ghost m: nat, ghost n: nat)
      requires Valid() && forall t | t in topics :: t in Wanted()
      modifies `nextRef, `retryRefs, `wire, `moments, `recoveries, `seqs, `trail, `lastNow, `ticks, window
      ensures Valid() && window.active == old(window.active)
      ensures forall t :: t in Flat(TopicsOf(chunks)) <==> open && t in topics
      ensures RecoversExactly(chunks, Tracked(old(seqs), epochs))
      ensures RetriedTo(old(Sends(wire, CurrentRefs(), window.queue)), chunks,
        RetryJobs(chunks, generation, old(nextRef)), m, n)
    {
      chunks, m, n := [], 0, 0;
      if |topics| == 0 || !open { return; }
      chunks, m, n := RetryTopics(topics);
    }

    method RetryTopics(topics: seq<Topic>) returns (chunks: seq<Chunk>, ghost m: nat, ghost n: nat)
      requires Valid() && open && forall t | t in topics :: t in Wanted()
      modifies `nextRef, `retryRefs, `wire, `moments, `recoveries, `seqs, `trail, `lastNow, `ticks, window
      ensures Valid() && window.active == old(window.active)
      ensures forall t :: t in Flat(TopicsOf(chunks)) <==> t in topics
      ensures RecoversExactly(chunks, Tracked(old(seqs), epochs))
      ensures RetriedTo(old(Sends(wire, CurrentRefs(), window.queue)), chunks,
        RetryJobs(chunks, generation, old(nextRef)), m, n)
    {
      chunks := ChunkResubscribe(topics, managed, seqs, epochs);
      UnmanagedMembers(topics, managed);
      ChunksAreWanted(chunks, topics, subscribed, managed, Tracked(seqs, epochs));
      m, n := RetryAll(chunks);
    }

    // The refused topics still wanted.
    method StillWanted() returns (topics: seq<Topic>)
      ensures forall t :: t in topics <==> t in limited && t in subscribed && t !in managed
    {
      var keys := Spread(limited.Keys);
      topics := Filter(keys, subscribed - managed);
    }

    // The others are forgotten.
    method DropUnwanted()
      requires Valid()
      modifies `limited
      ensures Valid() && limited == Kept(old(limited), subscribed - managed)
    {
      KeptNested(registry.refCounts.Keys, subscribed, recoveries, retryRefs, limited, subscribed - managed);
      limited := Kept(limited, subscribed - managed);
    }

    method RetryAll(chunks: seq<Chunk>) returns (ghost m: nat, ghost n: nat)
      requires Valid() && open && AllWanted(chunks, Wanted())
      modifies `nextRef, `retryRefs, `wire, `moments, `recoveries, `seqs, `trail, `lastNow, `ticks, window
      ensures Valid() && window.active == old(window.active)
      ensures RetriedTo(old(Sends(wire, CurrentRefs(), window.queue)), chunks,
                RetryJobs(chunks, generation, old(nextRef)), m, n)
    {
      ghost var jobs := RetryJobs(chunks, generation, nextRef);
      NoJobs(jobs);
      m, n := RetryFrom(Sends(wire, CurrentRefs(), window.queue), chunks, 0, jobs, 0, 0);
    }

    // The chunks from the i-th on.
    method RetryFrom(ghost start: Sends, chunks: seq<Chunk>, i: nat, ghost jobs: seq<Job>, ghost m: nat, ghost n: nat)
      returns (ghost m': nat, ghost n': nat)
      requires Valid() && open && AllWanted(chunks, Wanted()) && i <= |chunks| == |jobs|
      requires nextRef == start.refs.next + i && jobs == RetryJobs(chunks, generation, start.refs.next)
      requires RetriedTo(start, chunks, jobs[..i], m, n)
      modifies `nextRef, `retryRefs, `wire, `moments, `recoveries, `seqs, `trail, `lastNow, `ticks, window
      ensures Valid() && window.active == old(window.active) && RetriedTo(start, chunks, jobs, m', n')
      decreases |chunks| - i
    {
      m', n' := m, n;
      if i == |chunks| {
        WholeJobs(jobs);
      } else {
        m', n' := RetryNext(start, chunks, i, jobs, m', n');
        m', n' := RetryFrom(start, chunks, i + 1, jobs, m', n');
      }
    }

    predicate RetriedTo(start: Sends, chunks: seq<Chunk>, jobs: seq<Job>, m: nat, n: nat)
      reads this, window
    {
      Retried(start, Sends(wire, CurrentRefs(), window.queue), chunks, jobs, m, n, window.active)
    }

    method RetryNext(ghost start: Sends, chunks: seq<Chunk>, i: nat, ghost jobs: seq<Job>, ghost m: nat, ghost n: nat)
      returns (ghost m': nat, ghost n': nat)
      requires Valid() && open && AllWanted(chunks, Wanted()) && i < |chunks| == |jobs|
        && nextRef == start.refs.next + i
      requires jobs == RetryJobs(chunks, generation, start.refs.next)
      requires RetriedTo(start, chunks, jobs[..i], m, n)
      modifies `nextRef, `retryRefs, `wire, `moments, `recoveries, `seqs, `trail, `lastNow, `ticks, window
      ensures Valid() && window.active == old(window.active) && nextRef == old(nextRef) + 1
      ensures RetriedTo(start, chunks, jobs[..i + 1], m', n')
    {
      ghost var before, number := Sends(wire, CurrentRefs(), window.queue), nextRef;
      var immediate := RetryChunk(chunks[i]);
      RetriedNext(start, before, Sends(wire, CurrentRefs(), window.queue), chunks, i, jobs, m, n, generation,
        number, window.active, immediate);
      m', n' := if immediate then i + 1 else m, if immediate || |before.queue| < MAX_QUEUE then i + 1 else n;
    }

    method RetryChunk(chunk: Chunk) returns (immediate: bool)
      requires Valid() && open && IsWanted(chunk, Wanted())
      modifies `nextRef, `retryRefs, `wire, `moments, `recoveries, `seqs, `trail, `lastNow, `ticks, window
      ensures Valid() && window.active == old(window.active) && nextRef == old(nextRef) + 1
      ensures !window.active ==> immediate
      ensures window.active && old(window.queue) != [] ==> !immediate
      ensures window.queue == if immediate then old(window.queue)
                              else Waiting(old(window.queue), Retry(generation, chunk.topics, old(nextRef),
                                chunk.recover))
      ensures wire == if immediate then old(wire) + [Batch(chunk.topics, old(nextRef), chunk.recover)] else old(wire)
    {
      var number := MarkChunk(chunk);
      immediate := Gate(Retry(generation, chunk.topics, number, chunk.recover));
    }

    method MarkChunk(chunk: Chunk) returns (number: nat)
      requires Valid() && IsWanted(chunk, Wanted())
      modifies `nextRef, `retryRefs
      ensures Valid() && number == old(nextRef) && nextRef == number + 1
      ensures JobFormed(Retry(generation, chunk.topics, number, chunk.recover))
      ensures Sending(Retry(generation, chunk.topics, number, chunk.recover), Wanted(), retryRefs, generation, nextRef)
        == Some(Batch(chunk.topics, number, chunk.recover))
    {
      number := nextRef;
      nextRef := nextRef + 1;
      MarkRetries(chunk.topics, number);
      WholeChunkLeaves(chunk, number, Wanted(), retryRefs, generation, nextRef);
    }

    // ---- the socket -----------------------------------------------------------------------------------------

    // onopen: every subscribed topic that is not managed is asked for again, from where it stands.
    method Opened() returns (chunks: seq<Chunk>)
      requires Valid() && held
      modifies `open, `nextRef, `wire, `moments, `recoveries, `seqs, `trail
      ensures Valid() && open
      ensures forall t :: t in Flat(TopicsOf(chunks)) <==> t in subscribed && t !in managed
      ensures Greedy(TopicsOf(chunks), PriceOf(Tracked(old(seqs), epochs)))
        && RecoversExactly(chunks, Tracked(old(seqs), epochs))
      ensures wire == old(wire) + Frames(chunks, old(nextRef))
      // each tracked one waits for its answer, and no offset moves
      ensures seqs == old(seqs)
      ensures forall t :: t in recoveries <==> t in old(recoveries) || (t in subscribed && t !in managed && t in seqs)
    {
      open := true;
      chunks := ResubscribeChunks();
      AskForAll(chunks);
    }

    method ResubscribeChunks() returns (chunks: seq<Chunk>)
      ensures forall t :: t in Flat(TopicsOf(chunks)) <==> t in subscribed && t !in managed
      ensures Greedy(TopicsOf(chunks), PriceOf(Tracked(seqs, epochs))) && RecoversExactly(chunks, Tracked(seqs, epochs))
      ensures AllWanted(chunks, Wanted()) && AllFromHere(chunks, seqs)
      ensures forall t :: t in Recovering(chunks) <==> t in subscribed && t !in managed && t in seqs
    {
      var order := Spread(subscribed);
      chunks := ChunkResubscribe(order, managed, seqs, epochs);
      UnmanagedMembers(order, managed);
      ChunksAreWanted(chunks, order, subscribed, managed, Tracked(seqs, epochs));
      RecoveringTracked(chunks, seqs, epochs);
    }

    method AskForAll(chunks: seq<Chunk>)
      requires Valid() && open && AllWanted(chunks, Wanted()) && AllFromHere(chunks, seqs)
      modifies `nextRef, `wire, `moments, `recoveries, `seqs, `trail
      ensures Valid() && wire == old(wire) + Frames(chunks, old(nextRef))
      ensures seqs == old(seqs) && recoveries.Keys == old(recoveries).Keys + Recovering(chunks)
    {
      ghost var before, number, waiting := wire, nextRef, recoveries.Keys;
      for i := 0 to |chunks|
        invariant Valid() && nextRef == number + i && seqs == old(seqs)
        invariant AskedFor(chunks[..i], before, number, waiting)
      {
        AskForNext(chunks, i, before, number, waiting);
      }
      WholeChunks(chunks);
    }

    // These chunks were asked for since.
    predicate AskedFor(chunks: seq<Chunk>, before: seq<Frame>, number: nat, waiting: set<Topic>)
      reads `wire, `recoveries
    {
      wire == before + Frames(chunks, number) && recoveries.Keys == waiting + Recovering(chunks)
    }

    method AskForNext(chunks: seq<Chunk>, i: nat, ghost before: seq<Frame>, ghost number: nat,
                      ghost waiting: set<Topic>)
      requires Valid() && open && AllWanted(chunks, Wanted()) && AllFromHere(chunks, seqs) && i < |chunks|
      requires nextRef == number + i && AskedFor(chunks[..i], before, number, waiting)
      modifies `nextRef, `wire, `moments, `recoveries, `seqs, `trail
      ensures Valid() && nextRef == number + i + 1 && seqs == old(seqs)
      ensures AskedFor(chunks[..i + 1], before, number, waiting)
    {
      FramesMore(before, chunks, i, number);
      assert chunks[..i + 1][..i] == chunks[..i];
      AskForChunk(chunks[i]);
    }

    method AskForChunk(chunk: Chunk)
      requires Valid() && open && IsWanted(chunk, Wanted()) && FromHere(AskedFrom(chunk.recover), seqs)
      modifies `nextRef, `wire, `moments, `recoveries, `seqs, `trail
      ensures Valid() && nextRef == old(nextRef) + 1 && seqs == old(seqs)
      ensures wire == old(wire) + [Batch(chunk.topics, old(nextRef), chunk.recover)]
      ensures recoveries.Keys == old(recoveries).Keys + AskedFrom(chunk.recover).Keys
    {
      var f := Batch(chunk.topics, nextRef, chunk.recover);
      nextRef := nextRef + 1;
      SendRecovery(f);
      AskedFromHere(old(seqs), old(recoveries), AskedFrom(chunk.recover), f.number, seqs, recoveries);
    }

    // clearSubscriptionRetries
    method ClearRetries()
      requires Valid()
      modifies `retryTimer, `limited, `strayed, `clears
      ensures Valid() && retryTimer == None && limited == map[] && clears == old(clears) + 1
    {
      retryTimer, strayed, clears := None, false, clears + 1;
      limited := map[];
    }

    // No answer will come any more.
    method LoseRecoveries()
      requires Valid()
      modifies `recoveries, `retryRefs, `trail
      ensures Valid() && recoveries == map[] && retryRefs == map[]
    {
      FollowedLost(seqs, recoveries, trail);
      recoveries, retryRefs, trail := map[], map[], trail + [AllLost];
    }

    // doConnect, past its other guards: an old socket is let go and the retries cleared, or there was none and
    // the retries stay.
    method BeginAttempt()
      requires Valid() && !ended && !open
      modifies `generation, `recoveries, `retryRefs, `trail, `retryTimer, `limited, `strayed, `clears, `held, `open
      ensures Valid() && generation == old(generation) + 1 && !held && recoveries == map[] && retryRefs == map[]
      ensures if old(held) then retryTimer == None && limited == map[] && clears == old(clears) + 1
              else retryTimer == old(retryTimer) && limited == old(limited) && clears == old(clears)
      ensures !old(held) && retryTimer.Some? ==> strayed && retryTimer != Some(generation)
    {
      LoseRecoveries();
      if held { LetGo(); } else { strayed := true; }
      generation := generation + 1;
    }

    // ws = new WebSocket(...), in the attempt that is still current
    method Dialed()
      requires Valid() && !held && !ended
      modifies `held
      ensures Valid() && held && !open
    {
      held := true;
    }

    // The current socket's close event; or, with the attempt cancelled, simulateOffline.
    method LetGo()
      requires Valid()
      modifies `retryTimer, `limited, `strayed, `clears, `held, `open
      ensures Valid() && !held && !open && retryTimer == None && limited == map[] && clears == old(clears) + 1
    {
      ClearRetries();
      held, open := false, false;
    }

    // The socket no longer reads OPEN, before its close event arrives.
    method Closing()
      requires Valid()
      modifies `open
      ensures Valid() && !open
    {
      open := false;
    }

    // simulateOffline, up to its first notification: the attempt cancelled, the retries cleared, the socket let go
    method Paused()
      requires Valid() && !ended
      modifies `generation, `retryTimer, `limited, `strayed, `clears, `held, `open
      ensures Valid() && generation == old(generation) + 1 && !held && !open
      ensures retryTimer == None && limited == map[] && clears == old(clears) + 1
    {
      LetGo();
      generation := generation + 1;
    }

    // close, up to its first notification: the socket is still held, and no attempt will follow
    method Ended()
      requires Valid()
      modifies `generation, `retryTimer, `limited, `strayed, `clears, `ended
      ensures Valid() && ended && generation == old(generation) + 1
      ensures retryTimer == None && limited == map[] && clears == old(clears) + 1
    {
      ended := true;
      ClearRetries();
      generation := generation + 1;
    }

    // The rest of close. A retry timer armed in between stays.
    method LetGoAtEnd()
      requires Valid() && ended
      modifies `held, `open
      ensures Valid() && !held && !open
    {
      held, open := false, false;
    }

    // lease-ok
    method TurnOnWindow()
      requires Valid()
      modifies window
      ensures Valid() && window.active
    {
      window.TurnOn();
    }

    // The framework marks a topic server-managed; another connection takes a mark back.
    method Mark(topic: Topic, on: bool)
      requires Valid()
      modifies `managed
      ensures Valid() && managed == if on then old(managed) + {topic} else old(managed) - {topic}
    {
      managed := if on then managed + {topic} else managed - {topic};
    }

    // ---- runs -----------------------------------------------------------------------------------------------

    // Application code and the page's microtasks; a call with nothing to act on does nothing.
    method Local(c: Call)
      requires Valid()
      modifies `managed, `subscribed, `seqs, `recoveries, `retryRefs, `limited, `mounting, `nextRef
      modifies `lastNow, `ticks, `wire, `moments, `trail, registry, window
      ensures Valid() && Lawful(c)
    {
      if c.Flushing? || c.Marking? {
        OnPage(c);
        NamesKept(c, old(registry.wrappers), registry.wrappers);
      } else if c.Subscribing? || c.Releasing? || c.Forcing? {
        Direct(c);
        NamesKept(c, old(registry.wrappers), registry.wrappers);
      } else {
        ThroughWrapper(c);
      }
    }

    // What touches no hold.
    method OnPage(c: Call)
      requires Valid() && (c.Flushing? || c.Marking?)
      modifies `managed, `seqs, `recoveries, `retryRefs, `mounting, `nextRef
      modifies `lastNow, `ticks, `wire, `moments, `trail, window
      ensures Valid()
    {
      if c.Marking? {
        Mark(c.topic, c.on);
      } else if mounting.Some? {
        var jobs, m, n := Flush();
      }
    }

    // Direct subscribes, releases and forced unsubscribes.
    method Direct(c: Call)
      requires Valid() && (c.Subscribing? || c.Releasing? || c.Forcing?)
      modifies `managed, `subscribed, `mounting, `recoveries, `retryRefs, `limited, `trail, `wire, `moments, registry
      ensures Valid() && registry.wrappers == old(registry.wrappers)
      ensures registry.direct == DirectAfter(old(registry.direct), c)
      ensures old(registry.orderly && Covers(registry.direct, c) && ClearNames(c)) ==> registry.orderly
    {
      if c.Subscribing? {
        Subscribe(c.topic);
      } else if c.Releasing? {
        Release(c.topic, c.current);
      } else {
        Forget(c.topic, c.current);
      }
    }

    method ThroughWrapper(c: Call)
      requires Valid() && !c.Subscribing? && !c.Releasing?
      modifies `managed, `subscribed, `mounting, `recoveries, `retryRefs, `limited, `trail, `wire, `moments, registry
      ensures Valid() && Lawful(c)
    {
      if c.Wrapping? {
        var w := On(c.topic, c.event);
      } else {
        WithWrapper(c);
      }
      NamesKept(c, old(registry.wrappers), registry.wrappers);
    }

    method WithWrapper(c: Call)
      requires Valid()
      modifies `managed, `subscribed, `mounting, `recoveries, `retryRefs, `limited, `trail, `wire, `moments, registry
      ensures Valid() && SameTopics() && registry.direct == old(registry.direct)
      ensures registry.orderly == old(registry.orderly)
    {
      match c {
        case Listening(w) => if w < |registry.wrappers| { Listen(w); }
        case Unlistening(l, current) => if l < |registry.listeners| { Unlisten(l, current); }
        case CleaningUp => if |registry.cleanups| > 0 { CleanUp(); }
        case _ =>
      }
    }

    // What a call may do to the holds: the direct ones as it says, no wrapper of a topic it does not name,
    // and orderly as long as it is covered and clear.
    twostate predicate Lawful(c: Call)
      reads registry
    {
      && registry.direct == DirectAfter(old(registry.direct), c)
      && (old(registry.orderly && Covers(registry.direct, c) && ClearNames(c)) ==> registry.orderly)
      && (forall w | 0 <= w < |registry.wrappers| :: IsNamed(registry.wrappers[w].topic, c, old(registry.wrappers)))
    }

    /** A stale timer stays, and stays stale, until the retries are next cleared. */
    twostate predicate Blocks()
      reads `clears, `retryTimer, `strayed
    {
      && clears >= old(clears)
      && (clears == old(clears) && old(retryTimer.Some? && strayed) ==> retryTimer == old(retryTimer) && strayed)
    }

    // The topics a call names are clear of every wrapper's.
    predicate ClearNames(c: Call)
      reads registry
    {
      forall t | t in Names(c) :: Holds.ClearOf(t, registry.wrappers)
    }

    // The socket, the server and the timer.
    method Remote(c: Call)
      requires Valid()
      modifies this, window
      ensures Valid() && Blocks()
    {
      if c.Attempting? || c.Dialing? || c.Opening? || c.ClosingSocket? {
        OnSocket(c);
      } else if c.Dropping? || c.Pausing? || c.Ending? || c.LettingGo? {
        OnSocketGone(c);
      } else if c.Leasing? || c.Granting? || c.RetryTimer? {
        OnWindow(c);
      } else {
        OnServer(c);
      }
    }

    method OnSocket(c: Call)
      requires Valid()
      modifies this
      ensures Valid() && Blocks()
    {
      match c
      case Attempting => if !ended && !open { BeginAttempt(); }
      case Dialing => if !held && !ended { Dialed(); }
      case Opening => if held { var chunks := Opened(); }
      case ClosingSocket => Closing();
      case _ =>
    }

    method OnSocketGone(c: Call)
      requires Valid()
      modifies this
      ensures Valid() && Blocks()
    {
      match c
      case Dropping => if held { LetGo(); }
      case Pausing => if !ended { Paused(); }
      case Ending => Ended();
      case LettingGo => if ended { LetGoAtEnd(); }
      case _ =>
    }

    method OnWindow(c: Call)
      requires Valid()
      modifies this, window
      ensures Valid() && Blocks()
    {
      match c
      case Leasing => TurnOnWindow();
      case Granting(count, ttlMs) => ApplyWindow(count, ttlMs);
      case RetryTimer => if retryTimer.Some? { TimerFires(); }
      case _ =>
    }

    method OnServer(c: Call)
      requires Valid()
      modifies this
      ensures Valid() && Blocks()
    {
      match c
      case Accepting(topic, ref, epoch) => Accepted(topic, ref, epoch);
      case Denying(topic, ref) => FinishRecovery(topic, ref, false);
      case Refusing(topic, random) => var step, delay := RetryLater(topic, random);
      case Sequence(topic, s) => Sequenced(topic, s);
      case Invalidating(topic, epoch) => WindowLost(topic, epoch);
      case _ =>
    }

    method Happen(c: Call)
      requires Valid()
      modifies this, registry, window
      ensures Valid() && Lawful(c) && Blocks()
    {
      Local(c);
      Remote(c);
    }

    // Every release of the run is owed and unforced, and no topic in use extends another past a NUL.
    ghost predicate Fair(calls: seq<Call>, used: set<Topic>)
      reads registry
    {
      registry.orderly && Owed(calls, registry.direct) && Within(registry.wrappers, used) && Apart(used)
        && InUse(calls, used)
    }

    /**
     Any run. A stale retry timer outlasts it unless the retries are cleared. When the run is fair the registry is
     balanced: ownership holds exactly when no wrapper's surplus calls used up its live listeners, and a listener
     hears exactly when its topic's last hold was not dropped since its store was taken. `used` are the topics in use.
     */
    method Drive(calls: seq<Call>, ghost used: set<Topic>)
      requires Valid()
      modifies this, registry, window
      ensures Valid() && Blocks()
      ensures old(Fair(calls, used)) ==> registry.orderly
      ensures old(Fair(calls, used)) ==>
        (registry.Owned() <==> forall w | 0 <= w < |registry.wrappers| :: Holds.Outlasts(registry.listeners, w))
      ensures old(Fair(calls, used)) ==> forall l | 0 <= l < |registry.listeners| :: registry.HearsInEra(l)
    {
      ghost var fair := Fair(calls, used);
      assert calls[0..] == calls;
      for i := 0 to |calls|
        invariant Valid() && Blocks()
        invariant fair ==> Fair(calls[i..], used)
      {
        assert calls[i..][1..] == calls[i + 1..] && calls[i..][0] == calls[i];
        if fair { NamesAreClear(calls[i], used, registry.wrappers); }
        Happen(calls[i]);
      }
      if fair {
        registry.OwnershipExactly();
        registry.HearingExactly();
      }
    }

    lemma NamesAreClear(c: Call, used: set<Topic>, wrappers: Holds.Wrappers)
      requires Apart(used) && Names(c) <= used && Within(wrappers, used)
      ensures forall t | t in Names(c) :: Holds.ClearOf(t, wrappers)
    {
    }

    /**
     What every run keeps: the per-topic sets lie inside what is held, each frame ever sent asked only for
     topics held and not managed when it left, a recovery in flight stands where its request put it, and with none
     in flight the offset is the greatest sequence seen since it was last set, answered or cleared.
     */
    lemma RunsAreSound(i: nat, t: Topic) returns (j: nat, k: nat, left: Option<Numeral>)
      requires Valid()
      ensures subscribed <= registry.refCounts.Keys
      ensures recoveries.Keys <= subscribed && retryRefs.Keys <= subscribed && limited.Keys <= subscribed
      ensures i < |wire| ==> i < |moments| && Proper(wire[i], moments[i])
      ensures i < |wire| && t in Named(wire[i]) ==> !(A("__") <= t)
      ensures t in recoveries ==> EndsWithRequest(Project(trail, t), j, View(seqs, recoveries, t))
      ensures t !in recoveries ==> Rests(Project(trail, t), k, left, View(seqs, recoveries, t).offset)
    {
      assert View(seqs, recoveries, t) == Run(BLANK, Project(trail, t));
      j := PendingExplained(Project(trail, t));
      TapsAreUnderscored(t);
      if i < |wire| { assert Proper(wire[i], moments[i]); }
      k, left := RestExplained(Project(trail, t));
    }

    /** Every subscribe-batch on the wire, retried and narrowed ones too, is under the server's parse ceiling. */
    lemma WireFits(i: nat)
      requires Valid() && i < |wire| && wire[i].Batch? && wire[i].number <= MAX_SAFE_INTEGER
      requires |wire[i].topics| == 1 ==>
        EntryCost(wire[i].topics[0], AskedFrom(wire[i].recover)) <= MAX_BYTES - ENVELOPE_BYTES
      ensures BatchFrames.FrameBytes(wire[i].topics, wire[i].number, wire[i].recover) < PARSE_CEILING
    {
      assert Proper(wire[i], moments[i]);
      BatchFrames.LightFrameFits(wire[i].topics, wire[i].number, wire[i].recover);
    }
  }

  /**
   The stale retry timer: a subscriber of the denials store pauses the connection while a refusal is being
   handled, so the timer is armed with no socket held, and resuming begins an attempt. It does nothing when it
   fires, and later refusals of an open, subscribed topic arm no other.
   */
  method StaleRetryTimer(topic: Topic, random: real) returns (s: Session)
    requires !IsTap(topic)
    ensures fresh(s) && s.Valid() && s.open && topic in s.subscribed && topic in s.limited
    ensures s.retryTimer.Some? && s.retryTimer != Some(s.generation)
  {
    s := SubscribedAndOpen(topic);
    RefusedWhilePaused(s, topic, random);
    ResumedAndRefused(s, topic, random);
  }

  method SubscribedAndOpen(topic: Topic) returns (s: Session)
    requires !IsTap(topic)
    ensures fresh(s) && fresh(s.window) && s.Valid() && s.open && !s.ended && topic in s.subscribed && s.managed == {}
  {
    s := new Session([]);
    s.Subscribe(topic);
    Connected(s);
  }

  // An attempt begun with no socket held, up to onopen.
  method Connected(s: Session)
    requires s.Valid() && !s.held && !s.ended
    modifies s
    ensures s.Valid() && s.open && !s.ended && s.subscribed == old(s.subscribed) && s.managed == old(s.managed)
    ensures s.retryTimer == old(s.retryTimer) && s.limited == old(s.limited) && (s.retryTimer.Some? ==> s.strayed)
  {
    s.BeginAttempt();
    s.Dialed();
    var chunks := s.Opened();
  }

  method RefusedWhilePaused(s: Session, topic: Topic, random: real)
    requires s.Valid() && !s.ended && topic in s.subscribed && topic !in s.managed
    modifies s
    ensures s.Valid() && !s.held && !s.ended && topic in s.subscribed && s.managed == old(s.managed)
    ensures s.retryTimer.Some? && s.limited == map[topic := 1]
  {
    s.Paused();
    var step, delay := s.RetryLater(topic, random);
  }

  method ResumedAndRefused(s: Session, topic: Topic, random: real)
    requires s.Valid() && !s.held && !s.ended && topic in s.subscribed && topic !in s.managed && s.retryTimer.Some?
    requires topic in s.limited ==> s.limited[topic] < MAX_RETRIES
    modifies s, s.window
    ensures s.Valid() && s.open && topic in s.subscribed && topic in s.limited
    ensures s.retryTimer == old(s.retryTimer) && s.retryTimer != Some(s.generation)
  {
    Connected(s);
    FiresInVain(s);
    var step, delay := s.RetryLater(topic, random);
  }

  method FiresInVain(s: Session)
    requires s.Valid() && s.retryTimer.Some? && s.strayed
    modifies s, s.window
    ensures s.Valid() && s.open == old(s.open) && s.subscribed == old(s.subscribed) && s.managed == old(s.managed)
    ensures s.retryTimer == old(s.retryTimer) && s.strayed && s.limited == old(s.limited)
  {
    s.TimerFires();
  }
}
