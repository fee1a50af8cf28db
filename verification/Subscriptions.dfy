/**
 What the values kept by the subscription side of src/client.js say, before the class that changes them:
 frames and when they are proper, sends waiting behind the flow window, and the history of each topic.
 */
module Subscriptions {
  import opened Options
  import opened Text
  import opened Chunking
  import opened Recovery
  import opened FlowControl

  const MAX_RETRIES := 6
  const UNDERSCORE: Unit := 95

  // A framework broadcast tap: no wire subscription of its own.
  predicate IsTap(topic: Topic) { |topic| >= 2 && topic[0] == UNDERSCORE && topic[1] == UNDERSCORE }

  lemma TapsAreUnderscored(topic: Topic)
    ensures IsTap(topic) <==> A("__") <= topic
  {
    assert A("__") == [UNDERSCORE, UNDERSCORE];
    if IsTap(topic) { assert topic[..2] == A("__"); }
  }

  // ---- frames -------------------------------------------------------------------------------------

  /** subscribe, subscribe-batch and unsubscribe, as they left. */
  datatype Frame =
    | Single(topic: Topic, number: nat)
    | Batch(topics: seq<Topic>, number: nat, recover: Option<map<Topic, Entry>>)
    | Unsubscribe(topic: Topic)

  /** Who was held and who was server-managed when a frame left. */
  datatype Moment = Moment(held: set<Topic>, managed: set<Topic>)

  function Asks(f: Frame): seq<Topic> {
    match f
    case Single(topic, _) => [topic]
    case Batch(topics, _, _) => topics
    case Unsubscribe(_) => []
  }

  function Named(f: Frame): seq<Topic> {
    if f.Unsubscribe? then [f.topic] else Asks(f)
  }

  predicate RecoversItsOwn(topics: seq<Topic>, recover: Option<map<Topic, Entry>>) {
    forall t | t in AskedFrom(recover) :: t in topics
  }

  /** Within the batch budget: at most 200 topics, and over the bytes only when one topic alone is. */
  predicate IsLight(topics: seq<Topic>, recover: Option<map<Topic, Entry>>) {
    Fits(topics, PriceOf(AskedFrom(recover)))
  }

  /**
   A frame asks for something within the budget, and only for topics held and not managed at that moment; and none
   ever names a tap.
   */
  predicate Proper(f: Frame, m: Moment) {
    && (f.Unsubscribe? || Asks(f) != [])
    && (forall t | t in Asks(f) :: t in m.held && t !in m.managed)
    && (forall t | t in Named(f) :: !IsTap(t))
    && (f.Batch? ==> RecoversItsOwn(f.topics, f.recover) && IsLight(f.topics, f.recover))
  }

  /** Each frame ever sent was proper at the moment it left. */
  predicate AllProper(wire: seq<Frame>, moments: seq<Moment>) {
    |wire| == |moments| && forall i | 0 <= i < |wire| :: Proper(wire[i], moments[i])
  }

  lemma ProperMore(wire: seq<Frame>, moments: seq<Moment>, f: Frame, m: Moment)
    requires AllProper(wire, moments) && Proper(f, m)
    ensures AllProper(wire + [f], moments + [m])
  {
  }

  // ---- sends waiting their turn -------------------------------------------------------------------------

  /** What a gated send will do when it gets its permit. */
  datatype Job =
    | SubscribeOne(topic: Topic)
    | SubscribeMany(topics: seq<Topic>)
    | Retry(generation: nat, topics: seq<Topic>, number: nat, recover: Option<map<Topic, Entry>>)

  predicate JobFormed(job: Job) {
    match job
    case SubscribeOne(_) => true
    case SubscribeMany(topics) => IsLight(topics, None)
    case Retry(_, topics, _, recover) => RecoversItsOwn(topics, recover) && IsLight(topics, recover)
  }

  predicate AllFormed(jobs: seq<Job>) {
    forall i | 0 <= i < |jobs| :: JobFormed(jobs[i])
  }

  // frame.recover after topics left the chunk
  function Narrowed(topics: seq<Topic>, kept: seq<Topic>,
                    recover: Option<map<Topic, Entry>>): Option<map<Topic, Entry>> {
    if kept == topics || recover.None? then recover else Some(Restrict(recover.value, kept))
  }

  // The topics of a chunk whose latest retry is this one.
  function Latest(retries: map<Topic, nat>, number: nat): set<Topic> {
    set t | t in retries && retries[t] == number
  }

  /** The frame a send comes to at the moment it runs. */
  function Sending(job: Job, wanted: set<Topic>, retries: map<Topic, nat>, generation: nat,
                   nextRef: nat): Option<Frame> {
    match job
    case SubscribeOne(topic) => if topic in wanted then Some(Single(topic, nextRef)) else None
    case SubscribeMany(topics) =>
      var kept := Filter(topics, wanted);
      if kept == [] then None else Some(Batch(kept, nextRef, None))
    case Retry(was, topics, number, recover) =>
      var kept := Filter(topics, wanted * Latest(retries, number));
      if was != generation || kept == [] then None else Some(Batch(kept, number, Narrowed(topics, kept, recover)))
  }

  /** However long it waited, a send asks only for what is wanted when it leaves. */
  lemma SendingIsProper(job: Job, held: set<Topic>, subscribed: set<Topic>, managed: set<Topic>,
                        retries: map<Topic, nat>, generation: nat, nextRef: nat)
    requires JobFormed(job) && subscribed <= held && forall t | t in subscribed :: !IsTap(t)
    ensures
      var f := Sending(job, subscribed - managed, retries, generation, nextRef);
      f.Some? ==> Proper(f.value, Moment(held, managed)) && forall t | t in Asks(f.value) :: t in subscribed
  {
    match job
    case SubscribeOne(_) =>
    case SubscribeMany(topics) => FilteredFits(topics, subscribed - managed, None);
    case Retry(_, topics, number, recover) =>
      FilteredFits(topics, (subscribed - managed) * Latest(retries, number), recover);
  }

  // The frames one send comes to; a retry looks at the socket before it leaves.
  function Emitted(job: Job, wanted: set<Topic>, retries: map<Topic, nat>, generation: nat, nextRef: nat,
                   open: bool): seq<Frame> {
    var f := Sending(job, wanted, retries, generation, nextRef);
    if f.Some? && (open || !job.Retry?) then [f.value] else []
  }

  // pendingRetryRefs after a send, and the next ref.
  function RetriesAfter(job: Job, wanted: set<Topic>, retries: map<Topic, nat>, generation: nat): map<Topic, nat> {
    if job.Retry? && job.generation == generation
    then retries - (set t | t in Filter(job.topics, wanted * Latest(retries, job.number)))
    else retries
  }

  // What a current retry comes to, as the code builds it: the chunk's own recover map when all its topics are left.
  lemma RetryComesTo(job: Job, kept: seq<Topic>, left: Option<map<Topic, Entry>>, held: set<Topic>,
                     subscribed: set<Topic>, managed: set<Topic>, retries: map<Topic, nat>, generation: nat,
                     nextRef: nat, open: bool)
    requires job.Retry? && job.generation == generation && JobFormed(job) && subscribed <= held
    requires forall t | t in subscribed :: !IsTap(t)
    requires kept == Filter(job.topics, (subscribed - managed) * Latest(retries, job.number))
    requires left == if |kept| == |job.topics| then job.recover else Narrowed(job.topics, kept, job.recover)
    ensures RetriesAfter(job, subscribed - managed, retries, generation) == retries - (set t | t in kept)
    ensures Emitted(job, subscribed - managed, retries, generation, nextRef, open)
      == if open && kept != [] then [Batch(kept, job.number, left)] else []
    ensures kept != [] ==> Proper(Batch(kept, job.number, left), Moment(held, managed))
    ensures forall t | t in kept :: t in subscribed
  {
    SendingIsProper(job, held, subscribed, managed, retries, generation, nextRef);
    FilterLength(job.topics, (subscribed - managed) * Latest(retries, job.number));
  }

  /**
   A retry asks, in the generation it was made in and on an open socket, for exactly those of its topics that are
   wanted and whose latest retry it is, and recovers each from where its chunk did.
   */
  lemma RetryAsks(job: Job, wanted: set<Topic>, retries: map<Topic, nat>, generation: nat, nextRef: nat, open: bool)
    requires job.Retry? && JobFormed(job)
    ensures
      var frames := Emitted(job, wanted, retries, generation, nextRef, open);
      && |frames| <= 1
      && (forall t :: t in AsksIn(frames) <==>
            open && job.generation == generation && t in job.topics && t in wanted && t in retries
            && retries[t] == job.number)
      && (frames != [] ==>
            && frames[0].Batch? && frames[0].number == job.number
            && forall t | t in frames[0].topics ::
                 && (t in AskedFrom(frames[0].recover) <==> t in AskedFrom(job.recover))
                 && (t in AskedFrom(job.recover) ==> AskedFrom(frames[0].recover)[t] == AskedFrom(job.recover)[t]))
  {
    var frames := Emitted(job, wanted, retries, generation, nextRef, open);
    if frames != [] { assert frames[..0] == [] && AsksIn(frames) == [] + Asks(frames[0]); }
  }

  lemma StaleComesToNothing(job: Job, wanted: set<Topic>, retries: map<Topic, nat>, generation: nat, nextRef: nat,
                           open: bool)
    requires job.Retry? && job.generation != generation
    ensures RetriesAfter(job, wanted, retries, generation) == retries
    ensures Emitted(job, wanted, retries, generation, nextRef, open) == []
  {
  }

  function RefAfter(job: Job, wanted: set<Topic>, nextRef: nat): nat {
    if !job.Retry? && Sending(job, wanted, map[], 0, nextRef).Some? then nextRef + 1 else nextRef
  }

  /** pendingRetryRefs and the next ref, which sends use up as they run. */
  datatype Refs = Refs(retries: map<Topic, nat>, next: nat)

  function JobRefs(job: Job, wanted: set<Topic>, refs: Refs, generation: nat): Refs {
    Refs(RetriesAfter(job, wanted, refs.retries, generation), RefAfter(job, wanted, refs.next))
  }

  function RefsAfter(jobs: seq<Job>, wanted: set<Topic>, refs: Refs, generation: nat): Refs {
    if jobs == [] then refs
    else
      var n := |jobs| - 1;
      JobRefs(jobs[n], wanted, RefsAfter(jobs[..n], wanted, refs, generation), generation)
  }

  /** The frames of sends that run one after the other. */
  function SentAll(jobs: seq<Job>, wanted: set<Topic>, refs: Refs, generation: nat, open: bool): seq<Frame> {
    if jobs == [] then []
    else
      var n := |jobs| - 1;
      var before := RefsAfter(jobs[..n], wanted, refs, generation);
      SentAll(jobs[..n], wanted, refs, generation, open)
      + Emitted(jobs[n], wanted, before.retries, generation, before.next, open)
  }

  // One more of them has run.
  lemma SentNext(wire: seq<Frame>, jobs: seq<Job>, i: nat, wanted: set<Topic>, refs: Refs, generation: nat, open: bool)
    requires i < |jobs|
    ensures
      var before := RefsAfter(jobs[..i], wanted, refs, generation);
      && RefsAfter(jobs[..i + 1], wanted, refs, generation) == JobRefs(jobs[i], wanted, before, generation)
      && wire + SentAll(jobs[..i + 1], wanted, refs, generation, open)
         == (wire + SentAll(jobs[..i], wanted, refs, generation, open))
            + Emitted(jobs[i], wanted, before.retries, generation, before.next, open)
  {
    assert jobs[..i + 1][..i] == jobs[..i];
  }

  // ---- nothing asked for is lost -----------------------------------------------------------------------

  /** What frames ask for, in order. */
  function AsksIn(frames: seq<Frame>): seq<Topic> {
    if frames == [] then [] else AsksIn(frames[..|frames| - 1]) + Asks(frames[|frames| - 1])
  }

  lemma {:induction false} AsksJoin(a: seq<Frame>, b: seq<Frame>)
    ensures AsksIn(a + b) == AsksIn(a) + AsksIn(b)
  {
    if b == [] {
      assert a + b == a;
    } else {
      var n := |b| - 1;
      AsksJoin(a, b[..n]);
      assert (a + b)[..|a| + n] == a + b[..n];
      TopicsRegroup(AsksIn(a), AsksIn(b[..n]), Asks(b[n]));
    }
  }

  lemma {:induction false} FilterJoins(a: seq<Topic>, b: seq<Topic>, wanted: set<Topic>)
    ensures Filter(a + b, wanted) == Filter(a, wanted) + Filter(b, wanted)
  {
    if a == [] {
      assert a + b == b;
    } else {
      FilterJoins(a[1..], b, wanted);
      assert (a + b)[1..] == a[1..] + b;
      TopicsRegroup(if a[0] in wanted then [a[0]] else [], Filter(a[1..], wanted), Filter(b, wanted));
    }
  }

  lemma FilterNothing(wanted: set<Topic>)
    ensures Filter([], wanted) == []
  {
  }

  predicate AreMounts(jobs: seq<Job>) {
    forall i | 0 <= i < |jobs| :: !jobs[i].Retry?
  }

  // A mount's send asks for whatever is wanted of its topics.
  lemma MountAsks(job: Job, wanted: set<Topic>, refs: Refs, generation: nat, open: bool)
    requires !job.Retry?
    ensures AsksIn(Emitted(job, wanted, refs.retries, generation, refs.next, open)) == Filter(TopicsFor(job), wanted)
  {
    var frames := Emitted(job, wanted, refs.retries, generation, refs.next, open);
    if frames != [] { assert frames[..0] == []; }
    if job.SubscribeOne? { assert [job.topic][1..] == []; }
  }

  lemma {:induction false} JobTopicsLast(jobs: seq<Job>)
    requires jobs != []
    ensures JobTopics(jobs) == JobTopics(jobs[..|jobs| - 1]) + TopicsFor(jobs[|jobs| - 1])
  {
    if |jobs| == 1 {
      assert jobs[1..] == [] && jobs[..0] == [];
    } else {
      JobTopicsLast(jobs[1..]);
      assert jobs[1..][..|jobs| - 2] == jobs[..|jobs| - 1][1..];
    }
  }

  /** Sends that run one after the other ask, in order, for everything still wanted of what they were made for. */
  lemma {:induction false} MountsAsk(jobs: seq<Job>, wanted: set<Topic>, refs: Refs, generation: nat, open: bool)
    requires AreMounts(jobs)
    ensures AsksIn(SentAll(jobs, wanted, refs, generation, open)) == Filter(JobTopics(jobs), wanted)
  {
    if jobs != [] {
      var n := |jobs| - 1;
      var before := RefsAfter(jobs[..n], wanted, refs, generation);
      MountsAsk(jobs[..n], wanted, refs, generation, open);
      MountAsks(jobs[n], wanted, before, generation, open);
      AsksJoin(SentAll(jobs[..n], wanted, refs, generation, open),
        Emitted(jobs[n], wanted, before.retries, generation, before.next, open));
      JobTopicsLast(jobs);
      FilterJoins(JobTopics(jobs[..n]), TopicsFor(jobs[n]), wanted);
    }
  }

  // A batch of one goes as a plain subscribe, a larger one in chunks.
  ghost predicate IsMount(jobs: seq<Job>, batch: seq<Topic>) {
    if |batch| == 0 then jobs == []
    else if |batch| == 1 then jobs == [SubscribeOne(batch[0])]
    else exists chunks :: Flat(chunks) == batch && Greedy(chunks, PriceOf(map[])) && jobs == MountJobs(chunks)
  }

  lemma MountIsMounts(jobs: seq<Job>, batch: seq<Topic>)
    requires IsMount(jobs, batch)
    ensures AreMounts(jobs) && JobTopics(jobs) == batch
  {
    if |batch| == 1 {
      assert jobs[1..] == [] && batch == [batch[0]];
    } else if |batch| > 1 {
      var chunks :| Flat(chunks) == batch && Greedy(chunks, PriceOf(map[])) && jobs == MountJobs(chunks);
      MountJobsKeepTopics(chunks);
    }
  }

  /**
   What became of sends gated one after the other: the first m left at once, those up to n wait at the end
   of the queue, the rest found it full; with no window active all of them left.
   */
  predicate IsSplit(jobs: seq<Job>, m: nat, n: nat, active: bool, queue: seq<Job>, queue': seq<Job>) {
    && m <= n <= |jobs|
    && queue' == queue + jobs[m..n]
    && (n < |jobs| ==> |queue'| >= MAX_QUEUE)
    && (m < |jobs| ==> active && queue' != [])
    && (m > 0 && active ==> queue == [])
  }

  lemma PrefixOfPrefix(jobs: seq<Job>, i: nat, m: nat)
    requires i <= |jobs|
    ensures m <= i ==> jobs[..i][..m] == jobs[..m]
  {
  }

  lemma SliceGrows(jobs: seq<Job>, i: nat, m: nat)
    requires m <= i < |jobs|
    ensures jobs[..i + 1][m..i + 1] == jobs[..i][m..i] + [jobs[i]]
  {
  }

  lemma SliceStays(jobs: seq<Job>, i: nat, m: nat, n: nat)
    requires m <= n <= i < |jobs|
    ensures jobs[..i + 1][m..n] == jobs[..i][m..n]
  {
  }

  lemma JobsRegroup(a: seq<Job>, b: seq<Job>, c: seq<Job>)
    ensures a + (b + c) == (a + b) + c
  {
  }

  // One more gated send left, waits, or was dropped. It leaves only past an empty queue.
  lemma SplitLeaves(jobs: seq<Job>, i: nat, m: nat, n: nat, active: bool, queue: seq<Job>, queue': seq<Job>)
    requires i < |jobs| && IsSplit(jobs[..i], m, n, active, queue, queue') && (active ==> queue' == [])
    ensures IsSplit(jobs[..i + 1], i + 1, i + 1, active, queue, queue') && m == i
  {
    SliceStays(jobs, i, i, i);
  }

  lemma SplitWaits(jobs: seq<Job>, i: nat, m: nat, n: nat, queue: seq<Job>, queue': seq<Job>)
    requires i < |jobs| && IsSplit(jobs[..i], m, n, true, queue, queue') && |queue'| < MAX_QUEUE
    ensures IsSplit(jobs[..i + 1], m, i + 1, true, queue, queue' + [jobs[i]])
  {
    SliceGrows(jobs, i, m);
    JobsRegroup(queue, jobs[..i][m..i], [jobs[i]]);
  }

  lemma SplitDrops(jobs: seq<Job>, i: nat, m: nat, n: nat, queue: seq<Job>, queue': seq<Job>)
    requires i < |jobs| && IsSplit(jobs[..i], m, n, true, queue, queue') && |queue'| >= MAX_QUEUE
    ensures IsSplit(jobs[..i + 1], m, n, true, queue, queue')
  {
    SliceStays(jobs, i, m, n);
  }

  lemma SplitNext(jobs: seq<Job>, i: nat, m: nat, n: nat, active: bool, queue: seq<Job>, queue': seq<Job>,
                  immediate: bool)
    requires i < |jobs| && IsSplit(jobs[..i], m, n, active, queue, queue')
    requires !active ==> immediate
    requires active && queue' != [] ==> !immediate
    ensures
      var full := |queue'| >= MAX_QUEUE;
      IsSplit(jobs[..i + 1], if immediate then i + 1 else m, if immediate || !full then i + 1 else n, active, queue,
        if immediate then queue' else Waiting(queue', jobs[i]))
    ensures immediate ==> m == i
  {
    if immediate {
      SplitLeaves(jobs, i, m, n, active, queue, queue');
    } else if |queue'| < MAX_QUEUE {
      SplitWaits(jobs, i, m, n, queue, queue');
    } else {
      SplitDrops(jobs, i, m, n, queue, queue');
    }
  }

  /** What gated sends change: the wire, the refs and the queue. */
  datatype Sends = Sends(wire: seq<Frame>, refs: Refs, queue: seq<Job>)

  /** Of the sends gated since the start the first m left, those up to n wait, and the others were dropped. */
  predicate Gated(start: Sends, now: Sends, jobs: seq<Job>, m: nat, n: nat, active: bool, wanted: set<Topic>,
                  generation: nat, open: bool) {
    && IsSplit(jobs, m, n, active, start.queue, now.queue)
    && now.refs == RefsAfter(jobs[..m], wanted, start.refs, generation)
    && now.wire == start.wire + SentAll(jobs[..m], wanted, start.refs, generation, open)
  }

  // One gated send from here.
  function AfterGate(before: Sends, job: Job, wanted: set<Topic>, generation: nat, open: bool, immediate: bool): Sends {
    if immediate then
      Sends(before.wire + Emitted(job, wanted, before.refs.retries, generation, before.refs.next, open),
            JobRefs(job, wanted, before.refs, generation), before.queue)
    else before.(queue := Waiting(before.queue, job))
  }

  lemma GatedLeaves(start: Sends, before: Sends, jobs: seq<Job>, i: nat, m: nat, n: nat, active: bool,
                    wanted: set<Topic>, generation: nat, open: bool)
    requires i < |jobs| && Gated(start, before, jobs[..i], m, n, active, wanted, generation, open)
    requires active ==> before.queue == []
    ensures Gated(start, AfterGate(before, jobs[i], wanted, generation, open, true), jobs[..i + 1], i + 1, i + 1,
      active, wanted, generation, open)
  {
    SplitNext(jobs, i, m, n, active, start.queue, before.queue, true);
    PrefixOfPrefix(jobs, i, i);
    PrefixOfPrefix(jobs, i + 1, i + 1);
    SentNext(start.wire, jobs, i, wanted, start.refs, generation, open);
  }

  lemma GatedStays(start: Sends, before: Sends, jobs: seq<Job>, i: nat, m: nat, n: nat, active: bool,
                   wanted: set<Topic>, generation: nat, open: bool)
    requires i < |jobs| && Gated(start, before, jobs[..i], m, n, active, wanted, generation, open) && active
    ensures Gated(start, AfterGate(before, jobs[i], wanted, generation, open, false), jobs[..i + 1],
                  m, if |before.queue| < MAX_QUEUE then i + 1 else n, active, wanted, generation, open)
  {
    if |before.queue| < MAX_QUEUE {
      SplitWaits(jobs, i, m, n, start.queue, before.queue);
    } else {
      SplitDrops(jobs, i, m, n, start.queue, before.queue);
    }
    SamePrefix(jobs, i, m);
  }

  lemma SamePrefix(jobs: seq<Job>, i: nat, m: nat)
    requires m <= i < |jobs|
    ensures jobs[..i + 1][..m] == jobs[..i][..m]
  {
  }

  /** With no window every send of a mount leaves, and the frames ask for its topics that are wanted, in order. */
  lemma UngatedMount(start: Sends, now: Sends, jobs: seq<Job>, m: nat, n: nat, wanted: set<Topic>, generation: nat,
                     open: bool, batch: seq<Topic>)
    requires Gated(start, now, jobs, m, n, false, wanted, generation, open) && IsMount(jobs, batch)
    ensures AsksIn(now.wire) == AsksIn(start.wire) + Filter(batch, wanted)
  {
    var frames := AllLeft(start, now, jobs, m, n, wanted, generation, open);
    MountIsMounts(jobs, batch);
    MountsAsk(jobs, wanted, start.refs, generation, open);
    AsksJoin(start.wire, frames);
  }

  lemma AllLeft(start: Sends, now: Sends, jobs: seq<Job>, m: nat, n: nat, wanted: set<Topic>, generation: nat,
                open: bool) returns (frames: seq<Frame>)
    requires Gated(start, now, jobs, m, n, false, wanted, generation, open)
    ensures frames == SentAll(jobs, wanted, start.refs, generation, open) && now.wire == start.wire + frames
  {
    WholeJobs(jobs);
    frames := SentAll(jobs[..m], wanted, start.refs, generation, open);
  }

  lemma WholeJobs(jobs: seq<Job>)
    ensures jobs[..|jobs|] == jobs
  {
  }

  lemma NoJobs(jobs: seq<Job>)
    ensures jobs[..0] == []
  {
  }

  lemma GatedNext(start: Sends, before: Sends, jobs: seq<Job>, i: nat, m: nat, n: nat, active: bool, wanted: set<Topic>,
                  generation: nat, open: bool, immediate: bool)
    requires i < |jobs| && Gated(start, before, jobs[..i], m, n, active, wanted, generation, open)
    requires !active ==> immediate
    requires active && before.queue != [] ==> !immediate
    ensures
      var m' := if immediate then i + 1 else m;
      var n' := if immediate || |before.queue| < MAX_QUEUE then i + 1 else n;
      Gated(start, AfterGate(before, jobs[i], wanted, generation, open, immediate), jobs[..i + 1], m', n', active,
        wanted, generation, open)
  {
    if immediate {
      GatedLeaves(start, before, jobs, i, m, n, active, wanted, generation, open);
    } else {
      GatedStays(start, before, jobs, i, m, n, active, wanted, generation, open);
    }
  }

  predicate Retried(start: Sends, now: Sends, chunks: seq<Chunk>, jobs: seq<Job>, m: nat, n: nat, active: bool) {
    && m <= |chunks|
    && IsSplit(jobs, m, n, active, start.queue, now.queue)
    && now.wire == start.wire + Frames(chunks[..m], start.refs.next)
  }

  lemma RetriedLeaves(start: Sends, before: Sends, now: Sends, chunks: seq<Chunk>, i: nat, jobs: seq<Job>, m: nat,
                      n: nat, active: bool)
    requires i < |chunks| == |jobs| && Retried(start, before, chunks, jobs[..i], m, n, active)
      && (active ==> before.queue == [])
    requires now.queue == before.queue
    requires now.wire == before.wire + [Batch(chunks[i].topics, start.refs.next + i, chunks[i].recover)]
    ensures Retried(start, now, chunks, jobs[..i + 1], i + 1, i + 1, active)
  {
    SplitLeaves(jobs, i, m, n, active, start.queue, before.queue);
    FramesMore(start.wire, chunks, i, start.refs.next);
  }

  lemma RetriedStays(start: Sends, before: Sends, now: Sends, chunks: seq<Chunk>, i: nat, jobs: seq<Job>, m: nat,
                     n: nat)
    requires i < |chunks| == |jobs| && Retried(start, before, chunks, jobs[..i], m, n, true)
    requires now.wire == before.wire && now.queue == Waiting(before.queue, jobs[i])
    ensures Retried(start, now, chunks, jobs[..i + 1], m, if |before.queue| < MAX_QUEUE then i + 1 else n, true)
  {
    SplitNext(jobs, i, m, n, true, start.queue, before.queue, false);
  }

  lemma RetriedNext(start: Sends, before: Sends, now: Sends, chunks: seq<Chunk>, i: nat, jobs: seq<Job>, m: nat, n: nat,
                    generation: nat, number: nat, active: bool, immediate: bool)
    requires number == start.refs.next + i
    requires i < |chunks| && jobs == RetryJobs(chunks, generation, start.refs.next)
      && Retried(start, before, chunks, jobs[..i], m, n, active)
    requires !active ==> immediate
    requires active && before.queue != [] ==> !immediate
    requires now.queue == if immediate then before.queue
      else Waiting(before.queue, Retry(generation, chunks[i].topics, number, chunks[i].recover))
    requires now.wire == if immediate then before.wire + [Batch(chunks[i].topics, number, chunks[i].recover)]
      else before.wire
    ensures
      var m' := if immediate then i + 1 else m;
      var n' := if immediate || |before.queue| < MAX_QUEUE then i + 1 else n;
      Retried(start, now, chunks, jobs[..i + 1], m', n', active)
  {
    RetryJobAt(chunks, i, generation, start.refs.next);
    if immediate {
      RetriedLeaves(start, before, now, chunks, i, jobs, m, n, active);
    } else {
      RetriedStays(start, before, now, chunks, i, jobs, m, n);
    }
  }

  function TopicsFor(job: Job): seq<Topic> {
    match job
    case SubscribeOne(topic) => [topic]
    case SubscribeMany(topics) => topics
    case Retry(_, topics, _, _) => topics
  }

  /** The topics sends were made for, in order. */
  function JobTopics(jobs: seq<Job>): seq<Topic> {
    if jobs == [] then [] else TopicsFor(jobs[0]) + JobTopics(jobs[1..])
  }

  function MountJobs(chunks: seq<seq<Topic>>): seq<Job> {
    if chunks == [] then [] else [SubscribeMany(chunks[0])] + MountJobs(chunks[1..])
  }

  lemma {:induction false} MountJobsKeepTopics(chunks: seq<seq<Topic>>)
    ensures |MountJobs(chunks)| == |chunks| && JobTopics(MountJobs(chunks)) == Flat(chunks)
    ensures forall i | 0 <= i < |chunks| :: MountJobs(chunks)[i] == SubscribeMany(chunks[i])
  {
    if chunks != [] { MountJobsKeepTopics(chunks[1..]); }
  }

  lemma {:induction false} MountJobsFormed(chunks: seq<seq<Topic>>)
    requires Greedy(chunks, PriceOf(map[]))
    ensures AllFormed(MountJobs(chunks))
  {
    if chunks != [] {
      MountJobsFormed(chunks[1..]);
      assert MountJobs(chunks)[1..] == MountJobs(chunks[1..]);
      assert forall i | 0 < i < |MountJobs(chunks)| :: MountJobs(chunks)[i] == MountJobs(chunks[1..])[i - 1];
    }
  }

  lemma DrainedFormed(queue: seq<Job>, drained: seq<Job>, rest: seq<Job>)
    requires AllFormed(queue) && queue == drained + rest
    ensures AllFormed(drained) && AllFormed(rest)
    ensures drained == queue[..|drained|] && rest == queue[|drained|..]
  {
    assert forall i | 0 <= i < |drained| :: drained[i] == queue[i];
    assert forall i | 0 <= i < |rest| :: rest[i] == queue[i + |drained|];
  }

  // The sends a chunked retry makes, numbered from `number` on.
  function RetryJobs(chunks: seq<Chunk>, generation: nat, number: nat): (jobs: seq<Job>)
    ensures |jobs| == |chunks|
  {
    if chunks == [] then []
    else
      var n := |chunks| - 1;
      RetryJobs(chunks[..n], generation, number)
      + [Retry(generation, chunks[n].topics, number + n, chunks[n].recover)]
  }

  lemma {:induction false} RetryJobAt(chunks: seq<Chunk>, i: nat, generation: nat, number: nat)
    requires i < |chunks|
    ensures RetryJobs(chunks, generation, number)[i] == Retry(generation, chunks[i].topics, number + i,
      chunks[i].recover)
    ensures RetryJobs(chunks, generation, number)[..i] == RetryJobs(chunks[..i], generation, number)
  {
    var n := |chunks| - 1;
    if i < n {
      RetryJobAt(chunks[..n], i, generation, number);
      assert chunks[..n][..i] == chunks[..i];
    }
  }

  // The queue of the flow window after a send found no permit.
  function Waiting(queue: seq<Job>, job: Job): seq<Job> {
    if |queue| < MAX_QUEUE then queue + [job] else queue
  }

  /** A retried chunk whose topics are all wanted, and whose latest retry it is, leaves whole. */
  lemma WholeChunkLeaves(chunk: Chunk, number: nat, wanted: set<Topic>, retries: map<Topic, nat>, generation: nat,
                         nextRef: nat)
    requires IsWanted(chunk, wanted) && forall t | t in chunk.topics :: t in retries && retries[t] == number
    ensures Sending(Retry(generation, chunk.topics, number, chunk.recover), wanted, retries, generation, nextRef)
      == Some(Batch(chunk.topics, number, chunk.recover))
  {
    FilterAll(chunk.topics, wanted * Latest(retries, number));
  }

  // The attempts per refused topic after one more refusal.
  function Refused(limited: map<Topic, nat>, topic: Topic): map<Topic, nat> {
    var attempts := 1 + if topic in limited then limited[topic] else 0;
    if attempts > MAX_RETRIES then limited - {topic} else limited[topic := attempts]
  }

  // After this many refusals in a row.
  function RefusedTimes(limited: map<Topic, nat>, topic: Topic, k: nat): map<Topic, nat> {
    if k == 0 then limited else Refused(RefusedTimes(limited, topic, k - 1), topic)
  }

  /** Six refusals in a row are counted, and the seventh gives the topic up; no other is touched. */
  lemma {:induction false} GivenUpAtSeven(limited: map<Topic, nat>, topic: Topic, k: nat)
    requires topic !in limited && 1 <= k <= 7
    ensures RefusedTimes(limited, topic, k) == if k <= 6 then limited[topic := k] else limited
  {
    if k > 1 { GivenUpAtSeven(limited, topic, k - 1); }
    if k == 7 { assert limited[topic := 6] - {topic} == limited; }
  }

  // The refused topics that are still wanted.
  function Kept(limited: map<Topic, nat>, wanted: set<Topic>): (r: map<Topic, nat>)
    ensures r.Keys == limited.Keys * wanted
    ensures forall t | t in r :: r[t] == limited[t]
  {
    map t | t in limited && t in wanted :: limited[t]
  }

  // ---- the sets, one inside the other -------------------------------------------------------------------

  predicate Nested(held: set<Topic>, subscribed: set<Topic>, recoveries: map<Topic, Pending>, retries: map<Topic, nat>,
                   limited: map<Topic, nat>) {
    && subscribed <= held && (forall t | t in subscribed :: !IsTap(t))
    && recoveries.Keys <= subscribed
    && retries.Keys <= subscribed
    && limited.Keys <= subscribed
    && forall t | t in limited :: 1 <= limited[t] <= MAX_RETRIES
  }

  lemma KeptNested(held: set<Topic>, subscribed: set<Topic>, recoveries: map<Topic, Pending>, retries: map<Topic, nat>,
                   limited: map<Topic, nat>, wanted: set<Topic>)
    requires Nested(held, subscribed, recoveries, retries, limited)
    ensures Nested(held, subscribed, recoveries, retries, Kept(limited, wanted))
  {
  }

  // ---- the history of each topic ------------------------------------------------------------------------

  /** Something that happened to one topic, or the loss of the connection, which happens to all. */
  datatype Note = Note(topic: Topic, event: Event) | AllLost

  function Project(trail: seq<Note>, t: Topic): seq<Event> {
    if trail == [] then []
    else
      var rest, last := Project(trail[..|trail| - 1], t), trail[|trail| - 1];
      if last.AllLost? then rest + [Lost] else if last.topic == t then rest + [last.event] else rest
  }

  function View(seqs: map<Topic, Numeral>, recoveries: map<Topic, Pending>, t: Topic): Watermark {
    Watermark(if t in seqs then Some(seqs[t]) else None, if t in recoveries then Some(recoveries[t]) else None)
  }

  /** What is kept of every topic is what its history makes of it. */
  ghost predicate Followed(seqs: map<Topic, Numeral>, recoveries: map<Topic, Pending>, trail: seq<Note>) {
    forall t: Topic :: View(seqs, recoveries, t) == Run(BLANK, Project(trail, t))
  }

  // The maps after topic t became w.
  predicate Became(seqs: map<Topic, Numeral>, recoveries: map<Topic, Pending>, t: Topic, w: Watermark,
                   seqs': map<Topic, Numeral>, recoveries': map<Topic, Pending>) {
    && seqs' == (if w.offset.Some? then seqs[t := w.offset.value] else seqs - {t})
    && recoveries' == (if w.pending.Some? then recoveries[t := w.pending.value] else recoveries - {t})
  }

  lemma RunOne(es: seq<Event>, e: Event)
    ensures Run(BLANK, es + [e]) == Step(Run(BLANK, es), e)
  {
    assert (es + [e])[..|es|] == es;
  }

  lemma FollowedNote(seqs: map<Topic, Numeral>, recoveries: map<Topic, Pending>, trail: seq<Note>, t: Topic, e: Event,
                     seqs': map<Topic, Numeral>, recoveries': map<Topic, Pending>)
    requires Followed(seqs, recoveries, trail)
    requires Became(seqs, recoveries, t, Step(View(seqs, recoveries, t), e), seqs', recoveries')
    ensures Followed(seqs', recoveries', trail + [Note(t, e)])
  {
    assert (trail + [Note(t, e)])[..|trail|] == trail;
    forall u: Topic ensures View(seqs', recoveries', u) == Run(BLANK, Project(trail + [Note(t, e)], u)) {
      assert View(seqs, recoveries, u) == Run(BLANK, Project(trail, u));
      if u == t { RunOne(Project(trail, t), e); }
    }
  }

  lemma FollowedLost(seqs: map<Topic, Numeral>, recoveries: map<Topic, Pending>, trail: seq<Note>)
    requires Followed(seqs, recoveries, trail)
    ensures Followed(seqs, map[], trail + [AllLost])
  {
    assert (trail + [AllLost])[..|trail|] == trail;
    forall u: Topic ensures View(seqs, map[], u) == Run(BLANK, Project(trail + [AllLost], u)) {
      assert View(seqs, recoveries, u) == Run(BLANK, Project(trail, u));
      RunOne(Project(trail, u), Lost);
    }
  }

  /** What a frame's recover map does: each topic it names begins to wait, at the offset asked from. */
  ghost predicate AskedAll(seqs: map<Topic, Numeral>, recoveries: map<Topic, Pending>, recover: map<Topic, Entry>,
                           number: nat, seqs': map<Topic, Numeral>, recoveries': map<Topic, Pending>) {
    AskedSome(seqs, recoveries, recover, number, recover.Keys, seqs', recoveries')
  }

  // The topics a sent frame recovers begin to wait; with none sent nothing does.
  ghost predicate Waits(seqs: map<Topic, Numeral>, recoveries: map<Topic, Pending>, frames: seq<Frame>, number: nat,
                        seqs': map<Topic, Numeral>, recoveries': map<Topic, Pending>) {
    if frames == [] || !frames[0].Batch? then seqs' == seqs && recoveries' == recoveries
    else AskedAll(seqs, recoveries, AskedFrom(frames[0].recover), number, seqs', recoveries')
  }

  ghost predicate AskedSome(seqs: map<Topic, Numeral>, recoveries: map<Topic, Pending>, recover: map<Topic, Entry>,
                            number: nat, keys: set<Topic>, seqs': map<Topic, Numeral>, recoveries': map<Topic, Pending>)
    requires keys <= recover.Keys
  {
    forall t: Topic :: View(seqs', recoveries', t)
      == if t in keys then Watermark(Some(recover[t].offset), Some(Pending(number, None)))
        else View(seqs, recoveries, t)
  }

  /** What is kept of the topics, and their history. */
  datatype Book = Book(seqs: map<Topic, Numeral>, recoveries: map<Topic, Pending>, trail: seq<Note>)

  function AskTopic(b: Book, t: Topic, from: Numeral, number: nat): Book {
    Book(b.seqs[t := from], b.recoveries[t := Pending(number, None)], b.trail + [Note(t, Asked(number, from))])
  }

  function Members(keys: seq<Topic>): set<Topic> { set t | t in keys }

  // The topics named in keys begin to wait, in that order.
  function AskTopics(b: Book, recover: map<Topic, Entry>, number: nat, keys: seq<Topic>): Book
    requires forall t | t in keys :: t in recover
  {
    if keys == [] then b
    else
      var n := |keys| - 1;
      AskTopic(AskTopics(b, recover, number, keys[..n]), keys[n], recover[keys[n]].offset, number)
  }

  lemma AskNext(b: Book, recover: map<Topic, Entry>, number: nat, keys: seq<Topic>, i: nat)
    requires i < |keys| && forall t | t in keys :: t in recover
    ensures AskTopics(b, recover, number, keys[..i + 1])
      == AskTopic(AskTopics(b, recover, number, keys[..i]), keys[i], recover[keys[i]].offset, number)
  {
    assert keys[..i + 1][..i] == keys[..i];
  }

  lemma AskOneKeeps(b: Book, c: Book, recover: map<Topic, Entry>, number: nat, keys: set<Topic>, t: Topic)
    requires keys <= recover.Keys && t in recover
    requires Followed(c.seqs, c.recoveries, c.trail)
    requires AskedSome(b.seqs, b.recoveries, recover, number, keys, c.seqs, c.recoveries)
    ensures
      var d := AskTopic(c, t, recover[t].offset, number);
      Followed(d.seqs, d.recoveries, d.trail) && AskedSome(b.seqs, b.recoveries, recover, number, keys + {t}, d.seqs,
        d.recoveries)
  {
    var d := AskTopic(c, t, recover[t].offset, number);
    FollowedNote(c.seqs, c.recoveries, c.trail, t, Asked(number, recover[t].offset), d.seqs, d.recoveries);
    forall u: Topic ensures View(d.seqs, d.recoveries, u)
      == if u in keys + {t} then Watermark(Some(recover[u].offset), Some(Pending(number, None)))
        else View(b.seqs, b.recoveries, u)
    {
      assert u != t ==> View(d.seqs, d.recoveries, u) == View(c.seqs, c.recoveries, u);
    }
  }

  /** Asking keeps every history, and asks exactly for the topics named. */
  lemma {:induction false} AskTopicsKeeps(b: Book, recover: map<Topic, Entry>, number: nat, keys: seq<Topic>)
    requires (forall t | t in keys :: t in recover) && Followed(b.seqs, b.recoveries, b.trail)
    ensures
      var c := AskTopics(b, recover, number, keys);
      && Followed(c.seqs, c.recoveries, c.trail)
      && AskedSome(b.seqs, b.recoveries, recover, number, Members(keys), c.seqs, c.recoveries)
  {
    if keys != [] {
      var n := |keys| - 1;
      AskTopicsKeeps(b, recover, number, keys[..n]);
      AskOneKeeps(b, AskTopics(b, recover, number, keys[..n]), recover, number, Members(keys[..n]), keys[n]);
      assert Members(keys) == Members(keys[..n]) + {keys[n]};
    }
  }

  lemma AskedKeys(seqs: map<Topic, Numeral>, recoveries: map<Topic, Pending>, recover: map<Topic, Entry>, number: nat,
                  seqs': map<Topic, Numeral>, recoveries': map<Topic, Pending>)
    requires AskedAll(seqs, recoveries, recover, number, seqs', recoveries')
    ensures recoveries'.Keys == recoveries.Keys + recover.Keys
  {
    forall t: Topic ensures t in recoveries' <==> t in recoveries || t in recover {
      assert View(seqs', recoveries', t).pending.Some? <==> View(seqs, recoveries, t).pending.Some? || t in recover;
    }
  }

  // ---- resubscription -----------------------------------------------------------------------------------

  // The frames of a chunked resubscribe, numbered from `number` on.
  function Frames(chunks: seq<Chunk>, number: nat): seq<Frame> {
    if chunks == [] then []
    else
      var n := |chunks| - 1;
      Frames(chunks[..n], number) + [Batch(chunks[n].topics, number + n, chunks[n].recover)]
  }

  /** One frame a chunk, in order, numbered in turn, with the chunk's own topics and recover map. */
  lemma {:induction false} FramesAt(chunks: seq<Chunk>, number: nat, i: nat)
    requires i < |chunks|
    ensures |Frames(chunks, number)| == |chunks|
    ensures Frames(chunks, number)[i] == Batch(chunks[i].topics, number + i, chunks[i].recover)
  {
    FramesLength(chunks, number);
    FramesLength(chunks[..|chunks| - 1], number);
    if i < |chunks| - 1 { FramesAt(chunks[..|chunks| - 1], number, i); }
  }

  lemma {:induction false} FramesLength(chunks: seq<Chunk>, number: nat)
    ensures |Frames(chunks, number)| == |chunks|
  {
    if chunks != [] { FramesLength(chunks[..|chunks| - 1], number); }
  }

  // Each entry of a recover map stands where its topic does.
  ghost predicate FromHere(recover: map<Topic, Entry>, seqs: map<Topic, Numeral>) {
    forall t | t in recover :: t in seqs && recover[t].offset == seqs[t]
  }

  /** Asking from where the topics stand moves no offset; each topic asked for waits for that frame's answer. */
  lemma AskedFromHere(seqs: map<Topic, Numeral>, recoveries: map<Topic, Pending>, recover: map<Topic, Entry>,
                      number: nat, seqs': map<Topic, Numeral>, recoveries': map<Topic, Pending>)
    requires AskedAll(seqs, recoveries, recover, number, seqs', recoveries') && FromHere(recover, seqs)
    ensures seqs' == seqs && recoveries'.Keys == recoveries.Keys + recover.Keys
    ensures forall t | t in recover :: recoveries'[t] == Pending(number, None)
  {
    AskedKeys(seqs, recoveries, recover, number, seqs', recoveries');
    forall t: Topic ensures (t in seqs' <==> t in seqs) && (t in seqs ==> seqs'[t] == seqs[t]) {
      assert View(seqs', recoveries', t).offset == View(seqs, recoveries, t).offset;
    }
    forall t | t in recover ensures recoveries'[t] == Pending(number, None) {
      assert View(seqs', recoveries', t).pending == Some(Pending(number, None));
    }
  }

  // The topics the chunks ask to recover.
  function Recovering(chunks: seq<Chunk>): set<Topic> {
    if chunks == [] then {} else Recovering(chunks[..|chunks| - 1]) + AskedFrom(chunks[|chunks| - 1].recover).Keys
  }

  ghost predicate AllFromHere(chunks: seq<Chunk>, seqs: map<Topic, Numeral>) {
    forall i | 0 <= i < |chunks| :: FromHere(AskedFrom(chunks[i].recover), seqs)
  }

  lemma {:induction false} RecoveringTracked(chunks: seq<Chunk>, seqs: map<Topic, Numeral>, epochs: map<Topic, Numeral>)
    requires RecoversExactly(chunks, Tracked(seqs, epochs))
    ensures AllFromHere(chunks, seqs)
    ensures forall t :: t in Recovering(chunks) <==> t in Flat(TopicsOf(chunks)) && t in seqs
  {
    if chunks != [] {
      var n := |chunks| - 1;
      RecoveringTracked(chunks[..n], seqs, epochs);
      RecoversTracked(chunks, n, seqs, epochs);
      FlatAppend(TopicsOf(chunks[..n]), chunks[n].topics);
      assert forall i | 0 <= i < n :: chunks[i] == chunks[..n][i];
    }
  }

  lemma FramesMore(wire: seq<Frame>, chunks: seq<Chunk>, i: nat, number: nat)
    requires i < |chunks|
    ensures wire + Frames(chunks[..i + 1], number)
      == (wire + Frames(chunks[..i], number)) + [Batch(chunks[i].topics, number + i, chunks[i].recover)]
  {
    assert chunks[..i + 1][..i] == chunks[..i];
  }

  lemma WholeChunks(chunks: seq<Chunk>)
    ensures chunks[..|chunks|] == chunks
  {
  }

  /** A chunk that can leave as it is: within the budget, recovering only its own topics, all of them wanted. */
  predicate IsWanted(chunk: Chunk, wanted: set<Topic>) {
    && chunk.topics != []
    && (forall t | t in chunk.topics :: t in wanted)
    && RecoversItsOwn(chunk.topics, chunk.recover)
    && IsLight(chunk.topics, chunk.recover)
  }

  predicate AllWanted(chunks: seq<Chunk>, wanted: set<Topic>) {
    forall i | 0 <= i < |chunks| :: IsWanted(chunks[i], wanted)
  }

  // What ChunkResubscribe promises of the chunks it cut from subscribed topics.
  lemma ChunksAreWanted(chunks: seq<Chunk>, order: seq<Topic>, subscribed: set<Topic>, managed: set<Topic>,
                        tracked: map<Topic, Entry>)
    requires Flat(TopicsOf(chunks)) == Unmanaged(order, managed)
    requires Greedy(TopicsOf(chunks), PriceOf(tracked)) && RecoversExactly(chunks, tracked)
    requires forall t | t in order :: t in subscribed
    ensures AllWanted(chunks, subscribed - managed)
  {
    forall i | 0 <= i < |chunks| ensures IsWanted(chunks[i], subscribed - managed) {
      FitsAt(TopicsOf(chunks), i, PriceOf(tracked));
      UnmanagedMembers(order, managed);
      TopicsAt(chunks, i);
      RecoversAt(chunks, i, tracked);
      RecoverCovers(tracked, chunks[i].topics);
      CostOfRestricted(chunks[i].topics, tracked, AskedFrom(chunks[i].recover));
    }
  }
}
