/**
 The client's half of flow control (src/client.js): a window of permits from the server, a bounded
 FIFO of sends that found no permit, and the request-n frames that ask for more.

 A gated send is a value of type T; what sending it does is the caller's business. Clock readings
 are parameters, two where the source reads the clock twice.
 */
module FlowControl {

  const LOW_WATER := 64.0
  const MAX_QUEUE := 256

  function Pow2(k: nat): (p: nat)
    ensures p >= 1
  {
    if k == 0 then 1 else 2 * Pow2(k - 1)
  }

  /** A backlog that doubles with every report leaves room for nine reports in a queue of 256. */
  lemma {:induction false} DoublingIsBounded(k: nat)
    ensures k >= 10 ==> Pow2(k - 1) > MAX_QUEUE
  {
    if k == 10 {
      assert Pow2(5) == 32;
      assert Pow2(9) == 512;
    } else if k > 10 {
      DoublingIsBounded(k - 1);
    }
  }

  /** The sends a count of permits lets go, one at a time while it is positive: rounded up, so 2.5 is 3. */
  function Permits(count: real): (n: nat)
    ensures count > 0.0 ==> count <= n as real < count + 1.0
    ensures count <= 0.0 ==> n == 0
  {
    if count <= 0.0 then 0 else if count.Floor as real == count then count.Floor else count.Floor + 1
  }

  lemma OneLess(count: real)
    requires count > 0.0
    ensures Permits(count - 1.0) == Permits(count) - 1
  {
    assert (count - 1.0).Floor == count.Floor - 1;
  }

  function Min(x: nat, y: nat): nat { if x < y then x else y }

  class Window<T> {
    var active: bool
    var avail: real
    var expiresAt: real
    var queue: seq<T>
    var degraded: bool
    var replenishSent: bool
    var reportedQueue: nat

    // What left on the socket: the gated sends, and the backlog each request-n frame reported.
    var sent: seq<T>
    var requests: seq<nat>

    // History: the gated sends asked for and not dropped, in call order; the latest clock reading; what
    // had left when the current window was applied, its size, and the backlog reports made in it.
    ghost var accepted: seq<T>
    ghost var clock: real
    ghost var sentBefore: nat
    ghost var requestsBefore: nat
    ghost var granted: real
    ghost var reports: nat

    predicate Fresh(now: real)
      reads this
    {
      avail > 0.0 && now < expiresAt
    }

    ghost predicate Valid()
      reads this
    {
      && |queue| <= MAX_QUEUE
      && sentBefore <= |sent| && requestsBefore <= |requests|
      // each accepted send has left once or is still queued, and they leave in call order
      && accepted == sent + queue
      // a queue means there is no permit, and shows
      && (|queue| > 0 ==> active && !Fresh(clock) && degraded)
      // permits are spent, never invented
      && (!active ==> avail == 0.0 && !replenishSent)
      && (active ==> |sent| - sentBefore + Permits(avail) <= Permits(granted))
      // one replenish, then reports that at least double
      && |requests| - requestsBefore <= reports + (if replenishSent then 1 else 0)
      && (!replenishSent ==> reports == 0)
      && (reports > 0 ==> Pow2(reports - 1) <= reportedQueue <= MAX_QUEUE)
    }

    constructor ()
      ensures Valid() && !active && queue == [] && sent == [] && requests == [] && !degraded && clock == 0.0
    {
      active, avail, expiresAt, queue, degraded, replenishSent, reportedQueue := false, 0.0, 0.0, [], false, false, 0;
      sent, requests := [], [];
      accepted, clock, sentBefore, requestsBefore, granted, reports := [], 0.0, 0, 0, 0.0, 0;
    }

    /** However a window goes, no more gated sends leave in it than it granted, and at most ten request-n frames. */
    lemma WindowBounds()
      requires Valid() && active
      ensures |sent| - sentBefore <= Permits(granted)
      ensures |requests| - requestsBefore <= 10
    {
      DoublingIsBounded(reports);
    }

    // lease-ok
    method TurnOn()
      requires Valid()
      modifies `active, `granted, `sentBefore, `requestsBefore
      ensures Valid() && active
      ensures old(active) ==> granted == old(granted) && sentBefore == old(sentBefore)
    {
      if !active { granted, sentBefore, requestsBefore := 0.0, |sent|, |requests|; }
      active := true;
    }

    method MaybeReplenish(now: real, open: bool)
      requires Valid() && clock <= now
      modifies `replenishSent, `reportedQueue, `requests, `clock
      ensures Valid() && clock == now
      ensures
        var due := active && !old(replenishSent) && (|queue| > 0 || !Fresh(now) || avail <= LOW_WATER);
        && replenishSent == (old(replenishSent) || due)
        && requests == (if due && open then old(requests) + [|queue|] else old(requests))
        && reportedQueue == if due && open then |queue| else old(reportedQueue)
    {
      clock := now;
      if !active { return; }
      if replenishSent { return; }
      if |queue| > 0 || !Fresh(now) || avail <= LOW_WATER {
        replenishSent := true;
        if open {
          reportedQueue := |queue|;
          requests := requests + [|queue|];
        }
      }
    }

    method ReportDeeperBacklog(open: bool)
      requires Valid() && replenishSent
      modifies `reportedQueue, `requests, `reports
      ensures Valid()
      ensures
        var deeper := |queue| > 0 && (old(reportedQueue) == 0 || |queue| >= 2 * old(reportedQueue));
        && reportedQueue == (if deeper then |queue| else old(reportedQueue))
        && requests == if deeper && open then old(requests) + [|queue|] else old(requests)
    {
      var depth := |queue|;
      if depth == 0 { return; }
      if reportedQueue != 0 && depth < reportedQueue * 2 { return; }
      reportedQueue := depth;
      reports := reports + 1;
      if open { requests := requests + [depth]; }
    }

    // A send with no permit joins the queue, if there is room, and says so.
    method Hold(send: T, now: real, later: real, open: bool)
      requires Valid() && clock <= now <= later && active && !Fresh(now)
      modifies this
      ensures Valid() && active && degraded && sent == old(sent) && avail == old(avail) && expiresAt == old(expiresAt)
      ensures queue == if |old(queue)| < MAX_QUEUE then old(queue) + [send] else old(queue)
      ensures accepted == if |old(queue)| < MAX_QUEUE then old(accepted) + [send] else old(accepted)
      ensures granted == old(granted) && sentBefore == old(sentBefore) && requestsBefore == old(requestsBefore)
      ensures clock == if |old(queue)| < MAX_QUEUE then later else now
      ensures if |old(queue)| < MAX_QUEUE then Reported(old(replenishSent), old(reportedQueue), old(requests), open)
              else unchanged(`replenishSent, `reportedQueue, `requests)
    {
      clock := now;
      degraded := true;
      if |queue| < MAX_QUEUE {
        Regroup(sent, queue, [send]);
        queue, accepted := queue + [send], accepted + [send];
        Ask(later, open);
      }
    }

    method Ask(later: real, open: bool)
      requires Valid() && clock <= later && active && |queue| > 0
      modifies `replenishSent, `reportedQueue, `requests, `clock, `reports
      ensures Valid() && clock == later
      ensures Reported(old(replenishSent), old(reportedQueue), old(requests), open)
    {
      MaybeReplenish(later, open);
      ReportDeeperBacklog(open);
    }

    // A send that waits reports the backlog it makes: the first of a window, or one at least twice what was told.
    predicate Reported(replenished: bool, told: nat, before: seq<nat>, open: bool)
      reads this
    {
      var asks := (!replenished && open) || told == 0 || |queue| >= 2 * told;
      && replenishSent
      && reportedQueue == (if asks then |queue| else told)
      && requests == if asks && open then before + [|queue|] else before
    }

    // Gate one send. It leaves at once, joins the queue, or is dropped because the queue is full.
    method Gate(send: T, now: real, later: real, open: bool) returns (immediate: bool)
      requires Valid() && clock <= now <= later
      modifies this
      ensures Valid() && active == old(active)
      ensures immediate == (!old(active) || old(Fresh(now)))
      ensures immediate ==> sent == old(sent) + [send] && queue == old(queue) && |queue| == 0
      ensures !immediate ==> sent == old(sent) && degraded
      ensures !immediate ==> queue == if |old(queue)| < 256 then old(queue) + [send] else old(queue)
      ensures accepted == if immediate || |old(queue)| < 256 then old(accepted) + [send] else old(accepted)
      ensures avail == old(avail) - (if immediate && active then 1.0 else 0.0)
      ensures granted == old(granted) && sentBefore == old(sentBefore) && requestsBefore == old(requestsBefore)
      ensures old(clock) <= clock <= later && expiresAt == old(expiresAt)
      ensures !active || (!immediate && |old(queue)| >= 256) ==>
        unchanged(`replenishSent, `reportedQueue, `requests)
      // a permit taken asks for more at low water or past the deadline, once a window
      ensures immediate && active ==>
        var due := !old(replenishSent) && (later >= expiresAt || avail <= 64.0);
        && replenishSent == (old(replenishSent) || due) && degraded == old(degraded)
        && reportedQueue == (if due && open then 0 else old(reportedQueue))
        && requests == if due && open then old(requests) + [0] else old(requests)
      // and a backlog is never told by less than half
      ensures !immediate && |old(queue)| < 256 ==>
        Reported(old(replenishSent), old(reportedQueue), old(requests), open) && |queue| < 2 * reportedQueue
    {
      if !active {
        sent, accepted := sent + [send], accepted + [send];
        return true;
      }
      if Fresh(now) {
        OneLess(avail);
        avail := avail - 1.0;
        sent, accepted := sent + [send], accepted + [send];
        MaybeReplenish(later, open);
        return true;
      }
      Hold(send, now, later, open);
      return false;
    }

    // Sends leave from the head while permits last.
    method Drain() returns (drained: seq<T>)
      modifies `queue, `avail, `sent
      ensures old(queue) == drained + queue && sent == old(sent) + drained
      ensures avail == old(avail) - |drained| as real && |drained| == Min(Permits(old(avail)), |old(queue)|)
      ensures |queue| <= |old(queue)| && (|queue| > 0 ==> avail <= 0.0 && |drained| == Permits(old(avail)))
      ensures |drained| + Permits(avail) == Permits(old(avail))
      ensures |sent| == |old(sent)| + |drained| && sent + queue == old(sent) + old(queue)
    {
      drained := [];
      while avail > 0.0 && |queue| > 0
        invariant old(queue) == drained + queue && sent == old(sent) + drained
        invariant avail == old(avail) - |drained| as real && |drained| + Permits(avail) == Permits(old(avail))
        decreases |queue|
      {
        var send := queue[0];
        queue := queue[1..];
        OneLess(avail);
        avail := avail - 1.0;
        sent := sent + [send];
        drained := drained + [send];
      }
      Regroup(old(sent), drained, queue);
    }

    // A fresh window: its permits, its deadline, and leave to ask for more again.
    method Restart(count: real, ttlMs: real, now: real)
      modifies `active, `expiresAt, `avail, `replenishSent, `clock, `granted, `sentBefore, `requestsBefore, `reports
      ensures active && expiresAt == now + ttlMs && avail == granted == count && !replenishSent && reports == 0
      ensures clock == now && sentBefore == |sent| && requestsBefore == |requests|
    {
      active := true;
      expiresAt := now + ttlMs;
      avail := count;
      replenishSent := false;
      clock, granted, sentBefore, requestsBefore, reports := now, count, |sent|, |requests|, 0;
    }

    // A new window: the oldest queued sends take its permits, and degraded says whether any are left without.
    method Apply(count: real, ttlMs: real, now: real) returns (drained: seq<T>)
      requires Valid() && clock <= now
      modifies this
      ensures Valid() && active && clock == now
      ensures old(queue) == drained + queue
      ensures |drained| == Min(Permits(count), |old(queue)|) && avail == count - |drained| as real
      ensures granted == count && sentBefore == |old(sent)| && requestsBefore == |requests|
      ensures sent == old(sent) + drained && accepted == old(accepted) && requests == old(requests)
      ensures expiresAt == now + ttlMs && !replenishSent && reportedQueue == old(reportedQueue)
      ensures degraded <==> |queue| > 0
    {
      Restart(count, ttlMs, now);
      drained := Drain();
      if |queue| == 0 { degraded := false; }
    }
  }

  lemma Regroup<T>(a: seq<T>, b: seq<T>, c: seq<T>)
    ensures a + (b + c) == (a + b) + c
  {
  }
}
