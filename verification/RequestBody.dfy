/**
 authRequestBody of src/vite-request-body.js: the body of an auth request under a byte budget, and
 the one answer that may be held for the rest of it. Each handler is a method; time is a clock that
 events advance, and no timer runs late.
 */
module RequestBody {
  import opened Options

  const BODY_WAIT_LIMIT_MS := 10000
  const BODY_WAIT_BYTES := 163840

  // What an answer may do: keep the connection, close it behind the answer, or not be written at all.
  datatype Decision = KeepOpen | CloseBehind | NotWritten

  // answer(): false at once, or a promise, settled or still held.
  datatype Answer = Now | Promised(decision: Decision) | Held

  // The ReadableStream behind the controller.
  datatype Stream = Readable | Closed | Errored | Cancelled

  function Periods(limit: nat): nat { limit / BODY_WAIT_BYTES + 1 }

  lemma RearmsBounded(rearms: nat, limit: nat)
    requires rearms * BODY_WAIT_BYTES <= limit
    ensures rearms + 1 <= Periods(limit)
  {
    assert limit < Periods(limit) * BODY_WAIT_BYTES;
  }

  datatype Event =
    | Data(size: nat)
    | End
    | Gone                              // aborted, or an error
    | TimerDue
    | PassDue                           // the immediate of closeAfterRead
    | KeepUpDue                         // the immediate of checkKeepsUp
    | Read
    | Cancel
    | AnswerCall(canClose: bool, locked: bool)
    | ReleaseCall
    | Elapse(ms: nat)

  class Body {
    const limit: nat
    const declared: bool

    var total: nat
    var settled: bool
    var complete: bool
    var refused: bool
    var answering: bool
    var finalized: bool
    var closing: Decision
    var waiting: bool
    var canCloseHeld: bool
    var waitTimer: Option<nat>       // the clock reading it is due at
    var waitBytes: nat
    var passCheck: bool
    var keepUpCheck: bool

    var attached: bool               // the request's listeners are on
    var stream: Stream
    var queued: nat                  // chunks enqueued and not read: desiredSize is minus this
    var pendingReads: nat                // reads waiting for a chunk
    var clock: nat

    // What the hooks and the held promise saw.
    var refusals: nat
    var closes: nat
    var waits: nat
    var resolutions: seq<Decision>

    // History: the bytes handed to the reader's stream, and the wait in progress.
    ghost var handed: nat
    ghost var waitStart: nat
    ghost var totalAtWait: nat
    ghost var rearms: nat

    ghost predicate Valid()
      reads this
    {
      // the controller is closed or errored once, and takes no chunk afterwards
      && (settled <==> !stream.Readable?)
      && (complete ==> settled && !attached && total <= limit)
      // a reader that sees the end was handed the whole body, and it was within the budget
      && (stream.Readable? || stream.Closed? ==> handed == total)
      && (stream.Closed? ==> complete && total <= limit)
      // the budget
      && (refused <==> total > limit)
      && (refused ==> settled && !attached && finalized)
      && refusals == (if refused then 1 else 0)
      // one wait at most, resolved once
      && waits <= 1
      && |resolutions| == (if waiting then 0 else waits)
      && (waiting ==> waits == 1 && !finalized && !refused && !complete)
      && (waits == 1 && !waiting ==> finalized)
      && (passCheck ==> waiting && settled && canCloseHeld && !declared)
      // an answer closes the connection only when it can say so, and the hook drops it once, unanswered
      && (CloseBehind in resolutions ==> canCloseHeld)
      && closes <= 1 && (closes == 1 ==> resolutions == [NotWritten] && !canCloseHeld)
      // a reader that holds an answer up is checked while it leaves anything unread
      && (waiting && !settled ==> answering)
      && (answering && attached && !settled && queued > 0 ==> keepUpCheck)
      // only a complete body keeps the connection
      && (finalized && closing.KeepOpen? ==> complete)
      && (!finalized ==> closing.KeepOpen?)
      && (KeepOpen in resolutions ==> complete)
      // a wait has its timer armed, and its rest keeps the pace
      && (waiting <==> waitTimer.Some?)
      && (waiting ==> Paced())
    }

    ghost predicate Paced()
      reads this
    {
      && waitTimer.Some? && waitStart <= clock <= waitTimer.value
      && waitTimer.value <= waitStart + (rearms + 1) * BODY_WAIT_LIMIT_MS
      && waitBytes < BODY_WAIT_BYTES
      && totalAtWait + rearms * BODY_WAIT_BYTES + waitBytes <= total <= limit
    }

    /** However the rest arrives, a wait is over within its periods. */
    lemma WaitBounded()
      requires Valid() && waiting
      ensures clock - waitStart <= (limit / 163840 + 1) * 10000
    {
      RearmsBounded(rearms, limit);
    }

    /** What no event undoes: a decision to keep the connection, a refusal, the last byte, the bytes counted. */
    twostate predicate Onward()
      reads this
    {
      && (old(finalized && closing.KeepOpen?) ==> finalized && closing.KeepOpen?)
      && (old(finalized) ==> finalized)
      && (old(refused) ==> refused)
      && (old(complete) ==> complete)
      && old(total) <= total
      && old(waits) <= waits
      && old(resolutions) <= resolutions
    }

    constructor (limit: nat, declared: bool, aborted: bool, ended: bool)
      ensures Valid() && this.limit == limit && this.declared == declared
      ensures waits == 0 && total == 0 && refusals == 0
      ensures complete <==> ended && !aborted
    {
      this.limit, this.declared := limit, declared;
      total, settled, complete, refused, answering, finalized := 0, false, false, false, false, false;
      closing, waiting, canCloseHeld, waitTimer, waitBytes := KeepOpen, false, true, None, 0;
      passCheck, keepUpCheck, attached, stream, queued, pendingReads, clock := false, false, true, Readable, 0, 0, 0;
      refusals, closes, waits, resolutions := 0, 0, 0, [];
      handed, waitStart, totalAtWait, rearms := 0, 0, 0, 0;
      new;
      if aborted { OnGone(); } else if ended { OnEnd(); }
    }

    // ---- shared steps ---------------------------------------------------------------------------

    method Settle(failed: bool)
      requires settled <==> !stream.Readable?
      modifies `settled, `keepUpCheck, `stream
      ensures settled && !stream.Readable?
      ensures stream == if old(settled) then old(stream) else if failed then Errored else Closed
      ensures keepUpCheck == (old(keepUpCheck) && old(settled))
    {
      if settled { return; }
      settled := true;
      keepUpCheck := false;
      stream := if failed then Errored else Closed;
    }

    method Finish(decision: Decision)
      modifies `finalized, `closing
      ensures finalized && closing == decision
    {
      finalized := true;
      closing := decision;
    }

    method EndWait(decision: Decision)
      requires waiting && resolutions == []
      modifies `waiting, `passCheck, `waitTimer, `finalized, `closing, `resolutions
      ensures !waiting && !passCheck && waitTimer.None? && finalized && closing == decision
      ensures resolutions == [decision]
    {
      waiting := false;
      passCheck := false;
      waitTimer := None;
      Finish(decision);
      resolutions := resolutions + [decision];
    }

    method ArmWait()
      modifies `waitTimer, `waitBytes
      ensures waitTimer == Some(clock + BODY_WAIT_LIMIT_MS) && waitBytes == 0
    {
      waitBytes := 0;
      waitTimer := Some(clock + BODY_WAIT_LIMIT_MS);
    }

    // ---- handlers ---------------------------------------------------------------------------------

    // The count has just passed the budget.
    method Refuse()
      requires settled <==> !stream.Readable?
      requires waiting ==> resolutions == []
      modifies `refused, `attached, `settled, `keepUpCheck, `stream, `waiting, `passCheck, `waitTimer, `finalized
      modifies `closing, `resolutions, `refusals
      ensures refused && !attached && settled && finalized && closing.NotWritten?
      ensures stream == if old(settled) then old(stream) else Errored
      ensures keepUpCheck == (old(keepUpCheck) && old(settled))
      ensures !waiting && refusals == old(refusals) + 1
      ensures resolutions == if old(waiting) then [NotWritten] else old(resolutions)
      ensures if old(waiting) then waitTimer.None? && !passCheck
        else waitTimer == old(waitTimer) && passCheck == old(passCheck)
    {
      refused := true;
      attached := false;
      Settle(true);
      if waiting { EndWait(NotWritten); } else { Finish(NotWritten); }
      refusals := refusals + 1;
    }

    // Bytes inside the budget: a wait's pace first, then the chunk itself.
    method TakeChunk(size: nat)
      modifies `waitBytes, `rearms, `waitTimer, `pendingReads, `queued, `keepUpCheck, `handed
      ensures keepUpCheck == (old(keepUpCheck) || (!settled && answering))
      ensures handed == old(handed) + if settled then 0 else size
      ensures
        var rearmed := old(waitTimer).Some? && old(waitBytes) + size >= 163840;
        && waitTimer == (if rearmed then Some(clock + 10000) else old(waitTimer))
        && rearms == old(rearms) + (if rearmed then 1 else 0)
        && waitBytes == (if rearmed then 0 else if old(waitTimer).Some? then old(waitBytes) + size else old(waitBytes))
      ensures queued == old(queued) + (if !settled && old(pendingReads) == 0 then 1 else 0)
      ensures pendingReads == old(pendingReads) - (if !settled && old(pendingReads) > 0 then 1 else 0)
    {
      if waitTimer.Some? {
        waitBytes := waitBytes + size;
        if waitBytes >= BODY_WAIT_BYTES {
          rearms := rearms + 1;
          ArmWait();
        }
      }
      if settled { return; }
      handed := handed + size;
      if pendingReads > 0 { pendingReads := pendingReads - 1; } else { queued := queued + 1; }
      if answering { keepUpCheck := true; }
    }

    method OnData(size: nat)
      requires Valid() && attached
      modifies this
      ensures Valid() && Onward()
      ensures total == old(total) + size
      // the hook runs when the count first passes the budget, and then no more data is counted
      ensures refusals == old(refusals) + (if total > limit then 1 else 0) && old(total) <= limit
      ensures refused <==> total > limit
      ensures refused ==> !attached && settled && finalized && closing.NotWritten?
      ensures resolutions == if old(waiting) && refused then [NotWritten] else old(resolutions)
      ensures !refused ==> unchanged(`attached, `finalized, `closing, `waiting, `settled, `complete)
      ensures stream == (if refused && old(stream).Readable? then Errored else old(stream)) && closes == old(closes)
    {
      if total + size > limit { Overrun(size); } else { TakeWithin(size); }
    }

    method Overrun(size: nat)
      requires Valid() && attached && total + size > limit
      modifies this
      ensures Valid() && Onward() && total == old(total) + size && refusals == old(refusals) + 1
      ensures refused && !attached && settled && finalized && closing.NotWritten?
      ensures resolutions == if old(waiting) then [NotWritten] else old(resolutions)
      ensures stream == (if old(stream).Readable? then Errored else old(stream)) && closes == old(closes)
    {
      total := total + size;
      Refuse();
    }

    method TakeWithin(size: nat)
      requires Valid() && attached && total + size <= limit
      modifies this
      ensures Valid() && Onward() && total == old(total) + size
      ensures unchanged(`attached, `finalized, `closing, `waiting, `settled, `complete, `stream, `closes)
      ensures unchanged(`refused, `refusals, `resolutions)
    {
      total := total + size;
      TakeChunk(size);
    }

    method OnEnd()
      requires Valid() && attached
      modifies this
      ensures Valid() && Onward()
      ensures complete && !attached && settled && total == old(total) && refusals == old(refusals)
      ensures resolutions == if old(waiting) then [KeepOpen] else old(resolutions)
      ensures finalized == (old(finalized) || old(waiting))
      ensures closing == if old(waiting) then KeepOpen else old(closing)
      ensures stream == (if old(stream).Readable? then Closed else old(stream)) && closes == old(closes)
    {
      assert !refused;
      complete := true;
      attached := false;
      if !settled {
        settled := true;
        stream := Closed;
      }
      if waiting { EndWait(KeepOpen); }
    }

    // onAborted and onError
    method OnGone()
      requires Valid() && attached
      modifies this
      ensures Valid() && Onward()
      ensures !attached && settled && finalized && total == old(total) && complete == old(complete)
      ensures resolutions == if old(waiting) then [NotWritten] else old(resolutions)
      ensures closing == if old(finalized) then old(closing) else NotWritten
      ensures stream == (if old(stream).Readable? then Errored else old(stream)) && closes == old(closes)
    {
      attached := false;
      Settle(true);
      if waiting { EndWait(NotWritten); } else if !finalized { Finish(NotWritten); }
    }

    // onWaitLimit: a period in which the rest did not keep the pace.
    method OnWaitLimit()
      requires Valid() && waitTimer == Some(clock)
      modifies this
      ensures Valid() && Onward()
      ensures !waiting && finalized && settled
      ensures closing == if canCloseHeld then CloseBehind else NotWritten
      ensures resolutions == [closing]
      ensures closes == old(closes) + (if canCloseHeld then 0 else 1)
      ensures canCloseHeld == old(canCloseHeld) && attached == (old(attached) && canCloseHeld)
      ensures stream == if old(stream).Readable? then Errored else old(stream)
    {
      Settle(true);
      if canCloseHeld {
        EndWait(CloseBehind);
        return;
      }
      attached := false;
      EndWait(NotWritten);
      closes := closes + 1;
    }

    method OnPassCheck()
      requires Valid() && passCheck
      modifies this
      ensures Valid() && Onward()
      ensures !passCheck && !waiting && finalized && closing.CloseBehind? && resolutions == [CloseBehind]
      ensures unchanged(`stream, `closes, `complete, `total)
    {
      passCheck := false;
      if waiting { EndWait(CloseBehind); }
    }

    method OnKeepUpCheck()
      requires Valid() && keepUpCheck
      modifies this
      ensures Valid() && Onward()
      ensures !keepUpCheck && stream == if old(settled) || queued == 0 then old(stream) else Errored
      ensures unchanged(`waiting, `finalized, `closing, `resolutions, `queued, `closes, `complete, `total)
    {
      keepUpCheck := false;
      if !settled && queued > 0 { Settle(true); }
    }

    // A read of the body: a queued chunk at once, or pull().
    method OnRead()
      requires Valid()
      modifies `queued, `pendingReads
      ensures Valid() && Onward()
      ensures queued == if old(queued) > 0 then old(queued) - 1 else 0
      ensures pendingReads == old(pendingReads) + if old(queued) == 0 && !settled then 1 else 0
    {
      if queued > 0 { queued := queued - 1; } else if !settled { pendingReads := pendingReads + 1; }
    }

    // cancel() of the underlying source, which a stream calls only while it is readable.
    method OnCancel()
      requires Valid() && stream.Readable?
      modifies this
      ensures Valid() && Onward()
      ensures settled && stream.Cancelled? && attached == old(attached) && waiting == old(waiting)
      ensures passCheck == (old(passCheck) || (waiting && canCloseHeld && !declared))
      ensures unchanged(`finalized, `closing, `resolutions, `closes, `complete, `total)
    {
      settled := true;
      stream := Cancelled;
      queued := 0;
      if waiting && canCloseHeld && !declared { passCheck := true; }
    }

    // Nothing is decided: the answer is held for the rest of the body.
    method Hold(canClose: bool, locked: bool)
      requires Valid() && !finalized && !waiting && !complete
      modifies this
      ensures Valid() && Onward() && waiting && canCloseHeld == canClose && waits == old(waits) + 1 == 1
      ensures settled == (old(settled) || !locked)
      ensures stream == if old(stream).Readable? && !locked then Errored else old(stream)
      ensures !settled && queued > 0 ==> keepUpCheck
      ensures passCheck == (settled && canClose && !declared)
      ensures unchanged(`closes, `complete, `total, `finalized)
      ensures waitTimer == Some(clock + 10000) && resolutions == old(resolutions)
    {
      var reading := !settled && locked;
      if reading {
        answering := true;
        if queued > 0 { keepUpCheck := true; }
      } else {
        Settle(true);
      }
      StartWait(canClose);
      if !reading && canClose && !declared { passCheck := true; }
    }

    method StartWait(canClose: bool)
      modifies `waiting, `waits, `canCloseHeld, `waitStart, `totalAtWait, `rearms, `waitTimer, `waitBytes
      ensures waiting && waits == old(waits) + 1 && canCloseHeld == canClose
      ensures waitStart == clock && totalAtWait == total && rearms == 0
      ensures waitTimer == Some(clock + BODY_WAIT_LIMIT_MS) && waitBytes == 0
    {
      waiting := true;
      waits := waits + 1;
      canCloseHeld := canClose;
      waitStart, totalAtWait, rearms := clock, total, 0;
      ArmWait();
    }

    // answer(canClose); locked is body.locked.
    method GiveAnswer(canClose: bool, locked: bool) returns (r: Answer)
      requires Valid()
      modifies this
      ensures Valid() && Onward()
      // the connection is kept at once only for a body that arrived whole, within the budget
      ensures r.Now? ==> complete && total <= limit && finalized && closing.KeepOpen?
      ensures r.Promised? ==> (old(finalized) && r.decision == closing && !closing.KeepOpen?)
                              || (old(waiting) && r.decision.NotWritten?)
      ensures r.Held? <==> !old(finalized) && !old(waiting) && !old(complete)
      ensures r.Held? ==> waits == old(waits) + 1 == 1 && waiting && canCloseHeld == canClose
      ensures !r.Held? ==> waits == old(waits) && waiting == old(waiting) && resolutions == old(resolutions)
      ensures r.Held? ==> settled == (old(settled) || !locked)
      ensures r.Held? ==> passCheck == (settled && canClose && !declared)
      // an unread body fails under its answer, and one being read does not
      ensures stream == if r.Held? && old(stream).Readable? && !locked then Errored else old(stream)
      ensures r.Held? && !settled && queued > 0 ==> keepUpCheck
      ensures r.Held? ==> waitTimer == Some(clock + 10000)
      ensures unchanged(`closes, `complete, `total)
    {
      if finalized { return if closing.KeepOpen? then Now else Promised(closing); }
      if waiting { return Promised(NotWritten); }
      if complete {
        Finish(KeepOpen);
        return Now;
      }
      Hold(canClose, locked);
      return Held;
    }

    method Release()
      requires Valid()
      modifies this
      ensures Valid() && Onward()
      ensures !attached && !waiting && !keepUpCheck
      ensures resolutions == if old(waiting) then [NotWritten] else old(resolutions)
      ensures closing == if old(waiting) then NotWritten else old(closing)
      ensures unchanged(`stream, `closes, `complete, `total)
    {
      if waiting { EndWait(NotWritten); }
      waitTimer := None;
      keepUpCheck := false;
      attached := false;
    }

    // Time passes, but never past a timer that is due.
    method Advance(ms: nat)
      requires Valid() && (waitTimer.Some? ==> clock + ms <= waitTimer.value)
      modifies `clock
      ensures Valid() && Onward() && clock == old(clock) + ms
    {
      clock := clock + ms;
    }

    // ---- runs -------------------------------------------------------------------------------------------

    predicate Enabled(e: Event)
      reads this
    {
      match e
      case Data(_) => attached
      case End => attached
      case Gone => attached
      case TimerDue => waitTimer == Some(clock)
      case PassDue => passCheck
      case KeepUpDue => keepUpCheck
      case Cancel => stream.Readable?
      case Elapse(ms) => waitTimer.Some? ==> clock + ms <= waitTimer.value
      case _ => true
    }

    /**
     Any run: the events the environment offers in any order. The budget is refused at most once, at
     most one wait is ever held and it is resolved at most once, an answer that kept the connection
     had the whole body, a reader that sees the end was handed all of it, and a wait still held has not
     outlasted its periods.
     */
    method Drive(events: seq<Event>) returns (answers: seq<Answer>)
      requires Valid()
      modifies this
      ensures Valid() && Onward()
      ensures refusals <= 1 && waits <= 1 && |resolutions| <= waits && closes <= 1
      ensures stream.Closed? ==> complete && handed == total <= limit
      ensures Now in answers ==> complete && total <= limit
      ensures waiting ==> clock - waitStart <= (limit / 163840 + 1) * 10000
    {
      answers := [];
      for i := 0 to |events|
        invariant Valid() && Onward()
        invariant Now in answers ==> complete
      {
        var e := events[i];
        if Enabled(e) {
          match e {
            case Data(size) => OnData(size);
            case End => OnEnd();
            case Gone => OnGone();
            case TimerDue => OnWaitLimit();
            case PassDue => OnPassCheck();
            case KeepUpDue => OnKeepUpCheck();
            case Read => OnRead();
            case Cancel => OnCancel();
            case AnswerCall(canClose, locked) =>
              var r := GiveAnswer(canClose, locked);
              answers := answers + [r];
            case ReleaseCall => Release();
            case Elapse(ms) => Advance(ms);
          }
        }
      }
      if waiting { WaitBounded(); }
    }
  }
}
