/**
 What src/client.js remembers of one topic's sequence, and how a recovery moves it: the offset the
 next recover frame will ask from, and the recovery in flight with the highest sequence it has seen.
 */
module Recovery {
  import opened Options
  import opened Chunking

  /** A recovery asked for and not yet answered. */
  datatype Pending = Pending(number: nat, highest: Option<Numeral>)

  datatype Watermark = Watermark(offset: Option<Numeral>, pending: Option<Pending>)

  const BLANK := Watermark(None, None)

  /**
   What can happen to a topic: a recover frame asks from an offset, the server accepts or denies a
   subscribe by its ref (None for a ref that is no number the client gave out), an event carries a
   sequence, the server reports the missed window lost, the connection is lost, the topic is released.
   */
  datatype Event =
    | Asked(number: nat, from: Numeral)
    | Answered(ref: Option<nat>, accepted: bool)
    | Seen(seqno: Numeral)
    | Invalidated
    | Lost
    | Released

  // The greater of the two, x when they are equal.
  function Max(x: Option<Numeral>, y: Numeral): Option<Numeral> {
    if x.None? || y.value > x.value.value then Some(y) else x
  }

  // finishRecovery
  function Finish(w: Watermark, ref: Option<nat>, accepted: bool): Watermark {
    if w.pending.None? || ref != Some(w.pending.value.number) then w
    else
      var highest := w.pending.value.highest;
      Watermark(if accepted && highest.Some? then Max(w.offset, highest.value) else w.offset, None)
  }

  function Step(w: Watermark, e: Event): Watermark {
    match e
    case Asked(number, from) => Watermark(Some(from), Some(Pending(number, None)))
    case Answered(ref, accepted) => Finish(w, ref, accepted)
    case Seen(s) =>
      if w.pending.Some? then w.(pending := Some(w.pending.value.(highest := Max(w.pending.value.highest, s))))
      else w.(offset := Max(w.offset, s))
    case Invalidated =>
      Watermark(None, if w.pending.Some? then Some(w.pending.value.(highest := None)) else None)
    case Lost => w.(pending := None)
    case Released => w.(pending := None)
  }

  function Run(w: Watermark, es: seq<Event>): Watermark {
    if es == [] then w else Step(Run(w, es[..|es| - 1]), es[|es| - 1])
  }

  // ---- what the events since a request add up to ----------------------------------------------------

  /** e leaves the recovery numbered `number` outstanding. */
  predicate Leaves(e: Event, number: nat) {
    match e
    case Asked(_, _) => false
    case Answered(ref, _) => ref != Some(number)
    case Lost => false
    case Released => false
    case _ => true
  }

  predicate Quiet(es: seq<Event>, number: nat) {
    forall i | 0 <= i < |es| :: Leaves(es[i], number)
  }

  /** s is the greatest sequence number seen in es after position k. */
  predicate GreatestSeen(es: seq<Event>, k: nat, s: Option<Numeral>) {
    && (s.None? <==> forall i | k <= i < |es| :: !es[i].Seen?)
    && (s.Some? ==>
          && (exists i :: k <= i < |es| && es[i] == Seen(s.value))
          && (forall i | k <= i < |es| && es[i].Seen? :: es[i].seqno.value <= s.value.value))
  }

  /** k follows the last invalidation in es, and is 0 when there is none. */
  predicate AfterLastInvalidation(es: seq<Event>, k: nat) {
    && k <= |es|
    && (k > 0 ==> es[k - 1].Invalidated?)
    && (forall i | k <= i < |es| :: !es[i].Invalidated?)
  }

  /**
   While the recovery asked for before es is outstanding, its topic's stored offset is the one asked
   from, or absent once the server reported the window lost, and the recovery holds the greatest
   sequence seen since the later of the two.
   */
  predicate Outstanding(w: Watermark, number: nat, from: Numeral, es: seq<Event>, k: nat) {
    && AfterLastInvalidation(es, k)
    && w.offset == (if k == 0 then Some(from) else None)
    && w.pending.Some? && w.pending.value.number == number
    && GreatestSeen(es, k, w.pending.value.highest)
  }

  lemma OutstandingStep(w: Watermark, number: nat, from: Numeral, es: seq<Event>, k: nat, e: Event) returns (k': nat)
    requires Outstanding(w, number, from, es, k) && Leaves(e, number)
    ensures Outstanding(Step(w, e), number, from, es + [e], k')
  {
    k' := if e.Invalidated? then |es| + 1 else k;
    var next := es + [e];
    assert forall i | 0 <= i < |es| :: next[i] == es[i];
    assert next[|es|] == e;
    if !e.Seen? && !e.Invalidated? {
      assert Step(w, e) == w;
      GreatestKept(es, k, w.pending.value.highest, e);
    } else if e.Seen? {
      GreatestGrown(es, k, w.pending.value.highest, e.seqno);
    }
  }

  lemma GreatestKept(es: seq<Event>, k: nat, s: Option<Numeral>, e: Event)
    requires GreatestSeen(es, k, s) && !e.Seen? && k <= |es|
    ensures GreatestSeen(es + [e], k, s)
  {
    var next := es + [e];
    if s.Some? {
      var i :| k <= i < |es| && es[i] == Seen(s.value);
      assert next[i] == Seen(s.value);
    } else {
      assert forall i | k <= i < |es| :: !es[i].Seen?;
    }
  }

  lemma GreatestGrown(es: seq<Event>, k: nat, s: Option<Numeral>, n: Numeral)
    requires GreatestSeen(es, k, s) && k <= |es|
    ensures GreatestSeen(es + [Seen(n)], k, Max(s, n))
  {
    var next := es + [Seen(n)];
    assert next[|es|] == Seen(n);
    if s.Some? {
      var i :| k <= i < |es| && es[i] == Seen(s.value);
      assert next[i] == Seen(s.value);
    }
    forall i | k <= i < |next| && next[i].Seen? ensures next[i].seqno.value <= Max(s, n).value.value {
      if i < |es| { assert next[i] == es[i]; }
    }
  }

  /** From any state, a request followed by anything that leaves it outstanding stands at its own offset. */
  lemma {:induction false} RequestStands(w: Watermark, number: nat, from: Numeral, es: seq<Event>) returns (k: nat)
    requires Quiet(es, number)
    ensures Outstanding(Run(Step(w, Asked(number, from)), es), number, from, es, k)
  {
    if es == [] {
      k := 0;
    } else {
      var n := |es| - 1;
      assert forall i | 0 <= i < n :: es[..n][i] == es[i];
      k := RequestStands(w, number, from, es[..n]);
      assert Leaves(es[n], number);
      assert es[..n] + [es[n]] == es;
      k := OutstandingStep(Run(Step(w, Asked(number, from)), es[..n]), number, from, es[..n], k, es[n]);
    }
  }

  /**
   The accepting answer to that very request moves the offset to the greatest of itself and what was
   seen; a denial, a loss or a release leaves it for the next recover frame to ask from again.
   */
  lemma AnswerAdvances(w: Watermark, number: nat, from: Numeral, es: seq<Event>, k: nat)
    requires Outstanding(w, number, from, es, k)
    ensures
      var accepted, highest := Step(w, Answered(Some(number), true)), w.pending.value.highest;
      && accepted.pending.None?
      && accepted.offset == (if highest.Some? then Max(w.offset, highest.value) else w.offset)
      && (k == 0 ==> accepted.offset.Some? && accepted.offset.value.value >= from.value)
      && (forall i | k <= i < |es| && es[i].Seen? ::
            accepted.offset.Some? && accepted.offset.value.value >= es[i].seqno.value)
    ensures forall e | e == Answered(Some(number), false) || e == Lost || e == Released ::
      Step(w, e) == Watermark(w.offset, None)
    ensures forall ref, accepted | ref != Some(number) :: Step(w, Answered(ref, accepted)) == w
  {
  }

  // ---- over every run -------------------------------------------------------------------------------

  ghost predicate StandsSomewhere(w: Watermark, number: nat, from: Numeral, es: seq<Event>) {
    exists k: nat :: Outstanding(w, number, from, es, k)
  }

  /** es ends with the request that is outstanding, and what it left undisturbed. */
  ghost predicate EndsWithRequest(es: seq<Event>, j: nat, w: Watermark) {
    && j < |es| && es[j].Asked?
    && Quiet(es[j + 1..], es[j].number)
    && StandsSomewhere(w, es[j].number, es[j].from, es[j + 1..])
  }

  lemma PendingExtends(es: seq<Event>, j: nat, w: Watermark, e: Event)
    requires EndsWithRequest(es, j, w) && Leaves(e, es[j].number)
    ensures EndsWithRequest(es + [e], j, Step(w, e))
  {
    var k: nat :| Outstanding(w, es[j].number, es[j].from, es[j + 1..], k);
    var next := OutstandingStep(w, es[j].number, es[j].from, es[j + 1..], k, e);
    assert (es + [e])[j + 1..] == es[j + 1..] + [e];
  }

  lemma RequestBegins(es: seq<Event>, w: Watermark, e: Event)
    requires e.Asked?
    ensures EndsWithRequest(es + [e], |es|, Step(w, e))
  {
    assert (es + [e])[|es| + 1..] == [];
    var k := RequestStands(w, e.number, e.from, []);
  }

  /** In every run, a recovery in flight is accounted for by the last request and what followed it. */
  lemma {:induction false} PendingExplained(es: seq<Event>) returns (j: nat)
    ensures Run(BLANK, es).pending.Some? ==> EndsWithRequest(es, j, Run(BLANK, es))
  {
    j := 0;
    if es != [] {
      var n := |es| - 1;
      var e, w := es[n], Run(BLANK, es[..n]);
      assert es[..n] + [e] == es;
      j := PendingExplained(es[..n]);
      if e.Asked? {
        RequestBegins(es[..n], w, e);
        j := n;
      } else if w.pending.Some? && Leaves(e, es[..n][j].number) {
        PendingExtends(es[..n], j, w, e);
      }
    }
  }

  // ---- with nothing in flight ----------------------------------------------------------------------

  /** s is the greater of two that may be absent. */
  predicate IsGreater(x: Option<Numeral>, y: Option<Numeral>, s: Option<Numeral>) {
    && (s == x || s == y)
    && (x.Some? ==> s.Some? && x.value.value <= s.value.value)
    && (y.Some? ==> s.Some? && y.value.value <= s.value.value)
  }

  /** The offset a recovery asked for at j, and ended at k, leaves behind. */
  ghost predicate EndedWith(es: seq<Event>, j: nat, k: nat, left: Option<Numeral>) {
    && j < k < |es| && es[j].Asked? && !es[k].Asked?
    && Quiet(es[j + 1..k], es[j].number) && !Leaves(es[k], es[j].number)
    && LeavesBehind(es[j + 1..k], es[j].from, es[k], left)
  }

  ghost predicate LeavesBehind(between: seq<Event>, from: Numeral, e: Event, left: Option<Numeral>) {
    exists c: nat, seen: Option<Numeral> :: Leaving(between, from, c, seen, e, left)
  }

  // The one asked from, unless the window was lost since; and what was seen since, when it was accepted.
  predicate Leaving(between: seq<Event>, from: Numeral, c: nat, seen: Option<Numeral>, e: Event,
                    left: Option<Numeral>) {
    && AfterLastInvalidation(between, c) && GreatestSeen(between, c, seen)
    && var stood := if c == 0 then Some(from) else None;
       if e.Answered? && e.accepted then IsGreater(stood, seen, left) else left == stood
  }

  /** The last event before k set, answered or cleared the offset and left it so; none since asked or cleared. */
  ghost predicate LeftAt(es: seq<Event>, k: nat, left: Option<Numeral>) {
    && k <= |es|
    && (forall i | k <= i < |es| :: !es[i].Asked? && !es[i].Invalidated?)
    && (k == 0 ==> left == None)
    && (k > 0 ==> (es[k - 1].Invalidated? && left == None) || EndedAt(es, k - 1, left))
  }

  ghost predicate EndedAt(es: seq<Event>, k: nat, left: Option<Numeral>) {
    exists j: nat :: EndedWith(es, j, k, left)
  }

  /** With nothing in flight the offset is the greatest of what that event left and every sequence seen since. */
  ghost predicate Rests(es: seq<Event>, k: nat, left: Option<Numeral>, offset: Option<Numeral>) {
    LeftAt(es, k, left) && exists seen: Option<Numeral> :: GreatestSeen(es, k, seen) && IsGreater(left, seen, offset)
  }

  lemma LeftKept(es: seq<Event>, k: nat, left: Option<Numeral>, e: Event)
    requires LeftAt(es, k, left) && !e.Asked? && !e.Invalidated?
    ensures LeftAt(es + [e], k, left)
  {
    var next := es + [e];
    assert forall i | 0 <= i < |es| :: next[i] == es[i];
    if k > 0 && !es[k - 1].Invalidated? {
      var j: nat :| EndedWith(es, j, k - 1, left);
      EndedKept(es, j, k - 1, left, e);
    }
  }

  lemma EndedKept(es: seq<Event>, j: nat, k: nat, left: Option<Numeral>, e: Event)
    requires EndedWith(es, j, k, left)
    ensures EndedWith(es + [e], j, k, left)
  {
    assert (es + [e])[j + 1..k] == es[j + 1..k];
  }

  // One event more, that sets, answers or clears nothing.
  lemma RestKept(es: seq<Event>, k: nat, left: Option<Numeral>, w: Watermark, e: Event)
    requires Rests(es, k, left, w.offset) && w.pending.None? && !e.Asked? && !e.Invalidated?
    ensures Step(w, e).pending.None? && Rests(es + [e], k, left, Step(w, e).offset)
  {
    var seen: Option<Numeral> :| GreatestSeen(es, k, seen) && IsGreater(left, seen, w.offset);
    LeftKept(es, k, left, e);
    if e.Seen? {
      GreatestGrown(es, k, seen, e.seqno);
      assert IsGreater(left, Max(seen, e.seqno), Max(w.offset, e.seqno));
    } else {
      GreatestKept(es, k, seen, e);
    }
  }

  // A recovery in flight ends.
  lemma RestBegins(es: seq<Event>, j: nat, w: Watermark, e: Event)
    requires EndsWithRequest(es, j, w) && !e.Asked? && !Leaves(e, es[j].number)
    ensures Step(w, e).pending.None? && Rests(es + [e], |es| + 1, Step(w, e).offset, Step(w, e).offset)
  {
    var next, offset := es + [e], Step(w, e).offset;
    var k: nat :| Outstanding(w, es[j].number, es[j].from, es[j + 1..], k);
    assert next[j + 1..|es|] == es[j + 1..] && next[j] == es[j];
    assert Leaving(next[j + 1..|es|], next[j].from, k, w.pending.value.highest, e, offset);
    assert EndedWith(next, j, |es|, offset) && EndedAt(next, |es|, offset);
    assert GreatestSeen(next, |es| + 1, None) && IsGreater(offset, None, offset);
  }

  lemma RestCleared(es: seq<Event>, w: Watermark)
    ensures Rests(es + [Invalidated], |es| + 1, None, Step(w, Invalidated).offset)
  {
    assert GreatestSeen(es + [Invalidated], |es| + 1, None) && IsGreater(None, None, None);
  }

  /**
   In every run with nothing in flight, the offset is the greatest of what the last event that set, answered or
   cleared it left and of every sequence seen since; so it is absent only if there was neither.
   */
  lemma {:induction false} RestExplained(es: seq<Event>) returns (k: nat, left: Option<Numeral>)
    ensures Run(BLANK, es).pending.None? ==> Rests(es, k, left, Run(BLANK, es).offset)
  {
    k, left := 0, None;
    if es == [] {
      assert GreatestSeen(es, 0, None) && IsGreater(None, None, None);
    } else {
      var n := |es| - 1;
      var before, e, w := es[..n], es[n], Run(BLANK, es[..n]);
      assert before + [e] == es;
      if Run(BLANK, es).pending.None? {
        if e.Invalidated? {
          RestCleared(before, w);
          k := |es|;
        } else if w.pending.Some? {
          var j := PendingExplained(before);
          RestBegins(before, j, w, e);
          k, left := |es|, Run(BLANK, es).offset;
        } else {
          k, left := RestExplained(before);
          RestKept(before, k, left, w, e);
        }
      }
    }
  }

  /**
   Only three things ever move the offset of a topic: a sequence seen with no recovery in flight, the
   accepting answer to the one in flight, and a request, which sets it to what it asks; an invalidation
   clears it. Nothing else touches it, and none of the moves but a request lowers it.
   */
  lemma OffsetMoves(w: Watermark, e: Event)
    ensures Step(w, e).offset != w.offset ==>
      || e.Asked? || e.Invalidated?
      || (e.Seen? && w.pending.None?)
      || (w.pending.Some? && e == Answered(Some(w.pending.value.number), true))
    ensures w.offset.Some? && !e.Asked? && !e.Invalidated? ==>
      Step(w, e).offset.Some? && Step(w, e).offset.value.value >= w.offset.value.value
  {
  }
}
