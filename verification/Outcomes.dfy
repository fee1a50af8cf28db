/**
 What each event makes of a settled connection (src/client.js), by its close codes, limits and clocks, and without
 the functions that decide it.
 */
module Outcomes {
  import opened Options
  import opened Backoff
  import opened Reconnect

  // ---- a close ------------------------------------------------------------------------------------------

  predicate EndsForGood(code: int) {
    code in {1008, 4401, 4403}
  }

  // A drain advisory that the close came in time for.
  predicate Advised(s: State, wall: real) {
    s.advisory.Some? && wall < s.advisory.value.deadline
  }

  predicate AttemptsLeft(c: Config, attempts: nat) {
    c.maxAttempts.Some? ==> attempts < c.maxAttempts.value
  }

  // At the pace of this backoff count, within its jitter.
  predicate Paced(c: Config, delay: real, backoff: nat) {
    var k := Capped(c.base, c.cap, backoff);
    k > 0.0 ==> 0.75 * k <= delay < 1.25 * k
  }

  /** A close code ends the connection exactly when it is one of three; the reason shown is then the server's. */
  lemma CloseEndsExactly(c: Config, s: State, id: nat, code: int, wall: real)
    requires Settled(c, s) && Enabled(s, Closed(id, code, wall)) && s.ws == Some(id)
    ensures
      var t := Step(c, s, Closed(id, code, wall));
      && (EndsForGood(code) <==> t.terminal && t.failure == Some(Failure(TERMINAL, code)))
      && (EndsForGood(code) ==> t.permaClosed && t.status.Failed? && t.reconnectTimer.None? && t.ws.None?)
  {
    LoseSocketIsIdle(c, s, id, code);
  }

  /** Any other, with no advisory in time: a retry, five steps ahead at once when the server limits the rate. */
  lemma CloseRetries(c: Config, s: State, id: nat, code: int, wall: real)
    requires Settled(c, s) && Enabled(s, Closed(id, code, wall)) && s.ws == Some(id)
    requires !EndsForGood(code) && !Advised(s, wall) && AttemptsLeft(c, s.attempt)
    ensures
      var t := Step(c, s, Closed(id, code, wall));
      var steps := if code == 4429 && s.backoff < 5 then 5 else s.backoff;
      && !t.Halted() && t.ws.None? && t.status.Disconnected? && t.advisory.None?
      && t.failure == Some(Failure(if code == 4429 then THROTTLE else RETRY, code))
      && t.attempt == s.attempt + 1 && t.backoff == steps + 1 && t.reserved
      && t.reconnectTimer.Some? && t.reconnectTimer.value.generation == t.generation == s.generation
      && t.reconnectTimer.value.delay >= 0.0 && Paced(c, t.reconnectTimer.value.delay, steps)
  {
    LoseSocketIsIdle(c, s, id, code);
    DelayInBand(c.base, c.cap, if code == 4429 then Max(s.backoff, 5) else s.backoff, c.random(s.draws));
  }

  /** With the attempts used up it ends instead, and says so. */
  lemma CloseExhausts(c: Config, s: State, id: nat, code: int, wall: real)
    requires Settled(c, s) && Enabled(s, Closed(id, code, wall)) && s.ws == Some(id)
    requires !EndsForGood(code) && !Advised(s, wall) && !AttemptsLeft(c, s.attempt)
    ensures
      var t := Step(c, s, Closed(id, code, wall));
      t.terminal && t.permaClosed && t.failure == Some(Failure(EXHAUSTED, code)) && t.status.Failed?
  {
    LoseSocketIsIdle(c, s, id, code);
  }

  /** With an advisory in time: a reconnect spread over its window, at no cost to either counter. */
  lemma CloseDrains(c: Config, s: State, id: nat, code: int, wall: real)
    requires Settled(c, s) && Enabled(s, Closed(id, code, wall)) && s.ws == Some(id)
    requires !EndsForGood(code) && Advised(s, wall) && AttemptsLeft(c, 0)
    requires s.advisory.value.afterMs >= 0.0 && s.advisory.value.windowMs > 0.0
    ensures
      var t := Step(c, s, Closed(id, code, wall));
      var advised := s.advisory.value;
      && !t.Halted() && t.ws.None? && t.status.Disconnected? && t.failure == Some(Failure(DRAIN, code))
      && t.attempt == 0 && t.backoff == 0 && !t.reserved && t.advisory.None?
      && t.reconnectTimer.Some? && t.reconnectTimer.value.generation == s.generation
      && advised.afterMs <= t.reconnectTimer.value.delay < advised.afterMs + advised.windowMs
  {
    LoseSocketIsIdle(c, s, id, code);
  }

  // ---- a drain advisory -----------------------------------------------------------------------------------

  /** A reconnect frame with a window is kept for that window, its wait and five seconds; nothing else is. */
  lemma MessageStashes(c: Config, s: State, id: nat, advised: Option<(real, real)>, wall: real)
    requires Settled(c, s)
    ensures
      var t := Step(c, s, Message(id, advised, wall));
      if s.ws != Some(id) then t == s
      else if advised.None? || advised.value.1 <= 0.0 then t == s.(lastServerMessage := wall)
      else
        && t.advisory.Some? && t == s.(lastServerMessage := wall, advisory := t.advisory)
        && t.advisory.value.windowMs == advised.value.1
        && t.advisory.value.afterMs == (if advised.value.0 > 0.0 then advised.value.0 else 0.0)
        && t.advisory.value.deadline == wall + t.advisory.value.afterMs + advised.value.1 + 5000.0
  {
  }

  /** An open socket shows as open, or as suspended while the page is hidden. */
  predicate Shows(s: State) {
    s.Is(OPEN) ==> s.status == if s.hidden then Suspended else Open
  }

  // Nothing but the frame itself, the socket opening or closing, and a pause touches a kept advisory.
  predicate TouchesAdvice(s: State, e: Event) {
    match e
    case Opening(id, _) => s.ws == Some(id)
    case Closed(id, _, _) => s.ws == Some(id)
    case Message(id, advised, _) => s.ws == Some(id) && advised.Some? && advised.value.1 > 0.0
    case Pause => true
    case _ => false
  }

  // Scheduling, dialing and connecting leave an advisory and what shows alone.
  lemma DialKeeps(c: Config, s: State)
    requires s.ws.None?
    ensures OpenSocket(c, s).advisory == s.advisory && !OpenSocket(c, s).Is(OPEN)
  {
    ScheduleKeepsSockets(c, s.(dials := s.dials + 1, reserved := false), None, 0.0);
  }

  lemma ConnectKeeps(c: Config, s: State)
    requires Shows(s)
    ensures DoConnect(c, s).advisory == s.advisory && Shows(DoConnect(c, s))
  {
    if !ConnectBlocked(c, s) { DialKeeps(c, BeginConnect(s)); }
  }

  lemma AuthKeeps(c: Config, s: State, g: nat, result: AuthResult)
    requires Settled(c, s) && g in s.authPending && Shows(s)
    ensures AuthSettled(c, s, g, result).advisory == s.advisory && Shows(AuthSettled(c, s, g, result))
  {
    if Current(AuthLanded(s, g), g) && result.Accepted? { DialKeeps(c, AuthLanded(s, g)); }
  }

  lemma CallKeeps(c: Config, s: State, e: Event)
    requires Settled(c, s) && Enabled(s, e) && Shows(s)
    requires e.Auth? || e.Reconnect? || e.Resume? || e.Visible? || e.NetworkBack?
    ensures Step(c, s, e).advisory == s.advisory && Shows(Step(c, s, e))
  {
    match e
    case Auth(g, result) => AuthKeeps(c, s, g, result);
    case Reconnect => ConnectKeeps(c, s.(reconnectTimer := None));
    case Resume(wall, mono) => ConnectKeeps(c, Restamp(s, wall, mono).(offline := false, lastTick := wall));
    case Visible(_, _) =>
      if !s.Is(OPEN) { ConnectKeeps(c, ClearReconnect(s.(hidden := false, attempt := 0, backoff := 0), false)); }
    case NetworkBack => if !s.Is(OPEN) { ConnectKeeps(c, ClearReconnect(s.(attempt := 0, backoff := 0), false)); }
    case _ =>
  }

  lemma PageKeeps(c: Config, s: State, e: Event)
    requires Settled(c, s) && Enabled(s, e) && Shows(s)
    requires e.AttemptTimeout? || e.CloseCall? || e.Hidden? || e.NetworkLost? || e.Activity? || e.Closing? || e.Message?
    ensures (TouchesAdvice(s, e) || Step(c, s, e).advisory == s.advisory) && Shows(Step(c, s, e))
  {
  }

  lemma AdviceKept(c: Config, s: State, e: Event)
    requires Settled(c, s) && Enabled(s, e) && Shows(s) && !TouchesAdvice(s, e)
    ensures Step(c, s, e).advisory == s.advisory
  {
    if e.Auth? || e.Reconnect? || e.Resume? || e.Visible? || e.NetworkBack? {
      CallKeeps(c, s, e);
    } else if !e.Opening? && !e.Closed? && !e.Pause? {
      PageKeeps(c, s, e);
    }
  }

  ghost predicate KeepsAdvice(c: Config, s: State, es: seq<Event>)
    requires EnabledRun(c, s, es)
    decreases |es|
  {
    es == [] || (!TouchesAdvice(s, es[0]) && KeepsAdvice(c, Step(c, s, es[0]), es[1..]))
  }

  lemma {:induction false} AdviceLasts(c: Config, s: State, es: seq<Event>)
    requires Settled(c, s) && Shows(s) && EnabledRun(c, s, es) && KeepsAdvice(c, s, es)
    ensures Run(c, s, es).advisory == s.advisory && Settled(c, Run(c, s, es))
    decreases |es|
  {
    if es != [] {
      AdviceKept(c, s, es[0]);
      StepSettles(c, s, es[0]);
      StepShows(c, s, es[0]);
      AdviceLasts(c, Step(c, s, es[0]), es[1..]);
    }
  }

  /**
   Over any run: a socket that the server advised, and that then closes in time for a reason that is not final,
   is replaced within the advertised window, whatever happened in between.
   */
  lemma AdvisedCloseDrains(c: Config, s: State, id: nat, after: real, width: real, wall: real, es: seq<Event>,
                           code: int, later: real)
    requires Settled(c, s) && Shows(s) && s.ws == Some(id) && width > 0.0 && !EndsForGood(code) && AttemptsLeft(c, 0)
    requires
      var t := Step(c, s, Message(id, Some((after, width)), wall));
      && EnabledRun(c, t, es) && KeepsAdvice(c, t, es)
      && Enabled(Run(c, t, es), Closed(id, code, later)) && Run(c, t, es).ws == Some(id)
    requires later < wall + (if after > 0.0 then after else 0.0) + width + 5000.0
    ensures
      var u := Step(c, Run(c, Step(c, s, Message(id, Some((after, width)), wall)), es), Closed(id, code, later));
      var least := if after > 0.0 then after else 0.0;
      && u.attempt == 0 && u.backoff == 0 && u.failure == Some(Failure(DRAIN, code))
      && u.reconnectTimer.Some? && least <= u.reconnectTimer.value.delay < least + width
  {
    var e := Message(id, Some((after, width)), wall);
    var t := Step(c, s, e);
    MessageStashes(c, s, id, Some((after, width)), wall);
    StepSettles(c, s, e);
    StepShows(c, s, e);
    AdviceLasts(c, t, es);
    CloseDrains(c, Run(c, t, es), id, code, later);
  }

  // ---- an auth answer ---------------------------------------------------------------------------------------

  /** An answer that is no longer wanted changes nothing else. */
  lemma LateAuthIsIgnored(c: Config, s: State, g: nat, result: AuthResult)
    requires Settled(c, s) && Enabled(s, Auth(g, result)) && (g != s.generation || s.Halted())
    ensures
      var t := Step(c, s, Auth(g, result));
      t == s.(authPending := s.authPending - {g}, authInFlight := t.authInFlight)
  {
  }

  /** A refusal ends the connection; so does a failed attempt that was the last, and nothing else. */
  lemma AuthEndsExactly(c: Config, s: State, result: AuthResult)
    requires Settled(c, s) && Enabled(s, Auth(s.generation, result)) && !s.Halted()
    ensures
      var t := Step(c, s, Auth(s.generation, result));
      var failed := result.Throttled? || result.Transient? || (result.Accepted? && c.dialThrows(s.dials));
      && (t.terminal <==> result.Unauthorized? || (failed && !AttemptsLeft(c, s.attempt)))
      && (result.Unauthorized? ==> t.failure == Some(Failure(AUTH, result.code)) && t.permaClosed && t.status.Failed?)
  {
  }

  lemma AuthDials(c: Config, s: State)
    requires Settled(c, s) && Enabled(s, Auth(s.generation, Accepted)) && !s.Halted() && !c.dialThrows(s.dials)
    ensures
      var t := Step(c, s, Auth(s.generation, Accepted));
      && t.ws == Some(s.dials) && t.Is(CONNECTING) && t.dials == s.dials + 1 && t.attemptTimer == t.ws
      && t.attempt == s.attempt && t.backoff == s.backoff && t.generation == s.generation
  {
  }

  /** A limited or failed one retries, five steps ahead and no sooner than told when it was limited. */
  lemma AuthRetries(c: Config, s: State, result: AuthResult)
    requires Settled(c, s) && Enabled(s, Auth(s.generation, result)) && !s.Halted() && AttemptsLeft(c, s.attempt)
    requires result.Throttled? || result.Transient?
    ensures
      var t := Step(c, s, Auth(s.generation, result));
      var steps := if result.Throttled? && s.backoff < 5 then 5 else s.backoff;
      && t.failure == Some(Failure(if result.Throttled? then THROTTLE else AUTH, result.code)) && t.status.Disconnected?
      && t.attempt == s.attempt + 1 && t.backoff == steps + 1 && t.dials == s.dials
      && t.reconnectTimer.Some? && t.reconnectTimer.value.generation == s.generation
      && var delay := t.reconnectTimer.value.delay;
         && (result.Throttled? ==> delay >= result.retryAfterMs)
         && ((result.Throttled? && delay == result.retryAfterMs) || delay == 0.0 || Paced(c, delay, steps))
  {
    DelayInBand(c.base, c.cap, if result.Throttled? then Max(s.backoff, 5) else s.backoff, c.random(s.draws));
  }

  // ---- an opening ---------------------------------------------------------------------------------------------

  /** The current socket opening starts everything afresh; any other's changes nothing but that socket. */
  lemma OpeningResets(c: Config, s: State, id: nat, wall: real)
    requires Settled(c, s) && Enabled(s, Opening(id, wall))
    ensures
      var t := Step(c, s, Opening(id, wall));
      if s.ws == Some(id) then
        && t.Is(OPEN) && t.attempt == 0 && t.backoff == 0 && !t.reserved && t.advisory.None? && t.failure.None?
        && t.lastServerMessage == wall && t.attemptTimer.None? && t.status == if s.hidden then Suspended else Open
      else t == s.(ready := s.ready[id := OPEN], attemptTimer := t.attemptTimer)
  {
  }

  /** A handshake that takes too long is closed; any other state of the socket is left alone. */
  lemma HandshakeTimesOut(c: Config, s: State, id: nat)
    requires Settled(c, s)
    ensures
      var t := Step(c, s, AttemptTimeout(id));
      if s.ws == Some(id) && s.Is(CONNECTING) then t == s.(ready := s.ready[id := CLOSING], status := Disconnected)
      else t == s
  {
  }

  // ---- the page and the network -------------------------------------------------------------------------------

  // An attempt begun now, with both counters at zero: a dial, an auth, or, where the dial throws, its retry.
  predicate Afresh(c: Config, s: State, t: State) {
    && t.generation == s.generation + 1
    && if c.auth then t.AuthLive() && t.ws.None? && t.reconnectTimer.None? && t.attempt == 0 && t.backoff == 0
       else if !c.dialThrows(s.dials) then
         t.ws == Some(s.dials) && t.Is(CONNECTING) && t.reconnectTimer.None? && t.attempt == 0 && t.backoff == 0
       else
         && t.dials == s.dials + 1
         && (AttemptsLeft(c, 0) ==> t.reconnectTimer.Some? && t.attempt == 1 && t.backoff == 1)
  }

  // Nothing is under way that an attempt would double.
  predicate Vacant(c: Config, s: State) {
    c.hasUrl && !s.Is(CONNECTING) && !s.Is(OPEN) && s.authInFlight.None?
  }

  /**
   The page shown again, or the network back: a live connection with no open socket forgets its backoff and, unless
   an attempt is under way, begins one now.
   */
  lemma RecoversNow(c: Config, s: State, e: Event)
    requires Settled(c, s) && (e.Visible? || e.NetworkBack?) && !s.Halted() && !s.Is(OPEN)
    ensures
      var t := Step(c, s, e);
      && (Vacant(c, s) ==> Afresh(c, s, t))
      && (!Vacant(c, s) ==> t.attempt == 0 && t.backoff == 0 && t.reconnectTimer.None? && t.dials == s.dials
                            && t.generation == s.generation && t.ws == s.ws && t.authPending == s.authPending)
  {
    var u := ClearReconnect(s.(hidden := if e.Visible? then false else s.hidden, attempt := 0, backoff := 0), false);
    assert Step(c, s, e) == DoConnect(c, u);
    if Vacant(c, s) { ConnectsAfresh(c, u); }
  }

  lemma ConnectsAfresh(c: Config, s: State)
    requires Coherent(c, s) && Vacant(c, s) && !s.Halted() && s.reconnectTimer.None? && s.attempt == 0 && s.backoff == 0
    ensures Afresh(c, s, DoConnect(c, s))
  {
  }

  // The clocks drifted apart by over a minute, and no frame came in the last five seconds.
  predicate SleptThrough(s: State, wall: real, mono: real) {
    (wall - s.gapWall) - (mono - s.gapMono) > 60000.0 && wall - s.lastServerMessage > 5000.0
  }

  // The socket is on its way down and says so.
  predicate LetGoOf(s: State, t: State) {
    && t.ws == s.ws && t.Is(CLOSING) && t.status.Disconnected? && t.reconnectTimer == s.reconnectTimer
    && t.dials == s.dials && t.generation == s.generation
  }

  /** An open socket across a hide or a show: dropped exactly when the device slept through it, else a new status. */
  lemma OpenAcross(c: Config, s: State, e: Event)
    requires Settled(c, s) && (e.Hidden? || e.Visible?) && s.Is(OPEN)
    ensures
      var t := Step(c, s, e);
      && t.hidden == e.Hidden?
      && if SleptThrough(s, e.wall, e.mono) then LetGoOf(s, t) && t.attempt == 0 && t.backoff == 0
         else t.ws == s.ws && t.Is(OPEN) && t.status == (if e.Hidden? then Suspended else Open)
              && t.attempt == s.attempt && t.backoff == s.backoff
  {
  }

  /**
   The tick drops an open socket exactly when the server was silent for over 150 seconds, on a tick that came
   within 45 seconds of the last, or the device slept.
   */
  lemma TickDropsExactly(c: Config, s: State, wall: real, mono: real)
    requires Settled(c, s)
    ensures
      var t := Step(c, s, Activity(wall, mono));
      var silent := wall - s.lastServerMessage > 150000.0 && wall - s.lastTick <= 45000.0;
      && (s.Is(OPEN) && (silent || SleptThrough(s, wall, mono)) ==> LetGoOf(s, t))
      && (!(s.Is(OPEN) && (silent || SleptThrough(s, wall, mono))) ==> t.ready == s.ready && t.status == s.status)
      && (if s.Halted() then t == s else t.lastTick == wall && t.gapWall == wall && t.gapMono == mono)
      && t.attempt == s.attempt && t.backoff == s.backoff
  {
  }

  /** The network lost: a socket still up is let go, and without one the drop shows at once. */
  lemma NetworkDrops(c: Config, s: State)
    requires Settled(c, s)
    ensures
      var t := Step(c, s, NetworkLost);
      if s.Halted() then t == s
      else if s.Is(OPEN) || s.Is(CONNECTING) then LetGoOf(s, t)
      else t == s.(status := Disconnected)
  {
  }

  // ---- the calls ------------------------------------------------------------------------------------------------

  /** The timer begins the attempt it was armed for; the counters it took stay taken. */
  lemma TimerAttempts(c: Config, s: State)
    requires Settled(c, s) && s.reconnectTimer.Some?
    ensures
      var t := Step(c, s, Event.Reconnect);
      && t.generation == s.generation + 1
      && (c.auth ==> t.AuthLive() && t.attempt == s.attempt && t.backoff == s.backoff)
      && (!c.auth && !c.dialThrows(s.dials) ==>
            t.ws == Some(s.dials) && t.Is(CONNECTING) && t.attempt == s.attempt && t.backoff == s.backoff)
  {
  }

  /** Pausing lets go of everything that could wake the connection, and resuming begins an attempt. */
  lemma PausesAndResumes(c: Config, s: State, wall: real, mono: real)
    requires Settled(c, s) && !s.Halted() && c.hasUrl
    ensures
      var t := Step(c, s, Pause);
      var u := Step(c, t, Resume(wall, mono));
      && t.offline && t.WakeSources() == 0 && t.status.Disconnected? && t.failure.None? && t.advisory.None?
      && (s.ws.Some? ==> t.ready == s.ready[s.ws.value := CLOSING]) && t.generation == s.generation + 1
      && !u.offline && u.generation == t.generation + 1 && u.lastTick == wall
      && (c.auth ==> u.AuthLive()) && (!c.auth && !c.dialThrows(s.dials) ==> u.ws == Some(s.dials) && u.Is(CONNECTING))
  {
  }

  /** close() ends it in any state, with no failure shown and its socket on the way down. */
  lemma CloseCallEnds(c: Config, s: State)
    requires Settled(c, s)
    ensures
      var t := Step(c, s, CloseCall);
      && t.closed && t.permaClosed && t.failure.None? && t.status.Failed? && t.WakeSources() == 0
      && (s.ws.Some? ==> t.ready == s.ready[s.ws.value := CLOSING]) && (s.ws.None? ==> t.ready == s.ready)
  {
  }

  // ---- over every run -------------------------------------------------------------------------------------------

  lemma StepShows(c: Config, s: State, e: Event)
    requires Settled(c, s) && Enabled(s, e) && Shows(s)
    ensures Shows(Step(c, s, e))
  {
    if e.Auth? || e.Reconnect? || e.Resume? || e.Visible? || e.NetworkBack? {
      CallKeeps(c, s, e);
    } else if e.Closed? {
      ClosedShows(c, s, e);
    } else if !e.Opening? && !e.Pause? {
      PageKeeps(c, s, e);
    }
  }

  lemma ClosedShows(c: Config, s: State, e: Event)
    requires Settled(c, s) && Enabled(s, e) && Shows(s) && e.Closed?
    ensures Shows(Step(c, s, e))
  {
    if s.ws == Some(e.id) { AfterCloseKeepsSockets(c, LoseSocket(s, e.id, e.code), e.code, e.wall); }
  }

  lemma {:induction false} RunShows(c: Config, s: State, es: seq<Event>)
    requires Settled(c, s) && EnabledRun(c, s, es) && Shows(s)
    ensures Shows(Run(c, s, es))
    decreases |es|
  {
    if es != [] {
      StepShows(c, s, es[0]);
      StepSettles(c, s, es[0]);
      RunShows(c, Step(c, s, es[0]), es[1..]);
    }
  }
}
