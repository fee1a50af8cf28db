/**
 The reconnect machine of one client connection (src/client.js), as atomic steps: what each
 event does when no store subscriber re-enters the connection while it runs. The class in
 ReconnectingClient.dfy runs the same events with re-entry and is proved against these functions.

 Sockets and auth attempts are numbered: a socket by the dial that opened it, an auth
 attempt by the connection generation that started it.
 */
module Reconnect {
  import opened Options
  import opened Backoff

  // WebSocket.readyState of a socket whose close event has not been delivered yet.
  datatype Ready = CONNECTING | OPEN | CLOSING

  datatype Status = Connecting | Open | Suspended | Disconnected | Failed

  datatype FailureClass = TERMINAL | THROTTLE | RETRY | DRAIN | EXHAUSTED | AUTH
  datatype Failure = Failure(cls: FailureClass, code: int)

  datatype Timer = Timer(generation: nat, delay: real)
  datatype Advisory = Advisory(afterMs: real, windowMs: real, deadline: real)

  datatype AuthResult =
    | Accepted
    | Unauthorized(code: int)
    | Throttled(code: int, retryAfterMs: real)
    | Transient(code: int)

  /**
   The options of one connection and what its environment answers: the n-th random float,
   and whether the n-th `new WebSocket` throws.
   */
  datatype Config = Config(
    hasUrl: bool,          // an explicit url, or a window to derive one from
    auth: bool,            // the auth preflight is on
    authTarget: bool,      // and it has a URL to call
    base: real, cap: real, // reconnectInterval, maxReconnectInterval
    maxAttempts: Option<nat>,
    random: nat -> real,
    dialThrows: nat -> bool)
  {
    ghost predicate Valid() {
      forall n: nat :: 0.0 <= random(n) < 1.0
    }
  }

  datatype State = State(
    ws: Option<nat>, ready: map<nat, Ready>, dials: nat, attemptTimer: Option<nat>,
    reconnectTimer: Option<Timer>, reserved: bool,
    authInFlight: Option<nat>, authPending: set<nat>,
    generation: nat, offline: bool, closed: bool, terminal: bool,
    attempt: nat, backoff: nat, draws: nat,
    advisory: Option<Advisory>,
    status: Status, failure: Option<Failure>, permaClosed: bool, lastCloseCode: int,
    hidden: bool, lastServerMessage: real, gapWall: real, gapMono: real, lastTick: real,
    // History, not a field of the source: both counters just before the last retry was scheduled.
    beforeRetry: (nat, nat))
  {
    predicate Halted() { closed || terminal || offline }

    predicate Is(r: Ready) {
      ws.Some? && ws.value in ready && ready[ws.value] == r
    }

    predicate AuthLive() { generation in authPending }

    function WakeSources(): nat {
      (if ws.Some? then 1 else 0) + (if AuthLive() then 1 else 0) + (if reconnectTimer.Some? then 1 else 0)
    }
  }

  const SUSPEND_GAP_MS := 60000.0
  const SERVER_TIMEOUT_MS := 150000.0
  const ACTIVITY_INTERVAL_MS := 30000.0
  const ADVISORY_GRACE_MS := 5000.0

  function ClassifyCloseCode(code: int): FailureClass {
    if code == 1008 || code == 4401 || code == 4403 then TERMINAL
    else if code == 4429 then THROTTLE
    else RETRY
  }

  // ---- shared steps ---------------------------------------------------------------------

  // `hidden` is document.hidden as the page loads.
  function Fresh(hidden: bool, wall: real, mono: real): State {
    State(None, map[], 0, None, None, false, None, {}, 0, false, false, false, 0, 0, 0, None,
          Disconnected, None, false, 0, hidden, wall, wall, mono, wall, (0, 0))
  }

  function CancelAttempt(s: State): State {
    s.(generation := s.generation + 1, authInFlight := None, attemptTimer := None)
  }

  function ClearReconnect(s: State, refund: bool): State {
    var back := refund && s.reserved && s.attempt > 0;
    s.(reconnectTimer := None, reserved := false,
       attempt := if back then s.attempt - 1 else s.attempt,
       backoff := if back && s.backoff > 0 then s.backoff - 1 else s.backoff)
  }

  // sock.close() starts the closing handshake; the status follows at once.
  function DisconnectSocket(s: State): State {
    if s.ws.None? then s
    else s.(ready := s.ready[s.ws.value := CLOSING], status := if s.Halted() then s.status else Disconnected)
  }

  function HandleClosed(s: State, sock: Option<nat>): State {
    if sock.Some? then s.(ready := s.ready[sock.value := CLOSING]) else s
  }

  function SuspendGap(s: State, wall: real, mono: real): real {
    (wall - s.gapWall) - (mono - s.gapMono)
  }

  function Restamp(s: State, wall: real, mono: real): State {
    s.(gapWall := wall, gapMono := mono)
  }

  function Slept(s: State, wall: real, mono: real): bool {
    SuspendGap(s, wall, mono) > SUSPEND_GAP_MS && wall - s.lastServerMessage > 5000.0
  }

  function OpenStatus(s: State): Status {
    if s.hidden then Suspended else Open
  }

  function Max(x: nat, y: nat): nat { if x < y then y else x }

  function MaxReal(x: real, y: real): real { if x < y then y else x }

  function Terminate(s: State, failure: Failure): State {
    s.(terminal := true, permaClosed := true, failure := Some(failure), status := Failed)
  }

  predicate OutOfAttempts(c: Config, s: State) {
    c.maxAttempts.Some? && s.attempt >= c.maxAttempts.value
  }

  // override: a pre-rolled delay that does not advance the backoff; floor: Retry-After.
  function ScheduleReconnect(c: Config, s: State, override: Option<real>, floor: real): State {
    if s.Halted() || s.reconnectTimer.Some? then s
    else if OutOfAttempts(c, s) then Terminate(s, Failure(EXHAUSTED, s.lastCloseCode))
    else if override.Some? then s.(reconnectTimer := Some(Timer(s.generation, override.value)))
    else
      var delay := MaxReal(NextReconnectDelay(c.base, c.cap, s.backoff, c.random(s.draws)), floor);
      s.(reconnectTimer := Some(Timer(s.generation, delay)), draws := s.draws + 1,
         attempt := s.attempt + 1, backoff := s.backoff + 1, reserved := true,
         beforeRetry := (s.attempt, s.backoff))
  }

  function OpenSocket(c: Config, s: State): State {
    var dialed := s.(dials := s.dials + 1);
    if c.dialThrows(s.dials) then ScheduleReconnect(c, dialed.(reserved := false), None, 0.0)
    else dialed.(ws := Some(s.dials), ready := s.ready[s.dials := CONNECTING], attemptTimer := Some(s.dials))
  }

  function StartAuth(c: Config, s: State): State {
    s.(authPending := s.authPending + {s.generation},
       authInFlight := if c.authTarget then Some(s.generation) else s.authInFlight)
  }

  predicate ConnectBlocked(c: Config, s: State) {
    s.Halted() || !c.hasUrl || s.Is(CONNECTING) || s.Is(OPEN) || s.authInFlight.Some?
  }

  // The part of doConnect before the attempt itself.
  function BeginConnect(s: State): State {
    var next := s.(generation := s.generation + 1, status := Connecting);
    if s.ws.Some? then next.(ws := None, attemptTimer := None) else next
  }

  function Attempt(c: Config, s: State): State {
    if c.auth then StartAuth(c, s) else OpenSocket(c, s)
  }

  function DoConnect(c: Config, s: State): State {
    if ConnectBlocked(c, s) then s else Attempt(c, BeginConnect(s))
  }

  // ---- events -----------------------------------------------------------------------------

  function Opened(s: State, id: nat, wall: real): State {
    var t := s.(ready := s.ready[id := OPEN],
      attemptTimer := if s.attemptTimer == Some(id) then None else s.attemptTimer);
    if s.ws != Some(id) then t
    else t.(reserved := false, attempt := 0, backoff := 0, advisory := None, lastServerMessage := wall,
            failure := None, status := OpenStatus(s))
  }

  function Received(s: State, id: nat, advised: Option<(real, real)>, wall: real): State {
    if s.ws != Some(id) then s
    else
      var t := s.(lastServerMessage := wall);
      if advised.None? || advised.value.1 <= 0.0 then t
      else
        var after := MaxReal(advised.value.0, 0.0);
        t.(advisory := Some(Advisory(after, advised.value.1, wall + after + advised.value.1 + ADVISORY_GRACE_MS)))
  }

  // onclose up to its classification of the code.
  function DropSocket(s: State, id: nat): State {
    s.(ready := s.ready - {id}, attemptTimer := if s.attemptTimer == Some(id) then None else s.attemptTimer)
  }

  function LoseSocket(s: State, id: nat, code: int): State {
    DropSocket(s, id).(reserved := false, ws := None, lastCloseCode := code)
  }

  // A close the server announced: a dispersed reconnect that is no failure of this client's.
  function Drain(c: Config, s: State, advised: Advisory): State {
    ScheduleReconnect(c, s.(failure := Some(Failure(DRAIN, s.lastCloseCode)), attempt := 0, backoff := 0,
                            status := Disconnected, draws := s.draws + 1),
      Some(DispersedReconnectDelay(advised.afterMs, advised.windowMs, c.random(s.draws))), 0.0)
  }

  function SocketClosed(c: Config, s: State, id: nat, code: int, wall: real): State {
    if s.ws != Some(id) then DropSocket(s, id)
    else
      var t := LoseSocket(s, id, code);
      if s.closed then t.(failure := None, status := Failed) else AfterClose(c, t, code, wall)
  }

  // What the close code and a drain advisory make of a lost socket.
  function AfterClose(c: Config, s: State, code: int, wall: real): State {
    var cls := ClassifyCloseCode(code);
    if cls == TERMINAL then Terminate(s, Failure(TERMINAL, code))
    else
      var t := s.(advisory := None);
      if s.advisory.Some? && wall < s.advisory.value.deadline then Drain(c, t, s.advisory.value)
      else
        var backoff := if cls == THROTTLE then Max(s.backoff, 5) else s.backoff;
        ScheduleReconnect(c, t.(failure := Some(Failure(cls, code)), backoff := backoff, status := Disconnected),
          None, 0.0)
  }

  predicate Current(s: State, generation: nat) {
    s.generation == generation && !s.Halted()
  }

  function AuthLanded(s: State, g: nat): State {
    s.(authPending := s.authPending - {g}, authInFlight := if s.authInFlight == Some(g) then None else s.authInFlight)
  }

  function AuthSettled(c: Config, s: State, g: nat, result: AuthResult): State {
    var t := AuthLanded(s, g);
    if !Current(t, g) then t
    else match result
      case Accepted => OpenSocket(c, t)
      case Unauthorized(code) =>
        Terminate(t.(reserved := false), Failure(AUTH, code))
      case Throttled(code, retryAfterMs) =>
        ScheduleReconnect(c, t.(reserved := false, failure := Some(Failure(THROTTLE, code)),
                                backoff := Max(s.backoff, 5), status := Disconnected), None, retryAfterMs)
      case Transient(code) =>
        ScheduleReconnect(c, t.(reserved := false, failure := Some(Failure(AUTH, code)), status := Disconnected),
          None, 0.0)
  }

  function AttemptTimedOut(s: State, id: nat): State {
    if s.ws == Some(id) && s.Is(CONNECTING) then DisconnectSocket(s) else s
  }

  function TimerFired(c: Config, s: State): State {
    if s.reconnectTimer.None? || s.reconnectTimer.value.generation != s.generation then s
    else DoConnect(c, s.(reconnectTimer := None))
  }

  function SimulateOffline(c: Config, s: State): State {
    if s.Halted() || !c.hasUrl then s
    else
      var t := ClearReconnect(CancelAttempt(s), true);
      t.(offline := true, advisory := None, ws := None, status := Disconnected, failure := None,
         ready := if s.ws.Some? then s.ready[s.ws.value := CLOSING] else s.ready)
  }

  function ResumeOnline(c: Config, s: State, wall: real, mono: real): State {
    if s.closed || s.terminal || !s.offline then s
    else DoConnect(c, Restamp(s, wall, mono).(offline := false, lastTick := wall))
  }

  function Close(s: State): State {
    var t := ClearReconnect(CancelAttempt(s), false);
    t.(closed := true, permaClosed := true, ws := None, failure := None, status := Failed,
       ready := if s.ws.Some? then s.ready[s.ws.value := CLOSING] else s.ready)
  }

  function Hide(s: State, wall: real, mono: real): State {
    var t := Restamp(s.(hidden := true), wall, mono);
    if s.Halted() || !s.Is(OPEN) then t
    else if Slept(s, wall, mono) then DisconnectSocket(t.(attempt := 0, backoff := 0))
    else t.(status := Suspended)
  }

  function RetryNow(c: Config, s: State): State {
    DoConnect(c, ClearReconnect(s.(attempt := 0, backoff := 0), false))
  }

  function Show(c: Config, s: State, wall: real, mono: real): State {
    var t := s.(hidden := false);
    if s.Halted() then t
    else if s.Is(OPEN) then
      var u := Restamp(t, wall, mono);
      if Slept(s, wall, mono) then DisconnectSocket(u.(attempt := 0, backoff := 0)) else u.(status := Open)
    else RetryNow(c, t)
  }

  function BrowserOffline(s: State): State {
    if s.Halted() then s
    else if s.Is(OPEN) || s.Is(CONNECTING) then DisconnectSocket(s)
    else s.(status := Disconnected)
  }

  function BrowserOnline(c: Config, s: State): State {
    if s.Halted() || s.Is(OPEN) then s else RetryNow(c, s)
  }

  function Tick(s: State, wall: real, mono: real): State {
    if s.Halted() then s
    else
      var silence := wall - s.lastServerMessage;
      var throttled := wall - s.lastTick > ACTIVITY_INTERVAL_MS * 1.5;
      var t := Restamp(s, wall, mono).(lastTick := wall);
      if s.Is(OPEN) && ((silence > SERVER_TIMEOUT_MS && !throttled) || Slept(s, wall, mono)) then DisconnectSocket(t)
      else t
  }

  // ---- runs -------------------------------------------------------------------------------

  datatype Event =
    | Opening(id: nat, wall: real)
    | Closing(id: nat)                                   // the peer started the closing handshake
    | Closed(id: nat, code: int, wall: real)
    | Message(id: nat, advised: Option<(real, real)>, wall: real)
    | Auth(generation: nat, result: AuthResult)
    | AttemptTimeout(id: nat)
    | Reconnect
    | Pause
    | Resume(wall: real, mono: real)
    | CloseCall
    | Hidden(wall: real, mono: real)
    | Visible(wall: real, mono: real)
    | NetworkLost
    | NetworkBack
    | Activity(wall: real, mono: real)

  // What the environment can deliver: a socket opens and closes once, an auth attempt settles once.
  predicate Enabled(s: State, e: Event) {
    match e
    case Opening(id, _) => id in s.ready && s.ready[id] == CONNECTING
    case Closing(id) => id in s.ready
    case Closed(id, _, _) => id in s.ready
    case Auth(g, _) => g in s.authPending
    case _ => true
  }

  function Step(c: Config, s: State, e: Event): State
    requires Enabled(s, e)
  {
    match e
    case Opening(id, wall) => Opened(s, id, wall)
    case Closing(id) => s.(ready := s.ready[id := CLOSING])
    case Closed(id, code, wall) => SocketClosed(c, s, id, code, wall)
    case Message(id, advised, wall) => Received(s, id, advised, wall)
    case Auth(g, result) => AuthSettled(c, s, g, result)
    case AttemptTimeout(id) => AttemptTimedOut(s, id)
    case Reconnect => TimerFired(c, s)
    case Pause => SimulateOffline(c, s)
    case Resume(wall, mono) => ResumeOnline(c, s, wall, mono)
    case CloseCall => Close(s)
    case Hidden(wall, mono) => Hide(s, wall, mono)
    case Visible(wall, mono) => Show(c, s, wall, mono)
    case NetworkLost => BrowserOffline(s)
    case NetworkBack => BrowserOnline(c, s)
    case Activity(wall, mono) => Tick(s, wall, mono)
  }

  // ---- invariants ---------------------------------------------------------------------------

  /** What holds at every moment a store subscriber can look, also in the middle of a step. */
  ghost predicate Coherent(c: Config, s: State) {
    && c.Valid()
    && s.WakeSources() <= 1
    && (s.ws.Some? ==> s.ws.value in s.ready)
    && (forall id | id in s.ready :: id < s.dials)
    && (s.Is(CONNECTING) && !s.closed ==> s.attemptTimer == s.ws)
    && (forall g | g in s.authPending :: g <= s.generation)
    && (s.authInFlight.Some? ==> s.authInFlight.value == s.generation && s.AuthLive())
    && (s.reconnectTimer.Some? ==> s.reconnectTimer.value.generation == s.generation)
    && (s.terminal || s.offline || !c.hasUrl ==> s.WakeSources() == 0)
    && (s.offline ==> c.hasUrl && !s.reserved && (s.status.Disconnected? || s.status.Failed?))
    && (s.permaClosed ==> s.closed || s.terminal)
    && (s.reserved ==> s.attempt == s.beforeRetry.0 + 1 && s.backoff == s.beforeRetry.1 + 1 && !s.Is(OPEN))
    && s.attempt <= s.backoff
    && (c.maxAttempts.Some? ==> s.attempt <= c.maxAttempts.value)
  }

  predicate ShowsOpen(s: State) { s.status.Open? || s.status.Suspended? }

  /** What holds between steps: a live connection has exactly one thing that will wake it. */
  ghost predicate Settled(c: Config, s: State) {
    && Coherent(c, s)
    && s.WakeSources() == (if s.Halted() || !c.hasUrl then 0 else 1)
    && (s.closed || s.terminal ==> s.status.Failed? && s.permaClosed)
    && (s.reserved ==> s.WakeSources() == 1)
    && (s.Is(OPEN) ==> ShowsOpen(s))
    && (ShowsOpen(s) ==> s.ws.Some?)
  }

  /** A socket still up that the connection no longer holds. */
  predicate Orphan(s: State, id: nat) {
    id in s.ready && s.ready[id] != CLOSING && s.ws != Some(id)
  }

  // ---- each step settles ----------------------------------------------------------------------

  ghost predicate Idle(c: Config, s: State) {
    Coherent(c, s) && s.WakeSources() == 0 && !s.Halted() && c.hasUrl && !ShowsOpen(s)
  }

  lemma ScheduleSettles(c: Config, s: State, override: Option<real>, floor: real)
    requires Idle(c, s) && !s.reserved
    ensures Settled(c, ScheduleReconnect(c, s, override, floor))
  {
  }

  lemma OpenSocketSettles(c: Config, s: State)
    requires Idle(c, s)
    ensures Settled(c, OpenSocket(c, s))
  {
    var dialed := s.(dials := s.dials + 1);
    if c.dialThrows(s.dials) {
      ScheduleSettles(c, dialed.(reserved := false), None, 0.0);
    }
  }

  lemma AttemptSettles(c: Config, s: State)
    requires Idle(c, s)
    ensures Settled(c, Attempt(c, s))
  {
    OpenSocketSettles(c, s);
  }

  lemma DoConnectSettles(c: Config, s: State)
    requires Coherent(c, s) && s.reconnectTimer.None?
    requires ConnectBlocked(c, s) ==> Settled(c, s)
    ensures Settled(c, DoConnect(c, s))
  {
    if !ConnectBlocked(c, s) {
      assert Idle(c, BeginConnect(s));
      AttemptSettles(c, BeginConnect(s));
    }
  }

  lemma RetryNowSettles(c: Config, s: State)
    requires Settled(c, s) && !s.Halted()
    ensures Settled(c, RetryNow(c, s))
  {
    DoConnectSettles(c, ClearReconnect(s.(attempt := 0, backoff := 0), false));
  }

  lemma DrainSettles(c: Config, s: State, advised: Advisory)
    requires Coherent(c, s) && s.WakeSources() == 0 && !s.Halted() && c.hasUrl && !s.reserved
    ensures Settled(c, Drain(c, s, advised))
  {
    ScheduleSettles(c, s.(failure := Some(Failure(DRAIN, s.lastCloseCode)), attempt := 0, backoff := 0,
                          status := Disconnected, draws := s.draws + 1),
      Some(DispersedReconnectDelay(advised.afterMs, advised.windowMs, c.random(s.draws))), 0.0);
  }

  lemma TerminateSettles(c: Config, s: State, cause: Failure)
    requires Coherent(c, s) && s.WakeSources() == 0 && !s.reserved
    ensures Settled(c, Terminate(s, cause))
  {
  }

  // A connection re-entered after it ended already shows it, whatever cause is shown next.
  lemma FailedStays(c: Config, s: State, cause: Failure)
    requires Settled(c, s) && s.terminal
    ensures Settled(c, s.(failure := Some(cause), status := Failed))
  {
  }

  lemma RetrySettles(c: Config, s: State, cause: Failure, backoff: nat)
    requires Coherent(c, s) && s.WakeSources() == 0 && !s.Halted() && c.hasUrl && !s.reserved && backoff >= s.backoff
    ensures Settled(c, ScheduleReconnect(c, s.(failure := Some(cause), backoff := backoff, status := Disconnected),
      None, 0.0))
  {
    ScheduleSettles(c, s.(failure := Some(cause), backoff := backoff, status := Disconnected), None, 0.0);
  }

  lemma AdviceIsFree(c: Config, s: State)
    requires Coherent(c, s)
    ensures Coherent(c, s.(advisory := None))
  {
  }

  lemma AfterCloseSettles(c: Config, s: State, code: int, wall: real)
    requires Coherent(c, s) && s.WakeSources() == 0 && !s.Halted() && c.hasUrl && !s.reserved
    ensures Settled(c, AfterClose(c, s, code, wall))
  {
    var cls := ClassifyCloseCode(code);
    if cls == TERMINAL {
      TerminateSettles(c, s, Failure(TERMINAL, code));
    } else {
      AdviceIsFree(c, s);
      var t := s.(advisory := None);
      if s.advisory.Some? && wall < s.advisory.value.deadline {
        DrainSettles(c, t, s.advisory.value);
      } else {
        RetrySettles(c, t, Failure(cls, code), if cls == THROTTLE then Max(s.backoff, 5) else s.backoff);
      }
    }
  }

  lemma LoseSocketIsIdle(c: Config, s: State, id: nat, code: int)
    requires Settled(c, s) && id in s.ready && s.ws == Some(id)
    ensures
      var t := LoseSocket(s, id, code);
      !s.closed && Coherent(c, t) && t.WakeSources() == 0 && !t.Halted() && c.hasUrl && !t.reserved
  {
  }

  lemma SocketClosedSettles(c: Config, s: State, id: nat, code: int, wall: real)
    requires Settled(c, s) && id in s.ready
    ensures Settled(c, SocketClosed(c, s, id, code, wall))
  {
    if s.ws == Some(id) {
      LoseSocketIsIdle(c, s, id, code);
      AfterCloseSettles(c, LoseSocket(s, id, code), code, wall);
    }
  }

  lemma AuthSettles(c: Config, s: State, g: nat, result: AuthResult)
    requires Settled(c, s) && g in s.authPending
    ensures Settled(c, AuthSettled(c, s, g, result))
  {
    var t := AuthLanded(s, g);
    if Current(t, g) {
      var u := t.(reserved := false, status := Disconnected);
      match result
      case Accepted => OpenSocketSettles(c, t);
      case Unauthorized(code) =>
      case Throttled(code, after) =>
        ScheduleSettles(c, u.(failure := Some(Failure(THROTTLE, code)), backoff := Max(s.backoff, 5)), None, after);
      case Transient(code) =>
        ScheduleSettles(c, u.(failure := Some(Failure(AUTH, code))), None, 0.0);
    }
  }

  lemma OpenedSettles(c: Config, s: State, id: nat, wall: real)
    requires Settled(c, s) && Enabled(s, Opening(id, wall))
    ensures Settled(c, Opened(s, id, wall))
    ensures s.ws == Some(id) ==> Coherent(c, Opened(s, id, wall).(status := s.status))
  {
  }

  lemma ShowOpenSettles(c: Config, s: State)
    requires Settled(c, s) && s.ws.Some?
    ensures Settled(c, s.(status := OpenStatus(s)))
  {
  }

  lemma PauseSettles(c: Config, s: State)
    requires Settled(c, s)
    ensures Settled(c, SimulateOffline(c, s))
  {
  }

  lemma ResumeSettles(c: Config, s: State, wall: real, mono: real)
    requires Coherent(c, s) && (!s.offline || s.closed || s.terminal ==> Settled(c, s))
    ensures Settled(c, ResumeOnline(c, s, wall, mono))
  {
    if s.offline && !s.closed && !s.terminal {
      DoConnectSettles(c, Restamp(s, wall, mono).(offline := false, lastTick := wall));
    }
  }

  lemma CloseSettles(c: Config, s: State)
    requires Coherent(c, s)
    ensures Settled(c, Close(s))
  {
  }

  lemma ShowSettles(c: Config, s: State, wall: real, mono: real)
    requires Settled(c, s)
    ensures Settled(c, Show(c, s, wall, mono))
  {
    var t := s.(hidden := false);
    if !s.Halted() && !s.Is(OPEN) { RetryNowSettles(c, t); }
  }

  lemma DropsSettle(c: Config, s: State)
    requires Settled(c, s)
    ensures s.ws.Some? ==> Settled(c, DisconnectSocket(s))
    ensures Settled(c, BrowserOffline(s))
  {
  }

  lemma ClosingSettles(c: Config, s: State, id: nat)
    requires Settled(c, s) && id in s.ready
    ensures Settled(c, s.(ready := s.ready[id := CLOSING]))
  {
  }

  lemma HideSettles(c: Config, s: State, wall: real, mono: real)
    requires Settled(c, s)
    ensures Settled(c, Hide(s, wall, mono))
  {
    if s.Is(OPEN) { DropsSettle(c, Restamp(s.(hidden := true), wall, mono).(attempt := 0, backoff := 0)); }
  }

  lemma TickSettles(c: Config, s: State, wall: real, mono: real)
    requires Settled(c, s)
    ensures Settled(c, Tick(s, wall, mono))
  {
    DropsSettle(c, Restamp(s, wall, mono).(lastTick := wall));
  }

  lemma SocketStepSettles(c: Config, s: State, e: Event)
    requires Settled(c, s) && Enabled(s, e)
    requires e.Opening? || e.Closing? || e.Closed? || e.Message? || e.AttemptTimeout?
    ensures Settled(c, Step(c, s, e))
  {
    match e
    case Opening(id, wall) => OpenedSettles(c, s, id, wall);
    case Closed(id, code, wall) => SocketClosedSettles(c, s, id, code, wall);
    case Closing(id) => ClosingSettles(c, s, id);
    case AttemptTimeout(_) => DropsSettle(c, s);
    case _ =>
  }

  lemma PageStepSettles(c: Config, s: State, e: Event)
    requires Settled(c, s) && Enabled(s, e)
    requires e.Hidden? || e.Visible? || e.NetworkLost? || e.NetworkBack? || e.Activity?
    ensures Settled(c, Step(c, s, e))
  {
    match e
    case Visible(wall, mono) => ShowSettles(c, s, wall, mono);
    case NetworkBack => if !s.Halted() && !s.Is(OPEN) { RetryNowSettles(c, s); }
    case NetworkLost => DropsSettle(c, s);
    case Hidden(wall, mono) => HideSettles(c, s, wall, mono);
    case Activity(wall, mono) => TickSettles(c, s, wall, mono);
    case _ =>
  }

  lemma CallStepSettles(c: Config, s: State, e: Event)
    requires Settled(c, s) && Enabled(s, e)
    requires e.Auth? || e.Reconnect? || e.Pause? || e.Resume? || e.CloseCall?
    ensures Settled(c, Step(c, s, e))
  {
    match e
    case Auth(g, result) => AuthSettles(c, s, g, result);
    case Reconnect => DoConnectSettles(c, s.(reconnectTimer := None));
    case Pause => PauseSettles(c, s);
    case Resume(wall, mono) => ResumeSettles(c, s, wall, mono);
    case CloseCall => CloseSettles(c, s);
    case _ =>
  }

  /** Every event keeps a settled connection settled. */
  lemma StepSettles(c: Config, s: State, e: Event)
    requires Settled(c, s) && Enabled(s, e)
    ensures Settled(c, Step(c, s, e))
  {
    if e.Opening? || e.Closing? || e.Closed? || e.Message? || e.AttemptTimeout? {
      SocketStepSettles(c, s, e);
    } else if e.Hidden? || e.Visible? || e.NetworkLost? || e.NetworkBack? || e.Activity? {
      PageStepSettles(c, s, e);
    } else {
      CallStepSettles(c, s, e);
    }
  }

  // ---- the stages of a call that notifies subscribers on its way ---------------------------------

  lemma FailureIsFree(c: Config, s: State, f: Option<Failure>)
    ensures Coherent(c, s) ==> Coherent(c, s.(failure := f))
    ensures Settled(c, s) ==> Settled(c, s.(failure := f))
  {
  }

  lemma HandleClosedSettles(c: Config, s: State, sock: Option<nat>)
    requires Settled(c, s) && (sock.Some? ==> sock.value < s.dials)
    ensures Settled(c, HandleClosed(s, sock))
  {
  }

  function Retired(s: State): State {
    if s.ws.Some? then s.(generation := s.generation + 1, ws := None, attemptTimer := None, status := Disconnected)
    else s.(generation := s.generation + 1)
  }

  lemma RetiredIsIdle(c: Config, s: State)
    requires Coherent(c, s) && s.reconnectTimer.None? && !ConnectBlocked(c, s)
    ensures s.ws.Some? ==> Idle(c, Retired(s))
    ensures BeginConnect(s) == Retired(s).(status := Connecting)
    ensures Idle(c, BeginConnect(s))
  {
  }

  function Unplugged(s: State): State {
    ClearReconnect(CancelAttempt(s), true).(offline := true, advisory := None, ws := None, status := Disconnected)
  }

  lemma UnpluggedSettles(c: Config, s: State)
    requires Coherent(c, s) && !s.Halted() && c.hasUrl
    ensures Settled(c, Unplugged(s))
    ensures SimulateOffline(c, s) == HandleClosed(Unplugged(s).(failure := None), s.ws)
  {
  }

  /** A closed connection on its way down: nothing can wake it, whatever its status still says. */
  ghost predicate WindingDown(c: Config, s: State) {
    Coherent(c, s) && s.closed && s.permaClosed && s.WakeSources() == 0 && !s.reserved
  }

  function Condemned(s: State): State {
    ClearReconnect(CancelAttempt(s), false).(closed := true, permaClosed := true)
  }

  lemma CondemnedCloses(c: Config, s: State)
    requires Coherent(c, s)
    ensures Coherent(c, Condemned(s))
    ensures Close(s) == HandleClosed(Condemned(s).(ws := None), s.ws).(failure := None, status := Failed)
  {
  }

  lemma CloseStage(c: Config, s: State)
    requires Coherent(c, s) && s.closed && s.permaClosed && !s.reserved
    requires s.reconnectTimer.None? && !s.AuthLive()
    ensures WindingDown(c, HandleClosed(s.(ws := None), s.ws))
  {
  }

  lemma CloseEnds(c: Config, s: State)
    requires WindingDown(c, s)
    ensures Settled(c, s.(status := Failed))
  {
  }

  // ---- what every run keeps ---------------------------------------------------------------------

  ghost predicate EnabledRun(c: Config, s: State, es: seq<Event>)
    decreases |es|
  {
    es == [] || (Enabled(s, es[0]) && EnabledRun(c, Step(c, s, es[0]), es[1..]))
  }

  ghost function Run(c: Config, s: State, es: seq<Event>): State
    requires EnabledRun(c, s, es)
    decreases |es|
  {
    if es == [] then s else Run(c, Step(c, s, es[0]), es[1..])
  }

  /**
   After any run of a new connection: exactly one wake source while it is live and none
   otherwise, and a pending timer always belongs to the current generation.
   */
  lemma {:induction false} RunSettles(c: Config, s: State, es: seq<Event>)
    requires Settled(c, s) && EnabledRun(c, s, es)
    ensures Settled(c, Run(c, s, es))
    decreases |es|
  {
    if es != [] {
      StepSettles(c, s, es[0]);
      RunSettles(c, Step(c, s, es[0]), es[1..]);
    }
  }

  lemma StartSettles(c: Config, hidden: bool, wall: real, mono: real)
    requires c.Valid()
    ensures Settled(c, DoConnect(c, Fresh(hidden, wall, mono)))
  {
    DoConnectSettles(c, Fresh(hidden, wall, mono));
  }

  /** Once closed or terminal, a connection stays so: nothing wakes it again and its status stays failed. */
  lemma {:induction false} DeadStaysDead(c: Config, s: State, es: seq<Event>)
    requires Settled(c, s) && EnabledRun(c, s, es)
    requires s.closed || s.terminal
    ensures
      var t := Run(c, s, es);
      && (s.closed ==> t.closed) && (s.terminal ==> t.terminal)
      && t.ws.None? && t.reconnectTimer.None? && !t.AuthLive() && t.status.Failed?
      && t.dials == s.dials
    decreases |es|
  {
    if es != [] {
      StepSettles(c, s, es[0]);
      DeadStaysDead(c, Step(c, s, es[0]), es[1..]);
    }
  }

  /** A pending reconnect timer is never stranded by its generation guard: firing it starts a new attempt. */
  lemma TimerAlwaysRetries(c: Config, s: State)
    requires Settled(c, s) && s.reconnectTimer.Some?
    ensures
      var t := TimerFired(c, s);
      && t.generation == s.generation + 1
      && (t.ws == Some(s.dials) || t.AuthLive() || t.terminal || t.reconnectTimer.Some?)
  {
  }

  /** Pausing a scheduled or in-flight retry gives back exactly what scheduling it took. */
  lemma PauseRefunds(c: Config, s: State)
    requires Settled(c, s)
    ensures s.reserved ==> (SimulateOffline(c, s).attempt, SimulateOffline(c, s).backoff) == s.beforeRetry
    ensures !s.reserved ==> (SimulateOffline(c, s).attempt, SimulateOffline(c, s).backoff) == (s.attempt, s.backoff)
    ensures s.reserved ==> s.attempt >= 1 && s.backoff >= 1
  {
  }

  /** Scheduling then pausing, with nothing between, is the identity on both counters. */
  lemma ScheduleThenPause(c: Config, s: State, override: Option<real>, floor: real)
    requires Idle(c, s) && !s.reserved && !OutOfAttempts(c, s)
    ensures
      var t := SimulateOffline(c, ScheduleReconnect(c, s, override, floor));
      t.attempt == s.attempt && t.backoff == s.backoff && t.reconnectTimer.None? && t.offline
  {
  }

  /** A backoff delay respects Retry-After, and is the jittered backoff whenever that is longer. */
  lemma ScheduledDelay(c: Config, s: State, floor: real)
    requires Idle(c, s) && !OutOfAttempts(c, s)
    ensures
      var t := ScheduleReconnect(c, s, None, floor).reconnectTimer;
      var k := Capped(c.base, c.cap, s.backoff);
      && t.Some? && t.value.delay >= floor
      && (k > 0.0 ==> t.value.delay >= 0.75 * k)
      && (k > 0.0 && t.value.delay > floor ==> t.value.delay < 1.25 * k)
  {
    DelayInBand(c.base, c.cap, s.backoff, c.random(s.draws));
  }

  lemma DoConnectLeaksNothing(c: Config, s: State, id: nat)
    requires Coherent(c, s) && s.reconnectTimer.None?
    ensures Orphan(DoConnect(c, s), id) ==> Orphan(s, id)
  {
  }

  lemma ScheduleKeepsSockets(c: Config, s: State, override: Option<real>, floor: real)
    ensures var t := ScheduleReconnect(c, s, override, floor); t.ready == s.ready && t.ws == s.ws
  {
  }

  lemma DrainKeepsSockets(c: Config, s: State, advised: Advisory)
    ensures var t := Drain(c, s, advised); t.ready == s.ready && t.ws == s.ws
  {
    ScheduleKeepsSockets(c, s.(failure := Some(Failure(DRAIN, s.lastCloseCode)), attempt := 0, backoff := 0,
                               status := Disconnected, draws := s.draws + 1),
      Some(DispersedReconnectDelay(advised.afterMs, advised.windowMs, c.random(s.draws))), 0.0);
  }

  lemma AfterCloseKeepsSockets(c: Config, s: State, code: int, wall: real)
    ensures var t := AfterClose(c, s, code, wall); t.ready == s.ready && t.ws == s.ws
  {
    var cls, t := ClassifyCloseCode(code), s.(advisory := None);
    if cls != TERMINAL {
      if s.advisory.Some? && wall < s.advisory.value.deadline {
        DrainKeepsSockets(c, t, s.advisory.value);
      } else {
        var backoff := if cls == THROTTLE then Max(s.backoff, 5) else s.backoff;
        ScheduleKeepsSockets(c, t.(failure := Some(Failure(cls, code)), backoff := backoff, status := Disconnected),
          None, 0.0);
      }
    }
  }

  lemma ClosedLeaksNothing(c: Config, s: State, gone: nat, code: int, wall: real, id: nat)
    requires Settled(c, s) && gone in s.ready
    ensures Orphan(SocketClosed(c, s, gone, code, wall), id) ==> Orphan(s, id)
  {
    if s.ws == Some(gone) { AfterCloseKeepsSockets(c, LoseSocket(s, gone, code), code, wall); }
  }

  lemma AuthLeaksNothing(c: Config, s: State, g: nat, result: AuthResult, id: nat)
    requires Settled(c, s) && g in s.authPending
    ensures Orphan(AuthSettled(c, s, g, result), id) ==> Orphan(s, id)
  {
  }

  predicate Reconnects(e: Event) {
    e.Closed? || e.Auth? || e.Reconnect? || e.Resume? || e.Visible? || e.NetworkBack?
  }

  lemma OthersLeakNothing(c: Config, s: State, e: Event, id: nat)
    requires Settled(c, s) && Enabled(s, e) && !Reconnects(e)
    ensures Orphan(Step(c, s, e), id) ==> Orphan(s, id)
  {
  }

  lemma PageLeaksNothing(c: Config, s: State, e: Event, id: nat)
    requires Settled(c, s) && Enabled(s, e) && (e.Visible? || e.NetworkBack?)
    ensures Orphan(Step(c, s, e), id) ==> Orphan(s, id)
  {
    match e
    case Visible(_, _) =>
      DoConnectLeaksNothing(c, ClearReconnect(s.(hidden := false, attempt := 0, backoff := 0), false), id);
    case NetworkBack => DoConnectLeaksNothing(c, ClearReconnect(s.(attempt := 0, backoff := 0), false), id);
    case _ =>
  }

  /** No step leaves behind a socket that is neither held nor closing. */
  lemma NoSocketLeaks(c: Config, s: State, e: Event, id: nat)
    requires Settled(c, s) && Enabled(s, e)
    ensures Orphan(Step(c, s, e), id) ==> Orphan(s, id)
  {
    match e
    case Closed(gone, code, wall) => ClosedLeaksNothing(c, s, gone, code, wall, id);
    case Auth(g, result) => AuthLeaksNothing(c, s, g, result, id);
    case Reconnect => DoConnectLeaksNothing(c, s.(reconnectTimer := None), id);
    case Resume(wall, mono) =>
      if s.offline { DoConnectLeaksNothing(c, Restamp(s, wall, mono).(offline := false, lastTick := wall), id); }
    case _ => if Reconnects(e) { PageLeaksNothing(c, s, e, id); } else { OthersLeakNothing(c, s, e, id); }
  }

  /** The retry budget over every run: attempts within the backoff count, and within the maximum if there is one. */
  lemma {:induction false} AttemptsBounded(c: Config, s: State, es: seq<Event>)
    requires Settled(c, s) && EnabledRun(c, s, es)
    ensures
      var t := Run(c, s, es);
      && t.attempt <= t.backoff && (c.maxAttempts.Some? ==> t.attempt <= c.maxAttempts.value)
      && (t.reserved ==> t.attempt >= 1 && t.backoff >= 1)
  {
    RunSettles(c, s, es);
  }
}
