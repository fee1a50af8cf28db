/**
 The connection object of src/client.js, stepped by events. A store subscriber may call
 simulateOffline, resumeOnline or close from inside any notification; `script` lists what the
 subscribers will do, so a proof over every script is a proof over every finite re-entry.
 */
module ReconnectingClient {
  import opened Options
  import opened Backoff
  import opened Reconnect

  datatype Reaction = Return | CallPause | CallResume(wall: real, mono: real) | CallClose

  class Connection {
    const config: Config

    // The variables of the closure, in one record so that a whole step can be compared at once.
    var state: State

    var script: seq<Reaction>

    /**
     Where a call ends: in the state its atomic step computes when no subscriber intervened,
     and in a settled one of a later generation when one did.
     */
    ghost predicate Reached(s: State)
      reads this
    {
      && Coherent(config, state)
      && state.generation >= s.generation
      && (if state.generation == s.generation then state == s else Settled(config, state))
    }

    /** What no call undoes. */
    twostate predicate Onward()
      reads this
    {
      && (old(state.closed) ==> state.closed)
      && (old(state.terminal) ==> state.terminal)
      && old(state.dials) <= state.dials
      && |script| <= old(|script|)
    }

    predicate CurrentAttempt(g: nat)
      reads this
    {
      g == state.generation && !state.Halted()
    }

    constructor (config: Config, hidden: bool, wall: real, mono: real, script: seq<Reaction>)
      requires config.Valid()
      ensures this.config == config
      ensures Settled(config, state)
      ensures Reached(Reconnect.DoConnect(config, Fresh(hidden, wall, mono)))
    {
      this.config := config;
      this.state := Fresh(hidden, wall, mono);
      this.script := script;
      new;
      StartSettles(config, hidden, wall, mono);
      DoConnect();
    }

    // ---- store notifications --------------------------------------------------------------------

    // Every subscriber runs, and each may call back in.
    method Notify()
      requires Coherent(config, state)
      modifies this
      ensures Reached(old(state)) && Onward()
      decreases |script|, 0
    {
      while script != [] && script[0] != Return
        invariant Reached(old(state)) && Onward()
        decreases |script|
      {
        var reaction := script[0];
        script := script[1..];
        match reaction
        case CallPause => SimulateOffline();
        case CallResume(wall, mono) => ResumeOnline(wall, mono);
        case CallClose => Close();
        case Return => assert false;
      }
      if script != [] { script := script[1..]; }
    }

    method SetStatus(value: Status)
      requires Coherent(config, state.(status := value))
      modifies this
      ensures Reached(old(state).(status := value)) && Onward()
      decreases |script|, 1
    {
      state := state.(status := value);
      Notify();
    }

    method SetFailure(value: Option<Failure>)
      requires Coherent(config, state.(failure := value))
      modifies this
      ensures Reached(old(state).(failure := value)) && Onward()
      decreases |script|, 1
    {
      state := state.(failure := value);
      Notify();
    }

    method SetPermaClosed()
      requires Coherent(config, state.(permaClosed := true))
      modifies this
      ensures Reached(old(state).(permaClosed := true)) && Onward()
      decreases |script|, 1
    {
      state := state.(permaClosed := true);
      Notify();
    }

    // ---- calls a subscriber can make --------------------------------------------------------------

    method SimulateOffline()
      requires Coherent(config, state)
      modifies this
      ensures Reached(Reconnect.SimulateOffline(config, old(state)))
      ensures Reached(old(state)) && Onward()
      decreases |script|, 2
    {
      if state.Halted() { return; }
      if !config.hasUrl { return; }
      UnpluggedSettles(config, state);
      ghost var unplugged := Unplugged(state);
      state := state.(offline := true);
      CancelAttempt();
      ClearReconnect(true);
      var sock := state.ws;
      state := state.(advisory := None, ws := None);
      assert state.(status := Disconnected) == unplugged;
      SetStatus(Disconnected);
      FailureIsFree(config, state, None);
      if state.offline && !state.closed && !state.terminal { SetFailure(None); }
      HandleClosedSettles(config, state, sock);
      CloseHandle(sock);
    }

    method ResumeOnline(wall: real, mono: real)
      requires Coherent(config, state)
      modifies this
      ensures Reached(Reconnect.ResumeOnline(config, old(state), wall, mono))
      ensures Reached(old(state)) && Onward()
      decreases |script|, 6
    {
      if state.closed || state.terminal || !state.offline { return; }
      state := state.(offline := false);
      state := Restamp(state, wall, mono);
      state := state.(lastTick := wall);
      DoConnectSettles(config, state);
      DoConnect();
    }

    method Close()
      requires Coherent(config, state)
      modifies this
      ensures Reached(Reconnect.Close(old(state)))
      ensures state.closed && Settled(config, state)
      ensures Reached(old(state)) && Onward()
      decreases |script|, 2
    {
      CondemnedCloses(config, state);
      ghost var condemned := Condemned(state);
      state := state.(closed := true);
      CancelAttempt();
      ClearReconnect(false);
      assert state.(permaClosed := true) == condemned;
      SetPermaClosed();
      CloseStage(config, state);
      var sock := state.ws;
      state := state.(ws := None);
      CloseHandle(sock);
      CloseEnds(config, state);
      FailureIsFree(config, state.(status := Failed), None);
      ShowFailed(None);
    }

    // ---- shared steps ---------------------------------------------------------------------------

    method CancelAttempt()
      modifies `state
      ensures state == Reconnect.CancelAttempt(old(state))
    {
      state := state.(generation := state.generation + 1, authInFlight := None);
      state := state.(attemptTimer := None);
    }

    method ClearReconnect(refund: bool)
      modifies `state
      ensures state == Reconnect.ClearReconnect(old(state), refund)
    {
      state := state.(reconnectTimer := None);
      if refund && state.reserved && state.attempt > 0 {
        state := state.(attempt := state.attempt - 1);
        if state.backoff > 0 { state := state.(backoff := state.backoff - 1); }
      }
      state := state.(reserved := false);
    }

    // sock?.close()
    method CloseHandle(sock: Option<nat>)
      modifies `state
      ensures state == HandleClosed(old(state), sock)
    {
      if sock.Some? { state := state.(ready := state.ready[sock.value := CLOSING]); }
    }

    method DisconnectSocket()
      requires Settled(config, state) && state.ws.Some?
      modifies this
      ensures Reached(Reconnect.DisconnectSocket(old(state))) && Settled(config, state)
      ensures Onward()
    {
      DropsSettle(config, state);
      CloseHandle(state.ws);
      if !state.Halted() { SetStatus(Disconnected); }
    }

    method DoConnect()
      requires Coherent(config, state) && state.reconnectTimer.None?
      modifies this
      ensures Reached(Reconnect.DoConnect(config, old(state)))
      ensures Onward()
      decreases |script|, 5
    {
      if state.Halted() { return; }
      if !config.hasUrl { return; }
      if state.Is(CONNECTING) || state.Is(OPEN) { return; }
      if state.authInFlight.Some? { return; }
      RetiredIsIdle(config, state);
      ghost var retired := Retired(state);
      state := state.(generation := state.generation + 1);
      var g := state.generation;
      if state.ws.Some? {
        state := state.(ws := None, attemptTimer := None);
        assert state.(status := Disconnected) == retired;
        SetStatus(Disconnected);
        if !CurrentAttempt(g) { return; }
      }
      assert state == retired;
      Dial();
    }

    method Dial()
      requires Idle(config, state.(status := Connecting))
      modifies this
      ensures Reached(Reconnect.Attempt(config, old(state).(status := Connecting)))
      ensures Onward()
      decreases |script|, 4, 2
    {
      var g := state.generation;
      SetStatus(Connecting);
      if CurrentAttempt(g) { Attempt(); }
    }

    method Attempt()
      requires Idle(config, state)
      modifies this
      ensures Reached(Reconnect.Attempt(config, old(state)))
      ensures Onward()
      decreases |script|, 4, 1
    {
      AttemptSettles(config, state);
      if config.auth {
        state := state.(authPending := state.authPending + {state.generation});
        if config.authTarget { state := state.(authInFlight := Some(state.generation)); }
      } else {
        OpenSocket();
      }
    }

    method OpenSocket()
      requires Idle(config, state)
      modifies this
      ensures Reached(Reconnect.OpenSocket(config, old(state)))
      ensures Onward()
      decreases |script|, 4, 0
    {
      OpenSocketSettles(config, state);
      var sock := state.dials;
      state := state.(dials := sock + 1);
      if config.dialThrows(sock) {
        state := state.(reserved := false);
        ScheduleReconnect(None, 0.0);
        return;
      }
      state := state.(ws := Some(sock), ready := state.ready[sock := CONNECTING]);
      state := state.(attemptTimer := Some(sock));
    }

    // terminalClosed, with what the stores then show.
    method Terminate(cause: Failure)
      requires Coherent(config, state) && state.WakeSources() == 0 && !state.reserved
      modifies this
      ensures Reached(Reconnect.Terminate(old(state), cause)) && Settled(config, state)
      ensures Onward()
      decreases |script|, 2
    {
      TerminateSettles(config, state, cause);
      state := state.(terminal := true);
      SetPermaClosed();
      if state.generation != old(state).generation { FailedStays(config, state, cause); }
      ShowFailed(Some(cause));
    }

    // failure, then status: what the stores of a connection that has ended show.
    method ShowFailed(cause: Option<Failure>)
      requires Coherent(config, state) && (state.closed || state.terminal)
      requires Settled(config, state.(failure := cause, status := Failed))
      modifies this
      ensures Reached(old(state).(failure := cause, status := Failed)) && Settled(config, state)
      ensures Onward()
      decreases |script|, 2, 0
    {
      FailureIsFree(config, state, cause);
      SetFailure(cause);
      SetStatus(Failed);
    }

    method ScheduleReconnect(override: Option<real>, floor: real)
      requires Idle(config, state) && !state.reserved
      modifies this
      ensures Reached(Reconnect.ScheduleReconnect(config, old(state), override, floor))
      ensures Onward()
      decreases |script|, 3
    {
      ScheduleSettles(config, state, override, floor);
      if OutOfAttempts(config, state) {
        Terminate(Failure(EXHAUSTED, state.lastCloseCode));
        return;
      }
      var delay;
      if override.Some? {
        delay := override.value;
      } else {
        delay := MaxReal(
          NextReconnectDelay(config.base, config.cap, state.backoff, config.random(state.draws)), floor);
        state := state.(draws := state.draws + 1, beforeRetry := (state.attempt, state.backoff));
        state := state.(attempt := state.attempt + 1, backoff := state.backoff + 1, reserved := true);
      }
      state := state.(reconnectTimer := Some(Timer(state.generation, delay)));
    }

    // ---- events -----------------------------------------------------------------------------------

    method OnOpen(id: nat, wall: real)
      requires Settled(config, state) && Enabled(state, Opening(id, wall))
      modifies this
      ensures Reached(Opened(old(state), id, wall)) && Settled(config, state)
      ensures Onward()
    {
      OpenedSettles(config, state, id, wall);
      ghost var goal := Opened(state, id, wall);
      MarkOpen(id, wall);
      if state.ws != Some(id) { return; }
      assert state.(failure := None, status := goal.status) == goal;
      SetFailure(None);
      if state.ws != Some(id) { return; }
      if state.generation != goal.generation { ShowOpenSettles(config, state); }
      SetStatus(OpenStatus(state));
    }

    method MarkOpen(id: nat, wall: real)
      modifies `state
      ensures
        var s := old(state);
        state == if s.ws == Some(id) then Opened(s, id, wall).(failure := s.failure, status := s.status)
                 else Opened(s, id, wall)
    {
      Unarm(id);
      if state.ws != Some(id) { return; }
      state := state.(reserved := false, attempt := 0, backoff := 0);
      state := state.(advisory := None, lastServerMessage := wall);
    }

    // The handshake answered: its timer is off.
    method Unarm(id: nat)
      modifies `state
      ensures
        var s := old(state);
        state == s.(ready := s.ready[id := OPEN],
          attemptTimer := if s.attemptTimer == Some(id) then None else s.attemptTimer)
    {
      state := state.(ready := state.ready[id := OPEN]);
      if state.attemptTimer == Some(id) { state := state.(attemptTimer := None); }
    }

    // onmessage, as far as this machine is concerned: a drain advisory, or anything else.
    method OnMessage(id: nat, advised: Option<(real, real)>, wall: real)
      requires Settled(config, state)
      modifies `state
      ensures Reached(Received(old(state), id, advised, wall)) && Settled(config, state)
      ensures Onward()
    {
      if state.ws != Some(id) { return; }
      state := state.(lastServerMessage := wall);
      if advised.Some? && advised.value.1 > 0.0 {
        var after := MaxReal(advised.value.0, 0.0);
        var window := advised.value.1;
        state := state.(advisory := Some(Advisory(after, window, wall + after + window + ADVISORY_GRACE_MS)));
      }
    }

    // onclose. A closed connection holds no socket (Settled), so the source's branch for one is dead.
    method OnClose(id: nat, code: int, wall: real)
      requires Settled(config, state) && id in state.ready
      modifies this
      ensures Reached(SocketClosed(config, old(state), id, code, wall)) && Settled(config, state)
      ensures Onward()
    {
      SocketClosedSettles(config, state, id, code, wall);
      if state.ws == Some(id) { LoseSocketIsIdle(config, state, id, code); }
      state := DropSocket(state, id);
      if state.ws != Some(id) { return; }
      state := state.(reserved := false, ws := None);
      state := state.(lastCloseCode := code);
      assert state == LoseSocket(old(state), id, code);
      AnswerClose(code, wall);
    }

    method AnswerClose(code: int, wall: real)
      requires Coherent(config, state) && state.WakeSources() == 0 && !state.Halted() && config.hasUrl
        && !state.reserved
      requires state.lastCloseCode == code
      modifies this
      ensures Reached(AfterClose(config, old(state), code, wall)) && Settled(config, state)
      ensures Onward()
    {
      AfterCloseSettles(config, state, code, wall);
      var cls := ClassifyCloseCode(code);
      if cls == TERMINAL {
        Terminate(Failure(TERMINAL, code));
        return;
      }
      var advised := state.advisory;
      state := state.(advisory := None);
      if advised.Some? && wall < advised.value.deadline {
        Drain(advised.value);
        return;
      }
      if cls == THROTTLE { state := state.(backoff := Max(state.backoff, 5)); }
      FailAndRetry(Failure(cls, code), 0.0);
    }

    method Drain(advised: Advisory)
      requires Coherent(config, state) && state.WakeSources() == 0 && !state.Halted() && config.hasUrl
        && !state.reserved
      modifies this
      ensures Reached(Reconnect.Drain(config, old(state), advised)) && Settled(config, state)
      ensures Onward()
    {
      DrainSettles(config, state, advised);
      var g := state.generation;
      ghost var goal := state.(failure := Some(Failure(DRAIN, state.lastCloseCode)), attempt := 0, backoff := 0,
                               status := Disconnected);
      assert Idle(config, goal);
      SetFailure(Some(Failure(DRAIN, state.lastCloseCode)));
      if !CurrentAttempt(g) { return; }
      state := state.(attempt := 0, backoff := 0);
      assert state.(status := Disconnected) == goal;
      MoveOn(advised);
    }

    method MoveOn(advised: Advisory)
      requires Idle(config, state.(status := Disconnected)) && !state.reserved
      modifies this
      ensures Reached(Reconnect.ScheduleReconnect(config,
        old(state).(status := Disconnected, draws := old(state).draws + 1),
        Some(DispersedReconnectDelay(advised.afterMs, advised.windowMs, config.random(old(state).draws))), 0.0))
      ensures Settled(config, state)
      ensures Onward()
    {
      var g := state.generation;
      ScheduleSettles(config, state.(status := Disconnected, draws := state.draws + 1),
        Some(DispersedReconnectDelay(advised.afterMs, advised.windowMs, config.random(state.draws))), 0.0);
      SetStatus(Disconnected);
      if !CurrentAttempt(g) { return; }
      var random := config.random(state.draws);
      state := state.(draws := state.draws + 1);
      ScheduleReconnect(Some(DispersedReconnectDelay(advised.afterMs, advised.windowMs, random)), 0.0);
    }

    method FailAndRetry(cause: Failure, floor: real)
      requires Coherent(config, state) && state.WakeSources() == 0 && !state.Halted() && config.hasUrl
        && !state.reserved
      modifies this
      ensures Reached(Reconnect.ScheduleReconnect(config, old(state).(failure := Some(cause), status := Disconnected),
        None, floor))
      ensures Settled(config, state)
      ensures Onward()
    {
      var g := state.generation;
      ScheduleSettles(config, state.(failure := Some(cause), status := Disconnected), None, floor);
      SetFailure(Some(cause));
      if !CurrentAttempt(g) { return; }
      SetStatus(Disconnected);
      if CurrentAttempt(g) { ScheduleReconnect(None, floor); }
    }

    // As FailAndRetry, with the jump ahead in the backoff curve between the two notifications.
    method ThrottledRetry(cause: Failure, floor: real)
      requires Coherent(config, state) && state.WakeSources() == 0 && !state.Halted() && config.hasUrl
        && !state.reserved
      modifies this
      ensures Reached(Reconnect.ScheduleReconnect(config,
        old(state).(failure := Some(cause), backoff := Max(old(state).backoff, 5), status := Disconnected),
        None, floor))
      ensures Settled(config, state)
      ensures Onward()
    {
      var g := state.generation;
      ghost var goal := state.(failure := Some(cause), backoff := Max(state.backoff, 5), status := Disconnected);
      ScheduleSettles(config, goal, None, floor);
      SetFailure(Some(cause));
      if !CurrentAttempt(g) { return; }
      state := state.(backoff := Max(state.backoff, 5));
      assert state.(status := Disconnected) == goal;
      SetStatus(Disconnected);
      if CurrentAttempt(g) { ScheduleReconnect(None, floor); }
    }

    // The continuation of runAuth().
    method OnAuth(g: nat, result: AuthResult)
      requires Settled(config, state) && g in state.authPending
      modifies this
      ensures Reached(AuthSettled(config, old(state), g, result)) && Settled(config, state)
      ensures Onward()
    {
      AuthSettles(config, state, g, result);
      state := AuthLanded(state, g);
      if !CurrentAttempt(g) { return; }
      if !result.Accepted? { state := state.(reserved := false); }
      match result
      case Unauthorized(code) => Terminate(Failure(AUTH, code));
      case Throttled(code, retryAfterMs) => ThrottledRetry(Failure(THROTTLE, code), retryAfterMs);
      case Transient(code) => FailAndRetry(Failure(AUTH, code), 0.0);
      case Accepted => OpenSocket();
    }

    method OnTimer()
      requires Settled(config, state)
      modifies this
      ensures Reached(TimerFired(config, old(state))) && Settled(config, state)
      ensures Onward()
    {
      if state.reconnectTimer.None? { return; }
      if state.reconnectTimer.value.generation != state.generation { return; }
      state := state.(reconnectTimer := None);
      DoConnectSettles(config, state);
      DoConnect();
    }

    method OnHide(wall: real, mono: real)
      requires Settled(config, state)
      modifies this
      ensures Reached(Hide(old(state), wall, mono)) && Settled(config, state)
      ensures Onward()
    {
      HideSettles(config, state, wall, mono);
      state := state.(hidden := true);
      var slept := Slept(state, wall, mono);
      state := Restamp(state, wall, mono);
      if state.Halted() { return; }
      if state.Is(OPEN) {
        if slept {
          state := state.(attempt := 0, backoff := 0);
          DisconnectSocket();
          return;
        }
        SetStatus(Suspended);
      }
    }

    method OnShow(wall: real, mono: real)
      requires Settled(config, state)
      modifies this
      ensures Reached(Show(config, old(state), wall, mono)) && Settled(config, state)
      ensures Onward()
    {
      ShowSettles(config, state, wall, mono);
      state := state.(hidden := false);
      if state.Halted() { return; }
      if state.Is(OPEN) {
        var slept := Slept(state, wall, mono);
        state := Restamp(state, wall, mono);
        if slept {
          state := state.(attempt := 0, backoff := 0);
          DisconnectSocket();
          return;
        }
        SetStatus(Open);
        return;
      }
      RetryNow();
    }

    method RetryNow()
      requires Settled(config, state) && !state.Halted()
      modifies this
      ensures Reached(Reconnect.RetryNow(config, old(state))) && Settled(config, state)
      ensures Onward()
    {
      RetryNowSettles(config, state);
      state := state.(attempt := 0, backoff := 0);
      ClearReconnect(false);
      DoConnect();
    }

    method OnNetwork(online: bool)
      requires Settled(config, state)
      modifies this
      ensures Reached(if online then BrowserOnline(config, old(state)) else BrowserOffline(old(state)))
      ensures Settled(config, state) && Onward()
    {
      if state.Halted() { return; }
      if online {
        if state.Is(OPEN) { return; }
        RetryNow();
      } else if state.Is(OPEN) || state.Is(CONNECTING) {
        DisconnectSocket();
      } else {
        DropsSettle(config, state);
        SetStatus(Disconnected);
      }
    }

    method OnTick(wall: real, mono: real)
      requires Settled(config, state)
      modifies this
      ensures Reached(Tick(old(state), wall, mono)) && Settled(config, state)
      ensures Onward()
    {
      TickSettles(config, state, wall, mono);
      if state.Halted() { return; }
      var slept := Slept(state, wall, mono);
      var silence := wall - state.lastServerMessage;
      var throttled := wall - state.lastTick > ACTIVITY_INTERVAL_MS * 1.5;
      state := Restamp(state, wall, mono);
      state := state.(lastTick := wall);
      if state.Is(OPEN) && ((silence > SERVER_TIMEOUT_MS && !throttled) || slept) { DisconnectSocket(); }
    }

    method OnSocketEvent(e: Event)
      requires Settled(config, state) && Enabled(state, e)
      requires e.Opening? || e.Closing? || e.Closed? || e.Message? || e.AttemptTimeout?
      modifies this
      ensures Reached(Step(config, old(state), e)) && Settled(config, state)
      ensures Onward()
    {
      match e
      case Opening(id, wall) => OnOpen(id, wall);
      case Closing(id) => ClosingSettles(config, state, id); CloseHandle(Some(id));
      case Closed(id, code, wall) => OnClose(id, code, wall);
      case Message(id, advised, wall) => OnMessage(id, advised, wall);
      case AttemptTimeout(id) => if state.ws == Some(id) && state.Is(CONNECTING) { DisconnectSocket(); }
      case _ => assert false;
    }

    method OnPageEvent(e: Event)
      requires Settled(config, state) && Enabled(state, e)
      requires e.Hidden? || e.Visible? || e.NetworkLost? || e.NetworkBack? || e.Activity?
      modifies this
      ensures Reached(Step(config, old(state), e)) && Settled(config, state)
      ensures Onward()
    {
      match e
      case Hidden(wall, mono) => OnHide(wall, mono);
      case Visible(wall, mono) => OnShow(wall, mono);
      case NetworkLost => OnNetwork(false);
      case NetworkBack => OnNetwork(true);
      case Activity(wall, mono) => OnTick(wall, mono);
      case _ => assert false;
    }

    /** One event of any kind, with whatever re-entry the script holds. */
    method Deliver(e: Event)
      requires Settled(config, state) && Enabled(state, e)
      modifies this
      ensures Reached(Step(config, old(state), e)) && Settled(config, state)
      ensures Onward()
    {
      if e.Opening? || e.Closing? || e.Closed? || e.Message? || e.AttemptTimeout? {
        OnSocketEvent(e);
      } else if e.Hidden? || e.Visible? || e.NetworkLost? || e.NetworkBack? || e.Activity? {
        OnPageEvent(e);
      } else {
        match e
        case Auth(g, result) => OnAuth(g, result);
        case Reconnect => OnTimer();
        case Pause => PauseSettles(config, state); SimulateOffline();
        case Resume(wall, mono) => ResumeSettles(config, state, wall, mono); ResumeOnline(wall, mono);
        case CloseCall => Close();
        case _ => assert false;
      }
    }

    /**
     Any run: the events the environment offers, in any order, an event it cannot offer being
     skipped. The connection ends settled, and never comes back once closed or terminal.
     */
    method Drive(events: seq<Event>)
      requires Settled(config, state)
      modifies this
      ensures Settled(config, state) && Onward()
    {
      for i := 0 to |events|
        invariant Settled(config, state) && Onward()
      {
        if Enabled(state, events[i]) { Deliver(events[i]); }
      }
    }
  }
}
