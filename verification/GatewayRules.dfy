/** What each call and each event of the gateway client does to its socket, its timers and the
    browser's, for listeners that do not call back. */
module GatewayRules {
  import opened Wrappers
  import opened Powers
  import opened GatewayClient

  /** No callback is attached to a socket of before. */
  predicate AllDetached(s: State, t: State) {
    forall id :: id in s.sockets ==> id in t.sockets && !t.sockets[id].live
  }

  /** No timer of before runs for the client: neither a heartbeat nor the reconnect it held. */
  ghost predicate TimersStopped(s: State, t: State) {
    && t.intervals == {} && t.heartbeatTimer == None && t.reconnectTimer == None
    && (forall id: nat :: id in t.timeouts <==> id in s.timeouts && s.reconnectTimer != Some(id))
  }

  /** Exactly one new socket, to the given address and for the given token. */
  predicate DialsAnew(s: State, t: State, base: string, token: string) {
    && t.ws.Some? && t.ws.value !in s.sockets
    && t.sockets.Keys == s.sockets.Keys + {t.ws.value}
    && t.sockets[t.ws.value] == Socket(Connecting, true, base, token)
    && !t.isConnected
  }

  lemma DialRule(s: State)
    requires Core(s) && Truthy(s.token) && s.wsBase != ""
    ensures var t := Dialed(s);
            && DialsAnew(s, t, s.wsBase, s.token.value) && AllDetached(s, t) && TimersStopped(s, t)
            && t.token == s.token && t.wsBase == s.wsBase
            && t.reconnectAttempts == s.reconnectAttempts && t.log == s.log
  {}

  /** Connecting replaces whatever socket and timers there were and starts counting retries anew.
      Without an address or a token it only remembers the token. */
  lemma ConnectRule(s: State, token: string)
    requires Core(s)
    ensures var t := Called(s, Connect(token));
            && t.token == Some(token) && t.wsBase == s.wsBase && t.reconnectAttempts == 0
            && (token != "" && s.wsBase != "" ==>
                  DialsAnew(s, t, s.wsBase, token) && AllDetached(s, t) && TimersStopped(s, t))
            && (token == "" || s.wsBase == "" ==>
                  t == s.(token := Some(token), reconnectAttempts := 0, log := t.log))
  {
    hide Dialed, DialsAnew, AllDetached, TimersStopped;
    var s1 := s.(token := Some(token), reconnectAttempts := 0, log := s.log + [Reset]);
    if token != "" && s.wsBase != "" {
      DialRule(s1);
      DialSame(s, s1, Dialed(s1), token);
    } else {
      NoDial(s1);
    }
  }

  lemma NoDial(s: State)
    requires !Truthy(s.token) || s.wsBase == ""
    ensures Dialed(s) == s
  {}

  lemma DialSame(s: State, s1: State, t: State, token: string)
    requires s1.sockets == s.sockets && s1.timeouts == s.timeouts && s1.reconnectTimer == s.reconnectTimer
    requires DialsAnew(s1, t, s1.wsBase, token) && AllDetached(s1, t) && TimersStopped(s1, t)
    ensures DialsAnew(s, t, s1.wsBase, token) && AllDetached(s, t) && TimersStopped(s, t)
  {}

  /** Disconnecting leaves no socket, no heartbeat, no pending retry and no token. */
  lemma DisconnectRule(s: State)
    requires Core(s)
    ensures var t := Called(s, Disconnect);
            && t.token == None && t.wsBase == s.wsBase && t.ws == None && !t.isConnected
            && AllDetached(s, t) && t.sockets.Keys == s.sockets.Keys && TimersStopped(s, t)
  {}

  /** A new address is dialed at once if the client is signed in; an address that does not parse
      changes nothing. */
  lemma SetServerUrlRule(s: State, url: Url)
    requires Core(s)
    ensures var t := Called(s, SetServerUrl(Some(url)));
            var base := (if url.secure then "wss://" else "ws://") + url.host + "/ws";
            && t.wsBase == base && t.token == s.token && t.reconnectAttempts == s.reconnectAttempts
            && (s.token.Some? && s.token.value != "" ==>
                  DialsAnew(s, t, base, s.token.value) && AllDetached(s, t) && TimersStopped(s, t))
            && (s.token == None || s.token == Some("") ==> t == s.(wsBase := base))
    ensures Called(s, SetServerUrl(None)) == s
  {
    hide Dialed, Cleared, DialsAnew, AllDetached, TimersStopped;
    if Truthy(s.token) {
      var s1 := s.(wsBase := BaseOf(url));
      var c := Cleared(s1);
      CoreAnyBase(s, BaseOf(url));
      CleanupClears(s1);
      ClearRule(s1);
      DialRule(c);
      DialCleared(s, c, Dialed(c), BaseOf(url), s.token.value);
    }
  }

  lemma CoreAnyBase(s: State, base: string)
    requires Core(s) && base != ""
    ensures Core(s.(wsBase := base))
  {}

  lemma ClearRule(s: State)
    requires Core(s)
    ensures var c := Cleared(s);
            AllDetached(s, c) && TimersStopped(s, c) && c.sockets.Keys == s.sockets.Keys
  {}

  lemma DialCleared(s: State, c: State, t: State, base: string, token: string)
    requires AllDetached(s, c) && TimersStopped(s, c) && c.sockets.Keys == s.sockets.Keys
    requires DialsAnew(c, t, base, token) && AllDetached(c, t) && TimersStopped(c, t)
    ensures DialsAnew(s, t, base, token) && AllDetached(s, t) && TimersStopped(s, t)
  {}

  /** Once its socket is open the client is connected, with one new heartbeat, and counts retries anew. */
  lemma OpenRule(s: State, id: nat)
    requires Steady(s) && id in s.sockets && s.sockets[id].phase.Connecting? && s.sockets[id].live
    ensures var t := Step(s, Opens(id, Reaction([], false)));
            && t.isConnected && t.ws == Some(id) && id in t.sockets && t.sockets[id] == s.sockets[id].(phase := Open)
            && t.heartbeatTimer == Some(s.nextId) && t.intervals == {s.nextId}
            && t.reconnectAttempts == 0 && t.timeouts == s.timeouts && t.token == s.token
  {}

  /** The close of the client's socket stops the heartbeat and schedules one retry, if signed in. */
  lemma CloseRule(s: State, id: nat)
    requires Steady(s) && id in s.sockets && !s.sockets[id].phase.Closed? && s.sockets[id].live
    ensures var t := Step(s, Closes(id, Reaction([], false)));
            && !t.isConnected && t.heartbeatTimer == None && t.intervals == {} && t.token == s.token
            && (s.token.Some? && s.token.value != "" ==>
                  && t.reconnectTimer == Some(s.nextId) && t.timeouts == s.timeouts + {s.nextId}
                  && t.reconnectAttempts == s.reconnectAttempts + 1
                  && t.log == s.log + [Scheduled(Backoff(s.reconnectAttempts))])
            && (s.token == None || s.token == Some("") ==>
                  t.timeouts == s.timeouts && t.reconnectAttempts == s.reconnectAttempts && t.log == s.log)
  {
    hide Backoff;
  }

  /** The first retry after an opened socket is lost waits one second. */
  lemma FirstRetry(s: State, id: nat)
    requires Steady(s) && id in s.sockets && s.sockets[id].phase.Connecting? && s.sockets[id].live && Truthy(s.token)
    ensures var open := Step(s, Opens(id, Reaction([], false)));
            var lost := Step(open, Closes(id, Reaction([], false)));
            lost.log == open.log + [Scheduled(1000)] && lost.reconnectTimer == Some(s.nextId + 1)
  {
    hide Step, Steady;
    OpenRule(s, id);
    StepKeeps(s, Opens(id, Reaction([], false)));
    OpenNext(s, id);
    CloseRule(Step(s, Opens(id, Reaction([], false))), id);
    BackoffCeiling(0);
  }

  lemma OpenNext(s: State, id: nat)
    requires id in s.sockets && s.sockets[id].phase.Connecting? && s.sockets[id].live
    ensures Step(s, Opens(id, Reaction([], false))).nextId == s.nextId + 1
  {}

  /** A retry whose time has come dials again with the same token, address and count. */
  lemma RetryRule(s: State, timeout: nat)
    requires Steady(s) && timeout in s.timeouts && Truthy(s.token) && s.wsBase != ""
    ensures var t := Step(s, Fires(timeout));
            && DialsAnew(s, t, s.wsBase, s.token.value) && AllDetached(s, t)
            && timeout !in t.timeouts && t.intervals == {}
            && t.reconnectAttempts == s.reconnectAttempts && t.token == s.token
  {
    hide Dialed;
    DialRule(s.(timeouts := s.timeouts - {timeout}));
  }
}
