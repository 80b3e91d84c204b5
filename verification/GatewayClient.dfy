/** The browser's gateway client: one WebSocket, its heartbeat, and reconnection with back-off.
    Listeners run inside the socket's callbacks and may call the client again. */
module GatewayClient {
  import opened Powers
  import opened Wrappers

  // ---- Client and browser --------------------------------------------------------------

  datatype Phase = Connecting | Open | Closing | Closed

  /** `live` says that the client's callbacks are still attached. */
  datatype Socket = Socket(phase: Phase, live: bool, base: string, token: string)

  datatype Entry = Reset | Scheduled(delay: nat)

  datatype State = State(
    ws: Option<nat>,
    heartbeatTimer: Option<nat>,
    reconnectTimer: Option<nat>,
    reconnectAttempts: nat,
    token: Option<string>,
    isConnected: bool,
    wsBase: string,
    sockets: map<nat, Socket>,
    intervals: set<nat>,
    timeouts: set<nat>,
    nextId: nat,
    log: seq<Entry>)

  function Initial(wsBase: string): State {
    State(None, None, None, 0, None, false, wsBase, map[], {}, {}, 0, [])
  }

  datatype Url = Url(secure: bool, host: string)

  function BaseOf(u: Url): (base: string)
    ensures base != ""
    ensures u.secure ==> base == "wss://" + u.host + "/ws"
    ensures !u.secure ==> base == "ws://" + u.host + "/ws"
  {
    (if u.secure then "wss:" else "ws:") + "//" + u.host + "/ws"
  }

  /** The public calls that change the client; an address that does not parse throws. */
  datatype Call = Connect(token: string) | Disconnect | SetServerUrl(url: Option<Url>)

  /** What the listeners of one event do: the calls they make, and whether one of them throws. */
  datatype Reaction = Reaction(calls: seq<Call>, throws: bool)

  /** What the application calls and what the browser does. A socket may be closing for a while, by the
      closing handshake of the other side, before its close is announced. */
  datatype Event =
    | Do(call: Call)
    | Opens(socket: nat, reaction: Reaction)
    | Message(socket: nat, reaction: Reaction)
    | StartsClosing(socket: nat)
    | Closes(socket: nat, reaction: Reaction)
    | Fires(timeout: nat)

  predicate Truthy(token: Option<string>) { token.Some? && token.value != "" }

  function Backoff(k: nat): nat { if 1000 * Pow2(k) < 30000 then 1000 * Pow2(k) else 30000 }

  function WithoutHeartbeat(s: State): State {
    match s.heartbeatTimer
    case None => s
    case Some(h) => s.(heartbeatTimer := None, intervals := s.intervals - {h})
  }

  function WithHeartbeat(s: State): State {
    var s1 := WithoutHeartbeat(s);
    s1.(heartbeatTimer := Some(s1.nextId), intervals := s1.intervals + {s1.nextId}, nextId := s1.nextId + 1)
  }

  function StopReconnect(s: State): State {
    match s.reconnectTimer
    case None => s
    case Some(t) => s.(reconnectTimer := None, timeouts := s.timeouts - {t})
  }

  function Detached(k: Socket): Socket {
    k.(live := false, phase := if k.phase.Open? || k.phase.Connecting? then Closing else k.phase)
  }

  function DropSocket(s: State): State {
    match s.ws
    case None => s
    case Some(id) =>
      s.(ws := None, sockets := if id in s.sockets then s.sockets[id := Detached(s.sockets[id])] else s.sockets)
  }

  function Cleared(s: State): State { DropSocket(StopReconnect(WithoutHeartbeat(s))).(isConnected := false) }

  function Dialed(s: State): State {
    if !Truthy(s.token) || s.wsBase == "" then s
    else
      var s1 := Cleared(s);
      s1.(ws := Some(s1.nextId), nextId := s1.nextId + 1,
          sockets := s1.sockets[s1.nextId := Socket(Connecting, true, s1.wsBase, s1.token.value)])
  }

  function Rescheduled(s: State): State {
    if !Truthy(s.token) then s
    else s.(reconnectAttempts := s.reconnectAttempts + 1, reconnectTimer := Some(s.nextId),
            timeouts := s.timeouts + {s.nextId}, nextId := s.nextId + 1,
            log := s.log + [Scheduled(Backoff(s.reconnectAttempts))])
  }

  function Called(s: State, c: Call): State {
    match c
    case Connect(token) => Dialed(s.(token := Some(token), reconnectAttempts := 0, log := s.log + [Reset]))
    case Disconnect => Cleared(s.(token := None))
    case SetServerUrl(None) => s
    case SetServerUrl(Some(url)) =>
      var s1 := s.(wsBase := BaseOf(url));
      if Truthy(s.token) then Dialed(Cleared(s1)) else s1
  }

  function Heard(s: State, calls: seq<Call>): State
    decreases |calls|
  {
    if calls == [] then s else Heard(Called(s, calls[0]), calls[1..])
  }

  function SetPhase(s: State, id: nat, phase: Phase): State
    requires id in s.sockets
  {
    s.(sockets := s.sockets[id := s.sockets[id].(phase := phase)])
  }

  function Opened(s: State): State {
    WithHeartbeat(s.(isConnected := true, reconnectAttempts := 0, log := s.log + [Reset]))
  }

  function Lost(s: State): State { WithoutHeartbeat(s.(isConnected := false)) }

  function Step(s: State, e: Event): State {
    match e
    case Do(call) => Called(s, call)
    case Opens(id, r) =>
      if id !in s.sockets || !s.sockets[id].phase.Connecting? then s
      else if !s.sockets[id].live then SetPhase(s, id, Open)
      else Heard(Opened(SetPhase(s, id, Open)), r.calls)
    case Message(id, r) =>
      if id !in s.sockets || !s.sockets[id].phase.Open? || !s.sockets[id].live then s else Heard(s, r.calls)
    case StartsClosing(id) =>
      if id !in s.sockets || !s.sockets[id].phase.Open? then s else SetPhase(s, id, Closing)
    case Closes(id, r) =>
      if id !in s.sockets || s.sockets[id].phase.Closed? then s
      else if !s.sockets[id].live then SetPhase(s, id, Closed)
      else
        var s1 := Heard(Lost(SetPhase(s, id, Closed)), r.calls);
        if r.throws then s1 else Rescheduled(s1)
    case Fires(t) => if t !in s.timeouts then s else Dialed(s.(timeouts := s.timeouts - {t}))
  }

  function Run(s: State, es: seq<Event>): State
    decreases |es|
  {
    if es == [] then s else Run(Step(s, es[0]), es[1..])
  }

  // ---- The client ------------------------------------------------------------------------------

  /** The client's fields, and beside them the browser's sockets and timers. `log` is kept for the
      proofs only. */
  class WebSocketClient {
    var ws: Option<nat>
    var heartbeatTimer: Option<nat>
    var reconnectTimer: Option<nat>
    var reconnectAttempts: nat
    var token: Option<string>
    var isConnected: bool
    var wsBase: string
    var sockets: map<nat, Socket>
    var intervals: set<nat>
    var timeouts: set<nat>
    var nextId: nat
    ghost var log: seq<Entry>

    ghost function Value(): State
      reads this
    {
      State(ws, heartbeatTimer, reconnectTimer, reconnectAttempts, token, isConnected, wsBase,
            sockets, intervals, timeouts, nextId, log)
    }

    constructor (wsBase: string)
      ensures Value() == Initial(wsBase)
    {
      ws, heartbeatTimer, reconnectTimer, reconnectAttempts, token, isConnected := None, None, None, 0, None, false;
      this.wsBase := wsBase;
      sockets, intervals, timeouts, nextId, log := map[], {}, {}, 0, [];
    }

    method StopHeartbeat()
      modifies this`heartbeatTimer, this`intervals
      ensures Value() == WithoutHeartbeat(old(Value()))
    {
      if heartbeatTimer.Some? {
        intervals := intervals - {heartbeatTimer.value};
        heartbeatTimer := None;
      }
    }

    method StartHeartbeat()
      modifies this
      ensures Value() == WithHeartbeat(old(Value()))
    {
      StopHeartbeat();
      intervals, heartbeatTimer, nextId := intervals + {nextId}, Some(nextId), nextId + 1;
    }

    method Cleanup()
      modifies this
      ensures Value() == Cleared(old(Value()))
    {
      StopHeartbeat();
      if reconnectTimer.Some? {
        timeouts := timeouts - {reconnectTimer.value};
        reconnectTimer := None;
      }
      if ws.Some? {
        if ws.value in sockets {
          var socket := sockets[ws.value].(live := false);
          if socket.phase.Open? || socket.phase.Connecting? {
            socket := socket.(phase := Closing);
          }
          sockets := sockets[ws.value := socket];
        }
        ws := None;
      }
      isConnected := false;
    }

    method DoConnect()
      modifies this
      ensures Value() == Dialed(old(Value()))
    {
      hide Cleared;
      ClearedKeepsLog(Value());
      if token.None? || token.value == "" { return; }
      if wsBase == "" { return; }
      Cleanup();
      sockets := sockets[nextId := Socket(Connecting, true, wsBase, token.value)];
      ws, nextId := Some(nextId), nextId + 1;
    }

    method ScheduleReconnect()
      modifies this
      ensures Value() == Rescheduled(old(Value()))
    {
      if token.None? || token.value == "" { return; }
      var delay := Backoff(reconnectAttempts);
      reconnectAttempts := reconnectAttempts + 1;
      timeouts, reconnectTimer, nextId := timeouts + {nextId}, Some(nextId), nextId + 1;
      log := log + [Scheduled(delay)];
    }

    method Connect(token: string)
      modifies this
      ensures Value() == Called(old(Value()), Call.Connect(token))
    {
      hide Dialed;
      this.token := Some(token);
      reconnectAttempts := 0;
      log := log + [Reset];
      DoConnect();
    }

    method Disconnect()
      modifies this
      ensures Value() == Called(old(Value()), Call.Disconnect)
    {
      hide Cleared;
      token := None;
      Cleanup();
    }

    method SetServerUrl(url: Option<Url>)
      modifies this
      ensures Value() == Called(old(Value()), Call.SetServerUrl(url))
    {
      hide Cleared, Dialed, BaseOf;
      if url.None? { return; }
      wsBase := BaseOf(url.value);
      if token.Some? && token.value != "" {
        Cleanup();
        DoConnect();
      }
    }

    /** The listeners of one event run one after the other. */
    method Emit(calls: seq<Call>)
      modifies this
      ensures Value() == Heard(old(Value()), calls)
    {
      hide Called;
      var i := 0;
      assert calls[0..] == calls;
      while i < |calls|
        invariant i <= |calls|
        invariant Heard(old(Value()), calls) == Heard(Value(), calls[i..])
      {
        assert calls[i..][1..] == calls[i + 1..];
        match calls[i] {
          case Connect(t) => Connect(t);
          case Disconnect => Disconnect();
          case SetServerUrl(url) => SetServerUrl(url);
        }
        i := i + 1;
      }
    }

    /** One event of the browser or of the application. */
    method Handle(e: Event)
      modifies this
      ensures Value() == Step(old(Value()), e)
    {
      hide Heard, Called, Dialed, Rescheduled;
      match e {
        case Do(call) =>
          match call {
            case Connect(t) => Connect(t);
            case Disconnect => Disconnect();
            case SetServerUrl(url) => SetServerUrl(url);
          }
        case Opens(id, r) =>
          if id in sockets && sockets[id].phase.Connecting? {
            var live := sockets[id].live;
            sockets := sockets[id := sockets[id].(phase := Open)];
            if live {
              isConnected := true;
              reconnectAttempts := 0;
              log := log + [Reset];
              StartHeartbeat();
              Emit(r.calls);
            }
          }
        case Message(id, r) =>
          if id in sockets && sockets[id].phase.Open? && sockets[id].live {
            Emit(r.calls);
          }
        case StartsClosing(id) =>
          if id in sockets && sockets[id].phase.Open? {
            sockets := sockets[id := sockets[id].(phase := Closing)];
          }
        case Closes(id, r) =>
          if id in sockets && !sockets[id].phase.Closed? {
            var live := sockets[id].live;
            sockets := sockets[id := sockets[id].(phase := Closed)];
            if live {
              isConnected := false;
              StopHeartbeat();
              Emit(r.calls);
              if !r.throws {
                ScheduleReconnect();
              }
            }
          }
        case Fires(t) =>
          if t in timeouts {
            timeouts := timeouts - {t};
            DoConnect();
          }
      }
    }
  }

  // ---- What holds whatever the listeners do -----------------------------------------------

  /** Only the client's own socket has callbacks attached. */
  predicate OneSocket(s: State) {
    && (forall id :: id in s.sockets && s.sockets[id].live ==> s.ws == Some(id))
    && (s.ws.Some? ==> s.ws.value in s.sockets && s.sockets[s.ws.value].live)
  }

  /** The socket has opened, and its close has not been announced. */
  predicate IsUp(s: State) {
    s.ws.Some? && s.ws.value in s.sockets
    && (s.sockets[s.ws.value].phase.Open? || s.sockets[s.ws.value].phase.Closing?)
  }

  /** The running heartbeats are the held one, and it runs from the opening of the socket until its close
      is announced. */
  predicate OneHeartbeat(s: State) {
    && s.intervals == (if s.heartbeatTimer.Some? then {s.heartbeatTimer.value} else {})
    && (s.isConnected <==> s.heartbeatTimer.Some?)
    && (s.isConnected <==> IsUp(s))
  }

  predicate OldIds(s: State) {
    && (forall id :: id in s.sockets ==> id < s.nextId)
    && (forall id :: id in s.intervals ==> id < s.nextId)
    && (forall id :: id in s.timeouts ==> id < s.nextId)
    && (s.reconnectTimer.Some? ==> s.reconnectTimer.value < s.nextId)
  }

  predicate Idle(s: State) { s.wsBase == "" ==> s.ws.None? && s.timeouts == {} }

  /** The socket belongs to the account and the server the client is set to. */
  predicate OwnAccount(s: State) {
    s.ws.Some? && Truthy(s.token) && s.ws.value in s.sockets ==>
      s.sockets[s.ws.value].token == s.token.value && s.sockets[s.ws.value].base == s.wsBase
  }

  predicate Core(s: State) { OneSocket(s) && OneHeartbeat(s) && OldIds(s) && Idle(s) }

  predicate Steady(s: State) { Core(s) && OwnAccount(s) && (s.token.None? ==> s.ws.None?) }

  lemma CleanupClears(s: State)
    requires Core(s)
    ensures var c := Cleared(s);
            && Core(c) && c.ws.None? && c.heartbeatTimer.None? && c.reconnectTimer.None? && !c.isConnected
            && c.timeouts == s.timeouts - (if s.reconnectTimer.Some? then {s.reconnectTimer.value} else {})
            && c.token == s.token && c.wsBase == s.wsBase
            && c.log == s.log && c.reconnectAttempts == s.reconnectAttempts
  {}

  lemma DialedKeeps(s: State)
    requires Core(s)
    ensures Core(Dialed(s)) && OwnAccount(Dialed(s))
    ensures !Truthy(s.token) ==> Dialed(s) == s
    ensures Dialed(s).token == s.token && Dialed(s).wsBase == s.wsBase
    ensures Dialed(s).log == s.log && Dialed(s).reconnectAttempts == s.reconnectAttempts
  {
    hide Cleared;
    CleanupClears(s);
  }

  lemma CalledKeeps(s: State, c: Call)
    requires Steady(s)
    ensures Steady(Called(s, c))
  {
    hide Cleared, Dialed;
    match c {
      case Connect(token) => DialedKeeps(s.(token := Some(token), reconnectAttempts := 0, log := s.log + [Reset]));
      case Disconnect => CleanupClears(s.(token := None));
      case SetServerUrl(None) =>
      case SetServerUrl(Some(url)) =>
        var s1 := s.(wsBase := BaseOf(url));
        CleanupClears(s1);
        DialedKeeps(Cleared(s1));
    }
  }

  lemma {:induction false} HeardKeeps(s: State, calls: seq<Call>)
    requires Steady(s)
    ensures Steady(Heard(s, calls))
    decreases |calls|
  {
    hide Steady, Called;
    if calls != [] {
      CalledKeeps(s, calls[0]);
      HeardKeeps(Called(s, calls[0]), calls[1..]);
    }
  }

  lemma DetachedKeeps(s: State, id: nat, phase: Phase)
    requires Steady(s) && id in s.sockets && !s.sockets[id].live
    ensures Steady(SetPhase(s, id, phase))
  {}

  lemma OpenedKeeps(s: State, id: nat)
    requires Steady(s) && id in s.sockets && s.sockets[id].phase.Connecting? && s.sockets[id].live
    ensures Steady(Opened(SetPhase(s, id, Open)))
  {}

  lemma ClosingKeeps(s: State, id: nat)
    requires Steady(s) && id in s.sockets && s.sockets[id].phase.Open?
    ensures Steady(SetPhase(s, id, Closing))
    ensures SetPhase(s, id, Closing).timeouts == s.timeouts && InProgress(SetPhase(s, id, Closing)) == InProgress(s)
    ensures OneReconnect(s) ==> OneReconnect(SetPhase(s, id, Closing))
  {}

  lemma LostKeeps(s: State, id: nat)
    requires Steady(s) && id in s.sockets && s.sockets[id].live
    ensures Steady(Lost(SetPhase(s, id, Closed)))
  {}

  lemma ScheduleKeeps(s: State)
    requires Steady(s) && s.wsBase != ""
    ensures Steady(Rescheduled(s))
  {}

  lemma {:induction false} HeardKeepsBase(s: State, calls: seq<Call>)
    requires s.wsBase != ""
    ensures Heard(s, calls).wsBase != ""
    decreases |calls|
  {
    if calls != [] {
      HeardKeepsBase(Called(s, calls[0]), calls[1..]);
    }
  }

  lemma StepKeeps(s: State, e: Event)
    requires Steady(s)
    ensures Steady(Step(s, e))
  {
    hide Opened, Lost, Rescheduled, Dialed, Heard, Called;
    match e {
      case Do(call) => CalledKeeps(s, call);
      case Opens(id, r) =>
        if id in s.sockets && s.sockets[id].phase.Connecting? {
          if s.sockets[id].live {
            OpenedKeeps(s, id);
            HeardKeeps(Opened(SetPhase(s, id, Open)), r.calls);
          } else {
            DetachedKeeps(s, id, Open);
          }
        }
      case Message(id, r) => HeardKeeps(s, r.calls);
      case StartsClosing(id) =>
        if id in s.sockets && s.sockets[id].phase.Open? { ClosingKeeps(s, id); }
      case Closes(id, r) =>
        if id in s.sockets && !s.sockets[id].phase.Closed? {
          if s.sockets[id].live {
            var s1 := Lost(SetPhase(s, id, Closed));
            LostKeeps(s, id);
            HeardKeeps(s1, r.calls);
            LostBase(SetPhase(s, id, Closed));
            HeardKeepsBase(s1, r.calls);
            ScheduleKeeps(Heard(s1, r.calls));
          } else {
            DetachedKeeps(s, id, Closed);
          }
        }
      case Fires(t) => DialedKeeps(s.(timeouts := s.timeouts - {t}));
    }
  }

  lemma LostBase(s: State)
    ensures Lost(s).wsBase == s.wsBase && Lost(s).token == s.token && Lost(s).ws == s.ws && Lost(s).sockets == s.sockets
    ensures Lost(s).timeouts == s.timeouts && Lost(s).log == s.log && Lost(s).reconnectAttempts == s.reconnectAttempts
  {}

  /** In every run, whatever listeners do: at most one socket with callbacks, at most one heartbeat,
      connected exactly while that heartbeat runs, which is from the opening of the socket until its
      close is announced. */
  lemma {:induction false} AlwaysSteady(wsBase: string, es: seq<Event>)
    ensures Steady(Run(Initial(wsBase), es))
  {
    RunKeeps(Initial(wsBase), es);
  }

  lemma {:induction false} RunKeeps(s: State, es: seq<Event>)
    requires Steady(s)
    ensures Steady(Run(s, es))
    decreases |es|
  {
    hide Steady, Step;
    if es != [] {
      StepKeeps(s, es[0]);
      RunKeeps(Step(s, es[0]), es[1..]);
    }
  }

  // ---- One reconnect timer ------------------------------------------------------------------

  predicate AtRest(s: State) { s.ws.Some? && s.ws.value in s.sockets && s.sockets[s.ws.value].phase.Closed? }

  predicate InProgress(s: State) { s.ws.Some? && s.ws.value in s.sockets && !s.sockets[s.ws.value].phase.Closed? }

  /** No reconnect is pending but the held one, and only while the socket is closed. */
  predicate OneReconnect(s: State) {
    s.timeouts != {} ==> s.reconnectTimer.Some? && s.timeouts == {s.reconnectTimer.value} && AtRest(s)
  }

  /** From a closed socket: the token after the listeners' calls, and whether they opened a new socket. */
  function Renewal(token: Option<string>, anew: bool, calls: seq<Call>): (Option<string>, bool)
    decreases |calls|
  {
    if calls == [] then (token, anew)
    else match calls[0]
      case Connect(t) => Renewal(Some(t), anew || Truthy(Some(t)), calls[1..])
      case Disconnect => Renewal(None, false, calls[1..])
      case SetServerUrl(None) => Renewal(token, anew, calls[1..])
      case SetServerUrl(Some(_)) => Renewal(token, anew || Truthy(token), calls[1..])
  }

  predicate Renews(token: Option<string>, calls: seq<Call>) {
    var (t, anew) := Renewal(token, false, calls);
    Truthy(t) && anew
  }

  predicate Drops(s: State, e: Event) {
    e.Closes? && e.socket in s.sockets && !s.sockets[e.socket].phase.Closed? && s.sockets[e.socket].live
  }

  lemma CalledKeepsReconnect(s: State, c: Call)
    requires Steady(s) && OneReconnect(s)
    ensures OneReconnect(Called(s, c))
    ensures s.timeouts == {} ==> Called(s, c).timeouts == {}
  {}

  lemma {:induction false} HeardKeepsReconnect(s: State, calls: seq<Call>)
    requires Steady(s) && OneReconnect(s)
    ensures OneReconnect(Heard(s, calls))
    decreases |calls|
  {
    hide Steady, OneReconnect, Called;
    if calls != [] {
      CalledKeeps(s, calls[0]);
      CalledKeepsReconnect(s, calls[0]);
      HeardKeepsReconnect(Called(s, calls[0]), calls[1..]);
    }
  }

  /** The state between the close of a socket and the end of its callback. */
  predicate Announcing(s: State, anew: bool) {
    && s.wsBase != "" && s.timeouts == {}
    && (anew <==> s.ws.Some? && s.ws.value in s.sockets && s.sockets[s.ws.value].phase.Connecting?)
    && (Truthy(s.token) && !anew ==> AtRest(s))
  }

  lemma CalledAfterClose(s: State, c: Call, anew: bool)
    requires Steady(s) && Announcing(s, anew)
    ensures var (t, a) := Renewal(s.token, anew, [c]);
            Called(s, c).token == t && Announcing(Called(s, c), a)
  {
    hide Cleared, Dialed;
    assert [c][1..] == [];
    match c {
      case Connect(token) =>
        DialedStarts(s.(token := Some(token), reconnectAttempts := 0, log := s.log + [Reset]));
      case Disconnect => CleanupClears(s.(token := None));
      case SetServerUrl(None) =>
      case SetServerUrl(Some(url)) =>
        var s1 := s.(wsBase := BaseOf(url));
        CleanupClears(s1);
        DialedStarts(Cleared(s1));
    }
  }

  lemma DialedStarts(s: State)
    requires Core(s) && s.timeouts == {} && s.wsBase != ""
    ensures var s1 := Dialed(s);
            && s1.timeouts == {} && s1.token == s.token && s1.wsBase == s.wsBase
            && if Truthy(s.token) then
                 s1.ws.Some? && s1.ws.value in s1.sockets && s1.sockets[s1.ws.value].phase.Connecting?
               else s1 == s
  {
    hide Cleared;
    CleanupClears(s);
  }

  lemma {:induction false} HeardAfterClose(s: State, calls: seq<Call>, anew: bool)
    requires Steady(s) && Announcing(s, anew)
    ensures var (t, a) := Renewal(s.token, anew, calls);
            Heard(s, calls).token == t && Announcing(Heard(s, calls), a)
    decreases |calls|
  {
    hide Steady, Called, Announcing;
    if calls != [] {
      CalledKeeps(s, calls[0]);
      CalledAfterClose(s, calls[0], anew);
      assert [calls[0]][1..] == [];
      HeardAfterClose(Called(s, calls[0]), calls[1..], Renewal(s.token, anew, [calls[0]]).1);
    }
  }

  /** What the close of the client's socket ends in. */
  lemma AfterDrop(s: State, e: Event)
    requires Steady(s) && OneReconnect(s) && Drops(s, e)
    ensures var (t, anew) := Renewal(s.token, false, e.reaction.calls);
            var s1 := Heard(Lost(SetPhase(s, e.socket, Closed)), e.reaction.calls);
            && Steady(s1) && s1.token == t && Announcing(s1, anew)
            && Step(s, e) == if e.reaction.throws then s1 else Rescheduled(s1)
  {
    hide Heard, Called, Renewal;
    var s0 := Lost(SetPhase(s, e.socket, Closed));
    LostKeeps(s, e.socket);
    LostBase(SetPhase(s, e.socket, Closed));
    assert Announcing(s0, false);
    HeardAfterClose(s0, e.reaction.calls, false);
    HeardKeeps(s0, e.reaction.calls);
  }

  /** The one step after which more than the held reconnect can be pending, or one is pending beside
      a socket in use: a socket closes and a listener of that very event reconnects. */
  lemma OneReconnectStaysIff(s: State, e: Event)
    requires Steady(s) && OneReconnect(s)
    ensures OneReconnect(Step(s, e))
            <==> !(Drops(s, e) && !e.reaction.throws && Renews(s.token, e.reaction.calls))
  {
    hide Heard, Called, Renewal, Lost, Opened, Dialed;
    if Drops(s, e) {
      AfterDrop(s, e);
    } else {
      match e {
        case Do(call) => CalledKeepsReconnect(s, call);
        case Opens(id, r) =>
          if id in s.sockets && s.sockets[id].phase.Connecting? && s.sockets[id].live {
            OpenedKeeps(s, id);
            OpenedTimers(SetPhase(s, id, Open));
            HeardKeepsReconnect(Opened(SetPhase(s, id, Open)), r.calls);
          }
        case Message(id, r) => HeardKeepsReconnect(s, r.calls);
        case StartsClosing(id) =>
          if id in s.sockets && s.sockets[id].phase.Open? { ClosingKeeps(s, id); }
        case Closes(id, r) =>
        case Fires(t) =>
          if t in s.timeouts {
            assert s.timeouts - {t} == {};
            DialedKeepsNone(s.(timeouts := s.timeouts - {t}));
          }
      }
    }
  }

  lemma OpenedTimers(s: State)
    ensures Opened(s).timeouts == s.timeouts && Opened(s).token == s.token && Opened(s).ws == s.ws
    ensures Opened(s).sockets == s.sockets && Opened(s).wsBase == s.wsBase
  {}

  lemma DialedKeepsNone(s: State)
    requires Core(s) && s.timeouts == {}
    ensures Dialed(s).timeouts == {}
  {}

  predicate NoRenewals(s: State, es: seq<Event>)
    decreases |es|
  {
    es == []
    || (!(Drops(s, es[0]) && !es[0].reaction.throws && Renews(s.token, es[0].reaction.calls))
        && NoRenewals(Step(s, es[0]), es[1..]))
  }

  /** As long as no listener reconnects while the close is announced, no reconnect timer leaks, none
      is pending beside a socket in use, and without a token nothing is pending at all. */
  lemma NoTimerLeaks(wsBase: string, es: seq<Event>)
    requires NoRenewals(Initial(wsBase), es)
    ensures OneReconnect(Run(Initial(wsBase), es))
    ensures var s := Run(Initial(wsBase), es); s.token.None? ==> s.ws.None? && s.timeouts == {}
  {
    AlwaysSteady(wsBase, es);
    RunKeepsReconnect(Initial(wsBase), es);
  }

  lemma {:induction false} RunKeepsReconnect(s: State, es: seq<Event>)
    requires Steady(s) && OneReconnect(s) && NoRenewals(s, es)
    ensures OneReconnect(Run(s, es))
    decreases |es|
  {
    hide Steady, OneReconnect, Step, Drops, Renews;
    if es != [] {
      StepKeeps(s, es[0]);
      OneReconnectStaysIff(s, es[0]);
      RunKeepsReconnect(Step(s, es[0]), es[1..]);
    }
  }

  /** The condition is needed: after such a step, a plain close leaves a second timer pending that the
      client does not hold, and that disconnecting does not stop. */
  lemma RenewingListenerLeaks(s: State, e: Event)
    requires Steady(s) && OneReconnect(s)
    requires Drops(s, e) && !e.reaction.throws && Renews(s.token, e.reaction.calls)
    ensures var s1 := Step(s, e);
            && s1.ws.Some?
            && var s2 := Step(s1, Closes(s1.ws.value, Reaction([], false)));
            && (exists t :: t in s2.timeouts && s2.reconnectTimer != Some(t))
            && Step(s2, Do(Disconnect)).timeouts != {} && Step(s2, Do(Disconnect)).token.None?
  {
    hide Heard, Called, Renewal;
    AfterDrop(s, e);
    var s1 := Step(s, e);
    var t := s1.reconnectTimer.value;
    SecondCloseLeaks(s1, t);
  }

  /** Such a step exists: a listener that signs in again when told of the close is enough. */
  lemma ListenerCanRenew(wsBase: string, token: string)
    requires wsBase != "" && token != ""
    ensures var s := Step(Initial(wsBase), Do(Connect(token)));
            var e := Closes(0, Reaction([Connect(token)], false));
            && Steady(s) && OneReconnect(s) && Drops(s, e) && Renews(s.token, e.reaction.calls)
            && !OneReconnect(Step(s, e))
  {
    var s0 := Initial(wsBase);
    var s := Step(s0, Do(Connect(token)));
    var e := Closes(0, Reaction([Connect(token)], false));
    StepKeeps(s0, Do(Connect(token)));
    CalledKeepsReconnect(s0, Connect(token));
    assert [Connect(token)][1..] == [];
    OneReconnectStaysIff(s, e);
  }

  lemma SecondCloseLeaks(s: State, t: nat)
    requires InProgress(s) && Truthy(s.token) && t in s.timeouts && t < s.nextId && s.reconnectTimer == Some(t)
    requires s.sockets[s.ws.value].live && s.heartbeatTimer.None?
    ensures var s2 := Step(s, Closes(s.ws.value, Reaction([], false)));
            && t in s2.timeouts && s2.reconnectTimer != Some(t)
            && t in Step(s2, Do(Disconnect)).timeouts && Step(s2, Do(Disconnect)).token.None?
  {
    hide Cleared, Backoff;
    var id := s.ws.value;
    var s0 := SetPhase(s, id, Closed);
    assert Lost(s0) == s0.(isConnected := false);
    assert Heard(Lost(s0), []) == Lost(s0);
    var s2 := Rescheduled(Lost(s0));
    assert Step(s, Closes(id, Reaction([], false))) == s2;
    ClearedTimers(s2.(token := None));
  }

  lemma ClearedTimers(s: State)
    ensures Cleared(s).timeouts == s.timeouts - (if s.reconnectTimer.Some? then {s.reconnectTimer.value} else {})
    ensures Cleared(s).token == s.token
  {}

  // ---- Never giving up -----------------------------------------------------------------------

  /** A signed-in client with a server is connected, connecting, or about to reconnect. */
  predicate Trying(s: State) { Truthy(s.token) && s.wsBase != "" ==> s.timeouts != {} || InProgress(s) }

  lemma CalledKeepsTrying(s: State, c: Call)
    requires Trying(s)
    ensures Trying(Called(s, c))
  {
    hide Cleared, BaseOf, Dialed;
    match c {
      case Connect(token) =>
        var s1 := s.(token := Some(token), reconnectAttempts := 0, log := s.log + [Reset]);
        DialedTries(s1);
      case Disconnect => ClearedTimers(s.(token := None));
      case SetServerUrl(None) =>
      case SetServerUrl(Some(url)) =>
        var s1 := s.(wsBase := BaseOf(url));
        ClearedKeepsLog(s1);
        DialedTries(Cleared(s1));
    }
  }

  lemma DialedTries(s: State)
    ensures Trying(Dialed(s))
  {
    hide Cleared;
  }

  lemma {:induction false} HeardKeepsTrying(s: State, calls: seq<Call>)
    requires Trying(s)
    ensures Trying(Heard(s, calls))
    decreases |calls|
  {
    hide Trying, Called;
    if calls != [] {
      CalledKeepsTrying(s, calls[0]);
      HeardKeepsTrying(Called(s, calls[0]), calls[1..]);
    }
  }

  predicate Throws(e: Event) { e.Closes? && e.reaction.throws }

  lemma StepKeepsTrying(s: State, e: Event)
    requires Steady(s) && Trying(s) && !Throws(e)
    ensures Trying(Step(s, e))
  {
    hide Heard, Called, Lost, Opened, Cleared;
    match e {
      case Do(call) => CalledKeepsTrying(s, call);
      case Opens(id, r) =>
        if id in s.sockets && s.sockets[id].phase.Connecting? && s.sockets[id].live {
          OpenedTimers(SetPhase(s, id, Open));
          HeardKeepsTrying(Opened(SetPhase(s, id, Open)), r.calls);
        }
      case Message(id, r) => HeardKeepsTrying(s, r.calls);
      case StartsClosing(id) =>
        if id in s.sockets && s.sockets[id].phase.Open? { ClosingKeeps(s, id); }
      case Closes(id, r) =>
      case Fires(t) =>
    }
  }

  /** As long as no listener of a close throws, a signed-in client never gives up. */
  lemma {:induction false} NeverGivesUp(s: State, es: seq<Event>)
    requires Steady(s) && Trying(s) && forall i :: 0 <= i < |es| ==> !Throws(es[i])
    ensures Trying(Run(s, es))
    decreases |es|
  {
    hide Steady, Trying, Step;
    if es != [] {
      StepKeeps(s, es[0]);
      StepKeepsTrying(s, es[0]);
      NeverGivesUp(Step(s, es[0]), es[1..]);
    }
  }

  /** A listener that throws while the close is announced stops the retries exactly when the
      listeners before it left the client signed in on the closed socket. */
  lemma ThrowingListenerGivesUpIff(s: State, e: Event)
    requires Steady(s) && OneReconnect(s) && Drops(s, e) && e.reaction.throws
    ensures Trying(Step(s, e))
            <==> !(var (t, anew) := Renewal(s.token, false, e.reaction.calls); Truthy(t) && !anew)
  {
    hide Heard, Called, Renewal;
    AfterDrop(s, e);
  }

  /** Such a step exists: a listener that throws when told of the first close. */
  lemma ListenerCanGiveUp(wsBase: string, token: string)
    requires wsBase != "" && token != ""
    ensures var s := Step(Initial(wsBase), Do(Connect(token)));
            var e := Closes(0, Reaction([], true));
            && Steady(s) && OneReconnect(s) && Trying(s) && Drops(s, e) && !Trying(Step(s, e))
  {
    var s0 := Initial(wsBase);
    var s := Step(s0, Do(Connect(token)));
    StepKeeps(s0, Do(Connect(token)));
    CalledKeepsReconnect(s0, Connect(token));
    CalledKeepsTrying(s0, Connect(token));
    ThrowingListenerGivesUpIff(s, Closes(0, Reaction([], true)));
  }

  // ---- Back-off --------------------------------------------------------------------------------

  /** Closes that scheduled a reconnect since the last open or connect. */
  function Since(log: seq<Entry>): nat {
    if log == [] || log[|log| - 1].Reset? then 0 else Since(log[..|log| - 1]) + 1
  }

  predicate Delays(log: seq<Entry>) {
    forall i :: 0 <= i < |log| && log[i].Scheduled? ==> log[i].delay == Backoff(Since(log[..i]))
  }

  predicate Logged(s: State) { s.reconnectAttempts == Since(s.log) && Delays(s.log) }

  lemma LogReset(log: seq<Entry>)
    requires Delays(log)
    ensures Delays(log + [Reset]) && Since(log + [Reset]) == 0
  {
    hide Since, Backoff;
    var after := log + [Reset];
    forall i | 0 <= i < |after| && after[i].Scheduled?
      ensures after[i].delay == Backoff(Since(after[..i]))
    {
      assert after[..i] == log[..i];
    }
    SinceLast(after);
  }

  lemma SinceLast(log: seq<Entry>)
    requires log != []
    ensures Since(log) == if log[|log| - 1].Reset? then 0 else Since(log[..|log| - 1]) + 1
  {}

  lemma LogScheduled(log: seq<Entry>)
    requires Delays(log)
    ensures var after := log + [Scheduled(Backoff(Since(log)))]; Delays(after) && Since(after) == Since(log) + 1
  {
    hide Since, Backoff;
    var after := log + [Scheduled(Backoff(Since(log)))];
    forall i | 0 <= i < |after| && after[i].Scheduled?
      ensures after[i].delay == Backoff(Since(after[..i]))
    {
      if i < |log| { assert after[..i] == log[..i]; } else { assert after[..i] == log; }
    }
    assert after[..|log|] == log;
    SinceLast(after);
  }

  lemma ClearedKeepsLog(s: State)
    ensures Cleared(s).log == s.log && Cleared(s).reconnectAttempts == s.reconnectAttempts
    ensures Cleared(s).token == s.token && Cleared(s).wsBase == s.wsBase
  {}

  lemma DialedKeepsLog(s: State)
    ensures Dialed(s).log == s.log && Dialed(s).reconnectAttempts == s.reconnectAttempts
  {
    hide Cleared;
    ClearedKeepsLog(s);
  }

  lemma CalledKeepsLog(s: State, c: Call)
    requires Logged(s)
    ensures Logged(Called(s, c))
  {
    hide Cleared, Dialed, Delays, Since;
    match c {
      case Connect(token) =>
        LogReset(s.log);
        DialedKeepsLog(s.(token := Some(token), reconnectAttempts := 0, log := s.log + [Reset]));
      case Disconnect => ClearedKeepsLog(s.(token := None));
      case SetServerUrl(None) =>
      case SetServerUrl(Some(url)) =>
        var s1 := s.(wsBase := BaseOf(url));
        ClearedKeepsLog(s1);
        DialedKeepsLog(Cleared(s1));
    }
  }

  lemma {:induction false} HeardKeepsLog(s: State, calls: seq<Call>)
    requires Logged(s)
    ensures Logged(Heard(s, calls))
    decreases |calls|
  {
    hide Logged, Called;
    if calls != [] {
      CalledKeepsLog(s, calls[0]);
      HeardKeepsLog(Called(s, calls[0]), calls[1..]);
    }
  }

  lemma StepKeepsLog(s: State, e: Event)
    requires Logged(s)
    ensures Logged(Step(s, e))
  {
    hide Heard, Called, Dialed, Delays, Since, Backoff;
    match e {
      case Do(call) => CalledKeepsLog(s, call);
      case Opens(id, r) =>
        if id in s.sockets && s.sockets[id].phase.Connecting? && s.sockets[id].live {
          LogReset(s.log);
          HeardKeepsLog(Opened(SetPhase(s, id, Open)), r.calls);
        }
      case Message(id, r) => HeardKeepsLog(s, r.calls);
      case StartsClosing(id) =>
      case Closes(id, r) =>
        if Drops(s, e) {
          var s0 := Lost(SetPhase(s, id, Closed));
          HeardKeepsLog(s0, r.calls);
          LogScheduled(Heard(s0, r.calls).log);
        }
      case Fires(t) => DialedKeepsLog(s.(timeouts := s.timeouts - {t}));
    }
  }

  /** In every run, the k-th scheduled reconnect in a row since the last open or connect, counted from
      0, waits for the smaller of 1000 * 2^k and 30000 milliseconds. */
  lemma DelaysDouble(wsBase: string, es: seq<Event>)
    ensures Delays(Run(Initial(wsBase), es).log)
  {
    RunKeepsLog(Initial(wsBase), es);
  }

  lemma {:induction false} RunKeepsLog(s: State, es: seq<Event>)
    requires Logged(s)
    ensures Logged(Run(s, es))
    decreases |es|
  {
    hide Logged, Step;
    if es != [] {
      StepKeepsLog(s, es[0]);
      RunKeepsLog(Step(s, es[0]), es[1..]);
    }
  }

  /** Five attempts reach the ceiling, and the delay never exceeds it. */
  lemma {:induction false} BackoffCeiling(k: nat)
    ensures Backoff(k) == 30000 <==> k >= 5
    ensures Backoff(k) <= 30000
    ensures k < 5 ==> Backoff(k) == [1000, 2000, 4000, 8000, 16000][k]
  {
    if k > 5 {
      BackoffCeiling(k - 1);
    } else {
      assert Pow2(1) == 2 && Pow2(2) == 4 && Pow2(3) == 8 && Pow2(4) == 16 && Pow2(5) == 32;
    }
  }
}
