/** Voice channel presence: the `voice_states` table, the events broadcast about it, and the
    clients that rebuild the table from the events. */
module VoiceStates {
  import opened Wrappers

  datatype Channel = Channel(server: nat, voice: bool)

  datatype SelfFlags = SelfFlags(mute: bool, deaf: bool, video: bool, screen: bool)

  const ALL_OFF := SelfFlags(false, false, false, false)

  datatype Row = Row(channel: nat, self: SelfFlags, serverMute: bool, serverDeaf: bool, joinedAt: int)

  type Table = map<nat, Row>

  /** A VOICE_STATE_UPDATE; a leave has no row, because its channel is null. */
  datatype Event = Event(user: nat, row: Option<Row>)

  datatype Broadcast = Broadcast(server: nat, event: Event)

  datatype Patch = Patch(mute: Option<bool>, deaf: Option<bool>, video: Option<bool>, screen: Option<bool>)

  function Coalesce(o: Option<bool>, current: bool): bool {
    match o case Some(b) => b case None => current
  }

  function Patched(f: SelfFlags, p: Patch): SelfFlags {
    SelfFlags(Coalesce(p.mute, f.mute), Coalesce(p.deaf, f.deaf),
              Coalesce(p.video, f.video), Coalesce(p.screen, f.screen))
  }

  // ---- Committed statements and what they broadcast ------------------------------------

  /** What each request does once its checks are past. `prior` and the channel of a `Clean` were
      read by an earlier statement and may be stale; a failed read of `prior` gives None. */
  datatype Op =
    | Join(user: nat, channel: nat, prior: Option<nat>, now: int)
    | Leave(user: nat, channel: nat)
    | Update(user: nat, channel: nat, patch: Patch)
    | Clean(user: nat, channel: nat, deleted: bool)
    | Kick(user: nat, server: nat)

  predicate Known(w: map<nat, Channel>, op: Op) { op.Kick? || op.channel in w }

  predicate Sound(w: map<nat, Channel>, t: Table) { forall u :: u in t ==> t[u].channel in w }

  predicate In(t: Table, user: nat, channel: nat) { user in t && t[user].channel == channel }

  function Joined(t: Table, user: nat, channel: nat, now: int): Row {
    if user in t then t[user].(channel := channel, self := ALL_OFF, joinedAt := now)
    else Row(channel, ALL_OFF, false, false, now)
  }

  function Next(t: Table, op: Op): Table {
    match op
    case Join(user, channel, _, now) => t[user := Joined(t, user, channel, now)]
    case Leave(user, channel) => if In(t, user, channel) then t - {user} else t
    case Update(user, channel, patch) =>
      if In(t, user, channel) then t[user := t[user].(self := Patched(t[user].self, patch))] else t
    case Clean(user, channel, deleted) => if In(t, user, channel) && deleted then t - {user} else t
    case Kick(user, _) => t - {user}
  }

  function Sent(w: map<nat, Channel>, t: Table, op: Op): seq<Broadcast>
    requires Known(w, op)
  {
    match op
    case Join(user, channel, prior, now) =>
      var home := w[channel].server;
      [Broadcast(home, Event(user, Some(Joined(t, user, channel, now))))]
      + (if prior.Some? && prior.value != home then [Broadcast(prior.value, Event(user, None))] else [])
    case Leave(user, channel) =>
      if In(t, user, channel) then [Broadcast(w[channel].server, Event(user, None))] else []
    case Update(user, channel, _) =>
      if In(t, user, channel) then [Broadcast(w[channel].server, Event(user, Some(Next(t, op)[user])))] else []
    case Clean(user, channel, _) => [Broadcast(w[channel].server, Event(user, None))]
    case Kick(user, server) => if user in t then [Broadcast(server, Event(user, None))] else []
  }

  // ---- Handlers --------------------------------------------------------------------------

  datatype Response = Created(row: Row) | Updated(row: Row) | NoContent | BadRequest | Forbidden | NotFound

  class VoiceTables {
    const channels: map<nat, Channel>
    var voiceStates: Table
    var sent: seq<Broadcast>

    predicate Valid()
      reads this
    {
      Sound(channels, voiceStates)
    }

    constructor (channels: map<nat, Channel>)
      ensures Valid() && this.channels == channels && voiceStates == map[] && sent == []
    {
      this.channels, voiceStates, sent := channels, map[], [];
    }

    predicate Opens(channel: nat, member: bool) { channel in channels && member && channels[channel].voice }

    /** The statement `op` has committed and its events are out, in order. */
    twostate predicate Did(op: Op)
      requires Known(channels, op)
      reads this
    {
      voiceStates == Next(old(voiceStates), op) && sent == old(sent) + Sent(channels, old(voiceStates), op)
    }

    /** The rows of everybody else are as they were. */
    twostate predicate OthersKept(user: nat)
      reads this
    {
      forall u :: u != user ==>
        (u in voiceStates <==> u in old(voiceStates)) && (u in voiceStates ==> voiceStates[u] == old(voiceStates)[u])
    }

    method BroadcastToServer(server: nat, event: Event)
      modifies this`sent
      ensures sent == old(sent) + [Broadcast(server, event)]
    {
      sent := sent + [Broadcast(server, event)];
    }

    function Location(user: nat): (server: Option<nat>)
      requires Valid()
      reads this
      ensures server.Some? <==> user in voiceStates
      ensures server.Some? ==> server.value == channels[voiceStates[user].channel].server
    {
      if user in voiceStates then Some(channels[voiceStates[user].channel].server) else None
    }

    method JoinVoiceChannel(user: nat, channel: nat, member: bool, permitted: bool, priorRead: bool, now: int)
      returns (r: Response)
      requires Valid()
      modifies this
      ensures Valid()
      ensures r.Created? <==> Opens(channel, member) && permitted
      ensures r.Created? ==>
                && Did(Join(user, channel, if priorRead then old(Location(user)) else None, now))
                && r.row == voiceStates[user]
      ensures r.Created? ==>
                && OthersKept(user) && user in voiceStates
                && var row := voiceStates[user];
                && row.channel == channel && row.joinedAt == now
                && row.self == SelfFlags(false, false, false, false)
                && row.serverMute == (user in old(voiceStates) && old(voiceStates)[user].serverMute)
                && row.serverDeaf == (user in old(voiceStates) && old(voiceStates)[user].serverDeaf)
      ensures r.Created? ==>
                && var joined := Broadcast(channels[channel].server, Event(user, Some(voiceStates[user])));
                && var prior := old(Location(user));
                && sent == old(sent) + [joined] + if priorRead && prior.Some? && prior.value != channels[channel].server
                                                  then [Broadcast(prior.value, Event(user, None))]
                                                  else []
      ensures !r.Created? ==> voiceStates == old(voiceStates) && sent == old(sent)
      ensures r == NotFound <==> channel !in channels || !member
      ensures r == Forbidden <==> Opens(channel, member) && !permitted
      ensures r == BadRequest <==> channel in channels && member && !channels[channel].voice
    {
      if channel !in channels { return NotFound; }
      if !member { return NotFound; }
      if !channels[channel].voice { return BadRequest; }
      if !permitted { return Forbidden; }
      var prior := if priorRead then Location(user) else None;
      if user in voiceStates {
        voiceStates := voiceStates[user := voiceStates[user].(channel := channel, self := ALL_OFF, joinedAt := now)];
      } else {
        voiceStates := voiceStates[user := Row(channel, ALL_OFF, false, false, now)];
      }
      BroadcastToServer(channels[channel].server, Event(user, Some(voiceStates[user])));
      if prior.Some? && prior.value != channels[channel].server {
        BroadcastToServer(prior.value, Event(user, None));
      }
      return Created(voiceStates[user]);
    }

    method LeaveVoiceChannel(user: nat, channel: nat, member: bool) returns (r: Response)
      requires Valid()
      modifies this
      ensures Valid()
      ensures r == NoContent <==>
                && channel in channels && member && channels[channel].voice
                && user in old(voiceStates) && old(voiceStates)[user].channel == channel
      ensures r == NoContent ==> Did(Leave(user, channel))
      ensures r == NoContent ==>
                && user !in voiceStates && OthersKept(user)
                && sent == old(sent) + [Broadcast(channels[channel].server, Event(user, None))]
      ensures r != NoContent ==> voiceStates == old(voiceStates) && sent == old(sent)
      ensures r == BadRequest <==> channel in channels && member && !channels[channel].voice
      ensures r != NoContent && r != BadRequest ==> r == NotFound
    {
      if channel !in channels { return NotFound; }
      if !member { return NotFound; }
      if !channels[channel].voice { return BadRequest; }
      if !In(voiceStates, user, channel) { return NotFound; }
      voiceStates := voiceStates - {user};
      BroadcastToServer(channels[channel].server, Event(user, None));
      return NoContent;
    }

    method UpdateVoiceState(user: nat, channel: nat, member: bool, patch: Patch) returns (r: Response)
      requires Valid()
      modifies this
      ensures Valid()
      ensures r.Updated? <==>
                && patch != Patch(None, None, None, None)
                && channel in channels && member && channels[channel].voice
                && user in old(voiceStates) && old(voiceStates)[user].channel == channel
      ensures r.Updated? ==> Did(Update(user, channel, patch)) && r.row == voiceStates[user]
      ensures r.Updated? ==>
                && OthersKept(user) && user in voiceStates
                && var row, was := voiceStates[user], old(voiceStates)[user];
                && row == was.(self := row.self)
                && row.self.mute == (patch.mute == Some(true) || (patch.mute == None && was.self.mute))
                && row.self.deaf == (patch.deaf == Some(true) || (patch.deaf == None && was.self.deaf))
                && row.self.video == (patch.video == Some(true) || (patch.video == None && was.self.video))
                && row.self.screen == (patch.screen == Some(true) || (patch.screen == None && was.self.screen))
                && sent == old(sent) + [Broadcast(channels[channel].server, Event(user, Some(row)))]
      ensures !r.Updated? ==> voiceStates == old(voiceStates) && sent == old(sent)
      ensures r == BadRequest <==>
                patch == Patch(None, None, None, None) || (channel in channels && member && !channels[channel].voice)
      ensures !r.Updated? && r != BadRequest ==> r == NotFound
    {
      if patch.mute.None? && patch.deaf.None? && patch.video.None? && patch.screen.None? { return BadRequest; }
      if channel !in channels { return NotFound; }
      if !member { return NotFound; }
      if !channels[channel].voice { return BadRequest; }
      if !In(voiceStates, user, channel) { return NotFound; }
      var row := voiceStates[user];
      voiceStates := voiceStates[user := row.(self := Patched(row.self, patch))];
      BroadcastToServer(channels[channel].server, Event(user, Some(voiceStates[user])));
      return Updated(voiceStates[user]);
    }

    method CleanupVoiceOnDisconnect(user: nat, read: bool, deleted: bool)
      requires Valid()
      modifies this
      ensures Valid()
      ensures read && user in old(voiceStates) ==> Did(Clean(user, old(voiceStates)[user].channel, deleted))
      ensures OthersKept(user) && (user in voiceStates <==> user in old(voiceStates) && !(read && deleted))
      ensures user in voiceStates ==> voiceStates[user] == old(voiceStates)[user]
      ensures sent == old(sent) + if read && old(Location(user)).Some?
                                  then [Broadcast(old(Location(user)).value, Event(user, None))]
                                  else []
    {
      if !read || user !in voiceStates { return; }
      var channel := voiceStates[user].channel;
      if deleted {
        voiceStates := voiceStates - {user};
      }
      BroadcastToServer(channels[channel].server, Event(user, None));
    }

    /** The part of a kick or a ban in `server` that touches voice. */
    method RemoveFromVoice(target: nat, server: nat)
      requires Valid()
      modifies this
      ensures Valid() && Did(Kick(target, server))
      ensures target !in voiceStates && OthersKept(target)
      ensures sent == old(sent) + if target in old(voiceStates) then [Broadcast(server, Event(target, None))] else []
    {
      var removed := target in voiceStates;
      voiceStates := voiceStates - {target};
      if removed {
        BroadcastToServer(server, Event(target, None));
      }
    }
  }

  // ---- Watching --------------------------------------------------------------------------

  function Heed(view: Table, e: Event): Table {
    match e.row case Some(row) => view[e.user := row] case None => view - {e.user}
  }

  /** A client that is a member of the servers in `seen` applies, in order, the events sent to them. */
  function Watch(view: Table, sent: seq<Broadcast>, seen: set<nat>): Table
    decreases |sent|
  {
    if sent == [] then view
    else Watch(if sent[0].server in seen then Heed(view, sent[0].event) else view, sent[1..], seen)
  }

  predicate Inside(w: map<nat, Channel>, t: Table, u: nat, seen: set<nat>)
    requires Sound(w, t)
  {
    u in t && w[t[u].channel].server in seen
  }

  /** The rows whose channel belongs to one of the servers. */
  function Rows(w: map<nat, Channel>, t: Table, seen: set<nat>): (r: Table)
    requires Sound(w, t)
    ensures forall u :: u in r <==> Inside(w, t, u, seen)
  {
    map u | u in t && w[t[u].channel].server in seen :: t[u]
  }

  /** Whether this step leaves a client that is up to date up to date. */
  predicate Harmless(w: map<nat, Channel>, t: Table, op: Op, seen: set<nat>)
    requires Known(w, op) && Sound(w, t)
  {
    match op
    case Join(user, channel, prior, _) =>
      var home := w[channel].server;
      var leaveSeen := prior.Some? && prior.value != home && prior.value in seen;
      if home in seen then !leaveSeen else Inside(w, t, user, seen) ==> leaveSeen
    case Leave(_, _) => true
    case Update(_, _, _) => true
    case Clean(user, channel, deleted) =>
      w[channel].server in seen && Inside(w, t, user, seen) ==> t[user].channel == channel && deleted
    case Kick(user, server) => Inside(w, t, user, seen) ==> server in seen
  }

  lemma NextIsSound(w: map<nat, Channel>, t: Table, op: Op)
    requires Known(w, op) && Sound(w, t)
    ensures Sound(w, Next(t, op))
  {}

  lemma WatchOne(view: Table, b: Broadcast, seen: set<nat>)
    ensures Watch(view, [b], seen) == if b.server in seen then Heed(view, b.event) else view
  {
    assert [b][1..] == [];
  }

  lemma WatchTwo(view: Table, a: Broadcast, b: Broadcast, seen: set<nat>)
    ensures Watch(view, [a] + [b], seen) == Watch(Watch(view, [a], seen), [b], seen)
  {
    WatchOne(view, a, seen);
    assert ([a] + [b])[1..] == [b];
  }

  /** The table and the view change only at the user of the step. */
  lemma OnlyTheUser(w: map<nat, Channel>, t: Table, view: Table, op: Op, seen: set<nat>, u: nat)
    requires Known(w, op) && Sound(w, t) && u != op.user
    ensures var after := Watch(view, Sent(w, t, op), seen);
            && (u in after <==> u in view) && (u in view ==> after[u] == view[u])
    ensures (u in Next(t, op) <==> u in t) && (u in t ==> Next(t, op)[u] == t[u])
  {
    var sent := Sent(w, t, op);
    if |sent| == 1 {
      WatchOne(view, sent[0], seen);
      assert sent == [sent[0]];
    } else if |sent| == 2 {
      WatchTwo(view, sent[0], sent[1], seen);
      WatchOne(view, sent[0], seen);
      WatchOne(Watch(view, [sent[0]], seen), sent[1], seen);
      assert sent == [sent[0]] + [sent[1]];
    }
  }

  /** What a client that was up to date about the user of the step now thinks of that user. */
  lemma TheUser(w: map<nat, Channel>, t: Table, view: Table, op: Op, seen: set<nat>)
    requires Known(w, op) && Sound(w, t) && view == Rows(w, t, seen)
    ensures var (u, now, after) := (op.user, Next(t, op), Watch(view, Sent(w, t, op), seen));
            && Sound(w, now)
            && ((u in after <==> Inside(w, now, u, seen)) && (u in after ==> after[u] == now[u])
                <==> Harmless(w, t, op, seen))
  {
    var sent := Sent(w, t, op);
    NextIsSound(w, t, op);
    if |sent| == 1 {
      WatchOne(view, sent[0], seen);
      assert sent == [sent[0]];
    } else if |sent| == 2 {
      WatchTwo(view, sent[0], sent[1], seen);
      WatchOne(view, sent[0], seen);
      WatchOne(Watch(view, [sent[0]], seen), sent[1], seen);
      assert sent == [sent[0]] + [sent[1]];
    }
  }

  /** A client that is up to date stays so exactly when the step is harmless for it. */
  lemma StaysUpToDateIff(w: map<nat, Channel>, t: Table, view: Table, op: Op, seen: set<nat>)
    requires Known(w, op) && Sound(w, t) && view == Rows(w, t, seen)
    ensures Sound(w, Next(t, op))
    ensures Watch(view, Sent(w, t, op), seen) == Rows(w, Next(t, op), seen) <==> Harmless(w, t, op, seen)
  {
    hide Next, Sent, Harmless, Watch;
    TheUser(w, t, view, op, seen);
    var now, after := Next(t, op), Watch(view, Sent(w, t, op), seen);
    forall u | u != op.user
      ensures (u in after <==> u in Rows(w, now, seen)) && (u in after ==> after[u] == Rows(w, now, seen)[u])
    {
      OnlyTheUser(w, t, view, op, seen, u);
    }
    if Harmless(w, t, op, seen) {
      assert after == Rows(w, now, seen);
    }
  }

  // ---- Whole runs --------------------------------------------------------------------------

  function RunTable(t: Table, ops: seq<Op>): Table
    decreases |ops|
  {
    if ops == [] then t else RunTable(Next(t, ops[0]), ops[1..])
  }

  /** Everything broadcast by a run, in order. */
  function RunSent(w: map<nat, Channel>, t: Table, ops: seq<Op>): seq<Broadcast>
    requires forall i :: 0 <= i < |ops| ==> Known(w, ops[i])
    decreases |ops|
  {
    if ops == [] then [] else Sent(w, t, ops[0]) + RunSent(w, Next(t, ops[0]), ops[1..])
  }

  predicate AllKnown(w: map<nat, Channel>, ops: seq<Op>) { forall i :: 0 <= i < |ops| ==> Known(w, ops[i]) }

  predicate AllHarmless(w: map<nat, Channel>, t: Table, ops: seq<Op>, seen: set<nat>)
    requires AllKnown(w, ops) && Sound(w, t)
    decreases |ops|
  {
    ops == [] || (Harmless(w, t, ops[0], seen) && AllHarmless(w, Next(t, ops[0]), ops[1..], seen))
  }

  lemma {:induction false} WatchAppend(view: Table, a: seq<Broadcast>, b: seq<Broadcast>, seen: set<nat>)
    ensures Watch(view, a + b, seen) == Watch(Watch(view, a, seen), b, seen)
    decreases |a|
  {
    if a == [] {
      assert a + b == b;
    } else {
      assert (a + b)[1..] == a[1..] + b;
      WatchAppend(if a[0].server in seen then Heed(view, a[0].event) else view, a[1..], b, seen);
    }
  }

  /** Over a run of harmless steps, the events of the servers in `seen` rebuild their rows. */
  lemma {:induction false} EventsRebuildTheTable(
      w: map<nat, Channel>, t: Table, view: Table, ops: seq<Op>, seen: set<nat>)
    requires AllKnown(w, ops) && Sound(w, t) && view == Rows(w, t, seen) && AllHarmless(w, t, ops, seen)
    ensures Sound(w, RunTable(t, ops))
    ensures Watch(view, RunSent(w, t, ops), seen) == Rows(w, RunTable(t, ops), seen)
    decreases |ops|
  {
    hide Next, Sent, Harmless, Rows;
    if ops != [] {
      var sent, t' := Sent(w, t, ops[0]), Next(t, ops[0]);
      StaysUpToDateIff(w, t, view, ops[0], seen);
      EventsRebuildTheTable(w, t', Watch(view, sent, seen), ops[1..], seen);
      WatchAppend(view, sent, RunSent(w, t', ops[1..]), seen);
    }
  }

  function ServerOf(w: map<nat, Channel>, t: Table, user: nat): Option<nat>
    requires Sound(w, t)
  {
    if user in t then Some(w[t[user].channel].server) else None
  }

  /** Nothing changed between the reads and the writes of the request, and no statement failed;
      a kick is in the server the target is connected to. */
  predicate Atomic(w: map<nat, Channel>, t: Table, op: Op)
    requires Known(w, op) && Sound(w, t)
  {
    match op
    case Join(user, _, prior, _) => prior == ServerOf(w, t, user)
    case Clean(user, channel, deleted) => In(t, user, channel) && deleted
    case Kick(user, server) => user in t ==> ServerOf(w, t, user) == Some(server)
    case _ => true
  }

  predicate AllAtomic(w: map<nat, Channel>, t: Table, ops: seq<Op>)
    requires AllKnown(w, ops) && Sound(w, t)
    decreases |ops|
  {
    ops == [] || (Atomic(w, t, ops[0]) && AllAtomic(w, Next(t, ops[0]), ops[1..]))
  }

  /** For a client that watches all the servers in `seen`, an atomic step is harmless unless it is
      a move between two of them. */
  lemma AtomicIsHarmlessIff(w: map<nat, Channel>, t: Table, op: Op, seen: set<nat>)
    requires Known(w, op) && Sound(w, t) && Atomic(w, t, op)
    ensures Harmless(w, t, op, seen) <==>
            !(op.Join? && Inside(w, t, op.user, seen) && w[op.channel].server in seen
              && w[op.channel].server != w[t[op.user].channel].server)
  {}

  lemma {:induction false} AtomicRunIsHarmless(w: map<nat, Channel>, t: Table, ops: seq<Op>, server: nat)
    requires AllKnown(w, ops) && Sound(w, t) && AllAtomic(w, t, ops)
    ensures AllHarmless(w, t, ops, {server})
    decreases |ops|
  {
    if ops != [] {
      AtomicIsHarmlessIff(w, t, ops[0], {server});
      NextIsSound(w, t, ops[0]);
      AtomicRunIsHarmless(w, Next(t, ops[0]), ops[1..], server);
    }
  }

  /** For every server and every run of atomic requests, folding the events sent to the server
      gives exactly the rows whose channel is in the server, flags included. */
  lemma EveryServerIsRebuilt(w: map<nat, Channel>, t: Table, ops: seq<Op>, server: nat)
    requires AllKnown(w, ops) && Sound(w, t) && AllAtomic(w, t, ops)
    ensures Sound(w, RunTable(t, ops))
    ensures Watch(Rows(w, t, {server}), RunSent(w, t, ops), {server}) == Rows(w, RunTable(t, ops), {server})
  {
    AtomicRunIsHarmless(w, t, ops, server);
    EventsRebuildTheTable(w, t, Rows(w, t, {server}), ops, {server});
  }

  /** A move between two servers of the same client ends with the leave of the old one, which the
      client takes for a leave of the new channel: the mover vanishes from its view. */
  lemma MoverVanishes(w: map<nat, Channel>, t: Table, user: nat, channel: nat, now: int, seen: set<nat>)
    requires channel in w && Sound(w, t) && Inside(w, t, user, seen) && w[channel].server in seen
    requires w[t[user].channel].server != w[channel].server
    ensures var op := Join(user, channel, ServerOf(w, t, user), now);
            && user !in Watch(Rows(w, t, seen), Sent(w, t, op), seen)
            && In(Next(t, op), user, channel)
  {
    var op := Join(user, channel, ServerOf(w, t, user), now);
    var view, sent := Rows(w, t, seen), Sent(w, t, op);
    WatchTwo(view, sent[0], sent[1], seen);
    WatchOne(view, sent[0], seen);
    WatchOne(Watch(view, [sent[0]], seen), sent[1], seen);
    assert sent == [sent[0]] + [sent[1]];
  }

  /** A disconnect cleanup that read its row long ago still changes no row but that of its user in
      the channel it read; its leave event keeps the server's clients right if and only if the user is
      by then in no channel of the server, or in the one that was read and is deleted from it. */
  lemma LateCleanupSparesOtherChannels(w: map<nat, Channel>, t: Table, user: nat, channel: nat, deleted: bool)
    requires channel in w && Sound(w, t)
    ensures var (op, home) := (Clean(user, channel, deleted), {w[channel].server});
            && Sound(w, Next(t, op))
            && (forall u :: u in t && (u != user || t[u].channel != channel) ==>
                  u in Next(t, op) && Next(t, op)[u] == t[u])
            && (Watch(Rows(w, t, home), Sent(w, t, op), home) == Rows(w, Next(t, op), home)
                <==> (Inside(w, t, user, home) ==> In(t, user, channel) && deleted))
  {
    hide Watch, Rows;
    var home := {w[channel].server};
    StaysUpToDateIff(w, t, Rows(w, t, home), Clean(user, channel, deleted), home);
  }

  /** The failing case: the user has moved to another channel of the server, the cleanup leaves that
      row as it is, and everybody watching the server sees the user leave. */
  lemma LateCleanupHidesTheUser(w: map<nat, Channel>, t: Table, user: nat, channel: nat, deleted: bool)
    requires channel in w && Sound(w, t) && Inside(w, t, user, {w[channel].server}) && t[user].channel != channel
    ensures var (op, home) := (Clean(user, channel, deleted), {w[channel].server});
            && user in Next(t, op) && Next(t, op)[user] == t[user]
            && user in Rows(w, t, home) && user !in Watch(Rows(w, t, home), Sent(w, t, op), home)
  {
    var home := {w[channel].server};
    WatchOne(Rows(w, t, home), Broadcast(w[channel].server, Event(user, None)), home);
  }

  // ---- What a moderator set stays set ------------------------------------------------------

  predicate AlwaysConnected(t: Table, ops: seq<Op>, user: nat)
    decreases |ops|
  {
    user in t && (ops == [] || AlwaysConnected(Next(t, ops[0]), ops[1..], user))
  }

  /** No run changes the server mute or deafen of a user who stays connected, switches included. */
  lemma {:induction false} ServerFlagsSurvive(t: Table, ops: seq<Op>, user: nat)
    requires AlwaysConnected(t, ops, user)
    ensures user in RunTable(t, ops)
    ensures RunTable(t, ops)[user].serverMute == t[user].serverMute
    ensures RunTable(t, ops)[user].serverDeaf == t[user].serverDeaf
    decreases |ops|
  {
    if ops != [] {
      ServerFlagsSurvive(Next(t, ops[0]), ops[1..], user);
    }
  }

  // ---- The participant list of one channel ----------------------------------------------------

  datatype Participant = Participant(user: nat, row: Row)

  predicate Listed(ps: seq<Participant>, user: nat) { exists i :: 0 <= i < |ps| && ps[i].user == user }

  /** The list keeps the join time it saw first. */
  function Refresh(ps: seq<Participant>, user: nat, row: Row): (r: seq<Participant>)
    ensures |r| == |ps|
    ensures forall i :: 0 <= i < |ps| ==>
              r[i] == if ps[i].user == user then Participant(user, row.(joinedAt := ps[i].row.joinedAt)) else ps[i]
  {
    if ps == [] then []
    else [if ps[0].user == user then Participant(user, row.(joinedAt := ps[0].row.joinedAt)) else ps[0]]
         + Refresh(ps[1..], user, row)
  }

  function Without(ps: seq<Participant>, user: nat): (r: seq<Participant>)
    ensures forall p :: p in r <==> p in ps && p.user != user
    ensures !Listed(r, user)
    ensures Distinct(ps) ==> Distinct(r)
  {
    if ps == [] then []
    else (if ps[0].user == user then [] else [ps[0]]) + Without(ps[1..], user)
  }

  predicate Distinct(ps: seq<Participant>) {
    forall i, j :: 0 <= i < j < |ps| ==> ps[i].user != ps[j].user
  }

  function PanelHeed(ps: seq<Participant>, channel: nat, e: Event): seq<Participant> {
    if e.row.Some? && e.row.value.channel == channel then
      if Listed(ps, e.user) then Refresh(ps, e.user, e.row.value) else ps + [Participant(e.user, e.row.value)]
    else Without(ps, e.user)
  }

  predicate SameButJoinTime(a: Row, b: Row) { a == b.(joinedAt := a.joinedAt) }

  /** The list shows each user the view has in the channel once, with the same flags, and no other. */
  ghost predicate Shows(ps: seq<Participant>, view: Table, channel: nat) {
    && Distinct(ps)
    && (forall p :: p in ps ==> In(view, p.user, channel) && SameButJoinTime(p.row, view[p.user]))
    && (forall u :: In(view, u, channel) ==> Listed(ps, u))
  }

  /** An event touches only the entry of its user, and keeps the entries distinct. */
  lemma PanelKeepsOthers(ps: seq<Participant>, channel: nat, e: Event)
    requires Distinct(ps)
    ensures Distinct(PanelHeed(ps, channel, e))
    ensures forall p: Participant :: p.user != e.user ==> (p in PanelHeed(ps, channel, e) <==> p in ps)
  {
    var after := PanelHeed(ps, channel, e);
    forall p: Participant | p.user != e.user && p in ps
      ensures p in after
    {
      var i :| 0 <= i < |ps| && ps[i] == p;
      if e.row.Some? && e.row.value.channel == channel { assert after[i] == p; }
    }
  }

  lemma PanelEntry(ps: seq<Participant>, channel: nat, e: Event)
    ensures var after := PanelHeed(ps, channel, e);
            if e.row.Some? && e.row.value.channel == channel then
              Listed(after, e.user)
              && forall p :: p in after && p.user == e.user ==> SameButJoinTime(p.row, e.row.value)
            else !Listed(after, e.user)
  {
    var after := PanelHeed(ps, channel, e);
    if e.row.Some? && e.row.value.channel == channel {
      if Listed(ps, e.user) {
        var i :| 0 <= i < |ps| && ps[i].user == e.user;
        assert after[i].user == e.user;
      } else {
        assert after[|ps|].user == e.user;
      }
    }
  }

  lemma PanelStepShows(ps: seq<Participant>, view: Table, channel: nat, e: Event)
    requires Shows(ps, view, channel)
    ensures Shows(PanelHeed(ps, channel, e), Heed(view, e), channel)
  {
    hide PanelHeed, Distinct;
    PanelKeepsOthers(ps, channel, e);
    PanelEntry(ps, channel, e);
    var after, view' := PanelHeed(ps, channel, e), Heed(view, e);
    forall p | p in after
      ensures In(view', p.user, channel) && SameButJoinTime(p.row, view'[p.user])
    {
      if p.user == e.user {
        var i :| 0 <= i < |after| && after[i] == p;
        assert after[i].user == e.user;
      }
    }
    forall u | u != e.user && In(view', u, channel)
      ensures Listed(after, u)
    {
      assert In(view, u, channel);
      var i :| 0 <= i < |ps| && ps[i].user == u;
      assert ps[i] in after;
    }
  }

  function Panel(ps: seq<Participant>, channel: nat, sent: seq<Broadcast>, seen: set<nat>): seq<Participant>
    decreases |sent|
  {
    if sent == [] then ps
    else Panel(if sent[0].server in seen then PanelHeed(ps, channel, sent[0].event) else ps, channel, sent[1..], seen)
  }

  /** The list of a channel is the view of the whole client cut down to that channel. */
  lemma {:induction false} PanelShowsTheView(
      ps: seq<Participant>, view: Table, channel: nat, sent: seq<Broadcast>, seen: set<nat>)
    requires Shows(ps, view, channel)
    ensures Shows(Panel(ps, channel, sent, seen), Watch(view, sent, seen), channel)
    decreases |sent|
  {
    hide Shows;
    if sent != [] {
      var e := sent[0].event;
      if sent[0].server in seen {
        PanelStepShows(ps, view, channel, e);
        PanelShowsTheView(PanelHeed(ps, channel, e), Heed(view, e), channel, sent[1..], seen);
      } else {
        PanelShowsTheView(ps, view, channel, sent[1..], seen);
      }
    }
  }

  /** A client that watches one server and has a channel of it open shows the participants the
      table has, after every run of atomic requests. */
  lemma PanelShowsTheChannel(w: map<nat, Channel>, t: Table, ops: seq<Op>, ps: seq<Participant>, channel: nat)
    requires AllKnown(w, ops) && Sound(w, t) && AllAtomic(w, t, ops) && channel in w
    requires Shows(ps, t, channel)
    ensures Shows(Panel(ps, channel, RunSent(w, t, ops), {w[channel].server}), RunTable(t, ops), channel)
  {
    var seen := {w[channel].server};
    var view := Rows(w, t, seen);
    EveryServerIsRebuilt(w, t, ops, w[channel].server);
    PanelShowsTheView(ps, view, channel, RunSent(w, t, ops), seen);
  }
}
