/** Typing indicators: per channel, a list of who started typing when; starts are forgotten after ten
    seconds, by a periodic sweep and by every reader. */
module TypingStore {
  import opened Wrappers

  const TYPING_TIMEOUT_MS := 10000

  datatype TypingUser = TypingUser(user: nat, name: string, timestamp: int)

  type Channels = map<nat, seq<TypingUser>>

  predicate Current(u: TypingUser, now: int) { now - u.timestamp < TYPING_TIMEOUT_MS }

  predicate Listed(us: seq<TypingUser>, user: nat) { exists i :: 0 <= i < |us| && us[i].user == user }

  predicate Distinct(us: seq<TypingUser>) { forall i, j :: 0 <= i < j < |us| ==> us[i].user != us[j].user }

  function At(s: Channels, channel: nat): seq<TypingUser> { if channel in s then s[channel] else [] }

  /** A repeated start keeps the entry, and the name it came with. */
  function Touch(us: seq<TypingUser>, user: nat, now: int): (r: seq<TypingUser>)
    ensures |r| == |us|
    ensures forall i :: 0 <= i < |us| ==> r[i] == if us[i].user == user then us[i].(timestamp := now) else us[i]
  {
    if us == [] then []
    else [if us[0].user == user then us[0].(timestamp := now) else us[0]] + Touch(us[1..], user, now)
  }

  function Without(us: seq<TypingUser>, user: nat): (r: seq<TypingUser>)
    ensures forall u :: u in r <==> u in us && u.user != user
    ensures |r| <= |us|
    ensures Distinct(us) ==> Distinct(r)
  {
    if us == [] then []
    else
      var rest := Without(us[1..], user);
      assert Distinct(us) ==> Distinct(us[1..]) && forall u :: u in rest ==> u in us[1..] && u.user != us[0].user;
      if us[0].user == user then rest else [us[0]] + rest
  }

  function StillCurrent(us: seq<TypingUser>, now: int): (r: seq<TypingUser>)
    ensures forall u :: u in r <==> u in us && Current(u, now)
    ensures Distinct(us) ==> Distinct(r)
  {
    if us == [] then []
    else
      var rest := StillCurrent(us[1..], now);
      assert Distinct(us) ==> Distinct(us[1..]) && forall u :: u in rest ==> u in us[1..] && u.user != us[0].user;
      if Current(us[0], now) then [us[0]] + rest else rest
  }

  /** What a reader sees keeps the order of the list: each entry stays or goes by itself. */
  lemma {:induction false} CurrentInOrder(a: seq<TypingUser>, b: seq<TypingUser>, now: int)
    ensures StillCurrent(a + b, now) == StillCurrent(a, now) + StillCurrent(b, now)
    decreases |a|
  {
    hide Distinct, Current, StillCurrent;
    if a == [] {
      assert a + b == b;
      NobodyShown(0, now);
    } else {
      var u, rest := a[0], a[1..];
      CurrentInOrder(rest, b, now);
      assert a + b == [u] + (rest + b) && a == [u] + rest;
      CurrentCons(u, rest + b, now);
      CurrentCons(u, rest, now);
    }
  }

  lemma {:induction false} OthersInOrder(a: seq<TypingUser>, b: seq<TypingUser>, user: nat)
    ensures Without(a + b, user) == Without(a, user) + Without(b, user)
    decreases |a|
  {
    hide Distinct, Without;
    if a == [] {
      assert a + b == b;
      NobodyShown(user, 0);
    } else {
      var u, rest := a[0], a[1..];
      OthersInOrder(rest, b, user);
      assert a + b == [u] + (rest + b) && a == [u] + rest;
      OthersCons(u, rest + b, user);
      OthersCons(u, rest, user);
    }
  }

  lemma NobodyShown(user: nat, now: int)
    ensures StillCurrent([], now) == [] && Without([], user) == []
  {}

  lemma CurrentCons(u: TypingUser, us: seq<TypingUser>, now: int)
    ensures StillCurrent([u] + us, now) == (if Current(u, now) then [u] else []) + StillCurrent(us, now)
  {
    hide Distinct;
    assert ([u] + us)[1..] == us;
  }

  lemma OthersCons(u: TypingUser, us: seq<TypingUser>, user: nat)
    ensures Without([u] + us, user) == (if u.user == user then [] else [u]) + Without(us, user)
  {
    hide Distinct;
    assert ([u] + us)[1..] == us;
  }

  lemma OneShown(u: TypingUser, user: nat, now: int)
    ensures StillCurrent([u], now) == if now - u.timestamp < 10000 then [u] else []
    ensures Without([u], user) == if u.user == user then [] else [u]
  {
    assert [u][1..] == [];
  }

  datatype Op =
    | Add(user: nat, name: string, channel: nat, now: int)
    | Remove(user: nat, channel: nat)
    | Clear(channel: nat)
    | Cleanup(now: int)

  function Step(s: Channels, op: Op): Channels {
    match op
    case Add(user, name, channel, now) =>
      s[channel := if Listed(At(s, channel), user) then Touch(At(s, channel), user, now)
                   else At(s, channel) + [TypingUser(user, name, now)]]
    case Remove(user, channel) =>
      if |Without(At(s, channel), user)| == |At(s, channel)| then s else s[channel := Without(At(s, channel), user)]
    case Clear(channel) => s - {channel}
    case Cleanup(now) => map c | c in s && StillCurrent(s[c], now) != [] :: StillCurrent(s[c], now)
  }

  function Run(s: Channels, ops: seq<Op>): Channels
    decreases |ops|
  {
    if ops == [] then s else Run(Step(s, ops[0]), ops[1..])
  }

  function Typing(s: Channels, channel: nat, selfUser: Option<nat>, now: int): seq<TypingUser> {
    var others := match selfUser case Some(me) => Without(At(s, channel), me) case None => At(s, channel);
    StillCurrent(others, now)
  }

  class Store {
    var typingUsers: Channels

    constructor ()
      ensures typingUsers == map[]
    {
      typingUsers := map[];
    }

    method AddTypingUser(user: nat, name: string, channel: nat, now: int)
      modifies this
      ensures typingUsers == Step(old(typingUsers), Add(user, name, channel, now))
      ensures forall c :: c != channel ==> At(typingUsers, c) == At(old(typingUsers), c)
      ensures var was, us := At(old(typingUsers), channel), At(typingUsers, channel);
              if exists i :: 0 <= i < |was| && was[i].user == user
              then |us| == |was| && forall i :: 0 <= i < |us| ==>
                     us[i] == if was[i].user == user then TypingUser(user, was[i].name, now) else was[i]
              else us == was + [TypingUser(user, name, now)]
    {
      var list := At(typingUsers, channel);
      if exists i :: 0 <= i < |list| && list[i].user == user {
        typingUsers := typingUsers[channel := Touch(list, user, now)];
      } else {
        typingUsers := typingUsers[channel := list + [TypingUser(user, name, now)]];
      }
    }

    method RemoveTypingUser(user: nat, channel: nat)
      modifies this
      ensures typingUsers == Step(old(typingUsers), Remove(user, channel))
    {
      var filtered := Without(At(typingUsers, channel), user);
      if |filtered| == |At(typingUsers, channel)| { return; }
      typingUsers := typingUsers[channel := filtered];
    }

    method ClearChannelTyping(channel: nat)
      modifies this
      ensures typingUsers == Step(old(typingUsers), Clear(channel))
    {
      if channel !in typingUsers { return; }
      typingUsers := typingUsers - {channel};
    }

    method CleanupExpired(now: int)
      modifies this
      ensures typingUsers == Step(old(typingUsers), Cleanup(now))
    {
      var cleaned: Channels := map[];
      var entries := typingUsers.Keys;
      while entries != {}
        invariant entries <= typingUsers.Keys && typingUsers == old(typingUsers)
        invariant forall c :: c in cleaned <==>
                    c in typingUsers.Keys - entries && StillCurrent(typingUsers[c], now) != []
        invariant forall c :: c in cleaned ==> c in typingUsers && cleaned[c] == StillCurrent(typingUsers[c], now)
        decreases |entries|
      {
        var c :| c in entries;
        entries := entries - {c};
        var filtered := StillCurrent(typingUsers[c], now);
        if |filtered| > 0 {
          cleaned := cleaned[c := filtered];
        }
      }
      assert cleaned == Step(typingUsers, Cleanup(now));
      typingUsers := cleaned;
    }

    method GetTypingUsers(channel: nat, selfUser: Option<nat>, now: int) returns (r: seq<TypingUser>)
      ensures r == Typing(typingUsers, channel, selfUser, now)
    {
      var list := if channel in typingUsers then typingUsers[channel] else [];
      if selfUser.Some? {
        list := Without(list, selfUser.value);
      }
      r := StillCurrent(list, now);
    }
  }

  // ---- The last typing times ---------------------------------------------------------------

  datatype Key = Key(channel: nat, user: nat)

  /** When each user last started typing in each channel, unless it stopped since. Sweeps do not exist here. */
  function Noted(starts: map<Key, int>, op: Op): map<Key, int> {
    match op
    case Add(user, _, channel, now) => starts[Key(channel, user) := now]
    case Remove(user, channel) => starts - {Key(channel, user)}
    case Clear(channel) => map k | k in starts && k.channel != channel :: starts[k]
    case Cleanup(_) => starts
  }

  function AllNoted(starts: map<Key, int>, ops: seq<Op>): map<Key, int>
    decreases |ops|
  {
    if ops == [] then starts else AllNoted(Noted(starts, ops[0]), ops[1..])
  }

  function Time(op: Op, clock: int): int {
    match op case Add(_, _, _, now) => now case Cleanup(now) => now case _ => clock
  }

  predicate Monotone(clock: int, ops: seq<Op>, end: int)
    decreases |ops|
  {
    if ops == [] then clock <= end else clock <= Time(ops[0], clock) && Monotone(Time(ops[0], clock), ops[1..], end)
  }

  /** Under ten seconds ago. */
  predicate Timely(starts: map<Key, int>, k: Key, now: int) { k in starts && now - starts[k] < 10000 }

  /** The list of a channel against the starts: one entry per user, with the time of the last start,
      and none missing that is under ten seconds old. */
  ghost predicate Matches(us: seq<TypingUser>, starts: map<Key, int>, channel: nat, now: int) {
    && Distinct(us)
    && (forall u :: u in us ==> Key(channel, u.user) in starts && starts[Key(channel, u.user)] == u.timestamp)
    && (forall user :: Timely(starts, Key(channel, user), now) ==> Listed(us, user))
  }

  ghost predicate Refines(s: Channels, starts: map<Key, int>, now: int) {
    forall c :: Matches(At(s, c), starts, c, now)
  }

  lemma AgingMatches(us: seq<TypingUser>, starts: map<Key, int>, channel: nat, now: int, later: int)
    requires Matches(us, starts, channel, now) && now <= later
    ensures Matches(us, starts, channel, later)
  {
    forall user | Timely(starts, Key(channel, user), later)
      ensures Listed(us, user)
    {
      assert Timely(starts, Key(channel, user), now);
    }
  }

  lemma TouchMatches(us: seq<TypingUser>, starts: map<Key, int>, channel: nat, user: nat, now: int)
    requires Matches(us, starts, channel, now) && Listed(us, user)
    ensures Matches(Touch(us, user, now), starts[Key(channel, user) := now], channel, now)
  {
    hide Touch;
    var after, starts' := Touch(us, user, now), starts[Key(channel, user) := now];
    forall u | u in after
      ensures Key(channel, u.user) in starts' && starts'[Key(channel, u.user)] == u.timestamp
    {
      var i :| 0 <= i < |after| && after[i] == u;
      assert us[i] in us;
    }
    forall v | Timely(starts', Key(channel, v), now)
      ensures Listed(after, v)
    {
      assert v != user ==> Timely(starts, Key(channel, v), now);
      assert Listed(us, v);
      var i :| 0 <= i < |us| && us[i].user == v;
      assert after[i].user == v;
    }
  }

  lemma AppendMatches(us: seq<TypingUser>, starts: map<Key, int>, channel: nat, u: TypingUser)
    requires Matches(us, starts, channel, u.timestamp) && !Listed(us, u.user)
    ensures Matches(us + [u], starts[Key(channel, u.user) := u.timestamp], channel, u.timestamp)
  {
    var after, starts' := us + [u], starts[Key(channel, u.user) := u.timestamp];
    assert forall t :: t in us ==> t.user != u.user;
    forall v | Timely(starts', Key(channel, v), u.timestamp)
      ensures Listed(after, v)
    {
      if v == u.user {
        assert after[|us|].user == v;
      } else {
        assert Timely(starts, Key(channel, v), u.timestamp);
        var i :| 0 <= i < |us| && us[i].user == v;
        assert after[i].user == v;
      }
    }
  }

  lemma {:induction false} NothingFiltered(us: seq<TypingUser>, user: nat)
    requires |Without(us, user)| == |us|
    ensures Without(us, user) == us
  {
    if us != [] {
      hide Distinct;
      var rest := Without(us[1..], user);
      assert Without(us, user) == if us[0].user == user then rest else [us[0]] + rest;
      assert us == [us[0]] + us[1..];
      NothingFiltered(us[1..], user);
    }
  }

  lemma WithoutMatches(us: seq<TypingUser>, starts: map<Key, int>, channel: nat, user: nat, now: int)
    requires Matches(us, starts, channel, now)
    ensures Matches(Without(us, user), starts - {Key(channel, user)}, channel, now)
  {
    forall v | Timely(starts - {Key(channel, user)}, Key(channel, v), now)
      ensures Listed(Without(us, user), v)
    {
      assert Timely(starts, Key(channel, v), now);
      var i :| 0 <= i < |us| && us[i].user == v;
      assert us[i] in us && us[i] in Without(us, user);
    }
  }

  lemma SweepMatches(us: seq<TypingUser>, starts: map<Key, int>, channel: nat, now: int)
    requires Matches(us, starts, channel, now)
    ensures Matches(StillCurrent(us, now), starts, channel, now)
  {
    forall v | Timely(starts, Key(channel, v), now)
      ensures Listed(StillCurrent(us, now), v)
    {
      var i :| 0 <= i < |us| && us[i].user == v;
      assert us[i] in us && us[i] in StillCurrent(us, now);
    }
  }

  /** Starts of other channels do not matter. */
  lemma SameStarts(us: seq<TypingUser>, a: map<Key, int>, b: map<Key, int>, channel: nat, now: int)
    requires Matches(us, a, channel, now)
    requires forall k: Key :: k.channel == channel ==> (k in a <==> k in b) && (k in a ==> a[k] == b[k])
    ensures Matches(us, b, channel, now)
  {
    forall v | Timely(b, Key(channel, v), now)
      ensures Listed(us, v)
    {
      assert Timely(a, Key(channel, v), now);
    }
  }

  lemma StepRefines(s: Channels, starts: map<Key, int>, op: Op, clock: int)
    requires Refines(s, starts, clock) && clock <= Time(op, clock)
    ensures Refines(Step(s, op), Noted(starts, op), Time(op, clock))
  {
    hide Matches;
    var now := Time(op, clock);
    forall c
      ensures Matches(At(Step(s, op), c), Noted(starts, op), c, now)
    {
      var us := At(s, c);
      AgingMatches(us, starts, c, clock, now);
      match op {
        case Add(user, name, channel, _) =>
          if c == channel {
            if Listed(us, user) { TouchMatches(us, starts, c, user, now); }
            else { AppendMatches(us, starts, c, TypingUser(user, name, now)); }
          }
          else { SameStarts(us, starts, Noted(starts, op), c, now); }
        case Remove(user, channel) =>
          if c == channel {
            WithoutMatches(us, starts, c, user, now);
            if |Without(us, user)| == |us| { NothingFiltered(us, user); }
          }
          else { SameStarts(us, starts, Noted(starts, op), c, now); }
        case Clear(channel) =>
          if c == channel { NothingMatches(Noted(starts, op), c, now); }
          else { SameStarts(us, starts, Noted(starts, op), c, now); }
        case Cleanup(_) => SweepMatches(us, starts, c, now);
      }
    }
  }

  lemma NothingMatches(starts: map<Key, int>, channel: nat, now: int)
    requires forall k: Key :: k in starts ==> k.channel != channel
    ensures Matches([], starts, channel, now)
  {}

  lemma {:induction false} RunRefines(s: Channels, starts: map<Key, int>, ops: seq<Op>, clock: int, end: int)
    requires Refines(s, starts, clock) && Monotone(clock, ops, end)
    ensures Refines(Run(s, ops), AllNoted(starts, ops), end)
    decreases |ops|
  {
    hide Matches, Step, Noted;
    if ops == [] {
      forall c ensures Matches(At(s, c), starts, c, end) {
        AgingMatches(At(s, c), starts, c, clock, end);
      }
    } else {
      StepRefines(s, starts, ops[0], clock);
      RunRefines(Step(s, ops[0]), Noted(starts, ops[0]), ops[1..], Time(ops[0], clock), end);
    }
  }

  /** For a monotone clock and every run, the users shown as typing are exactly those whose last
      start in the channel is under ten seconds old and not removed since, each once. */
  lemma ShowsRecentStarts(ops: seq<Op>, clock: int, now: int, channel: nat, selfUser: Option<nat>)
    requires Monotone(clock, ops, now)
    ensures var shown := Typing(Run(map[], ops), channel, selfUser, now);
            && Distinct(shown)
            && forall user: nat :: Listed(shown, user) <==>
                 selfUser != Some(user) && Timely(AllNoted(map[], ops), Key(channel, user), now)
  {
    hide Matches, Run, AllNoted, Monotone, Typing, Distinct;
    assert Refines(map[], map[], clock) by {
      forall c ensures Matches(At(map[], c), map[], c, clock) { NothingMatches(map[], c, clock); }
    }
    RunRefines(map[], map[], ops, clock, now);
    ReaderMatches(Run(map[], ops), AllNoted(map[], ops), channel, selfUser, now);
  }

  lemma ReaderMatches(s: Channels, starts: map<Key, int>, channel: nat, selfUser: Option<nat>, now: int)
    requires Matches(At(s, channel), starts, channel, now)
    ensures var shown := Typing(s, channel, selfUser, now);
            && Distinct(shown)
            && forall user: nat :: Listed(shown, user) <==>
                 selfUser != Some(user) && Timely(starts, Key(channel, user), now)
  {
    hide Without, StillCurrent;
    var us, shown := At(s, channel), Typing(s, channel, selfUser, now);
    forall u: TypingUser
      ensures u in shown <==> u in us && selfUser != Some(u.user) && Current(u, now)
    {}
    forall user: nat
      ensures Listed(shown, user) <==> selfUser != Some(user) && Timely(starts, Key(channel, user), now)
    {
      if Listed(shown, user) {
        var i :| 0 <= i < |shown| && shown[i].user == user;
        assert shown[i] in shown && shown[i] in us;
      }
      if selfUser != Some(user) && Timely(starts, Key(channel, user), now) {
        var i :| 0 <= i < |us| && us[i].user == user;
        assert us[i] in us && us[i] in shown;
      }
    }
  }

  function WithoutSweeps(ops: seq<Op>): seq<Op> {
    if ops == [] then [] else (if ops[0].Cleanup? then [] else [ops[0]]) + WithoutSweeps(ops[1..])
  }

  lemma MonotoneCons(op: Op, rest: seq<Op>, clock: int, end: int)
    requires clock <= Time(op, clock) && forall earlier :: earlier <= Time(op, clock) ==> Monotone(earlier, rest, end)
    ensures forall earlier :: earlier <= clock ==> Monotone(earlier, [op] + rest, end)
  {
    assert ([op] + rest)[1..] == rest;
  }

  lemma {:induction false} SweepsNoteNothing(starts: map<Key, int>, ops: seq<Op>, clock: int, end: int)
    requires Monotone(clock, ops, end)
    ensures AllNoted(starts, WithoutSweeps(ops)) == AllNoted(starts, ops)
    ensures forall earlier :: earlier <= clock ==> Monotone(earlier, WithoutSweeps(ops), end)
    decreases |ops|
  {
    if ops != [] {
      var rest := WithoutSweeps(ops[1..]);
      SweepsNoteNothing(Noted(starts, ops[0]), ops[1..], Time(ops[0], clock), end);
      if ops[0].Cleanup? {
        assert WithoutSweeps(ops) == rest;
      } else {
        assert WithoutSweeps(ops) == [ops[0]] + rest;
        assert ([ops[0]] + rest)[1..] == rest;
        MonotoneCons(ops[0], rest, clock, end);
      }
    }
  }

  /** Sweeps can be added or dropped anywhere without changing who is shown. */
  lemma SweepsAreInvisible(ops: seq<Op>, clock: int, now: int, channel: nat, selfUser: Option<nat>, user: nat)
    requires Monotone(clock, ops, now)
    ensures Listed(Typing(Run(map[], ops), channel, selfUser, now), user)
            <==> Listed(Typing(Run(map[], WithoutSweeps(ops)), channel, selfUser, now), user)
  {
    SweepsNoteNothing(map[], ops, clock, now);
    ShowsRecentStarts(ops, clock, now, channel, selfUser);
    ShowsRecentStarts(WithoutSweeps(ops), clock, now, channel, selfUser);
  }
}
