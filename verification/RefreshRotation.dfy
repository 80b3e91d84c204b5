/** Refresh-token rotation: sessions, the read and compare-and-swap steps of a refresh, and
    password reset, interleaved in any order under a clock that never goes back. */
module RefreshRotation {
  import opened Wrappers

  const NANOS := 1_000_000_000
  const REFRESH_MINUTES := 10080

  /** Seconds by which a token may be past its expiry and still validate. */
  const LEEWAY := 60

  datatype TokenType = Access | Refresh

  /** Everything a token is made of; times are whole seconds and nothing makes it unique. */
  datatype Claims = Claims(sub: nat, exp: int, iat: int, username: string, tokenType: TokenType)

  /** Whole seconds of a time in nanoseconds. */
  function Second(t: nat): nat { t / NANOS }

  /** `now` is in nanoseconds. */
  function NewClaims(user: nat, username: string, now: nat, minutes: nat, tokenType: TokenType): Claims {
    Claims(user, Second(now + minutes * 60 * NANOS), Second(now), username, tokenType)
  }

  /** Signing and hashing are injective, so a stored hash is the token's claims. */
  function RefreshToken(user: nat, username: string, now: nat): Claims {
    NewClaims(user, username, now, REFRESH_MINUTES, Refresh)
  }

  /** Two refresh tokens of one user are equal exactly when they are minted in the same second. */
  lemma SameTokenIffSameSecond(user: nat, username: string, t: nat, u: nat)
    ensures RefreshToken(user, username, t) == RefreshToken(user, username, u) <==> Second(t) == Second(u)
  {
    WholeDays(t);
    WholeDays(u);
  }

  lemma WholeDays(t: nat)
    ensures Second(t + REFRESH_MINUTES * 60 * NANOS) == Second(t) + REFRESH_MINUTES * 60
  {}

  /** What a refresh token says: its user, its second, and an expiry a week later. */
  lemma TokenClaims(user: nat, username: string, now: nat)
    ensures RefreshToken(user, username, now)
            == Claims(user, now / 1_000_000_000 + 604_800, now / 1_000_000_000, username, Refresh)
  {
    WholeDays(now);
  }

  datatype Session = Session(user: nat, hash: Claims, expires: nat)

  /** A refresh request between its SELECT and its UPDATE. */
  datatype Reader = Reader(session: nat, user: nat, presented: Claims, minted: Option<Claims>, finished: bool)

  /** One successful refresh. */
  datatype Exchange = Exchange(session: nat, reader: nat, presented: Claims, minted: Claims)

  datatype State = State(
    now: nat,
    names: map<nat, string>,
    disabled: set<nat>,
    sessions: map<nat, Session>,
    usedSessions: set<nat>,
    firsts: map<nat, Claims>,
    readers: map<nat, Reader>,
    log: seq<Exchange>)

  datatype Op =
    | Tick(nanos: nat)
    | Login(session: nat, user: nat)
    | Read(reader: nat, session: nat, token: Claims)
    | Mint(reader: nat)
    | Swap(reader: nat)
    | ResetPassword(user: nat)
    | DropSession(session: nat)
    | Disable(user: nat)
    | Enable(user: nat)

  const WEEK: nat := 7 * 24 * 3600 * NANOS

  /** The SELECT of a refresh finds a session by the hash of a token that has not expired. */
  predicate Readable(s: State, session: nat, token: Claims) {
    && token.tokenType == Refresh && token.exp >= Second(s.now) - LEEWAY
    && session in s.sessions && s.sessions[session].hash == token && s.sessions[session].expires > s.now
    && s.sessions[session].user in s.names && s.sessions[session].user !in s.disabled
  }

  predicate Swappable(s: State, r: Reader) {
    r.session in s.sessions && s.sessions[r.session].hash == r.presented
  }

  function Step(s: State, op: Op): State {
    match op
    case Tick(nanos) => s.(now := s.now + nanos)
    case Login(session, user) =>
      if session in s.usedSessions || user !in s.names || user in s.disabled then s
      else
        var token := RefreshToken(user, s.names[user], s.now);
        s.(sessions := s.sessions[session := Session(user, token, s.now + WEEK)],
           usedSessions := s.usedSessions + {session},
           firsts := s.firsts[session := token])
    case Read(p, session, token) =>
      if p in s.readers || !Readable(s, session, token) then s
      else s.(readers := s.readers[p := Reader(session, s.sessions[session].user, token, None, false)])
    case Mint(p) =>
      if p !in s.readers || s.readers[p].minted.Some? || s.readers[p].user !in s.names then s
      else
        var r := s.readers[p];
        s.(readers := s.readers[p := r.(minted := Some(RefreshToken(r.user, s.names[r.user], s.now)))])
    case Swap(p) =>
      if p !in s.readers || s.readers[p].minted.None? || s.readers[p].finished then s
      else
        var r := s.readers[p];
        var t := s.(readers := s.readers[p := r.(finished := true)]);
        if !Swappable(s, r) then t
        else t.(sessions := s.sessions[r.session := s.sessions[r.session].(hash := r.minted.value)],
                log := s.log + [Exchange(r.session, p, r.presented, r.minted.value)])
    case ResetPassword(user) =>
      s.(sessions := map k | k in s.sessions && s.sessions[k].user != user :: s.sessions[k])
    case DropSession(session) => s.(sessions := s.sessions - {session})
    case Disable(user) => s.(disabled := s.disabled + {user})
    case Enable(user) => s.(disabled := s.disabled - {user})
  }

  function Run(s: State, ops: seq<Op>): State {
    if ops == [] then s else Step(Run(s, ops[..|ops| - 1]), ops[|ops| - 1])
  }

  function Start(names: map<nat, string>, now: nat): State {
    State(now, names, {}, map[], {}, map[], map[], [])
  }

  // ---- The tables as an object ---------------------------------------------------

  class AuthTables {
    var now: nat
    var names: map<nat, string>
    var disabled: set<nat>
    var sessions: map<nat, Session>
    var usedSessions: set<nat>
    ghost var firsts: map<nat, Claims>
    var readers: map<nat, Reader>
    ghost var log: seq<Exchange>

    ghost function Value(): State
      reads this
    {
      State(now, names, disabled, sessions, usedSessions, firsts, readers, log)
    }

    constructor (names: map<nat, string>, now: nat)
      ensures Value() == Start(names, now)
    {
      this.now, this.names, this.disabled := now, names, {};
      sessions, usedSessions, readers := map[], {}, map[];
      firsts, log := map[], [];
    }

    method LogIn(session: nat, user: nat) returns (token: Option<Claims>)
      requires session !in usedSessions
      modifies this
      ensures Value() == Step(old(Value()), Login(session, user))
      ensures token.Some? <==> user in names && user !in disabled
      ensures token.Some? ==>
                && var second := now / 1_000_000_000;
                && token.value == Claims(user, second + 604_800, second, names[user], Refresh)
                && sessions == old(sessions)[session := Session(user, token.value, now + 604_800_000_000_000)]
      ensures token.None? ==> sessions == old(sessions)
    {
      if user !in names || user in disabled { return None; }
      TokenClaims(user, names[user], now);
      var minted := RefreshToken(user, names[user], now);
      usedSessions := usedSessions + {session};
      sessions := sessions[session := Session(user, minted, now + WEEK)];
      firsts := firsts[session := minted];
      return Some(minted);
    }

    /** refresh_token up to the new token: validation, SELECT of the session and of the user. */
    method BeginRefresh(p: nat, session: nat, token: Claims) returns (ok: bool)
      requires p !in readers
      modifies this
      ensures Value() == Step(Step(old(Value()), Read(p, session, token)), Mint(p))
      ensures ok <==>
                && token.tokenType == Refresh && now / 1_000_000_000 <= token.exp + 60
                && session in sessions && sessions[session].hash == token && now < sessions[session].expires
                && sessions[session].user in names && sessions[session].user !in disabled
      ensures sessions == old(sessions) && (!ok ==> readers == old(readers))
      ensures ok ==>
                && var user, second := sessions[session].user, now / 1_000_000_000;
                && var minted := Claims(user, second + 604_800, second, names[user], Refresh);
                && readers == old(readers)[p := Reader(session, user, token, Some(minted), false)]
    {
      if token.exp < Second(now) - LEEWAY { return false; }
      if token.tokenType != Refresh { return false; }
      if session !in sessions || sessions[session].hash != token || sessions[session].expires <= now { return false; }
      var user := sessions[session].user;
      if user !in names { return false; }
      if user in disabled { return false; }
      TokenClaims(user, names[user], now);
      readers := readers[p := Reader(session, user, token, Some(RefreshToken(user, names[user], now)), false)];
      return true;
    }

    /** The compare-and-swap UPDATE and the check of its row count. */
    method FinishRefresh(p: nat) returns (token: Option<Claims>)
      requires p in readers && readers[p].minted.Some? && !readers[p].finished
      modifies this
      ensures Value() == Step(old(Value()), Swap(p))
      ensures token.Some? <==>
                && var r := old(readers[p]);
                && r.session in old(sessions) && old(sessions)[r.session].hash == r.presented
      ensures token.None? ==> sessions == old(sessions)
      ensures token.Some? ==>
                && var r := old(readers[p]);
                && token == r.minted
                && sessions == old(sessions)[r.session := old(sessions)[r.session].(hash := token.value)]
    {
      var r := readers[p];
      readers := readers[p := r.(finished := true)];
      if r.session !in sessions || sessions[r.session].hash != r.presented { return None; }
      sessions := sessions[r.session := sessions[r.session].(hash := r.minted.value)];
      log := log + [Exchange(r.session, p, r.presented, r.minted.value)];
      return r.minted;
    }

    method Reset(user: nat)
      modifies this
      ensures Value() == Step(old(Value()), ResetPassword(user))
      ensures forall k :: k in sessions <==> k in old(sessions) && old(sessions)[k].user != user
      ensures forall k :: k in sessions ==> sessions[k] == old(sessions)[k]
    {
      sessions := map k | k in sessions && sessions[k].user != user :: sessions[k];
    }
  }

  // ---- The chain of a session ------------------------------------------------------

  /** The exchanges of one session, in order. */
  function Of(log: seq<Exchange>, session: nat): seq<Exchange> {
    if log == [] then []
    else Of(log[..|log| - 1], session) + (if log[|log| - 1].session == session then [log[|log| - 1]] else [])
  }

  /** Each exchange presents the token the one before it minted. */
  predicate IsChain(first: Claims, es: seq<Exchange>) {
    forall i :: 0 <= i < |es| ==> es[i].presented == Previous(first, es, i)
  }

  /** The token a session holds before its i-th exchange. */
  function Previous(first: Claims, es: seq<Exchange>, i: nat): Claims
    requires i <= |es|
  {
    if i == 0 then first else es[i - 1].minted
  }

  /** The end of the chain of a session. */
  function Final(s: State, session: nat): Claims
    requires session in s.firsts
  {
    Previous(s.firsts[session], Of(s.log, session), |Of(s.log, session)|)
  }

  // ---- The invariant -----------------------------------------------------------------

  /** A refresh token of a known user that was minted no later than now. */
  predicate Genuine(s: State, c: Claims, user: nat) {
    && user in s.names && c.iat <= Second(s.now)
    && c == Claims(user, c.iat + REFRESH_MINUTES * 60, c.iat, s.names[user], Refresh)
  }

  predicate GoodReader(s: State, r: Reader) {
    && r.session in s.firsts && s.firsts[r.session].sub == r.user
    && Genuine(s, r.presented, r.user)
    && (r.minted.Some? ==> Genuine(s, r.minted.value, r.user) && r.presented.iat <= r.minted.value.iat)
  }

  predicate GoodExchange(s: State, e: Exchange) {
    && e.session in s.firsts
    && Genuine(s, e.presented, s.firsts[e.session].sub) && Genuine(s, e.minted, s.firsts[e.session].sub)
    && e.presented.iat <= e.minted.iat
  }

  /** Sessions belong to the user of their first token and hold the end of their chain. */
  predicate SessionsMatch(s: State) {
    && s.firsts.Keys == s.usedSessions
    && s.sessions.Keys <= s.usedSessions
    && (forall k :: k in s.firsts ==> Genuine(s, s.firsts[k], s.firsts[k].sub))
    && (forall k :: k in s.sessions ==> s.sessions[k].hash == Final(s, k) && s.sessions[k].user == s.firsts[k].sub)
  }

  predicate Chained(s: State) { forall k :: k in s.firsts ==> IsChain(s.firsts[k], Of(s.log, k)) }

  predicate ReadersGood(s: State) { forall p :: p in s.readers ==> GoodReader(s, s.readers[p]) }

  predicate LogGood(s: State) { forall i :: 0 <= i < |s.log| ==> GoodExchange(s, s.log[i]) }

  predicate Inv(s: State) { SessionsMatch(s) && Chained(s) && ReadersGood(s) && LogGood(s) }

  lemma MintedIsGenuine(s: State, user: nat)
    requires user in s.names
    ensures Genuine(s, RefreshToken(user, s.names[user], s.now), user)
  {
    WholeDays(s.now);
  }

  lemma {:induction false} OfMembers(log: seq<Exchange>, k: nat)
    ensures forall e :: e in Of(log, k) <==> e in log && e.session == k
  {
    if log != [] {
      OfMembers(log[..|log| - 1], k);
      assert log == log[..|log| - 1] + [log[|log| - 1]];
    }
  }

  lemma OfAppend(log: seq<Exchange>, e: Exchange, k: nat)
    ensures Of(log + [e], k) == Of(log, k) + (if e.session == k then [e] else [])
  {
    assert (log + [e])[..|log|] == log;
  }

  lemma FinalIsGenuine(s: State, k: nat)
    requires LogGood(s) && k in s.firsts && Genuine(s, s.firsts[k], s.firsts[k].sub)
    ensures Genuine(s, Final(s, k), s.firsts[k].sub)
  {
    hide Genuine;
    var es := Of(s.log, k);
    if es != [] {
      InLog(s, k, |es| - 1);
    }
  }

  lemma InLog(s: State, k: nat, i: nat)
    requires LogGood(s) && i < |Of(s.log, k)|
    ensures GoodExchange(s, Of(s.log, k)[i]) && Of(s.log, k)[i].session == k
  {
    hide GoodExchange;
    OfMembers(s.log, k);
    var e := Of(s.log, k)[i];
    assert e in Of(s.log, k);
    var q :| 0 <= q < |s.log| && s.log[q] == e;
  }

  /** States that differ only in what genuineness does not look at. */
  lemma GoodStays(s: State, t: State)
    requires ReadersGood(s) && LogGood(s)
    requires s.now <= t.now && t.names == s.names
    requires forall k :: k in s.firsts ==> k in t.firsts && t.firsts[k] == s.firsts[k]
    ensures forall c, u :: Genuine(s, c, u) ==> Genuine(t, c, u)
    ensures forall p :: p in s.readers ==> GoodReader(t, s.readers[p])
    ensures forall i :: 0 <= i < |s.log| ==> GoodExchange(t, s.log[i])
  {
    SecondsMonotone(s.now, t.now);
    hide Second;
    assert forall p :: p in s.readers ==> GoodReader(s, s.readers[p]);
    assert forall i :: 0 <= i < |s.log| ==> GoodExchange(s, s.log[i]);
  }

  lemma SecondsMonotone(t: nat, u: nat)
    requires t <= u
    ensures Second(t) <= Second(u)
  {}

  lemma LoginKeeps(s: State, k: nat, user: nat)
    requires Inv(s) && k !in s.usedSessions && user in s.names && user !in s.disabled
    ensures Inv(Step(s, Login(k, user)))
  {
    var t := Step(s, Login(k, user));
    LoginSessions(s, k, user);
    NoExchangeYet(s, k);
    hide RefreshToken, Genuine, GoodReader, GoodExchange, Of, SessionsMatch;
    GoodStays(s, t);
    forall j | j in t.firsts ensures IsChain(t.firsts[j], Of(t.log, j)) {
      assert j != k ==> j in s.firsts;
    }
  }

  lemma LoginSessions(s: State, k: nat, user: nat)
    requires Inv(s) && k !in s.usedSessions && user in s.names && user !in s.disabled
    ensures SessionsMatch(Step(s, Login(k, user)))
  {
    hide RefreshToken, Genuine, Of, Chained, ReadersGood, LogGood;
    var t := Step(s, Login(k, user));
    NewSession(s, k, user);
    forall j | j in s.firsts
      ensures Genuine(t, t.firsts[j], t.firsts[j].sub) && Final(t, j) == Final(s, j)
    {
      OldSession(s, k, user, j);
    }
  }

  lemma NewSession(s: State, k: nat, user: nat)
    requires Inv(s) && k !in s.usedSessions && user in s.names && user !in s.disabled
    ensures var t := Step(s, Login(k, user));
            && Genuine(t, t.firsts[k], t.firsts[k].sub) && t.firsts[k].sub == user
            && t.sessions[k].hash == Final(t, k) && t.sessions[k].user == user
  {
    NoExchangeYet(s, k);
    MintedIsGenuine(s, user);
    hide Of, Chained, ReadersGood, LogGood, SessionsMatch;
  }

  lemma OldSession(s: State, k: nat, user: nat, j: nat)
    requires SessionsMatch(s) && k !in s.usedSessions && user in s.names && user !in s.disabled && j in s.firsts
    ensures var t := Step(s, Login(k, user));
            && j != k && t.firsts[j] == s.firsts[j]
            && Genuine(t, t.firsts[j], t.firsts[j].sub) && Final(t, j) == Final(s, j)
  {
    hide RefreshToken, Of;
  }

  lemma NoExchangeYet(s: State, k: nat)
    requires Inv(s) && k !in s.firsts
    ensures Of(s.log, k) == []
  {
    hide Genuine, Of;
    if Of(s.log, k) != [] {
      InLog(s, k, 0);
    }
  }

  lemma SwapKeeps(s: State, p: nat)
    requires Inv(s) && p in s.readers && Swappable(s, s.readers[p])
    requires s.readers[p].minted.Some? && !s.readers[p].finished
    ensures Inv(Step(s, Swap(p)))
  {
    hide Genuine, IsChain, Of;
    var t := Step(s, Swap(p));
    var r := s.readers[p];
    var e := Exchange(r.session, p, r.presented, r.minted.value);
    assert GoodReader(s, r);
    forall k | k in s.firsts
      ensures IsChain(t.firsts[k], Of(t.log, k))
      ensures k in t.sessions ==> t.sessions[k].hash == Final(t, k)
    {
      OfAppend(s.log, e, k);
      assert Of(s.log, k) + [] == Of(s.log, k);
      if k == r.session {
        ChainGrows(s.firsts[k], Of(s.log, k), e);
      }
    }
    GoodStays(s, t);
    assert GoodReader(t, t.readers[p]);
  }

  lemma ChainGrows(first: Claims, es: seq<Exchange>, e: Exchange)
    requires IsChain(first, es) && e.presented == Previous(first, es, |es|)
    ensures IsChain(first, es + [e])
  {
    var fs := es + [e];
    assert forall i :: 0 <= i <= |es| ==> Previous(first, fs, i) == Previous(first, es, i);
    assert forall i :: 0 <= i < |es| ==> fs[i] == es[i];
  }

  lemma ReaderKeeps(s: State, p: nat, r: Reader)
    requires Inv(s) && GoodReader(s, r)
    ensures Inv(s.(readers := s.readers[p := r]))
  {
    var t := s.(readers := s.readers[p := r]);
    SameLog(s, t);
    hide Genuine, GoodReader, GoodExchange, Of;
    GoodStays(s, t);
    assert GoodReader(t, r) by { SameGood(s, t, r); }
  }

  lemma SameLog(s: State, t: State)
    requires Chained(s) && t.log == s.log && t.firsts == s.firsts
    ensures Chained(t)
  {}

  lemma SameGood(s: State, t: State, r: Reader)
    requires GoodReader(s, r) && t.now == s.now && t.names == s.names && t.firsts == s.firsts
    ensures GoodReader(t, r)
  {}

  lemma ReadKeeps(s: State, p: nat, k: nat, token: Claims)
    requires Inv(s)
    ensures Inv(Step(s, Read(p, k, token)))
  {
    hide Genuine, Of, GoodExchange;
    if p !in s.readers && Readable(s, k, token) {
      FinalIsGenuine(s, k);
      ReaderKeeps(s, p, Reader(k, s.sessions[k].user, token, None, false));
    }
  }

  lemma MintKeeps(s: State, p: nat)
    requires Inv(s)
    ensures Inv(Step(s, Mint(p)))
  {
    hide Of, GoodExchange;
    if p in s.readers && s.readers[p].minted.None? {
      var r := s.readers[p];
      assert GoodReader(s, r);
      MintedIsGenuine(s, r.user);
      ReaderKeeps(s, p, r.(minted := Some(RefreshToken(r.user, s.names[r.user], s.now))));
    }
  }

  lemma FinishKeeps(s: State, p: nat)
    requires Inv(s)
    ensures Inv(Step(s, Swap(p)))
  {
    hide Of, Genuine;
    if p in s.readers && s.readers[p].minted.Some? && !s.readers[p].finished {
      var r := s.readers[p];
      if Swappable(s, r) {
        SwapKeeps(s, p);
      } else {
        assert GoodReader(s, r);
        ReaderKeeps(s, p, r.(finished := true));
      }
    }
  }

  /** Clock, session removal and disabling. */
  lemma OthersKeep(s: State, t: State)
    requires Inv(s) && t == s.(now := t.now, sessions := t.sessions, disabled := t.disabled) && s.now <= t.now
    requires forall k :: k in t.sessions ==> k in s.sessions && t.sessions[k] == s.sessions[k]
    ensures Inv(t)
  {
    hide Genuine, GoodReader, GoodExchange, Of, IsChain;
    GoodStays(s, t);
  }

  lemma StepKeeps(s: State, op: Op)
    requires Inv(s)
    ensures Inv(Step(s, op))
  {
    hide Inv, Swappable, Readable;
    match op {
      case Login(k, user) =>
        if k !in s.usedSessions && user in s.names && user !in s.disabled {
          LoginKeeps(s, k, user);
        }
      case Read(p, k, token) => ReadKeeps(s, p, k, token);
      case Mint(p) => MintKeeps(s, p);
      case Swap(p) => FinishKeeps(s, p);
      case _ => OthersKeep(s, Step(s, op));
    }
  }

  lemma {:induction false} RunKeeps(s: State, ops: seq<Op>)
    requires Inv(s)
    ensures Inv(Run(s, ops))
  {
    hide Inv, Step;
    if ops != [] {
      RunKeeps(s, ops[..|ops| - 1]);
      StepKeeps(Run(s, ops[..|ops| - 1]), ops[|ops| - 1]);
    }
  }

  // ---- Main results ----------------------------------------------------------------

  /** In every interleaving the successful refreshes of a session form a chain that starts at
      the token of its login and ends at the stored hash. */
  lemma RotationIsAChain(names: map<nat, string>, now: nat, ops: seq<Op>, k: nat)
    requires k in Run(Start(names, now), ops).firsts
    ensures var s := Run(Start(names, now), ops);
            && IsChain(s.firsts[k], Of(s.log, k))
            && (k in s.sessions ==> s.sessions[k].hash == Final(s, k))
  {
    RunKeeps(Start(names, now), ops);
  }

  // ---- Single use within one session -------------------------------------------------

  /** Every exchanged token of the session was exchanged once and is not the stored one. */
  predicate SingleUse(s: State, k: nat)
    requires k in s.firsts
  {
    var es := Of(s.log, k);
    && (forall i, j :: 0 <= i < j < |es| ==> es[i].presented != es[j].presented)
    && (forall i :: 0 <= i < |es| ==> es[i].presented != Final(s, k))
  }

  /** Every exchange happened in a later second than the one its token was issued in. */
  predicate LaterSecond(es: seq<Exchange>) {
    forall i :: 0 <= i < |es| ==> es[i].presented.iat < es[i].minted.iat
  }

  lemma Link(first: Claims, es: seq<Exchange>, i: nat)
    requires IsChain(first, es) && 0 < i < |es|
    ensures es[i].presented == es[i - 1].minted
  {
    assert es[i].presented == Previous(first, es, i);
  }

  lemma {:induction false} SecondsGrow(first: Claims, es: seq<Exchange>, i: nat, j: nat)
    requires IsChain(first, es) && LaterSecond(es) && i <= j < |es|
    ensures es[i].presented.iat < es[j].minted.iat
    ensures i < j ==> es[i].presented.iat < es[j].presented.iat
    decreases j - i
  {
    hide IsChain;
    if i < j {
      SecondsGrow(first, es, i, j - 1);
      Link(first, es, j);
    }
  }

  lemma Increasing(first: Claims, es: seq<Exchange>, last: Claims)
    requires IsChain(first, es) && LaterSecond(es) && (es != [] ==> last == es[|es| - 1].minted)
    ensures forall i, j :: 0 <= i < j < |es| ==> es[i].presented != es[j].presented
    ensures forall i :: 0 <= i < |es| ==> es[i].presented != last
  {
    hide IsChain, LaterSecond;
    forall i, j | 0 <= i < j < |es| ensures es[i].presented != es[j].presented {
      SecondsGrow(first, es, i, j);
    }
    forall i | 0 <= i < |es| ensures es[i].presented != last {
      SecondsGrow(first, es, i, |es| - 1);
    }
  }

  /** Within one session rotation makes tokens single-use exactly when no token is refreshed within
      the second it was issued in, because the claims contain nothing finer than whole seconds. */
  lemma SingleUseIffLaterSecond(names: map<nat, string>, now: nat, ops: seq<Op>, k: nat)
    requires k in Run(Start(names, now), ops).firsts
    ensures var s := Run(Start(names, now), ops); SingleUse(s, k) <==> LaterSecond(Of(s.log, k))
  {
    RunKeeps(Start(names, now), ops);
    var s := Run(Start(names, now), ops);
    var es := Of(s.log, k);
    hide Run, Of, Second, Genuine;
    if LaterSecond(es) {
      Increasing(s.firsts[k], es, Final(s, k));
    } else {
      forall i | 0 <= i < |es| ensures GoodExchange(s, es[i]) && es[i].session == k { InLog(s, k, i); }
      NotLater(s, k, es);
    }
  }

  lemma NotLater(s: State, k: nat, es: seq<Exchange>)
    requires k in s.firsts && es == Of(s.log, k) && IsChain(s.firsts[k], es) && !LaterSecond(es)
    requires forall i :: 0 <= i < |es| ==> GoodExchange(s, es[i]) && es[i].session == k
    ensures !SingleUse(s, k)
  {
    hide Of, Second, IsChain;
    var i :| 0 <= i < |es| && es[i].presented.iat >= es[i].minted.iat;
    assert GoodExchange(s, es[i]) && es[i].presented == es[i].minted;
    if i + 1 < |es| {
      Link(s.firsts[k], es, i + 1);
    }
  }

  /** Two requests that arrive one after the other in one second can both spend the same token. */
  lemma ReplayWithinOneSecond(s: State, k: nat, p: nat, q: nat)
    requires Inv(s) && k in s.sessions && Readable(s, k, s.sessions[k].hash)
    requires p !in s.readers && q !in s.readers && p != q
    requires s.sessions[k].hash.iat == Second(s.now)
    ensures var token := s.sessions[k].hash;
            var a := Step(Step(Step(s, Read(p, k, token)), Mint(p)), Swap(p));
            var b := Step(Step(Step(a, Read(q, k, token)), Mint(q)), Swap(q));
            b.log == s.log + [Exchange(k, p, token, token), Exchange(k, q, token, token)]
  {
    var token := s.sessions[k].hash;
    var a := Step(Step(Step(s, Read(p, k, token)), Mint(p)), Swap(p));
    RefreshInSameSecond(s, k, p);
    RefreshInSameSecond(a, k, q);
  }

  lemma RefreshInSameSecond(s: State, k: nat, p: nat)
    requires SessionsMatch(s) && LogGood(s) && k in s.sessions && Readable(s, k, s.sessions[k].hash) && p !in s.readers
    requires s.sessions[k].hash.iat == Second(s.now)
    ensures var token := s.sessions[k].hash;
            var a := Step(Step(Step(s, Read(p, k, token)), Mint(p)), Swap(p));
            && a == s.(readers := a.readers, log := s.log + [Exchange(k, p, token, token)])
            && a.readers.Keys == s.readers.Keys + {p}
            && SessionsMatch(a) && LogGood(a)
  {
    var token := s.sessions[k].hash;
    FinalIsGenuine(s, k);
    MintedIsGenuine(s, s.sessions[k].user);
    assert RefreshToken(token.sub, s.names[token.sub], s.now).iat == Second(s.now);
    hide RefreshToken, Second, Of;
    var b := Step(Step(s, Read(p, k, token)), Mint(p));
    assert b.readers[p].minted == Some(token);
    var a := Step(b, Swap(p));
    assert a.sessions == s.sessions;
    SelfExchange(s, a, Exchange(k, p, token, token));
  }

  lemma SelfExchange(s: State, a: State, e: Exchange)
    requires SessionsMatch(s) && LogGood(s) && a == s.(readers := a.readers, log := s.log + [e])
    requires e.session in s.sessions && e.presented == e.minted == s.sessions[e.session].hash
    requires Genuine(s, e.minted, s.firsts[e.session].sub)
    ensures SessionsMatch(a) && LogGood(a)
  {
    hide Of, Second;
    forall j | j in s.firsts ensures j in a.sessions ==> a.sessions[j].hash == Final(a, j) {
      OfAppend(s.log, e, j);
      assert Of(s.log, j) + [] == Of(s.log, j);
    }
    forall i | 0 <= i < |a.log| ensures GoodExchange(a, a.log[i]) {
      assert i < |s.log| ==> GoodExchange(s, s.log[i]);
    }
  }

  // ---- Single use across sessions ------------------------------------------------------

  /** The `index`-th token of a session: 0 is the login's, i the one its i-th exchange minted. */
  datatype Issue = Issue(session: nat, index: nat)

  predicate Issued(s: State, h: Issue) { h.session in s.firsts && h.index <= |Of(s.log, h.session)| }

  function TokenOf(s: State, h: Issue): Claims
    requires Issued(s, h)
  {
    Previous(s.firsts[h.session], Of(s.log, h.session), h.index)
  }

  predicate Spent(s: State, h: Issue) { Issued(s, h) && h.index < |Of(s.log, h.session)| }

  predicate Stored(s: State, h: Issue) {
    Issued(s, h) && h.index == |Of(s.log, h.session)| && h.session in s.sessions
  }

  /** No token is presented by two exchanges, of whatever sessions, and none that was spent is still
      stored in any session. */
  predicate SpentOnce(s: State) {
    && (forall i, j :: 0 <= i < j < |s.log| ==> s.log[i].presented != s.log[j].presented)
    && (forall i, k :: 0 <= i < |s.log| && k in s.sessions ==> s.log[i].presented != s.sessions[k].hash)
  }

  /** A token that was spent and another one, spent or stored, of the same user come from different
      seconds. */
  ghost predicate SecondsApart(s: State) {
    forall h, g :: Spent(s, h) && (Spent(s, g) || Stored(s, g)) && h != g
                   && s.firsts[h.session].sub == s.firsts[g.session].sub ==>
      TokenOf(s, h).iat != TokenOf(s, g).iat
  }

  /** How many exchanges its session had before the `i`-th exchange of the log. */
  function Rank(log: seq<Exchange>, i: nat): nat
    requires i < |log|
  {
    |Of(log[..i], log[i].session)|
  }

  lemma {:induction false} OfPrefix(log: seq<Exchange>, n: nat, k: nat)
    requires n <= |log|
    ensures |Of(log[..n], k)| <= |Of(log, k)|
    ensures Of(log[..n], k) == Of(log, k)[..|Of(log[..n], k)|]
  {
    if n == |log| {
      assert log[..n] == log;
    } else {
      var m := |log| - 1;
      OfPrefix(log[..m], n, k);
      assert log[..m][..n] == log[..n];
      assert log == log[..m] + [log[m]];
      OfAppend(log[..m], log[m], k);
    }
  }

  lemma RankIs(log: seq<Exchange>, i: nat)
    requires i < |log|
    ensures Rank(log, i) < |Of(log, log[i].session)| && Of(log, log[i].session)[Rank(log, i)] == log[i]
    ensures |Of(log[..i + 1], log[i].session)| == Rank(log, i) + 1
  {
    hide Of;
    var k := log[i].session;
    assert log[..i + 1] == log[..i] + [log[i]];
    OfAppend(log[..i], log[i], k);
    OfPrefix(log, i + 1, k);
    assert Of(log[..i + 1], k)[Rank(log, i)] == log[i];
  }

  lemma RanksDiffer(log: seq<Exchange>, i: nat, j: nat)
    requires i < j < |log| && log[i].session == log[j].session
    ensures Rank(log, i) < Rank(log, j)
  {
    hide Of;
    RankIs(log, i);
    assert log[..j][..i + 1] == log[..i + 1];
    OfPrefix(log[..j], i + 1, log[i].session);
  }

  lemma {:induction false} Unrank(log: seq<Exchange>, k: nat, p: nat) returns (i: nat)
    requires p < |Of(log, k)|
    ensures i < |log| && log[i].session == k && Rank(log, i) == p
  {
    var m := |log| - 1;
    assert log == log[..m] + [log[m]];
    OfAppend(log[..m], log[m], k);
    if p < |Of(log[..m], k)| {
      i := Unrank(log[..m], k, p);
      assert log[..m][..i] == log[..i];
    } else {
      i := m;
    }
  }

  /** The exchange at `i` spends the token of its session and rank. */
  lemma SpentAt(s: State, i: nat)
    requires Inv(s) && i < |s.log|
    ensures var h := Issue(s.log[i].session, Rank(s.log, i));
            Spent(s, h) && TokenOf(s, h) == s.log[i].presented
  {
    hide Of, SessionsMatch, ReadersGood, Genuine, Rank;
    assert GoodExchange(s, s.log[i]);
    RankIs(s.log, i);
    assert IsChain(s.firsts[s.log[i].session], Of(s.log, s.log[i].session));
  }

  lemma StoredIsFinal(s: State, k: nat)
    requires Inv(s) && k in s.sessions
    ensures var g := Issue(k, |Of(s.log, k)|); Stored(s, g) && TokenOf(s, g) == s.sessions[k].hash
  {
    hide Of, Genuine;
  }

  lemma IssuedIsGenuine(s: State, h: Issue)
    requires Inv(s) && Issued(s, h)
    ensures Genuine(s, TokenOf(s, h), s.firsts[h.session].sub)
  {
    hide Of, Genuine;
    if h.index > 0 {
      InLog(s, h.session, h.index - 1);
    }
  }

  lemma ApartTokensDiffer(s: State, h: Issue, g: Issue)
    requires Inv(s) && SecondsApart(s) && Spent(s, h) && (Spent(s, g) || Stored(s, g)) && h != g
    ensures TokenOf(s, h) != TokenOf(s, g)
  {
    hide Inv, TokenOf, Issued;
    IssuedIsGenuine(s, h);
    IssuedIsGenuine(s, g);
  }

  lemma ApartIsSpentOnce(s: State)
    requires Inv(s) && SecondsApart(s)
    ensures SpentOnce(s)
  {
    hide Inv, SecondsApart, TokenOf, Rank, Spent, Stored;
    forall i, j | 0 <= i < j < |s.log| ensures s.log[i].presented != s.log[j].presented {
      SpentAt(s, i);
      SpentAt(s, j);
      if s.log[i].session == s.log[j].session { RanksDiffer(s.log, i, j); }
      ApartTokensDiffer(s, Issue(s.log[i].session, Rank(s.log, i)), Issue(s.log[j].session, Rank(s.log, j)));
    }
    forall i, k | 0 <= i < |s.log| && k in s.sessions ensures s.log[i].presented != s.sessions[k].hash {
      SpentAt(s, i);
      StoredIsFinal(s, k);
      RankIs(s.log, i);
      ApartTokensDiffer(s, Issue(s.log[i].session, Rank(s.log, i)), Issue(k, |Of(s.log, k)|));
    }
  }

  /** Tokens of one user from one second are the same token. */
  lemma SameSecondSameToken(s: State, h: Issue, g: Issue)
    requires Inv(s) && Issued(s, h) && Issued(s, g)
    requires s.firsts[h.session].sub == s.firsts[g.session].sub && TokenOf(s, h).iat == TokenOf(s, g).iat
    ensures TokenOf(s, h) == TokenOf(s, g)
  {
    hide Inv, TokenOf, Issued;
    IssuedIsGenuine(s, h);
    IssuedIsGenuine(s, g);
  }

  lemma SpentOnceIsApart(s: State)
    requires Inv(s) && SpentOnce(s)
    ensures SecondsApart(s)
  {
    hide Inv, TokenOf, Rank, Of;
    forall h, g | Spent(s, h) && (Spent(s, g) || Stored(s, g)) && h != g
                  && s.firsts[h.session].sub == s.firsts[g.session].sub
      ensures TokenOf(s, h).iat != TokenOf(s, g).iat
    {
      var i := Unrank(s.log, h.session, h.index);
      SpentAt(s, i);
      if Spent(s, g) {
        var j := Unrank(s.log, g.session, g.index);
        SpentAt(s, j);
        assert i != j;
      } else {
        StoredIsFinal(s, g.session);
      }
      if TokenOf(s, h).iat == TokenOf(s, g).iat {
        SameSecondSameToken(s, h, g);
      }
    }
  }

  /** In every interleaving over all sessions, a refresh token is spent at most once and is stored
      nowhere afterwards if and only if every token that is spent was minted in another second than
      every other token of its user that is spent or stored, be it by a login or by a refresh. */
  lemma SpentOnceIffSecondsApart(names: map<nat, string>, now: nat, ops: seq<Op>)
    ensures var s := Run(Start(names, now), ops); SpentOnce(s) <==> SecondsApart(s)
  {
    hide SpentOnce, SecondsApart, Run;
    var s := Run(Start(names, now), ops);
    RunKeeps(Start(names, now), ops);
    if SpentOnce(s) { SpentOnceIsApart(s); }
    if SecondsApart(s) { ApartIsSpentOnce(s); }
  }

  /** Two logins of one user in one second share their token, and both sessions spend it, each of
      them in a later second. */
  lemma TwoLoginsShareAToken(names: map<nat, string>, user: nat) returns (ops: seq<Op>)
    requires user in names
    ensures var s := Run(Start(names, 0), ops);
            && !SpentOnce(s) && |s.log| == 2
            && Of(s.log, 1) == [s.log[0]] && Of(s.log, 2) == [s.log[1]]
            && LaterSecond(Of(s.log, 1)) && LaterSecond(Of(s.log, 2))
  {
    hide Run, RefreshToken, Of, Second, SpentOnce, LaterSecond, Refreshing;
    var token, later := RefreshToken(user, names[user], 0), RefreshToken(user, names[user], NANOS);
    var before := [Login(1, user), Login(2, user), Tick(NANOS)];
    ops := before + Refreshing(1, 1, token) + Refreshing(2, 2, token);
    SecondsPass(user, names[user]);
    var s := LoggedInTwice(names, user);
    var a := RefreshLater(s, 1, 1, token, before, names);
    var b := RefreshLater(a, 2, 2, token, before + Refreshing(1, 1, token), names);
    BothSpend(b, Exchange(1, 1, token, later), Exchange(2, 2, token, later));
  }

  lemma BothSpend(s: State, d: Exchange, e: Exchange)
    requires s.log == [] + [d] + [e] && d.session != e.session && d.presented == e.presented
    requires d.presented.iat < d.minted.iat && e.presented.iat < e.minted.iat
    ensures !SpentOnce(s) && s.log == [d, e]
    ensures Of(s.log, d.session) == [d] && Of(s.log, e.session) == [e]
    ensures LaterSecond([d]) && LaterSecond([e])
  {
    hide Of;
    assert s.log == [d, e];
    assert s.log[0].presented == s.log[1].presented;
    TwoOf(d, e);
  }

  lemma TwoOf(d: Exchange, e: Exchange)
    requires d.session != e.session
    ensures Of([d, e], d.session) == [d] && Of([d, e], e.session) == [e]
  {
    assert [d, e] == [d] + [e] && [d] == [] + [d];
    OfAppend([d], e, d.session);
    OfAppend([d], e, e.session);
    OfAppend([], d, d.session);
    OfAppend([], d, e.session);
  }

  lemma SecondsPass(user: nat, username: string)
    ensures RefreshToken(user, username, 0).iat < RefreshToken(user, username, NANOS).iat
    ensures RefreshToken(user, username, 0).exp >= Second(NANOS)
    ensures RefreshToken(user, username, 0).tokenType == Refresh
  {}

  /** One refresh, without interruption. */
  function Refreshing(p: nat, k: nat, token: Claims): seq<Op> { [Read(p, k, token), Mint(p), Swap(p)] }

  lemma LoggedInTwice(names: map<nat, string>, user: nat) returns (s: State)
    requires user in names
    ensures s == Run(Start(names, 0), [Login(1, user), Login(2, user), Tick(NANOS)])
    ensures var token := RefreshToken(user, names[user], 0);
            s == Start(names, 0).(now := NANOS, usedSessions := {1, 2}, firsts := map[1 := token, 2 := token],
                                  sessions := map[1 := Session(user, token, WEEK), 2 := Session(user, token, WEEK)])
  {
    hide RefreshToken;
    RunSnoc(Start(names, 0), [], Login(1, user));
    RunSnoc(Start(names, 0), [Login(1, user)], Login(2, user));
    RunSnoc(Start(names, 0), [Login(1, user), Login(2, user)], Tick(NANOS));
    assert [] + [Login(1, user)] == [Login(1, user)];
    assert [Login(1, user)] + [Login(2, user)] == [Login(1, user), Login(2, user)];
    assert [Login(1, user), Login(2, user)] + [Tick(NANOS)] == [Login(1, user), Login(2, user), Tick(NANOS)];
    s := Run(Start(names, 0), [Login(1, user), Login(2, user), Tick(NANOS)]);
  }

  lemma RunSnoc(s: State, ops: seq<Op>, op: Op)
    ensures Run(s, ops + [op]) == Step(Run(s, ops), op)
  {
    hide Step;
    assert (ops + [op])[..|ops|] == ops;
  }

  lemma RefreshLater(s: State, p: nat, k: nat, token: Claims, before: seq<Op>, names: map<nat, string>)
      returns (t: State)
    requires s == Run(Start(names, 0), before) && p !in s.readers && Readable(s, k, token)
    ensures t == Run(Start(names, 0), before + Refreshing(p, k, token))
    ensures var minted := RefreshToken(s.sessions[k].user, s.names[s.sessions[k].user], s.now);
            && t == s.(sessions := s.sessions[k := s.sessions[k].(hash := minted)], readers := t.readers,
                       log := s.log + [Exchange(k, p, token, minted)])
            && t.readers.Keys == s.readers.Keys + {p}
  {
    hide RefreshToken, Run;
    var start := Start(names, 0);
    RunSnoc(start, before, Read(p, k, token));
    RunSnoc(start, before + [Read(p, k, token)], Mint(p));
    RunSnoc(start, before + [Read(p, k, token)] + [Mint(p)], Swap(p));
    assert before + [Read(p, k, token)] + [Mint(p)] + [Swap(p)] == before + Refreshing(p, k, token);
    t := Step(Step(Step(s, Read(p, k, token)), Mint(p)), Swap(p));
  }

  /** A session that is gone stays gone, and a reader of it never succeeds. */
  lemma {:induction false} GoneForGood(s: State, ops: seq<Op>, k: nat)
    requires k in s.usedSessions && k !in s.sessions
    ensures var t := Run(s, ops);
            && k in t.usedSessions && k !in t.sessions && Of(t.log, k) == Of(s.log, k)
  {
    if ops != [] {
      var before, op := ops[..|ops| - 1], ops[|ops| - 1];
      GoneForGood(s, before, k);
      GoneOneStep(Run(s, before), op, k);
    }
  }

  lemma GoneOneStep(u: State, op: Op, k: nat)
    requires k in u.usedSessions && k !in u.sessions
    ensures var t := Step(u, op); k in t.usedSessions && k !in t.sessions && Of(t.log, k) == Of(u.log, k)
  {
    hide RefreshToken, Readable, Of;
    if op.Swap? && op.reader in u.readers && u.readers[op.reader].minted.Some? {
      var r := u.readers[op.reader];
      OfAppend(u.log, Exchange(r.session, op.reader, r.presented, r.minted.value), k);
    }
  }

  /** Readers keep the session they read. */
  lemma {:induction false} ReaderKeepsSession(s: State, ops: seq<Op>, p: nat)
    requires p in s.readers
    ensures var t := Run(s, ops);
            p in t.readers && t.readers[p].session == s.readers[p].session && t.readers[p].user == s.readers[p].user
  {
    if ops != [] {
      hide Step;
      ReaderKeepsSession(s, ops[..|ops| - 1], p);
      ReaderOneStep(Run(s, ops[..|ops| - 1]), ops[|ops| - 1], p);
    }
  }

  lemma ReaderOneStep(s: State, op: Op, p: nat)
    requires p in s.readers
    ensures var t := Step(s, op);
            p in t.readers && t.readers[p].session == s.readers[p].session && t.readers[p].user == s.readers[p].user
  {
    hide RefreshToken, Readable, Swappable;
  }

  /** Once reset_password has committed, no refresh that had read a session of that user before
      can still succeed, however the rest of the run goes. */
  lemma ResetStopsReaders(names: map<nat, string>, now: nat, before: seq<Op>, user: nat, after: seq<Op>, p: nat)
    requires var s := Run(Start(names, now), before); p in s.readers && s.readers[p].user == user
    ensures var s := Run(Start(names, now), before);
            var t := Run(Step(s, ResetPassword(user)), after);
            && p in t.readers
            && !Swappable(t, t.readers[p])
            && Of(t.log, s.readers[p].session) == Of(s.log, s.readers[p].session)
  {
    RunKeeps(Start(names, now), before);
    var s := Run(Start(names, now), before);
    StepKeeps(s, ResetPassword(user));
    var u := Step(s, ResetPassword(user));
    assert GoodReader(s, s.readers[p]);
    GoneForGood(u, after, s.readers[p].session);
    ReaderKeepsSession(u, after, p);
  }
}
