/** Who can no longer refresh, over whole runs: disabled users, sessions a week after their login,
    and expired tokens. */
module RefreshLimits {
  import opened Wrappers
  import opened RefreshRotation

  /** The exchanges of a run are those of requests that were still under way when it began and of
      requests that came later, each by its own reader, whose session and token it names. */
  predicate Traced(s: State, t: State) {
    && s.log <= t.log
    && (forall p :: p in s.readers ==> p in t.readers && t.readers[p].session == s.readers[p].session
                                       && t.readers[p].presented == s.readers[p].presented
                                       && t.readers[p].user == s.readers[p].user
                                       && (s.readers[p].finished ==> t.readers[p].finished))
    && (forall i :: |s.log| <= i < |t.log| ==>
          && var e := t.log[i];
          && e.reader in t.readers && t.readers[e.reader].finished
          && t.readers[e.reader].session == e.session && t.readers[e.reader].presented == e.presented
          && (e.reader in s.readers ==> !s.readers[e.reader].finished))
  }

  lemma TracedStep(s: State, t: State, op: Op)
    requires Traced(s, t)
    ensures Traced(s, Step(t, op))
  {
    hide Traced, Step;
    match op {
      case Swap(p) => TracedSwap(s, t, p);
      case _ => TracedOther(s, t, op);
    }
  }

  lemma TracedOther(s: State, t: State, op: Op)
    requires Traced(s, t) && !op.Swap?
    ensures Traced(s, Step(t, op))
  {
    hide RefreshToken, Readable;
  }

  lemma TracedSwap(s: State, t: State, p: nat)
    requires Traced(s, t)
    ensures Traced(s, Step(t, Swap(p)))
  {
    hide Swappable;
  }

  lemma {:induction false} RunTraced(s: State, ops: seq<Op>)
    ensures Traced(s, Run(s, ops))
  {
    if ops != [] {
      hide Traced, Step;
      RunTraced(s, ops[..|ops| - 1]);
      TracedStep(s, Run(s, ops[..|ops| - 1]), ops[|ops| - 1]);
    }
  }

  // ---- What stays closed ---------------------------------------------------------------

  /** Nobody who asks from now on reads a session of the user. */
  predicate UserClosed(s: State, t: State, user: nat) {
    && user in t.disabled
    && (forall p :: p in t.readers && p !in s.readers ==> t.readers[p].user != user)
    && (forall k :: k in t.sessions && t.sessions[k].user == user ==> k in s.sessions)
  }

  predicate SessionClosed(s: State, t: State, k: nat) {
    && k in t.usedSessions && (k in t.sessions ==> t.sessions[k].expires <= t.now)
    && (forall p :: p in t.readers && p !in s.readers ==> t.readers[p].session != k)
  }

  predicate TokenClosed(s: State, t: State, token: Claims) {
    && token.exp + 60 < t.now / 1_000_000_000
    && (forall p :: p in t.readers && p !in s.readers ==> t.readers[p].presented != token)
  }

  lemma UserStaysClosed(s: State, t: State, op: Op, user: nat)
    requires UserClosed(s, t, user) && op != Enable(user)
    ensures UserClosed(s, Step(t, op), user)
  {
    hide RefreshToken;
  }

  lemma SessionStaysClosed(s: State, t: State, op: Op, k: nat)
    requires SessionClosed(s, t, k)
    ensures SessionClosed(s, Step(t, op), k)
  {
    hide RefreshToken;
  }

  lemma TokenStaysClosed(s: State, t: State, op: Op, token: Claims)
    requires TokenClosed(s, t, token)
    ensures TokenClosed(s, Step(t, op), token)
  {
    hide RefreshToken;
    SecondsMonotone(t.now, Step(t, op).now);
  }

  lemma {:induction false} UserClosedRun(s: State, ops: seq<Op>, user: nat)
    requires user in s.disabled && Enable(user) !in ops
    ensures UserClosed(s, Run(s, ops), user)
  {
    if ops != [] {
      hide UserClosed, Step;
      UserClosedRun(s, ops[..|ops| - 1], user);
      UserStaysClosed(s, Run(s, ops[..|ops| - 1]), ops[|ops| - 1], user);
    }
  }

  lemma {:induction false} SessionClosedRun(s: State, ops: seq<Op>, k: nat)
    requires k in s.usedSessions && (k in s.sessions ==> s.sessions[k].expires <= s.now)
    ensures SessionClosed(s, Run(s, ops), k)
  {
    if ops != [] {
      hide SessionClosed, Step;
      SessionClosedRun(s, ops[..|ops| - 1], k);
      SessionStaysClosed(s, Run(s, ops[..|ops| - 1]), ops[|ops| - 1], k);
    }
  }

  lemma {:induction false} TokenClosedRun(s: State, ops: seq<Op>, token: Claims)
    requires token.exp + 60 < s.now / 1_000_000_000
    ensures TokenClosed(s, Run(s, ops), token)
  {
    if ops != [] {
      hide TokenClosed, Step;
      TokenClosedRun(s, ops[..|ops| - 1], token);
      TokenStaysClosed(s, Run(s, ops[..|ops| - 1]), ops[|ops| - 1], token);
    }
  }

  // ---- Main results ----------------------------------------------------------------------

  /** From the moment a user is disabled, and while the user stays so, the only refreshes of the user's
      sessions that still succeed are those that had read the tables before, and no session of the user
      is opened. */
  lemma DisabledUsersDoNotRefresh(names: map<nat, string>, now: nat, before: seq<Op>, user: nat, after: seq<Op>)
    requires Enable(user) !in after
    ensures var s := Step(Run(Start(names, now), before), Disable(user));
            var t := Run(s, after);
            && user in t.disabled
            && (forall k :: k in t.sessions && t.sessions[k].user == user ==> k in s.sessions)
            && (forall i :: |s.log| <= i < |t.log| ==>
                  && t.log[i].session in t.firsts
                  && (t.firsts[t.log[i].session].sub == user ==>
                        t.log[i].reader in s.readers && !s.readers[t.log[i].reader].finished))
  {
    var s := Step(Run(Start(names, now), before), Disable(user));
    var t := Run(s, after);
    RunKeeps(Start(names, now), before);
    StepKeeps(Run(Start(names, now), before), Disable(user));
    RunKeeps(s, after);
    RunTraced(s, after);
    UserClosedRun(s, after, user);
    hide Run, Genuine, SessionsMatch, Chained, LogGood;
    forall i | |s.log| <= i < |t.log|
      ensures t.log[i].session in t.firsts && t.firsts[t.log[i].session].sub == t.readers[t.log[i].reader].user
    {
      assert GoodReader(t, t.readers[t.log[i].reader]);
    }
  }

  /** A session past its expiry is never read again. */
  lemma ExpiredSessionsDoNotRefresh(s: State, k: nat, after: seq<Op>)
    requires k in s.usedSessions && (k in s.sessions ==> s.sessions[k].expires <= s.now)
    ensures var t := Run(s, after);
            forall i :: |s.log| <= i < |t.log| && t.log[i].session == k ==>
              t.log[i].reader in s.readers && !s.readers[t.log[i].reader].finished
  {
    RunTraced(s, after);
    SessionClosedRun(s, after, k);
    hide Run;
  }

  /** A token more than a minute past its expiry is never accepted again, in whatever session it is. */
  lemma ExpiredTokensDoNotRefresh(s: State, token: Claims, after: seq<Op>)
    requires token.exp + 60 < s.now / 1_000_000_000
    ensures var t := Run(s, after);
            forall i :: |s.log| <= i < |t.log| && t.log[i].presented == token ==>
              t.log[i].reader in s.readers && !s.readers[t.log[i].reader].finished
  {
    RunTraced(s, after);
    TokenClosedRun(s, after, token);
    hide Run;
  }

  // ---- A week ----------------------------------------------------------------------------

  /** Sessions expire a week after the second of their first token, whatever happened to them. */
  predicate Weekly(s: State) {
    && s.sessions.Keys <= s.firsts.Keys == s.usedSessions
    && forall k :: k in s.sessions ==>
         0 <= s.sessions[k].expires - 604_800_000_000_000 - s.firsts[k].iat * 1_000_000_000 < 1_000_000_000
  }

  lemma WeeklyStep(s: State, op: Op)
    requires Weekly(s)
    ensures Weekly(Step(s, op))
  {
    hide RefreshToken, Readable;
    if op.Login? && op.user in s.names { TokenClaims(op.user, s.names[op.user], s.now); }
  }

  lemma {:induction false} RunWeekly(names: map<nat, string>, now: nat, ops: seq<Op>)
    ensures Weekly(Run(Start(names, now), ops))
  {
    if ops != [] {
      hide Weekly, Step;
      RunWeekly(names, now, ops[..|ops| - 1]);
      WeeklyStep(Run(Start(names, now), ops[..|ops| - 1]), ops[|ops| - 1]);
    }
  }

  /** Refreshing does not prolong a session: once a week and a second have passed since the second of
      its login, no refresh that reads it succeeds, however often it was refreshed before. */
  lemma SessionsLastAWeek(names: map<nat, string>, now: nat, before: seq<Op>, k: nat, passed: nat, after: seq<Op>)
    requires var s := Run(Start(names, now), before);
             k in s.firsts && s.now + passed >= (s.firsts[k].iat + 604_801) * 1_000_000_000
    ensures var s := Step(Run(Start(names, now), before), Tick(passed));
            var t := Run(s, after);
            forall i :: |s.log| <= i < |t.log| && t.log[i].session == k ==>
              t.log[i].reader in s.readers && !s.readers[t.log[i].reader].finished
  {
    RunWeekly(names, now, before);
    hide Run;
    ExpiredSessionsDoNotRefresh(Step(Run(Start(names, now), before), Tick(passed)), k, after);
  }
}
