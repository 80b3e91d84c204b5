/** Server invites: creation, and concurrent use by accepts and invite-only registrations under
    READ COMMITTED: a statement sees what was committed when it starts, an UPDATE waits for the
    row lock and re-evaluates its WHERE clause, and a rollback undoes the whole transaction. */
module Invites {
  import opened Wrappers

  datatype Invite = Invite(maxUses: Option<int>, uses: int, expiresAt: Option<int>)

  const MAX_I32: int := 2147483647
  const HOUR: int := 3600

  // ---- Creation --------------------------------------------------------------------

  datatype Created = Created(code: string, invite: Invite) | Invalid | Internal

  predicate ValidLimits(maxUses: Option<int>, hours: Option<int>) {
    (maxUses.Some? ==> maxUses.value > 0) && (hours.Some? ==> 1 <= hours.value <= 720)
  }

  /** create_invite with the codes its generator would draw and the codes already taken: the
      first free code of three attempts wins. */
  method CreateInvite(maxUses: Option<int>, hours: Option<int>, now: int, draw: seq<string>, taken: set<string>)
    returns (r: Created)
    requires |draw| == 3
    ensures r == Invalid <==>
              (maxUses.Some? && maxUses.value <= 0) || (hours.Some? && (hours.value < 1 || 720 < hours.value))
    ensures r == Internal <==> ValidLimits(maxUses, hours) && forall i :: 0 <= i < 3 ==> draw[i] in taken
    ensures r.Created? ==>
              && r.invite.uses == 0 && r.invite.maxUses == maxUses && r.code !in taken
              && exists i :: 0 <= i < 3 && draw[i] == r.code && forall j :: 0 <= j < i ==> draw[j] in taken
    ensures r.Created? ==> r.invite.expiresAt == if hours.Some? then Some(now + hours.value * 3600) else None
    ensures r.Created? ==> WithinLimit(r.invite)
  {
    if maxUses.Some? && maxUses.value <= 0 { return Invalid; }
    if hours.Some? && !(1 <= hours.value <= 720) { return Invalid; }
    var expiresAt := match hours case Some(h) => Some(now + h * HOUR) case None => None;
    var attempts := 0;
    while true
      invariant 0 <= attempts < 3
      invariant forall j :: 0 <= j < attempts ==> draw[j] in taken
      decreases 3 - attempts
    {
      var code := draw[attempts];
      attempts := attempts + 1;
      if code !in taken {
        return Created(code, Invite(maxUses, 0, expiresAt));
      }
      if attempts >= 3 {
        return Internal;
      }
    }
  }

  // ---- Use -------------------------------------------------------------------------

  datatype Stage =
    | Checked
    | MemberInserted(began: int)
    | Incremented(began: int)
    | Committed
    | RolledBack

  datatype Accept = Accept(user: nat, stage: Stage)

  /** One invite, the members of its server, and everybody using the invite. Members in `others`
      joined some other way. */
  datatype State = State(
    now: int,
    invite: Option<Invite>,
    rowLock: Option<nat>,
    members: set<nat>,
    others: set<nat>,
    banned: set<nat>,
    accepts: map<nat, Accept>,
    registered: nat)

  datatype Op =
    | Tick(seconds: nat)
    | Check(p: nat, user: nat)
    | InsertMember(p: nat)
    | Increment(p: nat)
    | Commit(p: nat)
    | Abort(p: nat)
    | Register
    | DeleteInvite
    | Join(user: nat)
    | Leave(user: nat)
    | Ban(user: nat)

  predicate Live(i: Invite, now: int) {
    (i.expiresAt.Some? ==> i.expiresAt.value > now) && (i.maxUses.Some? ==> i.uses < i.maxUses.value)
  }

  predicate WithinLimit(i: Invite) { i.uses >= 0 && (i.maxUses.Some? ==> i.uses <= i.maxUses.value) }

  function OneMoreUse(i: Invite): Invite { i.(uses := i.uses + 1) }

  function To(s: State, p: nat, stage: Stage): State
    requires p in s.accepts
  {
    s.(accepts := s.accepts[p := s.accepts[p].(stage := stage)])
  }

  /** Another open transaction has inserted the same member. */
  predicate BlockedInsert(s: State, p: nat, user: nat) {
    exists q :: q in s.accepts && q != p && s.accepts[q].user == user
                && (s.accepts[q].stage.MemberInserted? || s.accepts[q].stage.Incremented?)
  }

  function Step(s: State, op: Op): State {
    match op
    case Tick(seconds) => s.(now := s.now + seconds)
    case Check(p, user) =>
      if p in s.accepts || s.invite.None? || !Live(s.invite.value, s.now)
         || user in s.banned || user in s.members then s
      else s.(accepts := s.accepts[p := Accept(user, Checked)])
    case InsertMember(p) =>
      if p !in s.accepts || !s.accepts[p].stage.Checked? || BlockedInsert(s, p, s.accepts[p].user) then s
      else if s.accepts[p].user in s.members then To(s, p, RolledBack)
      else To(s, p, MemberInserted(s.now))
    case Increment(p) =>
      if p !in s.accepts || !s.accepts[p].stage.MemberInserted? || s.rowLock.Some? then s
      else if s.invite.None? || !Live(s.invite.value, s.accepts[p].stage.began) || s.invite.value.uses == MAX_I32
      then To(s, p, RolledBack)
      else To(s, p, Incremented(s.accepts[p].stage.began)).(rowLock := Some(p))
    case Commit(p) =>
      if p !in s.accepts || !s.accepts[p].stage.Incremented? || s.invite.None? then s
      else To(s, p, Committed).(rowLock := None, invite := Some(OneMoreUse(s.invite.value)),
                                members := s.members + {s.accepts[p].user})
    case Abort(p) =>
      if p !in s.accepts || s.accepts[p].stage.Committed? then s
      else To(s, p, RolledBack).(rowLock := if s.rowLock == Some(p) then None else s.rowLock)
    case Register =>
      if s.rowLock.Some? || s.invite.None? || !Live(s.invite.value, s.now) || s.invite.value.uses == MAX_I32 then s
      else s.(invite := Some(OneMoreUse(s.invite.value)), registered := s.registered + 1)
    case DeleteInvite => if s.rowLock.Some? then s else s.(invite := None)
    case Join(user) =>
      if user in s.members || Pending(s, user) then s
      else s.(members := s.members + {user}, others := s.others + {user})
    case Leave(user) => s.(members := s.members - {user}, others := s.others - {user})
    case Ban(user) => s.(members := s.members - {user}, others := s.others - {user}, banned := s.banned + {user})
  }

  /** Some open transaction has inserted this member. */
  predicate Pending(s: State, user: nat) {
    exists q :: q in s.accepts && s.accepts[q].user == user
                && (s.accepts[q].stage.MemberInserted? || s.accepts[q].stage.Incremented?)
  }

  function Run(s: State, ops: seq<Op>): State {
    if ops == [] then s else Step(Run(s, ops[..|ops| - 1]), ops[|ops| - 1])
  }

  function Fresh(invite: Invite, now: int, members: set<nat>, banned: set<nat>): State {
    State(now, Some(invite), None, members, members, banned, map[], 0)
  }

  // ---- The database as an object -----------------------------------------------------

  class InviteTables {
    var now: int
    var invite: Option<Invite>
    var rowLock: Option<nat>
    var members: set<nat>
    ghost var others: set<nat>
    var banned: set<nat>
    var accepts: map<nat, Accept>
    ghost var registered: nat

    ghost function Value(): State
      reads this
    {
      State(now, invite, rowLock, members, others, banned, accepts, registered)
    }

    constructor (invite: Invite, now: int, members: set<nat>, banned: set<nat>)
      ensures Value() == Fresh(invite, now, members, banned)
    {
      this.now, this.invite, rowLock := now, Some(invite), None;
      this.members, others, this.banned := members, members, banned;
      accepts, registered := map[], 0;
    }

    /** The checks of accept_invite before its transaction. */
    method CheckAccept(p: nat, user: nat) returns (ok: bool)
      requires p !in accepts
      modifies this
      ensures Value() == Step(old(Value()), Check(p, user))
      ensures ok <==>
                && invite.Some? && user !in banned && user !in members
                && (invite.value.expiresAt.None? || now < invite.value.expiresAt.value)
                && (invite.value.maxUses.None? || invite.value.uses < invite.value.maxUses.value)
      ensures accepts == if ok then old(accepts)[p := Accept(user, Checked)] else old(accepts)
    {
      if invite.None? { return false; }
      var i := invite.value;
      if i.expiresAt.Some? && i.expiresAt.value <= now { return false; }
      if i.maxUses.Some? && i.uses >= i.maxUses.value { return false; }
      if user in banned { return false; }
      if user in members { return false; }
      accepts := accepts[p := Accept(user, Checked)];
      return true;
    }

    /** The transaction of accept_invite once nothing blocks its two statements. */
    method AcceptInTransaction(p: nat) returns (joined: bool)
      requires p in accepts && accepts[p].stage == Checked
      requires rowLock.None? && !BlockedInsert(Value(), p, accepts[p].user)
      modifies this
      ensures Value() == Step(Step(Step(old(Value()), InsertMember(p)), Increment(p)), Commit(p))
      ensures joined <==> accepts[p].stage == Committed
      ensures joined <==>
                && old(invite).Some? && old(accepts)[p].user !in old(members)
                && var i := old(invite).value;
                && (i.expiresAt.None? || now < i.expiresAt.value)
                && (i.maxUses.None? || i.uses < i.maxUses.value) && i.uses != 2147483647
      ensures !joined ==> members == old(members) && invite == old(invite)
      ensures joined ==>
                && members == old(members) + {old(accepts)[p].user}
                && invite == Some(old(invite).value.(uses := old(invite).value.uses + 1))
    {
      var a := accepts[p];
      if a.user in members {
        accepts := accepts[p := a.(stage := RolledBack)];
        return false;
      }
      var updated := 0;
      if invite.Some? {
        var i := invite.value;
        if (i.maxUses.None? || i.uses < i.maxUses.value) && (i.expiresAt.None? || i.expiresAt.value > now)
           && i.uses != MAX_I32 {
          updated := 1;
        }
      }
      if updated == 0 {
        accepts := accepts[p := a.(stage := RolledBack)];
        return false;
      }
      invite := Some(invite.value.(uses := invite.value.uses + 1));
      members := members + {a.user};
      accepts := accepts[p := a.(stage := Committed)];
      return true;
    }

    /** The increment of an invite-only registration; its row count is not looked at. */
    method CountRegistration()
      requires rowLock.None?
      modifies this
      ensures Value() == Step(old(Value()), Register)
      ensures var i := old(invite);
              invite == if && i.Some? && (i.value.expiresAt.None? || now < i.value.expiresAt.value)
                           && (i.value.maxUses.None? || i.value.uses < i.value.maxUses.value)
                           && i.value.uses != 2147483647
                        then Some(i.value.(uses := i.value.uses + 1))
                        else i
    {
      if invite.Some? {
        var i := invite.value;
        if (i.expiresAt.None? || i.expiresAt.value > now) && (i.maxUses.None? || i.uses < i.maxUses.value)
           && i.uses != MAX_I32 {
          invite := Some(i.(uses := i.uses + 1));
          registered := registered + 1;
        }
      }
    }
  }

  /** The increment judges the expiry by the time its transaction began, however long it waited, and
      the limit by what others have committed since. */
  lemma IncrementRule(s: State, p: nat, user: nat, began: int, waited: nat)
    requires p in s.accepts && s.accepts[p] == Accept(user, MemberInserted(began)) && s.rowLock == None
    ensures var t := Step(Step(s, Tick(waited)), Increment(p));
            && t.invite == s.invite && t.members == s.members
            && if && s.invite.Some?
                  && (s.invite.value.expiresAt.Some? ==> began < s.invite.value.expiresAt.value)
                  && (s.invite.value.maxUses.Some? ==> s.invite.value.uses < s.invite.value.maxUses.value)
                  && s.invite.value.uses != 2147483647
               then t.accepts[p] == Accept(user, Incremented(began)) && t.rowLock == Some(p)
               else t.accepts[p] == Accept(user, RolledBack) && t.rowLock == None
  {}

  // ---- Conservation --------------------------------------------------------------------

  function CommittedAccepts(s: State): set<nat> { set p | p in s.accepts && s.accepts[p].stage.Committed? }

  predicate Inv(s: State) {
    && (s.invite.Some? ==>
          WithinLimit(s.invite.value) && s.invite.value.uses == |CommittedAccepts(s)| + s.registered)
    // the row lock belongs to the one uncommitted increment, which still fits
    && (forall p :: p in s.accepts && s.accepts[p].stage.Incremented? ==> s.rowLock == Some(p))
    && (s.rowLock.Some? ==>
          && s.rowLock.value in s.accepts && s.accepts[s.rowLock.value].stage.Incremented?
          && s.invite.Some? && (s.invite.value.maxUses.Some? ==> s.invite.value.uses < s.invite.value.maxUses.value))
    // nobody becomes a member but by a committed accept or some other way
    && s.others <= s.members
    && (forall u :: u in s.members && u !in s.others ==> exists p :: p in CommittedAccepts(s) && s.accepts[p].user == u)
  }

  /** Moving an accept between uncommitted stages commits nothing. */
  lemma SameCommitted(s: State, p: nat, stage: Stage)
    requires p in s.accepts && !s.accepts[p].stage.Committed? && !stage.Committed?
    ensures CommittedAccepts(To(s, p, stage)) == CommittedAccepts(s)
  {}

  lemma UncommittedMove(s: State, p: nat, stage: Stage)
    requires Inv(s) && p in s.accepts && !s.accepts[p].stage.Committed? && !stage.Committed?
    requires !s.accepts[p].stage.Incremented? && !stage.Incremented?
    ensures Inv(To(s, p, stage))
  {
    SameCommitted(s, p, stage);
    var t := To(s, p, stage);
    forall u | u in t.members && u !in t.others ensures exists q :: q in CommittedAccepts(t) && t.accepts[q].user == u {
      var q :| q in CommittedAccepts(s) && s.accepts[q].user == u;
      assert t.accepts[q].user == u;
    }
  }

  lemma IncrementKeeps(s: State, p: nat)
    requires Inv(s)
    ensures Inv(Step(s, Increment(p)))
  {
    if p in s.accepts && s.accepts[p].stage.MemberInserted? && s.rowLock.None? {
      var t := Step(s, Increment(p));
      if t.rowLock.None? {
        UncommittedMove(s, p, RolledBack);
      } else {
        SameCommitted(s, p, Incremented(s.accepts[p].stage.began));
        assert CommittedAccepts(t) == CommittedAccepts(s);
        forall u | u in t.members && u !in t.others
          ensures exists q :: q in CommittedAccepts(t) && t.accepts[q].user == u
        {
          var q :| q in CommittedAccepts(s) && s.accepts[q].user == u;
          assert t.accepts[q].user == u;
        }
      }
    }
  }

  lemma CommitKeeps(s: State, p: nat)
    requires Inv(s) && p in s.accepts && s.accepts[p].stage.Incremented?
    ensures Inv(Step(s, Commit(p)))
  {
    var t := Step(s, Commit(p));
    assert CommittedAccepts(t) == CommittedAccepts(s) + {p};
    forall u | u in t.members && u !in t.others ensures exists q :: q in CommittedAccepts(t) && t.accepts[q].user == u {
      if u in s.members {
        var q :| q in CommittedAccepts(s) && s.accepts[q].user == u;
        assert t.accepts[q].user == u;
      } else {
        assert t.accepts[p].user == u;
      }
    }
  }

  lemma AbortKeeps(s: State, p: nat)
    requires Inv(s) && p in s.accepts && !s.accepts[p].stage.Committed?
    ensures Inv(Step(s, Abort(p)))
  {
    var t := Step(s, Abort(p));
    SameCommitted(s, p, RolledBack);
    assert CommittedAccepts(t) == CommittedAccepts(s);
    forall u | u in t.members && u !in t.others ensures exists q :: q in CommittedAccepts(t) && t.accepts[q].user == u {
      var q :| q in CommittedAccepts(s) && s.accepts[q].user == u;
      assert t.accepts[q].user == u;
    }
  }

  /** Steps that touch neither the accepts nor the lock. */
  lemma OutsideKeeps(s: State, t: State)
    requires Inv(s) && t.accepts == s.accepts && t.rowLock == s.rowLock && t.others <= t.members
    requires t.members - t.others <= s.members - s.others
    requires (t.invite == s.invite && t.registered == s.registered) || (s.rowLock.None? && t.invite.None?)
    ensures Inv(t)
  {
    assert CommittedAccepts(t) == CommittedAccepts(s);
    forall u | u in t.members && u !in t.others ensures exists q :: q in CommittedAccepts(t) && t.accepts[q].user == u {
      assert u in s.members - s.others;
      var q :| q in CommittedAccepts(s) && s.accepts[q].user == u;
    }
  }

  lemma CheckKeeps(s: State, p: nat, user: nat)
    requires Inv(s)
    ensures Inv(Step(s, Check(p, user)))
  {
    var t := Step(s, Check(p, user));
    if t != s {
      assert CommittedAccepts(t) == CommittedAccepts(s);
      forall u | u in t.members && u !in t.others
        ensures exists q :: q in CommittedAccepts(t) && t.accepts[q].user == u
      {
        var q :| q in CommittedAccepts(s) && s.accepts[q].user == u;
        assert t.accepts[q].user == u;
      }
    }
  }

  lemma RegisterKeeps(s: State)
    requires Inv(s)
    ensures Inv(Step(s, Register))
  {
    assert CommittedAccepts(Step(s, Register)) == CommittedAccepts(s);
  }

  lemma StepKeeps(s: State, op: Op)
    requires Inv(s)
    ensures Inv(Step(s, op))
  {
    match op {
      case Check(p, user) => CheckKeeps(s, p, user);
      case InsertMember(p) =>
        if p in s.accepts && s.accepts[p].stage.Checked? {
          UncommittedMove(s, p, RolledBack);
          UncommittedMove(s, p, MemberInserted(s.now));
        }
      case Increment(p) => IncrementKeeps(s, p);
      case Commit(p) =>
        if p in s.accepts && s.accepts[p].stage.Incremented? {
          CommitKeeps(s, p);
        }
      case Abort(p) =>
        if p in s.accepts && !s.accepts[p].stage.Committed? {
          AbortKeeps(s, p);
        }
      case Register => RegisterKeeps(s);
      case _ => OutsideKeeps(s, Step(s, op));
    }
  }

  lemma {:induction false} RunKeeps(s: State, ops: seq<Op>)
    requires Inv(s)
    ensures Inv(Run(s, ops))
  {
    if ops != [] {
      RunKeeps(s, ops[..|ops| - 1]);
      StepKeeps(Run(s, ops[..|ops| - 1]), ops[|ops| - 1]);
    }
  }

  /** In every interleaving of accepts, registrations, expiry, removal and rollbacks, the uses of
      a freshly created invite are exactly its committed accepts and counted registrations, and
      never exceed its limit. */
  lemma UsesAreConserved(i: Invite, now: int, members: set<nat>, banned: set<nat>, ops: seq<Op>)
    requires WithinLimit(i) && i.uses == 0
    ensures var t := Run(Fresh(i, now, members, banned), ops);
            t.invite.Some? ==>
              && t.invite.value.uses == |CommittedAccepts(t)| + t.registered
              && (t.invite.value.maxUses.Some? ==> t.invite.value.uses <= t.invite.value.maxUses.value)
  {
    RunKeeps(Fresh(i, now, members, banned), ops);
  }

  /** Whoever is a member without having joined another way owes it to a committed accept; an
      accept that was rolled back left no membership and will never commit. */
  lemma MembershipComesFromCommits(i: Invite, now: int, members: set<nat>, banned: set<nat>, ops: seq<Op>, u: nat)
    requires WithinLimit(i) && i.uses == 0
    ensures var t := Run(Fresh(i, now, members, banned), ops);
            u in t.members && u !in t.others ==> exists p :: p in t.accepts && t.accepts[p] == Accept(u, Committed)
  {
    RunKeeps(Fresh(i, now, members, banned), ops);
    var t := Run(Fresh(i, now, members, banned), ops);
    if u in t.members && u !in t.others {
      var p :| p in CommittedAccepts(t) && t.accepts[p].user == u;
    }
  }

  lemma {:induction false} RolledBackIsFinal(s: State, ops: seq<Op>, p: nat)
    requires p in s.accepts && s.accepts[p].stage == RolledBack
    ensures p in Run(s, ops).accepts && Run(s, ops).accepts[p] == s.accepts[p]
  {
    if ops != [] {
      RolledBackIsFinal(s, ops[..|ops| - 1], p);
    }
  }
}
