/** What a coalition of members without the owner can do with the role endpoints of a server.
    Each handler is two steps: its checks read the tables at one moment, its write happens
    later, and any number of handlers may be between the two. */
module RoleRuns {
  import opened Wrappers
  import opened Permissions
  import opened Maxima
  import opened Roles

  /** Tables, writes that passed their checks, and every role id ever used. */
  datatype State = State(db: Db, pending: map<nat, Write>, used: set<Rid>)

  datatype Op =
    | Begin(handler: nat, actor: Uid, server: Sid, request: Request)
    | Finish(handler: nat, newId: Rid)

  function Step(s: State, op: Op): State {
    match op
    case Begin(h, actor, sid, req) =>
      var r := Check(s.db, actor, sid, req);
      if h !in s.pending && r.Ok? then s.(pending := s.pending[h := r.value]) else s
    case Finish(h, newId) =>
      if h in s.pending && newId !in s.used
      then State(Apply(s.db, s.pending[h], newId), s.pending - {h}, s.used + {newId})
      else s
  }

  function Run(db: Db, ops: seq<Op>): State {
    if ops == [] then State(db, map[], db.roles.Keys)
    else Step(Run(db, ops[..|ops| - 1]), ops[|ops| - 1])
  }

  /** Every actor of the run belongs to `who`. */
  predicate ActedBy(ops: seq<Op>, who: set<Uid>) {
    forall i :: 0 <= i < |ops| && ops[i].Begin? ==> ops[i].actor in who
  }

  /** member_roles rows name a role of their own server. */
  predicate Valid(db: Db) {
    forall x :: x in db.memberRoles ==> x.2 in db.roles && db.roles[x.2].server == x.1
  }

  function Holders(db: Db, sid: Sid, r: Rid): set<Uid> {
    set x | x in db.memberRoles && x.1 == sid && x.2 == r :: x.0
  }

  /** The largest highest-position over the coalition, floored at 0. */
  function Ceiling(db: Db, sid: Sid, who: set<Uid>): (h: int)
    ensures h >= 0 && forall u :: u in who ==> HighestPosition(db, sid, u) <= h
    ensures h == 0 || exists u :: u in who && HighestPosition(db, sid, u) == h
  {
    var heights := set u | u in who :: HighestPosition(db, sid, u);
    assert forall u :: u in who ==> HighestPosition(db, sid, u) in heights;
    var top := MaxOr(heights, 0);
    if top < 0 then 0 else top
  }

  // ---- The hierarchy invariant ------------------------------------------------

  /** A role of the server at or above `h` is out of reach. */
  predicate Reachable(db: Db, sid: Sid, h: int, r: Rid) {
    r in db.roles && db.roles[r].server == sid ==> db.roles[r].position < h
  }

  /** A pending write touches only roles below `h` and leaves them below. */
  predicate Harmless(s: State, sid: Sid, h: int, w: Write) {
    match w
    case Insert(row) => true
    case Update(r, _, _, position) =>
      && r in s.used && Reachable(s.db, sid, h, r)
      && (r in s.db.roles && s.db.roles[r].server == sid && position.Some? ==> position.value < h)
    case Delete(r) => r in s.used && Reachable(s.db, sid, h, r)
    case Grant(u, server, r) =>
      && r in s.used && Reachable(s.db, sid, h, r)
      && (r in s.db.roles ==> s.db.roles[r].server == server)
    case Revoke(u, server, r) => r in s.used && Reachable(s.db, sid, h, r)
  }

  predicate Untouched(db0: Db, db: Db, sid: Sid, h: int) {
    forall r :: r in db0.roles && db0.roles[r].server == sid && db0.roles[r].position >= h ==>
      && r in db.roles && db.roles[r] == db0.roles[r]
      && Holders(db, sid, r) == Holders(db0, sid, r)
  }

  predicate Bounded(db: Db, sid: Sid, h: int, who: set<Uid>) {
    forall x :: x in db.memberRoles && x.0 in who && x.1 == sid && x.2 in db.roles ==> db.roles[x.2].position <= h
  }

  predicate Inv(db0: Db, s: State, sid: Sid, h: int, who: set<Uid>) {
    && Valid(s.db) && s.db.roles.Keys <= s.used
    && s.db.owners == db0.owners
    && Untouched(db0, s.db, sid, h)
    && Bounded(s.db, sid, h, who)
    && forall k :: k in s.pending ==> Harmless(s, sid, h, s.pending[k])
  }

  /** Under the invariant no coalition member outranks `h`. */
  lemma HighestBounded(db: Db, sid: Sid, h: int, who: set<Uid>, u: Uid)
    requires Bounded(db, sid, h, who) && h >= 0 && u in who
    ensures HighestPosition(db, sid, u) <= h
  {
    var held := Held(db, sid, u);
    forall p | p in Positions(db, held) ensures p <= h {
      var r :| r in held && db.roles[r].position == p;
      assert (u, sid, r) in db.memberRoles;
    }
  }

  lemma BeginKeeps(db0: Db, s: State, sid: Sid, h: int, who: set<Uid>, actor: Uid, server: Sid, req: Request)
    requires Inv(db0, s, sid, h, who) && h >= 0 && actor in who && !IsOwner(db0, sid, actor)
    requires Check(s.db, actor, server, req).Ok?
    ensures Harmless(s, sid, h, Check(s.db, actor, server, req).value)
  {
    HighestBounded(s.db, sid, h, who, actor);
    assert IsOwner(s.db, sid, actor) == IsOwner(db0, sid, actor);
  }

  /** A later write of another handler cannot make a harmless write harmful. */
  lemma HarmlessStays(s: State, t: State, sid: Sid, h: int, w: Write)
    requires Harmless(s, sid, h, w) && s.used <= t.used
    requires forall r :: r in s.used && r in t.db.roles ==>
               && r in s.db.roles && t.db.roles[r].server == s.db.roles[r].server
               && (s.db.roles[r].server == sid && s.db.roles[r].position < h ==> t.db.roles[r].position < h)
    ensures Harmless(t, sid, h, w)
  {}

  lemma FinishTables(db0: Db, s: State, sid: Sid, h: int, who: set<Uid>, w: Write, newId: Rid)
    requires Inv(db0, s, sid, h, who) && Harmless(s, sid, h, w) && newId !in s.used && db0.roles.Keys <= s.used
    ensures var db := Apply(s.db, w, newId);
            && Valid(db) && db.owners == db0.owners && Untouched(db0, db, sid, h) && Bounded(db, sid, h, who)
            && db.roles.Keys <= s.used + {newId}
    ensures var db := Apply(s.db, w, newId);
            forall r :: r in s.used && r in db.roles ==>
              && r in s.db.roles && db.roles[r].server == s.db.roles[r].server
              && (s.db.roles[r].server == sid && s.db.roles[r].position < h ==> db.roles[r].position < h)
  {
    var db := Apply(s.db, w, newId);
    forall r | r in db0.roles && db0.roles[r].server == sid && db0.roles[r].position >= h
      ensures r in db.roles && db.roles[r] == db0.roles[r] && Holders(db, sid, r) == Holders(db0, sid, r)
    {
      assert Holders(s.db, sid, r) == Holders(db0, sid, r);
      assert forall x: (Uid, Sid, Rid) :: x.1 == sid && x.2 == r ==> (x in db.memberRoles <==> x in s.db.memberRoles);
      assert Holders(db, sid, r) == Holders(s.db, sid, r);
    }
  }

  lemma FinishKeeps(db0: Db, s: State, sid: Sid, h: int, who: set<Uid>, k: nat, newId: Rid)
    requires Inv(db0, s, sid, h, who) && db0.roles.Keys <= s.used
    ensures Inv(db0, Step(s, Finish(k, newId)), sid, h, who)
  {
    if k in s.pending && newId !in s.used {
      var t := Step(s, Finish(k, newId));
      FinishTables(db0, s, sid, h, who, s.pending[k], newId);
      forall j | j in t.pending ensures Harmless(t, sid, h, t.pending[j]) {
        HarmlessStays(s, t, sid, h, s.pending[j]);
      }
    }
  }

  lemma {:induction false} RunInv(db0: Db, ops: seq<Op>, sid: Sid, h: int, who: set<Uid>)
    requires Valid(db0) && h >= 0 && ActedBy(ops, who)
    requires forall u :: u in who ==> !IsOwner(db0, sid, u) && HighestPosition(db0, sid, u) <= h
    ensures Inv(db0, Run(db0, ops), sid, h, who) && db0.roles.Keys <= Run(db0, ops).used
  {
    if ops == [] {
      forall x | x in db0.memberRoles && x.0 in who && x.1 == sid ensures db0.roles[x.2].position <= h {
        assert x.2 in Held(db0, sid, x.0);
        assert db0.roles[x.2].position in Positions(db0, Held(db0, sid, x.0));
      }
    } else {
      var before, op := ops[..|ops| - 1], ops[|ops| - 1];
      RunInv(db0, before, sid, h, who);
      var s := Run(db0, before);
      match op {
        case Begin(k, actor, server, req) =>
          if Check(s.db, actor, server, req).Ok? {
            BeginKeeps(db0, s, sid, h, who, actor, server, req);
          }
        case Finish(k, newId) => FinishKeeps(db0, s, sid, h, who, k, newId);
      }
    }
  }

  /** However a coalition of non-owners interleaves its role requests, every role that was at
      or above the coalition's highest position stays exactly as it was, with the same holders,
      and no member of the coalition ever rises above that position. */
  lemma CoalitionStaysBelow(db0: Db, ops: seq<Op>, sid: Sid, who: set<Uid>)
    requires Valid(db0) && ActedBy(ops, who) && forall u :: u in who ==> !IsOwner(db0, sid, u)
    ensures var h, db := Ceiling(db0, sid, who), Run(db0, ops).db;
            && Untouched(db0, db, sid, h)
            && (forall u :: u in who ==> HighestPosition(db, sid, u) <= h)
  {
    var h, db := Ceiling(db0, sid, who), Run(db0, ops).db;
    RunInv(db0, ops, sid, h, who);
    forall u | u in who ensures HighestPosition(db, sid, u) <= h {
      HighestBounded(db, sid, h, who, u);
    }
  }

  // ---- The permission invariant -----------------------------------------------

  predicate Within(s: State, sid: Sid, all: Bits, w: Write) {
    match w
    case Insert(row) => row.server == sid ==> row.permissions <= all
    case Update(r, _, bits, _) =>
      && r in s.used
      && (r in s.db.roles && s.db.roles[r].server == sid && bits.Some? ==> bits.value <= all)
    case _ => true
  }

  predicate BitsInv(s: State, sid: Sid, all: Bits) {
    && Valid(s.db) && s.db.roles.Keys <= s.used
    && (forall r :: r in s.db.roles && s.db.roles[r].server == sid ==> s.db.roles[r].permissions <= all)
    && (forall k :: k in s.pending ==> Within(s, sid, all, s.pending[k]))
    && (forall k :: k in s.pending && s.pending[k].Grant? && s.pending[k].role in s.db.roles ==>
          s.db.roles[s.pending[k].role].server == s.pending[k].server)
    && (forall k :: k in s.pending && s.pending[k].Grant? ==> s.pending[k].role in s.used)
  }

  lemma BeginWithin(s: State, sid: Sid, all: Bits, actor: Uid, server: Sid, req: Request)
    requires BitsInv(s, sid, all) && ADMINISTRATOR !in all && !IsOwner(s.db, sid, actor)
    requires Check(s.db, actor, server, req).Ok?
    ensures Within(s, sid, all, Check(s.db, actor, server, req).value)
  {
    if server == sid {
      var own := UserPermissions(s.db, sid, actor);
      assert own <= all by {
        forall r | r in Held(s.db, sid, actor) ensures s.db.roles[r].permissions <= all {
          assert (actor, sid, r) in s.db.memberRoles;
        }
      }
    }
  }

  lemma StepWithin(s: State, sid: Sid, all: Bits, op: Op)
    requires BitsInv(s, sid, all) && ADMINISTRATOR !in all
    requires op.Begin? ==> !IsOwner(s.db, sid, op.actor)
    ensures BitsInv(Step(s, op), sid, all) && Step(s, op).db.owners == s.db.owners
  {
    match op {
      case Begin(k, actor, server, req) =>
        hide Check, UnionBits, Valid;
        if Check(s.db, actor, server, req).Ok? {
          BeginWithin(s, sid, all, actor, server, req);
          GrantTarget(s.db, actor, server, req, s.used);
        }
      case Finish(k, newId) => FinishWithin(s, sid, all, k, newId);
    }
  }

  lemma GrantTarget(db: Db, actor: Uid, server: Sid, req: Request, used: set<Rid>)
    requires Check(db, actor, server, req).Ok? && db.roles.Keys <= used
    ensures var w := Check(db, actor, server, req).value;
            w.Grant? ==> w.role in used && w.role in db.roles && db.roles[w.role].server == w.server
  {}

  lemma FinishWithin(s: State, sid: Sid, all: Bits, k: nat, newId: Rid)
    requires BitsInv(s, sid, all)
    ensures BitsInv(Step(s, Finish(k, newId)), sid, all)
  {
    hide Check, UnionBits;
  }

  lemma {:induction false} RunWithin(db0: Db, ops: seq<Op>, sid: Sid, who: set<Uid>)
    requires Valid(db0) && ActedBy(ops, who) && forall u :: u in who ==> !IsOwner(db0, sid, u)
    requires ADMINISTRATOR !in UnionBits(db0, RolesOf(db0, sid))
    ensures BitsInv(Run(db0, ops), sid, UnionBits(db0, RolesOf(db0, sid))) && Run(db0, ops).db.owners == db0.owners
  {
    var all := UnionBits(db0, RolesOf(db0, sid));
    if ops == [] {
      forall r | r in db0.roles && db0.roles[r].server == sid ensures db0.roles[r].permissions <= all {
        assert r in RolesOf(db0, sid);
      }
    } else {
      RunWithin(db0, ops[..|ops| - 1], sid, who);
      var s := Run(db0, ops[..|ops| - 1]);
      assert ops[|ops| - 1].Begin? ==>
               IsOwner(s.db, sid, ops[|ops| - 1].actor) == IsOwner(db0, sid, ops[|ops| - 1].actor);
      StepWithin(s, sid, all, ops[|ops| - 1]);
    }
  }

  /** If no role of a server carries ADMINISTRATOR, members without the owner can never make a
      role carry it, and the union of all permission bits over the server's roles never grows. */
  lemma PermissionsNeverGrow(db0: Db, ops: seq<Op>, sid: Sid, who: set<Uid>)
    requires Valid(db0) && ActedBy(ops, who) && forall u :: u in who ==> !IsOwner(db0, sid, u)
    requires forall r :: r in RolesOf(db0, sid) ==> ADMINISTRATOR !in db0.roles[r].permissions
    ensures var db := Run(db0, ops).db;
            && UnionBits(db, RolesOf(db, sid)) <= UnionBits(db0, RolesOf(db0, sid))
            && (forall r :: r in RolesOf(db, sid) ==> ADMINISTRATOR !in db.roles[r].permissions)
  {
    RunWithin(db0, ops, sid, who);
  }

  /** A role created without a position goes above every role of its server, exactly as long
      as no role already sits at the largest 32-bit position. */
  lemma DefaultPositionTops(db: Db, actor: Uid, sid: Sid, name: string, permissions: Option<int>)
    requires forall r :: r in RolesOf(db, sid) ==> MIN_I32 <= db.roles[r].position <= MAX_I32
    requires Check(db, actor, sid, CreateRole(name, permissions, None)).Ok?
    ensures var place := Check(db, actor, sid, CreateRole(name, permissions, None)).value.row.position;
            (forall r :: r in RolesOf(db, sid) ==> db.roles[r].position < place)
            <==> (forall r :: r in RolesOf(db, sid) ==> db.roles[r].position != MAX_I32)
  {
    var rs := RolesOf(db, sid);
    var ps := Positions(db, rs);
    assert forall r :: r in rs ==> db.roles[r].position in ps;
    if ps != {} {
      var top :| top in rs && db.roles[top].position == MaxOr(ps, 0);
      assert db.roles[top].position in ps;
    }
  }

  /** The owner of a server whose one role sits at the largest position creates a role below it. */
  lemma DefaultPositionWraps(owner: Uid, sid: Sid, name: string)
    requires ValidName(name)
    ensures var db := Db(map[sid := owner], {(owner, sid)}, map[1 := Role(sid, "", {}, MAX_I32)], {});
            var r := Check(db, owner, sid, CreateRole(name, None, None));
            r.Ok? && r.value.row.position == MIN_I32 && r.value.row.position < db.roles[1].position
  {
    var db := Db(map[sid := owner], {(owner, sid)}, map[1 := Role(sid, "", {}, MAX_I32)], {});
    assert RolesOf(db, sid) == {1};
    assert Positions(db, {1}) == {MAX_I32};
    assert MaxOr({MAX_I32}, 0) == MAX_I32;
  }
}
