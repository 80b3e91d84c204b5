/** What each role request needs and what it does, on the fields of the tables. */
module RoleRequests {
  import opened Wrappers
  import opened Permissions
  import opened Powers
  import opened Maxima
  import opened Roles
  import RoleRuns

  // ---- Permission integers ---------------------------------------------------------

  /** The integer whose binary digits below the n-th are the members of `bits`. */
  function IntegerOf(bits: Bits, n: nat): nat {
    if n == 0 then 0 else IntegerOf(bits, n - 1) + (if n - 1 in bits then Pow2(n - 1) else 0)
  }

  /** No permission is lost or gained between the stored integer and the set. */
  lemma BitsOfIntegerOf(p: int)
    requires 0 <= p <= 32767
    ensures IntegerOf(BitsOf(p), 15) == p
    ensures forall b :: b in BitsOf(p) ==> b < 15
  {
    DigitsBelow(p, 15);
    assert Pow2(15) == 32768;
    assert p % 32768 == p;
  }

  lemma {:induction false} DigitsBelow(p: int, n: nat)
    requires InRange(p) && n <= 15
    ensures IntegerOf(BitsOf(p), n) == p % Pow2(n)
  {
    if n > 0 {
      DigitsBelow(p, n - 1);
      OneMoreDigit(p, Pow2(n - 1));
    }
  }

  lemma OneMoreDigit(p: nat, k: nat)
    requires k > 0
    ensures p % (2 * k) == p % k + (if (p / k) % 2 == 1 then k else 0)
  {
    var q, r, h := p / k, p % k, p / k / 2;
    assert p == q * k + r;
    assert q == 2 * h + q % 2;
    assert p == h * (2 * k) + ((q % 2) * k + r);
    Remainder(p, 2 * k, h, (q % 2) * k + r);
  }

  lemma Remainder(p: nat, m: nat, h: nat, r: nat)
    requires p == h * m + r && r < m
    ensures p % m == r
  {
    var q := p / m;
    assert q * m <= p < (q + 1) * m;
    AtMost(q, h, m);
    AtMost(h, q, m);
  }

  lemma AtMost(a: int, b: int, m: nat)
    requires a * m < (b + 1) * m
    ensures a <= b
  {}

  /** The masks the handlers test. */
  lemma ManagingMasks()
    ensures BitsOf(0) == {} && BitsOf(2048) == {11} && BitsOf(8192) == {13}
    ensures BitsOf(32767) == {0, 1, 2, 3, 4, 5, 6, 7, 8, 9, 10, 11, 12, 13, 14}
  {
    FirstPowers();
  }

  lemma FirstPowers()
    ensures Pow2(0) == 1 && Pow2(1) == 2 && Pow2(2) == 4 && Pow2(3) == 8 && Pow2(4) == 16 && Pow2(5) == 32
    ensures Pow2(6) == 64 && Pow2(7) == 128 && Pow2(8) == 256 && Pow2(9) == 512 && Pow2(10) == 1024
    ensures Pow2(11) == 2048 && Pow2(12) == 4096 && Pow2(13) == 8192 && Pow2(14) == 16384
  {}

  /** How many characters of the name have a code point of at least `least`. */
  function AtLeast(s: string, least: int): nat { |set i | 0 <= i < |s| && s[i] as int >= least| }

  /** Names are measured in bytes: a second byte from U+0080, a third from U+0800, a fourth from U+10000. */
  lemma {:induction false} NameBytes(s: string)
    ensures ByteLength(s) == |s| + AtLeast(s, 0x80) + AtLeast(s, 0x800) + AtLeast(s, 0x10000)
  {
    hide AtLeast;
    if s == "" {
      NoneAtLeast(0x80);
      NoneAtLeast(0x800);
      NoneAtLeast(0x10000);
    } else {
      NameBytes(s[..|s| - 1]);
      BytesOfLast(s);
      AtLeastLast(s, 0x80);
      AtLeastLast(s, 0x800);
      AtLeastLast(s, 0x10000);
    }
  }

  lemma {:induction false} BytesOfLast(s: string)
    requires s != ""
    ensures ByteLength(s) == ByteLength(s[..|s| - 1]) + Utf8Length(s[|s| - 1])
  {
    if |s| > 1 {
      BytesOfLast(s[1..]);
      assert s[1..][..|s| - 2] == s[..|s| - 1][1..];
    }
  }

  lemma NoneAtLeast(least: int)
    ensures AtLeast("", least) == 0
  {}

  lemma AtLeastLast(s: string, least: int)
    requires s != ""
    ensures AtLeast(s, least) == AtLeast(s[..|s| - 1], least) + (if s[|s| - 1] as int >= least then 1 else 0)
  {
    var front := s[..|s| - 1];
    assert (set i | 0 <= i < |s| && s[i] as int >= least)
        == (set i | 0 <= i < |front| && front[i] as int >= least)
           + (if s[|s| - 1] as int >= least then {|front|} else {});
  }

  // ---- Conditions on the tables ------------------------------------------------------

  predicate Member(db: Db, sid: Sid, u: Uid) { sid in db.owners && (u, sid) in db.members }

  predicate Owns(db: Db, sid: Sid, u: Uid) { sid in db.owners && db.owners[sid] == u }

  predicate Holds(db: Db, sid: Sid, u: Uid, r: Rid) { r in db.roles && (u, sid, r) in db.memberRoles }

  /** The owner, or a holder of a role with MANAGE_ROLES (bit 11) or ADMINISTRATOR (bit 13). */
  ghost predicate Manages(db: Db, sid: Sid, u: Uid) {
    && Member(db, sid, u)
    && (|| Owns(db, sid, u)
        || exists r :: Holds(db, sid, u, r) && (11 in db.roles[r].permissions || 13 in db.roles[r].permissions))
  }

  /** The owner, or a holder of a role above the position; without a role one counts as being at 0. */
  ghost predicate Outranks(db: Db, sid: Sid, u: Uid, position: int) {
    || Owns(db, sid, u)
    || (exists r :: Holds(db, sid, u, r) && position < db.roles[r].position)
    || ((forall r: Rid :: !Holds(db, sid, u, r)) && position < 0)
  }

  /** The owner, an administrator, or one who has every permission in `p` by some role. */
  ghost predicate MayGive(db: Db, sid: Sid, u: Uid, p: int)
    requires InRange(p)
  {
    || Owns(db, sid, u)
    || (exists r :: Holds(db, sid, u, r) && 13 in db.roles[r].permissions)
    || (forall b :: b in BitsOf(p) ==> exists r :: Holds(db, sid, u, r) && b in db.roles[r].permissions)
  }

  predicate InServer(db: Db, sid: Sid, r: Rid) { r in db.roles && db.roles[r].server == sid }

  predicate Named(name: string) { |name| > 0 && ByteLength(name) <= 100 }

  predicate Storable(p: int) { 0 <= p <= 32767 }

  // ---- From the checks to the conditions ---------------------------------------------

  lemma AuthorizedIff(db: Db, actor: Uid, sid: Sid, target: Option<Uid>)
    ensures var e := Authorize(db, actor, sid, target);
            && (e == None <==> Manages(db, sid, actor) && (target.Some? ==> Member(db, sid, target.value)))
            && (e == Some(NotFound) <==>
                  !Member(db, sid, actor) || (target.Some? && !Member(db, sid, target.value)))
            && e != Some(Invalid)
  {
    assert forall r :: r in Held(db, sid, actor) <==> Holds(db, sid, actor, r);
  }

  lemma OutranksIff(db: Db, sid: Sid, u: Uid, position: int)
    ensures Outranks(db, sid, u, position) <==> IsOwner(db, sid, u) || position < HighestPosition(db, sid, u)
  {
    hide MaxOr;
    var held := Held(db, sid, u);
    var ps := Positions(db, held);
    assert forall r :: r in held <==> Holds(db, sid, u, r);
    assert forall r :: r in held ==> db.roles[r].position in ps;
    if ps != {} {
      var top :| top in held && db.roles[top].position == MaxOr(ps, 0);
    }
  }

  lemma MayGiveIff(db: Db, sid: Sid, u: Uid, p: int)
    requires InRange(p)
    ensures MayGive(db, sid, u, p) <==> IsOwner(db, sid, u) || MayGrant(db, u, sid, BitsOf(p))
  {
    hide BitsOf;
    assert forall r :: r in Held(db, sid, u) <==> Holds(db, sid, u, r);
  }

  // ---- What a request may change -----------------------------------------------------

  /** Nothing but the row `r` of the roles table changed. */
  predicate OtherRolesKept(db: Db, after: Db, r: Rid) {
    && after.owners == db.owners && after.members == db.members
    && (forall x :: x in db.roles && x != r ==> x in after.roles && after.roles[x] == db.roles[x])
    && (forall x :: x in after.roles && x != r ==> x in db.roles)
  }

  /** One more than the highest position of the server's roles, at least 1, as a 32-bit integer. */
  ghost predicate IsDefaultPosition(db: Db, sid: Sid, position: int) {
    if exists r :: InServer(db, sid, r) then
      exists r :: InServer(db, sid, r)
                  && (forall x :: InServer(db, sid, x) ==> db.roles[x].position <= db.roles[r].position)
                  && position == (if db.roles[r].position == 2147483647 then -2147483648 else db.roles[r].position + 1)
    else position == 1
  }

  lemma DefaultPosition(db: Db, sid: Sid)
    ensures IsDefaultPosition(db, sid, Successor(MaxOr(Positions(db, RolesOf(db, sid)), 0)))
  {
    hide MaxOr;
    var rs := RolesOf(db, sid);
    var ps := Positions(db, rs);
    assert forall r :: r in rs <==> InServer(db, sid, r);
    assert forall r :: r in rs ==> db.roles[r].position in ps;
    if ps != {} {
      var top :| top in rs && db.roles[top].position == MaxOr(ps, 0);
      assert InServer(db, sid, top);
    }
  }

  // ---- The five requests ---------------------------------------------------------------

  lemma CreateRule(db: Db, actor: Uid, sid: Sid, name: string, permissions: Option<int>, position: Option<int>, id: Rid)
    requires id !in db.roles
    ensures var (after, error) := Handle(db, actor, sid, CreateRole(name, permissions, position), id);
            var p := if permissions.Some? then permissions.value else 0;
            && (error == None <==>
                  && Manages(db, sid, actor) && Named(name) && Storable(p)
                  && (position.Some? ==> Outranks(db, sid, actor, position.value)) && MayGive(db, sid, actor, p))
            && (error == Some(NotFound) <==> !Member(db, sid, actor))
            && (error == Some(Invalid) <==> Manages(db, sid, actor) && !(Named(name) && Storable(p)))
            && (error != None ==> after == db)
            && (error == None ==>
                  && OtherRolesKept(db, after, id) && after.memberRoles == db.memberRoles
                  && id in after.roles && after.roles[id].server == sid && after.roles[id].name == name
                  && after.roles[id].permissions == BitsOf(p)
                  && (position.Some? ==> after.roles[id].position == position.value)
                  && (position.None? ==> IsDefaultPosition(db, sid, after.roles[id].position)))
  {
    hide BitsOf, HasPermission, Successor, MaxOr, ByteLength, Authorize, HighestPosition, MayGrant, Manages, Outranks,
      MayGive, Member, IsDefaultPosition;
    var p := if permissions.Some? then permissions.value else 0;
    AuthorizedIff(db, actor, sid, None);
    DefaultPosition(db, sid);
    if position.Some? { OutranksIff(db, sid, actor, position.value); }
    if InRange(p) {
      MayGiveIff(db, sid, actor, p);
      OwnerGives(db, sid, actor, p);
    }
    OwnerOutranks(db, sid, actor);
  }

  lemma OwnerOutranks(db: Db, sid: Sid, u: Uid)
    ensures IsOwner(db, sid, u) ==> forall p :: Outranks(db, sid, u, p)
  {}

  lemma OwnerGives(db: Db, sid: Sid, u: Uid, p: int)
    requires InRange(p)
    ensures IsOwner(db, sid, u) ==> MayGive(db, sid, u, p)
  {}

  lemma UpdateRule(db: Db, actor: Uid, sid: Sid, role: Rid, name: Option<string>, permissions: Option<int>,
                   position: Option<int>, id: Rid)
    ensures var (after, error) := Handle(db, actor, sid, UpdateRole(role, name, permissions, position), id);
            var valid := (name.Some? ==> Named(name.value)) && (permissions.Some? ==> Storable(permissions.value));
            && (error == None <==>
                  && Manages(db, sid, actor) && InServer(db, sid, role) && valid
                  && Outranks(db, sid, actor, db.roles[role].position)
                  && (position.Some? ==> Outranks(db, sid, actor, position.value))
                  && (permissions.Some? ==> MayGive(db, sid, actor, permissions.value)))
            && (error == Some(NotFound) <==>
                  !Member(db, sid, actor) || (Manages(db, sid, actor) && !InServer(db, sid, role)))
            && (error == Some(Invalid) <==> Manages(db, sid, actor) && InServer(db, sid, role) && !valid)
            && (error != None ==> after == db)
            && (error == None ==>
                  && OtherRolesKept(db, after, role) && after.memberRoles == db.memberRoles && role in after.roles
                  && after.roles[role].server == sid
                  && after.roles[role].name == (if name.Some? then name.value else db.roles[role].name)
                  && after.roles[role].permissions
                     == (if permissions.Some? then BitsOf(permissions.value) else db.roles[role].permissions)
                  && after.roles[role].position
                     == (if position.Some? then position.value else db.roles[role].position))
  {
    hide BitsOf, HasPermission, ByteLength, Authorize, HighestPosition, MayGrant, Manages, Outranks, MayGive, Member;
    AuthorizedIff(db, actor, sid, None);
    MemberManages(db, sid, actor);
    if role in db.roles { OutranksIff(db, sid, actor, db.roles[role].position); }
    if position.Some? { OutranksIff(db, sid, actor, position.value); }
    if permissions.Some? && InRange(permissions.value) { MayGiveIff(db, sid, actor, permissions.value); }
  }

  lemma MemberManages(db: Db, sid: Sid, u: Uid)
    ensures Manages(db, sid, u) ==> Member(db, sid, u)
  {}

  lemma DeleteRule(db: Db, actor: Uid, sid: Sid, role: Rid, id: Rid)
    ensures var (after, error) := Handle(db, actor, sid, DeleteRole(role), id);
            && (error == None <==>
                  && Manages(db, sid, actor) && InServer(db, sid, role)
                  && Outranks(db, sid, actor, db.roles[role].position))
            && (error == Some(NotFound) <==>
                  !Member(db, sid, actor) || (Manages(db, sid, actor) && !InServer(db, sid, role)))
            && error != Some(Invalid)
            && (error != None ==> after == db)
            && (error == None ==>
                  && OtherRolesKept(db, after, role) && role !in after.roles
                  && forall u: Uid, s: Sid, r: Rid ::
                       (u, s, r) in after.memberRoles <==> (u, s, r) in db.memberRoles && r != role)
  {
    hide HasPermission, Authorize, HighestPosition, Manages, Outranks, Member;
    AuthorizedIff(db, actor, sid, None);
    MemberManages(db, sid, actor);
    if role in db.roles { OutranksIff(db, sid, actor, db.roles[role].position); }
  }

  lemma AssignRule(db: Db, actor: Uid, sid: Sid, user: Uid, role: Rid, id: Rid)
    ensures var (after, error) := Handle(db, actor, sid, AssignRole(user, role), id);
            && (error == None <==>
                  && Manages(db, sid, actor) && Member(db, sid, user) && InServer(db, sid, role)
                  && Outranks(db, sid, actor, db.roles[role].position))
            && (error == Some(NotFound) <==>
                  || !Member(db, sid, actor) || !Member(db, sid, user)
                  || (Manages(db, sid, actor) && !InServer(db, sid, role)))
            && error != Some(Invalid)
            && (error != None ==> after == db)
            && (error == None ==>
                  && after.owners == db.owners && after.members == db.members && after.roles == db.roles
                  && forall u: Uid, s: Sid, r: Rid ::
                       (u, s, r) in after.memberRoles <==>
                       (u, s, r) in db.memberRoles || (u == user && s == sid && r == role))
  {
    hide HasPermission, Authorize, HighestPosition, Manages, Outranks;
    AuthorizedIff(db, actor, sid, Some(user));
    MemberManages(db, sid, actor);
    if role in db.roles { OutranksIff(db, sid, actor, db.roles[role].position); }
  }

  /** Only the owner takes roles from the owner. */
  lemma RemoveRule(db: Db, actor: Uid, sid: Sid, user: Uid, role: Rid, id: Rid)
    ensures var (after, error) := Handle(db, actor, sid, RemoveRole(user, role), id);
            && (error == None <==>
                  && Manages(db, sid, actor) && Member(db, sid, user) && InServer(db, sid, role)
                  && (Owns(db, sid, user) ==> actor == user)
                  && Outranks(db, sid, actor, db.roles[role].position))
            && (error == Some(NotFound) <==>
                  || !Member(db, sid, actor) || !Member(db, sid, user)
                  || (Manages(db, sid, actor) && !InServer(db, sid, role)))
            && error != Some(Invalid)
            && (error != None ==> after == db)
            && (error == None ==>
                  && after.owners == db.owners && after.members == db.members && after.roles == db.roles
                  && forall u: Uid, s: Sid, r: Rid ::
                       (u, s, r) in after.memberRoles <==>
                       (u, s, r) in db.memberRoles && !(u == user && s == sid && r == role))
  {
    hide HasPermission, Authorize, HighestPosition, Manages, Outranks;
    AuthorizedIff(db, actor, sid, Some(user));
    MemberManages(db, sid, actor);
    if role in db.roles { OutranksIff(db, sid, actor, db.roles[role].position); }
  }

  /** A handler whose two steps nobody comes between is the request at once. */
  lemma UninterruptedRun(s: RoleRuns.State, k: nat, actor: Uid, sid: Sid, req: Request, id: Rid)
    requires k !in s.pending && id !in s.used
    ensures var t := RoleRuns.Step(RoleRuns.Step(s, RoleRuns.Begin(k, actor, sid, req)), RoleRuns.Finish(k, id));
            t.db == Handle(s.db, actor, sid, req, id).0 && t.pending == s.pending
  {
    hide Check, Apply;
    if Check(s.db, actor, sid, req).Ok? {
      assert s.pending[k := Check(s.db, actor, sid, req).value] - {k} == s.pending;
    }
  }
}
