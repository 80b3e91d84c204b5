/** What an override request needs, what it stores, and what a user may do afterwards, on the
    arguments of the request and the fields of the tables. */
module OverrideRequests {
  import opened Wrappers
  import opened Permissions
  import opened Powers
  import Roles
  import opened ChannelPermissions
  import opened OverrideSync

  /** The b-th binary digit of a mask. */
  predicate Digit(mask: nat, b: nat) { (mask / Pow2(b)) % 2 == 1 }

  predicate Acceptable(role: Option<nat>, user: Option<nat>, allow: int, deny: int) {
    && ((role.Some? && user == None) || (role == None && user.Some?))
    && 0 <= allow <= 32767 && 0 <= deny <= 32767
    && forall b: nat :: b < 15 ==> !(Digit(allow, b) && Digit(deny, b))
  }

  predicate IsFor(ov: Override, channel: nat, role: Option<nat>, user: Option<nat>) {
    ov.channel == channel && ov.role == role && ov.user == user
  }

  /** The tables agree on every row but one. */
  ghost predicate OthersKept(t: Table, t': Table, id: nat) {
    forall x: nat :: x != id ==> (x in t' <==> x in t) && (x in t ==> t'[x] == t[x])
  }

  lemma AcceptableIff(role: Option<nat>, user: Option<nat>, allow: int, deny: int)
    ensures ValidRequest(role, user, allow, deny) <==> Acceptable(role, user, allow, deny)
  {
    if InRange(allow) && InRange(deny) {
      MaskDigits(allow);
      MaskDigits(deny);
      hide BitsOf, Digit;
      assert BitsOf(allow) * BitsOf(deny) == {} <==> forall b :: b in BitsOf(allow) ==> b !in BitsOf(deny) by {
        if BitsOf(allow) * BitsOf(deny) == {} {
          forall b | b in BitsOf(allow) ensures b !in BitsOf(deny) {
            assert b !in BitsOf(allow) * BitsOf(deny);
          }
        }
      }
    }
  }

  lemma MaskDigits(mask: int)
    requires 0 <= mask <= 32767
    ensures forall b: nat :: b in BitsOf(mask) <==> b < 15 && Digit(mask, b)
  {}

  /** A request to set an override succeeds exactly for one target and disjoint masks in range. Then
      the target has one row in the channel, with the masks of the request; the event carries it. */
  lemma SetRule(t: Table, allowed: bool, channel: nat, role: Option<nat>, user: Option<nat>, allow: int, deny: int,
                newId: nat)
    requires ValidTable(t) && newId !in t
    ensures var (t', event) := Serve(t, Set(allowed, channel, role, user, allow, deny, newId));
            && (event.Some? <==> allowed && Acceptable(role, user, allow, deny))
            && (event == None ==> t' == t)
            && (event.Some? ==>
                  && event.value.Updated?
                  && var row := event.value.ov;
                  && row.id in t' && t'[row.id] == row && IsFor(row, channel, role, user)
                  && row.allow == BitsOf(allow) && row.deny == BitsOf(deny)
                  && (forall id :: id in t' && IsFor(t'[id], channel, role, user) ==> id == row.id)
                  && (row.id in t ==> IsFor(t[row.id], channel, role, user))
                  && OthersKept(t, t', row.id))
  {
    hide BitsOf, ValidRequest, Acceptable;
    AcceptableIff(role, user, allow, deny);
    if allowed && ValidRequest(role, user, allow, deny) {
      InRangeMasks(role, user, allow, deny);
      UpsertRule(t, channel, role, user, BitsOf(allow), BitsOf(deny), newId);
    }
  }

  lemma InRangeMasks(role: Option<nat>, user: Option<nat>, allow: int, deny: int)
    requires ValidRequest(role, user, allow, deny)
    ensures InRange(allow) && InRange(deny) && role.Some? != user.Some?
  {}

  lemma UpsertRule(t: Table, channel: nat, role: Option<nat>, user: Option<nat>, allow: Bits, deny: Bits, newId: nat)
    requires ValidTable(t) && newId !in t
    ensures var (t', row) := Upsert(t, channel, role, user, allow, deny, newId);
            && row.id in t' && t'[row.id] == row && IsFor(row, channel, role, user)
            && row.allow == allow && row.deny == deny
            && (forall id :: id in t' && IsFor(t'[id], channel, role, user) ==> id == row.id)
            && (row.id in t ==> IsFor(t[row.id], channel, role, user))
            && OthersKept(t, t', row.id)
  {
    var same := ConflictRow(t, channel, role, user);
    assert forall id :: id in t && IsFor(t[id], channel, role, user) ==> id in same;
  }

  /** A request to drop an override succeeds exactly if the row is there, in the channel of the path. */
  lemma DropRule(t: Table, allowed: bool, channel: nat, id: nat)
    requires ValidTable(t)
    ensures var (t', event) := Serve(t, Drop(allowed, channel, id));
            && (event.Some? <==> allowed && id in t && t[id].channel == channel)
            && (event == None ==> t' == t)
            && (event.Some? ==> event == Some(Deleted(channel, id)) && id !in t' && OthersKept(t, t', id))
  {}

  // ---- Effective permissions ---------------------------------------------------------

  predicate RoleHas(db: Roles.Db, sid: nat, uid: nat, b: nat) {
    exists r :: r in db.roles && (uid, sid, r) in db.memberRoles && b in db.roles[r].permissions
  }

  predicate Unrestricted(db: Roles.Db, sid: nat, uid: nat) {
    (sid in db.owners && db.owners[sid] == uid) || RoleHas(db, sid, uid, 13)
  }

  /** An override for a role the user holds in the server. */
  predicate ForRoleOf(db: Roles.Db, sid: nat, uid: nat, ov: Override) {
    ov.role.Some? && (uid, sid, ov.role.value) in db.memberRoles
  }

  predicate AnyRoleAllows(db: Roles.Db, sid: nat, uid: nat, t: Table, channel: nat, b: nat) {
    exists id :: id in t && t[id].channel == channel && ForRoleOf(db, sid, uid, t[id]) && b in t[id].allow
  }

  predicate AnyRoleDenies(db: Roles.Db, sid: nat, uid: nat, t: Table, channel: nat, b: nat) {
    exists id :: id in t && t[id].channel == channel && ForRoleOf(db, sid, uid, t[id]) && b in t[id].deny
  }

  /** View, send, attach, react, connect and speak: bits 0, 1, 3, 4, 5 and 6. */
  lemma EverybodysPermissions()
    ensures DEFAULT_MEMBER == {0, 1, 3, 4, 5, 6}
  {}

  lemma UserPermissionsMeaning(db: Roles.Db, sid: nat, uid: nat, b: nat)
    ensures b in Roles.UserPermissions(db, sid, uid) <==> RoleHas(db, sid, uid, b)
  {
    assert forall r :: r in Roles.Held(db, sid, uid) <==> r in db.roles && (uid, sid, r) in db.memberRoles;
  }

  lemma RolesMeanHeld(db: Roles.Db, sid: nat, uid: nat, t: Table, channel: nat, b: nat)
    ensures RolesAllow(t, channel, RoleIds(db, sid, uid), b) <==> AnyRoleAllows(db, sid, uid, t, channel, b)
    ensures RolesDeny(t, channel, RoleIds(db, sid, uid), b) <==> AnyRoleDenies(db, sid, uid, t, channel, b)
  {
    forall r: nat ensures r in RoleIds(db, sid, uid) <==> (uid, sid, r) in db.memberRoles {
      assert (uid, sid, r).2 == r;
    }
    assert forall ov: Override :: ForRoles(ov, RoleIds(db, sid, uid)) <==> ForRoleOf(db, sid, uid, ov);
  }

  /** Who has a permission in a channel: the owner and administrators always; then the override of
      the user, allowing before denying; then those of the user's roles, again allowing first; then
      the roles themselves and what everybody has. */
  lemma EffectivePermission(db: Roles.Db, sid: nat, uid: nat, t: Table, channel: nat, rows: seq<Override>, b: nat)
    requires ValidTable(t) && Lists(t, channel, rows) && b < 15
    ensures b in ServerBits(db, sid, uid, rows) <==>
              || Unrestricted(db, sid, uid)
              || UserAllows(t, channel, uid, b)
              || (!UserDenies(t, channel, uid, b)
                  && (|| AnyRoleAllows(db, sid, uid, t, channel, b)
                      || (!AnyRoleDenies(db, sid, uid, t, channel, b)
                          && (RoleHas(db, sid, uid, b) || b in {0, 1, 3, 4, 5, 6}))))
  {
    hide UserAllows, UserDenies, RolesAllow, RolesDeny, Lists, ValidTable, MergeAll, RoleHas, AnyRoleAllows,
      AnyRoleDenies, Roles.UserPermissions, RoleIds;
    UserPermissionsMeaning(db, sid, uid, 13);
    if Unrestricted(db, sid, uid) {
    } else {
      EverybodysPermissions();
      UserPermissionsMeaning(db, sid, uid, b);
      RolesMeanHeld(db, sid, uid, t, channel, b);
      PrecedenceDecides(db, sid, uid, t, channel, rows, b);
    }
  }

  /** The documentation promises the plain role permissions in a channel without overrides. The code
      adds what everybody has, so it keeps the promise exactly for members whose roles already grant
      that, and not, for instance, for a member without a role. */
  lemma WithoutOverrides(db: Roles.Db, sid: nat, uid: nat)
    requires !Unrestricted(db, sid, uid)
    ensures ServerBits(db, sid, uid, []) == Roles.UserPermissions(db, sid, uid)
            <==> forall b :: b in {0, 1, 3, 4, 5, 6} ==> RoleHas(db, sid, uid, b)
    ensures (forall r: nat :: (uid, sid, r) !in db.memberRoles) ==>
              ServerBits(db, sid, uid, []) == {0, 1, 3, 4, 5, 6} != Roles.UserPermissions(db, sid, uid)
  {
    hide RoleHas, Roles.UserPermissions;
    EverybodysPermissions();
    UserPermissionsMeaning(db, sid, uid, 13);
    forall b ensures b in Roles.UserPermissions(db, sid, uid) <==> RoleHas(db, sid, uid, b) {
      UserPermissionsMeaning(db, sid, uid, b);
    }
    NoRoleHasNothing(db, sid, uid);
    assert ServerBits(db, sid, uid, []) == Roles.UserPermissions(db, sid, uid) + {0, 1, 3, 4, 5, 6};
    assert 0 in {0, 1, 3, 4, 5, 6};
  }

  lemma NoRoleHasNothing(db: Roles.Db, sid: nat, uid: nat)
    ensures (forall r: nat :: (uid, sid, r) !in db.memberRoles) ==> forall b :: !RoleHas(db, sid, uid, b)
  {}

  /** What a request for a user asks is what the user gets, on the server, whatever else the table
      holds, and on any client whose copy was right and handled the event. */
  lemma UserOverrideDecides(db: Roles.Db, sid: nat, uid: nat, t: Table, c: Copy, s: Session, channel: nat, allow: int,
                            deny: int, newId: nat, rows: seq<Override>, b: nat)
    requires ValidTable(t) && newId !in t && Acceptable(None, Some(uid), allow, deny)
    requires !Unrestricted(db, sid, uid) && InSync(db, sid, uid, s) && Lists(t, channel, At(c, channel)) && b < 15
    requires Lists(Serve(t, Set(true, channel, None, Some(uid), allow, deny, newId)).0, channel, rows)
    ensures var event := Serve(t, Set(true, channel, None, Some(uid), allow, deny, newId)).1;
            && event.Some?
            && (Digit(allow, b) ==>
                  b in ServerBits(db, sid, uid, rows) && b in ClientBits(s, At(Handle(c, event.value), channel)))
            && (Digit(deny, b) ==>
                  b !in ServerBits(db, sid, uid, rows) && b !in ClientBits(s, At(Handle(c, event.value), channel)))
  {
    var op := Set(true, channel, None, Some(uid), allow, deny, newId);
    SetRule(t, true, channel, None, Some(uid), allow, deny, newId);
    MaskDigits(allow);
    MaskDigits(deny);
    UserRowDecides(t, channel, uid, allow, deny, newId, b);
    ServeValid(t, op);
    ServeLists(t, c, channel, op);
    hide Serve, Lists, ValidTable, InSync, Digit, Unrestricted, ServerBits, ClientBits, BitsOf, UserAllows, UserDenies,
      AnyRoleAllows, AnyRoleDenies, Acceptable, OthersKept;
    var (t', event) := Serve(t, op);
    EffectivePermission(db, sid, uid, t', channel, rows, b);
    ResolutionsAgree(db, sid, uid, s, t', channel, rows, At(Handle(c, event.value), channel));
  }

  lemma UserRowDecides(t: Table, channel: nat, uid: nat, allow: int, deny: int, newId: nat, b: nat)
    requires ValidTable(t) && newId !in t && Acceptable(None, Some(uid), allow, deny) && b < 15
    ensures var t' := Serve(t, Set(true, channel, None, Some(uid), allow, deny, newId)).0;
            && (UserAllows(t', channel, uid, b) <==> Digit(allow, b))
            && (UserDenies(t', channel, uid, b) <==> Digit(deny, b))
  {
    var op := Set(true, channel, None, Some(uid), allow, deny, newId);
    SetRule(t, true, channel, None, Some(uid), allow, deny, newId);
    ServeValid(t, op);
    MaskDigits(allow);
    MaskDigits(deny);
    hide Serve, Digit, BitsOf, Acceptable, OthersKept;
    var t' := Serve(t, op).0;
    assert forall id :: id in t' && t'[id].channel == channel && t'[id].user == Some(uid) ==>
                          IsFor(t'[id], channel, None, Some(uid));
  }

  /** What a request for a role asks holds for its holders, unless an override of the user says
      otherwise or, for a denied permission, another role of the user is allowed it. */
  lemma RoleOverrideDecides(db: Roles.Db, sid: nat, uid: nat, t: Table, channel: nat, role: nat, allow: int, deny: int,
                            newId: nat, rows: seq<Override>, b: nat)
    requires ValidTable(t) && newId !in t && Acceptable(Some(role), None, allow, deny)
    requires !Unrestricted(db, sid, uid) && (uid, sid, role) in db.memberRoles && b < 15
    requires Lists(Serve(t, Set(true, channel, Some(role), None, allow, deny, newId)).0, channel, rows)
    ensures Digit(allow, b) ==>
              (b in ServerBits(db, sid, uid, rows)
               <==> UserAllows(t, channel, uid, b) || !UserDenies(t, channel, uid, b))
    ensures Digit(deny, b) ==>
              (b in ServerBits(db, sid, uid, rows)
               <==> || UserAllows(t, channel, uid, b)
                    || (!UserDenies(t, channel, uid, b)
                        && exists id :: id in t && t[id].channel == channel && ForRoleOf(db, sid, uid, t[id])
                                        && t[id].role != Some(role) && b in t[id].allow))
  {
    var op := Set(true, channel, Some(role), None, allow, deny, newId);
    SetRule(t, true, channel, Some(role), None, allow, deny, newId);
    ServeValid(t, op);
    MaskDigits(allow);
    MaskDigits(deny);
    DisjointDigits(Some(role), None, allow, deny, b);
    hide Serve, Lists, Digit, Unrestricted, ServerBits, BitsOf, Acceptable;
    var (t', event) := Serve(t, op);
    EffectivePermission(db, sid, uid, t', channel, rows, b);
    SameForUser(t, t', event.value.ov, channel, uid, b);
    OneRoleRow(db, sid, uid, t, t', event.value.ov, channel, role, b);
  }

  lemma DisjointDigits(role: Option<nat>, user: Option<nat>, allow: int, deny: int, b: nat)
    requires Acceptable(role, user, allow, deny) && b < 15
    ensures !(Digit(allow, b) && Digit(deny, b))
  {}

  /** A row of a role does not matter for the overrides of users. */
  lemma SameForUser(t: Table, t': Table, row: Override, channel: nat, uid: nat, b: nat)
    requires row.id in t' && t'[row.id] == row && row.user == None && OthersKept(t, t', row.id)
    requires row.id in t ==> t[row.id].user == None
    ensures UserAllows(t', channel, uid, b) <==> UserAllows(t, channel, uid, b)
    ensures UserDenies(t', channel, uid, b) <==> UserDenies(t, channel, uid, b)
  {}

  /** The one row of the role and the rows of the others. */
  lemma OneRoleRow(db: Roles.Db, sid: nat, uid: nat, t: Table, t': Table, row: Override, channel: nat,
                   role: nat, b: nat)
    requires ValidTable(t') && row.id in t' && t'[row.id] == row && IsFor(row, channel, Some(role), None)
    requires OthersKept(t, t', row.id) && (row.id in t ==> IsFor(t[row.id], channel, Some(role), None))
    requires (uid, sid, role) in db.memberRoles
    ensures b in row.allow ==> AnyRoleAllows(db, sid, uid, t', channel, b)
    ensures b in row.deny ==> AnyRoleDenies(db, sid, uid, t', channel, b)
    ensures b !in row.allow ==>
              (AnyRoleAllows(db, sid, uid, t', channel, b)
               <==> exists id :: id in t && t[id].channel == channel && ForRoleOf(db, sid, uid, t[id])
                                 && t[id].role != Some(role) && b in t[id].allow)
  {
    forall id | id in t' && t'[id].channel == channel && t'[id].role == Some(role) ensures id == row.id {
      assert SameTarget(t'[id], row.channel, row.role, row.user);
    }
  }

  // ---- Histories -----------------------------------------------------------------------

  /** A client that hears every event in order is one that handles all announced events. */
  lemma {:induction false} RunIsServed(t: Table, c: Copy, ops: seq<Op>)
    requires ValidTable(t)
    ensures Run(t, c, ops) == (Served(t, ops).0, HandleAll(c, Served(t, ops).1))
  {
    if ops != [] {
      hide Serve, Handle;
      var before := ops[..|ops| - 1];
      RunIsServed(t, c, before);
      var (t1, es) := Served(t, before);
      var e := Serve(t1, ops[|ops| - 1]).1;
      if e.Some? { assert (es + [e.value])[..|es|] == es; }
    }
  }
}
