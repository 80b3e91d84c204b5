/** Channel permissions, resolved once by the server and once by the client. */
module ChannelPermissions {
  import opened Wrappers
  import opened Permissions
  import opened Roles

  datatype Override = Override(
    id: nat,
    channel: nat,
    role: Option<Rid>,
    user: Option<Uid>,
    allow: Bits,
    deny: Bits)

  /** Given to every member, whatever the roles say. */
  const DEFAULT_MEMBER: Bits :=
    {VIEW_CHANNEL, SEND_MESSAGES, ADD_REACTIONS, ATTACH_FILES, CONNECT_VOICE, SPEAK}

  /** i64::MAX on the server, 0x7fffffff on the client. */
  const ALL_SERVER: Bits := set b: nat | b < 63
  const ALL_CLIENT: Bits := set b: nat | b < 31

  // ---- Server side ---------------------------------------------------------------

  /** The accumulators of the override loop. */
  datatype Merge = Merge(allow: Bits, deny: Bits, own: Option<Override>)

  function MergeOne(acc: Merge, ov: Override, uid: Uid, mine: set<Rid>): Merge {
    if ov.user == Some(uid) then acc.(own := Some(ov))
    else if ov.role.Some? && ov.role.value in mine then acc.(allow := acc.allow + ov.allow, deny := acc.deny + ov.deny)
    else acc
  }

  function MergeAll(rows: seq<Override>, uid: Uid, mine: set<Rid>): Merge {
    if rows == [] then Merge({}, {}, None)
    else MergeOne(MergeAll(rows[..|rows| - 1], uid, mine), rows[|rows| - 1], uid, mine)
  }

  function Override1(perms: Bits, deny: Bits, allow: Bits): Bits { perms - deny + allow }

  function RoleIds(db: Db, sid: Sid, uid: Uid): set<Rid> {
    set x | x in db.memberRoles && x.0 == uid && x.1 == sid :: x.2
  }

  function ServerBits(db: Db, sid: Sid, uid: Uid, rows: seq<Override>): Bits {
    var base := UserPermissions(db, sid, uid) + DEFAULT_MEMBER;
    if IsOwner(db, sid, uid) || ADMINISTRATOR in base then ALL_SERVER
    else
      var m := MergeAll(rows, uid, RoleIds(db, sid, uid));
      var merged := Override1(base, m.deny, m.allow);
      if m.own.Some? then Override1(merged, m.own.value.deny, m.own.value.allow) else merged
  }

  /** compute_channel_permissions, on the override rows in whatever order they are fetched. */
  method ComputeOnServer(db: Db, sid: Sid, uid: Uid, rows: seq<Override>) returns (perms: Bits)
    ensures perms == ServerBits(db, sid, uid, rows)
  {
    if sid in db.owners && db.owners[sid] == uid { return ALL_SERVER; }
    var base := UserPermissions(db, sid, uid) + DEFAULT_MEMBER;
    if ADMINISTRATOR in base { return ALL_SERVER; }
    if rows == [] {
      assert base - {} + {} == base;
      return base;
    }
    var mine := RoleIds(db, sid, uid);
    var roleAllow, roleDeny: Bits := {}, {};
    var userOverride: Option<Override> := None;
    for i := 0 to |rows|
      invariant Merge(roleAllow, roleDeny, userOverride) == MergeAll(rows[..i], uid, mine)
    {
      var ov := rows[i];
      assert rows[..i + 1][..i] == rows[..i];
      if ov.user == Some(uid) {
        userOverride := Some(ov);
      } else if ov.role.Some? && ov.role.value in mine {
        roleAllow := roleAllow + ov.allow;
        roleDeny := roleDeny + ov.deny;
      }
    }
    assert rows[..|rows|] == rows;
    perms := base - roleDeny + roleAllow;
    if userOverride.Some? {
      perms := perms - userOverride.value.deny + userOverride.value.allow;
    }
  }

  // ---- Client side ---------------------------------------------------------------

  datatype RoleDto = RoleDto(id: Rid, permissions: Bits)

  /** What the client knows about the active server and itself. */
  datatype Session = Session(me: Option<Uid>, owner: Option<Uid>, roles: seq<RoleDto>, myRoleIds: seq<Rid>)

  function RoleBits(roles: seq<RoleDto>, mine: seq<Rid>): Bits {
    if roles == [] then {}
    else RoleBits(roles[..|roles| - 1], mine)
         + (if roles[|roles| - 1].id in mine then roles[|roles| - 1].permissions else {})
  }

  function RoleMerge(rows: seq<Override>, mine: seq<Rid>): (Bits, Bits) {
    if rows == [] then ({}, {})
    else
      var (allow, deny) := RoleMerge(rows[..|rows| - 1], mine);
      var ov := rows[|rows| - 1];
      if ov.role.Some? && ov.role.value in mine then (allow + ov.allow, deny + ov.deny) else (allow, deny)
  }

  function ApplyOwn(perms: Bits, rows: seq<Override>, me: Uid): Bits {
    if rows == [] then perms
    else
      var p := ApplyOwn(perms, rows[..|rows| - 1], me);
      var ov := rows[|rows| - 1];
      if ov.user == Some(me) then Override1(p, ov.deny, ov.allow) else p
  }

  function ClientBits(s: Session, rows: seq<Override>): Bits {
    if s.me.None? then {}
    else
      var base := RoleBits(s.roles, s.myRoleIds) + DEFAULT_MEMBER;
      if s.owner == s.me || ADMINISTRATOR in base then ALL_CLIENT
      else
        var (allow, deny) := RoleMerge(rows, s.myRoleIds);
        ApplyOwn(Override1(base, deny, allow), rows, s.me.value)
  }

  method ComputePermissions(roles: seq<RoleDto>, mine: seq<Rid>) returns (perms: Bits)
    ensures perms == RoleBits(roles, mine)
  {
    perms := {};
    for i := 0 to |roles|
      invariant perms == RoleBits(roles[..i], mine)
    {
      assert roles[..i + 1][..i] == roles[..i];
      if roles[i].id in mine {
        perms := perms + roles[i].permissions;
      }
    }
    assert roles[..|roles|] == roles;
  }

  /** computeChannelPermissions of the role store. */
  method ComputeOnClient(s: Session, overrides: seq<Override>) returns (perms: Bits)
    ensures perms == ClientBits(s, overrides)
  {
    if s.me.None? { return {}; }
    if s.owner == s.me { return ALL_CLIENT; }
    perms := ComputePermissions(s.roles, s.myRoleIds);
    perms := perms + DEFAULT_MEMBER;
    if ADMINISTRATOR in perms { return ALL_CLIENT; }
    var roleAllow, roleDeny: Bits := {}, {};
    for i := 0 to |overrides|
      invariant (roleAllow, roleDeny) == RoleMerge(overrides[..i], s.myRoleIds)
    {
      var ov := overrides[i];
      assert overrides[..i + 1][..i] == overrides[..i];
      if ov.role.Some? && ov.role.value in s.myRoleIds {
        roleAllow := roleAllow + ov.allow;
        roleDeny := roleDeny + ov.deny;
      }
    }
    assert overrides[..|overrides|] == overrides;
    perms := perms - roleDeny + roleAllow;
    ghost var merged := perms;
    for i := 0 to |overrides|
      invariant perms == ApplyOwn(merged, overrides[..i], s.me.value)
    {
      var ov := overrides[i];
      assert overrides[..i + 1][..i] == overrides[..i];
      if ov.user == s.me {
        perms := perms - ov.deny + ov.allow;
      }
    }
  }
}
