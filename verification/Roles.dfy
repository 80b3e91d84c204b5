/** Role management: the checks of each handler, its writes, and the tables they work on. */
module Roles {
  import opened Wrappers
  import opened Permissions
  import opened Maxima

  type Sid = nat
  type Uid = nat
  type Rid = nat

  datatype Role = Role(server: Sid, name: string, permissions: Bits, position: int)

  datatype Db = Db(
    owners: map<Sid, Uid>,
    members: set<(Uid, Sid)>,
    roles: map<Rid, Role>,
    memberRoles: set<(Uid, Sid, Rid)>)

  datatype Request =
    | CreateRole(name: string, permissions: Option<int>, position: Option<int>)
    | UpdateRole(role: Rid, newName: Option<string>, newPermissions: Option<int>, newPosition: Option<int>)
    | DeleteRole(role: Rid)
    | AssignRole(user: Uid, role: Rid)
    | RemoveRole(user: Uid, role: Rid)

  datatype Error = NotFound | Forbidden | Invalid

  datatype Result<T> = Ok(value: T) | Err(error: Error)

  /** The statement a handler executes once its checks have passed. */
  datatype Write =
    | Insert(row: Role)
    | Update(role: Rid, newName: Option<string>, bits: Option<Bits>, newPosition: Option<int>)
    | Delete(role: Rid)
    | Grant(user: Uid, server: Sid, role: Rid)
    | Revoke(user: Uid, server: Sid, role: Rid)

  const MAX_I32: int := 2147483647
  const MIN_I32: int := -2147483648

  /** i32 addition of one as release builds compute it. */
  function Successor(p: int): int { if p == MAX_I32 then MIN_I32 else p + 1 }

  // ---- Queries -------------------------------------------------------------------

  /** Roles of the user in the server: member_roles joined with roles. */
  function Held(db: Db, sid: Sid, uid: Uid): set<Rid> {
    set r | r in db.roles && (uid, sid, r) in db.memberRoles
  }

  function RolesOf(db: Db, sid: Sid): set<Rid> { set r | r in db.roles && db.roles[r].server == sid }

  function Positions(db: Db, rs: set<Rid>): set<int>
    requires rs <= db.roles.Keys
  {
    set r | r in rs :: db.roles[r].position
  }

  function HighestPosition(db: Db, sid: Sid, uid: Uid): int {
    MaxOr(Positions(db, Held(db, sid, uid)), 0)
  }

  function UnionBits(db: Db, rs: set<Rid>): Bits
    requires rs <= db.roles.Keys
  {
    set r, b | r in rs && b in db.roles[r].permissions :: b
  }

  function UserPermissions(db: Db, sid: Sid, uid: Uid): Bits { UnionBits(db, Held(db, sid, uid)) }

  predicate IsOwner(db: Db, sid: Sid, uid: Uid) { sid in db.owners && db.owners[sid] == uid }

  predicate HasPermission(db: Db, sid: Sid, uid: Uid, bit: nat) {
    || IsOwner(db, sid, uid)
    || exists r :: r in Held(db, sid, uid)
                   && (bit in db.roles[r].permissions || ADMINISTRATOR in db.roles[r].permissions)
  }

  // ---- Handlers ------------------------------------------------------------------

  /** Length in bytes of a character in UTF-8 (section 3 of RFC 3629). */
  function Utf8Length(c: char): (n: nat)
    ensures 1 <= n <= 4
  {
    if c < '\U{80}' then 1 else if c < '\U{800}' then 2 else if c < '\U{10000}' then 3 else 4
  }

  function ByteLength(s: string): (n: nat)
    ensures |s| <= n <= 4 * |s|
  {
    if s == "" then 0 else Utf8Length(s[0]) + ByteLength(s[1..])
  }

  predicate ValidName(name: string) { name != "" && ByteLength(name) <= 100 }

  /** The server exists, the actor is a member and may manage roles. */
  function Authorize(db: Db, actor: Uid, sid: Sid, target: Option<Uid>): Option<Error> {
    if sid !in db.owners then Some(NotFound)
    else if (actor, sid) !in db.members then Some(NotFound)
    else if target.Some? && (target.value, sid) !in db.members then Some(NotFound)
    else if !HasPermission(db, sid, actor, MANAGE_ROLES) then Some(Forbidden)
    else None
  }

  predicate MayGrant(db: Db, actor: Uid, sid: Sid, bits: Bits) {
    var own := UserPermissions(db, sid, actor);
    ADMINISTRATOR in own || bits <= own
  }

  function CheckCreate(db: Db, actor: Uid, sid: Sid, name: string, permissions: Option<int>, position: Option<int>)
    : Result<Write>
  {
    var denied := Authorize(db, actor, sid, None);
    var p := if permissions.Some? then permissions.value else 0;
    if denied.Some? then Err(denied.value)
    else if !ValidName(name) || !InRange(p) then Err(Invalid)
    else if !IsOwner(db, sid, actor) && position.Some? && position.value >= HighestPosition(db, sid, actor) then
      Err(Forbidden)
    else if !IsOwner(db, sid, actor) && !MayGrant(db, actor, sid, BitsOf(p)) then Err(Forbidden)
    else
      var place := if position.Some? then position.value else Successor(MaxOr(Positions(db, RolesOf(db, sid)), 0));
      Ok(Insert(Role(sid, name, BitsOf(p), place)))
  }

  /** The role exists in this server; a non-owner must outrank it. */
  function CheckTarget(db: Db, actor: Uid, sid: Sid, role: Rid): Option<Error> {
    if role !in db.roles || db.roles[role].server != sid then Some(NotFound)
    else if !IsOwner(db, sid, actor) && db.roles[role].position >= HighestPosition(db, sid, actor) then Some(Forbidden)
    else None
  }

  function CheckUpdate(db: Db, actor: Uid, sid: Sid, role: Rid, name: Option<string>, permissions: Option<int>,
                       position: Option<int>)
    : Result<Write>
  {
    var denied := Authorize(db, actor, sid, None);
    if denied.Some? then Err(denied.value)
    else if role !in db.roles || db.roles[role].server != sid then Err(NotFound)
    else if (name.Some? && !ValidName(name.value)) || (permissions.Some? && !InRange(permissions.value)) then
      Err(Invalid)
    else if CheckTarget(db, actor, sid, role).Some? then Err(Forbidden)
    else if !IsOwner(db, sid, actor) && position.Some? && position.value >= HighestPosition(db, sid, actor) then
      Err(Forbidden)
    else if !IsOwner(db, sid, actor) && permissions.Some? && !MayGrant(db, actor, sid, BitsOf(permissions.value)) then
      Err(Forbidden)
    else Ok(Update(role, name, if permissions.Some? then Some(BitsOf(permissions.value)) else None, position))
  }

  function Check(db: Db, actor: Uid, sid: Sid, req: Request): Result<Write> {
    match req
    case CreateRole(name, permissions, position) => CheckCreate(db, actor, sid, name, permissions, position)
    case UpdateRole(role, name, permissions, position) => CheckUpdate(db, actor, sid, role, name, permissions, position)
    case DeleteRole(role) =>
      var denied := Authorize(db, actor, sid, None);
      var refused := CheckTarget(db, actor, sid, role);
      if denied.Some? then Err(denied.value)
      else if refused.Some? then Err(refused.value)
      else Ok(Delete(role))
    case AssignRole(user, role) =>
      var denied := Authorize(db, actor, sid, Some(user));
      var refused := CheckTarget(db, actor, sid, role);
      if denied.Some? then Err(denied.value)
      else if refused.Some? then Err(refused.value)
      else Ok(Grant(user, sid, role))
    case RemoveRole(user, role) =>
      var denied := Authorize(db, actor, sid, Some(user));
      var refused := CheckTarget(db, actor, sid, role);
      if denied.Some? then Err(denied.value)
      else if refused == Some(NotFound) then Err(NotFound)
      else if !IsOwner(db, sid, actor) && IsOwner(db, sid, user) then Err(Forbidden)
      else if refused.Some? then Err(refused.value)
      else Ok(Revoke(user, sid, role))
  }

  function Merge(row: Role, name: Option<string>, bits: Option<Bits>, position: Option<int>): Role {
    row.(name := if name.Some? then name.value else row.name,
         permissions := if bits.Some? then bits.value else row.permissions,
         position := if position.Some? then position.value else row.position)
  }

  /** The effect of a write, under the table constraints; a new row gets the id `newId`. */
  function Apply(db: Db, w: Write, newId: Rid): Db {
    match w
    case Insert(row) => db.(roles := db.roles[newId := row])
    case Update(r, name, bits, position) =>
      if r in db.roles then db.(roles := db.roles[r := Merge(db.roles[r], name, bits, position)]) else db
    case Delete(r) =>
      db.(roles := db.roles - {r}, memberRoles := set x | x in db.memberRoles && x.2 != r)
    case Grant(u, s, r) =>
      if r in db.roles && (u, s) in db.members then db.(memberRoles := db.memberRoles + {(u, s, r)}) else db
    case Revoke(u, s, r) => db.(memberRoles := db.memberRoles - {(u, s, r)})
  }

  /** A whole handler run without interruption. */
  function Handle(db: Db, actor: Uid, sid: Sid, req: Request, newId: Rid): (Db, Option<Error>) {
    match Check(db, actor, sid, req)
    case Ok(w) => (Apply(db, w, newId), None)
    case Err(e) => (db, Some(e))
  }

  lemma Covered(bits: Bits, own: Bits)
    ensures bits - own == {} <==> bits <= own
  {
    if bits - own == {} {
      assert forall b :: b in bits ==> b !in bits - own;
    }
  }

  // ---- The tables as an object ---------------------------------------------------

  class Tables {
    var owners: map<Sid, Uid>
    var members: set<(Uid, Sid)>
    var roles: map<Rid, Role>
    var memberRoles: set<(Uid, Sid, Rid)>

    ghost function Value(): Db
      reads this
    {
      Db(owners, members, roles, memberRoles)
    }

    constructor (db: Db)
      ensures Value() == db
    {
      owners, members, roles, memberRoles := db.owners, db.members, db.roles, db.memberRoles;
    }

    /** fetch_server, require_member and require_permission, in this order. */
    method Require(actor: Uid, sid: Sid, target: Option<Uid>) returns (denied: Option<Error>)
      ensures denied == Authorize(Value(), actor, sid, target)
    {
      if sid !in owners { return Some(NotFound); }
      if (actor, sid) !in members { return Some(NotFound); }
      if target.Some? && (target.value, sid) !in members { return Some(NotFound); }
      if owners[sid] == actor { return None; }
      var held := set r | r in roles && (actor, sid, r) in memberRoles;
      if exists r :: r in held && (MANAGE_ROLES in roles[r].permissions || ADMINISTRATOR in roles[r].permissions) {
        return None;
      }
      return Some(Forbidden);
    }

    method Highest(sid: Sid, uid: Uid) returns (position: int)
      ensures position == HighestPosition(Value(), sid, uid)
    {
      var positions := set r | r in roles && (uid, sid, r) in memberRoles :: roles[r].position;
      assert positions == Positions(Value(), Held(Value(), sid, uid));
      position := MaxOr(positions, 0);
    }

    method Create(actor: Uid, sid: Sid, name: string, permissions: Option<int>, position: Option<int>, newId: Rid)
      returns (error: Option<Error>)
      modifies this
      ensures (Value(), error) == Handle(old(Value()), actor, sid, CreateRole(name, permissions, position), newId)
    {
      error := Require(actor, sid, None);
      if error.Some? { return; }
      if name == "" || ByteLength(name) > 100 { return Some(Invalid); }
      var p := match permissions case Some(v) => v case None => 0;
      if !InRange(p) { return Some(Invalid); }
      if owners[sid] != actor {
        if position.Some? {
          var highest := Highest(sid, actor);
          if position.value >= highest { return Some(Forbidden); }
        }
        var own := UserPermissions(Db(owners, members, roles, memberRoles), sid, actor);
        Covered(BitsOf(p), own);
        if ADMINISTRATOR !in own && BitsOf(p) - own != {} { return Some(Forbidden); }
      }
      var place;
      if position.Some? {
        place := position.value;
      } else {
        var positions := set r | r in roles && roles[r].server == sid :: roles[r].position;
        assert positions == Positions(Value(), RolesOf(Value(), sid));
        place := Successor(MaxOr(positions, 0));
      }
      roles := roles[newId := Role(sid, name, BitsOf(p), place)];
    }

    method Edit(actor: Uid, sid: Sid, role: Rid, name: Option<string>, permissions: Option<int>, position: Option<int>,
                ghost newId: Rid)
      returns (error: Option<Error>)
      modifies this
      ensures (Value(), error) == Handle(old(Value()), actor, sid, UpdateRole(role, name, permissions, position), newId)
    {
      error := Require(actor, sid, None);
      if error.Some? { return; }
      if role !in roles { return Some(NotFound); }
      var row := roles[role];
      if row.server != sid { return Some(NotFound); }
      if name.Some? && (name.value == "" || ByteLength(name.value) > 100) { return Some(Invalid); }
      if permissions.Some? && !InRange(permissions.value) { return Some(Invalid); }
      if owners[sid] != actor {
        var highest := Highest(sid, actor);
        if row.position >= highest { return Some(Forbidden); }
        if position.Some? && position.value >= highest { return Some(Forbidden); }
        if permissions.Some? {
          var own := UserPermissions(Db(owners, members, roles, memberRoles), sid, actor);
          Covered(BitsOf(permissions.value), own);
          if ADMINISTRATOR !in own && BitsOf(permissions.value) - own != {} { return Some(Forbidden); }
        }
      }
      if name.Some? { row := row.(name := name.value); }
      if permissions.Some? { row := row.(permissions := BitsOf(permissions.value)); }
      if position.Some? { row := row.(position := position.value); }
      roles := roles[role := row];
    }

    method Remove(actor: Uid, sid: Sid, role: Rid, ghost newId: Rid) returns (error: Option<Error>)
      modifies this
      ensures (Value(), error) == Handle(old(Value()), actor, sid, DeleteRole(role), newId)
    {
      error := Require(actor, sid, None);
      if error.Some? { return; }
      error := Outrank(actor, sid, role);
      if error.Some? { return; }
      roles := map r | r in roles && r != role :: roles[r];
      memberRoles := set x | x in memberRoles && x.2 != role;
      assert roles == old(roles) - {role};
    }

    method Outrank(actor: Uid, sid: Sid, role: Rid) returns (refused: Option<Error>)
      requires sid in owners
      ensures refused == CheckTarget(Value(), actor, sid, role)
    {
      if role !in roles { return Some(NotFound); }
      if roles[role].server != sid { return Some(NotFound); }
      if owners[sid] != actor {
        var highest := Highest(sid, actor);
        if roles[role].position >= highest { return Some(Forbidden); }
      }
      return None;
    }

    method Assign(actor: Uid, sid: Sid, user: Uid, role: Rid, ghost newId: Rid) returns (error: Option<Error>)
      modifies this
      ensures (Value(), error) == Handle(old(Value()), actor, sid, AssignRole(user, role), newId)
    {
      error := Require(actor, sid, Some(user));
      if error.Some? { return; }
      error := Outrank(actor, sid, role);
      if error.Some? { return; }
      memberRoles := memberRoles + {(user, sid, role)};
    }

    method Unassign(actor: Uid, sid: Sid, user: Uid, role: Rid, ghost newId: Rid) returns (error: Option<Error>)
      modifies this
      ensures (Value(), error) == Handle(old(Value()), actor, sid, RemoveRole(user, role), newId)
    {
      error := Require(actor, sid, Some(user));
      if error.Some? { return; }
      if role !in roles || roles[role].server != sid { return Some(NotFound); }
      if owners[sid] != actor && user == owners[sid] { return Some(Forbidden); }
      error := Outrank(actor, sid, role);
      if error.Some? { return; }
      memberRoles := memberRoles - {(user, sid, role)};
    }
  }
}
