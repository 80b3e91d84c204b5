/** Channel overrides over time: the server's table, the events it broadcasts, the client's
    copy, and the agreement of both permission computations. */
module OverrideSync {
  import opened Wrappers
  import opened Permissions
  import opened Powers
  import Roles
  import opened ChannelPermissions

  type Table = map<nat, Override>

  datatype Event = Updated(ov: Override) | Deleted(channel: nat, id: nat)

  /** Requests whose sender passed the membership and MANAGE_CHANNELS checks iff `allowed`. */
  datatype Op =
    | Set(allowed: bool, channel: nat, role: Option<nat>, user: Option<nat>, allow: int, deny: int, newId: nat)
    | Drop(allowed: bool, channel: nat, id: nat)

  /** Exactly one target, no bit both allowed and denied, both masks in range. */
  predicate ValidRequest(role: Option<nat>, user: Option<nat>, allow: int, deny: int) {
    && role.Some? != user.Some?
    && InRange(allow) && InRange(deny)
    && BitsOf(allow) * BitsOf(deny) == {}
  }

  predicate SameTarget(ov: Override, channel: nat, role: Option<nat>, user: Option<nat>) {
    ov.channel == channel && ov.role == role && ov.user == user
  }

  /** The constraints of the table: ids are keys, one target each, one row per target. */
  predicate ValidTable(t: Table) {
    && (forall id :: id in t ==> t[id].id == id && t[id].role.Some? != t[id].user.Some?)
    && (forall i, j :: i in t && j in t && SameTarget(t[i], t[j].channel, t[j].role, t[j].user) ==> i == j)
  }

  function ConflictRow(t: Table, channel: nat, role: Option<nat>, user: Option<nat>): set<nat> {
    set id | id in t && SameTarget(t[id], channel, role, user)
  }

  /** INSERT ... ON CONFLICT (channel_id, role_id, user_id) DO UPDATE, returning the row. */
  function Upsert(t: Table, channel: nat, role: Option<nat>, user: Option<nat>, allow: Bits, deny: Bits, newId: nat)
    : (Table, Override)
    requires ValidTable(t)
  {
    var same := ConflictRow(t, channel, role, user);
    if same != {} then
      var id :| id in same;
      var ov := t[id].(allow := allow, deny := deny);
      (t[id := ov], ov)
    else
      var ov := Override(newId, channel, role, user, allow, deny);
      (t[newId := ov], ov)
  }

  /** The server's reaction: the new table and the event broadcast, if any. */
  function Serve(t: Table, op: Op): (Table, Option<Event>)
    requires ValidTable(t)
  {
    match op
    case Set(allowed, channel, role, user, allow, deny, newId) =>
      if !allowed || !ValidRequest(role, user, allow, deny) || newId in t then (t, None)
      else
        var (t', ov) := Upsert(t, channel, role, user, BitsOf(allow), BitsOf(deny), newId);
        (t', Some(Updated(ov)))
    case Drop(allowed, channel, id) =>
      if !allowed || id !in t || t[id].channel != channel then (t, None)
      else (t - {id}, Some(Deleted(channel, id)))
  }

  // ---- The client's copy -------------------------------------------------------

  type Copy = map<nat, seq<Override>>

  function At(c: Copy, channel: nat): seq<Override> { if channel in c then c[channel] else [] }

  function Ids(rows: seq<Override>): set<nat> { set i | 0 <= i < |rows| :: rows[i].id }

  function Replace(rows: seq<Override>, ov: Override): (r: seq<Override>)
    ensures |r| == |rows| && forall i :: 0 <= i < |rows| ==> r[i] == if rows[i].id == ov.id then ov else rows[i]
  {
    seq(|rows|, i requires 0 <= i < |rows| => if rows[i].id == ov.id then ov else rows[i])
  }

  function Without(rows: seq<Override>, id: nat): seq<Override> {
    if rows == [] then []
    else Without(rows[..|rows| - 1], id) + (if rows[|rows| - 1].id != id then [rows[|rows| - 1]] else [])
  }

  function Handle(c: Copy, e: Event): Copy {
    match e
    case Updated(ov) =>
      var existing := At(c, ov.channel);
      c[ov.channel := if ov.id in Ids(existing) then Replace(existing, ov) else existing + [ov]]
    case Deleted(channel, id) => c[channel := Without(At(c, channel), id)]
  }

  /** The role store's part that mirrors overrides. */
  class OverrideStore {
    var channelOverrides: Copy

    constructor ()
      ensures channelOverrides == map[]
    {
      channelOverrides := map[];
    }

    method SetFromReady(overrides: Copy)
      modifies this
      ensures channelOverrides == old(channelOverrides) + overrides
    {
      channelOverrides := channelOverrides + overrides;
    }

    method HandleUpdate(ov: Override)
      modifies this
      ensures channelOverrides == Handle(old(channelOverrides), Updated(ov))
    {
      var existing := if ov.channel in channelOverrides then channelOverrides[ov.channel] else [];
      var updated;
      if exists i :: 0 <= i < |existing| && existing[i].id == ov.id {
        updated := seq(|existing|, i requires 0 <= i < |existing| =>
                       if existing[i].id == ov.id then ov else existing[i]);
        assert updated == Replace(existing, ov);
      } else {
        updated := existing + [ov];
      }
      channelOverrides := channelOverrides[ov.channel := updated];
    }

    method HandleDelete(channel: nat, id: nat)
      modifies this
      ensures channelOverrides == Handle(old(channelOverrides), Deleted(channel, id))
    {
      var existing := if channel in channelOverrides then channelOverrides[channel] else [];
      channelOverrides := channelOverrides[channel := Without(existing, id)];
    }
  }

  // ---- The client's copy follows the table ---------------------------------------

  /** `rows` lists every override of the channel once, in some order. */
  predicate Lists(t: Table, channel: nat, rows: seq<Override>) {
    && (forall i :: 0 <= i < |rows| ==> rows[i].id in t && t[rows[i].id] == rows[i] && rows[i].channel == channel)
    && (forall id :: id in t && t[id].channel == channel ==> id in Ids(rows))
    && (forall i, j :: 0 <= i < j < |rows| ==> rows[i].id != rows[j].id)
  }

  /** Table and copy after a history of requests, every broadcast being handled in order. */
  function Run(t: Table, c: Copy, ops: seq<Op>): (r: (Table, Copy))
    requires ValidTable(t)
    ensures ValidTable(r.0)
  {
    if ops == [] then (t, c)
    else
      var (t1, c1) := Run(t, c, ops[..|ops| - 1]);
      var (t2, e) := Serve(t1, ops[|ops| - 1]);
      ServeValid(t1, ops[|ops| - 1]);
      (t2, if e.Some? then Handle(c1, e.value) else c1)
  }

  lemma ServeValid(t: Table, op: Op)
    requires ValidTable(t)
    ensures ValidTable(Serve(t, op).0)
  {
    if op.Set? && ConflictRow(t, op.channel, op.role, op.user) == {} {
      assert forall id :: id in t ==> id !in ConflictRow(t, op.channel, op.role, op.user);
    }
  }

  lemma {:induction false} WithoutLists(rows: seq<Override>, id: nat)
    requires forall i, j :: 0 <= i < j < |rows| ==> rows[i].id != rows[j].id
    ensures var r := Without(rows, id);
            && (forall i :: 0 <= i < |r| ==> r[i] in rows && r[i].id != id)
            && (forall i :: 0 <= i < |rows| && rows[i].id != id ==> rows[i] in r)
            && (forall i, j :: 0 <= i < j < |r| ==> r[i].id != r[j].id)
  {
    if rows != [] {
      var front, last := rows[..|rows| - 1], rows[|rows| - 1];
      WithoutLists(front, id);
      assert rows == front + [last];
    }
  }

  lemma InIds(rows: seq<Override>, ov: Override)
    ensures ov in rows ==> ov.id in Ids(rows)
  {
    if ov in rows {
      var i :| 0 <= i < |rows| && rows[i] == ov;
      assert rows[i].id in Ids(rows);
    }
  }

  lemma UpdateLists(t: Table, rows: seq<Override>, ov: Override)
    requires Lists(t, ov.channel, rows)
    requires ov.id in t ==> t[ov.id].channel == ov.channel
    ensures Lists(t[ov.id := ov], ov.channel, if ov.id in Ids(rows) then Replace(rows, ov) else rows + [ov])
  {
    var t' := t[ov.id := ov];
    var r := if ov.id in Ids(rows) then Replace(rows, ov) else rows + [ov];
    forall id | id in t' && t'[id].channel == ov.channel ensures id in Ids(r) {
      if id in Ids(rows) {
        var i :| 0 <= i < |rows| && rows[i].id == id;
        assert r[i].id == id;
      } else {
        assert r[|rows|].id == id;
      }
    }
  }

  lemma DropLists(t: Table, channel: nat, rows: seq<Override>, id: nat)
    requires Lists(t, channel, rows)
    ensures Lists(t - {id}, channel, Without(rows, id))
  {
    WithoutLists(rows, id);
    var r := Without(rows, id);
    forall x | x in t - {id} && t[x].channel == channel ensures x in Ids(r) {
      var i :| 0 <= i < |rows| && rows[i].id == x;
      InIds(r, rows[i]);
    }
  }

  lemma OtherLists(t: Table, t': Table, channel: nat, rows: seq<Override>)
    requires Lists(t, channel, rows)
    requires forall id :: id in t && t[id].channel == channel ==> id in t' && t'[id] == t[id]
    requires forall id :: id in t' && t'[id].channel == channel ==> id in t && t[id].channel == channel
    ensures Lists(t', channel, rows)
  {}

  lemma ServeLists(t: Table, c: Copy, channel: nat, op: Op)
    requires ValidTable(t) && Lists(t, channel, At(c, channel))
    ensures var (t', e) := Serve(t, op);
            Lists(t', channel, At(if e.Some? then Handle(c, e.value) else c, channel))
  {
    var (t', e) := Serve(t, op);
    if e.Some? {
      match e.value {
        case Updated(ov) =>
          assert t' == t[ov.id := ov] && (ov.id in t ==> t[ov.id].channel == ov.channel);
          if ov.channel == channel {
            UpdateLists(t, At(c, channel), ov);
          } else {
            OtherLists(t, t', channel, At(c, channel));
          }
        case Deleted(ch, id) =>
          if ch == channel {
            DropLists(t, channel, At(c, channel), id);
          } else {
            OtherLists(t, t', channel, At(c, channel));
          }
      }
    }
  }

  /** A copy that lists a channel keeps listing it through every history of requests. */
  lemma {:induction false} CopyFollowsTable(t: Table, c: Copy, channel: nat, ops: seq<Op>)
    requires ValidTable(t) && Lists(t, channel, At(c, channel))
    ensures var (t', c') := Run(t, c, ops); Lists(t', channel, At(c', channel))
  {
    if ops != [] {
      var before := ops[..|ops| - 1];
      CopyFollowsTable(t, c, channel, before);
      var (t1, c1) := Run(t, c, before);
      ServeLists(t1, c1, channel, ops[|ops| - 1]);
    }
  }

  // ---- Events handled late, out of order or not at all -------------------------------

  /** The table after requests, and the events they announced, in the order of their commits. */
  function Served(t: Table, ops: seq<Op>): (r: (Table, seq<Event>))
    requires ValidTable(t)
    ensures ValidTable(r.0)
  {
    if ops == [] then (t, [])
    else
      var (t1, es) := Served(t, ops[..|ops| - 1]);
      var (t2, e) := Serve(t1, ops[|ops| - 1]);
      ServeValid(t1, ops[|ops| - 1]);
      (t2, if e.Some? then es + [e.value] else es)
  }

  function HandleAll(c: Copy, es: seq<Event>): Copy {
    if es == [] then c else Handle(HandleAll(c, es[..|es| - 1]), es[|es| - 1])
  }

  predicate Concerns(e: Event, channel: nat, id: nat) {
    match e
    case Updated(ov) => ov.channel == channel && ov.id == id
    case Deleted(ch, i) => ch == channel && i == id
  }

  function LastFor(es: seq<Event>, channel: nat, id: nat): Option<Event> {
    if es == [] then None
    else if Concerns(es[|es| - 1], channel, id) then Some(es[|es| - 1])
    else LastFor(es[..|es| - 1], channel, id)
  }

  /** What the last event about a row of the channel leaves of it; without one, what was there. */
  function LeftBy(t: Table, channel: nat, es: seq<Event>, id: nat): Option<Override> {
    match LastFor(es, channel, id)
    case Some(Updated(ov)) => Some(ov)
    case Some(Deleted(_, _)) => None
    case None => if id in t && t[id].channel == channel then Some(t[id]) else None
  }

  function RowsOf(t: Table, channel: nat): Table { map id | id in t && t[id].channel == channel :: t[id] }

  /** The rows of the channel as somebody knows them who has heard of the event. */
  function Believe(m: Table, channel: nat, e: Event): Table {
    match e
    case Updated(ov) => if ov.channel == channel then m[ov.id := ov] else m
    case Deleted(ch, id) => if ch == channel then m - {id} else m
  }

  function BelieveAll(m: Table, channel: nat, es: seq<Event>): Table {
    if es == [] then m else Believe(BelieveAll(m, channel, es[..|es| - 1]), channel, es[|es| - 1])
  }

  predicate Within(m: Table, channel: nat) { forall id :: id in m ==> m[id].channel == channel && m[id].id == id }

  lemma {:induction false} BelievedIsLeft(t: Table, channel: nat, es: seq<Event>, id: nat)
    ensures var m := BelieveAll(RowsOf(t, channel), channel, es);
            (if id in m then Some(m[id]) else None) == LeftBy(t, channel, es, id)
  {
    if es != [] {
      BelievedIsLeft(t, channel, es[..|es| - 1], id);
    }
  }

  /** The table believes the events in the order of their commits. */
  lemma {:induction false} TableIsBelieved(t: Table, channel: nat, ops: seq<Op>)
    requires ValidTable(t)
    ensures var (t', es) := Served(t, ops); RowsOf(t', channel) == BelieveAll(RowsOf(t, channel), channel, es)
  {
    if ops != [] {
      var before, op := ops[..|ops| - 1], ops[|ops| - 1];
      TableIsBelieved(t, channel, before);
      var (t1, es) := Served(t, before);
      var (t2, e) := Serve(t1, op);
      if e.Some? {
        assert (es + [e.value])[..|es|] == es;
        OneStepBelieved(t1, channel, op);
      }
    }
  }

  lemma OneStepBelieved(t: Table, channel: nat, op: Op)
    requires ValidTable(t) && Serve(t, op).1.Some?
    ensures RowsOf(Serve(t, op).0, channel) == Believe(RowsOf(t, channel), channel, Serve(t, op).1.value)
  {
    ServeChanges(t, op);
    hide Serve, ValidTable, RowsOf, Believe;
    match Serve(t, op).1.value {
      case Updated(ov) => UpdateBelieved(t, channel, ov);
      case Deleted(ch, id) => DropBelieved(t, channel, ch, id);
    }
  }

  lemma UpdateBelieved(t: Table, channel: nat, ov: Override)
    requires ov.id in t ==> t[ov.id].channel == ov.channel
    ensures RowsOf(t[ov.id := ov], channel) == Believe(RowsOf(t, channel), channel, Updated(ov))
  {}

  lemma DropBelieved(t: Table, channel: nat, ch: nat, id: nat)
    requires id in t && t[id].channel == ch
    ensures RowsOf(t - {id}, channel) == Believe(RowsOf(t, channel), channel, Deleted(ch, id))
  {}

  /** An event says what its request did to the table. */
  lemma ServeChanges(t: Table, op: Op)
    requires ValidTable(t) && Serve(t, op).1.Some?
    ensures match Serve(t, op).1.value
            case Updated(ov) => Serve(t, op).0 == t[ov.id := ov] && (ov.id in t ==> t[ov.id].channel == ov.channel)
            case Deleted(ch, id) => Serve(t, op).0 == t - {id} && id in t && t[id].channel == ch
  {
    hide ValidRequest, BitsOf;
  }

  /** The copy lists what its events make one believe, whatever their order. */
  lemma {:induction false} CopyIsBelieved(t: Table, c: Copy, channel: nat, es: seq<Event>)
    requires ValidTable(t) && Lists(t, channel, At(c, channel))
    ensures var m := BelieveAll(RowsOf(t, channel), channel, es);
            Within(m, channel) && Lists(m, channel, At(HandleAll(c, es), channel))
  {
    hide Lists;
    if es == [] {
      RowsListed(t, channel, At(c, channel));
    } else {
      var before, e := es[..|es| - 1], es[|es| - 1];
      CopyIsBelieved(t, c, channel, before);
      var m, rows := BelieveAll(RowsOf(t, channel), channel, before), At(HandleAll(c, before), channel);
      match e {
        case Updated(ov) => if ov.channel == channel { UpdateLists(m, rows, ov); }
        case Deleted(ch, id) => if ch == channel { DropLists(m, channel, rows, id); }
      }
    }
  }

  lemma RowsListed(t: Table, channel: nat, rows: seq<Override>)
    ensures Lists(RowsOf(t, channel), channel, rows) <==> Lists(t, channel, rows)
  {}

  /** One list of rows lists one set of rows. */
  lemma ListedOnce(m: Table, m': Table, channel: nat, rows: seq<Override>)
    requires Within(m, channel) && Within(m', channel) && Lists(m, channel, rows)
    ensures Lists(m', channel, rows) <==> m == m'
  {
    if Lists(m', channel, rows) {
      forall id ensures id in m <==> id in m' {
        if id in m || id in m' {
          var i :| 0 <= i < |rows| && rows[i].id == id;
        }
      }
      forall id | id in m ensures m[id] == m'[id] {
        var i :| 0 <= i < |rows| && rows[i].id == id;
      }
    }
  }

  lemma RowsWithin(t: Table, channel: nat)
    requires ValidTable(t)
    ensures Within(RowsOf(t, channel), channel)
  {}

  /** Whatever events the client has handled, in whatever order and however late, its copy lists the
      channel if and only if for every row the last event it handled leaves what the last committed
      one does. */
  lemma CopyIsRightIff(t: Table, c: Copy, channel: nat, ops: seq<Op>, handled: seq<Event>)
    requires ValidTable(t) && Lists(t, channel, At(c, channel))
    ensures var (t', es) := Served(t, ops);
            Lists(t', channel, At(HandleAll(c, handled), channel))
            <==> forall id :: LeftBy(t, channel, handled, id) == LeftBy(t, channel, es, id)
  {
    hide Lists, LeftBy, Served, HandleAll, BelieveAll, Within, RowsOf;
    var (t', es) := Served(t, ops);
    var rows, start := At(HandleAll(c, handled), channel), RowsOf(t, channel);
    var m, m' := BelieveAll(start, channel, handled), BelieveAll(start, channel, es);
    TableIsBelieved(t, channel, ops);
    CopyIsBelieved(t, c, channel, handled);
    RowsWithin(t', channel);
    RowsListed(t', channel, rows);
    ListedOnce(m, m', channel, rows);
    forall id
      ensures (if id in m then Some(m[id]) else None) == LeftBy(t, channel, handled, id)
      ensures (if id in m' then Some(m'[id]) else None) == LeftBy(t, channel, es, id)
    {
      BelievedIsLeft(t, channel, handled, id);
      BelievedIsLeft(t, channel, es, id);
    }
    SameMaps(m, m');
  }

  function Entry(m: Table, id: nat): Option<Override> { if id in m then Some(m[id]) else None }

  lemma SameMaps(m: Table, m': Table)
    ensures m == m' <==> forall id :: Entry(m, id) == Entry(m', id)
  {
    if forall id :: Entry(m, id) == Entry(m', id) {
      forall id ensures (id in m <==> id in m') && (id in m ==> m[id] == m'[id]) {
        assert Entry(m, id) == Entry(m', id);
      }
    }
  }

  /** Two requests for one target announce two updates of one override. */
  lemma TwoUpdates() returns (ops: seq<Op>, older: Override, newer: Override)
    ensures older.id == newer.id && older.channel == newer.channel && older != newer
    ensures Served(map[], ops).1 == [Updated(older), Updated(newer)]
  {
    ops := [Set(true, 1, Some(5), None, 0, 0, 7), Set(true, 1, Some(5), None, 1, 0, 8)];
    older := Override(7, 1, Some(5), None, BitsOf(0), BitsOf(0));
    newer := older.(allow := BitsOf(1));
    NoBits();
    assert 0 in BitsOf(1);
    hide BitsOf;
    var empty: Table, first: Table := map[], map[7 := older];
    assert ConflictRow(empty, 1, Some(5), None) == {} && ValidRequest(Some(5), None, 0, 0);
    assert empty[7 := older] == first;
    assert Serve(empty, ops[0]) == (first, Some(Updated(older)));
    assert ConflictRow(first, 1, Some(5), None) == {7};
    assert BitsOf(1) * BitsOf(0) == {} && ValidRequest(Some(5), None, 1, 0);
    assert Upsert(first, 1, Some(5), None, BitsOf(1), BitsOf(0), 8).1 == newer;
    assert Serve(first, ops[1]).1 == Some(Updated(newer));
    ServedSnoc(empty, [], ops[0]);
    ServedSnoc(empty, [] + [ops[0]], ops[1]);
    assert ops == [] + [ops[0]] + [ops[1]];
    assert [] + [Updated(older)] + [Updated(newer)] == [Updated(older), Updated(newer)];
  }

  lemma ServedSnoc(t: Table, ops: seq<Op>, op: Op)
    requires ValidTable(t)
    ensures var (t1, es) := Served(t, ops);
            var (t2, e) := Serve(t1, op);
            Served(t, ops + [op]) == (t2, if e.Some? then es + [e.value] else es)
  {
    hide Serve;
    assert (ops + [op])[..|ops|] == ops;
  }

  lemma NoBits()
    ensures BitsOf(0) == {}
  {
    forall b: nat | b < PERMISSION_BITS ensures (0 / Pow2(b)) % 2 == 0 {}
  }

  /** Two updates of one override whose events cross leave the copy wrong. */
  lemma CrossingUpdatesDisagree(t: Table, c: Copy, older: Override, newer: Override, ops: seq<Op>)
    requires ValidTable(t) && Lists(t, older.channel, At(c, older.channel))
    requires older.id == newer.id && older.channel == newer.channel && older != newer
    requires Served(t, ops).1 == [Updated(older), Updated(newer)]
    ensures !Lists(Served(t, ops).0, older.channel, At(HandleAll(c, [Updated(newer), Updated(older)]), older.channel))
  {
    hide Served;
    var channel, handled := older.channel, [Updated(newer), Updated(older)];
    CopyIsRightIff(t, c, channel, ops, handled);
    assert LeftBy(t, channel, handled, older.id) == Some(older);
    assert LeftBy(t, channel, [Updated(older), Updated(newer)], older.id) == Some(newer);
  }

  // ---- READY ---------------------------------------------------------------------

  /** The READY payload has an entry for exactly the channels that have overrides. */
  predicate IsReady(t: Table, payload: Copy) {
    && (forall ch :: ch in payload ==> payload[ch] != [] && Lists(t, ch, payload[ch]))
    && (forall id :: id in t ==> t[id].channel in payload)
  }

  /** READY is merged over what the client already had, so after a reconnect the copy of a
      channel is right exactly when the channel has overrides now or had none in the copy. If the
      overrides could not be read, the payload is empty and the copy is as right as it was. */
  lemma ReadyListsIff(t: Table, c: Copy, payload: Copy, channel: nat)
    requires ValidTable(t) && (IsReady(t, payload) || payload == map[])
    ensures Lists(t, channel, At(c + payload, channel)) <==>
              if IsReady(t, payload) then channel in payload || At(c, channel) == []
              else Lists(t, channel, At(c, channel))
  {
    if IsReady(t, payload) && channel !in payload && At(c, channel) != [] {
      var stale := At(c, channel)[0];
      assert stale.id in t && t[stale.id] == stale && stale.channel == channel ==> false;
    }
  }

  /** An override that was deleted while the client was away stays in its copy. */
  lemma DeletedOverrideStays(ov: Override)
    ensures var t, c: Copy, payload: Copy := map[], map[ov.channel := [ov]], map[];
            && ValidTable(t) && IsReady(t, payload)
            && At(c + payload, ov.channel) == [ov] && !Lists(t, ov.channel, At(c + payload, ov.channel))
  {
    var c: Copy, payload: Copy := map[ov.channel := [ov]], map[];
    assert c + payload == c;
    ReadyListsIff(map[], c, payload, ov.channel);
  }

  // ---- Agreement -------------------------------------------------------------------

  /** Roles, memberships and owner as the server has them. */
  ghost predicate InSync(db: Roles.Db, sid: nat, uid: nat, s: Session) {
    && s.me == Some(uid)
    && sid in db.owners && s.owner == Some(db.owners[sid])
    && (forall r :: r in s.myRoleIds <==> r in RoleIds(db, sid, uid))
    && (forall d :: d in s.roles ==> d.id in db.roles && db.roles[d.id].permissions == d.permissions)
    && (forall r :: r in RoleIds(db, sid, uid) ==> r in db.roles && RoleDto(r, db.roles[r].permissions) in s.roles)
  }

  lemma {:induction false} RoleBitsMeaning(roles: seq<RoleDto>, mine: seq<nat>, b: nat)
    ensures b in RoleBits(roles, mine) <==> exists d :: d in roles && d.id in mine && b in d.permissions
  {
    if roles != [] {
      var front, last := roles[..|roles| - 1], roles[|roles| - 1];
      RoleBitsMeaning(front, mine, b);
      assert roles == front + [last];
      if d :| d in roles && d.id in mine && b in d.permissions {
        assert d in front || d == last;
      }
    }
  }

  lemma BaseAgrees(db: Roles.Db, sid: nat, uid: nat, s: Session)
    requires InSync(db, sid, uid, s)
    ensures RoleBits(s.roles, s.myRoleIds) == Roles.UserPermissions(db, sid, uid)
  {
    forall b: nat ensures b in RoleBits(s.roles, s.myRoleIds) <==> b in Roles.UserPermissions(db, sid, uid) {
      RoleBitsMeaning(s.roles, s.myRoleIds, b);
      assert forall r :: r in Roles.Held(db, sid, uid) <==> r in db.roles && (uid, sid, r) in db.memberRoles;
      assert forall r :: r in RoleIds(db, sid, uid) <==> (uid, sid, r) in db.memberRoles by {
        forall r | (uid, sid, r) in db.memberRoles ensures r in RoleIds(db, sid, uid) {
          assert (uid, sid, r).2 == r;
        }
      }
      if b in RoleBits(s.roles, s.myRoleIds) {
        var d :| d in s.roles && d.id in s.myRoleIds && b in d.permissions;
        assert d.id in Roles.Held(db, sid, uid);
      }
      if b in Roles.UserPermissions(db, sid, uid) {
        var r :| r in Roles.Held(db, sid, uid) && b in db.roles[r].permissions;
        assert RoleDto(r, db.roles[r].permissions) in s.roles;
      }
    }
  }

  /** Overrides for a role of mine. */
  predicate ForRoles(ov: Override, mine: set<nat>) { ov.role.Some? && ov.role.value in mine }

  predicate OneTarget(rows: seq<Override>) { forall i :: 0 <= i < |rows| ==> rows[i].role.Some? != rows[i].user.Some? }

  lemma {:induction false} MergeMeaning(rows: seq<Override>, uid: nat, mine: set<nat>)
    requires OneTarget(rows)
    ensures var m := MergeAll(rows, uid, mine);
            && m.allow == (set ov, b | ov in rows && ForRoles(ov, mine) && b in ov.allow :: b)
            && m.deny == (set ov, b | ov in rows && ForRoles(ov, mine) && b in ov.deny :: b)
            && (m.own.Some? ==> m.own.value in rows && m.own.value.user == Some(uid))
            && (m.own.None? ==> forall ov :: ov in rows ==> ov.user != Some(uid))
  {
    if rows != [] {
      MergeMeaning(rows[..|rows| - 1], uid, mine);
      assert rows == rows[..|rows| - 1] + [rows[|rows| - 1]];
    }
  }

  lemma {:induction false} RoleMergeMeaning(rows: seq<Override>, mine: seq<nat>, own: set<nat>)
    requires forall r :: r in mine <==> r in own
    ensures var (allow, deny) := RoleMerge(rows, mine);
            && allow == (set ov, b | ov in rows && ForRoles(ov, own) && b in ov.allow :: b)
            && deny == (set ov, b | ov in rows && ForRoles(ov, own) && b in ov.deny :: b)
  {
    if rows != [] {
      RoleMergeMeaning(rows[..|rows| - 1], mine, own);
      assert rows == rows[..|rows| - 1] + [rows[|rows| - 1]];
    }
  }

  lemma {:induction false} ApplyOwnMeaning(perms: Bits, rows: seq<Override>, me: nat)
    requires forall i, j :: 0 <= i < j < |rows| && rows[i].user == Some(me) ==> rows[j].user != Some(me)
    ensures forall ov :: ov in rows && ov.user == Some(me) ==>
              ApplyOwn(perms, rows, me) == Override1(perms, ov.deny, ov.allow)
    ensures (forall ov :: ov in rows ==> ov.user != Some(me)) ==> ApplyOwn(perms, rows, me) == perms
  {
    if rows != [] {
      var front, last := rows[..|rows| - 1], rows[|rows| - 1];
      ApplyOwnMeaning(perms, front, me);
      assert rows == front + [last];
      if last.user == Some(me) {
        forall ov | ov in front ensures ov.user != Some(me) {
          var i :| 0 <= i < |front| && front[i] == ov;
          assert rows[i] == ov;
        }
      }
    }
  }

  lemma SameRows(t: Table, channel: nat, a: seq<Override>, b: seq<Override>)
    requires Lists(t, channel, a) && Lists(t, channel, b)
    ensures forall ov :: ov in a <==> ov in b
  {
    forall ov | ov in a ensures ov in b {
      var i :| 0 <= i < |a| && a[i] == ov;
      assert ov.id in Ids(b);
      var j :| 0 <= j < |b| && b[j].id == ov.id;
    }
    forall ov | ov in b ensures ov in a {
      var i :| 0 <= i < |b| && b[i] == ov;
      assert ov.id in Ids(a);
      var j :| 0 <= j < |a| && a[j].id == ov.id;
    }
  }

  lemma OneOwn(t: Table, channel: nat, rows: seq<Override>, uid: nat)
    requires ValidTable(t) && Lists(t, channel, rows)
    ensures OneTarget(rows)
    ensures forall i, j :: 0 <= i < j < |rows| && rows[i].user == Some(uid) ==> rows[j].user != Some(uid)
  {
    forall i, j | 0 <= i < j < |rows| && rows[i].user == Some(uid) ensures rows[j].user != Some(uid) {
      assert t[rows[i].id] == rows[i] && t[rows[j].id] == rows[j];
      assert rows[j].user == Some(uid) ==> SameTarget(t[rows[i].id], rows[j].channel, rows[j].role, rows[j].user);
    }
  }

  // ---- What an effective permission is ------------------------------------------------

  predicate UserAllows(t: Table, channel: nat, uid: nat, b: nat) {
    exists id :: id in t && t[id].channel == channel && t[id].user == Some(uid) && b in t[id].allow
  }

  predicate UserDenies(t: Table, channel: nat, uid: nat, b: nat) {
    exists id :: id in t && t[id].channel == channel && t[id].user == Some(uid) && b in t[id].deny
  }

  predicate RolesAllow(t: Table, channel: nat, mine: set<nat>, b: nat) {
    exists id :: id in t && t[id].channel == channel && ForRoles(t[id], mine) && b in t[id].allow
  }

  predicate RolesDeny(t: Table, channel: nat, mine: set<nat>, b: nat) {
    exists id :: id in t && t[id].channel == channel && ForRoles(t[id], mine) && b in t[id].deny
  }

  lemma ListedRow(t: Table, channel: nat, rows: seq<Override>, id: nat)
    requires Lists(t, channel, rows) && id in t && t[id].channel == channel
    ensures t[id] in rows
  {
    var i :| 0 <= i < |rows| && rows[i].id == id;
  }

  lemma RowListed(t: Table, channel: nat, rows: seq<Override>, ov: Override)
    requires Lists(t, channel, rows) && ov in rows
    ensures ov.id in t && t[ov.id] == ov && ov.channel == channel
  {
    var i :| 0 <= i < |rows| && rows[i] == ov;
  }

  lemma RolesMeaning(t: Table, channel: nat, rows: seq<Override>, uid: nat, mine: set<nat>, b: nat)
    requires ValidTable(t) && Lists(t, channel, rows)
    ensures b in MergeAll(rows, uid, mine).allow <==> RolesAllow(t, channel, mine, b)
    ensures b in MergeAll(rows, uid, mine).deny <==> RolesDeny(t, channel, mine, b)
  {
    OneOwn(t, channel, rows, uid);
    MergeMeaning(rows, uid, mine);
    forall ov | ov in rows ensures ov.id in t && t[ov.id] == ov && ov.channel == channel {
      RowListed(t, channel, rows, ov);
    }
    forall id | id in t && t[id].channel == channel ensures t[id] in rows { ListedRow(t, channel, rows, id); }
  }

  lemma OwnMeaning(t: Table, channel: nat, rows: seq<Override>, uid: nat, mine: set<nat>, b: nat)
    requires ValidTable(t) && Lists(t, channel, rows)
    ensures var own := MergeAll(rows, uid, mine).own;
            && (own.Some? && b in own.value.allow <==> UserAllows(t, channel, uid, b))
            && (own.Some? && b in own.value.deny <==> UserDenies(t, channel, uid, b))
  {
    hide MergeAll;
    OneOwn(t, channel, rows, uid);
    MergeMeaning(rows, uid, mine);
    var own := MergeAll(rows, uid, mine).own;
    if own.Some? {
      RowListed(t, channel, rows, own.value);
      forall id | id in t && t[id].channel == channel && t[id].user == Some(uid) ensures t[id] == own.value {
        assert SameTarget(t[id], channel, own.value.role, own.value.user);
      }
    } else {
      forall id | id in t && t[id].channel == channel ensures t[id].user != Some(uid) {
        ListedRow(t, channel, rows, id);
      }
    }
  }

  /** For anybody but the owner and administrators, an override of the user decides first, allowing
      before denying, then the overrides of all roles of the user together, and the base permissions
      decide what is left. */
  lemma PrecedenceDecides(db: Roles.Db, sid: nat, uid: nat, t: Table, channel: nat, rows: seq<Override>, b: nat)
    requires ValidTable(t) && Lists(t, channel, rows)
    requires !Roles.IsOwner(db, sid, uid) && ADMINISTRATOR !in Roles.UserPermissions(db, sid, uid)
    ensures var mine := RoleIds(db, sid, uid);
            b in ServerBits(db, sid, uid, rows) <==>
              || UserAllows(t, channel, uid, b)
              || (!UserDenies(t, channel, uid, b)
                  && (RolesAllow(t, channel, mine, b)
                      || (!RolesDeny(t, channel, mine, b)
                          && (b in Roles.UserPermissions(db, sid, uid) || b in DEFAULT_MEMBER))))
  {
    hide MergeAll, UserAllows, UserDenies, RolesAllow, RolesDeny, Lists, ValidTable;
    RolesMeaning(t, channel, rows, uid, RoleIds(db, sid, uid), b);
    OwnMeaning(t, channel, rows, uid, RoleIds(db, sid, uid), b);
  }

  /** On any listing of the same rows, in any order, both sides compute the same 15 bits. */
  lemma ResolutionsAgree(db: Roles.Db, sid: nat, uid: nat, s: Session, t: Table, channel: nat,
                         rows: seq<Override>, copy: seq<Override>)
    requires InSync(db, sid, uid, s) && ValidTable(t) && Lists(t, channel, rows) && Lists(t, channel, copy)
    ensures forall b: nat :: b < PERMISSION_BITS ==> (b in ServerBits(db, sid, uid, rows) <==> b in ClientBits(s, copy))
  {
    BaseAgrees(db, sid, uid, s);
    SameRows(t, channel, rows, copy);
    OneOwn(t, channel, rows, uid);
    OneOwn(t, channel, copy, uid);
    var mine := RoleIds(db, sid, uid);
    MergeMeaning(rows, uid, mine);
    RoleMergeMeaning(copy, s.myRoleIds, mine);
    var base := Roles.UserPermissions(db, sid, uid) + DEFAULT_MEMBER;
    var (allow, deny) := RoleMerge(copy, s.myRoleIds);
    ApplyOwnMeaning(Override1(base, deny, allow), copy, uid);
    assert MergeAll(rows, uid, mine).allow == allow && MergeAll(rows, uid, mine).deny == deny;
  }

  /** Server and client agree on bits 0 to 14 after any history of override requests that
      starts from a correct copy of the channel, whatever order the server reads its rows in. */
  lemma ServerAndClientAgree(db: Roles.Db, sid: nat, uid: nat, s: Session, t: Table, c: Copy, channel: nat,
                             ops: seq<Op>, rows: seq<Override>)
    requires InSync(db, sid, uid, s) && ValidTable(t) && Lists(t, channel, At(c, channel))
    requires Lists(Run(t, c, ops).0, channel, rows)
    ensures forall b: nat :: b < PERMISSION_BITS ==>
              (b in ServerBits(db, sid, uid, rows) <==> b in ClientBits(s, At(Run(t, c, ops).1, channel)))
  {
    CopyFollowsTable(t, c, channel, ops);
    var (t', c') := Run(t, c, ops);
    ResolutionsAgree(db, sid, uid, s, t', channel, rows, At(c', channel));
  }

  /** The same for events in any order, as long as the last event handled about each row leaves
      what the last committed one does. */
  lemma AgreementWithLateEvents(db: Roles.Db, sid: nat, uid: nat, s: Session, t: Table, c: Copy, channel: nat,
                                ops: seq<Op>, handled: seq<Event>, rows: seq<Override>)
    requires InSync(db, sid, uid, s) && ValidTable(t) && Lists(t, channel, At(c, channel))
    requires Lists(Served(t, ops).0, channel, rows)
    requires forall id :: LeftBy(t, channel, handled, id) == LeftBy(t, channel, Served(t, ops).1, id)
    ensures forall b: nat :: b < PERMISSION_BITS ==>
              (b in ServerBits(db, sid, uid, rows) <==> b in ClientBits(s, At(HandleAll(c, handled), channel)))
  {
    hide InSync, Lists, LeftBy;
    CopyIsRightIff(t, c, channel, ops, handled);
    ResolutionsAgree(db, sid, uid, s, Served(t, ops).0, channel, rows, At(HandleAll(c, handled), channel));
  }
}
