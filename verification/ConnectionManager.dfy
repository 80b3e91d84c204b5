/** The registry of gateway connections: one entry per user, replaced by every new connection, and
    cleaned up by connections that may have been replaced long before. */
module ConnectionManager {
  import opened Wrappers

  /** `outbox` is what each connection's channel has been handed so far; a closed channel has lost
      its receiver and drops what it is sent. */
  datatype State = State(registered: map<nat, nat>, outbox: map<nat, seq<string>>, closed: set<nat>)

  datatype Op =
    | Add(user: nat, id: nat)
    | Remove(user: nat, id: nat)
    | Hangup(id: nat)
    | Send(user: nat, message: string)
    | Broadcast(users: seq<nat>, message: string)

  const EMPTY := State(map[], map[], {})

  function Box(s: State, id: nat): seq<string> { if id in s.outbox then s.outbox[id] else [] }

  function Registered(s: State, user: nat): Option<nat> {
    if user in s.registered then Some(s.registered[user]) else None
  }

  function Deliver(s: State, user: nat, message: string): State {
    if user !in s.registered || s.registered[user] in s.closed then s
    else s.(outbox := s.outbox[s.registered[user] := Box(s, s.registered[user]) + [message]])
  }

  function DeliverAll(s: State, users: seq<nat>, message: string): State {
    if users == [] then s else Deliver(DeliverAll(s, users[..|users| - 1], message), users[|users| - 1], message)
  }

  function Step(s: State, op: Op): State {
    match op
    case Add(user, id) => s.(registered := s.registered[user := id])
    case Remove(user, id) => if Registered(s, user) == Some(id) then s.(registered := s.registered - {user}) else s
    case Hangup(id) => s.(closed := s.closed + {id})
    case Send(user, message) => Deliver(s, user, message)
    case Broadcast(users, message) => DeliverAll(s, users, message)
  }

  function After(ops: seq<Op>): State {
    if ops == [] then EMPTY else Step(After(ops[..|ops| - 1]), ops[|ops| - 1])
  }

  class Manager {
    var connections: map<nat, nat>
    var outbox: map<nat, seq<string>>
    var closed: set<nat>

    function Value(): State
      reads this
    {
      State(connections, outbox, closed)
    }

    constructor ()
      ensures Value() == EMPTY
    {
      connections, outbox, closed := map[], map[], {};
    }

    /** `id` is the freshly drawn connection id. */
    method Connect(user: nat, id: nat)
      modifies this`connections
      ensures Value() == Step(old(Value()), Add(user, id))
    {
      connections := connections[user := id];
    }

    method Disconnect(user: nat, id: nat)
      modifies this`connections
      ensures Value() == Step(old(Value()), Remove(user, id))
    {
      if user in connections {
        var existing := connections[user];
        if existing == id {
          connections := connections - {user};
        }
      }
    }

    method Push(id: nat, message: string)
      modifies this`outbox
      ensures outbox == if id in closed then old(outbox) else old(outbox)[id := Box(old(Value()), id) + [message]]
    {
      if id !in closed {
        outbox := outbox[id := (if id in outbox then outbox[id] else []) + [message]];
      }
    }

    method SendToUser(user: nat, message: string)
      modifies this`outbox
      ensures Value() == Step(old(Value()), Send(user, message))
    {
      if user in connections {
        Push(connections[user], message);
      }
    }

    method BroadcastToUsers(users: seq<nat>, message: string)
      modifies this`outbox
      ensures Value() == Step(old(Value()), Broadcast(users, message))
    {
      assert users[..0] == [];
      for i := 0 to |users|
        invariant Value() == DeliverAll(old(Value()), users[..i], message)
      {
        assert users[..i + 1][..i] == users[..i];
        if users[i] in connections {
          Push(connections[users[i]], message);
        }
      }
      assert users[..|users|] == users;
    }
  }

  // ---- What the history says ---------------------------------------------------------------

  predicate Names(op: Op, id: nat) {
    match op
    case Add(_, i) => i == id
    case Remove(_, i) => i == id
    case Hangup(i) => i == id
    case _ => false
  }

  /** A connection id is new when it is drawn: nobody can have named it before. */
  predicate NewIds(ops: seq<Op>) {
    forall i, j :: 0 <= i < j < |ops| && ops[j].Add? ==> !Names(ops[i], ops[j].id)
  }

  /** The connection of the user that was added last. */
  function Latest(ops: seq<Op>, user: nat): Option<nat> {
    if ops == [] then None
    else
      var last := ops[|ops| - 1];
      if last.Add? && last.user == user then Some(last.id) else Latest(ops[..|ops| - 1], user)
  }

  /** The latest connection of the user, unless it has been removed. */
  function Current(ops: seq<Op>, user: nat): Option<nat> {
    match Latest(ops, user)
    case None => None
    case Some(id) => if Remove(user, id) in ops then None else Some(id)
  }

  function Copies(ops: seq<Op>, users: seq<nat>, message: string, id: nat): seq<string> {
    if users == [] then []
    else Copies(ops, users[..|users| - 1], message, id)
         + (if Current(ops, users[|users| - 1]) == Some(id) then [message] else [])
  }

  /** Everything sent while `id` was the current connection of its addressee and still open. */
  function Due(ops: seq<Op>, id: nat): seq<string> {
    if ops == [] then []
    else
      var n := |ops| - 1;
      Due(ops[..n], id)
      + (if Hangup(id) in ops[..n] then []
         else match ops[n]
           case Send(user, message) => Copies(ops[..n], [user], message, id)
           case Broadcast(users, message) => Copies(ops[..n], users, message, id)
           case _ => [])
  }

  lemma {:induction false} LatestWasAdded(ops: seq<Op>, user: nat)
    ensures Latest(ops, user).Some? ==> Add(user, Latest(ops, user).value) in ops
  {
    if ops != [] {
      LatestWasAdded(ops[..|ops| - 1], user);
    }
  }

  lemma NewIdsPrefix(ops: seq<Op>, n: nat)
    requires NewIds(ops) && n <= |ops|
    ensures NewIds(ops[..n])
  {}

  lemma NewestIsUnnamed(ops: seq<Op>)
    requires NewIds(ops) && ops != [] && ops[|ops| - 1].Add?
    ensures var (front, last) := (ops[..|ops| - 1], ops[|ops| - 1]); forall op :: op in front ==> !Names(op, last.id)
  {}

  /** How one more step changes what the history says. */
  lemma CurrentAfter(ops: seq<Op>, user: nat)
    requires NewIds(ops) && ops != []
    ensures var n := |ops| - 1;
            Current(ops, user) ==
              match ops[n]
              case Add(u, id) => if u == user then Some(id) else Current(ops[..n], user)
              case Remove(u, id) =>
                if u == user && Current(ops[..n], user) == Some(id) then None else Current(ops[..n], user)
              case _ => Current(ops[..n], user)
  {
    var n := |ops| - 1;
    var front, last := ops[..n], ops[n];
    assert forall op :: op in ops <==> op in front || op == last;
    if last.Add? {
      NewestIsUnnamed(ops);
      assert Names(Remove(user, last.id), last.id);
    }
  }

  /** A user is registered exactly with the most recently added connection, unless that very
      connection has been removed. */
  lemma {:induction false} LatestConnectionWins(ops: seq<Op>, user: nat)
    requires NewIds(ops)
    ensures Registered(After(ops), user) == Current(ops, user)
  {
    if ops != [] {
      var n := |ops| - 1;
      NewIdsPrefix(ops, n);
      LatestConnectionWins(ops[..n], user);
      CurrentAfter(ops, user);
      if ops[n].Broadcast? {
        DeliverAllKeeps(After(ops[..n]), ops[n].users, ops[n].message);
      }
    }
  }

  lemma {:induction false} DeliverAllKeeps(s: State, users: seq<nat>, message: string)
    ensures DeliverAll(s, users, message).registered == s.registered
    ensures DeliverAll(s, users, message).closed == s.closed
  {
    if users != [] {
      DeliverAllKeeps(s, users[..|users| - 1], message);
    }
  }

  lemma {:induction false} ClosedIsHungUp(ops: seq<Op>, id: nat)
    ensures id in After(ops).closed <==> Hangup(id) in ops
  {
    if ops != [] {
      var n := |ops| - 1;
      ClosedIsHungUp(ops[..n], id);
      assert forall op :: op in ops <==> op in ops[..n] || op == ops[n];
      if ops[n].Broadcast? {
        DeliverAllKeeps(After(ops[..n]), ops[n].users, ops[n].message);
      }
    }
  }

  lemma {:induction false} BroadcastQueues(ops: seq<Op>, users: seq<nat>, message: string, id: nat)
    requires forall u :: Registered(After(ops), u) == Current(ops, u)
    ensures Box(DeliverAll(After(ops), users, message), id)
            == Box(After(ops), id) + (if id in After(ops).closed then [] else Copies(ops, users, message, id))
  {
    var s := After(ops);
    if users == [] {
      assert Box(s, id) + [] == Box(s, id);
    } else {
      var n := |users| - 1;
      BroadcastQueues(ops, users[..n], message, id);
      DeliverAllKeeps(s, users[..n], message);
      assert Registered(s, users[n]) == Current(ops, users[n]);
      var copies := Copies(ops, users[..n], message, id);
      assert (Box(s, id) + copies) + [message] == Box(s, id) + (copies + [message]);
      assert copies + [] == copies;
    }
  }

  /** Each connection's channel holds exactly the messages due to it, in order. */
  lemma {:induction false} QueuesHoldWhatIsDue(ops: seq<Op>, id: nat)
    requires NewIds(ops)
    ensures Box(After(ops), id) == Due(ops, id)
  {
    if ops != [] {
      var n := |ops| - 1;
      var front, due := ops[..n], Due(ops[..n], id);
      NewIdsPrefix(ops, n);
      QueuesHoldWhatIsDue(front, id);
      ClosedIsHungUp(front, id);
      forall u ensures Registered(After(front), u) == Current(front, u) {
        LatestConnectionWins(front, u);
      }
      assert due + [] == due;
      match ops[n] {
        case Send(user, message) =>
          BroadcastQueues(front, [user], message, id);
          assert [user][..0] == [];
          assert DeliverAll(After(front), [user], message) == Deliver(After(front), user, message);
        case Broadcast(users, message) => BroadcastQueues(front, users, message, id);
        case _ =>
      }
    }
  }

  /** The late cleanup of a connection that is not the user's latest changes nothing. */
  lemma StaleRemoveIsNoOp(ops: seq<Op>, user: nat, id: nat)
    requires NewIds(ops) && Latest(ops, user) != Some(id)
    ensures After(ops + [Remove(user, id)]) == After(ops)
  {
    assert (ops + [Remove(user, id)])[..|ops|] == ops;
    LatestConnectionWins(ops, user);
  }

  lemma OneOwner(ops: seq<Op>, u: nat, v: nat, id: nat)
    requires NewIds(ops) && Add(u, id) in ops && Add(v, id) in ops
    ensures u == v
  {
    var i :| 0 <= i < |ops| && ops[i] == Add(u, id);
    var j :| 0 <= j < |ops| && ops[j] == Add(v, id);
    assert Names(ops[i], id) && Names(ops[j], id);
  }

  lemma NeverCurrentAgain(ops: seq<Op>, n: nat, user: nat, id: nat)
    requires NewIds(ops) && n <= |ops| && Add(user, id) in ops[..n] && Current(ops[..n], user) != Some(id)
    ensures forall u :: Current(ops, u) != Some(id)
    decreases |ops|
  {
    forall u | u != user
      ensures Current(ops, u) != Some(id)
    {
      LatestWasAdded(ops, u);
      if Add(u, id) in ops {
        OneOwner(ops, u, user, id);
      }
    }
    if n == |ops| {
      assert ops[..n] == ops;
    } else {
      var m := |ops| - 1;
      NewIdsPrefix(ops, m);
      assert ops[..m][..n] == ops[..n];
      NeverCurrentAgain(ops[..m], n, user, id);
      CurrentAfter(ops, user);
      assert Add(user, id) in ops[..m] && Names(Add(user, id), id);
      if ops[m].Add? {
        NewestIsUnnamed(ops);
      }
    }
  }

  lemma NothingDue(ops: seq<Op>, id: nat)
    requires ops != [] && var front := ops[..|ops| - 1]; forall u :: Current(front, u) != Some(id)
    ensures Due(ops, id) == Due(ops[..|ops| - 1], id)
  {
    hide Current;
    var n := |ops| - 1;
    if ops[n].Send? { NoCopies(ops[..n], [ops[n].user], ops[n].message, id); }
    if ops[n].Broadcast? { NoCopies(ops[..n], ops[n].users, ops[n].message, id); }
  }

  /** A connection that has been replaced or removed is sent nothing more. */
  lemma {:induction false} ReplacedHearsNothing(ops: seq<Op>, n: nat, user: nat, id: nat)
    requires NewIds(ops) && n <= |ops| && Add(user, id) in ops[..n] && Current(ops[..n], user) != Some(id)
    ensures Box(After(ops), id) == Box(After(ops[..n]), id)
  {
    hide After, Due, Box, Current, NewIds;
    if n == |ops| {
      assert ops[..n] == ops;
    } else {
      var m := |ops| - 1;
      NewIdsPrefix(ops, m);
      assert ops[..m][..n] == ops[..n];
      ReplacedHearsNothing(ops[..m], n, user, id);
      NeverCurrentAgain(ops[..m], n, user, id);
      NothingDue(ops, id);
      QueuesHoldWhatIsDue(ops[..m], id);
      QueuesHoldWhatIsDue(ops, id);
    }
  }

  lemma {:induction false} NoCopies(ops: seq<Op>, users: seq<nat>, message: string, id: nat)
    requires forall u :: Current(ops, u) != Some(id)
    ensures Copies(ops, users, message, id) == []
  {
    if users != [] {
      NoCopies(ops, users[..|users| - 1], message, id);
    }
  }
}
