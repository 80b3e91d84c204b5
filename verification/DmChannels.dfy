/** Opening DM channels: concurrent transactions under an advisory lock keyed by the pair. */
module DmChannels {
  import opened Wrappers
  import opened Maxima

  type Uuid = u: seq<bv8> | |u| == 16 witness seq(16, _ => 0)

  type LockKey = seq<bv8>

  // ---- The lock key --------------------------------------------------------------

  /** Byte-wise order of UUIDs. */
  predicate Less(a: seq<bv8>, b: seq<bv8>)
    requires |a| == |b|
  {
    a != [] && (a[0] < b[0] || (a[0] == b[0] && Less(a[1..], b[1..])))
  }

  /** The first eight bytes of both ids, exclusive-or'ed; read as an i64 they are the key. */
  function Key(a: Uuid, b: Uuid): LockKey {
    seq(8, i requires 0 <= i < 8 => a[i] ^ b[i])
  }

  lemma KeySymmetric(a: Uuid, b: Uuid)
    ensures Key(a, b) == Key(b, a)
  {
    forall i | 0 <= i < 8 ensures a[i] ^ b[i] == b[i] ^ a[i] { XorCommutes(a[i], b[i]); }
  }

  lemma XorCommutes(x: bv8, y: bv8)
    ensures x ^ y == y ^ x
  {}

  /** The key as the handler builds it, from the sorted pair. */
  method BuildKey(me: Uuid, them: Uuid) returns (key: LockKey)
    ensures key == Key(me, them)
  {
    var lo, hi := me, them;
    if !Less(me, them) {
      lo, hi := them, me;
    }
    var keyBytes := new bv8[8];
    for i := 0 to 8
      invariant forall k :: 0 <= k < i ==> keyBytes[k] == lo[k] ^ hi[k]
    {
      keyBytes[i] := lo[i] ^ hi[i];
    }
    key := keyBytes[..];
    assert key == Key(lo, hi);
    KeySymmetric(me, them);
  }

  // ---- Transactions ----------------------------------------------------------------

  datatype Stage =
    | Begun
    | Locked
    | Found(channel: nat)
    | Absent
    | Inserted(channel: nat)
    | Done(channel: nat)
    | Failed

  datatype Opener = Opener(me: Uuid, them: Uuid, stage: Stage)

  /** Committed channels with their members, the openers, the held locks, all ids ever drawn. */
  datatype State = State(
    channels: map<nat, set<Uuid>>,
    openers: map<nat, Opener>,
    locks: map<LockKey, nat>,
    used: set<nat>)

  datatype Op =
    | Begin(p: nat, me: Uuid, them: Uuid, targetExists: bool)
    | Lock(p: nat)
    | Recheck(p: nat, pick: nat)
    | Insert(p: nat, newId: nat)
    | Commit(p: nat)
    | Rollback(p: nat)

  predicate At(s: State, p: nat, stage: Stage) { p in s.openers && s.openers[p].stage == stage }

  function Move(s: State, p: nat, stage: Stage): State
    requires p in s.openers
  {
    s.(openers := s.openers[p := s.openers[p].(stage := stage)])
  }

  function KeyOf(o: Opener): LockKey { Key(o.me, o.them) }

  function Pair(o: Opener): set<Uuid> { {o.me, o.them} }

  /** Committed channels that both users belong to. */
  function Existing(s: State, o: Opener): set<nat> {
    set c | c in s.channels && o.me in s.channels[c] && o.them in s.channels[c]
  }

  /** The end of a transaction releases its lock. */
  function Finish(s: State, p: nat, stage: Stage): State
    requires p in s.openers
  {
    Move(s, p, stage).(locks := s.locks - {KeyOf(s.openers[p])})
  }

  /** One step; an operation that is not enabled changes nothing. The re-check may return any
      of the existing channels, as a query with LIMIT 1 and no order does. */
  function Step(s: State, op: Op): State {
    match op
    case Begin(p, me, them, targetExists) =>
      if p in s.openers || me == them || !targetExists then s
      else s.(openers := s.openers[p := Opener(me, them, Begun)])
    case Lock(p) =>
      if At(s, p, Begun) && KeyOf(s.openers[p]) !in s.locks
      then Move(s, p, Locked).(locks := s.locks[KeyOf(s.openers[p]) := p])
      else s
    case Recheck(p, pick) =>
      if !At(s, p, Locked) then s
      else
        var existing := Existing(s, s.openers[p]);
        if existing == {} then Move(s, p, Absent)
        else if pick in existing then Move(s, p, Found(pick))
        else s
    case Insert(p, newId) =>
      if At(s, p, Absent) && newId !in s.used then Move(s, p, Inserted(newId)).(used := s.used + {newId}) else s
    case Commit(p) =>
      if p !in s.openers then s
      else
        var o := s.openers[p];
        if o.stage.Found? then Finish(s, p, Done(o.stage.channel))
        else if o.stage.Inserted?
        then Finish(s, p, Done(o.stage.channel)).(channels := s.channels[o.stage.channel := Pair(o)])
        else s
    case Rollback(p) =>
      if p !in s.openers then s
      else if s.openers[p].stage.Begun? then Move(s, p, Failed)
      else if Holding(s.openers[p].stage) then Finish(s, p, Failed)
      else s
  }

  predicate Holding(stage: Stage) { stage.Locked? || stage.Found? || stage.Absent? || stage.Inserted? }

  function Run(s: State, ops: seq<Op>): State {
    if ops == [] then s else Step(Run(s, ops[..|ops| - 1]), ops[|ops| - 1])
  }

  // ---- The database as an object ---------------------------------------------------

  class Database {
    var channels: map<nat, set<Uuid>>
    var openers: map<nat, Opener>
    var locks: map<LockKey, nat>
    var used: set<nat>

    ghost function Value(): State
      reads this
    {
      State(channels, openers, locks, used)
    }

    constructor ()
      ensures Value() == State(map[], map[], map[], {})
    {
      channels, openers, locks, used := map[], map[], map[], {};
    }

    method BeginOpen(p: nat, me: Uuid, them: Uuid, targetExists: bool)
      modifies this
      ensures Value() == Step(old(Value()), Begin(p, me, them, targetExists))
      ensures p !in old(openers) ==>
                openers == if me == them || !targetExists then old(openers)
                           else old(openers)[p := Opener(me, them, Begun)]
    {
      if me == them { return; }
      if !targetExists { return; }
      if p !in openers {
        openers := openers[p := Opener(me, them, Begun)];
      }
    }

    method AcquireLock(p: nat) returns (granted: bool)
      requires p in openers && openers[p].stage == Begun
      modifies this
      ensures Value() == Step(old(Value()), Lock(p))
      ensures granted <==> At(Value(), p, Locked)
    {
      var key := BuildKey(openers[p].me, openers[p].them);
      if key in locks { return false; }
      locks := locks[key := p];
      openers := openers[p := openers[p].(stage := Locked)];
      return true;
    }

    method LookAgain(p: nat, pick: nat) returns (existing: Option<nat>)
      requires p in openers && openers[p].stage == Locked
      requires Existing(Value(), openers[p]) == {} || pick in Existing(Value(), openers[p])
      modifies this
      ensures Value() == Step(old(Value()), Recheck(p, pick))
      ensures existing.Some? ==> existing.value in Existing(old(Value()), old(openers[p]))
      ensures existing.None? ==> Existing(old(Value()), old(openers[p])) == {}
    {
      var o := openers[p];
      var found := set c | c in channels && o.me in channels[c] && o.them in channels[c];
      assert found == Existing(Value(), o);
      if found == {} {
        existing := None;
        openers := openers[p := o.(stage := Absent)];
      } else {
        existing := Some(pick);
        openers := openers[p := o.(stage := Found(pick))];
      }
    }

    method InsertChannel(p: nat, newId: nat)
      requires p in openers && openers[p].stage == Absent && newId !in used
      modifies this
      ensures Value() == Step(old(Value()), Insert(p, newId))
    {
      used := used + {newId};
      openers := openers[p := openers[p].(stage := Inserted(newId))];
    }

    method CommitOpen(p: nat) returns (channel: nat)
      requires p in openers && (openers[p].stage.Found? || openers[p].stage.Inserted?)
      modifies this
      ensures Value() == Step(old(Value()), Commit(p))
      ensures At(Value(), p, Done(channel))
    {
      var o := openers[p];
      channel := o.stage.channel;
      if o.stage.Inserted? {
        channels := channels[channel := {o.me, o.them}];
      }
      var key := BuildKey(o.me, o.them);
      locks := locks - {key};
      openers := openers[p := o.(stage := Done(channel))];
    }
  }

  // ---- The invariant -----------------------------------------------------------------

  ghost predicate TwoMembers(members: set<Uuid>) { exists a, b :: a != b && members == {a, b} }

  /** A lock is held by exactly one opener, and exactly while its transaction is past the lock. */
  predicate LocksMatch(s: State) {
    && (forall k :: k in s.locks ==>
          s.locks[k] in s.openers && Holding(s.openers[s.locks[k]].stage) && KeyOf(s.openers[s.locks[k]]) == k)
    && (forall p :: p in s.openers && Holding(s.openers[p].stage) ==>
          KeyOf(s.openers[p]) in s.locks && s.locks[KeyOf(s.openers[p])] == p)
  }

  /** Channels have two members, and no two channels the same two. */
  ghost predicate ChannelsDistinct(s: State) {
    && s.channels.Keys <= s.used
    && (forall c :: c in s.channels ==> TwoMembers(s.channels[c]))
    && (forall c, d :: c in s.channels && d in s.channels && s.channels[c] == s.channels[d] ==> c == d)
  }

  /** What an opener's stage promises about the committed channels. */
  predicate Promise(s: State, o: Opener) {
    && o.me != o.them
    && (o.stage.Absent? || o.stage.Inserted? ==> forall c :: c in s.channels ==> s.channels[c] != Pair(o))
    && (o.stage.Inserted? ==> o.stage.channel in s.used && o.stage.channel !in s.channels)
    && (o.stage.Found? || o.stage.Done? ==> o.stage.channel in s.channels && s.channels[o.stage.channel] == Pair(o))
  }

  predicate PromisesKept(s: State) { forall p :: p in s.openers ==> Promise(s, s.openers[p]) }

  /** Uncommitted channels have ids of their own. */
  predicate InsertsDistinct(s: State) {
    forall p, q :: p in s.openers && q in s.openers && p != q
                   && s.openers[p].stage.Inserted? && s.openers[q].stage.Inserted? ==>
      s.openers[p].stage.channel != s.openers[q].stage.channel
  }

  ghost predicate Inv(s: State) {
    LocksMatch(s) && ChannelsDistinct(s) && PromisesKept(s) && InsertsDistinct(s)
  }

  lemma SamePairSameKey(o: Opener, u: Opener)
    requires Pair(o) == Pair(u)
    ensures KeyOf(o) == KeyOf(u)
  {
    assert u.me in Pair(o) && u.them in Pair(o) && o.me in Pair(u) && o.them in Pair(u);
    KeySymmetric(o.me, o.them);
  }

  /** Two openers past the lock never serve the same pair, because the key is symmetric. */
  lemma HoldersDiffer(s: State, p: nat, q: nat)
    requires LocksMatch(s) && p in s.openers && q in s.openers && p != q
    requires Holding(s.openers[p].stage) && Holding(s.openers[q].stage)
    ensures Pair(s.openers[p]) != Pair(s.openers[q]) && KeyOf(s.openers[p]) != KeyOf(s.openers[q])
  {
    if Pair(s.openers[p]) == Pair(s.openers[q]) {
      SamePairSameKey(s.openers[p], s.openers[q]);
    }
  }

  lemma ExistingAreThePair(s: State, p: nat)
    requires ChannelsDistinct(s) && p in s.openers && s.openers[p].me != s.openers[p].them
    ensures forall c :: c in Existing(s, s.openers[p]) <==> c in s.channels && s.channels[c] == Pair(s.openers[p])
  {
    forall c | c in Existing(s, s.openers[p]) ensures s.channels[c] == Pair(s.openers[p]) {
      assert TwoMembers(s.channels[c]);
      var a, b :| a != b && s.channels[c] == {a, b};
    }
  }

  lemma FinishLocks(s: State, p: nat, stage: Stage)
    requires LocksMatch(s) && p in s.openers && Holding(s.openers[p].stage) && !Holding(stage)
    ensures LocksMatch(Finish(s, p, stage))
  {
    hide Key;
  }

  lemma MoveLocks(s: State, p: nat, stage: Stage)
    requires LocksMatch(s) && p in s.openers && Holding(s.openers[p].stage) == Holding(stage)
    ensures LocksMatch(Move(s, p, stage))
  {
    hide Key;
  }

  lemma TakeLock(s: State, p: nat)
    requires LocksMatch(s)
    ensures LocksMatch(Step(s, Lock(p)))
  {
    hide Key;
  }

  lemma LocksKeep(s: State, op: Op)
    requires LocksMatch(s)
    ensures LocksMatch(Step(s, op))
  {
    hide LocksMatch, Key, Existing, Pair;
    match op {
      case Begin(p, me, them, targetExists) => BeginLocks(s, p, me, them, targetExists);
      case Lock(p) => TakeLock(s, p);
      case Recheck(p, pick) =>
        if At(s, p, Locked) {
          MoveLocks(s, p, Absent);
          MoveLocks(s, p, Found(pick));
        }
      case Insert(p, newId) =>
        if At(s, p, Absent) && newId !in s.used {
          MoveLocks(s, p, Inserted(newId));
          UsedLocks(Move(s, p, Inserted(newId)), Step(s, op));
        }
      case Commit(p) =>
        if p in s.openers && (s.openers[p].stage.Found? || s.openers[p].stage.Inserted?) {
          var c := s.openers[p].stage.channel;
          FinishLocks(s, p, Done(c));
          UsedLocks(Finish(s, p, Done(c)), Step(s, op));
        }
      case Rollback(p) =>
        if p in s.openers {
          if Holding(s.openers[p].stage) {
            FinishLocks(s, p, Failed);
          } else if s.openers[p].stage.Begun? {
            MoveLocks(s, p, Failed);
          }
        }
    }
  }

  lemma BeginLocks(s: State, p: nat, me: Uuid, them: Uuid, targetExists: bool)
    requires LocksMatch(s)
    ensures LocksMatch(Step(s, Begin(p, me, them, targetExists)))
  {
    hide Key;
  }

  lemma UsedLocks(s: State, t: State)
    requires LocksMatch(s) && t.openers == s.openers && t.locks == s.locks
    ensures LocksMatch(t)
  {}

  lemma InsertsKeep(s: State, op: Op)
    requires PromisesKept(s) && InsertsDistinct(s)
    ensures InsertsDistinct(Step(s, op))
  {
    hide Key, Existing, Pair;
  }

  lemma ChannelsKeep(s: State, op: Op)
    requires ChannelsDistinct(s) && PromisesKept(s)
    ensures ChannelsDistinct(Step(s, op))
  {
    hide Key, Existing;
    if op.Commit? && op.p in s.openers && s.openers[op.p].stage.Inserted? {
      var o := s.openers[op.p];
      assert TwoMembers({o.me, o.them});
    }
  }

  lemma CommitPromises(s: State, p: nat)
    requires Inv(s) && p in s.openers && s.openers[p].stage.Inserted?
    ensures PromisesKept(Step(s, Commit(p)))
  {
    hide Key, Existing;
    var t, o := Step(s, Commit(p)), s.openers[p];
    forall q | q in t.openers ensures Promise(t, t.openers[q]) {
      if q != p && Holding(s.openers[q].stage) {
        HoldersDiffer(s, p, q);
      }
    }
  }

  /** An opener's own promise after it moves, when channels and ids stay as they are. */
  lemma MovePromise(s: State, p: nat, stage: Stage)
    requires PromisesKept(s) && p in s.openers && Promise(s, s.openers[p].(stage := stage))
    ensures PromisesKept(Move(s, p, stage))
  {
    hide Pair;
    var t := Move(s, p, stage);
    forall q | q in t.openers ensures Promise(t, t.openers[q]) {
      assert q != p ==> Promise(s, s.openers[q]);
    }
  }

  lemma RecheckPromises(s: State, p: nat, pick: nat)
    requires Inv(s) && At(s, p, Locked)
    ensures PromisesKept(Step(s, Recheck(p, pick)))
  {
    hide LocksMatch, InsertsDistinct, Key;
    var o := s.openers[p];
    assert Promise(s, o);
    ExistingAreThePair(s, p);
    if Existing(s, o) == {} {
      assert forall c :: c in s.channels ==> c !in Existing(s, o);
      assert Promise(s, o.(stage := Absent));
      MovePromise(s, p, Absent);
    } else if pick in Existing(s, o) {
      assert Promise(s, o.(stage := Found(pick)));
      MovePromise(s, p, Found(pick));
    }
  }

  lemma PromisesKeep(s: State, op: Op)
    requires Inv(s)
    ensures PromisesKept(Step(s, op))
  {
    hide Key, LocksMatch, ChannelsDistinct, InsertsDistinct;
    match op {
      case Recheck(p, pick) =>
        if At(s, p, Locked) {
          RecheckPromises(s, p, pick);
        }
      case Insert(p, newId) => InsertPromises(s, p, newId);
      case Commit(p) =>
        if p in s.openers && s.openers[p].stage.Inserted? {
          CommitPromises(s, p);
        }
      case _ =>
    }
  }

  lemma InsertPromises(s: State, p: nat, newId: nat)
    requires Inv(s)
    ensures PromisesKept(Step(s, Insert(p, newId)))
  {
    hide Key, LocksMatch, InsertsDistinct, TwoMembers;
  }

  lemma StepKeeps(s: State, op: Op)
    requires Inv(s)
    ensures Inv(Step(s, op))
  {
    LocksKeep(s, op);
    InsertsKeep(s, op);
    ChannelsKeep(s, op);
    PromisesKeep(s, op);
  }

  predicate Served(s: State, p: nat) { p in s.openers && s.openers[p].stage.Done? }

  predicate Initial(s: State) { s == State(map[], map[], map[], {}) }

  lemma {:induction false} RunKeeps(s: State, ops: seq<Op>)
    requires Inv(s)
    ensures Inv(Run(s, ops))
  {
    if ops != [] {
      RunKeeps(s, ops[..|ops| - 1]);
      StepKeeps(Run(s, ops[..|ops| - 1]), ops[|ops| - 1]);
    }
  }

  /** In every interleaving of openers, colliding lock keys included: every channel joins two
      distinct users, no two channels join the same two, and all successful openers of one
      unordered pair get the same channel. */
  lemma OneChannelPerPair(s: State, ops: seq<Op>)
    requires Initial(s)
    ensures var t := Run(s, ops);
            && (forall c :: c in t.channels ==> TwoMembers(t.channels[c]))
            && (forall c, d :: c in t.channels && d in t.channels && t.channels[c] == t.channels[d] ==> c == d)
            && (forall p, q :: Served(t, p) && Served(t, q) && Pair(t.openers[p]) == Pair(t.openers[q]) ==>
                  t.openers[p].stage == t.openers[q].stage)
            && (forall p :: Served(t, p) ==>
                  && t.openers[p].stage.channel in t.channels
                  && t.channels[t.openers[p].stage.channel] == Pair(t.openers[p]))
  {
    RunKeeps(s, ops);
  }

  /** An opening that nobody interrupts. */
  function Opening(s: State, p: nat, me: Uuid, them: Uuid, targetExists: bool, pick: nat, newId: nat): State {
    Step(Step(Step(Step(Step(s, Begin(p, me, them, targetExists)), Lock(p)), Recheck(p, pick)), Insert(p, newId)),
         Commit(p))
  }

  /** Nobody opens a channel with themselves or with an unknown user. Anybody else gets the channel of
      the two if there is one, and otherwise a new channel that joins just them. */
  lemma OpeningRule(s: State, p: nat, me: Uuid, them: Uuid, targetExists: bool, pick: nat, newId: nat)
    requires Inv(s) && p !in s.openers && Key(me, them) !in s.locks && newId !in s.used
    requires (exists c :: c in s.channels && s.channels[c] == {me, them}) ==>
               pick in s.channels && s.channels[pick] == {me, them}
    ensures var t := Opening(s, p, me, them, targetExists, pick, newId);
            && (me == them || !targetExists ==> t == s)
            && (me != them && targetExists ==>
                  && p in t.openers && t.locks == s.locks
                  && if exists c :: c in s.channels && s.channels[c] == {me, them}
                     then t.openers[p] == Opener(me, them, Done(pick)) && t.channels == s.channels && t.used == s.used
                     else && t.openers[p] == Opener(me, them, Done(newId))
                          && t.channels == s.channels[newId := {me, them}] && t.used == s.used + {newId})
  {
    hide Key, LocksMatch, PromisesKept, InsertsDistinct, Existing, ChannelsDistinct, TwoMembers;
    if me != them && targetExists {
      var b := Step(s, Begin(p, me, them, true));
      var k := Step(b, Lock(p));
      assert k.channels == s.channels && k.used == s.used && k.openers[p] == Opener(me, them, Locked);
      SameChannels(s, k);
      ExistingAreThePair(k, p);
      assert k.locks - {Key(me, them)} == s.locks;
    }
  }

  lemma SameChannels(s: State, t: State)
    requires Inv(s) && t.channels == s.channels && t.used == s.used
    ensures ChannelsDistinct(t)
  {}

  // ---- Progress ------------------------------------------------------------------------

  lemma UnusedId(used: set<nat>) returns (n: nat)
    ensures n !in used
  {
    var ints: set<int> := set x: nat | x in used :: x as int;
    var top := MaxOr(ints, 0);
    n := if top < 0 then 0 else top + 1;
    forall x | x in used ensures x <= top {
      assert x as int in ints;
    }
  }

  /** Whoever holds a lock can take its next step towards commit without waiting for anybody. */
  lemma HolderCanStep(s: State, k: LockKey) returns (op: Op)
    requires Inv(s) && k in s.locks
    ensures var h := s.locks[k]; var stage := Step(s, op).openers[h].stage;
            && stage != s.openers[h].stage && stage != Failed
            && (k in Step(s, op).locks || stage.Done?)
  {
    var h := s.locks[k];
    var o := s.openers[h];
    match o.stage {
      case Locked =>
        if pick :| pick in Existing(s, o) {
          op := Recheck(h, pick);
        } else {
          op := Recheck(h, 0);
        }
      case Absent =>
        var n := UnusedId(s.used);
        op := Insert(h, n);
      case _ => op := Commit(h);
    }
  }

  /** No deadlock: an opener that waits either can take the lock or waits for one that can step. */
  lemma WaitersWaitForTheLive(s: State, p: nat) returns (op: Op)
    requires Inv(s) && At(s, p, Begun)
    ensures Step(s, op) != s
    ensures op == Lock(p) || (KeyOf(s.openers[p]) in s.locks && op.p == s.locks[KeyOf(s.openers[p])])
  {
    var k := KeyOf(s.openers[p]);
    if k in s.locks {
      op := HolderCanStep(s, k);
      var h := s.locks[k];
      assert Step(s, op).openers[h] != s.openers[h];
    } else {
      op := Lock(p);
      assert Step(s, op).openers[p].stage == Locked;
    }
  }
}
