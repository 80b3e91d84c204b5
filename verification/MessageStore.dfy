/** The client's message store: the loaded page list of the active channel and the thread cache. */
module MessageStore {
  import opened Wrappers

  datatype Message = Message(
    id: nat,
    createdAt: int,
    threadId: Option<nat>,
    deleted: bool,
    content: string,
    replyCount: int)

  datatype State = State(
    messages: seq<Message>,
    hasMore: bool,
    isLoading: bool,
    threadCache: map<nat, seq<Message>>)

  const PAGE_SIZE := 50

  predicate HasId(ms: seq<Message>, id: nat) { exists i :: 0 <= i < |ms| && ms[i].id == id }

  function Reverse(ms: seq<Message>): (r: seq<Message>)
    ensures |r| == |ms| && forall i :: 0 <= i < |ms| ==> r[i] == ms[|ms| - 1 - i]
  {
    seq(|ms|, i requires 0 <= i < |ms| => ms[|ms| - 1 - i])
  }

  /** JavaScript's map over messages, changing those with the given id. */
  function MapId(ms: seq<Message>, id: nat, f: Message -> Message): (r: seq<Message>)
    ensures |r| == |ms|
    ensures forall i :: 0 <= i < |ms| ==> r[i] == if ms[i].id == id then f(ms[i]) else ms[i]
  {
    seq(|ms|, i requires 0 <= i < |ms| => if ms[i].id == id then f(ms[i]) else ms[i])
  }

  function Tombstone(m: Message): Message { m.(deleted := true, content := "") }

  function OneMoreReply(m: Message): Message { m.(replyCount := m.replyCount + 1) }

  // ---- Store actions -----------------------------------------------------------

  /** A page arrives; the server sends newest first, the store keeps oldest first. */
  function ApplyPage(s: State, older: bool, fetched: seq<Message>): State {
    s.(messages := Reverse(fetched) + (if older then s.messages else []),
       hasMore := |fetched| == PAGE_SIZE,
       isLoading := false)
  }

  function Add(s: State, m: Message): State {
    if HasId(s.messages, m.id) then s else s.(messages := s.messages + [m])
  }

  function Remove(s: State, id: nat): State { s.(messages := MapId(s.messages, id, Tombstone)) }

  function Cached(s: State, root: nat): seq<Message> {
    if root in s.threadCache then s.threadCache[root] else []
  }

  /** The REST response to a reply of one's own. */
  function ReplySent(s: State, root: nat, reply: Message): State {
    var existing := Cached(s, root);
    if HasId(existing, reply.id) then s.(threadCache := s.threadCache[root := existing])
    else s.(threadCache := s.threadCache[root := existing + [reply]],
            messages := MapId(s.messages, root, OneMoreReply))
  }

  /** The gateway's THREAD_MESSAGE_CREATE event. */
  function ReplyEvent(s: State, m: Message): State {
    if m.threadId.None? then s
    else
      var root := m.threadId.value;
      if HasId(Cached(s, root), m.id) then s
      else s.(threadCache := if root in s.threadCache then s.threadCache[root := s.threadCache[root] + [m]]
                             else s.threadCache,
              messages := MapId(s.messages, root, OneMoreReply))
  }

  /** Every copy of the message `id` counts one more reply, if there is one more. */
  predicate OneMore(was: seq<Message>, now: seq<Message>, id: nat, more: bool) {
    && |now| == |was|
    && forall i :: 0 <= i < |now| ==>
         now[i] == if more && was[i].id == id then was[i].(replyCount := was[i].replyCount + 1) else was[i]
  }

  // ---- The store as an object ------------------------------------------------

  class Store {
    var messages: seq<Message>
    var hasMore: bool
    var isLoading: bool
    var threadCache: map<nat, seq<Message>>

    ghost function Value(): State
      reads this
    {
      State(messages, hasMore, isLoading, threadCache)
    }

    constructor ()
      ensures Value() == State([], true, false, map[])
    {
      messages, hasMore, isLoading, threadCache := [], true, false, map[];
    }

    /** The part of fetchMessages before the request is awaited. */
    method BeginFetch()
      modifies this
      ensures Value() == old(Value()).(isLoading := true)
    {
      isLoading := true;
    }

    /** The part of fetchMessages after the response. */
    method FinishFetch(before: Option<nat>, fetched: seq<Message>)
      modifies this
      ensures Value() == ApplyPage(old(Value()), before.Some?, fetched)
      ensures |messages| == |fetched| + if before.Some? then |old(messages)| else 0
      ensures forall i :: 0 <= i < |fetched| ==> messages[i] == fetched[|fetched| - 1 - i]
      ensures before.Some? ==> messages[|fetched|..] == old(messages)
      ensures (hasMore <==> |fetched| == 50) && !isLoading && threadCache == old(threadCache)
    {
      var ordered := Reverse(fetched);
      if before.Some? {
        messages := ordered + messages;
      } else {
        messages := ordered;
      }
      hasMore := |fetched| == PAGE_SIZE;
      isLoading := false;
    }

    method FailFetch()
      modifies this
      ensures Value() == old(Value()).(isLoading := false)
    {
      isLoading := false;
    }

    method AddMessage(m: Message)
      modifies this
      ensures Value() == Add(old(Value()), m)
      ensures messages == if exists i :: 0 <= i < |old(messages)| && old(messages)[i].id == m.id
                          then old(messages) else old(messages) + [m]
      ensures (hasMore, isLoading, threadCache) == old((hasMore, isLoading, threadCache))
    {
      if exists i :: 0 <= i < |messages| && messages[i].id == m.id {
        return;
      }
      messages := messages + [m];
    }

    method RemoveMessage(id: nat)
      modifies this
      ensures Value() == Remove(old(Value()), id)
      ensures |messages| == |old(messages)|
      ensures forall i :: 0 <= i < |messages| ==>
                var m := old(messages)[i];
                messages[i] == if m.id == id
                               then Message(m.id, m.createdAt, m.threadId, true, "", m.replyCount)
                               else m
      ensures (hasMore, isLoading, threadCache) == old((hasMore, isLoading, threadCache))
    {
      messages := MapId(messages, id, (m: Message) => m.(deleted := true, content := ""));
    }

    method SendThreadReply(root: nat, reply: Message)
      modifies this
      ensures Value() == ReplySent(old(Value()), root, reply)
      ensures var cached := if root in old(threadCache) then old(threadCache)[root] else [];
              var known := exists i :: 0 <= i < |cached| && cached[i].id == reply.id;
              && threadCache == old(threadCache)[root := if known then cached else cached + [reply]]
              && OneMore(old(messages), messages, root, !known)
    {
      var existing := if root in threadCache then threadCache[root] else [];
      var alreadyAdded := HasId(existing, reply.id);
      threadCache := threadCache[root := if alreadyAdded then existing else existing + [reply]];
      messages := MapId(messages, root,
        (m: Message) => m.(replyCount := if alreadyAdded then m.replyCount else m.replyCount + 1));
    }

    method AddThreadMessage(m: Message)
      modifies this
      ensures Value() == ReplyEvent(old(Value()), m)
      ensures m.threadId.None? ==> messages == old(messages) && threadCache == old(threadCache)
      ensures m.threadId.Some? ==>
                var root := m.threadId.value;
                var cached := if root in old(threadCache) then old(threadCache)[root] else [];
                var known := exists i :: 0 <= i < |cached| && cached[i].id == m.id;
                && threadCache == (if root in old(threadCache) && !known
                                   then old(threadCache)[root := cached + [m]]
                                   else old(threadCache))
                && OneMore(old(messages), messages, root, !known)
    {
      if m.threadId.None? {
        return;
      }
      var root := m.threadId.value;
      var alreadyCached := root in threadCache && HasId(threadCache[root], m.id);
      if root in threadCache {
        var existing := threadCache[root];
        threadCache := threadCache[root := if alreadyCached then existing else existing + [m]];
      }
      if !alreadyCached {
        messages := MapId(messages, root, (x: Message) => x.(replyCount := x.replyCount + 1));
      }
    }

    method FinishFetchReplies(root: nat, replies: seq<Message>)
      modifies this
      ensures Value() == old(Value()).(threadCache := old(threadCache)[root := replies])
    {
      threadCache := threadCache[root := replies];
    }
  }

  // ---- Reply counting ----------------------------------------------------------

  /** Everything that may touch a thread between two loads of its replies. */
  datatype Op =
    | Sent(root: nat, reply: Message)
    | Event(message: Message)
    | Posted(message: Message)
    | Removed(id: nat)

  function Step(s: State, op: Op): State {
    match op
    case Sent(root, reply) => ReplySent(s, root, reply)
    case Event(m) => ReplyEvent(s, m)
    case Posted(m) => Add(s, m)
    case Removed(id) => Remove(s, id)
  }

  function Run(s: State, ops: seq<Op>): State {
    if ops == [] then s else Step(Run(s, ops[..|ops| - 1]), ops[|ops| - 1])
  }

  function Ids(ms: seq<Message>): set<nat> { set i | 0 <= i < |ms| :: ms[i].id }

  predicate Distinct(ms: seq<Message>) { forall i, j :: 0 <= i < j < |ms| ==> ms[i].id != ms[j].id }

  /** Ids of the replies to `root` that a history delivers, however often and by whichever way. */
  function Delivered(ops: seq<Op>, root: nat): set<nat> {
    if ops == [] then {}
    else Delivered(ops[..|ops| - 1], root) + DeliveredBy(ops[|ops| - 1], root)
  }

  function DeliveredBy(op: Op, root: nat): set<nat> {
    match op
    case Sent(r, reply) => if r == root then {reply.id} else {}
    case Event(m) => if m.threadId == Some(root) then {m.id} else {}
    case _ => {}
  }

  /** What one step does to a cached thread: the cache gains exactly the delivered ids, without
      duplicates, and the count of every loaded copy of the root moves with the cache length. */
  lemma StepCounts(s: State, op: Op, root: nat, i: nat)
    requires root in s.threadCache && Distinct(s.threadCache[root])
    requires i < |s.messages| && s.messages[i].id == root
    ensures var t := Step(s, op);
            && root in t.threadCache && Distinct(t.threadCache[root])
            && Ids(t.threadCache[root]) == Ids(s.threadCache[root]) + DeliveredBy(op, root)
            && i < |t.messages| && t.messages[i].id == root
            && t.messages[i].replyCount - |t.threadCache[root]| == s.messages[i].replyCount - |s.threadCache[root]|
  {
    hide Ids, Distinct, HasId, MapId;
    match op {
      case Sent(r, reply) => SentCounts(s, r, reply, root, i);
      case Event(m) => EventCounts(s, m, root, i);
      case Posted(m) => OthersCount(s, Add(s, m), root, i);
      case Removed(id) => OthersCount(s, Remove(s, id), root, i);
    }
  }

  lemma SentCounts(s: State, r: nat, reply: Message, root: nat, i: nat)
    requires root in s.threadCache && Distinct(s.threadCache[root])
    requires i < |s.messages| && s.messages[i].id == root
    ensures Counted(s, ReplySent(s, r, reply), root, i, if r == root then {reply.id} else {})
  {
    hide Ids, Distinct, HasId, MapId;
    var t := ReplySent(s, r, reply);
    if r == root { OneReplyCounts(s, t, root, i, reply); } else { OthersCount(s, t, root, i); }
  }

  lemma EventCounts(s: State, m: Message, root: nat, i: nat)
    requires root in s.threadCache && Distinct(s.threadCache[root])
    requires i < |s.messages| && s.messages[i].id == root
    ensures Counted(s, ReplyEvent(s, m), root, i, if m.threadId == Some(root) then {m.id} else {})
  {
    hide Ids, Distinct, HasId, MapId;
    var t := ReplyEvent(s, m);
    if m.threadId == Some(root) { OneReplyCounts(s, t, root, i, m); } else { OthersCount(s, t, root, i); }
  }

  /** The cached thread gained the delivered ids, and the count of the root moved with it. */
  predicate Counted(s: State, t: State, root: nat, i: nat, delivered: set<nat>)
    requires root in s.threadCache && i < |s.messages|
  {
    && root in t.threadCache && Distinct(t.threadCache[root])
    && Ids(t.threadCache[root]) == Ids(s.threadCache[root]) + delivered
    && i < |t.messages| && t.messages[i].id == root
    && t.messages[i].replyCount - |t.threadCache[root]| == s.messages[i].replyCount - |s.threadCache[root]|
  }

  lemma OneReplyCounts(s: State, t: State, root: nat, i: nat, m: Message)
    requires root in s.threadCache && Distinct(s.threadCache[root]) && root in t.threadCache
    requires i < |s.messages| == |t.messages| && s.messages[i].id == t.messages[i].id == root
    requires var old_, known := s.threadCache[root], HasId(s.threadCache[root], m.id);
             && t.threadCache[root] == (if known then old_ else old_ + [m])
             && t.messages[i].replyCount == s.messages[i].replyCount + (if known then 0 else 1)
    ensures Counted(s, t, root, i, {m.id})
  {
    var old_ := s.threadCache[root];
    if HasId(old_, m.id) {
      assert m.id in Ids(old_);
      assert Ids(old_) + {m.id} == Ids(old_);
    } else {
      IdsAppend(old_, m);
    }
  }

  lemma OthersCount(s: State, t: State, root: nat, i: nat)
    requires root in s.threadCache && Distinct(s.threadCache[root])
    requires root in t.threadCache && t.threadCache[root] == s.threadCache[root]
    requires i < |s.messages| <= |t.messages| && s.messages[i].id == t.messages[i].id == root
    requires t.messages[i].replyCount == s.messages[i].replyCount
    ensures Counted(s, t, root, i, {})
  {
    hide Ids, Distinct;
    assert Ids(s.threadCache[root]) + {} == Ids(s.threadCache[root]);
  }

  /** Over every history, duplicated or not, each reply is counted exactly once. */
  lemma {:induction false} RepliesCountedOnce(s: State, ops: seq<Op>, root: nat, i: nat)
    requires root in s.threadCache && Distinct(s.threadCache[root])
    requires i < |s.messages| && s.messages[i].id == root
    ensures var t := Run(s, ops);
            && root in t.threadCache && Distinct(t.threadCache[root])
            && Ids(t.threadCache[root]) == Ids(s.threadCache[root]) + Delivered(ops, root)
            && i < |t.messages| && t.messages[i].id == root
            && t.messages[i].replyCount - |t.threadCache[root]| == s.messages[i].replyCount - |s.threadCache[root]|
            && t.messages[i].replyCount == s.messages[i].replyCount + |Delivered(ops, root) - Ids(s.threadCache[root])|
  {
    if ops != [] {
      var before := ops[..|ops| - 1];
      RepliesCountedOnce(s, before, root, i);
      StepCounts(Run(s, before), ops[|ops| - 1], root, i);
    }
    hide Ids, Distinct, Delivered, Run;
    CountGain(s.threadCache[root], Run(s, ops).threadCache[root], Delivered(ops, root));
  }

  lemma CountGain(cache: seq<Message>, cache': seq<Message>, delivered: set<nat>)
    requires Distinct(cache) && Distinct(cache') && Ids(cache') == Ids(cache) + delivered
    ensures |cache'| == |cache| + |delivered - Ids(cache)|
  {
    DistinctCount(cache);
    DistinctCount(cache');
    assert Ids(cache') == Ids(cache) + (delivered - Ids(cache));
  }

  /** Without a cache entry there is nothing to recognise a duplicate by: delivering the same
      event twice is harmless exactly when the thread had been loaded. */
  lemma RedeliveryIsHarmlessIffCached(s: State, m: Message, i: nat)
    requires i < |s.messages| && m.threadId == Some(s.messages[i].id)
    ensures var once := ReplyEvent(s, m); var twice := ReplyEvent(once, m);
            twice == once <==> s.messages[i].id in s.threadCache
  {
    var root := s.messages[i].id;
    var once := ReplyEvent(s, m);
    if root in s.threadCache {
      if !HasId(s.threadCache[root], m.id) {
        assert once.threadCache[root][|s.threadCache[root]|].id == m.id;
      }
    } else {
      assert ReplyEvent(once, m).messages[i].replyCount == once.messages[i].replyCount + 1;
    }
  }

  lemma IdsAppend(ms: seq<Message>, m: Message)
    ensures Ids(ms + [m]) == Ids(ms) + {m.id}
  {
    forall id | id in Ids(ms) + {m.id} ensures id in Ids(ms + [m]) {
      if id == m.id {
        assert (ms + [m])[|ms|].id == id;
      } else {
        var i :| 0 <= i < |ms| && ms[i].id == id;
        assert (ms + [m])[i].id == id;
      }
    }
  }

  lemma {:induction false} DistinctCount(ms: seq<Message>)
    requires Distinct(ms)
    ensures |Ids(ms)| == |ms|
  {
    if ms != [] {
      var front := ms[..|ms| - 1];
      DistinctCount(front);
      assert ms == front + [ms[|ms| - 1]];
      IdsAppend(front, ms[|ms| - 1]);
    }
  }
}
