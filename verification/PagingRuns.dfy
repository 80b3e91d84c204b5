/** Runs of a client that loads a channel page by page, from the newest messages back, while
    the rest of the world posts, replies and deletes between and during its requests. A message is
    committed by one step and announced to the client by a later one, in any order or never. */
module PagingRuns {
  import opened Wrappers
  import opened MessageStore
  import opened Pagination

  datatype Request =
    | Idle
    | Asked(before: nat)
    | Answered(page: seq<Message>)

  /** `fetches` and `paged` count the answered requests and the messages they brought. */
  datatype World = World(table: Table, store: State, request: Request, fetches: nat, paged: nat)

  datatype Action =
    | Post(id: nat, row: Row)
    | Insert(id: nat, row: Row)
    | Deliver(id: nat)
    | Delete(id: nat, notified: bool)
    | Ask
    | Serve
    | Receive
    | Fail

  /** `id` would sort after every row of the table. */
  predicate IsLatest(t: Table, k: Key) { forall x :: x in t ==> Less(KeyOf(t, x), k) }

  function Committed(t: Table, id: nat, row: Row): Table {
    if id in t || row.deleted || !IsLatest(t, Key(row.createdAt, id)) then t else t[id := row]
  }

  /** The event announcing a message, as it was when it was committed. */
  function Announcement(t: Table, id: nat): Message
    requires id in t
  {
    Message(id, t[id].createdAt, t[id].thread, false, t[id].content, 0)
  }

  /** The client appends the root messages of the channel it shows. */
  predicate Reaches(t: Table, channel: nat, id: nat) {
    id in t && t[id].channel == channel && t[id].thread.None?
  }

  function SoftDelete(t: Table, id: nat): Table {
    if id in t then t[id := t[id].(deleted := true)] else t
  }

  /** One step. A message is committed as the latest row or anywhere; a committed message may be
      announced at any later time; a row may be soft-deleted at any time.
      The client asks for older messages when it is not loading and believes there are more,
      the server answers from the table of that moment, and the answer is received later, unless the
      request fails. */
  function Advance(w: World, channel: nat, op: Action): World {
    match op
    case Post(id, row) => w.(table := Committed(w.table, id, row))
    case Insert(id, row) => if id in w.table then w else w.(table := w.table[id := row])
    case Deliver(id) =>
      if Reaches(w.table, channel, id) then w.(store := MessageStore.Add(w.store, Announcement(w.table, id))) else w
    case Delete(id, notified) =>
      w.(table := SoftDelete(w.table, id), store := if notified then Remove(w.store, id) else w.store)
    case Ask =>
      if w.request.Idle? && w.store.hasMore && |w.store.messages| > 0
      then w.(request := Asked(w.store.messages[0].id), store := w.store.(isLoading := true))
      else w
    case Serve =>
      if w.request.Asked?
      then w.(request := Answered(ListMessages(w.table, channel, Some(w.request.before), Some(PAGE_SIZE))))
      else w
    case Receive =>
      if w.request.Answered?
      then w.(request := Idle, store := ApplyPage(w.store, true, w.request.page), fetches := w.fetches + 1,
              paged := w.paged + |w.request.page|)
      else w
    case Fail => if w.request.Idle? then w else w.(request := Idle, store := w.store.(isLoading := false))
  }

  /** The world right after the first page of a freshly opened channel. */
  function Opened(t: Table, channel: nat): World {
    var page := ListMessages(t, channel, None, Some(PAGE_SIZE));
    World(t, ApplyPage(State([], true, false, map[]), false, page), Idle, 1, |page|)
  }

  function After(t: Table, channel: nat, ops: seq<Action>): World {
    if ops == [] then Opened(t, channel)
    else Advance(After(t, channel, ops[..|ops| - 1]), channel, ops[|ops| - 1])
  }

  /** The messages that requests have brought; announced ones stand behind them. */
  function Paged(w: World): seq<Message> {
    if w.paged <= |w.store.messages| then w.store.messages[..w.paged] else []
  }

  // ---- The invariant -------------------------------------------------------------

  function KeyOfMessage(m: Message): Key { Key(m.createdAt, m.id) }

  predicate Ascending(ms: seq<Message>) {
    forall i, j :: 0 <= i < j < |ms| ==> Less(KeyOfMessage(ms[i]), KeyOfMessage(ms[j]))
  }

  /** Rows never lose their place, and deletion is final. */
  predicate Grew(t0: Table, t: Table) {
    forall id :: id in t0 ==>
      && id in t
      && t[id].(deleted := false, content := "") == t0[id].(deleted := false, content := "")
      && (t0[id].deleted ==> t[id].deleted)
  }

  predicate Known(t: Table, ms: seq<Message>) {
    forall i :: 0 <= i < |ms| ==> ms[i].id in t && t[ms[i].id].createdAt == ms[i].createdAt
  }

  /** Roots live when the channel was opened and not deleted since. */
  function Surviving(t0: Table, t: Table, channel: nat): set<nat> { Roots(t0, channel) * Roots(t, channel) }

  predicate Older(t: Table, id: nat, ms: seq<Message>)
    requires id in t
  {
    |ms| > 0 && Less(KeyOf(t, id), KeyOfMessage(ms[0]))
  }

  /** Everything surviving from the oldest loaded message on is loaded. */
  predicate Complete(t0: Table, t: Table, channel: nat, ms: seq<Message>) {
    forall id :: id in Surviving(t0, t, channel) && !Older(t, id, ms) ==> HasId(ms, id)
  }

  predicate AllLoaded(t0: Table, t: Table, channel: nat, ms: seq<Message>) {
    forall id :: id in Surviving(t0, t, channel) ==> HasId(ms, id)
  }

  /** An answer on its way: known rows below the oldest loaded one, newest first, missing only
      surviving rows that are older than a full page. */
  predicate GoodPage(t0: Table, t: Table, channel: nat, ms: seq<Message>, page: seq<Message>) {
    && |page| <= PAGE_SIZE && |ms| > 0
    && Known(t, page) && Ascending(Reverse(page))
    && (forall i :: 0 <= i < |page| ==> Less(KeyOfMessage(page[i]), KeyOfMessage(ms[0])))
    && (forall id :: id in Surviving(t0, t, channel) && Older(t, id, ms) && !HasId(page, id) ==>
          |page| == PAGE_SIZE && Less(KeyOf(t, id), KeyOfMessage(page[PAGE_SIZE - 1])))
  }

  predicate Inv(t0: Table, channel: nat, w: World) {
    var ms := Paged(w);
    && Grew(t0, w.table)
    && w.paged <= |w.store.messages| && Known(w.table, w.store.messages)
    && Ascending(ms)
    && Complete(t0, w.table, channel, ms)
    && (w.store.hasMore ==> w.paged > 0)
    && (!w.store.hasMore ==> AllLoaded(t0, w.table, channel, ms) && w.request.Idle?)
    && (w.request.Asked? ==> |ms| > 0 && w.request.before == ms[0].id)
    && (w.request.Answered? ==> GoodPage(t0, w.table, channel, ms, w.request.page))
  }

  // ---- Preservation ----------------------------------------------------------------

  lemma ReversedId(page: seq<Message>, id: nat)
    ensures HasId(Reverse(page), id) <==> HasId(page, id)
  {
    if HasId(page, id) {
      var i :| 0 <= i < |page| && page[i].id == id;
      assert Reverse(page)[|page| - 1 - i].id == id;
    }
  }

  lemma JoinedId(a: seq<Message>, b: seq<Message>, id: nat)
    ensures HasId(a + b, id) <==> HasId(a, id) || HasId(b, id)
  {
    if HasId(a, id) {
      var i :| 0 <= i < |a| && a[i].id == id;
      assert (a + b)[i].id == id;
    }
    if HasId(b, id) {
      var i :| 0 <= i < |b| && b[i].id == id;
      assert (a + b)[|a| + i].id == id;
    }
  }

  /** A page answered from a table is good with respect to that table. */
  lemma ServedPage(t0: Table, t: Table, channel: nat, ms: seq<Message>)
    requires |ms| > 0 && Known(t, ms)
    ensures GoodPage(t0, t, channel, ms, ListMessages(t, channel, Some(ms[0].id), Some(PAGE_SIZE)))
  {
    hide Newest, LiveReplies, Selected, Roots;
    var b := ms[0].id;
    var s := Selected(t, channel, Some(b));
    SelectedIsOlder(t, channel, b);
    var ids := Newest(t, s, PAGE_SIZE);
    var page := ListMessages(t, channel, Some(b), Some(PAGE_SIZE));
    assert KeyOf(t, b) == KeyOfMessage(ms[0]);
    assert forall i :: 0 <= i < |page| ==> page[i].id == ids[i] && KeyOfMessage(page[i]) == KeyOf(t, ids[i]);
    forall id | id in Surviving(t0, t, channel) && Older(t, id, ms) && !HasId(page, id)
      ensures |page| == PAGE_SIZE && Less(KeyOf(t, id), KeyOfMessage(page[PAGE_SIZE - 1]))
    {
      assert id in s;
      FetchedIds(t, ids, id);
    }
  }

  lemma SelectedIsOlder(t: Table, channel: nat, b: nat)
    requires b in t
    ensures forall id :: id in Selected(t, channel, Some(b)) <==>
              id in Roots(t, channel) && Less(KeyOf(t, id), KeyOf(t, b))
  {}

  lemma ReceivedPage(t0: Table, t: Table, channel: nat, ms: seq<Message>, page: seq<Message>)
    requires Known(t, ms) && Ascending(ms) && Complete(t0, t, channel, ms) && GoodPage(t0, t, channel, ms, page)
    ensures var r := Reverse(page) + ms;
            && Known(t, r) && Ascending(r) && Complete(t0, t, channel, r)
            && (|page| != PAGE_SIZE ==> AllLoaded(t0, t, channel, r))
  {
    var r := Reverse(page) + ms;
    forall i, j | 0 <= i < j < |r| ensures Less(KeyOfMessage(r[i]), KeyOfMessage(r[j])) {
      if i < |page| <= j {
        assert r[i] == page[|page| - 1 - i];
        assert j > |page| ==> Less(KeyOfMessage(ms[0]), KeyOfMessage(ms[j - |page|]));
      }
    }
    forall id | id in Surviving(t0, t, channel) && !HasId(r, id)
      ensures Older(t, id, r) && |page| == PAGE_SIZE
    {
      JoinedId(Reverse(page), ms, id);
      ReversedId(page, id);
      assert Older(t, id, ms);
      assert r[0] == page[PAGE_SIZE - 1];
    }
  }

  /** Tables that grow keep what was known, complete and good. */
  lemma GrowthKeeps(t0: Table, t: Table, t': Table, channel: nat, w: World)
    requires Inv(t0, channel, w) && w.table == t
    requires Grew(t, t')
    ensures Inv(t0, channel, w.(table := t'))
  {
    assert Surviving(t0, t', channel) <= Surviving(t0, t, channel);
  }

  /** An announced message stands behind the paged ones. */
  lemma DeliverKeeps(t0: Table, channel: nat, w: World, id: nat)
    requires Inv(t0, channel, w)
    ensures Inv(t0, channel, Advance(w, channel, Deliver(id)))
    ensures Paged(Advance(w, channel, Deliver(id))) == Paged(w)
  {
    hide Ascending, Complete, AllLoaded, GoodPage, Grew;
    var w' := Advance(w, channel, Deliver(id));
    if Reaches(w.table, channel, id) && !HasId(w.store.messages, id) {
      assert w'.store.messages == w.store.messages + [Announcement(w.table, id)];
    }
    assert Paged(w') == Paged(w);
  }

  /** A tombstone keeps the id and the time of its message. */
  lemma RemoveKeepsPlaces(w: World, id: nat)
    ensures var w' := w.(store := Remove(w.store, id));
            && |w'.store.messages| == |w.store.messages| && |Paged(w')| == |Paged(w)|
            && w'.store.hasMore == w.store.hasMore
            && (forall i :: 0 <= i < |w.store.messages| ==>
                  KeyOfMessage(w'.store.messages[i]) == KeyOfMessage(w.store.messages[i])
                  && w'.store.messages[i].id == w.store.messages[i].id)
            && (forall i :: 0 <= i < |Paged(w)| ==> KeyOfMessage(Paged(w')[i]) == KeyOfMessage(Paged(w)[i]))
  {}

  lemma RemoveKeeps(t0: Table, channel: nat, w: World, id: nat)
    requires Inv(t0, channel, w)
    ensures Inv(t0, channel, w.(store := Remove(w.store, id)))
  {
    var ms, ms' := Paged(w), Paged(w.(store := Remove(w.store, id)));
    RemoveKeepsPlaces(w, id);
    hide Remove;
    forall x | HasId(ms, x) ensures HasId(ms', x) {
      var i :| 0 <= i < |ms| && ms[i].id == x;
      assert ms'[i].id == x by { assert KeyOfMessage(ms'[i]) == KeyOfMessage(ms[i]); }
    }
  }

  lemma StepKeeps(t0: Table, channel: nat, w: World, op: Action)
    requires Inv(t0, channel, w)
    ensures Inv(t0, channel, Advance(w, channel, op))
  {
    hide Inv, ListMessages;
    match op {
      case Post(id, row) => GrowthKeeps(t0, w.table, Committed(w.table, id, row), channel, w);
      case Insert(id, row) =>
        if id !in w.table {
          GrowthKeeps(t0, w.table, w.table[id := row], channel, w);
        }
      case Deliver(id) => DeliverKeeps(t0, channel, w, id);
      case Delete(id, notified) =>
        GrowthKeeps(t0, w.table, SoftDelete(w.table, id), channel, w);
        RemoveKeeps(t0, channel, w.(table := SoftDelete(w.table, id)), id);
      case Ask => AskKeeps(t0, channel, w);
      case Serve => ServeKeeps(t0, channel, w);
      case Receive => ReceiveKeeps(t0, channel, w);
      case Fail => FailKeeps(t0, channel, w);
    }
  }

  lemma AskKeeps(t0: Table, channel: nat, w: World)
    requires Inv(t0, channel, w)
    ensures Inv(t0, channel, Advance(w, channel, Ask))
  {
    hide Ascending, Complete, AllLoaded, GoodPage, Grew, Known;
  }

  lemma FailKeeps(t0: Table, channel: nat, w: World)
    requires Inv(t0, channel, w)
    ensures Inv(t0, channel, Advance(w, channel, Fail)) && Paged(Advance(w, channel, Fail)) == Paged(w)
  {
    hide Ascending, Complete, AllLoaded, GoodPage, Grew, Known;
  }

  lemma ServeKeeps(t0: Table, channel: nat, w: World)
    requires Inv(t0, channel, w)
    ensures Inv(t0, channel, Advance(w, channel, Serve))
  {
    hide Ascending, Complete, AllLoaded, GoodPage, Grew, ListMessages;
    if w.request.Asked? {
      ServedPage(t0, w.table, channel, Paged(w));
    }
  }

  lemma ReceiveKeeps(t0: Table, channel: nat, w: World)
    requires Inv(t0, channel, w)
    ensures Inv(t0, channel, Advance(w, channel, Receive))
  {
    hide Ascending, Complete, AllLoaded, GoodPage, Grew;
    if w.request.Answered? {
      ReceivedPage(t0, w.table, channel, Paged(w), w.request.page);
      ReceivedPaged(w, channel);
      KnownPage(t0, channel, w);
    }
  }

  lemma ReceivedPaged(w: World, channel: nat)
    requires w.request.Answered? && w.paged <= |w.store.messages|
    ensures Paged(Advance(w, channel, Receive)) == Reverse(w.request.page) + Paged(w)
  {
    var page, ms := w.request.page, w.store.messages;
    assert (Reverse(page) + ms)[..w.paged + |page|] == Reverse(page) + ms[..w.paged];
  }

  lemma PagedIsKnown(t: Table, w: World)
    requires Known(t, w.store.messages)
    ensures Known(t, Paged(w))
  {}

  lemma KnownPage(t0: Table, channel: nat, w: World)
    requires Inv(t0, channel, w) && w.request.Answered?
    ensures Known(w.table, Reverse(w.request.page) + w.store.messages)
  {
    hide Ascending, Complete, AllLoaded, Grew, Paged;
  }

  /** The first page, oldest first. */
  lemma FirstPage(t: Table, channel: nat)
    ensures var page := ListMessages(t, channel, None, Some(PAGE_SIZE));
            var ms := Reverse(page);
            && Known(t, ms) && Ascending(ms)
            && (forall id :: id in Roots(t, channel) && !HasId(ms, id) ==> |page| == PAGE_SIZE && Older(t, id, ms))
  {
    hide Newest, Roots, LiveReplies;
    var ids := Newest(t, Roots(t, channel), PAGE_SIZE);
    var page := ListMessages(t, channel, None, Some(PAGE_SIZE));
    assert page == Fetch(t, ids);
    assert forall i :: 0 <= i < |page| ==> page[i].id == ids[i] && KeyOfMessage(page[i]) == KeyOf(t, ids[i]);
    forall id | id in Roots(t, channel) && !HasId(Reverse(page), id)
      ensures |page| == PAGE_SIZE && Older(t, id, Reverse(page))
    {
      ReversedId(page, id);
      FetchedIds(t, ids, id);
    }
  }

  lemma OpenedInv(t: Table, channel: nat)
    ensures Inv(t, channel, Opened(t, channel))
  {
    FirstPage(t, channel);
    hide ListMessages;
    var page := ListMessages(t, channel, None, Some(PAGE_SIZE));
    assert Reverse(page) + [] == Reverse(page);
  }

  lemma {:induction false} RunInv(t: Table, channel: nat, ops: seq<Action>)
    ensures Inv(t, channel, After(t, channel, ops))
  {
    if ops == [] {
      OpenedInv(t, channel);
    } else {
      RunInv(t, channel, ops[..|ops| - 1]);
      StepKeeps(t, channel, After(t, channel, ops[..|ops| - 1]), ops[|ops| - 1]);
    }
  }

  /** Whatever happens around it, and in whatever order messages are announced, what the requests
      have brought is strictly increasing in (created_at, id) and without duplicates, and once a
      short page has come in it holds every root message that was live when the channel was opened
      and has not been deleted since. */
  lemma PagingLoadsEverything(t: Table, channel: nat, ops: seq<Action>)
    ensures var w := After(t, channel, ops);
            && Ascending(Paged(w)) && Distinct(Paged(w)) && Paged(w) <= w.store.messages
            && (!w.store.hasMore ==>
                  forall id :: id in Roots(t, channel) ==>
                    id in w.table && (w.table[id].deleted || HasId(Paged(w), id)))
  {
    RunInv(t, channel, ops);
    var w := After(t, channel, ops);
    hide After;
    forall id | id in Roots(t, channel)
      ensures id in w.table && (w.table[id].deleted || id in Surviving(t, w.table, channel))
    {
      assert id in t;
    }
  }

  /** While the client believes there is more and no request is out, one more request brings the
      page before its first message, in front of what it has. */
  lemma OlderPageArrives(t: Table, channel: nat, ops: seq<Action>)
    requires After(t, channel, ops).store.hasMore && After(t, channel, ops).request.Idle?
    ensures var w, w' := After(t, channel, ops), After(t, channel, ops + [Ask] + [Serve] + [Receive]);
            && w.store.messages != []
            && var page := ListMessages(w.table, channel, Some(w.store.messages[0].id), Some(50));
            && w'.store.messages == Reverse(page) + w.store.messages
            && w'.store.hasMore == (|page| == 50) && !w'.store.isLoading
            && w'.table == w.table && w'.request.Idle?
  {
    RunInv(t, channel, ops);
    hide After, ListMessages, Inv, MessageStore.Reverse;
    var w := After(t, channel, ops);
    HasFirst(t, channel, w);
    AfterOne(t, channel, ops, Ask);
    AfterOne(t, channel, ops + [Ask], Serve);
    AfterOne(t, channel, ops + [Ask] + [Serve], Receive);
  }

  /** What the others and the events do: a new message joins the table, a deleted one is marked, and an
      announcement of a root message of the channel is appended unless the client has the message. */
  lemma OtherActions(w: World, channel: nat, id: nat, row: Row, notified: bool)
    ensures id !in w.table ==> Advance(w, channel, Insert(id, row)) == w.(table := w.table[id := row])
    ensures id !in w.table && !row.deleted
            && (forall x :: x in w.table ==>
                  w.table[x].createdAt < row.createdAt || (w.table[x].createdAt == row.createdAt && x < id)) ==>
              Advance(w, channel, Post(id, row)) == w.(table := w.table[id := row])
    ensures id in w.table ==>
              var t := Advance(w, channel, Delete(id, notified));
              && t.table == w.table[id := w.table[id].(deleted := true)]
              && (!notified ==> t.store == w.store)
              && (notified ==>
                    && |t.store.messages| == |w.store.messages|
                    && forall i :: 0 <= i < |w.store.messages| && w.store.messages[i].id == id ==>
                         t.store.messages[i].deleted && t.store.messages[i].content == "")
    ensures id in w.table ==>
              var t, r := Advance(w, channel, Deliver(id)), w.table[id];
              && t.table == w.table
              && t.store.messages
                 == if r.channel == channel && r.thread == None
                       && (forall i :: 0 <= i < |w.store.messages| ==> w.store.messages[i].id != id)
                    then w.store.messages + [Message(id, r.createdAt, None, false, r.content, 0)]
                    else w.store.messages
  {}

  lemma HasFirst(t: Table, channel: nat, w: World)
    requires Inv(t, channel, w) && w.store.hasMore
    ensures w.store.messages != []
  {}

  lemma AfterOne(t: Table, channel: nat, ops: seq<Action>, op: Action)
    ensures After(t, channel, ops + [op]) == Advance(After(t, channel, ops), channel, op)
  {
    assert (ops + [op])[..|ops|] == ops;
  }

  lemma SubsetSize(a: set<nat>, b: set<nat>)
    requires a <= b
    ensures |a| <= |b|
  {
    assert b == a + (b - a);
  }
}
