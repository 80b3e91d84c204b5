/** What the order of announcements does to the list of a paging client: where it is out of order and
    where it lists a message twice. */
module PagingOrder {
  import opened Wrappers
  import opened MessageStore
  import opened Pagination
  import opened PagingRuns

  /** The announced message is loaded already or newer than the last loaded one. */
  predicate InOrder(w: World, channel: nat, op: Action) {
    var ms := w.store.messages;
    op.Deliver? && Reaches(w.table, channel, op.id) && ms != [] ==>
      HasId(ms, op.id) || Less(KeyOfMessage(ms[|ms| - 1]), KeyOf(w.table, op.id))
  }

  predicate AllInOrder(t: Table, channel: nat, ops: seq<Action>) {
    ops == []
    || (AllInOrder(t, channel, ops[..|ops| - 1])
        && InOrder(After(t, channel, ops[..|ops| - 1]), channel, ops[|ops| - 1]))
  }

  lemma AppendAscendingIff(ms: seq<Message>, m: Message)
    ensures Ascending(ms + [m])
            <==> Ascending(ms) && (ms == [] || Less(KeyOfMessage(ms[|ms| - 1]), KeyOfMessage(m)))
  {
    var r := ms + [m];
    assert r[|ms|] == m;
    if Ascending(r) {
      forall i, j | 0 <= i < j < |ms| ensures Less(KeyOfMessage(ms[i]), KeyOfMessage(ms[j])) {
        assert Less(KeyOfMessage(r[i]), KeyOfMessage(r[j]));
      }
      assert ms != [] ==> Less(KeyOfMessage(r[|ms| - 1]), KeyOfMessage(r[|ms|]));
    }
  }

  lemma PrependAscendingIff(page: seq<Message>, ms: seq<Message>)
    requires Ascending(page) && |ms| > 0
    requires forall i :: 0 <= i < |page| ==> Less(KeyOfMessage(page[i]), KeyOfMessage(ms[0]))
    ensures Ascending(page + ms) <==> Ascending(ms)
  {
    var r := page + ms;
    if Ascending(r) {
      forall i, j | 0 <= i < j < |ms| ensures Less(KeyOfMessage(ms[i]), KeyOfMessage(ms[j])) {
        assert Less(KeyOfMessage(r[|page| + i]), KeyOfMessage(r[|page| + j]));
      }
    }
    if Ascending(ms) {
      forall i, j | 0 <= i < |page| <= j < |r| ensures Less(KeyOfMessage(r[i]), KeyOfMessage(r[j])) {
        assert j > |page| ==> Less(KeyOfMessage(ms[0]), KeyOfMessage(ms[j - |page|]));
      }
    }
  }

  /** The newest-first page of an answer, turned around and compared with the whole list. */
  lemma PageGoesFirst(t0: Table, channel: nat, w: World)
    requires Inv(t0, channel, w) && w.request.Answered?
    ensures var page, ms := Reverse(w.request.page), w.store.messages;
            && |ms| > 0 && Ascending(page)
            && (forall i :: 0 <= i < |page| ==> Less(KeyOfMessage(page[i]), KeyOfMessage(ms[0])))
  {
    hide Ascending, Complete, AllLoaded, Grew, Known;
  }

  lemma AscendingStepIff(t0: Table, channel: nat, w: World, op: Action)
    requires Inv(t0, channel, w)
    ensures Ascending(Advance(w, channel, op).store.messages)
            <==> Ascending(w.store.messages) && (Ascending(w.store.messages) ==> InOrder(w, channel, op))
  {
    hide Inv, ListMessages, Ascending, GoodPage;
    var ms := w.store.messages;
    match op {
      case Deliver(id) =>
        if Reaches(w.table, channel, id) && !HasId(ms, id) {
          AppendAscendingIff(ms, Announcement(w.table, id));
        }
      case Delete(id, notified) => RemovedAscendingIff(w, id);
      case Receive =>
        if w.request.Answered? {
          PageGoesFirst(t0, channel, w);
          PrependAscendingIff(Reverse(w.request.page), ms);
        }
      case _ =>
    }
  }

  lemma RemovedAscendingIff(w: World, id: nat)
    ensures Ascending(Remove(w.store, id).messages) <==> Ascending(w.store.messages)
  {
    RemoveKeepsPlaces(w, id);
    hide Remove, Less;
    var ms, ms' := w.store.messages, Remove(w.store, id).messages;
    if Ascending(ms') {
      forall i, j | 0 <= i < j < |ms| ensures Less(KeyOfMessage(ms[i]), KeyOfMessage(ms[j])) {
        assert Less(KeyOfMessage(ms'[i]), KeyOfMessage(ms'[j]));
      }
    }
    if Ascending(ms) {
      forall i, j | 0 <= i < j < |ms'| ensures Less(KeyOfMessage(ms'[i]), KeyOfMessage(ms'[j])) {
        assert Less(KeyOfMessage(ms[i]), KeyOfMessage(ms[j]));
      }
    }
  }

  /** The whole list is strictly increasing exactly when every message was announced in order. */
  lemma {:induction false} ListAscendsIffInOrder(t: Table, channel: nat, ops: seq<Action>)
    ensures Ascending(After(t, channel, ops).store.messages) <==> AllInOrder(t, channel, ops)
  {
    hide Ascending, InOrder, Advance, Inv;
    if ops == [] {
      FirstPage(t, channel);
      OpenedMessages(t, channel);
    } else {
      var before := ops[..|ops| - 1];
      ListAscendsIffInOrder(t, channel, before);
      RunInv(t, channel, before);
      AscendingStepIff(t, channel, After(t, channel, before), ops[|ops| - 1]);
    }
  }

  lemma OpenedMessages(t: Table, channel: nat)
    ensures var page := ListMessages(t, channel, None, Some(PAGE_SIZE));
            Opened(t, channel).store.messages == Reverse(page) == Paged(Opened(t, channel))
  {
    hide ListMessages;
    var page := ListMessages(t, channel, None, Some(PAGE_SIZE));
    assert Reverse(page) + [] == Reverse(page);
  }

  lemma AscendingIsDistinct(t: Table, ms: seq<Message>)
    requires Ascending(ms) && Known(t, ms)
    ensures Distinct(ms)
  {
    forall i, j | 0 <= i < j < |ms| ensures ms[i].id != ms[j].id {
      assert Less(KeyOfMessage(ms[i]), KeyOfMessage(ms[j]));
    }
  }

  /** With announcements in order the whole list is increasing, duplicate-free and complete. */
  lemma OrderedRunLoadsEverything(t: Table, channel: nat, ops: seq<Action>)
    requires AllInOrder(t, channel, ops)
    ensures var w := After(t, channel, ops);
            && Ascending(w.store.messages) && Distinct(w.store.messages)
            && (!w.store.hasMore ==>
                  forall id :: id in Roots(t, channel) ==>
                    id in w.table && (w.table[id].deleted || HasId(w.store.messages, id)))
  {
    ListAscendsIffInOrder(t, channel, ops);
    PagingLoadsEverything(t, channel, ops);
    var w := After(t, channel, ops);
    hide After, Ascending, Roots, Distinct, AllInOrder, Paged;
    RunInv(t, channel, ops);
    AscendingIsDistinct(w.table, w.store.messages);
    forall id | HasId(Paged(w), id) ensures HasId(w.store.messages, id) {
      var i :| 0 <= i < |Paged(w)| && Paged(w)[i].id == id;
      assert w.store.messages[i].id == id;
    }
  }

  /** Two messages whose announcements cross stay swapped. */
  lemma CrossingAnnouncementsSwap() returns (ops: seq<Action>)
    ensures var ms := After(map[], 1, ops).store.messages;
            && |ms| == 2 && ms[0].id == 2 && ms[1].id == 1
            && Less(KeyOfMessage(ms[1]), KeyOfMessage(ms[0]))
  {
    var a, b := Row(1, 10, None, false, "a"), Row(1, 20, None, false, "b");
    var posts := [Post(1, a), Post(2, b)];
    ops := posts + [Deliver(2)] + [Deliver(1)];
    PostedTwice(a, b);
    hide After;
    RunSnoc(map[], 1, posts, Deliver(2));
    RunSnoc(map[], 1, posts + [Deliver(2)], Deliver(1));
  }

  lemma RunSnoc(t: Table, channel: nat, ops: seq<Action>, op: Action)
    ensures After(t, channel, ops + [op]) == Advance(After(t, channel, ops), channel, op)
  {
    hide Advance;
    assert (ops + [op])[..|ops|] == ops;
  }

  lemma PostedTwice(a: Row, b: Row)
    requires a == Row(1, 10, None, false, "a") && b == Row(1, 20, None, false, "b")
    ensures var w := After(map[], 1, [Post(1, a), Post(2, b)]);
            w.table == map[1 := a, 2 := b] && w.store.messages == []
  {
    UnopenedIsEmpty();
    RunSnoc(map[], 1, [], Post(1, a));
    RunSnoc(map[], 1, [Post(1, a)], Post(2, b));
    assert [] + [Post(1, a)] == [Post(1, a)] && [Post(1, a)] + [Post(2, b)] == [Post(1, a), Post(2, b)];
    hide Opened, Advance;
    assert After(map[], 1, []) == Opened(map[], 1);
    FirstPost(Opened(map[], 1), 1, a);
    FirstPost(After(map[], 1, [Post(1, a)]), 2, b);
  }

  lemma FirstPost(w: World, id: nat, row: Row)
    requires !row.deleted && id !in w.table && IsLatest(w.table, Key(row.createdAt, id))
    ensures Advance(w, 1, Post(id, row)) == w.(table := w.table[id := row])
  {}

  lemma UnopenedIsEmpty()
    ensures Opened(map[], 1).store.messages == [] && Opened(map[], 1).table == map[]
  {
    assert Roots(map[], 1) == {};
  }

  // ---- Duplicates ------------------------------------------------------------------

  /** The announced message is older than everything loaded. */
  predicate Behind(w: World, channel: nat, op: Action) {
    var ms := w.store.messages;
    op.Deliver? && Reaches(w.table, channel, op.id) && ms != []
    && !HasId(ms, op.id) && Less(KeyOf(w.table, op.id), KeyOfMessage(ms[0]))
  }

  /** The messages that were announced while they were older than everything loaded. */
  function Late(t: Table, channel: nat, ops: seq<Action>): set<nat> {
    if ops == [] then {}
    else
      var before, op := ops[..|ops| - 1], ops[|ops| - 1];
      Late(t, channel, before) + (if Behind(After(t, channel, before), channel, op) then {op.id} else {})
  }

  /** The client receives a page with such a message on it. */
  predicate Relists(w: World, late: set<nat>, op: Action) {
    op.Receive? && w.request.Answered? && exists id :: id in late && HasId(w.request.page, id)
  }

  predicate NoneRelisted(t: Table, channel: nat, ops: seq<Action>) {
    ops == []
    || (NoneRelisted(t, channel, ops[..|ops| - 1])
        && !Relists(After(t, channel, ops[..|ops| - 1]), Late(t, channel, ops[..|ops| - 1]), ops[|ops| - 1]))
  }

  /** The late messages are listed, and every message older than the first of the list is one. */
  predicate LateListed(ms: seq<Message>, late: set<nat>) {
    && (forall i :: 0 <= i < |ms| && Less(KeyOfMessage(ms[i]), KeyOfMessage(ms[0])) ==> ms[i].id in late)
    && (forall id :: id in late ==> HasId(ms, id))
  }

  lemma LateStep(t0: Table, channel: nat, w: World, late: set<nat>, op: Action)
    requires Inv(t0, channel, w) && LateListed(w.store.messages, late)
    ensures LateListed(Advance(w, channel, op).store.messages, late + (if Behind(w, channel, op) then {op.id} else {}))
  {
    hide Inv, ListMessages, Ascending, GoodPage, LateListed;
    match op {
      case Deliver(id) =>
        if Reaches(w.table, channel, id) && !HasId(w.store.messages, id) {
          LateAppend(w.store.messages, Announcement(w.table, id), late);
        }
      case Delete(id, notified) =>
        RemoveKeepsPlaces(w, id);
        LateSame(w.store.messages, Remove(w.store, id).messages, late);
      case Receive =>
        if w.request.Answered? {
          PageGoesFirst(t0, channel, w);
          LatePrepend(Reverse(w.request.page), w.store.messages, late);
        }
      case _ =>
    }
    assert late + {} == late;
  }

  lemma LateAppend(ms: seq<Message>, m: Message, late: set<nat>)
    requires LateListed(ms, late)
    ensures var behind := ms != [] && Less(KeyOfMessage(m), KeyOfMessage(ms[0]));
            LateListed(ms + [m], late + (if behind then {m.id} else {}))
  {
    forall id | HasId(ms, id) || id == m.id ensures HasId(ms + [m], id) {
      if id == m.id { assert (ms + [m])[|ms|].id == id; }
      JoinedId(ms, [m], id);
    }
  }

  lemma LateSame(ms: seq<Message>, ms': seq<Message>, late: set<nat>)
    requires LateListed(ms, late) && |ms'| == |ms|
    requires forall i :: 0 <= i < |ms| ==> KeyOfMessage(ms'[i]) == KeyOfMessage(ms[i]) && ms'[i].id == ms[i].id
    ensures LateListed(ms', late)
  {
    hide Less, KeyOfMessage;
    forall id | id in late ensures HasId(ms', id) {
      var i :| 0 <= i < |ms| && ms[i].id == id;
      assert ms'[i].id == id;
    }
  }

  lemma LatePrepend(page: seq<Message>, ms: seq<Message>, late: set<nat>)
    requires LateListed(ms, late) && |ms| > 0 && Ascending(page)
    requires forall i :: 0 <= i < |page| ==> Less(KeyOfMessage(page[i]), KeyOfMessage(ms[0]))
    ensures LateListed(page + ms, late)
  {
    var r := page + ms;
    forall i | 0 <= i < |r| && Less(KeyOfMessage(r[i]), KeyOfMessage(r[0])) ensures r[i].id in late {
      if i >= |page| { assert Less(KeyOfMessage(ms[i - |page|]), KeyOfMessage(ms[0])); }
    }
    forall id | id in late ensures HasId(r, id) { JoinedId(page, ms, id); }
  }

  ghost predicate Apart(a: seq<Message>, b: seq<Message>) { forall id :: HasId(a, id) ==> !HasId(b, id) }

  lemma DistinctJoinIff(a: seq<Message>, b: seq<Message>)
    requires Distinct(a)
    ensures Distinct(a + b) <==> Distinct(b) && Apart(a, b)
  {
    var r := a + b;
    if Distinct(r) {
      forall i, j | 0 <= i < j < |b| ensures b[i].id != b[j].id { assert r[|a| + i].id != r[|a| + j].id; }
      forall id | HasId(a, id) ensures !HasId(b, id) {
        if HasId(b, id) { SharedIsRepeated(a, b, id); }
      }
    }
    if Distinct(b) && Apart(a, b) {
      forall i, j | 0 <= i < j < |r| ensures r[i].id != r[j].id {
        if i < |a| <= j {
          assert HasId(a, a[i].id) && !HasId(b, a[i].id);
          assert b[j - |a|].id != a[i].id;
        }
      }
    }
  }

  /** The messages of a page that are listed already are the late ones. */
  lemma SharedIsLate(t: Table, page: seq<Message>, ms: seq<Message>, late: set<nat>, id: nat)
    requires |ms| > 0 && Known(t, page + ms) && LateListed(ms, late) && HasId(page, id)
    requires forall i :: 0 <= i < |page| ==> Less(KeyOfMessage(page[i]), KeyOfMessage(ms[0]))
    ensures HasId(ms, id) <==> id in late
  {
    if HasId(ms, id) {
      var i :| 0 <= i < |page| && page[i].id == id;
      var j :| 0 <= j < |ms| && ms[j].id == id;
      assert (page + ms)[i] == page[i] && (page + ms)[|page| + j] == ms[j];
      assert KeyOfMessage(ms[j]) == KeyOfMessage(page[i]);
    }
  }

  lemma ReceiveDistinctIff(t0: Table, channel: nat, w: World, late: set<nat>)
    requires Inv(t0, channel, w) && w.request.Answered? && LateListed(w.store.messages, late)
    ensures var page, ms := Reverse(w.request.page), w.store.messages;
            Distinct(page + ms) <==> Distinct(ms) && !Relists(w, late, Receive)
  {
    PageGoesFirst(t0, channel, w);
    KnownPage(t0, channel, w);
    hide Inv, LateListed, Distinct, Less, Known, Ascending, GoodPage;
    var page, ms := Reverse(w.request.page), w.store.messages;
    KnownPart(w.table, page, ms);
    AscendingIsDistinct(w.table, page);
    DistinctJoinIff(page, ms);
    forall id | HasId(page, id) ensures HasId(ms, id) <==> id in late { SharedIsLate(w.table, page, ms, late, id); }
    forall id ensures HasId(page, id) <==> HasId(w.request.page, id) { ReversedId(w.request.page, id); }
  }

  lemma KnownPart(t: Table, page: seq<Message>, ms: seq<Message>)
    requires Known(t, page + ms)
    ensures Known(t, page)
  {
    assert forall i :: 0 <= i < |page| ==> (page + ms)[i] == page[i];
  }

  lemma DistinctStepIff(t0: Table, channel: nat, w: World, late: set<nat>, op: Action)
    requires Inv(t0, channel, w) && LateListed(w.store.messages, late)
    ensures Distinct(Advance(w, channel, op).store.messages) <==> Distinct(w.store.messages) && !Relists(w, late, op)
  {
    hide Inv, ListMessages, Ascending, GoodPage, LateListed, Distinct;
    var ms := w.store.messages;
    match op {
      case Deliver(id) =>
        if Reaches(w.table, channel, id) && !HasId(ms, id) {
          AppendDistinctIff(ms, Announcement(w.table, id));
        }
      case Delete(id, notified) =>
        RemoveKeepsPlaces(w, id);
        SameDistinct(ms, Remove(w.store, id).messages);
      case Receive => if w.request.Answered? { ReceiveDistinctIff(t0, channel, w, late); }
      case _ =>
    }
  }

  lemma AppendDistinctIff(ms: seq<Message>, m: Message)
    requires !HasId(ms, m.id)
    ensures Distinct(ms + [m]) <==> Distinct(ms)
  {
    if Distinct(ms + [m]) {
      forall i, j | 0 <= i < j < |ms| ensures ms[i].id != ms[j].id { assert (ms + [m])[i].id != (ms + [m])[j].id; }
    }
  }

  lemma SameDistinct(ms: seq<Message>, ms': seq<Message>)
    requires |ms'| == |ms| && forall i :: 0 <= i < |ms| ==> ms'[i].id == ms[i].id
    ensures Distinct(ms') <==> Distinct(ms)
  {
    if Distinct(ms') {
      forall i, j | 0 <= i < j < |ms| ensures ms[i].id != ms[j].id { assert ms'[i].id != ms'[j].id; }
    }
  }

  /** The list is free of duplicates exactly when no message that was announced while older than
      everything loaded is on a page received later. Crossing announcements alone do no harm. */
  lemma {:induction false} ListIsDistinctIff(t: Table, channel: nat, ops: seq<Action>)
    ensures Distinct(After(t, channel, ops).store.messages) <==> NoneRelisted(t, channel, ops)
    ensures LateListed(After(t, channel, ops).store.messages, Late(t, channel, ops))
  {
    hide Behind, Relists, Advance, Inv, Distinct, LateListed;
    if ops == [] {
      OpenedIsDistinct(t, channel);
    } else {
      var before := ops[..|ops| - 1];
      ListIsDistinctIff(t, channel, before);
      RunInv(t, channel, before);
      LateStep(t, channel, After(t, channel, before), Late(t, channel, before), ops[|ops| - 1]);
      DistinctStepIff(t, channel, After(t, channel, before), Late(t, channel, before), ops[|ops| - 1]);
    }
  }

  lemma OpenedIsDistinct(t: Table, channel: nat)
    ensures var ms := Opened(t, channel).store.messages; Distinct(ms) && LateListed(ms, {})
  {
    hide ListMessages, Roots;
    FirstPage(t, channel);
    OpenedMessages(t, channel);
    AscendingIsDistinct(t, Opened(t, channel).store.messages);
  }

  /** No message is listed twice in a run without such announcements. */
  lemma {:induction false} NoDuplicates(t: Table, channel: nat, ops: seq<Action>)
    requires Late(t, channel, ops) == {}
    ensures Distinct(After(t, channel, ops).store.messages)
  {
    NeverLate(t, channel, ops);
    ListIsDistinctIff(t, channel, ops);
  }

  lemma {:induction false} NeverLate(t: Table, channel: nat, ops: seq<Action>)
    requires Late(t, channel, ops) == {}
    ensures NoneRelisted(t, channel, ops)
  {
    hide Behind, After;
    if ops != [] {
      NeverLate(t, channel, ops[..|ops| - 1]);
    }
  }

  /** The ids of the page before `b`. */
  function PageIds(t: Table, channel: nat, b: nat): (ids: seq<nat>)
    ensures forall i :: 0 <= i < |ids| ==> ids[i] in t && ids[i] in Selected(t, channel, Some(b))
    ensures forall x :: x in Selected(t, channel, Some(b)) && |ids| < PAGE_SIZE ==> x in ids
  {
    Newest(t, Selected(t, channel, Some(b)), PAGE_SIZE)
  }

  /** The other case: an announcement older than the whole list is shown at once, and again when
      the page with the message arrives. */
  lemma LateAnnouncementIsListedTwice(t0: Table, channel: nat, w: World, id: nat)
    requires Inv(t0, channel, w) && w.request.Idle? && w.store.hasMore && |w.store.messages| > 0
    requires id in PageIds(w.table, channel, w.store.messages[0].id)
    ensures var delivered := Advance(w, channel, Deliver(id));
            var answered := Advance(Advance(delivered, channel, Ask), channel, Serve);
            !Distinct(Advance(answered, channel, Receive).store.messages)
  {
    hide Newest, Selected, Inv;
    DeliverKeeps(t0, channel, w, id);
    var page := PageIds(w.table, channel, w.store.messages[0].id);
    assert id in Selected(w.table, channel, Some(w.store.messages[0].id));
    SelectedReaches(w.table, channel, w.store.messages[0].id, id);
    var w1 := Advance(w, channel, Deliver(id));
    assert HasId(w1.store.messages, id) by {
      if !HasId(w.store.messages, id) { assert w1.store.messages[|w.store.messages|].id == id; }
    }
    var answer := ListMessages(w.table, channel, Some(w.store.messages[0].id), Some(PAGE_SIZE));
    FetchedIds(w.table, page, id);
    assert HasId(answer, id);
    ReversedId(answer, id);
    var final := Advance(Advance(Advance(w1, channel, Ask), channel, Serve), channel, Receive);
    assert final.store.messages == Reverse(answer) + w1.store.messages;
    SharedIsRepeated(Reverse(answer), w1.store.messages, id);
  }

  /** `n` messages of channel 1, oldest first. */
  function Several(n: nat): (t: Table)
    ensures |t| == n && forall i: nat :: (i in t <==> i < n) && (i in t ==> t[i] == Row(1, i, None, false, ""))
  {
    if n == 0 then map[] else Several(n - 1)[n - 1 := Row(1, n - 1, None, false, "")]
  }

  /** A channel with one message more than a page is enough: announce the message that did not fit. */
  lemma LateAnnouncementExists()
    ensures var t := Several(PAGE_SIZE + 1);
            var w := Opened(t, 1);
            && Inv(t, 1, w) && w.request.Idle? && w.store.hasMore && |w.store.messages| > 0
            && 0 in PageIds(t, 1, w.store.messages[0].id)
  {
    hide Inv, PageIds, Several, ListMessages, Newest, Roots, Selected, LiveReplies;
    var t := Several(PAGE_SIZE + 1);
    var w, ids := Opened(t, 1), Newest(t, Roots(t, 1), PAGE_SIZE);
    OpenedInv(t, 1);
    OpenedMessages(t, 1);
    FirstIds(t);
    FullFirstPage(ids);
    OnlyTheOldestLeft(ids[PAGE_SIZE - 1]);
  }

  lemma FirstIds(t: Table)
    ensures var page, ids := ListMessages(t, 1, None, Some(PAGE_SIZE)), Newest(t, Roots(t, 1), PAGE_SIZE);
            |page| == |ids| && forall i :: 0 <= i < |ids| ==> page[i].id == ids[i]
  {
    hide Newest, Roots;
  }

  function SetOf(ids: seq<nat>): set<nat> { set x | x in ids }

  lemma FullFirstPage(ids: seq<nat>)
    requires var t := Several(PAGE_SIZE + 1); ids == Newest(t, Roots(t, 1), PAGE_SIZE)
    ensures |ids| == PAGE_SIZE && 0 < ids[PAGE_SIZE - 1] <= PAGE_SIZE
  {
    hide Newest, Several;
    var t := Several(PAGE_SIZE + 1);
    assert forall i :: i in t ==> i in Roots(t, 1);
    SetOfPage(ids);
    assert |t.Keys| == PAGE_SIZE + 1;
    if t.Keys <= SetOf(ids) {
      SubsetSize(t.Keys, SetOf(ids));
    } else {
      var x :| x in t.Keys && x !in SetOf(ids);
      assert |ids| == PAGE_SIZE;
      assert Less(KeyOf(t, x), KeyOf(t, ids[PAGE_SIZE - 1]));
    }
  }

  lemma {:induction false} SetOfPage(ids: seq<nat>)
    ensures |SetOf(ids)| <= |ids|
  {
    if ids != [] {
      var front, n := ids[..|ids| - 1], |ids| - 1;
      SetOfPage(front);
      assert ids == front + [ids[n]];
      assert SetOf(ids) == SetOf(front) + {ids[n]};
    }
  }

  lemma OnlyTheOldestLeft(b: nat)
    requires 0 < b <= PAGE_SIZE
    ensures 0 in PageIds(Several(PAGE_SIZE + 1), 1, b)
  {
    hide Several, Newest;
    var t := Several(PAGE_SIZE + 1);
    var s, page := Selected(t, 1, Some(b)), PageIds(t, 1, b);
    assert 0 in Roots(t, 1) && Less(KeyOf(t, 0), KeyOf(t, b)) && 0 in s;
    if |page| == PAGE_SIZE {
      Descends(t, s, page, PAGE_SIZE - 1);
      assert page[0] in s && page[0] < b;
    }
  }

  lemma {:induction false} Descends(t: Table, s: set<nat>, page: seq<nat>, i: nat)
    requires t == Several(PAGE_SIZE + 1) && s <= t.Keys && IsPage(t, s, PAGE_SIZE, page) && i < |page|
    ensures page[i] <= page[0] - i
  {
    hide Several;
    if i > 0 {
      Descends(t, s, page, i - 1);
      assert Less(KeyOf(t, page[i]), KeyOf(t, page[i - 1]));
    }
  }

  lemma SelectedReaches(t: Table, channel: nat, b: nat, id: nat)
    requires id in Selected(t, channel, Some(b))
    ensures Reaches(t, channel, id)
  {}

  lemma SharedIsRepeated(a: seq<Message>, b: seq<Message>, id: nat)
    requires HasId(a, id) && HasId(b, id)
    ensures !Distinct(a + b)
  {
    var i :| 0 <= i < |a| && a[i].id == id;
    var j :| 0 <= j < |b| && b[j].id == id;
    assert (a + b)[i].id == (a + b)[|a| + j].id;
  }
}
