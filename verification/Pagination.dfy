/** Cursor pagination: the server's page query and whole runs of a client that pages back
    through a channel while others post, reply and delete. */
module Pagination {
  import opened Wrappers
  import opened MessageStore

  /** A row of the messages table; its id is the key of the table. */
  datatype Row = Row(channel: nat, createdAt: int, thread: Option<nat>, deleted: bool, content: string)

  type Table = map<nat, Row>

  datatype Key = Key(createdAt: int, id: nat)

  /** The row comparison `(created_at, id) < (created_at, id)`. */
  predicate Less(a: Key, b: Key) {
    a.createdAt < b.createdAt || (a.createdAt == b.createdAt && a.id < b.id)
  }

  function KeyOf(t: Table, id: nat): Key
    requires id in t
  {
    Key(t[id].createdAt, id)
  }

  /** Root messages of the channel that are not deleted. */
  function Roots(t: Table, channel: nat): (r: set<nat>)
    ensures r <= t.Keys
  {
    set id | id in t && t[id].channel == channel && t[id].thread.None? && !t[id].deleted
  }

  function LiveReplies(t: Table, root: nat): nat {
    |set id | id in t && t[id].thread == Some(root) && !t[id].deleted|
  }

  // ---- The page query ----------------------------------------------------------

  /** Rows the WHERE clause selects. The cursor is looked up by id alone: neither its channel
      nor its deleted flag matters, and an unknown id compares as unknown with every row. */
  function Selected(t: Table, channel: nat, before: Option<nat>): set<nat> {
    match before
    case None => Roots(t, channel)
    case Some(b) => set id | id in Roots(t, channel) && b in t && Less(KeyOf(t, id), KeyOf(t, b))
  }

  function Clamp(limit: Option<int>): (k: nat)
    ensures 1 <= k <= 100
    ensures limit.None? ==> k == 50
    ensures limit.Some? && 1 <= limit.value <= 100 ==> k == limit.value
    ensures limit.Some? && limit.value < 1 ==> k == 1
    ensures limit.Some? && limit.value > 100 ==> k == 100
  {
    match limit
    case None => 50
    case Some(l) => if l < 1 then 1 else if l > 100 then 100 else l
  }

  predicate IsNewest(t: Table, s: set<nat>, m: nat)
    requires s <= t.Keys
  {
    m in s && forall x :: x in s && x != m ==> Less(KeyOf(t, x), KeyOf(t, m))
  }

  lemma {:induction false} NewestExists(t: Table, s: set<nat>) returns (m: nat)
    requires s <= t.Keys && s != {}
    ensures IsNewest(t, s, m)
    decreases s
  {
    var x :| x in s;
    if s == {x} {
      m := x;
    } else {
      var y := NewestExists(t, s - {x});
      m := if Less(KeyOf(t, y), KeyOf(t, x)) then x else y;
    }
  }

  /** `page` lists the `k` newest rows of `s`, newest first. */
  predicate IsPage(t: Table, s: set<nat>, k: nat, page: seq<nat>)
    requires s <= t.Keys
  {
    && (forall i :: 0 <= i < |page| ==> page[i] in s)
    && (forall i, j :: 0 <= i < j < |page| ==> Less(KeyOf(t, page[j]), KeyOf(t, page[i])))
    && |page| <= k
    && (|page| < k ==> forall x :: x in s ==> x in page)
    && (forall x, i :: x in s && x !in page && 0 <= i < |page| ==> Less(KeyOf(t, x), KeyOf(t, page[i])))
  }

  lemma PageCons(t: Table, s: set<nat>, k: nat, m: nat, rest: seq<nat>)
    requires s <= t.Keys && k > 0 && IsNewest(t, s, m) && IsPage(t, s - {m}, k - 1, rest)
    ensures IsPage(t, s, k, [m] + rest)
  {
    hide Less;
    var page := [m] + rest;
    assert forall i :: 0 < i < |page| ==> page[i] == rest[i - 1];
    assert forall x :: x in page <==> x == m || x in rest;
  }

  /** ORDER BY created_at DESC, id DESC LIMIT k. */
  function Newest(t: Table, s: set<nat>, k: nat): (page: seq<nat>)
    requires s <= t.Keys
    ensures IsPage(t, s, k, page)
    decreases k
  {
    if k == 0 || s == {} then []
    else
      assert exists m :: IsNewest(t, s, m) by { var m := NewestExists(t, s); }
      var m :| IsNewest(t, s, m);
      var rest := Newest(t, s - {m}, k - 1);
      PageCons(t, s, k, m, rest);
      [m] + rest
  }

  function ToMessage(t: Table, id: nat): Message
    requires id in t
  {
    Message(id, t[id].createdAt, t[id].thread, t[id].deleted, t[id].content, LiveReplies(t, id))
  }

  function Fetch(t: Table, page: seq<nat>): (r: seq<Message>)
    requires forall i :: 0 <= i < |page| ==> page[i] in t
    ensures |r| == |page| && forall i :: 0 <= i < |page| ==> r[i] == ToMessage(t, page[i])
  {
    seq(|page|, i requires 0 <= i < |page| => ToMessage(t, page[i]))
  }

  lemma FetchedIds(t: Table, page: seq<nat>, id: nat)
    requires forall i :: 0 <= i < |page| ==> page[i] in t
    ensures HasId(Fetch(t, page), id) <==> id in page
  {
    if id in page {
      var i :| 0 <= i < |page| && page[i] == id;
      assert Fetch(t, page)[i].id == id;
    }
  }

  function ListMessages(t: Table, channel: nat, before: Option<nat>, limit: Option<int>): seq<Message> {
    Fetch(t, Newest(t, Selected(t, channel, before), Clamp(limit)))
  }

  /** A row the request is about: in the channel, outside threads, not deleted and, if there is a
      cursor, before the row the cursor names. */
  predicate Wanted(t: Table, channel: nat, before: Option<nat>, id: nat) {
    && id in t && t[id].channel == channel && t[id].thread == None && !t[id].deleted
    && (before.Some? ==>
          && before.value in t
          && (|| t[id].createdAt < t[before.value].createdAt
              || (t[id].createdAt == t[before.value].createdAt && id < before.value)))
  }

  /** The message shows the row with its id, and how many undeleted rows answer it. */
  predicate Shows(t: Table, m: Message) {
    && m.id in t
    && m.createdAt == t[m.id].createdAt && m.content == t[m.id].content
    && m.threadId == t[m.id].thread && m.deleted == t[m.id].deleted
    && m.replyCount == |set r | r in t && t[r].thread == Some(m.id) && t[r].deleted == false|
  }

  /** The message was posted after the row `id`, the ids deciding between equal times. */
  predicate NewerThan(t: Table, m: Message, id: nat)
    requires id in t
  {
    t[id].createdAt < m.createdAt || (t[id].createdAt == m.createdAt && id < m.id)
  }

  /** A page holds wanted rows only, as they are in the table, newest first, at most as many as
      asked for; a wanted row is missing only from a full page, and is older than all of it. */
  lemma PageContents(t: Table, channel: nat, before: Option<nat>, limit: Option<int>)
    ensures var page := ListMessages(t, channel, before, limit);
            && (forall i :: 0 <= i < |page| ==> Wanted(t, channel, before, page[i].id) && Shows(t, page[i]))
            && (forall i, j :: 0 <= i < j < |page| ==> NewerThan(t, page[i], page[j].id))
            && |page| <= Clamp(limit)
            && (forall id :: Wanted(t, channel, before, id) && (forall i :: 0 <= i < |page| ==> page[i].id != id) ==>
                  |page| == Clamp(limit) && forall i :: 0 <= i < |page| ==> NewerThan(t, page[i], id))
  {
    hide Newest, Clamp, LiveReplies;
    var s := Selected(t, channel, before);
    SelectedIsWanted(t, channel, before);
    var ids := Newest(t, s, Clamp(limit));
    var page := ListMessages(t, channel, before, limit);
    hide Selected, Wanted, ListMessages;
    forall i | 0 <= i < |page| ensures page[i].id == ids[i] && Shows(t, page[i]) { ShowsRow(t, ids[i]); }
    forall id | id in s && forall i :: 0 <= i < |page| ==> page[i].id != id ensures id !in ids {
      assert forall i :: 0 <= i < |ids| ==> ids[i] == page[i].id;
    }
  }

  lemma SelectedIsWanted(t: Table, channel: nat, before: Option<nat>)
    ensures forall id :: id in Selected(t, channel, before) <==> Wanted(t, channel, before, id)
  {}

  lemma ShowsRow(t: Table, id: nat)
    requires id in t
    ensures Shows(t, ToMessage(t, id))
  {
    assert (set r | r in t && t[r].thread == Some(id) && t[r].deleted == false)
        == (set r | r in t && t[r].thread == Some(id) && !t[r].deleted);
  }

  /** The page is the only list with its properties, so the query is fully determined. */
  lemma {:induction false} PageIsUnique(t: Table, s: set<nat>, k: nat, p: seq<nat>, q: seq<nat>)
    requires s <= t.Keys && IsPage(t, s, k, p) && IsPage(t, s, k, q)
    ensures p == q
    decreases k
  {
    if p == [] || q == [] {
      EmptyPage(t, s, k, p);
      EmptyPage(t, s, k, q);
    } else {
      assert p[0] == q[0] by {
        if p[0] != q[0] {
          HeadIsNewest(t, s, k, p, q[0]);
          HeadIsNewest(t, s, k, q, p[0]);
        }
      }
      TailIsPage(t, s, k, p);
      TailIsPage(t, s, k, q);
      PageIsUnique(t, s - {p[0]}, k - 1, p[1..], q[1..]);
      assert p == [p[0]] + p[1..] && q == [q[0]] + q[1..];
    }
  }

  lemma EmptyPage(t: Table, s: set<nat>, k: nat, p: seq<nat>)
    requires s <= t.Keys && IsPage(t, s, k, p)
    ensures p == [] <==> k == 0 || s == {}
  {
    if p == [] {
      assert k > 0 ==> forall x :: x in s ==> x in p;
    } else {
      assert p[0] in s;
    }
  }

  lemma HeadIsNewest(t: Table, s: set<nat>, k: nat, p: seq<nat>, x: nat)
    requires s <= t.Keys && IsPage(t, s, k, p) && p != [] && x in s && x != p[0]
    ensures Less(KeyOf(t, x), KeyOf(t, p[0]))
  {
    if x in p {
      var i :| 0 <= i < |p| && p[i] == x;
    }
  }

  lemma TailIsPage(t: Table, s: set<nat>, k: nat, p: seq<nat>)
    requires s <= t.Keys && k > 0 && IsPage(t, s, k, p) && p != []
    ensures IsPage(t, s - {p[0]}, k - 1, p[1..])
  {
    var r := p[1..];
    assert forall i :: 0 <= i < |r| ==> r[i] == p[i + 1];
    forall x | x in s && x != p[0] && x in p ensures x in r {
      var i :| 0 <= i < |p| && p[i] == x;
      assert r[i - 1] == x;
    }
  }

  /** The documentation promises an empty page for a cursor of another channel. The query
      does not look at the cursor's channel: the page is empty exactly when no root of the
      requested channel is older than the cursor, whatever channel the cursor is in. */
  lemma CursorChannelIsIgnored(t: Table, channel: nat, b: nat, limit: Option<int>)
    requires b in t
    ensures ListMessages(t, channel, Some(b), limit) == []
            <==> forall id :: id in Roots(t, channel) ==> !Less(KeyOf(t, id), KeyOf(t, b))
  {
    var s := Selected(t, channel, Some(b));
    var page := Newest(t, s, Clamp(limit));
    assert page == [] ==> forall id :: id in s ==> id in page;
    assert page != [] ==> page[0] in s;
    assert forall id :: id in s <==> id in Roots(t, channel) && Less(KeyOf(t, id), KeyOf(t, b));
  }

  lemma ForeignCursorReturnsRows() returns (t: Table, b: nat)
    ensures b in t && t[b].channel != 1 && ListMessages(t, 1, Some(b), Some(PAGE_SIZE)) != []
  {
    t, b := map[7 := Row(1, 10, None, false, "old"), 8 := Row(2, 20, None, false, "elsewhere")], 8;
    CursorChannelIsIgnored(t, 1, b, Some(PAGE_SIZE));
    hide ListMessages;
    assert 7 in Roots(t, 1) && Less(KeyOf(t, 7), KeyOf(t, b));
  }

  lemma UnknownCursorReturnsNothing(t: Table, channel: nat, b: nat, limit: Option<int>)
    requires b !in t
    ensures ListMessages(t, channel, Some(b), limit) == []
  {
    assert Newest(t, {}, Clamp(limit)) == [];
  }
}
