/** How many requests a paging client needs. */
module PagingCost {
  import opened Wrappers
  import opened MessageStore
  import opened Pagination
  import opened PagingRuns

  /** Every root that was not there at the start is newer than everything that was. */
  predicate OnlyNewer(t0: Table, t: Table, channel: nat) {
    forall id :: id in Roots(t, channel) && id !in Roots(t0, channel) ==> IsLatest(t0, KeyOf(t, id))
  }

  predicate AllInitial(t0: Table, channel: nat, page: seq<Message>) {
    forall i :: 0 <= i < |page| ==> page[i].id in Roots(t0, channel)
  }

  /** While the client believes there is more, every completed request has brought a full page
      of initial roots. */
  predicate Paid(t0: Table, channel: nat, w: World) {
    var n := |Ids(Paged(w)) * Roots(t0, channel)|;
    && OnlyNewer(t0, w.table, channel)
    && w.fetches > 0
    && PAGE_SIZE * (w.fetches - 1) <= n
    && (w.store.hasMore ==>
          && PAGE_SIZE * w.fetches <= n
          && |Paged(w)| > 0 && Paged(w)[0].id in Roots(t0, channel))
    && (w.request.Answered? ==> AllInitial(t0, channel, w.request.page))
  }

  lemma ServedIsInitial(t0: Table, t: Table, channel: nat, b: nat)
    requires OnlyNewer(t0, t, channel) && Grew(t0, t) && b in Roots(t0, channel)
    ensures AllInitial(t0, channel, ListMessages(t, channel, Some(b), Some(PAGE_SIZE)))
  {
    var ids := Newest(t, Selected(t, channel, Some(b)), PAGE_SIZE);
    forall i | 0 <= i < |ids| ensures ids[i] in Roots(t0, channel) {
      assert ids[i] in Roots(t, channel) && Less(KeyOf(t, ids[i]), KeyOf(t0, b));
    }
  }

  lemma IdsOfJoin(page: seq<Message>, ms: seq<Message>)
    ensures Ids(Reverse(page) + ms) == Ids(page) + Ids(ms)
  {
    forall id ensures id in Ids(Reverse(page) + ms) <==> id in Ids(page) + Ids(ms) {
      JoinedId(Reverse(page), ms, id);
      ReversedId(page, id);
      IdsHas(Reverse(page) + ms, id);
      IdsHas(page, id);
      IdsHas(ms, id);
    }
  }

  lemma IdsHas(ms: seq<Message>, id: nat)
    ensures id in Ids(ms) <==> HasId(ms, id)
  {
    if HasId(ms, id) {
      var i :| 0 <= i < |ms| && ms[i].id == id;
      assert ms[i].id in Ids(ms);
    }
  }

  /** Receiving a good page of initial roots adds its whole length to the initial roots loaded. */
  lemma ReceivePays(t0: Table, t: Table, channel: nat, ms: seq<Message>, page: seq<Message>)
    requires Known(t, ms) && Ascending(ms) && GoodPage(t0, t, channel, ms, page) && AllInitial(t0, channel, page)
    ensures |Ids(Reverse(page) + ms) * Roots(t0, channel)| == |Ids(ms) * Roots(t0, channel)| + |page|
  {
    var roots := Roots(t0, channel);
    IdsOfJoin(page, ms);
    assert Distinct(page) by {
      var r := Reverse(page);
      forall i, j | 0 <= i < j < |page| ensures page[i].id != page[j].id {
        assert Less(KeyOfMessage(r[|page| - 1 - j]), KeyOfMessage(r[|page| - 1 - i]));
        assert t[page[i].id].createdAt == page[i].createdAt && t[page[j].id].createdAt == page[j].createdAt;
      }
    }
    DistinctCount(page);
    BelowIsNotLoaded(t, ms, page);
    assert Ids(page) <= roots;
    assert Ids(Reverse(page) + ms) * roots == Ids(page) + Ids(ms) * roots;
  }

  lemma BelowIsNotLoaded(t: Table, ms: seq<Message>, page: seq<Message>)
    requires Known(t, ms) && Known(t, page) && Ascending(ms) && |ms| > 0
    requires forall i :: 0 <= i < |page| ==> Less(KeyOfMessage(page[i]), KeyOfMessage(ms[0]))
    ensures Ids(page) !! Ids(ms)
  {
    forall i, j | 0 <= i < |page| && 0 <= j < |ms| ensures page[i].id != ms[j].id {
      assert j > 0 ==> Less(KeyOfMessage(ms[0]), KeyOfMessage(ms[j]));
      assert Less(KeyOfMessage(page[i]), KeyOfMessage(ms[j]));
    }
  }

  lemma StepPays(t0: Table, channel: nat, w: World, op: Action)
    requires Inv(t0, channel, w) && Paid(t0, channel, w) && !op.Insert?
    ensures Paid(t0, channel, Advance(w, channel, op))
  {
    hide Inv, ListMessages, OnlyNewer, AllInitial, Ids, Roots;
    match op {
      case Post(id, row) => PostPays(t0, channel, w, id, row);
      case Insert(id, row) =>
      case Deliver(id) => DeliverKeeps(t0, channel, w, id);
      case Delete(id, notified) => DeletePays(t0, channel, w, id, notified);
      case Ask =>
      case Serve =>
        if w.request.Asked? { ServePays(t0, channel, w); }
      case Receive => ReceiveStepPays(t0, channel, w);
      case Fail => FailKeeps(t0, channel, w);
    }
  }

  lemma ServePays(t0: Table, channel: nat, w: World)
    requires Inv(t0, channel, w) && Paid(t0, channel, w) && w.request.Asked?
    ensures Paid(t0, channel, Advance(w, channel, Serve))
  {
    hide ListMessages, AllInitial, Ids, Roots, Ascending, Complete, AllLoaded, GoodPage, Known;
    ServedIsInitial(t0, w.table, channel, w.request.before);
  }

  lemma PostPays(t0: Table, channel: nat, w: World, id: nat, row: Row)
    requires Inv(t0, channel, w) && Paid(t0, channel, w)
    ensures Paid(t0, channel, Advance(w, channel, Post(id, row)))
  {
    hide AllInitial, OnlyNewer, Roots, Ids;
    if Committed(w.table, id, row) != w.table {
      LatestIsOnlyNewer(t0, w.table, channel, id, row);
    }
  }

  lemma LatestIsOnlyNewer(t0: Table, t: Table, channel: nat, id: nat, row: Row)
    requires Grew(t0, t) && OnlyNewer(t0, t, channel) && IsLatest(t, Key(row.createdAt, id)) && id !in t
    ensures OnlyNewer(t0, t[id := row], channel)
  {
    var t' := t[id := row];
    forall x | x in t0 ensures Less(KeyOf(t0, x), Key(row.createdAt, id)) {
      assert KeyOf(t0, x) == KeyOf(t, x);
    }
    forall x | x in Roots(t', channel) && x !in Roots(t0, channel) ensures IsLatest(t0, KeyOf(t', x)) {
      assert x != id ==> x in Roots(t, channel) && KeyOf(t, x) == KeyOf(t', x);
    }
  }

  lemma DeletePays(t0: Table, channel: nat, w: World, id: nat, notified: bool)
    requires Paid(t0, channel, w)
    ensures Paid(t0, channel, Advance(w, channel, Delete(id, notified)))
  {
    hide AllInitial, OnlyNewer, Roots, Ids, SoftDelete;
    DeleteOnlyNewer(t0, w.table, channel, id);
    RemoveKeepsPlaces(w, id);
    SameIds(Paged(w), Paged(w.(store := Remove(w.store, id))));
  }

  lemma DeleteOnlyNewer(t0: Table, t: Table, channel: nat, id: nat)
    requires OnlyNewer(t0, t, channel)
    ensures OnlyNewer(t0, SoftDelete(t, id), channel)
  {
    var t' := SoftDelete(t, id);
    forall x | x in Roots(t', channel) ensures x in Roots(t, channel) && KeyOf(t', x) == KeyOf(t, x) {}
  }

  lemma ReceiveStepPays(t0: Table, channel: nat, w: World)
    requires Inv(t0, channel, w) && Paid(t0, channel, w)
    ensures Paid(t0, channel, Advance(w, channel, Receive))
  {
    hide GoodPage, Known, Ascending, Complete, AllLoaded, Grew, OnlyNewer, ListMessages, Ids, Paged, Roots;
    if w.request.Answered? {
      var ms, page := Paged(w), w.request.page;
      PagedIsKnown(w.table, w);
      ReceivePays(t0, w.table, channel, ms, page);
      ReceivedPaged(w, channel);
      assert page != [] ==> (Reverse(page) + ms)[0] == page[|page| - 1];
    }
  }

  lemma SameIds(a: seq<Message>, b: seq<Message>)
    requires |a| == |b| && forall i :: 0 <= i < |a| ==> KeyOfMessage(a[i]) == KeyOfMessage(b[i])
    ensures Ids(a) == Ids(b)
  {
    assert forall i :: 0 <= i < |a| ==> KeyOfMessage(a[i]).id == KeyOfMessage(b[i]).id;
  }

  lemma {:induction false} RunPays(t: Table, channel: nat, ops: seq<Action>)
    requires forall i :: 0 <= i < |ops| ==> !ops[i].Insert?
    ensures Paid(t, channel, After(t, channel, ops))
  {
    if ops == [] {
      OpenedPays(t, channel);
    } else {
      var before := ops[..|ops| - 1];
      RunInv(t, channel, before);
      RunPays(t, channel, before);
      StepPays(t, channel, After(t, channel, before), ops[|ops| - 1]);
    }
  }

  lemma OpenedPays(t: Table, channel: nat)
    ensures Paid(t, channel, Opened(t, channel))
  {
    var page := ListMessages(t, channel, None, Some(PAGE_SIZE));
    var ids := Newest(t, Roots(t, channel), PAGE_SIZE);
    assert Reverse(page) + [] == Reverse(page);
    forall i | 0 <= i < |page| ensures page[i].id in Roots(t, channel) {
      assert ids[i] in Roots(t, channel);
    }
    FirstPage(t, channel);
    var ms := Reverse(page);
    assert Distinct(ms);
    DistinctCount(ms);
    assert Ids(ms) <= Roots(t, channel);
    assert Ids(ms) * Roots(t, channel) == Ids(ms);
  }

  /** When everything that arrives is newer, a channel that held n roots is exhausted after at
      most n / 50 + 1 answered requests, counting the one that opened it. */
  lemma PagingEnds(t: Table, channel: nat, ops: seq<Action>)
    requires forall i :: 0 <= i < |ops| ==> !ops[i].Insert?
    ensures var w := After(t, channel, ops); var n := |Roots(t, channel)|;
            && w.fetches <= n / PAGE_SIZE + 1
            && (w.fetches == n / PAGE_SIZE + 1 ==> !w.store.hasMore)
  {
    RunPays(t, channel, ops);
    var w := After(t, channel, ops);
    SubsetSize(Ids(Paged(w)) * Roots(t, channel), Roots(t, channel));
  }
}
