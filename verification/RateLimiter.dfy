/** The per-connection limiter of the gateway: at most 20 text frames per second. */
module RateLimiter {
  /** Times are in nanoseconds. */
  const SECOND := 1_000_000_000
  const LIMIT := 20
  const MAX_FRAME := 16_384

  predicate Recent(t: int, now: int) { now - t < SECOND }

  /** Vec::retain with the one-second test. */
  function Retain(ts: seq<int>, now: int): (r: seq<int>)
    ensures |r| <= |ts|
  {
    if ts == [] then []
    else Retain(ts[..|ts| - 1], now) + (if Recent(ts[|ts| - 1], now) then [ts[|ts| - 1]] else [])
  }

  /** The list of recent frames and the verdict on every text frame so far. */
  datatype Limiter = Limiter(recent: seq<int>, verdicts: seq<bool>)

  function Offer(l: Limiter, now: int): Limiter {
    var kept := Retain(l.recent, now);
    if |kept| >= LIMIT then Limiter(kept, l.verdicts + [false])
    else Limiter(kept + [now], l.verdicts + [true])
  }

  /** The limiter after text frames that arrived at these times. */
  function After(ts: seq<int>): (l: Limiter)
    ensures |l.verdicts| == |ts|
  {
    if ts == [] then Limiter([], []) else Offer(After(ts[..|ts| - 1]), ts[|ts| - 1])
  }

  // ---- The receive loop ------------------------------------------------------------

  datatype Incoming =
    | Text(len: nat, at: int)
    | Binary(len: nat)
    | Ping(len: nat)
    | Pong(len: nat)
    | Close
    | Error
    | Ended
    | IdleTimeout

  /** What makes the loop stop. */
  predicate Stops(m: Incoming) {
    match m
    case Text(len, _) => len > MAX_FRAME
    case Binary(len) => len > MAX_FRAME
    case Ping(len) => len > MAX_FRAME
    case Pong(len) => len > MAX_FRAME
    case _ => true
  }

  /** A data or control frame of at most 16 KiB. */
  predicate SmallFrame(m: Incoming) { (m.Text? || m.Binary? || m.Ping? || m.Pong?) && m.len <= 16384 }

  /** How many messages are looked at before the one that stops the loop: the first that is not a small
      frame. */
  function Served(ms: seq<Incoming>): (n: nat)
    ensures n <= |ms| && (forall i :: 0 <= i < n ==> !Stops(ms[i])) && (n < |ms| ==> Stops(ms[n]))
    ensures (forall i :: 0 <= i < n ==> SmallFrame(ms[i])) && (n < |ms| ==> !SmallFrame(ms[n]))
  {
    if ms == [] || Stops(ms[0]) then 0 else 1 + Served(ms[1..])
  }

  /** Arrival times of the text frames. */
  function Times(ms: seq<Incoming>): seq<int> {
    if ms == [] then []
    else Times(ms[..|ms| - 1]) + (if ms[|ms| - 1].Text? then [ms[|ms| - 1].at] else [])
  }

  class Connection {
    var lastMessages: seq<int>
    ghost var verdicts: seq<bool>

    ghost function Value(): Limiter
      reads this
    {
      Limiter(lastMessages, verdicts)
    }

    constructor ()
      ensures Value() == After([])
    {
      lastMessages, verdicts := [], [];
    }

    method OnText(now: int) returns (handled: bool)
      modifies this
      ensures Value() == Offer(old(Value()), now)
      ensures verdicts == old(verdicts) + [handled]
    {
      lastMessages := Retain(lastMessages, now);
      if |lastMessages| >= LIMIT {
        verdicts := verdicts + [false];
        return false;
      }
      lastMessages := lastMessages + [now];
      verdicts := verdicts + [true];
      return true;
    }

    /** The receive loop: the frames it hands on are those the limiter accepts. */
    method Receive(ms: seq<Incoming>) returns (handled: seq<int>)
      requires Value() == After([])
      modifies this
      ensures Value() == After(Times(ms[..Served(ms)]))
      ensures handled == Picked(Times(ms[..Served(ms)]), verdicts)
    {
      hide After, Times, Picked, Retain;
      handled := [];
      var i := 0;
      ghost var n := Served(ms);
      NothingYet();
      while i < |ms|
        invariant 0 <= i <= n
        invariant Value() == After(Times(ms[..i]))
        invariant handled == Picked(Times(ms[..i]), verdicts)
      {
        var m := ms[i];
        if Stops(m) {
          assert i == n;
          return;
        }
        TimesSnoc(ms, i);
        if m.Text? {
          ghost var ts := Times(ms[..i]);
          AfterSnoc(ts, m.at);
          ghost var before := verdicts;
          var ok := OnText(m.at);
          PickedSnoc(ts, before, m.at, ok);
          handled := handled + (if ok then [m.at] else []);
        } else {
          assert Times(ms[..i]) + [] == Times(ms[..i]);
        }
        i := i + 1;
      }
      assert i == n;
    }

    static lemma NothingYet()
      ensures Times([]) == [] && Picked([], []) == [] && After([]) == Limiter([], [])
    {}
  }

  lemma TimesSnoc(ms: seq<Incoming>, i: nat)
    requires i < |ms|
    ensures Times(ms[..i + 1]) == Times(ms[..i]) + (if ms[i].Text? then [ms[i].at] else [])
  {
    assert ms[..i + 1][..i] == ms[..i];
  }

  lemma AfterSnoc(ts: seq<int>, t: int)
    ensures After(ts + [t]) == Offer(After(ts), t)
  {
    assert (ts + [t])[..|ts|] == ts;
  }

  /** The times with a positive verdict. */
  function Picked(ts: seq<int>, flags: seq<bool>): seq<int>
    requires |ts| == |flags|
  {
    if ts == [] then []
    else Picked(ts[..|ts| - 1], flags[..|ts| - 1]) + (if flags[|ts| - 1] then [ts[|ts| - 1]] else [])
  }

  lemma RetainSnoc(a: seq<int>, t: int, now: int)
    ensures Retain(a + [t], now) == Retain(a, now) + (if Recent(t, now) then [t] else [])
  {
    assert (a + [t])[..|a|] == a;
  }

  /** One more arrival and its verdict. */
  lemma PickedSnoc(ts: seq<int>, flags: seq<bool>, t: int, flag: bool)
    requires |ts| == |flags|
    ensures Picked(ts + [t], flags + [flag]) == Picked(ts, flags) + (if flag then [t] else [])
  {
    assert (ts + [t])[..|ts|] == ts && (flags + [flag])[..|flags|] == flags;
  }

  lemma RetainPicked(ts: seq<int>, flags: seq<bool>, now: int)
    requires |ts| == |flags| && ts != []
    ensures var n := |ts| - 1;
            Retain(Picked(ts, flags), now)
            == Retain(Picked(ts[..n], flags[..n]), now) + (if flags[n] && Recent(ts[n], now) then [ts[n]] else [])
  {
    var n := |ts| - 1;
    var picked := Picked(ts[..n], flags[..n]);
    RetainSnoc(picked, ts[n], now);
    assert picked + [] == picked;
  }

  // ---- Exactness -------------------------------------------------------------------

  predicate NonDecreasing(ts: seq<int>) { forall i, j :: 0 <= i <= j < |ts| ==> ts[i] <= ts[j] }

  lemma {:induction false} RetainTwice(ts: seq<int>, t: int, u: int)
    requires t <= u
    ensures Retain(Retain(ts, t), u) == Retain(ts, u)
  {
    if ts != [] {
      var front, last := ts[..|ts| - 1], ts[|ts| - 1];
      RetainTwice(front, t, u);
      RetainSnoc(Retain(front, t), last, u);
      assert Retain(front, t) + [] == Retain(front, t);
    }
  }

  lemma OfferAccepts(l: Limiter, now: int)
    ensures var ok := |Retain(l.recent, now)| < LIMIT;
            Offer(l, now) == Limiter(Retain(l.recent, now) + (if ok then [now] else []), l.verdicts + [ok])
  {
    assert Retain(l.recent, now) + [] == Retain(l.recent, now);
  }

  /** After each frame the list holds exactly the accepted arrivals of the last second. */
  lemma {:induction false} RecentIsExact(ts: seq<int>)
    requires NonDecreasing(ts) && ts != []
    ensures After(ts).recent == Retain(Picked(ts, After(ts).verdicts), ts[|ts| - 1])
    ensures |After(ts).recent| <= LIMIT
  {
    var front, now := ts[..|ts| - 1], ts[|ts| - 1];
    var l := After(front);
    assert After(ts).verdicts[..|front|] == l.verdicts;
    var picked, kept := Picked(front, l.verdicts), Retain(l.recent, now);
    assert kept == Retain(picked, now) && |kept| <= LIMIT by {
      if front != [] {
        RecentIsExact(front);
        RetainTwice(picked, front[|front| - 1], now);
      }
    }
    OfferAccepts(l, now);
    assert ts == front + [now];
    PickedSnoc(front, l.verdicts, now, |kept| < LIMIT);
    RetainSnoc(picked, now, now);
    assert kept + [] == kept && picked + [] == picked;
  }

  // ---- No window overflows -----------------------------------------------------------

  predicate InWindow(t: int, x: int) { x <= t < x + SECOND }

  /** Accepted arrivals in the half-open second that starts at `x`. */
  function InSecond(ts: seq<int>, flags: seq<bool>, x: int): nat
    requires |ts| == |flags|
  {
    if ts == [] then 0
    else InSecond(ts[..|ts| - 1], flags[..|ts| - 1], x)
         + (if flags[|ts| - 1] && InWindow(ts[|ts| - 1], x) then 1 else 0)
  }

  lemma {:induction false} WindowFitsRetained(ts: seq<int>, flags: seq<bool>, x: int, now: int)
    requires |ts| == |flags| && InWindow(now, x)
    ensures InSecond(ts, flags, x) <= |Retain(Picked(ts, flags), now)|
  {
    if ts != [] {
      var n := |ts| - 1;
      WindowFitsRetained(ts[..n], flags[..n], x, now);
      RetainPicked(ts, flags, now);
    }
  }

  /** Any half-open window of one second holds at most 20 accepted frames. */
  lemma {:induction false} NoWindowOverflows(ts: seq<int>, x: int)
    requires NonDecreasing(ts)
    ensures InSecond(ts, After(ts).verdicts, x) <= LIMIT
  {
    if ts != [] {
      var n := |ts| - 1;
      assert After(ts).verdicts[..n] == After(ts[..n]).verdicts;
      NoWindowOverflows(ts[..n], x);
      if InWindow(ts[n], x) {
        RecentIsExact(ts);
        WindowFitsRetained(ts, After(ts).verdicts, x, ts[n]);
      }
    }
  }

  // ---- Nothing admissible accepts more -------------------------------------------------

  function Total(flags: seq<bool>): nat {
    if flags == [] then 0 else Total(flags[..|flags| - 1]) + (if flags[|flags| - 1] then 1 else 0)
  }

  /** A choice of frames that never puts more than 20 into one second. */
  ghost predicate Admissible(ts: seq<int>, flags: seq<bool>) {
    |ts| == |flags| && forall x :: InSecond(ts, flags, x) <= LIMIT
  }

  lemma {:induction false} SplitPoint(ts: seq<int>, now: int) returns (m: nat)
    requires NonDecreasing(ts)
    ensures m <= |ts|
    ensures forall i :: 0 <= i < m ==> !Recent(ts[i], now)
    ensures forall i :: m <= i < |ts| ==> Recent(ts[i], now)
  {
    if ts == [] || Recent(ts[0], now) {
      m := 0;
    } else {
      m := SplitPoint(ts[1..], now);
      m := m + 1;
      assert forall i :: 1 <= i < |ts| ==> ts[i] == ts[1..][i - 1];
    }
  }

  /** Frames from position `m` on are exactly the recent ones: counting them is subtracting. */
  lemma {:induction false} RetainedIsSuffix(ts: seq<int>, flags: seq<bool>, now: int, m: nat)
    requires |ts| == |flags| && m <= |ts|
    requires forall i :: 0 <= i < m ==> !Recent(ts[i], now)
    requires forall i :: m <= i < |ts| ==> Recent(ts[i], now)
    ensures |Retain(Picked(ts, flags), now)| == Total(flags) - Total(flags[..m])
  {
    if m == |ts| {
      assert flags[..m] == flags;
      NothingRetained(ts, flags, now);
    } else {
      var n := |ts| - 1;
      RetainedIsSuffix(ts[..n], flags[..n], now, m);
      assert flags[..n][..m] == flags[..m];
      RetainPicked(ts, flags, now);
    }
  }

  lemma {:induction false} NothingRetained(ts: seq<int>, flags: seq<bool>, now: int)
    requires |ts| == |flags| && forall i :: 0 <= i < |ts| ==> !Recent(ts[i], now)
    ensures Retain(Picked(ts, flags), now) == []
  {
    if ts != [] {
      var n := |ts| - 1;
      NothingRetained(ts[..n], flags[..n], now);
      RetainPicked(ts, flags, now);
    }
  }

  lemma {:induction false} WindowIsSuffix(ts: seq<int>, flags: seq<bool>, x: int, m: nat)
    requires |ts| == |flags| && m <= |ts|
    requires forall i :: 0 <= i < m ==> ts[i] < x
    requires forall i :: m <= i < |ts| ==> InWindow(ts[i], x)
    ensures InSecond(ts, flags, x) == Total(flags) - Total(flags[..m])
  {
    if ts == [] {
      assert flags[..m] == flags;
    } else {
      var n := |ts| - 1;
      if m == |ts| {
        assert flags[..m] == flags;
        WindowIsSuffix(ts[..n], flags[..n], x, n);
        assert flags[..n][..n] == flags[..n];
      } else {
        WindowIsSuffix(ts[..n], flags[..n], x, m);
        assert flags[..n][..m] == flags[..m];
      }
    }
  }

  lemma AdmissiblePrefix(ts: seq<int>, flags: seq<bool>)
    requires ts != [] && Admissible(ts, flags)
    ensures Admissible(ts[..|ts| - 1], flags[..|ts| - 1])
  {
    var front, chosen := ts[..|ts| - 1], flags[..|ts| - 1];
    forall x ensures InSecond(front, chosen, x) <= LIMIT {
      assert InSecond(front, chosen, x) <= InSecond(ts, flags, x);
    }
  }

  /** On every prefix of the arrivals, no admissible choice accepts more frames than the limiter. */
  lemma {:induction false} GreedyIsOptimal(ts: seq<int>, flags: seq<bool>, k: nat)
    requires NonDecreasing(ts) && Admissible(ts, flags) && k <= |ts|
    ensures Total(flags[..k]) <= Total(After(ts[..k]).verdicts)
    decreases |ts|, k, 1
  {
    hide After, InSecond, Total;
    if ts == [] {
      assert flags[..k] == [];
      NothingYet();
    } else if k < |ts| {
      var n := |ts| - 1;
      AdmissiblePrefix(ts, flags);
      GreedyIsOptimal(ts[..n], flags[..n], k);
      assert ts[..n][..k] == ts[..k] && flags[..n][..k] == flags[..k];
    } else {
      assert ts[..k] == ts && flags[..k] == flags;
      GreedyOverall(ts, flags);
    }
  }

  lemma NothingYet()
    ensures Total([]) == 0
  {}

  lemma TotalSnoc(flags: seq<bool>)
    requires flags != []
    ensures Total(flags) == Total(flags[..|flags| - 1]) + (if flags[|flags| - 1] then 1 else 0)
  {}

  lemma {:induction false} GreedyOverall(ts: seq<int>, flags: seq<bool>)
    requires NonDecreasing(ts) && Admissible(ts, flags) && ts != []
    ensures Total(flags) <= Total(After(ts).verdicts)
    decreases |ts|, |ts|, 0
  {
    hide After, InSecond, Total;
    var n, verdicts := |ts| - 1, After(ts).verdicts;
    if flags[n] && !verdicts[n] {
      RejectedCatchesUp(ts, flags);
    } else {
      GreedyIsOptimal(ts, flags, n);
      PrefixVerdicts(ts, n);
      TotalSnoc(flags);
      TotalSnoc(verdicts);
    }
  }

  /** The case that matters: the limiter rejects a frame that the other choice takes. */
  lemma {:induction false} RejectedCatchesUp(ts: seq<int>, flags: seq<bool>)
    requires NonDecreasing(ts) && Admissible(ts, flags) && ts != []
    requires flags[|ts| - 1] && !After(ts).verdicts[|ts| - 1]
    ensures Total(flags) <= Total(After(ts).verdicts)
    decreases |ts|, 0
  {
    hide InSecond, Retain, Picked, Total;
    var n, now := |ts| - 1, ts[|ts| - 1];
    var front, l := ts[..n], After(ts[..n]);
    var m := SplitPoint(front, now);
    assert front + [now] == ts;
    FullSecond(front, now, l.verdicts);
    RetainedIsSuffix(front, l.verdicts, now, m);
    WindowIsSuffix(ts, flags, now - SECOND + 1, m);
    AdmissiblePrefix(ts, flags);
    GreedyIsOptimal(front, flags[..n], m);
    PrefixVerdicts(front, m);
    assert flags[..n][..m] == flags[..m];
    assert Total(After(ts).verdicts) == Total(l.verdicts) by {
      assert After(ts).verdicts == l.verdicts + [false];
      assert (l.verdicts + [false])[..n] == l.verdicts;
      TotalSnoc(l.verdicts + [false]);
    }
  }

  /** A rejected frame finds 20 accepted ones in the second before it. */
  lemma FullSecond(front: seq<int>, now: int, verdicts: seq<bool>)
    requires NonDecreasing(front + [now]) && verdicts == After(front).verdicts
    requires |Retain(After(front).recent, now)| >= LIMIT
    ensures |Retain(Picked(front, verdicts), now)| >= LIMIT
  {
    RetainedIsPicked(front, now);
  }

  lemma {:induction false} PrefixVerdicts(ts: seq<int>, m: nat)
    requires m <= |ts|
    ensures After(ts).verdicts[..m] == After(ts[..m]).verdicts
  {
    if m == |ts| {
      assert ts[..m] == ts;
    } else {
      PrefixVerdicts(ts[..|ts| - 1], m);
      assert ts[..|ts| - 1][..m] == ts[..m];
    }
  }

  // ---- Which frames are accepted ----------------------------------------------------------

  /** The accepted arrivals less than a second before `now`. */
  function Before(ts: seq<int>, flags: seq<bool>, now: int): (js: set<int>)
    requires |ts| == |flags|
  {
    set j | 0 <= j < |ts| && flags[j] && now - ts[j] < 1_000_000_000
  }

  lemma {:induction false} CountPicked(ts: seq<int>, flags: seq<bool>, now: int)
    requires |ts| == |flags|
    ensures |Retain(Picked(ts, flags), now)| == |Before(ts, flags, now)|
  {
    if ts != [] {
      hide Retain, Picked, Before;
      var n := |ts| - 1;
      CountPicked(ts[..n], flags[..n], now);
      RetainPicked(ts, flags, now);
      CountBefore(ts, flags, now);
    }
  }

  lemma CountBefore(ts: seq<int>, flags: seq<bool>, now: int)
    requires |ts| == |flags| && ts != []
    ensures var n := |ts| - 1;
            |Before(ts, flags, now)|
            == |Before(ts[..n], flags[..n], now)| + (if flags[n] && Recent(ts[n], now) then 1 else 0)
  {
    var n := |ts| - 1;
    var front := Before(ts[..n], flags[..n], now);
    assert n !in front;
    assert Before(ts, flags, now) == front + (if flags[n] && Recent(ts[n], now) then {n} else {});
  }

  lemma RetainedIsPicked(front: seq<int>, now: int)
    requires NonDecreasing(front + [now])
    ensures Retain(After(front).recent, now) == Retain(Picked(front, After(front).verdicts), now)
  {
    if front != [] {
      assert front[|front| - 1] == (front + [now])[|front| - 1] <= (front + [now])[|front|];
      assert NonDecreasing(front) by {
        assert forall i :: 0 <= i < |front| ==> front[i] == (front + [now])[i];
      }
      RecentIsExact(front);
      RetainTwice(Picked(front, After(front).verdicts), front[|front| - 1], now);
    }
  }

  /** A frame is accepted exactly if fewer than 20 frames were accepted less than a second before it. */
  lemma AcceptedIff(ts: seq<int>, k: nat)
    requires NonDecreasing(ts) && k < |ts|
    ensures var verdicts := After(ts).verdicts;
            verdicts[k] <==> |Before(ts[..k], verdicts[..k], ts[k])| < 20
  {
    hide After, Retain, Picked, Before;
    var front, now := ts[..k], ts[k];
    assert ts[..k + 1] == front + [now];
    assert NonDecreasing(front + [now]) by {
      assert forall i :: 0 <= i < |front + [now]| ==> (front + [now])[i] == ts[i];
    }
    PrefixVerdicts(ts, k);
    PrefixVerdicts(ts, k + 1);
    AfterSnoc(front, now);
    OfferAccepts(After(front), now);
    RetainedIsPicked(front, now);
    CountPicked(front, After(front).verdicts, now);
    assert After(ts).verdicts[k] == After(ts).verdicts[..k + 1][k];
  }
}
