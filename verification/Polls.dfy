/** Polls: one vote per member, replaced by the next one, and the tally shown to everybody. */
module Polls {
  import opened Wrappers

  datatype Choice = Choice(id: nat, text: string)

  datatype OptionDto = OptionDto(id: nat, text: string, votes: nat)

  datatype PollDto = PollDto(options: seq<OptionDto>, totalVotes: nat, userVote: Option<nat>)

  type Votes = map<nat, nat>

  function VotersOf(votes: Votes, option: nat): set<nat> { set u | u in votes && votes[u] == option }

  function VotersOfAny(votes: Votes, options: set<nat>): set<nat> { set u | u in votes && votes[u] in options }

  function Ids(options: seq<Choice>): (ids: seq<nat>)
    ensures |ids| == |options| && forall i :: 0 <= i < |ids| ==> ids[i] == options[i].id
  {
    if options == [] then [] else [options[0].id] + Ids(options[1..])
  }

  predicate Distinct(ids: seq<nat>) { forall i, j :: 0 <= i < j < |ids| ==> ids[i] != ids[j] }

  datatype Answer = Done(dto: PollDto) | NotFound | BadRequest

  /** The sum of the grouped counts: one unit per vote. */
  method Sum(votes: Votes, grouped: map<nat, nat>) returns (total: nat)
    requires grouped == map o | o in votes.Values :: |VotersOf(votes, o)|
    ensures total == |votes|
  {
    var rest := grouped.Keys;
    total := 0;
    assert VotersOfAny(votes, votes.Values - rest) == {};
    while rest != {}
      invariant rest <= votes.Values
      invariant total == |VotersOfAny(votes, votes.Values - rest)|
      decreases |rest|
    {
      var o :| o in rest;
      VotersSplit(votes, votes.Values - rest, o);
      assert votes.Values - (rest - {o}) == (votes.Values - rest) + {o};
      total := total + grouped[o];
      rest := rest - {o};
    }
    assert VotersOfAny(votes, votes.Values - rest) == votes.Keys;
  }

  class Poll {
    const options: seq<Choice>
    var votes: Votes

    constructor (options: seq<Choice>)
      ensures this.options == options && votes == map[]
    {
      this.options, votes := options, map[];
    }

    /** The grouped counts, their sum and the caller's own vote. */
    method FetchPoll(caller: nat) returns (dto: PollDto)
      ensures |dto.options| == |options|
      ensures forall i :: 0 <= i < |options| ==>
                dto.options[i] == OptionDto(options[i].id, options[i].text, |VotersOf(votes, options[i].id)|)
      ensures dto.totalVotes == |votes|
      ensures dto.userVote == if caller in votes then Some(votes[caller]) else None
    {
      var grouped := map o | o in votes.Values :: |VotersOf(votes, o)|;
      var total := Sum(votes, grouped);
      assert forall o :: o !in votes.Values ==> VotersOf(votes, o) == {} by {
        forall o | o !in votes.Values ensures VotersOf(votes, o) == {} {}
      }
      var rows := [];
      for i := 0 to |options|
        invariant |rows| == i
        invariant forall j :: 0 <= j < i ==>
                    rows[j] == OptionDto(options[j].id, options[j].text, |VotersOf(votes, options[j].id)|)
      {
        var o := options[i];
        rows := rows + [OptionDto(o.id, o.text, if o.id in grouped then grouped[o.id] else 0)];
      }
      dto := PollDto(rows, total, if caller in votes then Some(votes[caller]) else None);
    }

    method CastVote(user: nat, option: nat, member: bool) returns (r: Answer)
      modifies this
      ensures r == BadRequest <==> option !in Ids(options)
      ensures r == NotFound <==> option in Ids(options) && !member
      ensures votes == if r.Done? then old(votes)[user := option] else old(votes)
      ensures r.Done? ==> r.dto.totalVotes == |votes| && r.dto.userVote == Some(option)
      ensures r.Done? ==>
                && |r.dto.options| == |options|
                && forall i :: 0 <= i < |options| ==>
                     && r.dto.options[i].id == options[i].id && r.dto.options[i].text == options[i].text
                     && r.dto.options[i].votes == |set u | u in votes && votes[u] == options[i].id|
    {
      if option !in Ids(options) { return BadRequest; }
      if !member { return NotFound; }
      votes := votes[user := option];
      var dto := FetchPoll(user);
      forall o ensures |VotersOf(votes, o)| == |set u | u in votes && votes[u] == o| { Counted(votes, o); }
      return Done(dto);
    }
  }

  lemma Counted(votes: Votes, o: nat)
    ensures |VotersOf(votes, o)| == |set u | u in votes && votes[u] == o|
  {
    assert VotersOf(votes, o) == set u | u in votes && votes[u] == o;
  }

  lemma VotersSplit(votes: Votes, seen: set<nat>, o: nat)
    requires o !in seen
    ensures |VotersOfAny(votes, seen + {o})| == |VotersOfAny(votes, seen)| + |VotersOf(votes, o)|
  {
    assert VotersOfAny(votes, seen + {o}) == VotersOfAny(votes, seen) + VotersOf(votes, o);
  }

  predicate AllListed(votes: Votes, ids: seq<nat>) { forall u :: u in votes ==> votes[u] in ids }

  function SetOf(ids: seq<nat>): set<nat> { set x | x in ids }

  function Total(votes: Votes, ids: seq<nat>): nat {
    if ids == [] then 0 else |VotersOf(votes, ids[0])| + Total(votes, ids[1..])
  }

  lemma {:induction false} TotalCountsVoters(votes: Votes, ids: seq<nat>)
    requires Distinct(ids)
    ensures Total(votes, ids) == |VotersOfAny(votes, SetOf(ids))|
    decreases |ids|
  {
    if ids == [] {
      assert SetOf(ids) == {};
      assert VotersOfAny(votes, {}) == {};
    } else {
      var rest := ids[1..];
      var seen := SetOf(rest);
      TotalCountsVoters(votes, rest);
      assert ids == [ids[0]] + rest;
      assert SetOf(ids) == seen + {ids[0]};
      VotersSplit(votes, seen, ids[0]);
    }
  }

  /** The counts shown add up to the number of voters exactly when every vote is for an option of
      the poll. */
  lemma CountsAddUpIff(votes: Votes, ids: seq<nat>)
    requires Distinct(ids)
    ensures Total(votes, ids) == |votes| <==> AllListed(votes, ids)
  {
    var known := SetOf(ids);
    var voters := VotersOfAny(votes, known);
    TotalCountsVoters(votes, ids);
    assert voters <= votes.Keys && |votes.Keys| == |votes|;
    if |voters| == |votes| {
      SameSize(voters, votes.Keys);
    } else {
      assert voters != votes.Keys;
    }
  }

  lemma SameSize(a: set<nat>, b: set<nat>)
    requires a <= b && |a| == |b|
    ensures a == b
  {
    assert |b| == |a| + |b - a| by { assert b == a + (b - a); }
  }

  /** Ballots cast one after the other; the last one of each voter counts. */
  datatype Ballot = Ballot(user: nat, option: nat)

  function Cast(ids: seq<nat>, ballots: seq<Ballot>): Votes {
    if ballots == [] then map[]
    else
      var last := ballots[|ballots| - 1];
      var before := Cast(ids, ballots[..|ballots| - 1]);
      if last.option in ids then before[last.user := last.option] else before
  }

  lemma {:induction false} VotesAreValid(ids: seq<nat>, ballots: seq<Ballot>)
    ensures AllListed(Cast(ids, ballots), ids)
  {
    if ballots != [] {
      var n := |ballots| - 1;
      VotesAreValid(ids, ballots[..n]);
      var before, votes := Cast(ids, ballots[..n]), Cast(ids, ballots);
      assert votes == if ballots[n].option in ids then before[ballots[n].user := ballots[n].option] else before;
    }
  }

  /** Over every run of votes, the shown counts add up to the number of distinct voters. */
  lemma CountsAddUp(ids: seq<nat>, ballots: seq<Ballot>)
    requires Distinct(ids)
    ensures Total(Cast(ids, ballots), ids) == |Cast(ids, ballots)|
  {
    VotesAreValid(ids, ballots);
    CountsAddUpIff(Cast(ids, ballots), ids);
  }

  /** A first vote adds one to its option; a new vote moves one from the old option to the new one. */
  lemma RevoteMovesOne(votes: Votes, user: nat, option: nat, o: nat)
    ensures |VotersOf(votes[user := option], o)|
            == |VotersOf(votes, o)| + (if o == option then 1 else 0)
               - (if user in votes && votes[user] == o then 1 else 0)
  {
    var after := VotersOf(votes[user := option], o);
    var others := VotersOf(votes, o) - {user};
    if o == option { assert after == others + {user}; } else { assert after == others; }
    if user in votes && votes[user] == o { assert VotersOf(votes, o) == others + {user}; }
    else { assert VotersOf(votes, o) == others; }
  }
}
