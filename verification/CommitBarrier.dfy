/** The barrier at which the ranks of one replica group decide together whether to commit. */
module CommitBarrier {
  import opened Protocol

  datatype Vote = Vote(rank: int, yes: bool)

  function Ranks(votes: seq<Vote>): set<int> {
    set i | 0 <= i < |votes| :: votes[i].rank
  }

  function NoVoters(votes: seq<Vote>): set<int> {
    set i | 0 <= i < |votes| && !votes[i].yes :: votes[i].rank
  }

  // ----- The specification: how a history of requests splits into rounds

  /** The requests of the round that is still open. */
  ghost function Open(h: seq<Vote>, worldSize: nat): seq<Vote> {
    if h == [] then []
    else
      var round := Open(h[..|h| - 1], worldSize) + [h[|h| - 1]];
      if |Ranks(round)| == worldSize then [] else round
  }

  /** The rounds completed so far. */
  ghost function Rounds(h: seq<Vote>, worldSize: nat): seq<seq<Vote>> {
    if h == [] then []
    else
      var earlier := Rounds(h[..|h| - 1], worldSize);
      var round := Open(h[..|h| - 1], worldSize) + [h[|h| - 1]];
      if |Ranks(round)| == worldSize then earlier + [round] else earlier
  }

  ghost function Flatten(rounds: seq<seq<Vote>>): seq<Vote> {
    if rounds == [] then [] else Flatten(rounds[..|rounds| - 1]) + rounds[|rounds| - 1]
  }

  ghost predicate Unanimous(round: seq<Vote>) {
    forall k :: 0 <= k < |round| ==> round[k].yes
  }

  /** The number of the round that request `i` belongs to. */
  ghost function RoundOf(h: seq<Vote>, worldSize: nat, i: nat): nat
    requires i < |h|
  {
    |Rounds(h[..i], worldSize)|
  }

  /** The answer request `i` has received after history `h`. */
  ghost function Answer(h: seq<Vote>, worldSize: nat, i: nat): Option<bool>
    requires i < |h|
  {
    var r := RoundOf(h, worldSize, i);
    if r < |Rounds(h, worldSize)| then Some(Unanimous(Rounds(h, worldSize)[r])) else None
  }

  // ----- The server

  /** A broadcast channel: whoever subscribed receives what is sent on it. */
  class Channel {
    var sent: seq<bool>

    constructor ()
      ensures sent == []
    {
      sent := [];
    }

    method Send(value: bool)
      modifies this
      ensures sent == old(sent) + [value]
    {
      sent := sent + [value];
    }
  }

  /** `rounds`, `open` and `tickets` are how `h` splits into rounds. */
  ghost predicate Splits(h: seq<Vote>, w: nat, rounds: seq<seq<Vote>>, open: seq<Vote>, tickets: seq<nat>) {
    && rounds == Rounds(h, w) && open == Open(h, w) && |tickets| == |h|
    && forall i :: 0 <= i < |h| ==> tickets[i] == RoundOf(h, w, i)
  }

  class Server {
    const worldSize: nat
    var failures: set<int>
    var count: set<int>
    var channel: Channel
    /** All requests so far and how they split into rounds. */
    ghost var history: seq<Vote>
    ghost var rounds: seq<seq<Vote>>
    ghost var open: seq<Vote>
    ghost var tickets: seq<nat>
    /** The channel each request subscribed to, and all channels ever used, one per round. */
    ghost var subscribed: seq<Channel>
    ghost var channels: seq<Channel>

    ghost predicate Valid()
      reads this, channels
    {
      && ChannelsMatch() && VotesMatch()
      && Splits(history, worldSize, rounds, open, tickets)
    }

    /** Each finished round's decision is on its own channel, and each request listens to its round's channel. */
    ghost predicate ChannelsMatch()
      reads this, channels
    {
      && |channels| == |rounds| + 1 && channel == channels[|rounds|]
      && channel.sent == []
      && (forall c :: 0 <= c < |rounds| ==> channels[c] != channel && channels[c].sent == [Unanimous(rounds[c])])
      && |subscribed| == |tickets|
      && (forall i :: 0 <= i < |tickets| ==> tickets[i] <= |rounds| && subscribed[i] == channels[tickets[i]])
    }

    ghost predicate VotesMatch()
      reads this
    {
      count == Ranks(open) && failures == NoVoters(open)
    }

    constructor (worldSize: nat)
      ensures Valid() && this.worldSize == worldSize && history == []
      ensures fresh(channel)
    {
      this.worldSize := worldSize;
      failures, count := {}, {};
      var first := new Channel();
      channel := first;
      history, rounds, open, tickets, subscribed, channels := [], [], [], [], [], [first];
    }

    /** One request; the caller then waits for the first value sent on the returned channel. */
    method ShouldCommit(rank: int, yes: bool) returns (rx: Channel)
      requires Valid()
      modifies this, channel
      ensures Valid()
      ensures history == old(history) + [Vote(rank, yes)]
      ensures subscribed == old(subscribed) + [rx]
      ensures old(channels) <= channels && fresh(set c | c in channels && c !in old(channels))
    {
      OneMoreTicket(history, Vote(rank, yes), worldSize, rounds, open, tickets);
      rx := Enlist(rank, yes);
      if |count| == worldSize {
        Close(|failures| == 0);
      }
    }

    method Enlist(rank: int, yes: bool) returns (rx: Channel)
      requires ChannelsMatch() && VotesMatch()
      modifies this
      ensures ChannelsMatch() && VotesMatch()
      ensures rx == channel == old(channel) && channels == old(channels) && rounds == old(rounds)
      ensures history == old(history) + [Vote(rank, yes)] && open == old(open) + [Vote(rank, yes)]
      ensures tickets == old(tickets) + [|rounds|] && subscribed == old(subscribed) + [rx]
    {
      ghost var vote := Vote(rank, yes);
      RanksOfOneMore(open, vote);
      if !yes {
        failures := failures + {rank};
      }
      count := count + {rank};
      rx := channel;
      history, open := history + [vote], open + [vote];
      tickets, subscribed := tickets + [|rounds|], subscribed + [rx];
    }

    /** Answers the round and starts the next one on a new channel. */
    method Close(decision: bool)
      requires ChannelsMatch() && decision == Unanimous(open)
      modifies this, channel
      ensures ChannelsMatch() && VotesMatch()
      ensures rounds == old(rounds) + [old(open)] && open == []
      ensures history == old(history) && tickets == old(tickets) && subscribed == old(subscribed)
      ensures fresh(channel) && channels == old(channels) + [channel]
    {
      channel.Send(decision);
      count := {};
      failures := {};
      channel := new Channel();
      rounds, open, channels := rounds + [open], [], channels + [channel];
    }

    /** What a waiting request receives, once something was sent to it. */
    method Receive(ghost i: nat, rx: Channel) returns (answer: Option<bool>)
      requires Valid() && i < |history| && rx == subscribed[i]
      ensures answer == Answer(history, worldSize, i)
    {
      answer := if rx.sent == [] then None else Some(rx.sent[0]);
    }
  }

  lemma OneMoreTicket(h: seq<Vote>, v: Vote, w: nat, rounds: seq<seq<Vote>>, open: seq<Vote>, tickets: seq<nat>)
    requires Splits(h, w, rounds, open, tickets)
    ensures Ranks(open + [v]) == Ranks(open) + {v.rank}
    ensures NoVoters(open + [v]) == if v.yes then NoVoters(open) else NoVoters(open) + {v.rank}
    ensures |NoVoters(open + [v])| == 0 <==> Unanimous(open + [v])
    ensures var round := open + [v];
            if |Ranks(round)| == w then Splits(h + [v], w, rounds + [round], [], tickets + [|rounds|])
            else Splits(h + [v], w, rounds, round, tickets + [|rounds|])
  {
    OneMoreRequest(h, v, w);
  }

  lemma RanksOfOneMore(votes: seq<Vote>, v: Vote)
    ensures Ranks(votes + [v]) == Ranks(votes) + {v.rank}
    ensures NoVoters(votes + [v]) == NoVoters(votes) + (if v.yes then {} else {v.rank})
  {
    var all := votes + [v];
    assert all[|votes|] == v;
    forall r ensures r in Ranks(all) <==> r in Ranks(votes) + {v.rank} {
      if r in Ranks(votes) {
        var i :| 0 <= i < |votes| && votes[i].rank == r;
        assert all[i] == votes[i];
      }
    }
    forall r ensures r in NoVoters(all) <==> r in NoVoters(votes) + (if v.yes then {} else {v.rank}) {
      if r in NoVoters(votes) {
        var i :| 0 <= i < |votes| && !votes[i].yes && votes[i].rank == r;
        assert all[i] == votes[i];
      }
    }
  }

  lemma NobodyRefused(round: seq<Vote>)
    ensures |NoVoters(round)| == 0 <==> Unanimous(round)
  {
    if !Unanimous(round) {
      var k :| 0 <= k < |round| && !round[k].yes;
      assert round[k].rank in NoVoters(round);
    }
    if Unanimous(round) {
      assert NoVoters(round) == {};
    }
  }

  lemma OneMoreRequest(h: seq<Vote>, v: Vote, w: nat)
    ensures var round := Open(h, w) + [v];
            && Ranks(round) == Ranks(Open(h, w)) + {v.rank}
            && NoVoters(round) == NoVoters(Open(h, w)) + (if v.yes then {} else {v.rank})
            && (|NoVoters(round)| == 0 <==> Unanimous(round))
            && Open(h + [v], w) == (if |Ranks(round)| == w then [] else round)
            && Rounds(h + [v], w) == (if |Ranks(round)| == w then Rounds(h, w) + [round] else Rounds(h, w))
    ensures forall i :: 0 <= i < |h| ==> RoundOf(h + [v], w, i) == RoundOf(h, w, i)
    ensures RoundOf(h + [v], w, |h|) == |Rounds(h, w)|
  {
    assert (h + [v])[..|h|] == h;
    RanksOfOneMore(Open(h, w), v);
    NobodyRefused(Open(h, w) + [v]);
    PrefixRounds(h, v, w);
  }

  lemma PrefixRounds(h: seq<Vote>, v: Vote, w: nat)
    ensures forall i :: 0 <= i < |h| ==> RoundOf(h + [v], w, i) == RoundOf(h, w, i)
    ensures RoundOf(h + [v], w, |h|) == |Rounds(h, w)|
  {
    assert (h + [v])[..|h|] == h;
    forall i | 0 <= i < |h| ensures RoundOf(h + [v], w, i) == RoundOf(h, w, i) {
      assert (h + [v])[..i] == h[..i];
    }
  }

  // ----- What a history of requests looks like

  /** Every request is in exactly one round, in order: the completed rounds, then the open one. */
  lemma {:induction false} RequestsSplitIntoRounds(h: seq<Vote>, w: nat)
    ensures Flatten(Rounds(h, w)) + Open(h, w) == h
  {
    if h != [] {
      var n := |h| - 1;
      RequestsSplitIntoRounds(h[..n], w);
      var round := Open(h[..n], w) + [h[n]];
      var earlier := Rounds(h[..n], w);
      assert h == h[..n] + [h[n]];
      assert (earlier + [round])[..|earlier|] == earlier;
      assert Flatten(earlier) + round == h;
    }
  }

  /** A completed round holds requests of exactly `w` ranks, and was complete no earlier. */
  lemma {:induction false} RoundsHoldAllRanks(h: seq<Vote>, w: nat, c: nat)
    requires c < |Rounds(h, w)|
    ensures var round := Rounds(h, w)[c];
            && round != [] && |Ranks(round)| == w
            && ((forall k :: 0 <= k < |h| ==> 0 <= h[k].rank < w) ==> forall r :: r in Ranks(round) <==> 0 <= r < w)
  {
    var n := |h| - 1;
    if c < |Rounds(h[..n], w)| {
      RoundsHoldAllRanks(h[..n], w, c);
    } else {
      var round := Rounds(h, w)[c];
      if forall k :: 0 <= k < |h| ==> 0 <= h[k].rank < w {
        OpenIsSuffix(h[..n], w);
        assert forall k :: 0 <= k < |round| ==> round[k] in h;
        AllOf(Ranks(round), w);
      }
    }
  }

  lemma {:induction false} AllOf(s: set<int>, w: nat)
    requires |s| == w && forall r :: r in s ==> 0 <= r < w
    ensures forall r :: r in s <==> 0 <= r < w
  {
    if w > 0 {
      if w - 1 in s {
        AllOf(s - {w - 1}, w - 1);
      } else {
        TooMany(s, w - 1);
      }
    }
  }

  lemma {:induction false} TooMany(s: set<int>, w: nat)
    requires forall r :: r in s ==> 0 <= r < w
    ensures |s| <= w
  {
    if w > 0 {
      TooMany(s - {w - 1}, w - 1);
    } else {
      assert forall r :: r !in s;
      assert s == {};
    }
  }

  lemma {:induction false} OpenIsSuffix(h: seq<Vote>, w: nat)
    ensures |Open(h, w)| <= |h| && Open(h, w) == h[|h| - |Open(h, w)|..]
    ensures forall k :: 0 <= k < |Open(h, w)| ==> Open(h, w)[k] in h
  {
    if h != [] {
      OpenIsSuffix(h[..|h| - 1], w);
    }
  }

  lemma {:induction false} RoundsOnlyGrow(h: seq<Vote>, w: nat, i: nat)
    requires i <= |h|
    ensures Rounds(h[..i], w) <= Rounds(h, w)
    decreases |h|
  {
    if i < |h| {
      RoundsOnlyGrow(h[..|h| - 1], w, i);
      assert h[..|h| - 1][..i] == h[..i];
    } else {
      assert h[..i] == h;
    }
  }

  lemma {:induction false} NoGrowthMeansOneRound(h: seq<Vote>, w: nat, i: nat)
    requires i <= |h| && |Rounds(h[..i], w)| == |Rounds(h, w)|
    ensures Open(h, w) == Open(h[..i], w) + h[i..]
    decreases |h|
  {
    if i < |h| {
      var n := |h| - 1;
      assert h[..n][..i] == h[..i];
      RoundsOnlyGrow(h[..n], w, i);
      NoGrowthMeansOneRound(h[..n], w, i);
      assert h[i..] == h[..n][i..] + [h[n]];
    } else {
      assert h[..i] == h;
    }
  }

  /** The round of an answered request is one contiguous stretch of the history, with request `i` in it. */
  ghost predicate Stretch(h: seq<Vote>, w: nat, i: nat, s: nat, e: nat)
  {
    && s <= i < e <= |h|
    && RoundOf(h, w, i) < |Rounds(h, w)|
    && Rounds(h, w)[RoundOf(h, w, i)] == h[s..e]
    && forall k :: 0 <= k < |h| ==> (RoundOf(h, w, k) == RoundOf(h, w, i) <==> s <= k < e)
  }

  lemma {:induction false} StretchExists(h: seq<Vote>, w: nat, i: nat)
    requires i < |h| && RoundOf(h, w, i) < |Rounds(h, w)|
    ensures exists s: nat, e: nat :: Stretch(h, w, i, s, e)
    decreases |h|
  {
    hide Open, Ranks;
    var n := |h| - 1;
    assert h == h[..n] + [h[n]];
    OneMoreRequest(h[..n], h[n], w);
    if RoundOf(h, w, i) < |Rounds(h[..n], w)| {
      StretchExists(h[..n], w, i);
      var s: nat, e: nat :| Stretch(h[..n], w, i, s, e);
      assert h[s..e] == h[..n][s..e];
      assert Stretch(h, w, i, s, e);
    } else {
      ClosedStretch(h, w, i);
    }
  }

  lemma ClosedStretch(h: seq<Vote>, w: nat, i: nat)
    requires i < |h| && RoundOf(h, w, i) == |Rounds(h[..|h| - 1], w)| < |Rounds(h, w)|
    ensures exists s: nat, e: nat :: Stretch(h, w, i, s, e)
  {
    hide Open, Ranks;
    var n := |h| - 1;
    assert h == h[..n] + [h[n]];
    OneMoreRequest(h[..n], h[n], w);
    OpenIsSuffix(h[..n], w);
    LastRound(h[..n], w);
    var s := n - |Open(h[..n], w)|;
    assert h[s..n + 1] == h[..n][s..] + [h[n]];
    assert Stretch(h, w, i, s, n + 1);
  }

  /** Exactly the requests of the open stretch carry the number of the open round. */
  lemma {:induction false} LastRound(h: seq<Vote>, w: nat)
    ensures |Open(h, w)| <= |h|
    ensures forall k :: 0 <= k < |h| ==>
              (RoundOf(h, w, k) == |Rounds(h, w)| <==> |h| - |Open(h, w)| <= k)
    ensures forall k :: 0 <= k < |h| ==> RoundOf(h, w, k) <= |Rounds(h, w)|
  {
    OpenIsSuffix(h, w);
    if h != [] {
      var n := |h| - 1;
      LastRound(h[..n], w);
      OpenIsSuffix(h[..n], w);
      forall k | 0 <= k < |h|
        ensures RoundOf(h, w, k) <= |Rounds(h, w)|
        ensures RoundOf(h, w, k) == |Rounds(h, w)| <==> |h| - |Open(h, w)| <= k
      {
        assert h[..n] == h[..|h| - 1];
        if k < n {
          assert h[..n][..k] == h[..k];
          assert RoundOf(h[..n], w, k) == RoundOf(h, w, k);
        }
      }
    }
  }

  /** Whatever the interleaving: an answered request is in a round that is one stretch of the history with
      requests of all `w` ranks; its answer is yes exactly when nobody in that stretch voted no; and every
      request of the stretch, and only those, carries this round's number, so they all get this answer. */
  lemma EveryoneInARoundGetsItsDecision(h: seq<Vote>, w: nat, i: nat)
    requires i < |h| && Answer(h, w, i).Some?
    ensures exists s: nat, e: nat ::
              && Stretch(h, w, i, s, e)
              && |Ranks(h[s..e])| == w
              && (Answer(h, w, i).value <==> forall k :: s <= k < e ==> h[k].yes)
              && forall k :: s <= k < e ==> Answer(h, w, k) == Answer(h, w, i)
  {
    StretchExists(h, w, i);
    var s: nat, e: nat :| Stretch(h, w, i, s, e);
    RoundsHoldAllRanks(h, w, RoundOf(h, w, i));
    var round := h[s..e];
    assert forall k :: s <= k < e ==> h[k] == round[k - s];
  }

  lemma {:induction false} OpenRoundIsIncomplete(h: seq<Vote>, w: nat)
    requires w > 0
    ensures |Ranks(Open(h, w))| < w
  {
    if h == [] {
      assert Ranks([]) == {};
    } else {
      var n := |h| - 1;
      OpenRoundIsIncomplete(h[..n], w);
      RanksOfOneMore(Open(h[..n], w), h[n]);
    }
  }

  lemma {:induction false} RoundOfTheOpen(h: seq<Vote>, w: nat, i: nat)
    requires i < |h|
    ensures |Open(h, w)| <= |h| && RoundOf(h, w, i) <= |Rounds(h, w)|
    ensures RoundOf(h, w, i) == |Rounds(h, w)| <==> i >= |h| - |Open(h, w)|
  {
    var n := |h| - 1;
    if i < n {
      RoundOfTheOpen(h[..n], w, i);
      assert h[..n][..i] == h[..i];
    } else if n > 0 {
      RoundOfTheOpen(h[..n], w, 0);
    }
  }

  /** Nobody waits for longer than it takes: the requests without an answer are exactly the last stretch of the history,
      in which not all `w` ranks have asked yet. */
  lemma UnansweredExactly(h: seq<Vote>, w: nat)
    requires w > 0
    ensures exists s: nat ::
              && s <= |h| && |Ranks(h[s..])| < w
              && forall i :: 0 <= i < |h| ==> (Answer(h, w, i).None? <==> s <= i)
  {
    RequestsSplitIntoRounds(h, w);
    OpenRoundIsIncomplete(h, w);
    if h != [] { RoundOfTheOpen(h, w, 0); }
    var s := |h| - |Open(h, w)|;
    assert h[s..] == Open(h, w);
    forall i | 0 <= i < |h|
      ensures Answer(h, w, i).None? <==> s <= i
    {
      RoundOfTheOpen(h, w, i);
    }
  }

  /** Later requests never change an answer. */
  lemma AnswersAreFinal(h: seq<Vote>, more: seq<Vote>, w: nat, i: nat)
    requires i < |h| && Answer(h, w, i).Some?
    ensures Answer(h + more, w, i) == Answer(h, w, i)
  {
    var all := h + more;
    assert all[..|h|] == h;
    RoundsOnlyGrow(all, w, |h|);
    assert all[..i] == h[..i];
  }
}
