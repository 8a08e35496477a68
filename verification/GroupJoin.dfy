/** How the ranks of one replica group join into one Lighthouse request, and which quorum each of them receives. */
module GroupJoin {

  import opened Protocol
  import CommitBarrier

  /** A rank's request: the round it joined, and how many quorums had been broadcast when it subscribed. */
  datatype Join = Join(rank: int, member: Member, round: nat, ticket: nat)

  /** A quorum as broadcast to the group, with the round whose request it answers. */
  datatype Broadcast = Broadcast(round: nat, quorum: Quorum)

  datatype Group = Group(
    participants: map<int, Member>,
    forwarded: seq<Member>,
    joins: seq<Join>,
    sent: seq<Broadcast>)

  const Empty: Group := Group(map[], [], [], [])

  /** A rank joins; the one that completes the group has its record forwarded for all. */
  function Joined(g: Group, worldSize: nat, rank: int, m: Member): Group {
    var participants := g.participants[rank := m];
    var h := g.(joins := g.joins + [Join(rank, m, |g.forwarded|, |g.sent|)]);
    if |participants| == worldSize then
      h.(participants := map[], forwarded := g.forwarded + [m])
    else
      h.(participants := participants)
  }

  predicate InFlight(g: Group, round: nat) {
    round < |g.forwarded| && forall j :: 0 <= j < |g.sent| ==> g.sent[j].round != round
  }

  /** The Lighthouse answers the request of one round; everyone subscribed hears it. */
  function Answered(g: Group, round: nat, q: Quorum): Group {
    g.(sent := g.sent + [Broadcast(round, q)])
  }

  /** What request `i` receives: the first broadcast after it subscribed. */
  function Received(g: Group, i: nat): Option<Broadcast>
    requires i < |g.joins|
  {
    if g.joins[i].ticket < |g.sent| then Some(g.sent[g.joins[i].ticket]) else None
  }

  datatype Event = Request(rank: int, member: Member) | Reply(round: nat, quorum: Quorum)

  /** A rank asks again only once its previous request was answered. */
  ghost predicate Waits(g: Group, rank: int) {
    forall i :: 0 <= i < |g.joins| && g.joins[i].rank == rank ==> Received(g, i).Some?
  }

  ghost predicate Orderly(g: Group, worldSize: nat, e: Event) {
    match e
    case Request(rank, _) => 0 <= rank < worldSize && Waits(g, rank)
    case Reply(round, _) => InFlight(g, round)
  }

  function Next(g: Group, worldSize: nat, e: Event): Group {
    match e
    case Request(rank, member) => Joined(g, worldSize, rank, member)
    case Reply(round, quorum) => Answered(g, round, quorum)
  }

  function After(worldSize: nat, events: seq<Event>): Group {
    if events == [] then Empty else Next(After(worldSize, events[..|events| - 1]), worldSize, events[|events| - 1])
  }

  ghost predicate AllOrderly(worldSize: nat, events: seq<Event>) {
    forall k :: 0 <= k < |events| ==> Orderly(After(worldSize, events[..k]), worldSize, events[k])
  }

  /** The group's ranks ask whenever they like, and the rounds are answered one after the other. */
  ghost predicate InTurn(g: Group, worldSize: nat, e: Event) {
    match e
    case Request(rank, _) => 0 <= rank < worldSize
    case Reply(round, _) => round == |g.sent| < |g.forwarded|
  }

  ghost predicate AllInTurn(worldSize: nat, events: seq<Event>) {
    forall k :: 0 <= k < |events| ==> InTurn(After(worldSize, events[..k]), worldSize, events[k])
  }

  // ----- Rounds do not mix

  ghost predicate HasJoined(g: Group, rank: int, round: nat) {
    exists i :: 0 <= i < |g.joins| && g.joins[i].rank == rank && g.joins[i].round == round
  }

  ghost predicate Inv(g: Group, worldSize: nat) {
    && |g.sent| <= |g.forwarded|
    && (forall j :: 0 <= j < |g.sent| ==> g.sent[j].round == j)
    && (forall i :: 0 <= i < |g.joins| ==> g.joins[i].ticket <= g.joins[i].round <= |g.forwarded|)
    && |g.participants| < worldSize
    && (forall rank :: rank in g.participants ==> 0 <= rank < worldSize && HasJoined(g, rank, |g.forwarded|))
    && (forall rank, round: nat :: 0 <= rank < worldSize && round < |g.forwarded| ==> HasJoined(g, rank, round))
  }

  lemma JoinsRemain(g: Group, h: Group, rank: int, round: nat)
    requires HasJoined(g, rank, round) && g.joins <= h.joins
    ensures HasJoined(h, rank, round)
  {
    var i :| 0 <= i < |g.joins| && g.joins[i].rank == rank && g.joins[i].round == round;
    assert h.joins[i] == g.joins[i];
  }

  lemma JoinKeepsInv(g: Group, worldSize: nat, rank: int, m: Member)
    requires Inv(g, worldSize) && 0 <= rank < worldSize
    ensures Inv(Joined(g, worldSize, rank, m), worldSize)
  {
    var h := Joined(g, worldSize, rank, m);
    var participants := g.participants[rank := m];
    assert h.joins[|g.joins|].rank == rank && h.joins[|g.joins|].round == |g.forwarded|;
    assert HasJoined(h, rank, |g.forwarded|);
    forall r, round: nat | HasJoined(g, r, round)
      ensures HasJoined(h, r, round)
    {
      JoinsRemain(g, h, r, round);
    }
    assert forall r :: r in participants ==> 0 <= r < worldSize && HasJoined(h, r, |g.forwarded|);
    CommitBarrier.TooMany(participants.Keys, worldSize);
    if |participants| == worldSize {
      assert |participants.Keys| == worldSize;
      CommitBarrier.AllOf(participants.Keys, worldSize);
    }
  }

  lemma NextKeepsInv(g: Group, worldSize: nat, e: Event)
    requires Inv(g, worldSize) && InTurn(g, worldSize, e)
    ensures Inv(Next(g, worldSize, e), worldSize)
  {
    match e
    case Request(rank, member) => JoinKeepsInv(g, worldSize, rank, member);
    case Reply(round, q) =>
      forall r, t: nat | HasJoined(g, r, t)
        ensures HasJoined(Answered(g, round, q), r, t)
      {
        JoinsRemain(g, Answered(g, round, q), r, t);
      }
  }

  lemma EmptyKeepsInv(worldSize: nat)
    requires worldSize > 0
    ensures Inv(Empty, worldSize)
  {
  }

  lemma {:induction false} RunsKeepInv(worldSize: nat, events: seq<Event>)
    requires worldSize > 0 && AllInTurn(worldSize, events)
    ensures Inv(After(worldSize, events), worldSize)
  {
    hide Inv, InTurn, Next, AllInTurn;
    EmptyKeepsInv(worldSize);
    if events != [] {
      var before := events[..|events| - 1];
      InTurnBefore(worldSize, events, |before|);
      RunsKeepInv(worldSize, before);
      NextKeepsInv(After(worldSize, before), worldSize, events[|events| - 1]);
    }
  }

  lemma InTurnBefore(worldSize: nat, events: seq<Event>, k: nat)
    requires AllInTurn(worldSize, events) && k <= |events|
    ensures AllInTurn(worldSize, events[..k])
    ensures k < |events| ==> InTurn(After(worldSize, events[..k]), worldSize, events[k])
  {
    forall j | 0 <= j < k
      ensures InTurn(After(worldSize, events[..k][..j]), worldSize, events[..k][j])
    {
      assert events[..k][..j] == events[..j] && InTurn(After(worldSize, events[..j]), worldSize, events[j]);
    }
  }

  lemma {:induction false} JoinsGrow(worldSize: nat, events: seq<Event>, k: nat)
    requires k <= |events|
    ensures After(worldSize, events[..k]).joins <= After(worldSize, events).joins
    decreases |events|
  {
    if k == |events| {
      assert events[..k] == events;
    } else {
      assert events[..|events| - 1][..k] == events[..k];
      JoinsGrow(worldSize, events[..|events| - 1], k);
    }
  }

  lemma AnsweredBefore(g: Group, worldSize: nat, round: nat)
    requires Inv(g, worldSize) && round < |g.sent|
    ensures !InFlight(g, round)
  {
    assert g.sent[round].round == round;
  }

  ghost predicate NoneInFlight(g: Group) {
    forall round: nat :: !InFlight(g, round)
  }

  lemma NoneInFlightMeansAllAnswered(g: Group, worldSize: nat)
    requires Inv(g, worldSize)
    ensures NoneInFlight(g) <==> |g.sent| == |g.forwarded|
  {
    if |g.sent| < |g.forwarded| {
      assert InFlight(g, |g.sent|);
    } else {
      forall round: nat | round < |g.forwarded|
        ensures !InFlight(g, round)
      {
        AnsweredBefore(g, worldSize, round);
      }
    }
  }

  /** Whichever ranks ask again before they are answered: a request that is answered receives the quorum of the round
      it joined exactly if no earlier round was still in flight when it joined. A forwarded round has all the ranks. */
  lemma OwnQuorumExactlyIfNoneInFlight(worldSize: nat, events: seq<Event>, k: nat)
    requires worldSize > 0 && AllInTurn(worldSize, events) && k < |events| && events[k].Request?
    ensures var before, g := After(worldSize, events[..k]), After(worldSize, events);
            var i := |before.joins|;
            && i < |g.joins| && g.joins[i].rank == events[k].rank && g.joins[i].round == |before.forwarded|
            && (Received(g, i).Some? ==>
                  (Received(g, i).value.round == g.joins[i].round
                   <==> NoneInFlight(before)))
            && (g.joins[i].round < |g.forwarded| ==>
                  forall rank :: 0 <= rank < worldSize ==> HasJoined(g, rank, g.joins[i].round))
  {
    hide HasJoined;
    var before := After(worldSize, events[..k]);
    RunsKeepInv(worldSize, events);
    InTurnBefore(worldSize, events, k);
    RunsKeepInv(worldSize, events[..k]);
    JoinsGrow(worldSize, events, k + 1);
    assert events[..k + 1][..k] == events[..k];
    NoneInFlightMeansAllAnswered(before, worldSize);
  }

  // ----- Answers in any order

  /** The first answer among `events`. */
  function FirstReply(events: seq<Event>): Option<Broadcast> {
    if events == [] then None
    else if events[0].Reply? then Some(Broadcast(events[0].round, events[0].quorum))
    else FirstReply(events[1..])
  }

  lemma {:induction false} FirstReplyOfMore(events: seq<Event>, e: Event)
    ensures FirstReply(events + [e]) == if FirstReply(events).Some? then FirstReply(events) else FirstReply([e])
  {
    if events == [] {
      assert events + [e] == [e];
    } else {
      assert (events + [e])[1..] == events[1..] + [e];
      FirstReplyOfMore(events[1..], e);
    }
  }

  lemma NextHears(g: Group, worldSize: nat, e: Event, i: nat)
    requires i < |g.joins| && g.joins[i].ticket <= |g.sent|
    ensures var h := Next(g, worldSize, e);
            && i < |h.joins| && h.joins[i] == g.joins[i] && h.joins[i].ticket <= |h.sent|
            && Received(h, i) == if Received(g, i).Some? then Received(g, i) else FirstReply([e])
  {
  }

  /** With answers in any order, repeated or to whatever round: a request hears the first answer after it joined. So it
      receives its own round's quorum exactly if that is the round answered next. */
  lemma {:induction false} HearsTheNextReply(worldSize: nat, events: seq<Event>, k: nat)
    requires k < |events| && events[k].Request?
    ensures var before, g := After(worldSize, events[..k]), After(worldSize, events);
            var i := |before.joins|;
            && i < |g.joins| && g.joins[i].rank == events[k].rank && g.joins[i].round == |before.forwarded|
            && g.joins[i].ticket <= |g.sent|
            && Received(g, i) == FirstReply(events[k + 1..])
    decreases |events|
  {
    hide Received, Next;
    var init, e := events[..|events| - 1], events[|events| - 1];
    if k < |init| {
      HearsTheNextReply(worldSize, init, k);
      assert init[..k] == events[..k];
      NextHears(After(worldSize, init), worldSize, e, |After(worldSize, events[..k]).joins|);
      assert events[k + 1..] == init[k + 1..] + [e];
      FirstReplyOfMore(init[k + 1..], e);
    } else {
      assert init == events[..k];
      NothingHeardYet(After(worldSize, init), worldSize, e);
    }
  }

  lemma NothingHeardYet(g: Group, worldSize: nat, e: Event)
    requires e.Request?
    ensures var h := Next(g, worldSize, e);
            var i := |g.joins|;
            && i < |h.joins| && h.joins[i].rank == e.rank && h.joins[i].round == |g.forwarded|
            && h.joins[i].ticket <= |h.sent| && Received(h, i) == None
  {
  }

  // ----- Ranks that wait

  /** Nobody joined while an earlier round was in flight. */
  ghost predicate OnTime(g: Group) {
    && |g.forwarded| <= |g.sent| + 1
    && forall i :: 0 <= i < |g.joins| ==> g.joins[i].ticket == g.joins[i].round
  }

  lemma OrderlyStepsAreOnTime(g: Group, worldSize: nat, e: Event)
    requires Inv(g, worldSize) && OnTime(g) && Orderly(g, worldSize, e)
    ensures InTurn(g, worldSize, e) && OnTime(Next(g, worldSize, e))
  {
    if e.Reply? && e.round < |g.sent| {
      AnsweredBefore(g, worldSize, e.round);
    }
    if e.Request? && |g.forwarded| > 0 {
      var round := |g.forwarded| - 1;
      assert HasJoined(g, e.rank, round);
      var i :| 0 <= i < |g.joins| && g.joins[i].rank == e.rank && g.joins[i].round == round;
      assert Received(g, i).Some?;
    }
  }

  lemma {:induction false} OrderlyRunsAreOnTime(worldSize: nat, events: seq<Event>)
    requires worldSize > 0 && AllOrderly(worldSize, events)
    ensures AllInTurn(worldSize, events) && OnTime(After(worldSize, events))
  {
    if events != [] {
      var before, e := events[..|events| - 1], events[|events| - 1];
      assert AllOrderly(worldSize, before) by {
        forall k | 0 <= k < |before|
          ensures Orderly(After(worldSize, before[..k]), worldSize, before[k])
        {
          assert before[..k] == events[..k] && Orderly(After(worldSize, events[..k]), worldSize, events[k]);
        }
      }
      OrderlyRunsAreOnTime(worldSize, before);
      RunsKeepInv(worldSize, before);
      OrderlyStepsAreOnTime(After(worldSize, before), worldSize, e);
      forall k | 0 <= k < |events|
        ensures InTurn(After(worldSize, events[..k]), worldSize, events[k])
      {
        if k < |before| {
          assert before[..k] == events[..k] && InTurn(After(worldSize, before[..k]), worldSize, before[k]);
        }
      }
    }
  }

  /** So where ranks wait for their answers, each receives the quorum of its own round. */
  lemma EachReceivesItsOwnQuorum(worldSize: nat, events: seq<Event>, i: nat)
    requires worldSize > 0 && AllOrderly(worldSize, events) && i < |After(worldSize, events).joins|
    ensures var g := After(worldSize, events);
            && (Received(g, i).Some? ==> Received(g, i).value.round == g.joins[i].round)
            && (g.joins[i].round < |g.forwarded| ==>
                  forall rank :: 0 <= rank < worldSize ==> HasJoined(g, rank, g.joins[i].round))
  {
    OrderlyRunsAreOnTime(worldSize, events);
    RunsKeepInv(worldSize, events);
  }

  lemma OneMore(worldSize: nat, events: seq<Event>, e: Event)
    ensures After(worldSize, events + [e]) == Next(After(worldSize, events), worldSize, e)
  {
    assert (events + [e])[..|events|] == events;
  }

  /** One who asks again without waiting can receive the quorum of an earlier round. */
  lemma RetriesCanReceiveAnEarlierQuorum(m: Member, q: Quorum)
    ensures var g := After(1, [] + [Request(0, m)] + [Request(0, m)] + [Reply(0, q)]);
            && |g.joins| == 2 && g.joins[1].round == 1 && Received(g, 1) == Some(Broadcast(0, q))
            && !Orderly(After(1, [] + [Request(0, m)]), 1, Request(0, m))
  {
    OneMore(1, [], Request(0, m));
    OneMore(1, [] + [Request(0, m)], Request(0, m));
    OneMore(1, [] + [Request(0, m)] + [Request(0, m)], Reply(0, q));
    assert |Empty.participants[0 := m].Keys| == 1;
    var first := Joined(Empty, 1, 0, m);
    assert first.joins[0].rank == 0 && Received(first, 0) == None;
  }

  // ----- The server

  class Server {
    const worldSize: nat
    var participants: map<int, Member>
    var forwarded: seq<Member>
    var sent: seq<Broadcast>
    ghost var joins: seq<Join>

    ghost function Now(): Group
      reads this
    {
      Group(participants, forwarded, joins, sent)
    }

    constructor (worldSize: nat)
      ensures this.worldSize == worldSize && Now() == Empty
    {
      this.worldSize := worldSize;
      participants, forwarded, sent, joins := map[], [], [], [];
    }

    /** The part of a quorum request under the lock; returns where in the broadcasts the caller listens. */
    method Request(rank: int, m: Member) returns (ticket: nat)
      modifies this
      ensures Now() == Joined(old(Now()), worldSize, rank, m)
      ensures ticket == joins[|joins| - 1].ticket
    {
      participants := participants[rank := m];
      ticket := |sent|;
      joins := joins + [Join(rank, m, |forwarded|, ticket)];
      if |participants| == worldSize {
        participants := map[];
        forwarded := forwarded + [m];
      }
    }

    /** The Lighthouse's answer to the request of `round`. */
    method RunQuorum(round: nat, q: Quorum)
      modifies this
      ensures Now() == Answered(old(Now()), round, q)
    {
      sent := sent + [Broadcast(round, q)];
    }

    /** One round from a quiet start: every rank asks, and the answer is what each of them hears. */
    method Round(ms: seq<Member>, q: Quorum) returns (tickets: seq<nat>)
      requires |ms| == worldSize > 0 && participants == map[]
      modifies this
      ensures participants == map[] && forwarded == old(forwarded) + [ms[|ms| - 1]]
      ensures sent == old(sent) + [Broadcast(|old(forwarded)|, q)]
      ensures |tickets| == worldSize
      ensures forall rank :: 0 <= rank < worldSize ==> tickets[rank] < |sent| && sent[tickets[rank]].quorum == q
    {
      hide Ranks;
      assert participants.Keys == Ranks(0);
      tickets := [];
      for rank := 0 to worldSize
        invariant |tickets| == rank && sent == old(sent)
        invariant rank < worldSize ==>
                    participants.Keys == Ranks(rank) && forwarded == old(forwarded)
        invariant rank == worldSize ==> participants == map[] && forwarded == old(forwarded) + [ms[|ms| - 1]]
        invariant forall r :: 0 <= r < rank ==> tickets[r] == |old(sent)|
      {
        NextRank(participants, rank, ms[rank]);
        var ticket := Request(rank, ms[rank]);
        tickets := tickets + [ticket];
      }
      RunQuorum(|forwarded| - 1, q);
    }
  }

  function Ranks(n: nat): (rs: set<int>)
    ensures |rs| == n && forall rank :: rank in rs <==> 0 <= rank < n
  {
    if n == 0 then {} else Ranks(n - 1) + {n - 1}
  }

  lemma NextRank(participants: map<int, Member>, rank: nat, m: Member)
    requires participants.Keys == Ranks(rank)
    ensures participants[rank := m].Keys == Ranks(rank + 1) && |participants[rank := m]| == rank + 1
  {
    assert |participants[rank := m]| == |participants[rank := m].Keys|;
  }
}
