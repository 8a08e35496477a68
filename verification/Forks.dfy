/** Commits and quorums: two commits leave one state exactly when they are of one quorum, so replicas part ways
    where a superseded quorum is committed beside the one that superseded it. */
module Forks {
  import opened Protocol
  import opened ReplicaOrder
  import opened Planner
  import opened Manager
  import opened Cluster
  import opened ClusterSteps
  import opened Replication
  import L = Lighthouse

  // ----- Commits of different quorums give different states

  lemma {:induction false} SinceCounts(issues: seq<L.Issue>, i: nat, j: nat)
    requires i <= j < |issues|
    requires forall k :: 0 < k < |issues| ==> L.NextInLine(issues[k - 1].quorum, issues[k].quorum)
    requires issues[i].quorum.quorumId == issues[j].quorum.quorumId
    ensures Since(issues, j) == Since(issues, i) + (j - i)
    decreases j
  {
    if i < j {
      IssuesOnlyGoForward(issues, i, j - 1);
      IssuesOnlyGoForward(issues, j - 1, j);
      SinceCounts(issues, i, j - 1);
    }
  }

  /** No two quorums share a collective. */
  lemma CollectivesTellIssuesApart(issues: seq<L.Issue>, m: nat, n: nat)
    requires m < n < |issues|
    requires forall k :: 0 < k < |issues| ==> L.NextInLine(issues[k - 1].quorum, issues[k].quorum)
    ensures Collective(issues[m].quorum.quorumId, Since(issues, m))
            != Collective(issues[n].quorum.quorumId, Since(issues, n))
  {
    if issues[m].quorum.quorumId == issues[n].quorum.quorumId {
      SinceCounts(issues, m, n);
    }
  }

  lemma {:induction false} SinceInPrefix(issues: seq<L.Issue>, all: seq<L.Issue>, n: nat)
    requires n < |issues| && issues <= all
    ensures Since(all, n) == Since(issues, n)
  {
    if n > 0 { SinceInPrefix(issues, all, n - 1); }
  }

  lemma NextGrowsIssues(env: Env, s: System, e: Event)
    ensures GrowsByOne(s.run.issues, Next(env, s, e).run.issues)
  {
    match e
    case Ask(id, shrinkOnly, now) =>
      if id in s.nodes && s.nodes[id].phase.Idle? {
        var t := Asked(env, s, id, shrinkOnly);
        AskBroadcasts(env, s, id, shrinkOnly, now);
        IssuesGrowByOne(t.run, L.Before(t.run.state, L.QuorumRequested(t.nodes[id].phase.record, now)), now, env.opt);
      }
    case Tick(now) =>
      TickBroadcasts(env, s, now);
      IssuesGrowByOne(s.run, s.run.state, now, env.opt);
    case Prepare(id, configureOk, sendOk) =>
    case Fetch(id, ok) =>
    case _ =>
  }

  lemma {:induction false} IssuesArePrefix(env: Env, events: seq<Event>, i: nat)
    requires i <= |events|
    ensures After(env, events[..i]).run.issues <= After(env, events).run.issues
    decreases |events| - i
  {
    if i == |events| {
      assert events[..i] == events;
    } else {
      NextGrowsIssues(env, After(env, events[..i]), events[i]);
      AfterNext(env, events, i);
      IssuesArePrefix(env, events, i + 1);
    }
  }

  // ----- Commits at any two points of a run

  /** Step `i` of the run commits issue `n`. */
  ghost predicate CommitsIssue(env: Env, events: seq<Event>, i: nat, n: nat) {
    && i < |events| && Commits(env, After(env, events[..i]), events[i])
    && After(env, events[..i]).nodes[events[i].id].phase.issue == n
  }

  /** What the replica that committed at step `i` holds right after it. */
  ghost function HeldAfter(env: Env, events: seq<Event>, i: nat): Checkpoint
    requires i < |events| && Commits(env, After(env, events[..i]), events[i])
  {
    AfterNext(env, events, i);
    Holds(After(env, events[..i + 1]).nodes[events[i].id].r)
  }

  lemma CommitLeaves(env: Env, events: seq<Event>, i: nat, n: nat)
    requires CommitsIssue(env, events, i, n)
    ensures var s := After(env, events[..i]);
            && n < |s.run.issues| && Inv(env, s) && Up(env, s.run.issues, s.nodes[events[i].id])
            && HeldAfter(env, events, i) == Advanced(env, s.run.issues, n, Holds(s.nodes[events[i].id].r))
            && HeldAfter(env, events, i).step == Top(Quorums(s, n)) + 1
  {
    hide Next, Decided, Inv;
    var s, e := After(env, events[..i]), events[i];
    RunsKeepInv(env, events[..i]);
    IsLocal(env, s, e.id);
    DecisionAdvances(env, s.run.issues, e.id, s.nodes[e.id], e.groupError, e.peersAgree);
    DecidePuts(env, s, e.id, e.groupError, e.peersAgree);
    AfterNext(env, events, i);
  }

  /** Seen from the later of two points of a run, the earlier one's commit is the same. */
  lemma AdvancedInPrefix(env: Env, issues: seq<L.Issue>, all: seq<L.Issue>, n: nat, c: Checkpoint)
    requires n < |issues| && issues <= all
    ensures Advanced(env, issues, n, c) == Advanced(env, all, n, c)
  {
    SinceInPrefix(issues, all, n);
  }

  /** In every run, commits of two different quorums never leave the same state behind, whatever was held before.
      So where the two have one top step, two states exist at the step after it. */
  lemma CommitsOfDifferentQuorumsDiffer(env: Env, events: seq<Event>, i: nat, j: nat, n: nat, k: nat)
    requires CommitsIssue(env, events, i, n) && CommitsIssue(env, events, j, k) && n != k
    ensures HeldAfter(env, events, i) != HeldAfter(env, events, j)
    ensures var issues := After(env, events).run.issues;
            && n < |issues| && k < |issues|
            && (Top(issues[n].quorum) == Top(issues[k].quorum) ==>
                  HeldAfter(env, events, i).step == HeldAfter(env, events, j).step)
  {
    hide Next, Advanced;
    CommitLeaves(env, events, i, n);
    CommitLeaves(env, events, j, k);
    IssuesArePrefix(env, events, i);
    IssuesArePrefix(env, events, j);
    RunsKeepInv(env, events);
    var all := After(env, events).run.issues;
    var s, t := After(env, events[..i]), After(env, events[..j]);
    CollectivesTellIssuesApart(all, if n < k then n else k, if n < k then k else n);
    AdvancedInPrefix(env, s.run.issues, all, n, Holds(s.nodes[events[i].id].r));
    AdvancedInPrefix(env, t.run.issues, all, k, Holds(t.nodes[events[j].id].r));
    AdvancedApart(env, all, n, k, Holds(s.nodes[events[i].id].r), Holds(t.nodes[events[j].id].r));
  }

  lemma AdvancedApart(env: Env, issues: seq<L.Issue>, n: nat, k: nat, c: Checkpoint, d: Checkpoint)
    requires n < |issues| && k < |issues|
    requires Collective(issues[n].quorum.quorumId, Since(issues, n))
             != Collective(issues[k].quorum.quorumId, Since(issues, k))
    ensures Advanced(env, issues, n, c) != Advanced(env, issues, k, d)
  {
  }

  /** Whoever still works on issue `n` and can commit it works from `c`, unless `n` is outdated. */
  ghost predicate WorkFrom(env: Env, s: System, n: nat, c: Checkpoint) {
    && n < |s.run.issues|
    && (Outdated(s.run.issues, n) ||
        forall b :: b in s.nodes ==> WorksFrom(env, s.run.issues, s.nodes[b], n, c))
  }

  ghost predicate WorksFrom(env: Env, issues: seq<L.Issue>, node: Node, n: nat, c: Checkpoint) {
    Up(env, issues, node) && node.phase.issue == n ==> Holds(node.r) == c
  }

  lemma PutKeepsWork(env: Env, s: System, id: string, node: Node, n: nat, c: Checkpoint)
    requires WorkFrom(env, s, n, c)
    requires Outdated(s.run.issues, n) || WorksFrom(env, s.run.issues, node, n, c)
    ensures WorkFrom(env, Put(s, id, node), n, c)
  {
  }

  lemma BroadcastKeepsWork(env: Env, s: System, run: L.Run, n: nat, c: Checkpoint)
    requires Inv(env, s) && WorkFrom(env, s, n, c) && GrowsByOne(s.run.issues, run.issues)
    ensures WorkFrom(env, Broadcast(s, run), n, c)
  {
    var t := Broadcast(s, run);
    if |run.issues| > |s.run.issues| {
      OutdatedStays(s.run.issues, run.issues[|s.run.issues|], n);
      if !Outdated(t.run.issues, n) {
        forall b | b in t.nodes ensures WorksFrom(env, t.run.issues, t.nodes[b], n, c) {
          LocalAfter(env, s, b);
          assert WorksFrom(env, s.run.issues, s.nodes[b], n, c);
        }
      }
    }
  }

  lemma FetchKeepsWork(env: Env, s: System, id: string, ok: bool, n: nat, c: Checkpoint)
    requires Inv(env, s) && WorkFrom(env, s, n, c) && At(s, id, Fetching)
    ensures WorkFrom(env, Next(env, s, Fetch(id, ok)), n, c)
  {
    var node := s.nodes[id];
    var x := PlanInFlight(env, s, id);
    var fetched := if ok then Fetched(s, x) else None;
    FetchPuts(env, s, id, ok, x);
    if fetched.Some? {
      var q := Quorums(s, node.phase.issue);
      var src := FetchedIsHeld(env, s, x);
      assert q.participants[x.recoverSrcReplicaRank.value].replicaId == src;
      SourceIsOfTheQuorum(env, s, node.phase.issue, src, fetched.value);
      PlausibleWhenServed(env, s, src, fetched.value);
      assert Up(env, s.run.issues, s.nodes[src]);
      assert Outdated(s.run.issues, n) || WorksFrom(env, s.run.issues, s.nodes[src], n, c);
    }
    HealedIsLocal(env, s.run.issues, id, node, x, fetched);
    PutKeepsWork(env, s, id, Healed(env, node, x, fetched), n, c);
  }

  lemma NextKeepsWork(env: Env, s: System, e: Event, n: nat, c: Checkpoint)
    requires Inv(env, s) && WorkFrom(env, s, n, c)
    ensures WorkFrom(env, Next(env, s, e), n, c)
  {
    hide Inv;
    match e
    case Join(_) => QuietKeepsWork(env, s, e, n, c);
    case Crash(_) => QuietKeepsWork(env, s, e, n, c);
    case Beat(_, _) => QuietKeepsWork(env, s, e, n, c);
    case AskAgain(_, _) => QuietKeepsWork(env, s, e, n, c);
    case Ask(id, shrinkOnly, now) =>
      if id in s.nodes && s.nodes[id].phase.Idle? {
        var t := Asked(env, s, id, shrinkOnly);
        var asked := L.QuorumRequested(t.nodes[id].phase.record, now);
        AskedKeepsInv(env, s, id, shrinkOnly);
        PutKeepsWork(env, s, id, t.nodes[id], n, c);
        IssuesGrowByOne(t.run, L.Before(t.run.state, asked), now, env.opt);
        AskBroadcasts(env, s, id, shrinkOnly, now);
        BroadcastKeepsWork(env, t, L.Step(t.run, asked, env.opt), n, c);
      }
    case Tick(now) =>
      TickBroadcasts(env, s, now);
      IssuesGrowByOne(s.run, s.run.state, now, env.opt);
      BroadcastKeepsWork(env, s, L.AfterTick(s.run, s.run.state, now, env.opt), n, c);
    case Prepare(id, configureOk, sendOk) =>
      if At(s, id, Assigned) {
        var x := PlanInFlight(env, s, id);
        PreparedHoldsTheSame(env, s.run.issues, s.nodes[id], x, configureOk, sendOk);
        PreparePuts(env, s, id, configureOk, sendOk, x);
        PutKeepsWork(env, s, id, Prepared(env, s.nodes[id], x, configureOk, sendOk), n, c);
      }
    case Fetch(id, ok) => if At(s, id, Fetching) { FetchKeepsWork(env, s, id, ok, n, c); }
    case Reduce(_, _) => QuietKeepsWork(env, s, e, n, c);
    case Report(_) => QuietKeepsWork(env, s, e, n, c);
    case Decide(_, _, _) => QuietKeepsWork(env, s, e, n, c);
  }

  /** Steps after which nobody newly works on a quorum, and that change no state somebody works from. */
  lemma QuietKeepsWork(env: Env, s: System, e: Event, n: nat, c: Checkpoint)
    requires WorkFrom(env, s, n, c)
    requires e.Join? || e.Crash? || e.Beat? || e.AskAgain? || e.Reduce? || e.Report? || e.Decide?
    ensures WorkFrom(env, Next(env, s, e), n, c)
  {
  }

  lemma {:induction false} WorkLasts(env: Env, events: seq<Event>, i: nat, n: nat, c: Checkpoint)
    requires i <= |events| && WorkFrom(env, After(env, events[..i]), n, c)
    ensures WorkFrom(env, After(env, events), n, c)
    decreases |events|
  {
    if i == |events| {
      assert events[..i] == events;
    } else {
      var before := events[..|events| - 1];
      assert before[..i] == events[..i];
      WorkLasts(env, before, i, n, c);
      RunsKeepInv(env, before);
      NextKeepsWork(env, After(env, before), events[|events| - 1], n, c);
    }
  }

  lemma {:induction false} OrderlyAt(env: Env, events: seq<Event>, i: nat)
    requires Orderly(env, events) && i < |events|
    ensures Orderly(env, events[..i]) && TimelyStep(env, After(env, events[..i]), events[i])
    decreases |events|
  {
    if i < |events| - 1 {
      assert events[..|events| - 1][..i] == events[..i];
      OrderlyAt(env, events[..|events| - 1], i);
    }
  }

  /** In an orderly run, all commits of one quorum leave the same state behind, however far apart they are. */
  lemma CommitsOfOneQuorumAgree(env: Env, events: seq<Event>, i: nat, j: nat, n: nat)
    requires Orderly(env, events) && i <= j
    requires CommitsIssue(env, events, i, n) && CommitsIssue(env, events, j, n)
    ensures HeldAfter(env, events, i) == HeldAfter(env, events, j)
  {
    hide Next, Decided, Advanced, Inv, Up;
    var s, t := After(env, events[..i]), After(env, events[..j]);
    var a, b := events[i].id, events[j].id;
    var c := Holds(s.nodes[a].r);
    CommitLeaves(env, events, i, n);
    CommitLeaves(env, events, j, n);
    OrderlyAt(env, events, i);
    OrderlyAt(env, events, j);
    OrderlyRunsAgree(env, events[..i]);
    forall x | x in s.nodes ensures WorksFrom(env, s.run.issues, s.nodes[x], n, c) {
      if x != a { assert Pair(env, s.run.issues, s.nodes[a], s.nodes[x]); }
    }
    assert events[..j][..i] == events[..i];
    WorkLasts(env, events[..j], i, n, c);
    assert WorksFrom(env, t.run.issues, t.nodes[b], n, c);
    IssuesArePrefix(env, events[..j], i);
    AdvancedInPrefix(env, s.run.issues, t.run.issues, n, c);
  }

  /** In an orderly run, two commits, at whatever points of it and by whatever replicas, leave the same state
      behind exactly when they are of the same quorum. */
  lemma CommitsAgreeExactlyWithinAQuorum(env: Env, events: seq<Event>, i: nat, j: nat, n: nat, k: nat)
    requires Orderly(env, events) && CommitsIssue(env, events, i, n) && CommitsIssue(env, events, j, k)
    ensures HeldAfter(env, events, i) == HeldAfter(env, events, j) <==> n == k
  {
    hide Next, Advanced, Inv, Orderly, CommitsIssue;
    if n != k {
      CommitsOfDifferentQuorumsDiffer(env, events, i, j, n, k);
    } else if i <= j {
      CommitsOfOneQuorumAgree(env, events, i, j, n);
    } else {
      CommitsOfOneQuorumAgree(env, events, j, i, n);
    }
  }

  // ----- A run that forks

  /** No live replica is ahead of the new quorum, and one of its members is live and at the highest live step. */
  ghost predicate HasLeader(s: System, q: Quorum) {
    && NoneAhead(s, q)
    && exists id :: id in s.nodes && HasId(q.participants, id)
                 && forall x :: x in s.nodes ==> s.nodes[x].r.step <= s.nodes[id].r.step
  }

  ghost predicate Led(env: Env, events: seq<Event>) {
    events == []
    || (Led(env, events[..|events| - 1])
        && var s, t := After(env, events[..|events| - 1]), After(env, events);
           |t.run.issues| > |s.run.issues| ==> HasLeader(s, t.run.issues[|s.run.issues|].quorum))
  }

  /** Two live replicas between steps, both at step 1, with different states. */
  ghost predicate Forked(s: System, a: string, b: string) {
    && a in s.nodes && b in s.nodes && s.nodes[a].phase.Idle? && s.nodes[b].phase.Idle?
    && s.nodes[a].r.step == s.nodes[b].r.step == 1
    && Holds(s.nodes[a].r) != Holds(s.nodes[b].r)
  }

  const Solo: Env := Env(Config(true, 1, Dynamic, false, None), L.Options(1, 0, 10), 0)

  function Alone(id: string): Member {
    Member(id, id, id, 0, 1, false, 0)
  }

  function Newcomer(): Replica {
    Fresh(Seeded)
  }

  lemma LoneQuorum(s: L.State, m: Member, now: int)
    requires L.KeysMatch(s.participants)
    requires L.HealthyParticipants(s, now, Solo.opt) == {m.replicaId} == L.Healthy(s, now, Solo.opt)
    requires s.participants[m.replicaId].member == m && !m.shrinkOnly && m.commitFailures == 0
    requires s.prevQuorum.Some? ==> Ids(s.prevQuorum.value.participants) != [m.replicaId]
    ensures L.Tick(s, now, Solo.opt)
            == (L.State(map[], Some(Quorum(s.quorumId + 1, [m])), s.quorumId + 1, s.heartbeats),
                Some(Quorum(s.quorumId + 1, [m])))
  {
    assert L.QuorumCompute(now, s, Solo.opt).0.Some?;
    L.ComputedQuorum(now, s, Solo.opt);
    var ms := L.QuorumCompute(now, s, Solo.opt).0.value;
    L.DistinctIds(ms);
    assert ms == [m];
    assert Ids(ms) == [m.replicaId];
  }

  /** Asking alone, with nobody else healthy, starts a quorum of one. */
  lemma AskAlone(s: System, id: string, now: int)
    requires id in s.nodes && s.nodes[id] == Node(Newcomer(), Idle, -1)
    requires s.run.state.participants == map[]
    requires forall x :: x in s.nodes ==> !s.nodes[x].phase.Waiting?
    requires forall x :: x in s.run.state.heartbeats && x != id ==> L.Elapsed(now, s.run.state.heartbeats[x]) >= 10
    requires s.run.state.prevQuorum.Some? ==> Ids(s.run.state.prevQuorum.value.participants) != [id]
    ensures var t := Next(Solo, s, Ask(id, false, now));
            var q := Quorum(s.run.state.quorumId + 1, [Alone(id)]);
            t == System(L.Run(L.State(map[], Some(q), q.quorumId, s.run.state.heartbeats[id := now]),
                              s.run.issues + [L.Issue(q, {id})]),
                        s.nodes[id := Node(Newcomer(), InFlight(|s.run.issues|, Alone(id), Assigned), -1)],
                        s.used)
  {
    var t := Asked(Solo, s, id, false);
    var m := Alone(id);
    assert t.nodes[id] == Node(Newcomer(), Waiting(m), -1);
    var st := L.Before(t.run.state, L.QuorumRequested(m, now));
    assert L.Healthy(st, now, Solo.opt) == {id};
    assert L.HealthyParticipants(st, now, Solo.opt) == {id};
    LoneQuorum(st, m, now);
    AskBroadcasts(Solo, s, id, false, now);
    var q := Quorum(s.run.state.quorumId + 1, [m]);
    assert q.participants[0].replicaId in L.IdSet(q.participants);
    assert L.IdSet(q.participants) == {id};
    assert Assign(t.nodes, q, |s.run.issues|)
        == s.nodes[id := Node(Newcomer(), InFlight(|s.run.issues|, m, Assigned), -1)];
  }

  /** A replica that is ready to commit its first step. */
  ghost predicate CanCommit(s: System, id: string) {
    && At(s, id, Voting) && s.nodes[id].r.step == 0
    && Holds(s.nodes[id].r) == Checkpoint(0, 0, Seeded)
    && Decided(Solo, s.nodes[id], false, true).1.Commit?
  }

  lemma WorkAlone(s: System, id: string)
    requires Inv(Solo, s) && At(s, id, Assigned) && s.nodes[id].r == Newcomer()
    requires Quorums(s, s.nodes[id].phase.issue).participants == [Alone(id)]
    requires Quorums(s, s.nodes[id].phase.issue).quorumId > 0
    ensures var t := Next(Solo, Next(Solo, s, Prepare(id, true, true)), Reduce(id, true));
            && CanCommit(t, id) && t.nodes[id].phase.issue == s.nodes[id].phase.issue
            && t.run == s.run && t.used == s.used && t.nodes == s.nodes[id := t.nodes[id]]
  {
    hide Inv, Plan;
    var q := Quorums(s, s.nodes[id].phase.issue);
    IsLocal(Solo, s, id);
    assert s.nodes[id].phase.record == Alone(id);
    var x := PlanInFlight(Solo, s, id);
    assert Top(q) == 0;
    PreparePuts(Solo, s, id, true, true, x);
    SortOfSorted([Alone(id)]);
    assert AtStep([Alone(id)], 0) == [Alone(id)];
    assert Divisor(Solo, q) == 1;
    var u := Next(Solo, s, Prepare(id, true, true));
    ReducePuts(Solo, u, id, true);
  }

  /** A decision commits the replica and leaves every other one as it is. */
  lemma DecideAlone(s: System, id: string)
    requires CanCommit(s, id)
    ensures var t := Next(Solo, s, Decide(id, false, true));
            && id in t.nodes && t.nodes[id] == Decided(Solo, s.nodes[id], false, true).0
            && t.nodes[id].phase.Idle? && t.nodes[id].r.step == 1
            && t.run == s.run && t.nodes.Keys == s.nodes.Keys
            && (forall x :: x in s.nodes && x != id ==> t.nodes[x] == s.nodes[x])
            && (forall x :: x != id && CanCommit(s, x) ==> CanCommit(t, x))
  {
    hide Plan, L.QuorumCompute;
    DecidePuts(Solo, s, id, false, true);
  }

  lemma AfterOneMore(env: Env, events: seq<Event>, e: Event)
    ensures After(env, events + [e]) == Next(env, After(env, events), e)
  {
    assert (events + [e])[..|events|] == events;
  }

  const Opening: seq<Event> := [Join("a"), Join("b")]

  lemma OpeningState()
    ensures After(Solo, Opening)
            == System(L.Run(L.Initial, []),
                      map["a" := Node(Newcomer(), Idle, -1), "b" := Node(Newcomer(), Idle, -1)], {"a", "b"})
    ensures Led(Solo, Opening)
  {
    assert Led(Solo, []);
    LedOneMore([], Join("a"));
    LedOneMore([Join("a")], Join("b"));
    AfterOneMore(Solo, [], Join("a"));
    AfterOneMore(Solo, [Join("a")], Join("b"));
    assert [] + [Join("a")] == [Join("a")];
    assert [Join("a")] + [Join("b")] == Opening;
  }

  /** `id` asks for a quorum of one and works until it can vote. */
  function Round(id: string, now: int): seq<Event> {
    [Ask(id, false, now), Prepare(id, true, true), Reduce(id, true)]
  }

  /** `id` has not started, and nobody else is healthy or waiting. */
  ghost predicate Quiet(s: System, id: string, now: int) {
    && id in s.nodes && s.nodes[id] == Node(Newcomer(), Idle, -1)
    && s.run.state.participants == map[] && s.run.state.quorumId >= 0
    && (forall x :: x in s.nodes ==> !s.nodes[x].phase.Waiting?)
    && (forall x :: x in s.run.state.heartbeats && x != id ==> L.Elapsed(now, s.run.state.heartbeats[x]) >= 10)
    && (s.run.state.prevQuorum.Some? ==> Ids(s.run.state.prevQuorum.value.participants) != [id])
  }

  ghost predicate RoundDone(s: System, id: string, now: int, t: System) {
    var q := Quorum(s.run.state.quorumId + 1, [Alone(id)]);
    && CanCommit(t, id) && t.nodes[id].phase.issue == |s.run.issues|
    && t.nodes == s.nodes[id := t.nodes[id]] && t.used == s.used
    && t.run == L.Run(L.State(map[], Some(q), q.quorumId, s.run.state.heartbeats[id := now]),
                      s.run.issues + [L.Issue(q, {id})])
  }

  lemma RoundFrom(s: System, id: string, now: int)
    requires Inv(Solo, s) && Quiet(s, id, now)
    ensures var s0 := Next(Solo, s, Ask(id, false, now));
            var s1 := Next(Solo, s0, Prepare(id, true, true));
            && RoundDone(s, id, now, Next(Solo, s1, Reduce(id, true)))
            && |s0.run.issues| == |s.run.issues| + 1
            && s0.run.issues[|s.run.issues|].quorum.participants == [Alone(id)]
            && s1.run == s0.run
  {
    hide Next, Inv, Plan, Decided;
    AskAlone(s, id, now);
    AskKeepsInv(Solo, s, id, false, now);
    var s0 := Next(Solo, s, Ask(id, false, now));
    WorkAlone(s0, id);
    var x := PlanInFlight(Solo, s0, id);
    PreparePuts(Solo, s0, id, true, true, x);
  }

  lemma RoundState(events: seq<Event>, id: string, now: int)
    requires Quiet(After(Solo, events), id, now) && Led(Solo, events)
    requires forall x :: x in After(Solo, events).nodes ==> After(Solo, events).nodes[x].r.step == 0
    ensures RoundDone(After(Solo, events), id, now, After(Solo, events + Round(id, now)))
    ensures Led(Solo, events + Round(id, now))
  {
    hide Next, Inv, Decided;
    var s := After(Solo, events);
    var e0, e1, e2 := Ask(id, false, now), Prepare(id, true, true), Reduce(id, true);
    RunsKeepInv(Solo, events);
    RoundFrom(s, id, now);
    AfterOneMore(Solo, events, e0);
    AfterOneMore(Solo, events + [e0], e1);
    AfterOneMore(Solo, events + [e0] + [e1], e2);
    assert events + [e0] + [e1] + [e2] == events + Round(id, now);
    LeaderAlone(s, After(Solo, events + [e0]).run.issues[|s.run.issues|].quorum, id);
    LedOneMore(events, e0);
    LedOneMore(events + [e0], e1);
    LedOneMore(events + [e0] + [e1], e2);
  }

  lemma LeaderAlone(s: System, q: Quorum, id: string)
    requires id in s.nodes && q.participants == [Alone(id)]
    requires forall x :: x in s.nodes ==> s.nodes[x].r.step == 0
    ensures HasLeader(s, q)
  {
    assert q.participants[0].replicaId == id;
  }

  lemma LedOneMore(events: seq<Event>, e: Event)
    requires Led(Solo, events)
    requires var s := After(Solo, events);
             var t := Next(Solo, s, e);
             |t.run.issues| > |s.run.issues| ==> HasLeader(s, t.run.issues[|s.run.issues|].quorum)
    ensures Led(Solo, events + [e])
  {
    AfterOneMore(Solo, events, e);
    assert (events + [e])[..|events|] == events;
  }

  /** A leader in every quorum is not enough: a replica whose vote comes after a quorum was formed without it
      commits the old quorum while the new one commits the same step. Two live replicas are then at step 1
      with different states. */
  lemma LateVotesFork()
    ensures exists events, a, b :: Led(Solo, events) && Forked(After(Solo, events), a, b)
  {
    hide Next, Inv, Decided, Plan;
    OpeningState();
    RoundState(Opening, "a", 0);
    var first := Opening + Round("a", 0);
    assert Ids([Alone("a")])[0] == "a" != "b";
    RoundState(first, "b", 20);
    var second := first + Round("b", 20);
    ForkAtTheEnd(second);
  }

  /** Two replicas in different quorums that both vote. */
  lemma ForkAtTheEnd(second: seq<Event>)
    requires Led(Solo, second)
    requires CanCommit(After(Solo, second), "a") && CanCommit(After(Solo, second), "b")
    requires After(Solo, second).nodes["a"].phase.issue != After(Solo, second).nodes["b"].phase.issue
    ensures exists events, a, b :: Led(Solo, events) && Forked(After(Solo, events), a, b)
  {
    hide Next, Inv, Decided;
    var first, last := Decide("a", false, true), Decide("b", false, true);
    var third, events := second + [first], second + [first] + [last];
    AfterOneMore(Solo, second, first);
    AfterOneMore(Solo, third, last);
    DecideAlone(After(Solo, second), "a");
    DecideAlone(After(Solo, third), "b");
    LedOneMore(second, first);
    LedOneMore(third, last);
    assert events[..|second|] == second && events[..|third|] == third;
    AfterNext(Solo, events, |second|);
    AfterNext(Solo, events, |third|);
    var n, k := After(Solo, second).nodes["a"].phase.issue, After(Solo, third).nodes["b"].phase.issue;
    CommitsOfDifferentQuorumsDiffer(Solo, events, |second|, |third|, n, k);
    assert Forked(After(Solo, events), "a", "b");
  }
}
