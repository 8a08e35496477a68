/** Every step of the cluster keeps `Inv`, and what `Inv` says about ids and process groups. */
module ClusterSteps {
  import opened Protocol
  import opened ReplicaOrder
  import opened Planner
  import opened Manager
  import opened Cluster
  import L = Lighthouse

  // ----- Facts about one quorum

  /** What a member can rely on in the plan of its quorum. */
  ghost predicate PlanFits(env: Env, q: Quorum, m: Member, x: Planner.Response) {
    && x.quorumId == q.quorumId
    && x.maxStep == Top(q)
    && (x.heal <==> Behind(env, q, m))
    && (x.recoverDstReplicaRanks != [] ==> !x.heal)
    && GroupOf(q, m.replicaId, 0) == Some(ProcessGroup(x.quorumId, x.replicaRank, x.replicaWorldSize, 0))
    && Participation(env.cfg, true, x).1 == Divisor(env, q)
    && x.replicaIds == Ids(q.participants)
  }

  lemma PlanOfMember(env: Env, q: Quorum, m: Member)
    requires StrictlySorted(q.participants) && m in q.participants
    ensures var x := Cluster.Response(env, q, m.replicaId);
            x.Some? && PlanFits(env, q, m, x.value)
  {
    StrictlySortedIsUnique(q.participants);
    SortOfSorted(q.participants);
    RanksInPlan(q, env.groupRank, env.cfg.initSync, m);
    HealingHasASource(q, env.groupRank, env.cfg.initSync, m);
    GivenIsHolderRank(env.cfg, true, q, env.groupRank, m);
    var x := Cluster.Response(env, q, m.replicaId).value;
    if x.recoverDstReplicaRanks != [] {
      ServersDoNotHeal(q, env.groupRank, env.cfg.initSync, m);
    }
  }

  lemma {:induction false} SameIdsSameRank(a: seq<Member>, b: seq<Member>, id: string)
    requires Ids(a) == Ids(b)
    ensures RankOf(a, id) == RankOf(b, id) && (HasId(a, id) <==> HasId(b, id)) && |a| == |b|
  {
    assert |Ids(a)| == |a| && |Ids(b)| == |b|;
    forall i | 0 <= i < |a| ensures a[i].replicaId == b[i].replicaId {
      assert Ids(a)[i] == Ids(b)[i];
    }
    var r, t := RankOf(a, id), RankOf(b, id);
    if r.Some? { assert HasId(b, id) by { assert b[r.value].replicaId == id; } }
    if t.Some? { assert HasId(a, id) by { assert a[t.value].replicaId == id; } }
  }

  lemma TopCoversMembers(q: Quorum, m: Member)
    requires m in q.participants
    ensures m.step <= Top(q)
  {
  }

  lemma {:induction false} SinceOfPrefix(issues: seq<L.Issue>, more: L.Issue, n: nat)
    requires n < |issues|
    ensures Since(issues + [more], n) == Since(issues, n)
  {
    if n > 0 { SinceOfPrefix(issues, more, n - 1); }
  }

  lemma IssuesOnlyGoForward(issues: seq<L.Issue>, i: nat, j: nat)
    requires i <= j < |issues|
    requires forall k :: 0 < k < |issues| ==> L.NextInLine(issues[k - 1].quorum, issues[k].quorum)
    ensures issues[i].quorum.quorumId <= issues[j].quorum.quorumId
    ensures issues[i].quorum.quorumId == issues[j].quorum.quorumId ==>
              Ids(issues[i].quorum.participants) == Ids(issues[j].quorum.participants)
    decreases j - i
  {
    if i < j {
      IssuesOnlyGoForward(issues, i, j - 1);
      assert L.NextInLine(issues[j - 1].quorum, issues[j].quorum);
    }
  }

  // ----- Updating one replica

  lemma PutKeepsInv(env: Env, s: System, id: string, node: Node)
    requires Inv(env, s) && id in s.nodes
    requires Local(env, s.run.issues, id, node)
    requires id in s.run.state.participants ==> node.phase == Waiting(s.run.state.participants[id].member)
    ensures Inv(env, Put(s, id, node))
  {
  }

  lemma InFlightIsNotRegistered(env: Env, s: System, id: string)
    requires Inv(env, s) && id in s.nodes && !s.nodes[id].phase.Waiting?
    ensures id !in s.run.state.participants
  {
  }

  lemma UpdateKeepsInv(env: Env, s: System, id: string, node: Node)
    requires Inv(env, s) && id in s.nodes && s.nodes[id].phase.InFlight?
    requires Local(env, s.run.issues, id, node)
    ensures Inv(env, Put(s, id, node))
  {
    InFlightIsNotRegistered(env, s, id);
    PutKeepsInv(env, s, id, node);
  }

  lemma IsLocal(env: Env, s: System, id: string)
    requires Inv(env, s) && id in s.nodes
    ensures Local(env, s.run.issues, id, s.nodes[id])
    ensures s.nodes[id].phase.InFlight? ==> s.nodes[id].phase.issue < |s.run.issues|
    ensures s.nodes[id].phase.InFlight? ==>
              StrictlySorted(s.run.issues[s.nodes[id].phase.issue].quorum.participants)
  {
  }

  // ----- A broadcast

  lemma LocalOutlivesIssue(env: Env, issues: seq<L.Issue>, more: L.Issue, id: string, node: Node)
    requires Local(env, issues, id, node) && !HasId(more.quorum.participants, id)
    ensures Local(env, issues + [more], id, node)
  {
    var all := issues + [more];
    if node.last >= 0 { SinceOfPrefix(issues, more, node.last); }
    if node.phase.InFlight? { SinceOfPrefix(issues, more, node.phase.issue); }
  }

  lemma AssignedIsLocal(env: Env, issues: seq<L.Issue>, more: L.Issue, id: string, node: Node)
    requires Local(env, issues, id, node) && node.phase.Waiting? && node.phase.record in more.quorum.participants
    ensures Local(env, issues + [more], id, node.(phase := InFlight(|issues|, node.phase.record, Assigned)))
  {
    var all := issues + [more];
    assert all[|issues|] == more;
    if node.last >= 0 { SinceOfPrefix(issues, more, node.last); }
  }

  lemma BroadcastIsLocal(env: Env, s: System, st: L.State, issue: L.Issue, id: string)
    requires id in s.nodes && Local(env, s.run.issues, id, s.nodes[id])
    requires forall i :: 0 <= i < |issue.quorum.participants| ==>
               var m := issue.quorum.participants[i];
               m.replicaId in st.participants && m == st.participants[m.replicaId].member
    requires id in st.participants ==> s.nodes[id].phase == Waiting(st.participants[id].member)
    ensures Local(env, s.run.issues + [issue], id, Assign(s.nodes, issue.quorum, |s.run.issues|)[id])
  {
    hide Local;
    var q := issue.quorum;
    if id in L.IdSet(q.participants) {
      var i :| 0 <= i < |q.participants| && q.participants[i].replicaId == id;
      assert q.participants[i] == st.participants[id].member;
      AssignedIsLocal(env, s.run.issues, issue, id, s.nodes[id]);
    } else {
      assert !HasId(q.participants, id);
      LocalOutlivesIssue(env, s.run.issues, issue, id, s.nodes[id]);
    }
  }

  lemma BroadcastKeepsInv(env: Env, s: System, st: L.State, now: int)
    requires Inv(env, s) && L.KeysMatch(st.participants)
    requires st.prevQuorum == s.run.state.prevQuorum && st.quorumId == s.run.state.quorumId
    requires forall id :: id in st.participants ==> id in s.used
    requires forall id :: id in st.participants && id in s.nodes ==>
               s.nodes[id].phase == Waiting(st.participants[id].member)
    ensures Inv(env, Broadcast(s, L.AfterTick(s.run, st, now, env.opt)))
  {
    var run := L.AfterTick(s.run, st, now, env.opt);
    L.TickKeepsConsistency(s.run, st, now, env.opt);
    if L.Tick(st, now, env.opt).1.Some? {
      L.ComputedQuorum(now, st, env.opt);
      var issue := run.issues[|s.run.issues|];
      var q := issue.quorum;
      assert run.issues == s.run.issues + [issue];
      forall id | id in s.nodes
        ensures Local(env, run.issues, id, Assign(s.nodes, q, |s.run.issues|)[id])
      {
        BroadcastIsLocal(env, s, st, issue, id);
      }
      forall k, id | 0 <= k < |run.issues| && HasId(run.issues[k].quorum.participants, id) ensures id in s.used {
        if k == |s.run.issues| {
          var i :| 0 <= i < |q.participants| && q.participants[i].replicaId == id;
          assert q.participants[i].replicaId in st.participants;
        }
      }
    } else {
      assert run.issues == s.run.issues;
    }
  }

  // ----- The quorum thread

  lemma AssignedFacts(env: Env, issues: seq<L.Issue>, id: string, node: Node)
    requires Local(env, issues, id, node) && node.phase.InFlight? && node.phase.stage == Assigned
    ensures var n := node.phase.issue;
            && -1 <= node.last < n < |issues| && Resting(issues, id, node)
            && HasId(issues[n].quorum.participants, id)
            && (n > 0 && HasId(issues[n - 1].quorum.participants, id) ==> node.last == n - 1)
            && (node.r.commitFailures != 0 ==> L.SomeCommitFailed(issues[n].quorum.participants))
  {
    var q := issues[node.phase.issue].quorum;
    var i :| 0 <= i < |q.participants| && q.participants[i] == node.phase.record;
    assert q.participants[i].replicaId == id;
  }

  /** Where the quorum before had the same id, the replica worked on it and kept its group. */
  lemma SameIdKeepsGroup(issues: seq<L.Issue>, id: string, node: Node, n: nat)
    requires -1 <= node.last < n < |issues| && n > 0 && Resting(issues, id, node)
    requires HasId(issues[n].quorum.participants, id)
    requires HasId(issues[n - 1].quorum.participants, id) ==> node.last == n - 1
    requires node.r.commitFailures != 0 ==> L.SomeCommitFailed(issues[n].quorum.participants)
    requires L.NextInLine(issues[n - 1].quorum, issues[n].quorum)
    requires issues[n - 1].quorum.quorumId == issues[n].quorum.quorumId
    ensures node.r.quorumId == issues[n].quorum.quorumId
    ensures node.r.group == GroupOf(issues[n].quorum, id, Since(issues, n))
  {
    SameIdsSameRank(issues[n - 1].quorum.participants, issues[n].quorum.participants, id);
  }

  /** Keeping or renewing the process group gives the right one either way. */
  lemma GroupIsRight(env: Env, issues: seq<L.Issue>, id: string, node: Node)
    requires Local(env, issues, id, node) && node.phase.InFlight? && node.phase.stage == Assigned
    requires issues != [] ==> issues[0].quorum.quorumId == 1
    requires forall k :: 0 < k < |issues| ==> L.NextInLine(issues[k - 1].quorum, issues[k].quorum)
    ensures var q := issues[node.phase.issue].quorum;
            && node.r.quorumId <= q.quorumId
            && (node.r.quorumId == q.quorumId ==> node.r.group == GroupOf(q, id, Since(issues, node.phase.issue)))
            && (node.r.quorumId != q.quorumId ==> Since(issues, node.phase.issue) == 0)
  {
    hide Local, GroupOf, L.NextInLine;
    var n := node.phase.issue;
    AssignedFacts(env, issues, id, node);
    IssuesOnlyGoForward(issues, 0, n);
    if node.last >= 0 {
      IssuesOnlyGoForward(issues, node.last, n - 1);
      IssuesOnlyGoForward(issues, n - 1, n);
    }
    if n > 0 {
      assert L.NextInLine(issues[n - 1].quorum, issues[n].quorum);
      if issues[n - 1].quorum.quorumId == issues[n].quorum.quorumId {
        SameIdKeepsGroup(issues, id, node, n);
      }
    }
  }

  lemma PreparedIsLocal(env: Env, run: L.Run, id: string, node: Node, x: Planner.Response,
                        configureOk: bool, sendOk: bool)
    requires L.Consistent(run) && Local(env, run.issues, id, node)
    requires node.phase.InFlight? && node.phase.stage == Assigned
    requires PlanFits(env, run.issues[node.phase.issue].quorum, node.phase.record, x)
    ensures Local(env, run.issues, id, Prepared(env, node, x, configureOk, sendOk))
  {
    var n, m := node.phase.issue, node.phase.record;
    var q := run.issues[n].quorum;
    GroupIsRight(env, run.issues, id, node);
    TopCoversMembers(q, m);
    var after := Prepared(env, node, x, configureOk, sendOk);
    assert HasId(q.participants, id);
    assert Holds(after.r) == Holds(node.r);
    assert !Behind(env, q, m) ==> m.step == Top(q);
  }

  /** Nothing was committed at step 0. */
  ghost predicate Plausible(env: Env, c: Checkpoint) {
    && 0 <= c.step
    && (c.step == 0 ==> c.batches == 0)
    && (c.step == 0 && !env.cfg.initSync ==> c.weights == Seeded)
  }

  lemma HealedIsLocal(env: Env, issues: seq<L.Issue>, id: string, node: Node, x: Planner.Response,
                      fetched: Option<Checkpoint>)
    requires Local(env, issues, id, node) && node.phase.InFlight? && node.phase.stage == Fetching
    requires PlanFits(env, issues[node.phase.issue].quorum, node.phase.record, x)
    requires fetched.Some? ==> fetched.value.step == x.maxStep && Plausible(env, fetched.value)
    ensures Local(env, issues, id, Healed(env, node, x, fetched))
    ensures fetched.Some? ==> Holds(Healed(env, node, x, fetched).r) == fetched.value
    ensures fetched.None? ==> Holds(Healed(env, node, x, fetched).r) == Holds(node.r)
  {
    TopCoversMembers(issues[node.phase.issue].quorum, node.phase.record);
  }

  /** Whatever is fetched is what the peer holds, and the peer is in flight at its quorum's top step. */
  lemma FetchedIsHeld(env: Env, s: System, x: Planner.Response) returns (src: string)
    requires Inv(env, s) && Fetched(s, x).Some?
    ensures x.recoverSrcReplicaRank.Some? && x.recoverSrcReplicaRank.value < |x.replicaIds|
    ensures src == x.replicaIds[x.recoverSrcReplicaRank.value]
    ensures Serves(env, s, src, Fetched(s, x).value) && Fetched(s, x).value.step == x.maxStep
  {
    src := x.replicaIds[x.recoverSrcReplicaRank.value];
    assert Local(env, s.run.issues, src, s.nodes[src]);
    assert Serves(env, s, src, Fetched(s, x).value);
  }

  ghost predicate Serves(env: Env, s: System, src: string, c: Checkpoint) {
    && src in s.nodes && s.nodes[src].phase.InFlight? && s.nodes[src].phase.issue < |s.run.issues|
    && (s.nodes[src].phase.stage == Ready || s.nodes[src].phase.stage == Voting)
    && c == Holds(s.nodes[src].r) && c.step == Top(Quorums(s, s.nodes[src].phase.issue))
    && !Behind(env, Quorums(s, s.nodes[src].phase.issue), s.nodes[src].phase.record)
  }

  // ----- The rest of a step

  lemma ReducedIsLocal(env: Env, issues: seq<L.Issue>, id: string, node: Node, ok: bool)
    requires Local(env, issues, id, node) && node.phase.InFlight? && node.phase.stage == Ready
    requires StrictlySorted(issues[node.phase.issue].quorum.participants)
    ensures Local(env, issues, id, node.(r := Reduced(node.r, ok), phase := node.phase.(stage := Voting)))
    ensures Holds(Reduced(node.r, ok)) == Holds(node.r)
  {
    var q := issues[node.phase.issue].quorum;
    assert HasId(q.participants, id);
  }

  lemma DecidedIsLocal(env: Env, issues: seq<L.Issue>, id: string, node: Node, groupError: bool, peersAgree: bool)
    requires Local(env, issues, id, node) && node.phase.InFlight? && node.phase.stage == Voting
    ensures Local(env, issues, id, Decided(env, node, groupError, peersAgree).0)
  {
  }

  lemma ReportedIsLocal(env: Env, issues: seq<L.Issue>, id: string, node: Node)
    requires Local(env, issues, id, node) && node.phase.InFlight?
    requires node.phase.stage == Ready || node.phase.stage == Voting
    ensures Local(env, issues, id, node.(r := node.r.(errored := true)))
  {
  }

  // ----- All events

  lemma AskedKeepsInv(env: Env, s: System, id: string, shrinkOnly: bool)
    requires Inv(env, s) && id in s.nodes && s.nodes[id].phase.Idle?
    ensures Inv(env, Asked(env, s, id, shrinkOnly))
    ensures Asked(env, s, id, shrinkOnly).nodes[id].phase.record.replicaId == id
  {
    hide Linked, L.Consistent;
    InFlightIsNotRegistered(env, s, id);
    var t := Asked(env, s, id, shrinkOnly);
    assert Local(env, s.run.issues, id, s.nodes[id]);
    assert Local(env, s.run.issues, id, t.nodes[id]);
    PutKeepsInv(env, s, id, t.nodes[id]);
  }

  lemma AskKeepsInv(env: Env, s: System, id: string, shrinkOnly: bool, now: int)
    requires Inv(env, s) && id in s.nodes && s.nodes[id].phase.Idle?
    ensures Inv(env, Next(env, s, Ask(id, shrinkOnly, now)))
  {
    var t := Asked(env, s, id, shrinkOnly);
    AskedKeepsInv(env, s, id, shrinkOnly);
    AskBroadcasts(env, s, id, shrinkOnly, now);
    RegisteredBroadcastKeepsInv(env, t, id, now);
  }

  lemma AskBroadcasts(env: Env, s: System, id: string, shrinkOnly: bool, now: int)
    requires id in s.nodes && s.nodes[id].phase.Idle?
    ensures var t := Asked(env, s, id, shrinkOnly);
            Next(env, s, Ask(id, shrinkOnly, now))
            == Broadcast(t, L.Step(t.run, L.QuorumRequested(t.nodes[id].phase.record, now), env.opt))
  {
  }

  lemma RegisteredBroadcastKeepsInv(env: Env, t: System, id: string, now: int)
    requires Inv(env, t) && id in t.nodes && t.nodes[id].phase.Waiting? && t.nodes[id].phase.record.replicaId == id
    ensures Inv(env, Broadcast(t, L.Step(t.run, L.QuorumRequested(t.nodes[id].phase.record, now), env.opt)))
  {
    var st := L.Before(t.run.state, L.QuorumRequested(t.nodes[id].phase.record, now));
    BroadcastKeepsInv(env, t, st, now);
  }

  /** The plan of a replica in flight. */
  lemma PlanInFlight(env: Env, s: System, id: string) returns (x: Planner.Response)
    requires Inv(env, s) && (At(s, id, Assigned) || At(s, id, Fetching))
    ensures Cluster.Response(env, Quorums(s, s.nodes[id].phase.issue), id) == Some(x)
    ensures PlanFits(env, Quorums(s, s.nodes[id].phase.issue), s.nodes[id].phase.record, x)
    ensures !s.nodes[id].r.healing
    ensures Local(env, s.run.issues, id, s.nodes[id])
  {
    IsLocal(env, s, id);
    PlanOfMember(env, Quorums(s, s.nodes[id].phase.issue), s.nodes[id].phase.record);
    x := Cluster.Response(env, Quorums(s, s.nodes[id].phase.issue), id).value;
  }

  lemma PreparePuts(env: Env, s: System, id: string, configureOk: bool, sendOk: bool, x: Planner.Response)
    requires At(s, id, Assigned)
    requires Cluster.Response(env, Quorums(s, s.nodes[id].phase.issue), id) == Some(x)
    ensures Next(env, s, Prepare(id, configureOk, sendOk))
            == Put(s, id, Prepared(env, s.nodes[id], x, configureOk, sendOk))
  {
    hide Plan;
  }

  lemma FetchPuts(env: Env, s: System, id: string, ok: bool, x: Planner.Response)
    requires At(s, id, Fetching)
    requires Cluster.Response(env, Quorums(s, s.nodes[id].phase.issue), id) == Some(x)
    ensures Next(env, s, Fetch(id, ok))
            == Put(s, id, Healed(env, s.nodes[id], x, if ok then Fetched(s, x) else None))
  {
    hide Plan;
  }

  lemma PrepareKeepsInv(env: Env, s: System, id: string, configureOk: bool, sendOk: bool)
    requires Inv(env, s) && At(s, id, Assigned)
    ensures Inv(env, Next(env, s, Prepare(id, configureOk, sendOk)))
  {
    var x := PlanInFlight(env, s, id);
    PreparePuts(env, s, id, configureOk, sendOk, x);
    PreparedIsLocal(env, s.run, id, s.nodes[id], x, configureOk, sendOk);
    UpdateKeepsInv(env, s, id, Prepared(env, s.nodes[id], x, configureOk, sendOk));
  }

  lemma FetchKeepsInv(env: Env, s: System, id: string, ok: bool)
    requires Inv(env, s) && At(s, id, Fetching)
    ensures Inv(env, Next(env, s, Fetch(id, ok)))
  {
    var x := PlanInFlight(env, s, id);
    FetchPuts(env, s, id, ok, x);
    var c := if ok then Fetched(s, x) else None;
    if c.Some? { var src := FetchedIsHeld(env, s, x); }
    HealedIsLocal(env, s.run.issues, id, s.nodes[id], x, c);
    UpdateKeepsInv(env, s, id, Healed(env, s.nodes[id], x, c));
  }

  lemma ReducePuts(env: Env, s: System, id: string, ok: bool)
    requires At(s, id, Ready)
    ensures Next(env, s, Reduce(id, ok))
            == Put(s, id, s.nodes[id].(r := Reduced(s.nodes[id].r, ok), phase := s.nodes[id].phase.(stage := Voting)))
  {
  }

  lemma ReduceKeepsInv(env: Env, s: System, id: string, ok: bool)
    requires Inv(env, s) && At(s, id, Ready)
    ensures Inv(env, Next(env, s, Reduce(id, ok)))
  {
    ReducePuts(env, s, id, ok);
    IsLocal(env, s, id);
    ReducedIsLocal(env, s.run.issues, id, s.nodes[id], ok);
    UpdateKeepsInv(env, s, id,
      s.nodes[id].(r := Reduced(s.nodes[id].r, ok), phase := s.nodes[id].phase.(stage := Voting)));
  }

  lemma ReportPuts(env: Env, s: System, id: string)
    requires At(s, id, Ready) || At(s, id, Voting)
    ensures Next(env, s, Report(id)) == Put(s, id, s.nodes[id].(r := s.nodes[id].r.(errored := true)))
  {
  }

  lemma ReportKeepsInv(env: Env, s: System, id: string)
    requires Inv(env, s) && (At(s, id, Ready) || At(s, id, Voting))
    ensures Inv(env, Next(env, s, Report(id)))
  {
    ReportPuts(env, s, id);
    IsLocal(env, s, id);
    ReportedIsLocal(env, s.run.issues, id, s.nodes[id]);
    UpdateKeepsInv(env, s, id, s.nodes[id].(r := s.nodes[id].r.(errored := true)));
  }

  lemma CrashKeepsInv(env: Env, s: System, id: string)
    requires Inv(env, s)
    ensures Inv(env, s.(nodes := s.nodes - {id}))
  {
  }

  lemma DecidePuts(env: Env, s: System, id: string, groupError: bool, peersAgree: bool)
    requires At(s, id, Voting)
    ensures var (after, d) := Decided(env, s.nodes[id], groupError, peersAgree);
            Next(env, s, Decide(id, groupError, peersAgree))
            == if d.Raise? then s.(nodes := s.nodes - {id}) else Put(s, id, after)
  {
  }

  lemma DecideKeepsInv(env: Env, s: System, id: string, groupError: bool, peersAgree: bool)
    requires Inv(env, s) && At(s, id, Voting)
    ensures Inv(env, Next(env, s, Decide(id, groupError, peersAgree)))
  {
    DecidePuts(env, s, id, groupError, peersAgree);
    IsLocal(env, s, id);
    DecidedIsLocal(env, s.run.issues, id, s.nodes[id], groupError, peersAgree);
    UpdateKeepsInv(env, s, id, Decided(env, s.nodes[id], groupError, peersAgree).0);
    CrashKeepsInv(env, s, id);
  }

  lemma JoinKeepsInv(env: Env, s: System, id: string)
    requires Inv(env, s) && id !in s.used
    ensures Inv(env, Next(env, s, Join(id)))
  {
    assert Local(env, s.run.issues, id, Node(Fresh(FirstWeights(env, id)), Idle, -1));
  }

  lemma AskAgainKeepsInv(env: Env, s: System, id: string, now: int)
    requires Inv(env, s) && id in s.nodes && s.nodes[id].phase.Waiting?
    ensures Inv(env, Next(env, s, AskAgain(id, now)))
  {
    assert Local(env, s.run.issues, id, s.nodes[id]);
    var run := L.Step(s.run, L.RegistersAgain(s.nodes[id].phase.record, now), env.opt);
    assert Next(env, s, AskAgain(id, now)) == s.(run := run);
  }

  lemma NextKeepsInv(env: Env, s: System, e: Event)
    requires Inv(env, s)
    ensures Inv(env, Next(env, s, e))
  {
    hide Local;
    match e
    case Join(id) => if id !in s.used { JoinKeepsInv(env, s, id); }
    case Crash(id) => CrashKeepsInv(env, s, id);
    case Beat(_, _) =>
    case AskAgain(id, now) =>
      if id in s.nodes && s.nodes[id].phase.Waiting? { AskAgainKeepsInv(env, s, id, now); }
    case Ask(id, shrinkOnly, now) =>
      if id in s.nodes && s.nodes[id].phase.Idle? { AskKeepsInv(env, s, id, shrinkOnly, now); }
    case Tick(now) => BroadcastKeepsInv(env, s, s.run.state, now);
    case Prepare(id, configureOk, sendOk) =>
      if At(s, id, Assigned) { PrepareKeepsInv(env, s, id, configureOk, sendOk); }
    case Fetch(id, ok) => if At(s, id, Fetching) { FetchKeepsInv(env, s, id, ok); }
    case Reduce(id, ok) => if At(s, id, Ready) { ReduceKeepsInv(env, s, id, ok); }
    case Report(id) => if At(s, id, Ready) || At(s, id, Voting) { ReportKeepsInv(env, s, id); }
    case Decide(id, groupError, peersAgree) =>
      if At(s, id, Voting) { DecideKeepsInv(env, s, id, groupError, peersAgree); }
  }

  lemma AfterNext(env: Env, events: seq<Event>, i: nat)
    requires i < |events|
    ensures After(env, events[..i + 1]) == Next(env, After(env, events[..i]), events[i])
  {
    assert events[..i + 1][..i] == events[..i];
  }

  lemma {:induction false} RunsKeepInv(env: Env, events: seq<Event>)
    ensures Inv(env, After(env, events))
  {
    if events != [] {
      RunsKeepInv(env, events[..|events| - 1]);
      NextKeepsInv(env, After(env, events[..|events| - 1]), events[|events| - 1]);
    }
  }
}
