/** What the whole protocol guarantees beyond equal states: ids, process groups and batch counts. */
module ClusterResults {
  import opened Protocol
  import opened ReplicaOrder
  import opened Planner
  import opened Manager
  import opened Cluster
  import opened ClusterSteps
  import L = Lighthouse

  // ----- Process groups and quorum ids

  /** In every run, a replica that is working without an error has the process group of its quorum: its id,
      this replica's rank in it and its size, whether or not it reconfigured; all its members have run the
      same number of collectives on it, so their next collective is the same one. */
  lemma WorkersShareTheirGroup(env: Env, events: seq<Event>, a: string, b: string)
    requires var s := After(env, events);
             && (At(s, a, Ready) || At(s, a, Voting)) && (At(s, b, Ready) || At(s, b, Voting))
             && !s.nodes[a].r.errored && !s.nodes[b].r.errored
             && s.nodes[a].phase.issue == s.nodes[b].phase.issue
    ensures var s := After(env, events);
            var q := Quorums(s, s.nodes[a].phase.issue);
            var x, y := s.nodes[a].r, s.nodes[b].r;
            && x.group.Some? && x.group.value.id == q.quorumId && x.group.value.worldSize == |q.participants|
            && x.group.value.rank < |q.participants| && q.participants[x.group.value.rank].replicaId == a
            && (s.nodes[a].phase.stage == s.nodes[b].phase.stage ==>
                  y.group.Some? && x.group.value.ops == y.group.value.ops
                  && (s.nodes[a].phase.stage == Voting ==> x.gradient == y.gradient && x.gradient.Some?))
            && x.worldSize == y.worldSize
  {
    hide After, Next, L.Consistent, Linked;
    var s := After(env, events);
    RunsKeepInv(env, events);
    IsLocal(env, s, a);
    IsLocal(env, s, b);
    var q := Quorums(s, s.nodes[a].phase.issue);
    assert HasId(q.participants, a) && HasId(q.participants, b);
  }

  /** One configure step, successful or not: the stored id becomes the quorum's, which is not lower, and the group
      changes only with the id. */
  lemma IdsStoredOnlyRise(env: Env, events: seq<Event>, id: string, configureOk: bool, sendOk: bool)
    requires At(After(env, events), id, Assigned)
    ensures var s := After(env, events);
            var t := Next(env, s, Prepare(id, configureOk, sendOk));
            && id in t.nodes
            && s.nodes[id].r.quorumId <= t.nodes[id].r.quorumId == Quorums(s, s.nodes[id].phase.issue).quorumId
            && (t.nodes[id].r.quorumId == s.nodes[id].r.quorumId ==> t.nodes[id].r.group == s.nodes[id].r.group)
  {
    var s := After(env, events);
    RunsKeepInv(env, events);
    IsLocal(env, s, id);
    GroupIsRight(env, s.run.issues, id, s.nodes[id]);
    var x := PlanInFlight(env, s, id);
    PreparePuts(env, s, id, configureOk, sendOk, x);
  }

  /** After a failed step, for whatever reason, the next quorum with that replica has an id above
      all earlier ones, so every member of it has to reconfigure. */
  lemma FailedStepIsAbandoned(env: Env, events: seq<Event>, a: string, b: string)
    requires var s := After(env, events);
             && At(s, a, Assigned) && At(s, b, Assigned) && s.nodes[a].phase.issue == s.nodes[b].phase.issue
             && s.nodes[a].r.commitFailures > 0
    ensures var s := After(env, events);
            var n := s.nodes[a].phase.issue;
            && (forall k :: 0 <= k < n ==> Quorums(s, k).quorumId < Quorums(s, n).quorumId)
            && s.nodes[b].r.quorumId < Quorums(s, n).quorumId
  {
    var s := After(env, events);
    RunsKeepInv(env, events);
    IsLocal(env, s, a);
    IsLocal(env, s, b);
    var n := s.nodes[a].phase.issue;
    var q := Quorums(s, n);
    var i :| 0 <= i < |q.participants| && q.participants[i] == s.nodes[a].phase.record;
    assert L.SomeCommitFailed(q.participants);
    forall k | 0 <= k < n ensures Quorums(s, k).quorumId < q.quorumId {
      assert L.NextInLine(Quorums(s, n - 1), q);
      IssuesOnlyGoForward(s.run.issues, k, n - 1);
    }
    IssuesOnlyGoForward(s.run.issues, 0, n);
    var last := s.nodes[b].last;
    assert last < n && (last >= 0 ==> s.nodes[b].r.quorumId == Quorums(s, last).quorumId);
  }

  /** A decision against committing always leaves a failure count behind, also after a failed configure. */
  lemma EveryFailureIsRemembered(env: Env, s: System, id: string, groupError: bool, peersAgree: bool)
    requires At(s, id, Voting)
    requires Decided(env, s.nodes[id], groupError, peersAgree).1.Skip?
    ensures var t := Next(env, s, Decide(id, groupError, peersAgree));
            && id in t.nodes && t.nodes[id].r.commitFailures > 0
            && t.nodes[id].r.step == s.nodes[id].r.step && t.nodes[id].r.batches == s.nodes[id].r.batches
            && Holds(t.nodes[id].r) == Holds(s.nodes[id].r)
  {
    DecidePuts(env, s, id, groupError, peersAgree);
  }

  // ----- What each step of a replica comes to, exactly

  /** In every run: a replica that votes goes on to the next step, with its failures forgotten and the quorum's average
      applied, exactly if it has no error, the group has none, its peers agree and there are enough participants, be it
      healing or a rank holder or not. Otherwise it keeps what it holds and counts a failure, and it stops exactly when
      it has had as many as it may have. */
  lemma CommitsExactlyWhen(env: Env, events: seq<Event>, id: string, groupError: bool, peersAgree: bool)
    requires At(After(env, events), id, Voting)
    ensures var s := After(env, events);
            var t := Next(env, s, Decide(id, groupError, peersAgree));
            var r, n := s.nodes[id].r, s.nodes[id].phase.issue;
            var q := Quorums(s, n);
            if !r.errored && !groupError && peersAgree && Divisor(env, q) >= env.cfg.minReplicaSize then
              && id in t.nodes && t.nodes[id].phase == Idle
              && t.nodes[id].r.step == r.step + 1 == Top(q) + 1 && t.nodes[id].r.commitFailures == 0
              && t.nodes[id].r.batches == r.batches + Divisor(env, q)
              && t.nodes[id].r.weights
                 == Applied(Holds(r).weights, Collective(q.quorumId, Since(s.run.issues, n)), Divisor(env, q))
            else
              && (id in t.nodes <==> (env.cfg.maxRetries.Some? ==> r.commitFailures < env.cfg.maxRetries.value))
              && (id in t.nodes ==>
                    && t.nodes[id].phase == Idle
                    && t.nodes[id].r.step == r.step && t.nodes[id].r.batches == r.batches
                    && t.nodes[id].r.commitFailures == r.commitFailures + 1
                    && t.nodes[id].r.weights == Holds(r).weights)
  {
    hide After;
    var s := After(env, events);
    RunsKeepInv(env, events);
    IsLocal(env, s, id);
    DecisionComesTo(env, s.run.issues, id, s.nodes[id], groupError, peersAgree);
    hide Decided, Local, Inv;
    DecidePuts(env, s, id, groupError, peersAgree);
  }

  lemma DecisionComesTo(env: Env, issues: seq<L.Issue>, id: string, node: Node, groupError: bool, peersAgree: bool)
    requires Local(env, issues, id, node) && node.phase.InFlight? && node.phase.stage == Voting
    ensures var (after, d) := Decided(env, node, groupError, peersAgree);
            var r, n := node.r, node.phase.issue;
            var q := issues[n].quorum;
            && n < |issues| && after.phase == Idle
            && if !r.errored && !groupError && peersAgree && Divisor(env, q) >= env.cfg.minReplicaSize then
                 && d.Commit?
                 && after.r.step == r.step + 1 == Top(q) + 1 && after.r.commitFailures == 0
                 && after.r.batches == r.batches + Divisor(env, q)
                 && after.r.weights
                    == Applied(Holds(r).weights, Collective(q.quorumId, Since(issues, n)), Divisor(env, q))
               else
                 && !d.Commit?
                 && (d.Raise? <==> env.cfg.maxRetries.Some? && r.commitFailures >= env.cfg.maxRetries.value)
                 && after.r.step == r.step && after.r.batches == r.batches
                 && after.r.commitFailures == r.commitFailures + 1 && after.r.weights == Holds(r).weights
  {
  }

  /** In every run: a replica that is given a quorum ends its configuring, and sending, with an error exactly if one of
      them fails where it is called for. It goes on to fetch exactly if it is behind and configuring went well. */
  lemma PreparesExactly(env: Env, events: seq<Event>, id: string, configureOk: bool, sendOk: bool)
    requires At(After(env, events), id, Assigned)
    ensures var s := After(env, events);
            var t := Next(env, s, Prepare(id, configureOk, sendOk));
            var r, n := s.nodes[id].r, s.nodes[id].phase.issue;
            var q := Quorums(s, n);
            var x := Cluster.Response(env, q, id);
            var configured := r.quorumId == q.quorumId || configureOk;
            && x.Some? && id in t.nodes && t.nodes[id].phase.InFlight? && t.nodes[id].phase.issue == n
            && (t.nodes[id].phase.stage == Fetching <==> configured && Behind(env, q, s.nodes[id].phase.record))
            && (t.nodes[id].phase.stage == Ready <==> !(configured && Behind(env, q, s.nodes[id].phase.record)))
            && (t.nodes[id].r.errored <==> !configured || (x.value.recoverDstReplicaRanks != [] && !sendOk))
            && (configured ==> t.nodes[id].r.group == GroupOf(q, id, Since(s.run.issues, n)))
            && (t.nodes[id].r.serving.Some? <==>
                  configured && x.value.recoverDstReplicaRanks != [] && sendOk)
            && t.nodes[id].r.worldSize == Divisor(env, q) && Holds(t.nodes[id].r) == Holds(r)
  {
    hide After;
    var s := After(env, events);
    RunsKeepInv(env, events);
    IsLocal(env, s, id);
    var x := PlanInFlight(env, s, id);
    GroupIsRight(env, s.run.issues, id, s.nodes[id]);
    PreparedComesTo(env, s.run.issues, id, s.nodes[id], x, configureOk, sendOk);
    hide Prepared, Local, Inv;
    PreparePuts(env, s, id, configureOk, sendOk, x);
  }

  lemma PreparedComesTo(env: Env, issues: seq<L.Issue>, id: string, node: Node, x: Planner.Response,
                        configureOk: bool, sendOk: bool)
    requires Local(env, issues, id, node) && node.phase.InFlight? && node.phase.stage == Assigned
    requires PlanFits(env, issues[node.phase.issue].quorum, node.phase.record, x)
    requires node.r.quorumId == x.quorumId ==>
               node.r.group == GroupOf(issues[node.phase.issue].quorum, id, Since(issues, node.phase.issue))
    requires node.r.quorumId != x.quorumId ==> Since(issues, node.phase.issue) == 0
    ensures var after := Prepared(env, node, x, configureOk, sendOk);
            var r, n := node.r, node.phase.issue;
            var q := issues[n].quorum;
            var configured := r.quorumId == q.quorumId || configureOk;
            && after.phase.InFlight? && after.phase.issue == n
            && (after.phase.stage == Fetching <==> configured && Behind(env, q, node.phase.record))
            && (after.phase.stage == Ready <==> !(configured && Behind(env, q, node.phase.record)))
            && (after.r.errored <==> !configured || (x.recoverDstReplicaRanks != [] && !sendOk))
            && (configured ==> after.r.group == GroupOf(q, id, Since(issues, n)))
            && (after.r.serving.Some? <==> configured && x.recoverDstReplicaRanks != [] && sendOk)
            && after.r.worldSize == Divisor(env, q) && Holds(after.r) == Holds(r)
  {
  }

  /** In every run: a replica that fetches ends up at the top step, with what its peer holds and no error, exactly if
      fetching goes well and the peer its plan names is live and serves that step; else with an error and its state. */
  lemma FetchesExactly(env: Env, events: seq<Event>, id: string, ok: bool)
    requires At(After(env, events), id, Fetching)
    ensures var s := After(env, events);
            var t := Next(env, s, Fetch(id, ok));
            var q := Quorums(s, s.nodes[id].phase.issue);
            var x := Cluster.Response(env, q, id);
            && x.Some? && x.value.recoverSrcReplicaRank.Some?
            && x.value.recoverSrcReplicaRank.value < |x.value.replicaIds|
            && var src := x.value.replicaIds[x.value.recoverSrcReplicaRank.value];
               var served := src in s.nodes && s.nodes[src].r.serving.Some? && s.nodes[src].r.step == Top(q);
               && At(t, id, Ready) && (t.nodes[id].r.errored <==> !(ok && served))
               && (ok && served ==> t.nodes[id].r.step == Top(q) && Holds(t.nodes[id].r) == Holds(s.nodes[src].r))
               && (!(ok && served) ==> Holds(t.nodes[id].r) == Holds(s.nodes[id].r))
  {
    hide After, Local, Plan, L.Consistent, Linked;
    var s := After(env, events);
    RunsKeepInv(env, events);
    IsLocal(env, s, id);
    var x := PlanInFlight(env, s, id);
    var q := Quorums(s, s.nodes[id].phase.issue);
    FetchersHaveASource(env, s, id);
    var src := x.replicaIds[x.recoverSrcReplicaRank.value];
    if src in s.nodes && s.nodes[src].r.serving.Some? {
      IsLocal(env, s, src);
      ServingIsHeld(env, s.run.issues, src, s.nodes[src]);
    }
    FetchComesTo(env, s.run.issues, id, s.nodes[id], x, if ok then Fetched(s, x) else None);
    hide Healed, Inv;
    FetchPuts(env, s, id, ok, x);
  }

  lemma ServingIsHeld(env: Env, issues: seq<L.Issue>, id: string, node: Node)
    requires Local(env, issues, id, node) && node.r.serving.Some?
    ensures node.r.serving.value == Holds(node.r)
  {
  }

  lemma FetchComesTo(env: Env, issues: seq<L.Issue>, id: string, node: Node, x: Planner.Response,
                     fetched: Option<Checkpoint>)
    requires Local(env, issues, id, node) && node.phase.InFlight? && node.phase.stage == Fetching
    requires PlanFits(env, issues[node.phase.issue].quorum, node.phase.record, x)
    requires fetched.Some? ==> fetched.value.step == x.maxStep
    ensures var after := Healed(env, node, x, fetched);
            && after.phase == node.phase.(stage := Ready)
            && (after.r.errored <==> fetched.None?)
            && (fetched.Some? ==> Holds(after.r) == fetched.value)
            && (fetched.None? ==> Holds(after.r) == Holds(node.r))
  {
  }

  lemma FetchersHaveASource(env: Env, s: System, id: string)
    requires Inv(env, s) && At(s, id, Fetching)
    ensures var x := Cluster.Response(env, Quorums(s, s.nodes[id].phase.issue), id);
            && x.Some? && x.value.recoverSrcReplicaRank.Some?
            && x.value.recoverSrcReplicaRank.value < |x.value.replicaIds|
  {
    IsLocal(env, s, id);
    var q, m := Quorums(s, s.nodes[id].phase.issue), s.nodes[id].phase.record;
    var x := PlanInFlight(env, s, id);
    StrictlySortedIsUnique(q.participants);
    HealingHasASource(q, env.groupRank, env.cfg.initSync, m);
    var b :| RecoversFrom(q, env.groupRank, env.cfg.initSync, x, b);
    PlansAgree(q, env.groupRank, env.cfg.initSync, b, m);
  }

  /** In every run: a replica without an error gets its quorum's next collective exactly if that goes well, and an error
      otherwise; one with an error gets nothing. */
  lemma ReducesExactly(env: Env, events: seq<Event>, id: string, ok: bool)
    requires At(After(env, events), id, Ready)
    ensures var s := After(env, events);
            var t := Next(env, s, Reduce(id, ok));
            var r, n := s.nodes[id].r, s.nodes[id].phase.issue;
            && At(t, id, Voting) && (t.nodes[id].r.errored <==> r.errored || !ok)
            && (!t.nodes[id].r.errored ==>
                  t.nodes[id].r.gradient == Some(Collective(Quorums(s, n).quorumId, Since(s.run.issues, n))))
            && Holds(t.nodes[id].r) == Holds(r)
  {
    hide After;
    var s := After(env, events);
    RunsKeepInv(env, events);
    IsLocal(env, s, id);
    assert HasId(Quorums(s, s.nodes[id].phase.issue).participants, id);
    ReducePuts(env, s, id, ok);
  }

  /** Asking registers what the replica is at now, without an error of the step before; asking again does so anew. */
  lemma AsksWithItsRecord(env: Env, events: seq<Event>, id: string, shrinkOnly: bool, now: int)
    requires id in After(env, events).nodes && !After(env, events).nodes[id].phase.InFlight?
    ensures var s := After(env, events);
            var r := s.nodes[id].r;
            var t := Next(env, s, if s.nodes[id].phase.Idle? then Ask(id, shrinkOnly, now) else AskAgain(id, now));
            && id in t.nodes && !t.nodes[id].r.errored && !t.nodes[id].phase.Idle?
            && t.nodes[id].phase.record.replicaId == id && t.nodes[id].phase.record.step == r.step
            && t.nodes[id].phase.record.commitFailures == r.commitFailures
            && (s.nodes[id].phase.Idle? ==> t.nodes[id].phase.record.shrinkOnly == shrinkOnly)
            && (t.nodes[id].phase.Waiting? ==>
                  t.run.issues == s.run.issues ==>
                    && id in t.run.state.participants
                    && t.run.state.participants[id] == L.Details(now, t.nodes[id].phase.record))
  {
    hide After, L.QuorumCompute, L.Consistent, Linked;
    var s := After(env, events);
    RunsKeepInv(env, events);
    IsLocal(env, s, id);
    if s.nodes[id].phase.Idle? {
      AskBroadcasts(env, s, id, shrinkOnly, now);
    }
  }

  // ----- Over a run

  /** A replica that is gone stays gone, so one that is there now and was there before never left. */
  lemma IdsAreNotReused(env: Env, s: System, e: Event, id: string)
    requires Inv(env, s)
    ensures id in s.used ==> id in Next(env, s, e).used
    ensures id in s.used && id in Next(env, s, e).nodes ==> id in s.nodes
  {
    hide Local, Plan;
  }

  lemma StepKeepsStoredId(env: Env, s: System, e: Event, id: string)
    requires Inv(env, s) && id in s.nodes && id in Next(env, s, e).nodes
    ensures s.nodes[id].r.quorumId <= Next(env, s, e).nodes[id].r.quorumId
  {
    hide Local, Plan;
    if e.Prepare? && e.id == id && At(s, id, Assigned) {
      IsLocal(env, s, id);
      GroupIsRight(env, s.run.issues, id, s.nodes[id]);
      var x := PlanInFlight(env, s, id);
      PreparePuts(env, s, id, e.configureOk, e.sendOk, x);
    }
  }

  lemma {:induction false} StoredIdsRise(env: Env, events: seq<Event>, i: nat, id: string)
    requires i <= |events| && id in After(env, events[..i]).nodes
    ensures id in After(env, events).used
    ensures id in After(env, events).nodes ==>
              After(env, events[..i]).nodes[id].r.quorumId <= After(env, events).nodes[id].r.quorumId
    decreases |events|
  {
    hide Next, Local;
    if i == |events| {
      assert events[..i] == events;
      RunsKeepInv(env, events);
    } else {
      var before, e := events[..|events| - 1], events[|events| - 1];
      assert before[..i] == events[..i];
      StoredIdsRise(env, before, i, id);
      RunsKeepInv(env, before);
      IdsAreNotReused(env, After(env, before), e, id);
      if id in After(env, events).nodes {
        StepKeepsStoredId(env, After(env, before), e, id);
      }
    }
  }

  /** Step `i` of the run configures the process group of `id`, for the quorum with the id `quorumId`. */
  ghost predicate Configures(env: Env, events: seq<Event>, i: nat, id: string, quorumId: int) {
    && i < |events| && events[i].Prepare? && events[i].id == id
    && var s := After(env, events[..i]);
       && At(s, id, Assigned) && quorumId == Quorums(s, s.nodes[id].phase.issue).quorumId
       && s.nodes[id].r.quorumId != quorumId
  }

  /** Over a whole run, failed configures included, a replica configures with ever higher ids: never twice with one. */
  lemma NeverConfiguresTwice(env: Env, events: seq<Event>, i: nat, j: nat, id: string, first: int, second: int)
    requires i < j && Configures(env, events, i, id, first) && Configures(env, events, j, id, second)
    ensures first < second
  {
    hide Next, Local;
    var e := events[i];
    IdsStoredOnlyRise(env, events[..i], id, e.configureOk, e.sendOk);
    AfterNext(env, events, i);
    assert events[..j][..i + 1] == events[..i + 1];
    StoredIdsRise(env, events[..j], i + 1, id);
    var s := After(env, events[..j]);
    RunsKeepInv(env, events[..j]);
    IsLocal(env, s, id);
    GroupIsRight(env, s.run.issues, id, s.nodes[id]);
  }

  /** After a failed step and before the next one has begun to work. */
  ghost predicate FailedBefore(s: System, id: string) {
    && id in s.used
    && (id in s.nodes ==>
          && s.nodes[id].r.commitFailures > 0
          && (s.nodes[id].phase.InFlight? ==> s.nodes[id].phase.stage == Assigned))
  }

  lemma StillFailedBefore(env: Env, s: System, e: Event, id: string)
    requires Inv(env, s) && FailedBefore(s, id) && !(e.Prepare? && e.id == id)
    ensures FailedBefore(Next(env, s, e), id)
  {
    hide Local, Plan;
    IdsAreNotReused(env, s, e, id);
  }

  lemma {:induction false} FailureLasts(env: Env, events: seq<Event>, i: nat, id: string)
    requires i <= |events| && FailedBefore(After(env, events[..i]), id)
    requires forall k :: i <= k < |events| ==> !(events[k].Prepare? && events[k].id == id)
    ensures FailedBefore(After(env, events), id)
    decreases |events|
  {
    hide Next, FailedBefore;
    if i == |events| {
      assert events[..i] == events;
    } else {
      var before := events[..|events| - 1];
      assert before[..i] == events[..i];
      FailureLasts(env, before, i, id);
      RunsKeepInv(env, before);
      StillFailedBefore(env, After(env, before), events[|events| - 1], id);
    }
  }

  /** In every run: after a decision against committing, by whatever cause, the next quorum that the replica is given
      has an id above all earlier ones, and every member that is given it has to configure anew. */
  lemma FailedStepGetsAFreshId(env: Env, events: seq<Event>, i: nat, id: string, b: string)
    requires i < |events| && events[i].Decide? && events[i].id == id && At(After(env, events[..i]), id, Voting)
    requires Decided(env, After(env, events[..i]).nodes[id], events[i].groupError, events[i].peersAgree).1.Skip?
    requires forall k :: i < k < |events| ==> !(events[k].Prepare? && events[k].id == id)
    requires var s := After(env, events);
             && At(s, id, Assigned) && At(s, b, Assigned) && s.nodes[b].phase.issue == s.nodes[id].phase.issue
    ensures var s := After(env, events);
            var n := s.nodes[id].phase.issue;
            && (forall k :: 0 <= k < n ==> Quorums(s, k).quorumId < Quorums(s, n).quorumId)
            && s.nodes[b].r.quorumId < Quorums(s, n).quorumId
  {
    hide Next, Local;
    var before := After(env, events[..i]);
    EveryFailureIsRemembered(env, before, id, events[i].groupError, events[i].peersAgree);
    DecidePuts(env, before, id, events[i].groupError, events[i].peersAgree);
    AfterNext(env, events, i);
    RunsKeepInv(env, events[..i + 1]);
    FailureLasts(env, events, i + 1, id);
    FailedStepIsAbandoned(env, events, id, b);
  }

  lemma ErrorsBlockCommits(cfg: Config, r: Replica)
    requires r.errored
    ensures forall ok, groupError, peersAgree ::
              !Settled(cfg, Reduced(r, ok), groupError, peersAgree).1.Commit?
  {
    forall ok, groupError, peersAgree
      ensures !Settled(cfg, Reduced(r, ok), groupError, peersAgree).1.Commit?
    {
      assert Reduced(r, ok) == r;
    }
  }

  lemma FailedConfigureIsAnError(env: Env, node: Node, x: Planner.Response, sendOk: bool)
    requires node.phase.InFlight? && x.quorumId != node.r.quorumId && !node.r.healing
    ensures var t := Prepared(env, node, x, false, sendOk);
            t.r.errored && t.r.quorumId == x.quorumId && t.phase == node.phase.(stage := Ready)
  {
  }

  /** A failed configure already stored the id, yet its step cannot commit. */
  lemma FailedConfigureCannotCommit(env: Env, events: seq<Event>, id: string, sendOk: bool)
    requires At(After(env, events), id, Assigned)
    requires After(env, events).nodes[id].r.quorumId
             != Quorums(After(env, events), After(env, events).nodes[id].phase.issue).quorumId
    ensures var s := After(env, events);
            var t := Next(env, s, Prepare(id, false, sendOk));
            && At(t, id, Ready) && t.nodes[id].r.errored
            && t.nodes[id].r.quorumId == Quorums(s, s.nodes[id].phase.issue).quorumId
            && forall ok, groupError, peersAgree ::
                 !Settled(env.cfg, Reduced(t.nodes[id].r, ok), groupError, peersAgree).1.Commit?
  {
    var s := After(env, events);
    RunsKeepInv(env, events);
    var x := PlanInFlight(env, s, id);
    FailedConfigureIsAnError(env, s.nodes[id], x, sendOk);
    PreparePuts(env, s, id, false, sendOk, x);
    ErrorsBlockCommits(env.cfg, Prepared(env, s.nodes[id], x, false, sendOk).r);
  }

  lemma {:induction false} GoneStaysGone(env: Env, events: seq<Event>, i: nat, id: string)
    requires i <= |events| && id in After(env, events[..i]).used && id !in After(env, events[..i]).nodes
    ensures id in After(env, events).used && id !in After(env, events).nodes
    decreases |events|
  {
    hide Next, Inv;
    if i == |events| {
      assert events[..i] == events;
    } else {
      var before := events[..|events| - 1];
      assert before[..i] == events[..i];
      GoneStaysGone(env, before, i, id);
      RunsKeepInv(env, before);
      IdsAreNotReused(env, After(env, before), events[|events| - 1], id);
    }
  }

  /** Replicas come fresh and go for good: after joining one is there, idle at step 0 and nothing committed, and after a
      crash it is never there again. */
  lemma CrashedStayGone(env: Env, events: seq<Event>, i: nat, id: string)
    requires i < |events|
    ensures events[i] == Join(id) && id !in After(env, events[..i]).used ==>
              && id in After(env, events[..i + 1]).nodes
              && var node := After(env, events[..i + 1]).nodes[id];
                 node.phase == Idle && node.r.step == 0 && node.r.batches == 0 && node.r.commitFailures == 0
    ensures events[i] == Crash(id) && id in After(env, events[..i]).nodes ==> id !in After(env, events).nodes
  {
    AfterNext(env, events, i);
    RunsKeepInv(env, events[..i]);
    if events[i] == Crash(id) && id in After(env, events[..i]).nodes {
      GoneStaysGone(env, events, i + 1, id);
    }
  }

  /** A replica that reports an error before it votes does not advance with that vote, whatever the others say. */
  lemma ReportedErrorsBlockTheCommit(env: Env, events: seq<Event>, id: string, groupError: bool, peersAgree: bool)
    requires At(After(env, events), id, Voting)
    ensures var s := After(env, events);
            var u := Next(env, s, Report(id));
            var t := Next(env, u, Decide(id, groupError, peersAgree));
            && At(u, id, Voting)
            && (id in t.nodes ==>
                  t.nodes[id].r.step == s.nodes[id].r.step && Holds(t.nodes[id].r) == Holds(s.nodes[id].r))
  {
    hide After, Next;
    var s := After(env, events);
    ReportPuts(env, s, id);
    DecidePuts(env, Next(env, s, Report(id)), id, groupError, peersAgree);
  }

  // ----- The Lighthouse of the whole protocol

  /** What a step sends to the Lighthouse. */
  function SentToLighthouse(env: Env, s: System, e: Event): seq<L.Event> {
    match e
    case Beat(id, now) => [L.HeartbeatArrives(id, now)]
    case Ask(id, shrinkOnly, now) =>
      if id in s.nodes && s.nodes[id].phase.Idle? then
        [L.QuorumRequested(Record(id, Started(s.nodes[id].r), shrinkOnly), now)]
      else []
    case AskAgain(id, now) =>
      if id in s.nodes && s.nodes[id].phase.Waiting? then [L.RegistersAgain(s.nodes[id].phase.record, now)] else []
    case Tick(now) => [L.Ticks(now)]
    case _ => []
  }

  function AllSent(env: Env, events: seq<Event>): seq<L.Event> {
    if events == [] then []
    else
      var before := events[..|events| - 1];
      AllSent(env, before) + SentToLighthouse(env, After(env, before), events[|events| - 1])
  }

  /** Within the protocol the Lighthouse runs as it does alone, on the messages it is sent, so what holds of its runs
      (ids, sizes, majorities, who is healthy) holds here. */
  lemma {:induction false} LighthouseRunsAsAlone(env: Env, events: seq<Event>)
    ensures After(env, events).run == L.Execute(AllSent(env, events), env.opt)
  {
    if events != [] {
      var before, e := events[..|events| - 1], events[|events| - 1];
      LighthouseRunsAsAlone(env, before);
      StepOfLighthouse(env, After(env, before), e);
      OneMoreOrNone(AllSent(env, before), SentToLighthouse(env, After(env, before), e), env.opt);
    }
  }

  lemma StepOfLighthouse(env: Env, s: System, e: Event)
    ensures var sent := SentToLighthouse(env, s, e);
            Next(env, s, e).run == if sent == [] then s.run else L.Step(s.run, sent[0], env.opt)
    ensures |SentToLighthouse(env, s, e)| <= 1
  {
    hide L.Step, Plan;
    if e.Ask? && e.id in s.nodes && s.nodes[e.id].phase.Idle? {
      AskBroadcasts(env, s, e.id, e.shrinkOnly, e.now);
    }
  }

  lemma OneMoreOrNone(sent: seq<L.Event>, more: seq<L.Event>, opt: L.Options)
    requires |more| <= 1
    ensures L.Execute(sent + more, opt)
            == if more == [] then L.Execute(sent, opt) else L.Step(L.Execute(sent, opt), more[0], opt)
  {
    if more == [] {
      assert sent + more == sent;
    } else {
      L.ExecuteOneMore(sent, more[0], opt);
      assert more == [more[0]];
    }
  }

  // ----- Batches

  /** With spares, each committed step counts exactly `minReplicaSize` batches. */
  ghost predicate CountsBatches(env: Env, node: Node) {
    && node.r.batches == env.cfg.minReplicaSize * node.r.step
    && node.r.worldSize <= env.cfg.minReplicaSize
    && (node.r.serving.Some? ==> node.r.serving.value.batches == env.cfg.minReplicaSize * node.r.serving.value.step)
  }

  ghost predicate AllCountBatches(env: Env, s: System) {
    forall id :: id in s.nodes ==> CountsBatches(env, s.nodes[id])
  }

  lemma SizeIsCapped(env: Env, x: Planner.Response)
    requires env.cfg.mode.FixedWithSpares?
    ensures Participation(env.cfg, true, x).1 <= env.cfg.minReplicaSize
  {
  }

  lemma PreparedCounts(env: Env, node: Node, x: Planner.Response, configureOk: bool, sendOk: bool)
    requires env.cfg.mode.FixedWithSpares? && CountsBatches(env, node) && node.phase.InFlight?
    ensures CountsBatches(env, Prepared(env, node, x, configureOk, sendOk))
  {
    hide Participation;
    SizeIsCapped(env, x);
  }

  lemma HealedCounts(env: Env, node: Node, x: Planner.Response, c: Option<Checkpoint>)
    requires CountsBatches(env, node) && node.phase.InFlight?
    requires c.Some? ==> c.value.step == x.maxStep && c.value.batches == env.cfg.minReplicaSize * c.value.step
    ensures CountsBatches(env, Healed(env, node, x, c))
  {
  }

  lemma DecidedCounts(env: Env, node: Node, groupError: bool, peersAgree: bool)
    requires CountsBatches(env, node)
    ensures CountsBatches(env, Decided(env, node, groupError, peersAgree).0)
  {
    var (after, d) := Decided(env, node, groupError, peersAgree);
    if d.Commit? {
      assert env.cfg.minReplicaSize * (node.r.step + 1)
          == env.cfg.minReplicaSize * node.r.step + env.cfg.minReplicaSize;
    }
  }

  lemma BroadcastCounts(env: Env, s: System, run: L.Run)
    requires AllCountBatches(env, s)
    ensures AllCountBatches(env, Broadcast(s, run))
  {
  }

  lemma PutCounts(env: Env, s: System, id: string, node: Node)
    requires AllCountBatches(env, s) && CountsBatches(env, node)
    ensures AllCountBatches(env, Put(s, id, node))
  {
  }

  lemma ThreadCounts(env: Env, s: System, e: Event)
    requires env.cfg.mode.FixedWithSpares? && AllCountBatches(env, s) && (e.Prepare? || e.Fetch?)
    ensures AllCountBatches(env, Next(env, s, e))
  {
    if At(s, e.id, if e.Prepare? then Assigned else Fetching) {
      var x := Cluster.Response(env, Quorums(s, s.nodes[e.id].phase.issue), e.id);
      if x.Some? {
        match e
        case Prepare(id, configureOk, sendOk) =>
          PreparedCounts(env, s.nodes[id], x.value, configureOk, sendOk);
          PutCounts(env, s, id, Prepared(env, s.nodes[id], x.value, configureOk, sendOk));
          PreparePuts(env, s, id, configureOk, sendOk, x.value);
        case Fetch(id, ok) =>
          var c := if ok then Fetched(s, x.value) else None;
          HealedCounts(env, s.nodes[id], x.value, c);
          PutCounts(env, s, id, Healed(env, s.nodes[id], x.value, c));
          FetchPuts(env, s, id, ok, x.value);
      }
    }
  }

  lemma NextCounts(env: Env, s: System, e: Event)
    requires env.cfg.mode.FixedWithSpares? && AllCountBatches(env, s)
    ensures AllCountBatches(env, Next(env, s, e))
  {
    match e
    case Join(id) =>
    case Crash(id) =>
    case Beat(_, _) =>
    case AskAgain(_, _) =>
    case Ask(id, shrinkOnly, now) =>
      if id in s.nodes && s.nodes[id].phase.Idle? {
        var t := Asked(env, s, id, shrinkOnly);
        PutCounts(env, s, id, t.nodes[id]);
        AskBroadcasts(env, s, id, shrinkOnly, now);
        BroadcastCounts(env, t, L.Step(t.run, L.QuorumRequested(t.nodes[id].phase.record, now), env.opt));
      }
    case Tick(now) => BroadcastCounts(env, s, L.Step(s.run, L.Ticks(now), env.opt));
    case Prepare(_, _, _) => ThreadCounts(env, s, e);
    case Fetch(_, _) => ThreadCounts(env, s, e);
    case Reduce(id, ok) =>
      if At(s, id, Ready) {
        ReducePuts(env, s, id, ok);
        PutCounts(env, s, id,
                  s.nodes[id].(r := Reduced(s.nodes[id].r, ok), phase := s.nodes[id].phase.(stage := Voting)));
      }
    case Report(id) =>
      if At(s, id, Ready) || At(s, id, Voting) {
        ReportPuts(env, s, id);
        PutCounts(env, s, id, s.nodes[id].(r := s.nodes[id].r.(errored := true)));
      }
    case Decide(id, groupError, peersAgree) =>
      if At(s, id, Voting) {
        DecidePuts(env, s, id, groupError, peersAgree);
        DecidedCounts(env, s.nodes[id], groupError, peersAgree);
        PutCounts(env, s, id, Decided(env, s.nodes[id], groupError, peersAgree).0);
      }
  }

  /** With a fixed number of participants and spares, in every run and whatever the environment does,
      the committed batches of a live replica are its step times that number. */
  lemma {:induction false} FixedBatchesFollowSteps(env: Env, events: seq<Event>, id: string)
    requires env.cfg.mode.FixedWithSpares? && id in After(env, events).nodes
    ensures After(env, events).nodes[id].r.batches == env.cfg.minReplicaSize * After(env, events).nodes[id].r.step
  {
    RunsCountBatches(env, events);
  }

  lemma {:induction false} RunsCountBatches(env: Env, events: seq<Event>)
    requires env.cfg.mode.FixedWithSpares?
    ensures AllCountBatches(env, After(env, events))
  {
    if events != [] {
      RunsCountBatches(env, events[..|events| - 1]);
      NextCounts(env, After(env, events[..|events| - 1]), events[|events| - 1]);
    }
  }
}
