/** Live replicas at the same step hold the same state. */
module Replication {
  import opened Protocol
  import opened ReplicaOrder
  import opened Planner
  import opened Manager
  import opened Cluster
  import opened ClusterSteps
  import L = Lighthouse

  // ----- What is assumed of the environment

  /** No live replica is beyond the new quorum's top step. */
  ghost predicate NoneAhead(s: System, q: Quorum) {
    q.participants != [] ==> forall id :: id in s.nodes ==> s.nodes[id].r.step <= Top(q)
  }

  /** A later quorum starts from the same step as issue `n`, or from an earlier one. */
  ghost predicate Outdated(issues: seq<L.Issue>, n: nat)
    requires n < |issues|
  {
    exists k :: n < k < |issues| && issues[k].quorum.participants != []
                && Top(issues[k].quorum) <= Top(issues[n].quorum)
  }

  /** The step commits, for replica `e.id`. */
  ghost predicate Commits(env: Env, s: System, e: Event) {
    && e.Decide? && At(s, e.id, Voting)
    && Decided(env, s.nodes[e.id], e.groupError, e.peersAgree).1.Commit?
  }

  /** A new quorum has no live replica ahead of it, and a replica does not commit a quorum that was superseded. A
      superseded quorum may be worked on for as long as it takes, and may fail. */
  ghost predicate TimelyStep(env: Env, s: System, e: Event) {
    var t := Next(env, s, e);
    && (|t.run.issues| > |s.run.issues| ==> NoneAhead(s, t.run.issues[|s.run.issues|].quorum))
    && (Commits(env, s, e) ==> !Outdated(s.run.issues, s.nodes[e.id].phase.issue))
  }

  ghost predicate Orderly(env: Env, events: seq<Event>) {
    events == []
    || (Orderly(env, events[..|events| - 1])
        && TimelyStep(env, After(env, events[..|events| - 1]), events[|events| - 1]))
  }

  // ----- The invariant over pairs of replicas

  /** Holds the state its quorum works from, or will unless it fails. */
  ghost predicate Up(env: Env, issues: seq<L.Issue>, a: Node) {
    && a.phase.InFlight? && a.phase.issue < |issues|
    && (!Behind(env, issues[a.phase.issue].quorum, a.phase.record)
        || ((a.phase.stage == Ready || a.phase.stage == Voting) && !a.r.errored))
  }

  /** What a commit of issue `n` makes of a state. */
  function Advanced(env: Env, issues: seq<L.Issue>, n: nat, c: Checkpoint): Checkpoint
    requires n < |issues|
  {
    var q := issues[n].quorum;
    Checkpoint(c.step + 1, c.batches + Divisor(env, q),
               Applied(c.weights, Collective(q.quorumId, Since(issues, n)), Divisor(env, q)))
  }

  /** Whoever is one step ahead of an issue in flight got there by that issue. */
  ghost predicate AheadByIssue(env: Env, issues: seq<L.Issue>, a: Node, b: Node) {
    Up(env, issues, a) && !Outdated(issues, a.phase.issue) && b.r.step == Top(issues[a.phase.issue].quorum) + 1 ==>
      Holds(b.r) == Advanced(env, issues, a.phase.issue, Holds(a.r))
  }

  ghost predicate Pair(env: Env, issues: seq<L.Issue>, a: Node, b: Node) {
    && (a.r.step == b.r.step && a.r.step >= 1 ==> Holds(a.r) == Holds(b.r))
    && (Up(env, issues, a) && Up(env, issues, b) && a.phase.issue == b.phase.issue && !Outdated(issues, a.phase.issue)
        ==>
        Holds(a.r) == Holds(b.r))
    && AheadByIssue(env, issues, a, b) && AheadByIssue(env, issues, b, a)
  }

  ghost predicate Agree(env: Env, s: System) {
    forall a, b :: a in s.nodes && b in s.nodes && a != b ==> Pair(env, s.run.issues, s.nodes[a], s.nodes[b])
  }

  lemma PutKeepsAgreement(env: Env, s: System, id: string, node: Node)
    requires Agree(env, s) && id in s.nodes
    requires forall b :: b in s.nodes && b != id ==> Pair(env, s.run.issues, node, s.nodes[b])
    ensures Agree(env, Put(s, id, node))
  {
    var t := Put(s, id, node);
    forall a, b | a in t.nodes && b in t.nodes && a != b ensures Pair(env, t.run.issues, t.nodes[a], t.nodes[b]) {
      if b == id { assert Pair(env, s.run.issues, node, s.nodes[a]); }
    }
  }

  // ----- Steps that keep what a replica holds

  lemma SameHoldingsStayPaired(env: Env, issues: seq<L.Issue>, a: Node, x: Node, b: Node)
    requires Pair(env, issues, a, b) && Holds(x.r) == Holds(a.r)
    requires x.phase.InFlight? ==>
               a.phase.InFlight? && x.phase.issue == a.phase.issue && (Up(env, issues, x) ==> Up(env, issues, a))
    ensures Pair(env, issues, x, b)
  {
  }

  lemma SameHoldingsKeepAgreement(env: Env, s: System, id: string, node: Node)
    requires Agree(env, s) && id in s.nodes && Holds(node.r) == Holds(s.nodes[id].r)
    requires node.phase.InFlight? ==>
               && s.nodes[id].phase.InFlight? && node.phase.issue == s.nodes[id].phase.issue
               && (Up(env, s.run.issues, node) ==> Up(env, s.run.issues, s.nodes[id]))
    ensures Agree(env, Put(s, id, node))
  {
    forall b | b in s.nodes && b != id ensures Pair(env, s.run.issues, node, s.nodes[b]) {
      SameHoldingsStayPaired(env, s.run.issues, s.nodes[id], node, s.nodes[b]);
    }
    PutKeepsAgreement(env, s, id, node);
  }

  // ----- A broadcast

  lemma OldPairsOutliveIssue(env: Env, issues: seq<L.Issue>, more: L.Issue, a: Node, b: Node)
    requires Pair(env, issues, a, b)
    requires a.phase.InFlight? ==> a.phase.issue < |issues|
    requires b.phase.InFlight? ==> b.phase.issue < |issues|
    ensures Pair(env, issues + [more], a, b)
  {
    if a.phase.InFlight? {
      SinceOfPrefix(issues, more, a.phase.issue);
      OutdatedStays(issues, more, a.phase.issue);
    }
    if b.phase.InFlight? {
      SinceOfPrefix(issues, more, b.phase.issue);
      OutdatedStays(issues, more, b.phase.issue);
    }
  }

  lemma OutdatedStays(issues: seq<L.Issue>, more: L.Issue, n: nat)
    requires n < |issues|
    ensures Outdated(issues, n) ==> Outdated(issues + [more], n)
  {
    if Outdated(issues, n) {
      var k :| n < k < |issues| && issues[k].quorum.participants != []
               && Top(issues[k].quorum) <= Top(issues[n].quorum);
      assert (issues + [more])[k] == issues[k];
    }
  }

  /** Of two quorums with one top step, at most the later is not outdated. */
  lemma OneIsCurrent(issues: seq<L.Issue>, m: nat, n: nat)
    requires m < |issues| && n < |issues| && !Outdated(issues, m) && !Outdated(issues, n)
    requires issues[m].quorum.participants != [] && issues[n].quorum.participants != []
    requires Top(issues[m].quorum) == Top(issues[n].quorum)
    ensures m == n
  {
  }

  /** Two members that start a quorum up to date hold the same: at step 0 with weight
      synchronization only the primary is up to date, without it everybody holds the seed. */
  lemma StartersAgree(env: Env, issues: seq<L.Issue>, ida: string, idb: string, a: Node, b: Node)
    requires ida != idb && Local(env, issues, ida, a) && Local(env, issues, idb, b)
    requires Up(env, issues, a) && Up(env, issues, b) && a.phase.issue == b.phase.issue
    requires a.phase.stage == Assigned && b.phase.stage == Assigned
    requires a.r.step == b.r.step && a.r.step >= 1 ==> Holds(a.r) == Holds(b.r)
    ensures Holds(a.r) == Holds(b.r)
  {
  }

  lemma StarterPairs(env: Env, issues: seq<L.Issue>, ida: string, idb: string, a: Node, b: Node)
    requires ida != idb && Local(env, issues, ida, a) && Local(env, issues, idb, b)
    requires a.phase.InFlight? && a.phase.stage == Assigned && a.phase.issue == |issues| - 1
    requires var q := issues[a.phase.issue].quorum;
             && a.r.step <= Top(q) && b.r.step <= Top(q)
             && (b.phase.InFlight? && b.phase.issue == a.phase.issue ==> b.phase.stage == Assigned)
    requires a.r.step == b.r.step && a.r.step >= 1 ==> Holds(a.r) == Holds(b.r)
    requires b.phase.InFlight? && b.phase.issue != a.phase.issue ==> AheadByIssue(env, issues, b, a)
    ensures Pair(env, issues, a, b)
  {
    if Up(env, issues, a) && Up(env, issues, b) && a.phase.issue == b.phase.issue {
      StartersAgree(env, issues, ida, idb, a, b);
    }
  }

  lemma PairIsSymmetric(env: Env, issues: seq<L.Issue>, a: Node, b: Node)
    requires Pair(env, issues, a, b)
    ensures Pair(env, issues, b, a)
  {
  }

  ghost predicate GrowsByOne(before: seq<L.Issue>, after: seq<L.Issue>) {
    after == before || (after != [] && after == before + [after[|after| - 1]])
  }

  lemma BroadcastKeepsAgreement(env: Env, s: System, run: L.Run)
    requires Inv(env, s) && Agree(env, s) && Inv(env, Broadcast(s, run))
    requires GrowsByOne(s.run.issues, run.issues)
    requires |run.issues| > |s.run.issues| ==> NoneAhead(s, run.issues[|s.run.issues|].quorum)
    ensures Agree(env, Broadcast(s, run))
  {
    hide Pair, Local, NoneAhead, NoLater;
    var t := Broadcast(s, run);
    if |run.issues| > |s.run.issues| {
      var n := |s.run.issues|;
      var issue := run.issues[n];
      forall a, b | a in t.nodes && b in t.nodes && a != b ensures Pair(env, run.issues, t.nodes[a], t.nodes[b]) {
        TimelyIsNoLater(env, s, run.issues, a);
        TimelyIsNoLater(env, s, run.issues, b);
        OldPairsOutliveIssue(env, s.run.issues, issue, s.nodes[a], s.nodes[b]);
        LocalAfter(env, t, a);
        LocalAfter(env, t, b);
        NewPair(env, run.issues, a, b, s.nodes[a], s.nodes[b], t.nodes[a], t.nodes[b]);
      }
    }
  }

  lemma LocalAfter(env: Env, t: System, a: string)
    requires Inv(env, t) && a in t.nodes
    ensures Local(env, t.run.issues, a, t.nodes[a])
  {
  }

  lemma TimelyIsNoLater(env: Env, s: System, issues: seq<L.Issue>, a: string)
    requires Inv(env, s) && a in s.nodes
    requires |issues| == |s.run.issues| + 1 && issues[..|s.run.issues|] == s.run.issues
    requires NoneAhead(s, issues[|s.run.issues|].quorum)
    ensures NoLater(env, issues, |s.run.issues|, s.nodes[a])
    ensures s.nodes[a].phase.InFlight? ==> s.nodes[a].phase.issue < |s.run.issues|
  {
    LocalAfter(env, s, a);
  }

  ghost predicate NoLater(env: Env, issues: seq<L.Issue>, n: nat, a: Node)
    requires n < |issues|
  {
    issues[n].quorum.participants != [] ==> a.r.step <= Top(issues[n].quorum)
  }

  /** What a broadcast makes of a replica: it starts the new issue or is unchanged. */
  ghost predicate MayStart(n: nat, a: Node, x: Node) {
    x == a || (a.phase.Waiting? && x == a.(phase := InFlight(n, a.phase.record, Assigned)))
  }

  lemma NewPair(env: Env, issues: seq<L.Issue>, ida: string, idb: string, a: Node, b: Node, x: Node, y: Node)
    requires ida != idb && issues != [] && Pair(env, issues, a, b)
    requires MayStart(|issues| - 1, a, x) && MayStart(|issues| - 1, b, y)
    requires NoLater(env, issues, |issues| - 1, a) && NoLater(env, issues, |issues| - 1, b)
    requires a.phase.InFlight? ==> a.phase.issue < |issues| - 1
    requires b.phase.InFlight? ==> b.phase.issue < |issues| - 1
    requires Local(env, issues, ida, x) && Local(env, issues, idb, y)
    ensures Pair(env, issues, x, y)
  {
    if x != a {
      StarterPairs(env, issues, ida, idb, x, y);
    } else if y != b {
      StarterPairs(env, issues, idb, ida, y, x);
      PairIsSymmetric(env, issues, y, x);
    }
  }

  // ----- Recovery and commit

  /** What a replica loads is paired like its source: the two are of one quorum, or the replica's is outdated. */
  lemma HealedPairs(env: Env, issues: seq<L.Issue>, a: Node, x: Node, src: Node, b: Node)
    requires Pair(env, issues, a, b) && Pair(env, issues, src, b)
    requires Holds(x.r) == Holds(src.r)
    requires a.phase.InFlight? && x.phase.InFlight? && x.phase.issue == a.phase.issue < |issues|
    requires Up(env, issues, src) && (src.phase.issue == a.phase.issue || Outdated(issues, a.phase.issue))
    ensures Pair(env, issues, x, b)
  {
  }

  lemma HealedPairsWithSource(env: Env, issues: seq<L.Issue>, a: Node, x: Node, src: Node)
    requires Pair(env, issues, a, src) && Holds(x.r) == Holds(src.r) && x.phase.InFlight? && Up(env, issues, src)
    requires a.phase.InFlight? && x.phase.issue == a.phase.issue < |issues|
    requires src.r.step == Top(issues[src.phase.issue].quorum) == Top(issues[x.phase.issue].quorum)
    ensures Pair(env, issues, x, src)
  {
  }

  lemma LoadKeepsAgreement(env: Env, s: System, id: string, healed: Node, src: string)
    requires Inv(env, s) && Agree(env, s) && At(s, id, Fetching)
    requires src != id && Serves(env, s, src, Holds(healed.r))
    requires healed.phase.InFlight? && healed.phase.issue == s.nodes[id].phase.issue
    requires Top(Quorums(s, healed.phase.issue)) == healed.r.step
    requires s.nodes[src].phase.issue == healed.phase.issue || Outdated(s.run.issues, healed.phase.issue)
    ensures Agree(env, Put(s, id, healed))
  {
    var node := s.nodes[id];
    assert Pair(env, s.run.issues, node, s.nodes[src]);
    forall b | b in s.nodes && b != id ensures Pair(env, s.run.issues, healed, s.nodes[b]) {
      if b == src {
        HealedPairsWithSource(env, s.run.issues, node, healed, s.nodes[src]);
      } else {
        HealedPairs(env, s.run.issues, node, healed, s.nodes[src], s.nodes[b]);
      }
    }
    PutKeepsAgreement(env, s, id, healed);
  }

  /** A peer that the plan of issue `n` names and that serves the plan's step is working on `n`, or `n` is outdated. */
  lemma SourceIsOfTheQuorum(env: Env, s: System, n: nat, src: string, c: Checkpoint)
    requires Inv(env, s) && n < |s.run.issues| && Serves(env, s, src, c)
    requires HasId(Quorums(s, n).participants, src) && c.step == Top(Quorums(s, n))
    ensures s.nodes[src].phase.issue == n || Outdated(s.run.issues, n)
  {
    IsLocal(env, s, src);
    var m := s.nodes[src].phase.issue;
    assert m >= n;
    if m > n {
      assert Quorums(s, m).participants != [] && Top(Quorums(s, m)) <= Top(Quorums(s, n));
    }
  }

  lemma HealKeepsAgreement(env: Env, s: System, id: string, x: Planner.Response, ok: bool)
    requires Inv(env, s) && Agree(env, s) && At(s, id, Fetching)
    requires Local(env, s.run.issues, id, s.nodes[id])
    requires PlanFits(env, Quorums(s, s.nodes[id].phase.issue), s.nodes[id].phase.record, x)
    ensures Agree(env, Put(s, id, Healed(env, s.nodes[id], x, if ok then Fetched(s, x) else None)))
  {
    var node := s.nodes[id];
    var c := if ok then Fetched(s, x) else None;
    var healed := Healed(env, node, x, c);
    if c.Some? {
      var q := Quorums(s, node.phase.issue);
      var src := FetchedIsHeld(env, s, x);
      assert q.participants[x.recoverSrcReplicaRank.value].replicaId == src;
      SourceIsOfTheQuorum(env, s, node.phase.issue, src, c.value);
      PlausibleWhenServed(env, s, src, c.value);
      HealedIsLocal(env, s.run.issues, id, node, x, c);
      LoadKeepsAgreement(env, s, id, healed, src);
    } else {
      HealedIsLocal(env, s.run.issues, id, node, x, c);
      SameHoldingsKeepAgreement(env, s, id, healed);
    }
  }

  lemma FetchKeepsAgreement(env: Env, s: System, id: string, ok: bool)
    requires Inv(env, s) && Agree(env, s) && At(s, id, Fetching)
    ensures Agree(env, Next(env, s, Fetch(id, ok)))
  {
    var x := PlanInFlight(env, s, id);
    HealKeepsAgreement(env, s, id, x, ok);
    FetchPuts(env, s, id, ok, x);
  }

  lemma PlausibleWhenServed(env: Env, s: System, src: string, c: Checkpoint)
    requires Inv(env, s) && Serves(env, s, src, c)
    ensures Plausible(env, c)
  {
    assert Local(env, s.run.issues, src, s.nodes[src]);
  }

  /** What a decision makes of the state. */
  lemma DecisionAdvances(env: Env, issues: seq<L.Issue>, id: string, node: Node, groupError: bool, peersAgree: bool)
    requires Local(env, issues, id, node) && node.phase.InFlight? && node.phase.stage == Voting
    ensures var (after, d) := Decided(env, node, groupError, peersAgree);
            && after.phase == Idle
            && (d.Commit? ==> Up(env, issues, node) && node.r.step == Top(issues[node.phase.issue].quorum)
                              && Holds(after.r) == Advanced(env, issues, node.phase.issue, Holds(node.r)))
            && (!d.Commit? ==> Holds(after.r) == Holds(node.r))
  {
  }

  lemma CommittedPairs(env: Env, issues: seq<L.Issue>, a: Node, x: Node, b: Node)
    requires Pair(env, issues, a, b) && Up(env, issues, a) && !Outdated(issues, a.phase.issue) && x.phase.Idle?
    requires b.phase.InFlight? ==> b.phase.issue < |issues| && issues[b.phase.issue].quorum.participants != []
    requires a.r.step == Top(issues[a.phase.issue].quorum) >= 0 && issues[a.phase.issue].quorum.participants != []
    requires Holds(x.r) == Advanced(env, issues, a.phase.issue, Holds(a.r))
    ensures Pair(env, issues, x, b)
  {
    if b.phase.InFlight? && !Outdated(issues, b.phase.issue)
       && Top(issues[a.phase.issue].quorum) == Top(issues[b.phase.issue].quorum) {
      OneIsCurrent(issues, a.phase.issue, b.phase.issue);
    }
  }

  lemma CommitKeepsAgreement(env: Env, s: System, id: string, x: Node)
    requires Inv(env, s) && Agree(env, s) && At(s, id, Voting)
    requires Up(env, s.run.issues, s.nodes[id]) && x.phase.Idle?
    requires !Outdated(s.run.issues, s.nodes[id].phase.issue)
    requires s.nodes[id].r.step == Top(Quorums(s, s.nodes[id].phase.issue)) >= 0
    requires Holds(x.r) == Advanced(env, s.run.issues, s.nodes[id].phase.issue, Holds(s.nodes[id].r))
    ensures Agree(env, Put(s, id, x))
  {
    LocalAfter(env, s, id);
    forall b | b in s.nodes && b != id ensures Pair(env, s.run.issues, x, s.nodes[b]) {
      LocalAfter(env, s, b);
      CommittedPairs(env, s.run.issues, s.nodes[id], x, s.nodes[b]);
    }
    PutKeepsAgreement(env, s, id, x);
  }

  lemma DecideKeepsAgreement(env: Env, s: System, id: string, groupError: bool, peersAgree: bool)
    requires Inv(env, s) && Agree(env, s) && At(s, id, Voting)
    requires TimelyStep(env, s, Decide(id, groupError, peersAgree))
    ensures Agree(env, Next(env, s, Decide(id, groupError, peersAgree)))
  {
    var node := s.nodes[id];
    LocalAfter(env, s, id);
    var (after, d) := Decided(env, node, groupError, peersAgree);
    DecisionAdvances(env, s.run.issues, id, node, groupError, peersAgree);
    DecidePuts(env, s, id, groupError, peersAgree);
    if d.Commit? {
      CommitKeepsAgreement(env, s, id, after);
    } else {
      SameHoldingsKeepAgreement(env, s, id, after);
    }
  }

  lemma PreparedHoldsTheSame(env: Env, issues: seq<L.Issue>, node: Node, x: Planner.Response,
                             configureOk: bool, sendOk: bool)
    requires node.phase.InFlight? && node.phase.stage == Assigned && node.phase.issue < |issues|
    requires PlanFits(env, issues[node.phase.issue].quorum, node.phase.record, x)
    requires !node.r.healing
    ensures var after := Prepared(env, node, x, configureOk, sendOk);
            && Holds(after.r) == Holds(node.r)
            && after.phase.InFlight? && after.phase.issue == node.phase.issue
            && (Up(env, issues, after) ==> Up(env, issues, node))
  {
  }

  lemma PrepareKeepsAgreement(env: Env, s: System, id: string, configureOk: bool, sendOk: bool)
    requires Inv(env, s) && Agree(env, s) && At(s, id, Assigned)
    ensures Agree(env, Next(env, s, Prepare(id, configureOk, sendOk)))
  {
    var x := PlanInFlight(env, s, id);
    PreparedHoldsTheSame(env, s.run.issues, s.nodes[id], x, configureOk, sendOk);
    SameHoldingsKeepAgreement(env, s, id, Prepared(env, s.nodes[id], x, configureOk, sendOk));
    PreparePuts(env, s, id, configureOk, sendOk, x);
  }

  lemma JoinKeepsAgreement(env: Env, s: System, id: string)
    requires Inv(env, s) && Agree(env, s)
    ensures Agree(env, Next(env, s, Join(id)))
  {
    if id !in s.used {
      var t := Next(env, s, Join(id));
      forall a, b | a in t.nodes && b in t.nodes && a != b ensures Pair(env, t.run.issues, t.nodes[a], t.nodes[b]) {
        if a != id { NewcomerPairs(env, s, a, t.nodes[id]); }
        if b != id { NewcomerPairs(env, s, b, t.nodes[id]); }
      }
    }
  }

  lemma NewcomerPairs(env: Env, s: System, a: string, node: Node)
    requires Inv(env, s) && a in s.nodes && node.phase.Idle? && node.r.step == 0
    ensures Pair(env, s.run.issues, s.nodes[a], node) && Pair(env, s.run.issues, node, s.nodes[a])
  {
    assert Local(env, s.run.issues, a, s.nodes[a]);
    if s.nodes[a].phase.InFlight? {
      TopCoversMembers(s.run.issues[s.nodes[a].phase.issue].quorum, s.nodes[a].phase.record);
    }
  }

  lemma IssuesGrowByOne(run: L.Run, s: L.State, now: int, opt: L.Options)
    ensures GrowsByOne(run.issues, L.AfterTick(run, s, now, opt).issues)
  {
  }

  lemma AskedKeepsAgreement(env: Env, s: System, id: string, shrinkOnly: bool)
    requires Inv(env, s) && Agree(env, s) && id in s.nodes && s.nodes[id].phase.Idle?
    ensures Agree(env, Asked(env, s, id, shrinkOnly))
    ensures Asked(env, s, id, shrinkOnly).run == s.run
    ensures forall q :: NoneAhead(s, q) ==> NoneAhead(Asked(env, s, id, shrinkOnly), q)
  {
    assert Local(env, s.run.issues, id, s.nodes[id]);
    SameHoldingsKeepAgreement(env, s, id, Asked(env, s, id, shrinkOnly).nodes[id]);
  }

  lemma AskKeepsAgreement(env: Env, s: System, id: string, shrinkOnly: bool, now: int)
    requires Inv(env, s) && Agree(env, s) && id in s.nodes && s.nodes[id].phase.Idle?
    requires TimelyStep(env, s, Ask(id, shrinkOnly, now))
    ensures Agree(env, Next(env, s, Ask(id, shrinkOnly, now)))
  {
    var t := Asked(env, s, id, shrinkOnly);
    AskedKeepsInv(env, s, id, shrinkOnly);
    AskedKeepsAgreement(env, s, id, shrinkOnly);
    var e := L.QuorumRequested(t.nodes[id].phase.record, now);
    RegisteredBroadcastKeepsInv(env, t, id, now);
    IssuesGrowByOne(t.run, L.Before(t.run.state, e), now, env.opt);
    AskBroadcasts(env, s, id, shrinkOnly, now);
    BroadcastKeepsAgreement(env, t, L.Step(t.run, e, env.opt));
  }

  lemma ReduceKeepsAgreement(env: Env, s: System, id: string, ok: bool)
    requires Agree(env, s) && At(s, id, Ready)
    ensures Agree(env, Next(env, s, Reduce(id, ok)))
  {
    var node := s.nodes[id];
    var after := node.(r := Reduced(node.r, ok), phase := node.phase.(stage := Voting));
    ReducePuts(env, s, id, ok);
    SameHoldingsKeepAgreement(env, s, id, after);
  }

  lemma ReportKeepsAgreement(env: Env, s: System, id: string)
    requires Agree(env, s) && (At(s, id, Ready) || At(s, id, Voting))
    ensures Agree(env, Next(env, s, Report(id)))
  {
    var after := s.nodes[id].(r := s.nodes[id].r.(errored := true));
    ReportPuts(env, s, id);
    SameHoldingsKeepAgreement(env, s, id, after);
  }

  lemma TickBroadcasts(env: Env, s: System, now: int)
    ensures Next(env, s, Tick(now)) == Broadcast(s, L.AfterTick(s.run, s.run.state, now, env.opt))
  {
  }

  lemma TickKeepsAgreement(env: Env, s: System, now: int)
    requires Inv(env, s) && Agree(env, s) && TimelyStep(env, s, Tick(now))
    ensures Agree(env, Next(env, s, Tick(now)))
  {
    TickBroadcasts(env, s, now);
    BroadcastKeepsInv(env, s, s.run.state, now);
    IssuesGrowByOne(s.run, s.run.state, now, env.opt);
    BroadcastKeepsAgreement(env, s, L.AfterTick(s.run, s.run.state, now, env.opt));
  }

  /** Steps that bring no replica a new model. */
  lemma QuietKeepsAgreement(env: Env, s: System, e: Event)
    requires Inv(env, s) && Agree(env, s) && (e.Crash? || e.Beat? || e.AskAgain?)
    ensures Agree(env, Next(env, s, e))
  {
  }

  lemma NextKeepsAgreement(env: Env, s: System, e: Event)
    requires Inv(env, s) && Agree(env, s) && TimelyStep(env, s, e)
    ensures Agree(env, Next(env, s, e))
  {
    hide Agree, Inv;
    match e
    case Join(id) => JoinKeepsAgreement(env, s, id);
    case Crash(_) => QuietKeepsAgreement(env, s, e);
    case Beat(_, _) => QuietKeepsAgreement(env, s, e);
    case AskAgain(_, _) => QuietKeepsAgreement(env, s, e);
    case Ask(id, shrinkOnly, now) =>
      if id in s.nodes && s.nodes[id].phase.Idle? { AskKeepsAgreement(env, s, id, shrinkOnly, now); }
    case Tick(now) => TickKeepsAgreement(env, s, now);
    case Prepare(id, configureOk, sendOk) =>
      if At(s, id, Assigned) { PrepareKeepsAgreement(env, s, id, configureOk, sendOk); }
    case Fetch(id, ok) =>
      if At(s, id, Fetching) { FetchKeepsAgreement(env, s, id, ok); }
    case Reduce(id, ok) =>
      if At(s, id, Ready) { ReduceKeepsAgreement(env, s, id, ok); }
    case Report(id) =>
      if At(s, id, Ready) || At(s, id, Voting) { ReportKeepsAgreement(env, s, id); }
    case Decide(id, groupError, peersAgree) =>
      if At(s, id, Voting) { DecideKeepsAgreement(env, s, id, groupError, peersAgree); }
  }

  lemma {:induction false} OrderlyRunsAgree(env: Env, events: seq<Event>)
    requires Orderly(env, events)
    ensures Inv(env, After(env, events)) && Agree(env, After(env, events))
  {
    RunsKeepInv(env, events);
    if events != [] {
      OrderlyRunsAgree(env, events[..|events| - 1]);
      NextKeepsAgreement(env, After(env, events[..|events| - 1]), events[|events| - 1]);
    }
  }

  // ----- Main results

  /** In every run, orderly or not, a commit happens only with enough participants, at the top step of the replica's
      quorum, and makes of its state exactly the one that quorum's next collective and divisor make of it. */
  lemma CommitAppliesTheQuorumsAverage(env: Env, events: seq<Event>, id: string, groupError: bool, peersAgree: bool)
    requires At(After(env, events), id, Voting)
    requires Decided(env, After(env, events).nodes[id], groupError, peersAgree).1.Commit?
    ensures var s := After(env, events);
            var q := Quorums(s, s.nodes[id].phase.issue);
            && !groupError && peersAgree && Divisor(env, q) >= env.cfg.minReplicaSize
            && s.nodes[id].r.step == Top(q)
            && Holds(Decided(env, s.nodes[id], groupError, peersAgree).0.r)
               == Advanced(env, s.run.issues, s.nodes[id].phase.issue, Holds(s.nodes[id].r))
  {
    var s := After(env, events);
    RunsKeepInv(env, events);
    IsLocal(env, s, id);
    DecisionAdvances(env, s.run.issues, id, s.nodes[id], groupError, peersAgree);
  }

  /** In every orderly run, whatever mix of commits, failures, recoveries, joins and crashes, any two live
      replicas at the same step hold the same model state and the same number of committed batches,
      from step 1 on, and from step 0 on when initial weights are identical. */
  lemma ReplicasAgree(env: Env, events: seq<Event>, a: string, b: string)
    requires Orderly(env, events)
    requires a in After(env, events).nodes && b in After(env, events).nodes
    requires After(env, events).nodes[a].r.step == After(env, events).nodes[b].r.step
    requires After(env, events).nodes[a].r.step >= 1 || !env.cfg.initSync
    ensures Holds(After(env, events).nodes[a].r) == Holds(After(env, events).nodes[b].r)
    ensures After(env, events).nodes[a].phase.Idle? && After(env, events).nodes[b].phase.Idle? ==>
              After(env, events).nodes[a].r.weights == After(env, events).nodes[b].r.weights
  {
    OrderlyRunsAgree(env, events);
    var s := After(env, events);
    assert Local(env, s.run.issues, a, s.nodes[a]) && Local(env, s.run.issues, b, s.nodes[b]);
    if a != b { assert Pair(env, s.run.issues, s.nodes[a], s.nodes[b]); }
  }
}
