/** The per-rank Manager: one fault tolerant training step, from quorum to commit. */
module Manager {
  import opened Protocol
  import opened ReplicaOrder
  import opened Planner

  datatype WorldSizeMode = Dynamic | FixedWithSpares

  datatype Config = Config(
    useAsyncQuorum: bool,
    minReplicaSize: nat,
    mode: WorldSizeMode,
    initSync: bool,
    maxRetries: Option<nat>)

  /** One allreduce of one process group: all members that see no error get the same sum from it. */
  datatype Collective = Collective(groupId: int, op: nat)

  /** Model and optimizer state, kept as the history that produced it: where it was initialized and which
      averaged gradients were applied. Equal histories give equal states under any deterministic optimizer. */
  datatype Weights = Seeded | Initialized(owner: string) | Applied(before: Weights, sum: Collective, divisor: nat)

  datatype Checkpoint = Checkpoint(step: int, batches: int, weights: Weights)

  datatype ProcessGroup = ProcessGroup(id: int, rank: nat, worldSize: nat, ops: nat)

  datatype Replica = Replica(
    step: int,
    batches: int,
    commitFailures: nat,
    quorumId: int,
    errored: bool,
    healing: bool,
    rank: Option<nat>,
    worldSize: nat,
    pending: Option<Checkpoint>,
    serving: Option<Checkpoint>,
    group: Option<ProcessGroup>,
    weights: Weights,
    gradient: Option<Collective>)

  function Fresh(weights: Weights): Replica {
    Replica(0, 0, 0, -1, false, false, None, 0, None, None, None, weights, None)
  }

  // ----- The step, as functions of the Manager's fields

  function Started(r: Replica): Replica {
    r.(errored := false, healing := false, gradient := None)
  }

  function Smaller(a: nat, b: nat): nat {
    if a < b then a else b
  }

  /** The rank a Manager takes part with, if it does, and the divisor it averages with. */
  function Participation(cfg: Config, allowHeal: bool, resp: Response): (Option<nat>, nat)
  {
    var (rank, size) :=
      if cfg.useAsyncQuorum || !allowHeal then (resp.maxReplicaRank, resp.maxWorldSize)
      else (Some(resp.replicaRank), resp.replicaWorldSize);
    if cfg.mode.FixedWithSpares? then
      (if rank.Some? && rank.value >= cfg.minReplicaSize then None else rank, Smaller(size, cfg.minReplicaSize))
    else (rank, size)
  }

  function Placed(cfg: Config, allowHeal: bool, r: Replica, resp: Response): Replica {
    var (rank, size) := Participation(cfg, allowHeal, resp);
    r.(rank := rank, worldSize := size)
  }

  /** Reconfigures the process group if the quorum id moved; the new id is stored before it can fail. */
  function Grouped(r: Replica, resp: Response, configureOk: bool): Replica {
    if resp.quorumId == r.quorumId then r
    else if configureOk then
      r.(quorumId := resp.quorumId,
         group := Some(ProcessGroup(resp.quorumId, resp.replicaRank, resp.replicaWorldSize, 0)))
    else r.(quorumId := resp.quorumId, group := None, errored := true)
  }

  /** Stages a checkpoint for peers. The flag tells whether recovery is still to be run. */
  function Staged(r: Replica, resp: Response, sendOk: bool): (Replica, bool) {
    if resp.recoverDstReplicaRanks == [] then (r, resp.heal)
    else if sendOk then (r.(serving := Some(Checkpoint(r.step, r.batches, r.weights))), resp.heal)
    else (r.(errored := true), false)
  }

  /** The part of the quorum thread before recovery. */
  function Configured(cfg: Config, allowHeal: bool, r: Replica, resp: Response, configureOk: bool, sendOk: bool)
    : (Replica, bool)
  {
    var grouped := Grouped(Placed(cfg, allowHeal, r, resp), resp, configureOk);
    if (resp.quorumId != r.quorumId && !configureOk) || !allowHeal then (grouped, false)
    else Staged(grouped, resp, sendOk)
  }

  /** Fetches and stages the checkpoint of a peer. */
  function Recovered(r: Replica, resp: Response, fetched: Option<Checkpoint>): Replica
  {
    if fetched.None? then r.(healing := true, errored := true)
    else r.(healing := true, pending := fetched, step := resp.maxStep, batches := fetched.value.batches)
  }

  function PendingApplied(r: Replica): Replica {
    if r.pending.None? then r else r.(weights := r.pending.value.weights, pending := None)
  }

  /** With a synchronous quorum a healing replica loads the checkpoint at once and takes part fully. */
  function QuorumWaited(cfg: Config, r: Replica): Replica {
    if !cfg.useAsyncQuorum && r.healing then PendingApplied(r).(healing := false) else r
  }

  /** What `StartQuorum` leaves behind. */
  function QuorumStarted(cfg: Config, allowHeal: bool, r: Replica, resp: Response, configureOk: bool, sendOk: bool,
                         fetched: Option<Checkpoint>): Replica
  {
    var (s, recovers) := Configured(cfg, allowHeal, Started(r), resp, configureOk, sendOk);
    QuorumWaited(cfg, if recovers then Recovered(s, resp, fetched) else s)
  }

  predicate IsParticipating(r: Replica) {
    r.rank.Some? && !r.healing
  }

  function Reduced(r: Replica, ok: bool): Replica {
    if r.errored then r
    else if r.group.None? then r.(errored := true)
    else
      var g := r.group.value;
      var moved := r.(group := Some(g.(ops := g.ops + 1)));
      if ok then moved.(gradient := Some(Collective(g.id, g.ops))) else moved.(errored := true)
  }

  datatype Decision = Commit | Skip | Raise

  function Vote(cfg: Config, r: Replica, groupError: bool): bool {
    r.worldSize >= cfg.minReplicaSize && !r.errored && !groupError
  }

  function Settled(cfg: Config, r: Replica, groupError: bool, peersAgree: bool): (Replica, Decision)
  {
    var caught := r.(errored := r.errored || groupError);
    var loaded := if r.healing then PendingApplied(caught) else caught;
    var closed := loaded.(serving := None);
    if Vote(cfg, r, groupError) && peersAgree then
      (closed.(step := r.step + 1, batches := r.batches + r.worldSize, commitFailures := 0), Commit)
    else
      var failed := closed.(commitFailures := r.commitFailures + 1);
      (failed, if cfg.maxRetries.Some? && failed.commitFailures > cfg.maxRetries.value then Raise else Skip)
  }

  /** The optimizer steps only after a commit. */
  function Optimized(r: Replica): Replica {
    if r.gradient.None? then r else r.(weights := Applied(r.weights, r.gradient.value, r.worldSize))
  }

  /** What the training loop leaves behind after the vote. */
  function StepEnded(cfg: Config, r: Replica, groupError: bool, peersAgree: bool): (Replica, Decision)
  {
    var (s, d) := Settled(cfg, r, groupError, peersAgree);
    (if d.Commit? then Optimized(s) else s, d)
  }

  /** The assertions of the Manager: a healing replica has a staged checkpoint or an error, and only a healing one has a
      checkpoint staged. */
  ghost predicate Sound(cfg: Config, r: Replica) {
    && (r.healing ==> r.pending.Some? || r.errored)
    && (r.pending.Some? ==> r.healing)
  }

  // ----- The object

  class Manager {
    const cfg: Config
    var step: int
    var batches: int
    var commitFailures: nat
    var quorumId: int
    var errored: bool
    var healing: bool
    var rank: Option<nat>
    var worldSize: nat
    var pending: Option<Checkpoint>
    var serving: Option<Checkpoint>
    var group: Option<ProcessGroup>
    var weights: Weights
    var gradient: Option<Collective>

    function Abs(): Replica
      reads this
    {
      Replica(step, batches, commitFailures, quorumId, errored, healing, rank, worldSize,
              pending, serving, group, weights, gradient)
    }

    constructor (cfg: Config, weights: Weights)
      ensures this.cfg == cfg && Abs() == Fresh(weights)
    {
      this.cfg := cfg;
      step, batches, commitFailures, quorumId := 0, 0, 0, -1;
      errored, healing, rank, worldSize := false, false, None, 0;
      pending, serving, group, gradient := None, None, None, None;
      this.weights := weights;
    }

    method ReportError()
      modifies this`errored
      ensures errored
    {
      errored := true;
    }

    method LoadStateDict(ckpt: Checkpoint)
      modifies this`step, this`batches
      ensures step == ckpt.step && batches == ckpt.batches
    {
      step, batches := ckpt.step, ckpt.batches;
    }

    method ApplyPendingStateDict()
      requires healing && (pending.Some? || errored)
      modifies this`weights, this`pending
      ensures Abs() == PendingApplied(old(Abs()))
    {
      if pending.Some? {
        weights := pending.value.weights;
        pending := None;
      }
    }

    method TakeRank(allowHeal: bool, resp: Response)
      modifies this`rank, this`worldSize
      ensures Abs() == Placed(cfg, allowHeal, old(Abs()), resp)
    {
      if cfg.useAsyncQuorum || !allowHeal {
        rank, worldSize := resp.maxReplicaRank, resp.maxWorldSize;
      } else {
        rank, worldSize := Some(resp.replicaRank), resp.replicaWorldSize;
      }
      if cfg.mode.FixedWithSpares? {
        worldSize := Smaller(worldSize, cfg.minReplicaSize);
        if rank.Some? && rank.value >= cfg.minReplicaSize {
          rank := None;
        }
      }
    }

    method Configure(resp: Response, configureOk: bool) returns (failed: bool)
      modifies this`quorumId, this`group, this`errored
      ensures Abs() == Grouped(old(Abs()), resp, configureOk)
      ensures failed <==> resp.quorumId != old(quorumId) && !configureOk
    {
      failed := false;
      if resp.quorumId != quorumId {
        quorumId := resp.quorumId;
        if configureOk {
          group := Some(ProcessGroup(resp.quorumId, resp.replicaRank, resp.replicaWorldSize, 0));
        } else {
          group := None;
          ReportError();
          failed := true;
        }
      }
    }

    method Heal(resp: Response, sendOk: bool, fetched: Option<Checkpoint>)
      modifies this
      ensures var (r, recovers) := Staged(old(Abs()), resp, sendOk);
              Abs() == if recovers then Recovered(r, resp, fetched) else r
    {
      if resp.recoverDstReplicaRanks != [] {
        if !sendOk {
          ReportError();
          return;
        }
        serving := Some(Checkpoint(step, batches, weights));
      }
      if resp.heal {
        healing := true;
        if fetched.None? {
          ReportError();
        } else {
          pending := fetched;
          LoadStateDict(fetched.value);
          step := resp.maxStep;
        }
      }
    }

    /** The quorum thread; the environment decides whether configuring, sending and fetching succeed. */
    method AsyncQuorum(allowHeal: bool, resp: Response, configureOk: bool, sendOk: bool, fetched: Option<Checkpoint>)
      modifies this
      ensures var (r, recovers) := Configured(cfg, allowHeal, old(Abs()), resp, configureOk, sendOk);
              Abs() == if recovers then Recovered(r, resp, fetched) else r
    {
      TakeRank(allowHeal, resp);
      var failed := Configure(resp, configureOk);
      if !failed && allowHeal {
        Heal(resp, sendOk, fetched);
      }
    }

    method StartQuorum(allowHeal: bool, resp: Response, configureOk: bool, sendOk: bool, fetched: Option<Checkpoint>)
      requires pending.None?
      modifies this
      ensures Abs() == QuorumStarted(cfg, allowHeal, old(Abs()), resp, configureOk, sendOk, fetched)
      ensures Sound(cfg, Abs())
    {
      errored := false;
      healing := false;
      gradient := None;
      AsyncQuorum(allowHeal, resp, configureOk, sendOk, fetched);
      if !cfg.useAsyncQuorum && healing {
        ApplyPendingStateDict();
        healing := false;
      }
    }

    /** Contributes the local gradient, or zeros when not participating, unless the step already failed. Without a group
        the collective raises, and the error is reported. */
    method Allreduce(ok: bool) returns (contributed: bool)
      modifies this`group, this`gradient, this`errored
      ensures Abs() == Reduced(old(Abs()), ok)
      ensures contributed <==> !old(errored) && old(group).Some? && IsParticipating(old(Abs()))
    {
      contributed := false;
      if errored {
        return;
      }
      if group.None? {
        ReportError();
        return;
      }
      contributed := rank.Some? && !healing;
      var g := group.value;
      group := Some(g.(ops := g.ops + 1));
      if ok {
        gradient := Some(Collective(g.id, g.ops));
      } else {
        ReportError();
      }
    }

    method ShouldCommit(groupError: bool, peersAgree: bool) returns (decision: Decision)
      requires Sound(cfg, Abs())
      modifies this
      ensures (Abs(), decision) == Settled(cfg, old(Abs()), groupError, peersAgree)
      ensures pending.None? && serving.None?
      ensures decision.Commit? <==>
                old(worldSize) >= cfg.minReplicaSize && !old(errored) && !groupError && peersAgree
      ensures decision.Commit? ==>
                step == old(step) + 1 && batches == old(batches) + old(worldSize) && commitFailures == 0
      ensures !decision.Commit? ==>
                && step == old(step) && batches == old(batches) && commitFailures == old(commitFailures) + 1
                && (decision.Raise? <==> cfg.maxRetries.Some? && old(commitFailures) >= cfg.maxRetries.value)
      ensures weights == if old(pending).Some? then old(pending).value.weights else old(weights)
    {
      if groupError {
        ReportError();
      }
      if healing {
        ApplyPendingStateDict();
      }
      var enoughReplicas := worldSize >= cfg.minReplicaSize;
      var localVote := enoughReplicas && !errored;
      var shouldCommit := localVote && peersAgree;
      serving := None;
      if shouldCommit {
        step := step + 1;
        batches := batches + worldSize;
        commitFailures := 0;
        decision := Commit;
      } else {
        commitFailures := commitFailures + 1;
        if cfg.maxRetries.Some? && commitFailures > cfg.maxRetries.value {
          return Raise;
        }
        decision := Skip;
      }
    }

    /** The optimizer wrapper: step only if the whole group committed. */
    method OptimizerStep(groupError: bool, peersAgree: bool) returns (decision: Decision)
      requires Sound(cfg, Abs())
      modifies this
      ensures (Abs(), decision) == StepEnded(cfg, old(Abs()), groupError, peersAgree)
      ensures pending.None?
      ensures decision.Commit? <==>
                old(worldSize) >= cfg.minReplicaSize && !old(errored) && !groupError && peersAgree
      ensures var loaded := if old(pending).Some? then old(pending).value.weights else old(weights);
              weights == if decision.Commit? && old(gradient).Some?
                         then Applied(loaded, old(gradient).value, old(worldSize))
                         else loaded
    {
      decision := ShouldCommit(groupError, peersAgree);
      if decision.Commit? && gradient.Some? {
        weights := Applied(weights, gradient.value, worldSize);
      }
    }
  }

  // ----- Divisor and ranks

  /** The participating rank a member of a quorum is given. */
  function RankGiven(cfg: Config, allowHeal: bool, q: Quorum, g: nat, m: Member): Option<nat>
    requires UniqueIds(q.participants) && m in q.participants
  {
    PlansAgree(q, g, cfg.initSync, m, m);
    Participation(cfg, allowHeal, Plan(m.replicaId, g, q, cfg.initSync).response).0
  }

  ghost predicate SomeoneHolds(cfg: Config, allowHeal: bool, q: Quorum, g: nat, k: nat)
    requires UniqueIds(q.participants)
  {
    exists m :: m in q.participants && RankGiven(cfg, allowHeal, q, g, m) == Some(k)
  }

  function DivisorGiven(cfg: Config, allowHeal: bool, q: Quorum, g: nat, m: Member): nat
    requires UniqueIds(q.participants) && m in q.participants
  {
    PlansAgree(q, g, cfg.initSync, m, m);
    Participation(cfg, allowHeal, Plan(m.replicaId, g, q, cfg.initSync).response).1
  }

  /** The members that can hold a participating rank, in rank order. */
  function RankHolders(cfg: Config, allowHeal: bool, q: Quorum): seq<Member>
  {
    var ms := SortById(q.participants);
    if ms == [] then []
    else if cfg.useAsyncQuorum || !allowHeal then AtStep(ms, MaxStep(ms))
    else ms
  }

  /** How many ranks the quorum hands out. */
  function NumParticipants(cfg: Config, allowHeal: bool, q: Quorum): nat
  {
    var n := |RankHolders(cfg, allowHeal, q)|;
    if cfg.mode.FixedWithSpares? then Smaller(n, cfg.minReplicaSize) else n
  }

  lemma HoldersAreMembers(cfg: Config, allowHeal: bool, q: Quorum)
    requires UniqueIds(q.participants)
    ensures var hs := RankHolders(cfg, allowHeal, q);
            && StrictlySorted(hs) && UniqueIds(hs)
            && forall m :: m in hs ==> m in q.participants
  {
    var ms := SortById(q.participants);
    SortByIdIsStrict(q.participants);
    SortByIdSorts(q.participants);
    assert forall m :: m in ms ==> m in multiset(ms);
    if ms != [] {
      AtStepStaysSorted(ms, MaxStep(ms));
      AtStepIsTop(ms, MaxStep(ms));
    }
    StrictlySortedIsUnique(RankHolders(cfg, allowHeal, q));
  }

  /** A member's position among the rank holders, if that is below the number of participants. */
  function HolderRank(cfg: Config, allowHeal: bool, q: Quorum, m: Member): Option<nat> {
    var r := RankOf(RankHolders(cfg, allowHeal, q), m.replicaId);
    if cfg.mode.FixedWithSpares? && r.Some? && r.value >= cfg.minReplicaSize then None else r
  }

  lemma GivenIsHolderRank(cfg: Config, allowHeal: bool, q: Quorum, g: nat, m: Member)
    requires UniqueIds(q.participants) && m in q.participants
    ensures RankGiven(cfg, allowHeal, q, g, m) == HolderRank(cfg, allowHeal, q, m)
    ensures DivisorGiven(cfg, allowHeal, q, g, m) == NumParticipants(cfg, allowHeal, q)
  {
    RanksInPlan(q, g, cfg.initSync, m);
  }

  /** A member's rank is its position among the rank holders, cut off at the number of participants. */
  lemma RankIsPosition(cfg: Config, allowHeal: bool, q: Quorum, m: Member)
    requires UniqueIds(q.participants) && m in q.participants
    ensures var r := HolderRank(cfg, allowHeal, q, m);
            var hs := RankHolders(cfg, allowHeal, q);
            && (r.Some? ==> r.value < NumParticipants(cfg, allowHeal, q) && hs[r.value] == m)
            && (r.None? ==> forall k :: 0 <= k < NumParticipants(cfg, allowHeal, q) ==> hs[k] != m)
  {
    HolderPosition(cfg, allowHeal, q, m);
  }

  lemma HolderPosition(cfg: Config, allowHeal: bool, q: Quorum, m: Member)
    requires UniqueIds(q.participants) && m in q.participants
    ensures var hs := RankHolders(cfg, allowHeal, q);
            var r := RankOf(hs, m.replicaId);
            && (r.Some? ==> hs[r.value] == m)
            && (r.None? ==> m !in hs)
            && (forall i, j :: 0 <= i < j < |hs| ==> hs[i] != hs[j])
  {
    var hs := RankHolders(cfg, allowHeal, q);
    HoldersAreMembers(cfg, allowHeal, q);
    var r := RankOf(hs, m.replicaId);
    if r.Some? {
      assert hs[r.value] in hs;
      SameIdSameMember(q.participants, hs[r.value], m);
    }
    MemberHasId(hs, m);
  }

  lemma SameIdSameMember(ms: seq<Member>, a: Member, b: Member)
    requires UniqueIds(ms) && a in ms && b in ms && a.replicaId == b.replicaId
    ensures a == b
  {
    var i :| 0 <= i < |ms| && ms[i] == a;
    var j :| 0 <= j < |ms| && ms[j] == b;
  }

  /** Who can take part: everybody after a synchronous recovery, else the members that are at the top step already. */
  predicate Eligible(cfg: Config, allowHeal: bool, q: Quorum, m: Member)
    requires q.participants != []
  {
    m in q.participants && (cfg.useAsyncQuorum || !allowHeal ==> m.step == MaxStep(q.participants))
  }

  ghost function EligibleBelow(cfg: Config, allowHeal: bool, q: Quorum, m: Member): set<Member>
    requires q.participants != []
  {
    set x | x in q.participants && Eligible(cfg, allowHeal, q, x) && Below(x.replicaId, m.replicaId)
  }

  ghost function AllEligible(cfg: Config, allowHeal: bool, q: Quorum): set<Member>
    requires q.participants != []
  {
    set x | x in q.participants && Eligible(cfg, allowHeal, q, x)
  }

  lemma HoldersAreEligible(cfg: Config, allowHeal: bool, q: Quorum)
    requires UniqueIds(q.participants) && q.participants != []
    ensures forall m :: m in RankHolders(cfg, allowHeal, q) <==> Eligible(cfg, allowHeal, q, m)
  {
    var ms := SortById(q.participants);
    SortByIdSorts(q.participants);
    MaxStepIgnoresOrder(q.participants, ms);
    AtStepIsTop(ms, MaxStep(ms));
    forall m ensures m in ms <==> m in q.participants {
      assert m in multiset(ms) <==> m in multiset(q.participants);
    }
  }

  /** A member takes part exactly if it is eligible and, with spares, few enough eligible ids come before its own; its
      rank is how many do. Everybody divides by the number of the eligible, with spares by at most the minimum. */
  lemma RanksCountTheEligible(cfg: Config, allowHeal: bool, q: Quorum, g: nat, m: Member)
    requires UniqueIds(q.participants) && m in q.participants
    ensures var before, all := |EligibleBelow(cfg, allowHeal, q, m)|, |AllEligible(cfg, allowHeal, q)|;
            && (RankGiven(cfg, allowHeal, q, g, m).Some? <==>
                  Eligible(cfg, allowHeal, q, m) && (cfg.mode.FixedWithSpares? ==> before < cfg.minReplicaSize))
            && (RankGiven(cfg, allowHeal, q, g, m).Some? ==> RankGiven(cfg, allowHeal, q, g, m).value == before)
            && DivisorGiven(cfg, allowHeal, q, g, m)
               == if cfg.mode.FixedWithSpares? && cfg.minReplicaSize < all then cfg.minReplicaSize else all
  {
    hide RankHolders, Eligible, EligibleBelow, AllEligible, RankGiven, DivisorGiven;
    GivenIsHolderRank(cfg, allowHeal, q, g, m);
    HoldersCounted(cfg, allowHeal, q, m);
    HoldersBefore(cfg, allowHeal, q, m);
  }

  lemma HoldersCounted(cfg: Config, allowHeal: bool, q: Quorum, m: Member)
    requires UniqueIds(q.participants) && m in q.participants
    ensures |AllEligible(cfg, allowHeal, q)| == |RankHolders(cfg, allowHeal, q)|
    ensures RankOf(RankHolders(cfg, allowHeal, q), m.replicaId).Some? <==> Eligible(cfg, allowHeal, q, m)
  {
    var hs := RankHolders(cfg, allowHeal, q);
    HoldersAreMembers(cfg, allowHeal, q);
    HoldersAreEligible(cfg, allowHeal, q);
    HolderPosition(cfg, allowHeal, q, m);
    AmongCounts(hs);
    hide RankHolders;
    assert AllEligible(cfg, allowHeal, q) == Among(hs);
  }

  lemma HoldersBefore(cfg: Config, allowHeal: bool, q: Quorum, m: Member)
    requires UniqueIds(q.participants) && m in q.participants
    ensures var r := RankOf(RankHolders(cfg, allowHeal, q), m.replicaId);
            r.Some? ==> |EligibleBelow(cfg, allowHeal, q, m)| == r.value
  {
    var hs := RankHolders(cfg, allowHeal, q);
    HoldersAreMembers(cfg, allowHeal, q);
    HoldersAreEligible(cfg, allowHeal, q);
    HolderPosition(cfg, allowHeal, q, m);
    var r := RankOf(hs, m.replicaId);
    if r.Some? {
      hide RankHolders, Eligible;
      AmongCounts(hs[..r.value]);
      BeforeInOrder(hs, r.value);
      assert EligibleBelow(cfg, allowHeal, q, m) == Among(hs[..r.value]);
    }
  }

  /** In every mode the ranks handed out are exactly 0 to the common divisor minus one, each once. */
  lemma RanksMatchDivisor(cfg: Config, allowHeal: bool, q: Quorum, g: nat)
    requires UniqueIds(q.participants)
    ensures forall m :: m in q.participants ==>
              DivisorGiven(cfg, allowHeal, q, g, m) == NumParticipants(cfg, allowHeal, q)
    ensures forall m :: m in q.participants && RankGiven(cfg, allowHeal, q, g, m).Some? ==>
              RankGiven(cfg, allowHeal, q, g, m).value < NumParticipants(cfg, allowHeal, q)
    ensures forall k :: 0 <= k < NumParticipants(cfg, allowHeal, q) ==>
              SomeoneHolds(cfg, allowHeal, q, g, k)
    ensures forall m, n :: m in q.participants && n in q.participants
              && RankGiven(cfg, allowHeal, q, g, m).Some?
              && RankGiven(cfg, allowHeal, q, g, m) == RankGiven(cfg, allowHeal, q, g, n)
              ==> m == n
  {
    var hs := RankHolders(cfg, allowHeal, q);
    HoldersAreMembers(cfg, allowHeal, q);
    forall m | m in q.participants
      ensures DivisorGiven(cfg, allowHeal, q, g, m) == NumParticipants(cfg, allowHeal, q)
      ensures var r := RankGiven(cfg, allowHeal, q, g, m);
              && r == HolderRank(cfg, allowHeal, q, m)
              && (r.Some? ==> r.value < NumParticipants(cfg, allowHeal, q) && hs[r.value] == m)
    {
      GivenIsHolderRank(cfg, allowHeal, q, g, m);
      RankIsPosition(cfg, allowHeal, q, m);
    }
    forall k | 0 <= k < NumParticipants(cfg, allowHeal, q)
      ensures SomeoneHolds(cfg, allowHeal, q, g, k)
    {
      var m := hs[k];
      assert m in hs;
      RankIsPosition(cfg, allowHeal, q, m);
      assert m in q.participants && RankGiven(cfg, allowHeal, q, g, m) == Some(k);
    }
  }

  /** Whether a member that recovers without an error adds its own gradient to the sum. */
  predicate AddsGradient(cfg: Config, allowHeal: bool, q: Quorum, g: nat, m: Member)
    requires UniqueIds(q.participants) && m in q.participants
  {
    PlansAgree(q, g, cfg.initSync, m, m);
    && RankGiven(cfg, allowHeal, q, g, m).Some?
    && !(cfg.useAsyncQuorum && allowHeal && Plan(m.replicaId, g, q, cfg.initSync).response.heal)
  }

  /** What the quorum thread leaves behind, case by case: it configures if the id moved; only if that went well does it
      send, and only if that went well does it fetch. */
  lemma ThreadEndsAs(cfg: Config, allowHeal: bool, r: Replica, resp: Response, configureOk: bool, sendOk: bool,
                     fetched: Option<Checkpoint>)
    requires r.pending.None?
    ensures var s := QuorumStarted(cfg, allowHeal, r, resp, configureOk, sendOk, fetched);
            var moved := resp.quorumId != r.quorumId;
            var sends := (!moved || configureOk) && allowHeal && resp.recoverDstReplicaRanks != [];
            var fetches := (!moved || configureOk) && allowHeal && resp.heal && (sends ==> sendOk);
            && (s.errored <==> (moved && !configureOk) || (sends && !sendOk) || (fetches && fetched.None?))
            && s.quorumId == resp.quorumId && s.commitFailures == r.commitFailures && s.gradient == None
            && (!moved ==> s.group == r.group)
            && (moved && configureOk ==>
                  s.group == Some(ProcessGroup(resp.quorumId, resp.replicaRank, resp.replicaWorldSize, 0)))
            && (moved && !configureOk ==> s.group == None)
            && s.serving == (if sends && sendOk then Some(Checkpoint(r.step, r.batches, r.weights)) else r.serving)
            && (!(fetches && fetched.Some?) ==>
                  s.step == r.step && s.batches == r.batches && s.weights == r.weights && s.pending == None)
            && (fetches && fetched.Some? ==> s.step == resp.maxStep && s.batches == fetched.value.batches)
            && (fetches && fetched.Some? && cfg.useAsyncQuorum ==>
                  s.pending == fetched && s.weights == r.weights && s.healing)
            && (fetches && fetched.Some? && !cfg.useAsyncQuorum ==>
                  s.pending == None && s.weights == fetched.value.weights && !s.healing)
  {
    hide Participation;
  }

  /** Whenever the quorum thread ends without an error, the next allreduce contributes the own gradient exactly if the
      plan says so: with a group, `contributed` of `Allreduce` is `AddsGradient`. */
  lemma ContributesAsPlanned(cfg: Config, allowHeal: bool, q: Quorum, g: nat, m: Member, r: Replica,
                             configureOk: bool, sendOk: bool, fetched: Option<Checkpoint>)
    requires UniqueIds(q.participants) && m in q.participants && Plan(m.replicaId, g, q, cfg.initSync).Planned?
    requires var resp := Plan(m.replicaId, g, q, cfg.initSync).response;
             !QuorumStarted(cfg, allowHeal, r, resp, configureOk, sendOk, fetched).errored
    ensures var resp := Plan(m.replicaId, g, q, cfg.initSync).response;
            IsParticipating(QuorumStarted(cfg, allowHeal, r, resp, configureOk, sendOk, fetched))
            <==> AddsGradient(cfg, allowHeal, q, g, m)
  {
    hide Plan, Participation;
    PlansAgree(q, g, cfg.initSync, m, m);
    var resp := Plan(m.replicaId, g, q, cfg.initSync).response;
    StartedParticipates(cfg, allowHeal, r, resp, configureOk, sendOk, fetched);
    assert RankGiven(cfg, allowHeal, q, g, m) == Participation(cfg, allowHeal, resp).0;
  }

  lemma StartedParticipates(cfg: Config, allowHeal: bool, r: Replica, resp: Response, configureOk: bool, sendOk: bool,
                            fetched: Option<Checkpoint>)
    requires !QuorumStarted(cfg, allowHeal, r, resp, configureOk, sendOk, fetched).errored
    ensures IsParticipating(QuorumStarted(cfg, allowHeal, r, resp, configureOk, sendOk, fetched))
            <==> Participation(cfg, allowHeal, resp).0.Some? && !(cfg.useAsyncQuorum && allowHeal && resp.heal)
  {
    hide Participation;
  }

  /** The divisor counts ranks, not gradients. They agree, so that the average is over what was added,
      exactly unless an asynchronous first step is synchronizing the initial weights of a rank holder:
      then every rank holder but the primary adds zeros. */
  lemma AverageCountsGradientsExactlyWhen(cfg: Config, allowHeal: bool, q: Quorum, g: nat)
    requires UniqueIds(q.participants) && q.participants != []
    ensures (forall m :: m in q.participants && RankGiven(cfg, allowHeal, q, g, m).Some? ==>
               AddsGradient(cfg, allowHeal, q, g, m))
            <==>
            !(cfg.useAsyncQuorum && allowHeal && cfg.initSync && MaxStep(q.participants) == 0
              && SortById(q.participants) != []
              && exists m :: m in q.participants && RankGiven(cfg, allowHeal, q, g, m).Some?
                             && m.replicaId != Primary(SortById(q.participants), g).replicaId)
  {
    var ms := SortById(q.participants);
    MaxStepIgnoresOrder(q.participants, ms);
    forall m | m in q.participants && RankGiven(cfg, allowHeal, q, g, m).Some?
      ensures AddsGradient(cfg, allowHeal, q, g, m) <==>
              !(cfg.useAsyncQuorum && allowHeal && cfg.initSync && MaxStep(ms) == 0
                && m.replicaId != Primary(ms, g).replicaId)
    {
      HealingHasASource(q, g, cfg.initSync, m);
      if cfg.useAsyncQuorum {
        GivenIsHolderRank(cfg, allowHeal, q, g, m);
        RankIsPosition(cfg, allowHeal, q, m);
        AtStepIsTop(ms, MaxStep(ms));
        assert m in RankHolders(cfg, allowHeal, q);
      }
    }
  }

  /** The divisor can exceed the number of gradients added: two newcomers that synchronize their weights in an
      asynchronous first step divide by two and add one gradient. */
  lemma FirstStepAddsOneGradientOfTwo()
    ensures var cfg := Config(true, 1, Dynamic, true, None);
            var x, y := Member("a", "a", "a", 0, 1, false, 0), Member("b", "b", "b", 0, 1, false, 0);
            var q := Quorum(1, [x, y]);
            && UniqueIds(q.participants) && x in q.participants && y in q.participants
            && NumParticipants(cfg, true, q) == 2
            && RankGiven(cfg, true, q, 0, x).Some? && RankGiven(cfg, true, q, 0, y).Some?
            && AddsGradient(cfg, true, q, 0, x) && !AddsGradient(cfg, true, q, 0, y)
  {
    var cfg := Config(true, 1, Dynamic, true, None);
    var x, y := Member("a", "a", "a", 0, 1, false, 0), Member("b", "b", "b", 0, 1, false, 0);
    var q := Quorum(1, [x, y]);
    assert StrictlySorted([x, y]) && q.participants[0] == x && q.participants[1] == y;
    SortOfSorted([x, y]);
    assert AtStep([y], 0) == [y] && AtStep([x, y], 0) == [x, y];
    GivenIsHolderRank(cfg, true, q, 0, x);
    GivenIsHolderRank(cfg, true, q, 0, y);
    HealingHasASource(q, 0, true, x);
    HealingHasASource(q, 0, true, y);
  }
}
