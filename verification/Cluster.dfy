/** The whole protocol: one Lighthouse and any number of replica groups, as interleaved steps. */
module Cluster {
  import opened Protocol
  import opened ReplicaOrder
  import opened Planner
  import opened Manager
  import L = Lighthouse

  datatype Env = Env(cfg: Config, opt: L.Options, groupRank: nat)

  datatype Stage =
    | Assigned  // a quorum with this replica was broadcast
    | Fetching  // configured, recovery still to be run
    | Ready     // the quorum thread is done
    | Voting    // the gradients were reduced

  datatype Phase =
    | Idle
    | Waiting(record: Member)
    | InFlight(issue: nat, record: Member, stage: Stage)

  /** A live replica; `last` is the latest issue it has acted on, or -1. */
  datatype Node = Node(r: Replica, phase: Phase, last: int)

  /** Crashed replicas are not in `nodes`; ids are never used again. */
  datatype System = System(run: L.Run, nodes: map<string, Node>, used: set<string>)

  datatype Event =
    | Join(id: string)
    | Crash(id: string)
    | Beat(id: string, now: int)
    | Ask(id: string, shrinkOnly: bool, now: int)
    | AskAgain(id: string, now: int)
    | Tick(now: int)
    | Prepare(id: string, configureOk: bool, sendOk: bool)
    | Fetch(id: string, ok: bool)
    | Reduce(id: string, ok: bool)
    | Report(id: string)
    | Decide(id: string, groupError: bool, peersAgree: bool)

  const Start: System := System(L.Run(L.Initial, []), map[], {})

  // ----- Steps

  function Quorums(s: System, n: nat): Quorum
    requires n < |s.run.issues|
  {
    s.run.issues[n].quorum
  }

  function Record(id: string, r: Replica, shrinkOnly: bool): Member {
    Member(id, id, id, r.step, 1, shrinkOnly, r.commitFailures)
  }

  function FirstWeights(env: Env, id: string): Weights {
    if env.cfg.initSync then Initialized(id) else Seeded
  }

  /** A broadcast quorum reaches every live member that waits for it. */
  function Assign(nodes: map<string, Node>, q: Quorum, n: nat): map<string, Node> {
    map id | id in nodes ::
      if nodes[id].phase.Waiting? && id in L.IdSet(q.participants)
      then nodes[id].(phase := InFlight(n, nodes[id].phase.record, Assigned))
      else nodes[id]
  }

  function Broadcast(s: System, run: L.Run): System {
    if |run.issues| == |s.run.issues| + 1 then
      s.(run := run, nodes := Assign(s.nodes, run.issues[|s.run.issues|].quorum, |s.run.issues|))
    else s.(run := run)
  }

  function Response(env: Env, q: Quorum, id: string): Option<Response> {
    match Plan(id, env.groupRank, q, env.cfg.initSync)
    case Planned(x) => Some(x)
    case NotParticipating(_) => None
  }

  /** What a replica receives from the peer the plan names, if that peer serves the right step. */
  function Fetched(s: System, x: Planner.Response): Option<Checkpoint> {
    if x.recoverSrcReplicaRank.Some? && x.recoverSrcReplicaRank.value < |x.replicaIds| then
      var src := x.replicaIds[x.recoverSrcReplicaRank.value];
      if src in s.nodes && s.nodes[src].r.serving.Some? && s.nodes[src].r.serving.value.step == x.maxStep
      then s.nodes[src].r.serving
      else None
    else None
  }

  function Put(s: System, id: string, node: Node): System {
    s.(nodes := s.nodes[id := node])
  }

  function Asked(env: Env, s: System, id: string, shrinkOnly: bool): System
    requires id in s.nodes
  {
    var r := Started(s.nodes[id].r);
    Put(s, id, s.nodes[id].(r := r, phase := Waiting(Record(id, r, shrinkOnly))))
  }

  function Prepared(env: Env, node: Node, x: Planner.Response, configureOk: bool, sendOk: bool): Node
    requires node.phase.InFlight?
  {
    var (r, recovers) := Configured(env.cfg, true, node.r, x, configureOk, sendOk);
    Node(if recovers then r else QuorumWaited(env.cfg, r),
         node.phase.(stage := if recovers then Fetching else Ready),
         node.phase.issue)
  }

  function Healed(env: Env, node: Node, x: Planner.Response, fetched: Option<Checkpoint>): Node
    requires node.phase.InFlight?
  {
    node.(r := QuorumWaited(env.cfg, Recovered(node.r, x, fetched)), phase := node.phase.(stage := Ready))
  }

  function Decided(env: Env, node: Node, groupError: bool, peersAgree: bool): (Node, Decision) {
    var (r, d) := StepEnded(env.cfg, node.r, groupError, peersAgree);
    (node.(r := r, phase := Idle), d)
  }

  predicate At(s: System, id: string, stage: Stage) {
    id in s.nodes && s.nodes[id].phase.InFlight? && s.nodes[id].phase.stage == stage
    && s.nodes[id].phase.issue < |s.run.issues|
  }

  /** One step; an event that is not enabled changes nothing. */
  function Next(env: Env, s: System, e: Event): System {
    match e
    case Join(id) =>
      if id in s.used then s
      else Put(s, id, Node(Fresh(FirstWeights(env, id)), Idle, -1)).(used := s.used + {id})
    case Crash(id) => s.(nodes := s.nodes - {id})
    case Beat(id, now) => s.(run := L.Step(s.run, L.HeartbeatArrives(id, now), env.opt))
    case Ask(id, shrinkOnly, now) =>
      if id in s.nodes && s.nodes[id].phase.Idle? then
        var t := Asked(env, s, id, shrinkOnly);
        Broadcast(t, L.Step(s.run, L.QuorumRequested(t.nodes[id].phase.record, now), env.opt))
      else s
    case AskAgain(id, now) =>
      if id in s.nodes && s.nodes[id].phase.Waiting? then
        s.(run := L.Step(s.run, L.RegistersAgain(s.nodes[id].phase.record, now), env.opt))
      else s
    case Tick(now) => Broadcast(s, L.Step(s.run, L.Ticks(now), env.opt))
    case Prepare(id, configureOk, sendOk) =>
      if At(s, id, Assigned) then
        var x := Response(env, Quorums(s, s.nodes[id].phase.issue), id);
        if x.Some? then Put(s, id, Prepared(env, s.nodes[id], x.value, configureOk, sendOk)) else s
      else s
    case Fetch(id, ok) =>
      if At(s, id, Fetching) then
        var x := Response(env, Quorums(s, s.nodes[id].phase.issue), id);
        if x.Some? then Put(s, id, Healed(env, s.nodes[id], x.value, if ok then Fetched(s, x.value) else None)) else s
      else s
    case Reduce(id, ok) =>
      if At(s, id, Ready) then
        Put(s, id, s.nodes[id].(r := Reduced(s.nodes[id].r, ok), phase := s.nodes[id].phase.(stage := Voting)))
      else s
    case Report(id) =>
      if At(s, id, Ready) || At(s, id, Voting) then
        Put(s, id, s.nodes[id].(r := s.nodes[id].r.(errored := true)))
      else s
    case Decide(id, groupError, peersAgree) =>
      if At(s, id, Voting) then
        var (node, d) := Decided(env, s.nodes[id], groupError, peersAgree);
        if d.Raise? then s.(nodes := s.nodes - {id}) else Put(s, id, node)
      else s
  }

  function After(env: Env, events: seq<Event>): System {
    if events == [] then Start
    else Next(env, After(env, events[..|events| - 1]), events[|events| - 1])
  }

  // ----- What holds of each replica, in every run

  /** How many issues right before `n` have the same id. */
  function Since(issues: seq<L.Issue>, n: nat): nat
    requires n < |issues|
  {
    if n == 0 || issues[n - 1].quorum.quorumId != issues[n].quorum.quorumId then 0
    else Since(issues, n - 1) + 1
  }

  /** The process group of member `id` of quorum `q` after `ops` collectives. */
  function GroupOf(q: Quorum, id: string, ops: nat): Option<ProcessGroup> {
    var rank := RankOf(q.participants, id);
    if rank.None? then None else Some(ProcessGroup(q.quorumId, rank.value, |q.participants|, ops))
  }

  ghost predicate Behind(env: Env, q: Quorum, m: Member) {
    q.participants != [] && MustRecover(q.participants, env.groupRank, env.cfg.initSync, m)
  }

  ghost function Top(q: Quorum): int {
    if q.participants == [] then 0 else MaxStep(q.participants)
  }

  function Divisor(env: Env, q: Quorum): nat {
    NumParticipants(env.cfg, true, q)
  }

  /** The state a replica holds, counting a staged checkpoint as loaded. */
  function Holds(r: Replica): Checkpoint {
    Checkpoint(r.step, r.batches, if r.pending.Some? then r.pending.value.weights else r.weights)
  }

  ghost predicate Matches(m: Member, id: string, r: Replica) {
    m.replicaId == id && m.step == r.step && m.commitFailures == r.commitFailures
  }

  /** Between steps. */
  ghost predicate Resting(issues: seq<L.Issue>, id: string, node: Node)
    requires -1 <= node.last < |issues|
  {
    var r := node.r;
    && r.pending.None? && r.serving.None?
    && (node.last == -1 ==> r.quorumId == -1 && r.commitFailures == 0)
    && (node.last >= 0 ==>
          && r.quorumId == issues[node.last].quorum.quorumId
          && (r.commitFailures == 0 ==>
                r.group == GroupOf(issues[node.last].quorum, id, Since(issues, node.last) + 1)))
  }

  /** Within a step, once the quorum thread is done. */
  ghost predicate Working(env: Env, q: Quorum, id: string, m: Member, r: Replica, ops: nat)
  {
    && r.quorumId == q.quorumId
    && r.step <= Top(q)
    && (!Behind(env, q, m) ==> r.step == Top(q) && r.pending.None? && !r.healing)
    && (r.serving.Some? ==> !Behind(env, q, m) && r.serving == Some(Holds(r)))
    && (r.pending.Some? ==> r.healing)
    && (r.healing && r.pending.None? ==> r.errored)
    && (!r.errored ==> r.step == Top(q) && r.group == GroupOf(q, id, ops) && r.worldSize == Divisor(env, q))
  }

  ghost predicate Local(env: Env, issues: seq<L.Issue>, id: string, node: Node)
  {
    var r := node.r;
    && 0 <= r.step
    && (r.step == 0 ==> r.batches == 0 && (!env.cfg.initSync ==> Holds(r).weights == Seeded))
    && -1 <= node.last < |issues|
    && (forall k :: node.last < k < |issues| && HasId(issues[k].quorum.participants, id) ==>
          node.phase.InFlight? && node.phase.issue == k && node.phase.stage == Assigned)
    && match node.phase
       case Idle => Resting(issues, id, node)
       case Waiting(m) => Resting(issues, id, node) && Matches(m, id, r) && !r.errored && !r.healing
       case InFlight(n, m, stage) =>
         && n < |issues| && m in issues[n].quorum.participants && m.replicaId == id
         && match stage
            case Assigned =>
              node.last < n && Resting(issues, id, node) && Matches(m, id, r) && !r.errored && !r.healing
            case Fetching =>
              && node.last == n && Behind(env, issues[n].quorum, m)
              && r.step == m.step && r.pending.None? && r.serving.None? && !r.errored && !r.healing
              && r.quorumId == issues[n].quorum.quorumId
              && r.group == GroupOf(issues[n].quorum, id, Since(issues, n))
              && r.worldSize == Divisor(env, issues[n].quorum)
            case Ready =>
              node.last == n && Working(env, issues[n].quorum, id, m, r, Since(issues, n))
            case Voting =>
              && node.last == n && Working(env, issues[n].quorum, id, m, r, Since(issues, n) + 1)
              && (!r.errored ==> r.gradient == Some(Collective(issues[n].quorum.quorumId, Since(issues, n))))
  }

  ghost predicate Linked(s: System) {
    && (forall id :: id in s.run.state.participants && id in s.nodes ==>
          s.nodes[id].phase == Waiting(s.run.state.participants[id].member))
    && (forall id :: id in s.run.state.participants ==> id in s.used)
    && (forall id :: id in s.nodes ==> id in s.used)
    && (forall k, id :: 0 <= k < |s.run.issues| && HasId(s.run.issues[k].quorum.participants, id) ==> id in s.used)
  }

  /** What every step keeps, whatever the environment does. */
  ghost predicate Inv(env: Env, s: System) {
    && L.Consistent(s.run) && Linked(s)
    && forall id :: id in s.nodes ==> Local(env, s.run.issues, id, s.nodes[id])
  }
}
