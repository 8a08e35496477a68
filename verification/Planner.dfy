/** The recovery planner every ManagerServer runs on a quorum it received. */
module Planner {
  import opened Arithmetic
  import opened Protocol
  import opened ReplicaOrder

  /** What the planner tells one rank of one replica group. */
  datatype Response = Response(
    quorumId: int,
    recoverSrcManagerAddress: string,
    recoverSrcReplicaRank: Option<nat>,
    recoverDstReplicaRanks: seq<nat>,
    storeAddress: string,
    maxStep: int,
    maxReplicaRank: Option<nat>,
    maxWorldSize: nat,
    replicaRank: nat,
    replicaWorldSize: nat,
    heal: bool,
    commitFailures: int,
    replicaIds: seq<string>)

  datatype Outcome = Planned(response: Response) | NotParticipating(replicaId: string)

  // ----- The parts of the plan

  /** Position of the first member with the given id. */
  function RankOf(ms: seq<Member>, id: string): (r: Option<nat>)
    ensures r.Some? ==> r.value < |ms| && ms[r.value].replicaId == id
    ensures r.Some? ==> forall i :: 0 <= i < r.value ==> ms[i].replicaId != id
    ensures r.None? ==> !HasId(ms, id)
  {
    if ms == [] then None
    else if ms[0].replicaId == id then Some(0)
    else
      var rest := RankOf(ms[1..], id);
      assert forall i :: 1 <= i < |ms| ==> ms[i] == ms[1..][i - 1];
      if rest.None? then None else Some(rest.value + 1)
  }

  function MaxStep(ms: seq<Member>): (s: int)
    requires ms != []
    ensures exists i :: 0 <= i < |ms| && ms[i].step == s
    ensures forall i :: 0 <= i < |ms| ==> ms[i].step <= s
  {
    if |ms| == 1 then ms[0].step
    else
      var rest := MaxStep(ms[1..]);
      assert forall i :: 1 <= i < |ms| ==> ms[i] == ms[1..][i - 1];
      if ms[0].step > rest then ms[0].step else rest
  }

  function MaxFailures(ms: seq<Member>): (f: int)
    requires ms != []
    ensures exists i :: 0 <= i < |ms| && ms[i].commitFailures == f
    ensures forall i :: 0 <= i < |ms| ==> ms[i].commitFailures <= f
  {
    if |ms| == 1 then ms[0].commitFailures
    else
      var rest := MaxFailures(ms[1..]);
      assert forall i :: 1 <= i < |ms| ==> ms[i] == ms[1..][i - 1];
      if ms[0].commitFailures > rest then ms[0].commitFailures else rest
  }

  /** The members at the given step, in order. */
  function AtStep(ms: seq<Member>, step: int): (r: seq<Member>)
  {
    if ms == [] then []
    else (if ms[0].step == step then [ms[0]] else []) + AtStep(ms[1..], step)
  }

  /** The positions whose flag is set, in order. */
  function RanksWhere(flags: seq<bool>): (r: seq<nat>)
    ensures |r| <= |flags|
  {
    if flags == [] then []
    else
      var n := |flags| - 1;
      RanksWhere(flags[..n]) + (if flags[n] then [n] else [])
  }

  function Primary(ms: seq<Member>, groupRank: nat): Member
    requires ms != []
  {
    var top := AtStep(ms, MaxStep(ms));
    AtStepIsTop(ms, MaxStep(ms));
    top[groupRank % |top|]
  }

  /** Who has to fetch a checkpoint. */
  predicate MustRecover(ms: seq<Member>, groupRank: nat, initSync: bool, m: Member)
    requires ms != []
  {
    m.step != MaxStep(ms)
    || (initSync && MaxStep(ms) == 0 && Primary(ms, groupRank).replicaId != m.replicaId)
  }

  function RecoverFlags(ms: seq<Member>, groupRank: nat, initSync: bool): (f: seq<bool>)
    requires ms != []
    ensures |f| == |ms|
  {
    seq(|ms|, i requires 0 <= i < |ms| => MustRecover(ms, groupRank, initSync, ms[i]))
  }

  function Negated(flags: seq<bool>): (f: seq<bool>)
  {
    seq(|flags|, i requires 0 <= i < |flags| => !flags[i])
  }

  /** The recovering ranks, in order, that the round robin gives to `rank`. */
  function Receivers(recovering: seq<nat>, upToDate: seq<nat>, groupRank: nat, rank: nat): (r: seq<nat>)
    requires upToDate != []
  {
    if recovering == [] then []
    else
      var n := |recovering| - 1;
      Receivers(recovering[..n], upToDate, groupRank, rank)
      + (if upToDate[(n + groupRank) % |upToDate|] == rank then [recovering[n]] else [])
  }

  /** The rank that the round robin makes `rank` recover from. */
  function SourceOf(recovering: seq<nat>, upToDate: seq<nat>, groupRank: nat, rank: nat): (r: Option<nat>)
    requires upToDate != []
  {
    if recovering == [] then None
    else
      var n := |recovering| - 1;
      if recovering[n] == rank then Some(upToDate[(n + groupRank) % |upToDate|])
      else SourceOf(recovering[..n], upToDate, groupRank, rank)
  }

  function Recovering(ms: seq<Member>, groupRank: nat, initSync: bool): seq<nat>
    requires ms != []
  {
    RanksWhere(RecoverFlags(ms, groupRank, initSync))
  }

  function UpToDate(ms: seq<Member>, groupRank: nat, initSync: bool): seq<nat>
    requires ms != []
  {
    RanksWhere(Negated(RecoverFlags(ms, groupRank, initSync)))
  }

  /** The plan for one rank, as a function of sorted members. */
  function PlanAt(ms: seq<Member>, rank: nat, quorumId: int, groupRank: nat, initSync: bool): Response
    requires rank < |ms|
  {
    var step := MaxStep(ms);
    var top := AtStep(ms, step);
    var rec := Recovering(ms, groupRank, initSync);
    var up := UpToDate(ms, groupRank, initSync);
    SomeoneIsUpToDate(ms, groupRank, initSync);
    var src := SourceOf(rec, up, groupRank, rank);
    SourceIsUpToDate(rec, up, groupRank, rank);
    RanksWhereSelects(Negated(RecoverFlags(ms, groupRank, initSync)));
    Response(
      quorumId,
      if src.Some? then ms[src.value].address else "",
      src,
      Receivers(rec, up, groupRank, rank),
      Primary(ms, groupRank).storeAddress,
      step,
      RankOf(top, ms[rank].replicaId),
      |top|,
      rank,
      |ms|,
      src.Some?,
      MaxFailures(ms),
      Ids(ms))
  }

  function Plan(replicaId: string, groupRank: nat, quorum: Quorum, initSync: bool): Outcome
  {
    var ms := SortById(quorum.participants);
    var rank := RankOf(ms, replicaId);
    if rank.None? then NotParticipating(replicaId)
    else Planned(PlanAt(ms, rank.value, quorum.quorumId, groupRank, initSync))
  }

  // ----- What the parts select

  lemma {:induction false} AtStepIsTop(ms: seq<Member>, step: int)
    ensures forall m :: m in AtStep(ms, step) <==> m in ms && m.step == step
    ensures |AtStep(ms, step)| <= |ms|
    ensures (exists i :: 0 <= i < |ms| && ms[i].step == step) ==> AtStep(ms, step) != []
  {
    if ms != [] {
      AtStepIsTop(ms[1..], step);
      assert ms == [ms[0]] + ms[1..];
      if ms[0].step != step && exists i :: 0 <= i < |ms| && ms[i].step == step {
        var i :| 0 <= i < |ms| && ms[i].step == step;
        assert ms[1..][i - 1].step == step;
      }
    }
  }

  lemma {:induction false} AtStepStaysSorted(ms: seq<Member>, step: int)
    requires StrictlySorted(ms)
    ensures StrictlySorted(AtStep(ms, step))
  {
    if ms != [] {
      AtStepStaysSorted(ms[1..], step);
      AtStepIsTop(ms[1..], step);
      var rest := AtStep(ms[1..], step);
      forall j | 0 <= j < |rest| ensures Below(ms[0].replicaId, rest[j].replicaId) {
        assert rest[j] in ms[1..];
      }
    }
  }

  lemma {:induction false} RanksWhereSelects(flags: seq<bool>)
    ensures forall i :: i in RanksWhere(flags) <==> 0 <= i < |flags| && flags[i]
    ensures forall i, j :: 0 <= i < j < |RanksWhere(flags)| ==> RanksWhere(flags)[i] < RanksWhere(flags)[j]
  {
    if flags != [] {
      var n := |flags| - 1;
      RanksWhereSelects(flags[..n]);
      AppendedRank(RanksWhere(flags[..n]), n);
    }
  }

  lemma AppendedRank(r: seq<nat>, n: nat)
    requires forall i :: i in r ==> i < n
    ensures forall i :: i in r + [n] <==> i in r || i == n
    ensures (forall i, j :: 0 <= i < j < |r| ==> r[i] < r[j]) ==>
              forall i, j :: 0 <= i < j < |r + [n]| ==> (r + [n])[i] < (r + [n])[j]
    ensures r + [] == r
  {
    forall i, j | 0 <= i < j < |r + [n]| && forall h, k :: 0 <= h < k < |r| ==> r[h] < r[k]
      ensures (r + [n])[i] < (r + [n])[j]
    {
      assert r[i] in r;
    }
  }

  /** The list of sources is never empty, so the round robin never divides by zero. */
  lemma SomeoneIsUpToDate(ms: seq<Member>, groupRank: nat, initSync: bool)
    requires ms != []
    ensures UpToDate(ms, groupRank, initSync) != []
  {
    var top := AtStep(ms, MaxStep(ms));
    AtStepIsTop(ms, MaxStep(ms));
    var primary := Primary(ms, groupRank);
    assert primary in top;
    var i :| 0 <= i < |ms| && ms[i] == primary;
    var flags := Negated(RecoverFlags(ms, groupRank, initSync));
    assert flags[i];
    RanksWhereSelects(flags);
    assert i in RanksWhere(flags);
  }

  lemma {:induction false} SourceIsUpToDate(rec: seq<nat>, up: seq<nat>, g: nat, rank: nat)
    requires up != []
    ensures SourceOf(rec, up, g, rank).Some? <==> rank in rec
    ensures SourceOf(rec, up, g, rank).Some? ==> SourceOf(rec, up, g, rank).value in up
  {
    if rec != [] {
      var n := |rec| - 1;
      SourceIsUpToDate(rec[..n], up, g, rank);
      assert rec == rec[..n] + [rec[n]];
    }
  }

  /** A rank is among the receivers of exactly the rank it recovers from. */
  lemma {:induction false} ReceiversMatchSource(rec: seq<nat>, up: seq<nat>, g: nat, src: nat, dst: nat)
    requires up != []
    requires forall i, j :: 0 <= i < j < |rec| ==> rec[i] < rec[j]
    ensures dst in Receivers(rec, up, g, src) <==> SourceOf(rec, up, g, dst) == Some(src)
  {
    if rec != [] {
      var n := |rec| - 1;
      ReceiversMatchSource(rec[..n], up, g, src, dst);
      SourceIsUpToDate(rec[..n], up, g, dst);
    }
  }

  // ----- The imperative planner

  /** Deals the recovering ranks out to the up-to-date ones, round robin. */
  method AssignRecoveries(recovering: seq<nat>, upToDate: seq<nat>, groupRank: nat, replicaRank: nat)
    returns (assignments: map<nat, seq<nat>>, source: Option<nat>)
    requires upToDate != []
    ensures forall r: nat :: r in assignments <==> Receivers(recovering, upToDate, groupRank, r) != []
    ensures forall r: nat :: r in assignments ==> assignments[r] == Receivers(recovering, upToDate, groupRank, r)
    ensures source == SourceOf(recovering, upToDate, groupRank, replicaRank)
  {
    assignments := map[];
    source := None;
    var i := 0;
    while i < |recovering|
      invariant 0 <= i <= |recovering|
      invariant forall r: nat :: r in assignments <==> Receivers(recovering[..i], upToDate, groupRank, r) != []
      invariant forall r: nat :: r in assignments ==>
                  assignments[r] == Receivers(recovering[..i], upToDate, groupRank, r)
      invariant source == SourceOf(recovering[..i], upToDate, groupRank, replicaRank)
    {
      var src := upToDate[(i + groupRank) % |upToDate|];
      assert recovering[..i + 1][..i] == recovering[..i];
      if src !in assignments {
        assignments := assignments[src := []];
      }
      assignments := assignments[src := assignments[src] + [recovering[i]]];
      if recovering[i] == replicaRank {
        source := Some(src);
      }
      i := i + 1;
    }
    assert recovering[..i] == recovering;
  }

  method ComputeQuorumResults(replicaId: string, groupRank: nat, quorum: Quorum, initSync: bool)
    returns (outcome: Outcome)
    ensures outcome == Plan(replicaId, groupRank, quorum, initSync)
  {
    var participants := SortById(quorum.participants);
    var found := RankOf(participants, replicaId);
    if found.None? {
      return NotParticipating(replicaId);
    }
    var replicaRank := found.value;
    var maxStep := MaxStep(participants);
    var maxParticipants := AtStep(participants, maxStep);
    var primary := Primary(participants, groupRank);
    var recovering := Recovering(participants, groupRank, initSync);
    var upToDate := UpToDate(participants, groupRank, initSync);
    SomeoneIsUpToDate(participants, groupRank, initSync);

    var assignments, source := AssignRecoveries(recovering, upToDate, groupRank, replicaRank);
    SourceIsUpToDate(recovering, upToDate, groupRank, replicaRank);
    RanksWhereSelects(Negated(RecoverFlags(participants, groupRank, initSync)));
    outcome := Planned(Response(
      quorum.quorumId,
      if source.Some? then participants[source.value].address else "",
      source,
      if replicaRank in assignments then assignments[replicaRank] else [],
      primary.storeAddress,
      maxStep,
      RankOf(maxParticipants, replicaId),
      |maxParticipants|,
      replicaRank,
      |participants|,
      source.Some?,
      MaxFailures(participants),
      Ids(participants)));
  }

  // ----- How the separate answers fit together

  /** Everyone in the quorum gets a plan, at a rank that names it, with the same shared fields. */
  lemma PlansAgree(q: Quorum, g: nat, initSync: bool, a: Member, b: Member)
    requires UniqueIds(q.participants) && a in q.participants && b in q.participants
    ensures Plan(a.replicaId, g, q, initSync).Planned? && Plan(b.replicaId, g, q, initSync).Planned?
    ensures var x, y := Plan(a.replicaId, g, q, initSync).response, Plan(b.replicaId, g, q, initSync).response;
            && x.replicaIds == y.replicaIds && |x.replicaIds| == x.replicaWorldSize == |q.participants|
            && x.replicaRank < x.replicaWorldSize && x.replicaIds[x.replicaRank] == a.replicaId
            && (x.replicaRank == y.replicaRank <==> a == b)
            && x.quorumId == y.quorumId && x.storeAddress == y.storeAddress
            && x.maxStep == y.maxStep && x.maxWorldSize == y.maxWorldSize
            && x.commitFailures == y.commitFailures
  {
    RankOfMember(q.participants, a);
    RankOfMember(q.participants, b);
  }

  lemma RankOfMember(ms: seq<Member>, m: Member)
    requires UniqueIds(ms) && m in ms
    ensures var s := SortById(ms);
            RankOf(s, m.replicaId).Some? && s[RankOf(s, m.replicaId).value] == m && |s| == |ms|
  {
    var s := SortById(ms);
    SortByIdSorts(ms);
    SortByIdIsStrict(ms);
    assert m in multiset(s);
    var i :| 0 <= i < |s| && s[i] == m;
    assert HasId(s, m.replicaId);
  }

  /** `m` is at the top step, does not recover, and lends the quorum its store. */
  ghost predicate LendsStore(q: Quorum, g: nat, initSync: bool, x: Response, m: Member)
    requires q.participants != [] && SortById(q.participants) != []
  {
    && m in q.participants && m.step == x.maxStep && x.storeAddress == m.storeAddress
    && !MustRecover(SortById(q.participants), g, initSync, m)
  }

  /** The store everybody meets at belongs to a member that is up to date, and the failure count everybody is told is
      the largest any member reported. */
  lemma SharedFieldsComeFromMembers(q: Quorum, g: nat, initSync: bool, a: Member)
    requires UniqueIds(q.participants) && a in q.participants
    ensures SortById(q.participants) != [] && Plan(a.replicaId, g, q, initSync).Planned?
    ensures exists m :: LendsStore(q, g, initSync, Plan(a.replicaId, g, q, initSync).response, m)
    ensures var f := Plan(a.replicaId, g, q, initSync).response.commitFailures;
            && (exists m :: m in q.participants && m.commitFailures == f)
            && (forall m :: m in q.participants ==> m.commitFailures <= f)
  {
    var ms := SortById(q.participants);
    RankOfMember(q.participants, a);
    SortByIdSorts(q.participants);
    AtStepIsTop(ms, MaxStep(ms));
    var primary := Primary(ms, g);
    assert primary in AtStep(ms, MaxStep(ms));
    assert primary in multiset(ms) && primary in multiset(q.participants);
    assert LendsStore(q, g, initSync, Plan(a.replicaId, g, q, initSync).response, primary);
    var i :| 0 <= i < |ms| && ms[i].commitFailures == MaxFailures(ms);
    assert ms[i] in multiset(ms) && ms[i] in multiset(q.participants);
    forall m | m in q.participants
      ensures m.commitFailures <= MaxFailures(ms)
    {
      assert m in multiset(q.participants) && m in multiset(ms);
    }
  }

  ghost function TopBelow(q: Quorum, m: Member): set<Member>
    requires q.participants != []
  {
    set x | x in q.participants && x.step == MaxStep(q.participants) && Below(x.replicaId, m.replicaId)
  }

  ghost function AllTop(q: Quorum): set<Member>
    requires q.participants != []
  {
    set x | x in q.participants && x.step == MaxStep(q.participants)
  }

  /** The primary, at whose store everybody meets, is the member at the top step with as many such members before it in
      id order as the group rank says, counted round. */
  lemma PrimaryIsPickedByRank(q: Quorum, g: nat, initSync: bool, a: Member)
    requires UniqueIds(q.participants) && a in q.participants
    ensures SortById(q.participants) != [] && Plan(a.replicaId, g, q, initSync).Planned?
    ensures var p := Primary(SortById(q.participants), g);
            && p in q.participants && p.step == MaxStep(q.participants)
            && |AllTop(q)| > 0 && |TopBelow(q, p)| == g % |AllTop(q)|
            && Plan(a.replicaId, g, q, initSync).response.storeAddress == p.storeAddress
  {
    var ms := SortById(q.participants);
    RankOfMember(q.participants, a);
    TopInOrder(q);
    hide AtStep, MaxStep, AllTop, TopBelow;
    var top := AtStep(ms, MaxStep(ms));
    assert Primary(ms, g) == top[g % |top|];
    assert top[g % |top|] in top;
    TopBefore(q, top, g % |top|);
  }

  /** The members at the top step, in order. */
  lemma TopInOrder(q: Quorum)
    requires UniqueIds(q.participants) && q.participants != []
    ensures SortById(q.participants) != []
    ensures var ms := SortById(q.participants);
            var top := AtStep(ms, MaxStep(ms));
            && top != [] && StrictlySorted(top)
            && forall m :: m in top <==> m in q.participants && m.step == MaxStep(q.participants)
  {
    var ms := SortById(q.participants);
    SortByIdIsStrict(q.participants);
    SortByIdSorts(q.participants);
    MaxStepIgnoresOrder(q.participants, ms);
    AtStepIsTop(ms, MaxStep(ms));
    AtStepStaysSorted(ms, MaxStep(ms));
    forall m ensures m in ms <==> m in q.participants {
      assert m in multiset(ms) <==> m in multiset(q.participants);
    }
  }

  lemma TopBefore(q: Quorum, top: seq<Member>, i: nat)
    requires q.participants != [] && StrictlySorted(top) && i < |top|
    requires forall m :: m in top <==> m in q.participants && m.step == MaxStep(q.participants)
    ensures |AllTop(q)| == |top| && |TopBelow(q, top[i])| == i
  {
    StrictlySortedIsUnique(top);
    AmongCounts(top);
    assert AllTop(q) == Among(top);
    AmongCounts(top[..i]);
    BeforeInOrder(top, i);
    assert TopBelow(q, top[i]) == Among(top[..i]);
  }

  lemma {:induction false} SourceIsDealt(rec: seq<nat>, up: seq<nat>, g: nat, k: nat)
    requires up != [] && k < |rec| && forall i, j :: 0 <= i < j < |rec| ==> rec[i] < rec[j]
    ensures SourceOf(rec, up, g, rec[k]) == Some(up[(k + g) % |up|])
  {
    if k < |rec| - 1 {
      SourceIsDealt(rec[..|rec| - 1], up, g, k);
    }
  }

  /** The `k`-th member to recover does so from the up-to-date member that the round robin, begun at the group rank,
      comes to. */
  lemma RecoveryIsDealtFromTheGroupRank(q: Quorum, g: nat, initSync: bool, k: nat)
    requires UniqueIds(q.participants) && SortById(q.participants) != []
    requires k < |Recovering(SortById(q.participants), g, initSync)|
    ensures var ms := SortById(q.participants);
            var rec, up := Recovering(ms, g, initSync), UpToDate(ms, g, initSync);
            && rec[k] < |ms| && up != []
            && Plan(ms[rec[k]].replicaId, g, q, initSync).Planned?
            && Plan(ms[rec[k]].replicaId, g, q, initSync).response.recoverSrcReplicaRank == Some(up[(k + g) % |up|])
  {
    var ms := SortById(q.participants);
    var rec, up := Recovering(ms, g, initSync), UpToDate(ms, g, initSync);
    RanksWhereSelects(RecoverFlags(ms, g, initSync));
    assert rec[k] in rec;
    SomeoneIsUpToDate(ms, g, initSync);
    RankAt(q.participants, rec[k]);
    SourceIsDealt(rec, up, g, k);
  }

  /** The two ranks in a plan are positions among all members and among the members at the top step. */
  lemma RanksInPlan(q: Quorum, g: nat, initSync: bool, m: Member)
    requires UniqueIds(q.participants) && m in q.participants
    ensures Plan(m.replicaId, g, q, initSync).Planned?
    ensures var x := Plan(m.replicaId, g, q, initSync).response;
            var ms := SortById(q.participants);
            && ms != [] && x.replicaWorldSize == |ms| && Some(x.replicaRank) == RankOf(ms, m.replicaId)
            && x.maxReplicaRank == RankOf(AtStep(ms, MaxStep(ms)), m.replicaId)
            && x.maxWorldSize == |AtStep(ms, MaxStep(ms))|
  {
    RankOfMember(q.participants, m);
  }

  /** Senders and receivers match. */
  lemma PlansMatch(q: Quorum, g: nat, initSync: bool, a: Member, b: Member)
    requires UniqueIds(q.participants) && a in q.participants && b in q.participants
    ensures Plan(a.replicaId, g, q, initSync).Planned? && Plan(b.replicaId, g, q, initSync).Planned?
    ensures var x, y := Plan(a.replicaId, g, q, initSync).response, Plan(b.replicaId, g, q, initSync).response;
            y.replicaRank in x.recoverDstReplicaRanks <==> y.recoverSrcReplicaRank == Some(x.replicaRank)
  {
    var ms := SortById(q.participants);
    RankOfMember(q.participants, a);
    RankOfMember(q.participants, b);
    SomeoneIsUpToDate(ms, g, initSync);
    RanksWhereSelects(RecoverFlags(ms, g, initSync));
    ReceiversMatchSource(Recovering(ms, g, initSync), UpToDate(ms, g, initSync), g,
                         RankOf(ms, a.replicaId).value, RankOf(ms, b.replicaId).value);
  }

  /** `y` is the plan of the member that `x`'s member recovers from. */
  ghost predicate RecoversFrom(q: Quorum, g: nat, initSync: bool, x: Response, b: Member)
  {
    && b in q.participants && b.step == x.maxStep
    && Plan(b.replicaId, g, q, initSync).Planned?
    && var y := Plan(b.replicaId, g, q, initSync).response;
       && x.recoverSrcReplicaRank == Some(y.replicaRank)
       && x.recoverSrcManagerAddress == b.address
       && !y.heal && x.replicaRank in y.recoverDstReplicaRanks
  }

  /** A member that sends a checkpoint does not fetch one. */
  lemma ServersDoNotHeal(q: Quorum, g: nat, initSync: bool, a: Member)
    requires UniqueIds(q.participants) && a in q.participants
    ensures Plan(a.replicaId, g, q, initSync).Planned?
    ensures var x := Plan(a.replicaId, g, q, initSync).response; x.recoverDstReplicaRanks != [] ==> !x.heal
  {
    var ms := SortById(q.participants);
    RankOfMember(q.participants, a);
    var x := Plan(a.replicaId, g, q, initSync).response;
    if x.recoverDstReplicaRanks != [] {
      SomeoneIsUpToDate(ms, g, initSync);
      RanksWhereSelects(RecoverFlags(ms, g, initSync));
      var dst := x.recoverDstReplicaRanks[0];
      assert dst in x.recoverDstReplicaRanks;
      ReceiversMatchSource(Recovering(ms, g, initSync), UpToDate(ms, g, initSync), g, x.replicaRank, dst);
      SourceIsUpToDate(Recovering(ms, g, initSync), UpToDate(ms, g, initSync), g, dst);
      UpToDateHasNoSource(ms, g, initSync, x.replicaRank);
    }
  }

  /** Exactly the members that are behind heal, each from one member at the top step that does not heal. */
  lemma HealingHasASource(q: Quorum, g: nat, initSync: bool, a: Member)
    requires UniqueIds(q.participants) && a in q.participants
    ensures Plan(a.replicaId, g, q, initSync).Planned?
    ensures var x := Plan(a.replicaId, g, q, initSync).response;
            && x.maxStep == MaxStep(q.participants)
            && x.heal == x.recoverSrcReplicaRank.Some?
            && (x.heal <==> MustRecover(SortById(q.participants), g, initSync, a))
            && (x.heal <==> a.step != MaxStep(q.participants)
                            || (initSync && MaxStep(q.participants) == 0
                                && a.replicaId != Primary(SortById(q.participants), g).replicaId))
            && (x.heal ==> exists b :: RecoversFrom(q, g, initSync, x, b))
  {
    var ms := SortById(q.participants);
    RankOfMember(q.participants, a);
    MaxStepIgnoresOrder(q.participants, ms);
    var x := Plan(a.replicaId, g, q, initSync).response;
    UpToDateHasNoSource(ms, g, initSync, x.replicaRank);
    if x.heal {
      SourceIsServing(q, g, initSync, a);
    }
  }

  lemma SourceIsServing(q: Quorum, g: nat, initSync: bool, a: Member)
    requires UniqueIds(q.participants) && a in q.participants
    requires Plan(a.replicaId, g, q, initSync).Planned? && Plan(a.replicaId, g, q, initSync).response.heal
    ensures var x := Plan(a.replicaId, g, q, initSync).response;
            exists b :: RecoversFrom(q, g, initSync, x, b)
  {
    var ms := SortById(q.participants);
    SortByIdSorts(q.participants);
    var x := Plan(a.replicaId, g, q, initSync).response;
    var s := x.recoverSrcReplicaRank.value;
    SomeoneIsUpToDate(ms, g, initSync);
    SourceIsUpToDate(Recovering(ms, g, initSync), UpToDate(ms, g, initSync), g, x.replicaRank);
    RanksWhereSelects(Negated(RecoverFlags(ms, g, initSync)));
    UpToDateHasNoSource(ms, g, initSync, s);
    var b := ms[s];
    assert b in multiset(ms) && b in q.participants;
    RankAt(q.participants, s);
    PlansMatch(q, g, initSync, b, a);
    assert RecoversFrom(q, g, initSync, x, b);
  }

  lemma RankAt(ms: seq<Member>, i: nat)
    requires UniqueIds(ms) && i < |SortById(ms)|
    ensures RankOf(SortById(ms), SortById(ms)[i].replicaId) == Some(i)
  {
    SortByIdIsStrict(ms);
    assert HasId(SortById(ms), SortById(ms)[i].replicaId);
  }

  lemma MaxStepIgnoresOrder(a: seq<Member>, b: seq<Member>)
    requires a != [] && b == SortById(a)
    ensures b != [] && MaxStep(a) == MaxStep(b)
  {
    SortByIdSorts(a);
    var i :| 0 <= i < |a| && a[i].step == MaxStep(a);
    assert a[i] in multiset(b);
    var j :| 0 <= j < |b| && b[j].step == MaxStep(b);
    assert b[j] in multiset(a);
  }

  /** The plan only depends on who is in the quorum, not on the order of the member list. */
  lemma PlanIgnoresOrder(replicaId: string, g: nat, p: Quorum, q: Quorum, initSync: bool)
    requires UniqueIds(p.participants) && multiset(p.participants) == multiset(q.participants)
    requires p.quorumId == q.quorumId
    ensures Plan(replicaId, g, p, initSync) == Plan(replicaId, g, q, initSync)
  {
    SortIgnoresOrder(p.participants, q.participants);
  }

  // ----- Load

  lemma ReceiversCount(rec: seq<nat>, up: seq<nat>, g: nat, k: nat)
    requires k < |up| && forall i, j :: 0 <= i < j < |up| ==> up[i] < up[j]
    ensures |Receivers(rec, up, g, up[k])| == (|rec| + g + |up| - 1 - k) / |up| - (g + |up| - 1 - k) / |up|
  {
    var n := |up|;
    if rec != [] {
      var x := |rec| - 1 + g;
      ReceiversCount(rec[..|rec| - 1], up, g, k);
      StepOfQuotient(x, n, k);
      assert up[x % n] == up[k] <==> x % n == k;
    }
  }

  lemma StepOfQuotient(x: nat, n: nat, k: nat)
    requires k < n
    ensures (x + n - k) / n == (x + n - 1 - k) / n + (if x % n == k then 1 else 0)
  {
    var q, r := x / n, x % n;
    assert x == q * n + r;
    if r == k {
      DivideBy(x + n - k, n, q + 1, 0);
      DivideBy(x + n - 1 - k, n, q, n - 1);
    } else if r > k {
      DivideBy(x + n - k, n, q + 1, r - k);
      DivideBy(x + n - 1 - k, n, q + 1, r - k - 1);
    } else {
      DivideBy(x + n - k, n, q, n + r - k);
      DivideBy(x + n - 1 - k, n, q, n + r - k - 1);
    }
  }

  lemma SpreadIsEven(m: nat, n: nat, a: nat, b: nat)
    requires n > 0
    ensures -1 <= ((m + a) / n - a / n) - ((m + b) / n - b / n) <= 1
  {
    Spread(m, n, a);
    Spread(m, n, b);
  }

  lemma Spread(m: nat, n: nat, a: nat)
    requires n > 0
    ensures m / n <= (m + a) / n - a / n <= m / n + 1
  {
    var s := m % n + a % n;
    assert m + a == (m / n) * n + (a / n) * n + s;
    assert (m / n) * n + (a / n) * n == (m / n + a / n) * n;
    if s < n {
      DivideBy(m + a, n, m / n + a / n, s);
    } else {
      assert (m / n + a / n + 1) * n == (m / n + a / n) * n + n;
      DivideBy(m + a, n, m / n + a / n + 1, s - n);
    }
  }

  lemma RoundRobinIsEven(rec: seq<nat>, up: seq<nat>, g: nat, i: nat, j: nat)
    requires forall i, j :: 0 <= i < j < |up| ==> up[i] < up[j]
    requires i in up && j in up
    ensures -1 <= |Receivers(rec, up, g, i)| - |Receivers(rec, up, g, j)| <= 1
  {
    var k :| 0 <= k < |up| && up[k] == i;
    var l :| 0 <= l < |up| && up[l] == j;
    ReceiversCount(rec, up, g, k);
    ReceiversCount(rec, up, g, l);
    SpreadIsEven(|rec|, |up|, g + |up| - 1 - k, g + |up| - 1 - l);
  }

  /** A rank is up to date exactly when it has no source. */
  lemma UpToDateHasNoSource(ms: seq<Member>, g: nat, initSync: bool, rank: nat)
    requires rank < |ms|
    ensures UpToDate(ms, g, initSync) != []
    ensures rank in UpToDate(ms, g, initSync) <==> !MustRecover(ms, g, initSync, ms[rank])
    ensures SourceOf(Recovering(ms, g, initSync), UpToDate(ms, g, initSync), g, rank).Some?
            <==> MustRecover(ms, g, initSync, ms[rank])
  {
    SomeoneIsUpToDate(ms, g, initSync);
    RanksWhereSelects(RecoverFlags(ms, g, initSync));
    RanksWhereSelects(Negated(RecoverFlags(ms, g, initSync)));
    SourceIsUpToDate(Recovering(ms, g, initSync), UpToDate(ms, g, initSync), g, rank);
  }

  /** No up-to-date member serves more than one receiver more than another. */
  lemma LoadIsBalanced(q: Quorum, g: nat, initSync: bool, a: Member, b: Member)
    requires UniqueIds(q.participants) && a in q.participants && b in q.participants
    ensures Plan(a.replicaId, g, q, initSync).Planned? && Plan(b.replicaId, g, q, initSync).Planned?
    ensures var x, y := Plan(a.replicaId, g, q, initSync).response, Plan(b.replicaId, g, q, initSync).response;
            !x.heal && !y.heal ==> -1 <= |x.recoverDstReplicaRanks| - |y.recoverDstReplicaRanks| <= 1
  {
    var ms := SortById(q.participants);
    RankOfMember(q.participants, a);
    RankOfMember(q.participants, b);
    var i, j := RankOf(ms, a.replicaId).value, RankOf(ms, b.replicaId).value;
    UpToDateHasNoSource(ms, g, initSync, i);
    UpToDateHasNoSource(ms, g, initSync, j);
    RanksWhereSelects(Negated(RecoverFlags(ms, g, initSync)));
    var rec, up := Recovering(ms, g, initSync), UpToDate(ms, g, initSync);
    if i in up && j in up {
      RoundRobinIsEven(rec, up, g, i, j);
    }
  }

  /** How many checkpoints the members at the first `n` ranks send in all. */
  ghost function TotalLoad(ms: seq<Member>, g: nat, initSync: bool, n: nat): nat
    requires n <= |ms| && ms != []
  {
    if n == 0 then 0
    else TotalLoad(ms, g, initSync, n - 1) + |PlanAt(ms, n - 1, 0, g, initSync).recoverDstReplicaRanks|
  }

  ghost function ReceiverTotal(rec: seq<nat>, up: seq<nat>, g: nat, n: nat): nat
    requires up != []
  {
    if n == 0 then 0 else ReceiverTotal(rec, up, g, n - 1) + |Receivers(rec, up, g, n - 1)|
  }

  lemma {:induction false} ReceiverTotalStep(rec: seq<nat>, up: seq<nat>, g: nat, n: nat)
    requires up != [] && rec != []
    ensures ReceiverTotal(rec, up, g, n) == ReceiverTotal(rec[..|rec| - 1], up, g, n)
            + (if up[(|rec| - 1 + g) % |up|] < n then 1 else 0)
  {
    if n > 0 {
      ReceiverTotalStep(rec, up, g, n - 1);
    }
  }

  lemma {:induction false} ReceiverTotalIsAll(rec: seq<nat>, up: seq<nat>, g: nat, n: nat)
    requires up != [] && forall k :: 0 <= k < |up| ==> up[k] < n
    ensures ReceiverTotal(rec, up, g, n) == |rec|
  {
    if rec == [] {
      NothingToReceive(up, g, n);
    } else {
      ReceiverTotalIsAll(rec[..|rec| - 1], up, g, n);
      ReceiverTotalStep(rec, up, g, n);
    }
  }

  lemma {:induction false} NothingToReceive(up: seq<nat>, g: nat, n: nat)
    requires up != []
    ensures ReceiverTotal([], up, g, n) == 0
  {
    if n > 0 { NothingToReceive(up, g, n - 1); }
  }

  lemma {:induction false} TotalLoadIsReceiverTotal(ms: seq<Member>, g: nat, initSync: bool, n: nat)
    requires n <= |ms| && ms != [] && UpToDate(ms, g, initSync) != []
    ensures TotalLoad(ms, g, initSync, n)
            == ReceiverTotal(Recovering(ms, g, initSync), UpToDate(ms, g, initSync), g, n)
  {
    hide Receivers, PlanAt, UpToDate, Recovering;
    if n > 0 {
      TotalLoadIsReceiverTotal(ms, g, initSync, n - 1);
      LoadIsReceivers(ms, g, initSync, n - 1);
    }
  }

  lemma LoadIsReceivers(ms: seq<Member>, g: nat, initSync: bool, n: nat)
    requires n < |ms| && UpToDate(ms, g, initSync) != []
    ensures PlanAt(ms, n, 0, g, initSync).recoverDstReplicaRanks
            == Receivers(Recovering(ms, g, initSync), UpToDate(ms, g, initSync), g, n)
  {
  }

  /** Together the members send exactly one checkpoint to every member that recovers. */
  lemma LoadsAddUp(q: Quorum, g: nat, initSync: bool)
    requires q.participants != []
    ensures SortById(q.participants) != []
    ensures var ms := SortById(q.participants);
            TotalLoad(ms, g, initSync, |ms|) == |set i | 0 <= i < |ms| && MustRecover(ms, g, initSync, ms[i])|
  {
    var ms := SortById(q.participants);
    SortByIdSorts(q.participants);
    var rec, up := Recovering(ms, g, initSync), UpToDate(ms, g, initSync);
    SomeoneIsUpToDate(ms, g, initSync);
    RanksWhereSelects(RecoverFlags(ms, g, initSync));
    RanksWhereSelects(Negated(RecoverFlags(ms, g, initSync)));
    TotalLoadIsReceiverTotal(ms, g, initSync, |ms|);
    forall k | 0 <= k < |up| ensures up[k] < |ms| { assert up[k] in up; }
    ReceiverTotalIsAll(rec, up, g, |ms|);
    var all := set i | 0 <= i < |ms| && MustRecover(ms, g, initSync, ms[i]);
    assert forall i :: i in all <==> i in rec;
    DistinctCount(rec, all);
  }

  lemma {:induction false} DistinctCount(s: seq<nat>, all: set<nat>)
    requires forall i, j :: 0 <= i < j < |s| ==> s[i] < s[j]
    requires forall i :: i in all <==> i in s
    ensures |all| == |s|
  {
    if s != [] {
      var n := |s| - 1;
      assert s == s[..n] + [s[n]];
      DistinctCount(s[..n], all - {s[n]});
    } else {
      assert all == {};
    }
  }
}
