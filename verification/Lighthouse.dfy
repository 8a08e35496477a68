/** The Lighthouse: who is in the next quorum, and when its id moves. */
module Lighthouse {
  import opened Protocol
  import opened ReplicaOrder

  datatype Details = Details(joined: int, member: Member)

  datatype Options = Options(minReplicas: nat, joinTimeout: nat, heartbeatTimeout: nat)

  datatype State = State(
    participants: map<string, Details>,
    prevQuorum: Option<Quorum>,
    quorumId: int,
    heartbeats: map<string, int>)

  const Initial: State := State(map[], None, 0, map[])

  /** A monotonic clock never reports a negative duration. */
  function Elapsed(now: int, since: int): nat {
    if now < since then 0 else now - since
  }

  function Healthy(s: State, now: int, opt: Options): set<string> {
    set id | id in s.heartbeats && Elapsed(now, s.heartbeats[id]) < opt.heartbeatTimeout
  }

  function HealthyParticipants(s: State, now: int, opt: Options): set<string> {
    set id | id in s.participants && id in Healthy(s, now, opt)
  }

  /** Every record is stored under its own replica id. */
  ghost predicate KeysMatch(participants: map<string, Details>) {
    forall id :: id in participants ==> participants[id].member.replicaId == id
  }

  lemma {:induction false} LeastExists(ids: set<string>)
    requires ids != {}
    ensures exists m :: IsLeast(m, ids)
    decreases |ids|
  {
    var a :| a in ids;
    var others := ids - {a};
    if others == {} {
      assert forall x :: x in ids && x != a ==> x in others;
      assert IsLeast(a, ids);
    } else {
      LeastExists(others);
      var m :| IsLeast(m, others);
      BelowIsTotal(a, m);
      if Below(a, m) {
        forall x | x in ids && x != a ensures Below(a, x) {
          if x != m { BelowIsTransitive(a, m, x); }
        }
        assert IsLeast(a, ids);
      } else {
        assert IsLeast(m, ids);
      }
    }
  }

  predicate IsLeast(m: string, ids: set<string>) {
    m in ids && forall x :: x in ids && x != m ==> Below(m, x)
  }

  lemma LeastIsUnique(ids: set<string>)
    ensures forall m, n :: IsLeast(m, ids) && IsLeast(n, ids) ==> m == n
  {
    forall m, n | IsLeast(m, ids) && IsLeast(n, ids) ensures m == n {
      BelowIsTotal(m, n);
    }
  }

  /** The members registered under `ids`, sorted by replica id. */
  function SortedMembers(ps: map<string, Details>, ids: set<string>): (ms: seq<Member>)
    requires ids <= ps.Keys
    decreases |ids|
  {
    if ids == {} then []
    else
      LeastExists(ids);
      LeastIsUnique(ids);
      var m :| IsLeast(m, ids);
      [ps[m].member] + SortedMembers(ps, ids - {m})
  }

  function KnownBefore(ms: seq<Member>, ids: set<string>): seq<Member>
  {
    if ms == [] then []
    else (if ms[0].replicaId in ids then [ms[0]] else []) + KnownBefore(ms[1..], ids)
  }

  function IdSet(ms: seq<Member>): set<string> {
    set i | 0 <= i < |ms| :: ms[i].replicaId
  }

  predicate QuorumChanged(a: seq<Member>, b: seq<Member>) {
    Ids(a) != Ids(b)
  }

  predicate Shrinks(s: State, joined: set<string>)
    requires joined <= s.participants.Keys
  {
    s.prevQuorum.Some? && exists id :: id in joined && s.participants[id].member.shrinkOnly
  }

  function Candidates(s: State, joined: set<string>): seq<Member>
    requires joined <= s.participants.Keys
  {
    var sorted := SortedMembers(s.participants, joined);
    if Shrinks(s, joined) then KnownBefore(sorted, IdSet(s.prevQuorum.value.participants)) else sorted
  }

  datatype Verdict = Fast | TooFew | NoMajority | WaitingForStragglers | Valid

  /** Which quorum can be formed now, if any. */
  function QuorumCompute(now: int, s: State, opt: Options): (Option<seq<Member>>, Verdict)
  {
    var healthy := Healthy(s, now, opt);
    var joined := HealthyParticipants(s, now, opt);
    var candidates := Candidates(s, joined);
    if s.prevQuorum.Some? && IdSet(s.prevQuorum.value.participants) <= joined then
      (Some(candidates), Fast)
    else if |joined| < opt.minReplicas then
      (None, TooFew)
    else if |joined| <= |healthy| / 2 then
      (None, NoMajority)
    // the time since the first joiner is the longest of all waiting times
    else if |joined| != |healthy|
         && forall id :: id in joined ==> Elapsed(now, s.participants[id].joined) < opt.joinTimeout then
      (None, WaitingForStragglers)
    else
      (Some(candidates), Valid)
  }

  predicate SomeCommitFailed(ms: seq<Member>) {
    exists i :: 0 <= i < |ms| && ms[i].commitFailures > 0
  }

  function NextQuorumId(s: State, ms: seq<Member>): int {
    if s.prevQuorum.None? || QuorumChanged(ms, s.prevQuorum.value.participants) then s.quorumId + 1
    else if SomeCommitFailed(ms) then s.quorumId + 1
    else s.quorumId
  }

  /** One quorum tick: the new state and the quorum that was broadcast, if any. */
  function Tick(s: State, now: int, opt: Options): (State, Option<Quorum>)
  {
    var met := QuorumCompute(now, s, opt).0;
    if met.None? then (s, None)
    else
      var q := Quorum(NextQuorumId(s, met.value), met.value);
      (s.(participants := map[], prevQuorum := Some(q), quorumId := q.quorumId), Some(q))
  }

  function Beat(s: State, id: string, now: int): State {
    s.(heartbeats := s.heartbeats[id := now])
  }

  function Register(s: State, m: Member, now: int): State {
    s.(participants := s.participants[m.replicaId := Details(now, m)])
  }

  function Request(s: State, m: Member, now: int, opt: Options): (State, Option<Quorum>) {
    Tick(Register(Beat(s, m.replicaId, now), m, now), now, opt)
  }

  /** The server object; `log` holds every broadcast, and a subscriber is a position in it. */
  class Server {
    const opt: Options
    var participants: map<string, Details>
    var prevQuorum: Option<Quorum>
    var quorumId: int
    var heartbeats: map<string, int>
    var log: seq<Quorum>

    function Abs(): State
      reads this
    {
      State(participants, prevQuorum, quorumId, heartbeats)
    }

    constructor (opt: Options)
      ensures this.opt == opt && Abs() == Initial && log == []
    {
      this.opt := opt;
      participants, prevQuorum, quorumId, heartbeats, log := map[], None, 0, map[], [];
    }

    method QuorumTick(now: int)
      modifies this
      ensures Abs() == Tick(old(Abs()), now, opt).0
      ensures var q := Tick(old(Abs()), now, opt).1;
              log == if q.Some? then old(log) + [q.value] else old(log)
      ensures heartbeats == old(heartbeats)
      ensures log == old(log) ==>
                participants == old(participants) && prevQuorum == old(prevQuorum) && quorumId == old(quorumId)
      ensures log != old(log) ==>
                participants == map[] && prevQuorum == Some(log[|log| - 1]) && quorumId == log[|log| - 1].quorumId
    {
      var (met, verdict) := QuorumCompute(now, Abs(), opt);
      if met.Some? {
        var members := met.value;
        if prevQuorum.None? || QuorumChanged(members, prevQuorum.value.participants) {
          quorumId := quorumId + 1;
        } else if SomeCommitFailed(members) {
          quorumId := quorumId + 1;
        }
        var quorum := Quorum(quorumId, members);
        prevQuorum := Some(quorum);
        participants := map[];
        log := log + [quorum];
      }
    }

    method Heartbeat(id: string, now: int)
      modifies this
      ensures Abs() == Beat(old(Abs()), id, now) && log == old(log)
      ensures heartbeats == old(heartbeats)[id := now] && participants == old(participants)
    {
      heartbeats := heartbeats[id := now];
    }

    /** Registers the requester, subscribes it, and ticks at once. */
    method RequestQuorum(requester: Member, now: int) returns (subscription: nat)
      modifies this
      ensures subscription == |old(log)|
      ensures Abs() == Request(old(Abs()), requester, now, opt).0
      ensures var q := Request(old(Abs()), requester, now, opt).1;
              log == if q.Some? then old(log) + [q.value] else old(log)
      ensures heartbeats == old(heartbeats)[requester.replicaId := now]
      ensures log == old(log) ==>
                participants == old(participants)[requester.replicaId := Details(now, requester)]
    {
      heartbeats := heartbeats[requester.replicaId := now];
      participants := participants[requester.replicaId := Details(now, requester)];
      subscription := |log|;
      QuorumTick(now);
    }

    /** Handles one message of a subscription: a quorum without the requester makes it register again. */
    method Receive(subscription: nat, requester: Member, now: int) returns (quorum: Option<Quorum>)
      requires subscription < |log|
      modifies this
      ensures log == old(log)
      ensures quorum.Some? <==> requester.replicaId in IdSet(log[subscription].participants)
      ensures quorum.Some? ==> quorum.value == log[subscription] && Abs() == old(Abs())
      ensures quorum.None? ==> Abs() == Register(old(Abs()), requester, now)
      ensures quorum.None? ==>
                && participants == old(participants)[requester.replicaId := Details(now, requester)]
                && heartbeats == old(heartbeats)
    {
      var current := log[subscription];
      if requester.replicaId in IdSet(current.participants) {
        return Some(current);
      }
      participants := participants[requester.replicaId := Details(now, requester)];
      quorum := None;
    }

    /** Handles what has been broadcast since, up to the first quorum with the requester. The request goes on waiting
        from `next` if there was none. */
    method Await(subscription: nat, requester: Member, now: int) returns (quorum: Option<Quorum>, next: nat)
      requires subscription <= |log|
      modifies this
      ensures log == old(log) && subscription <= next <= |log|
      ensures quorum.Some? ==>
                FirstWith(log, subscription, requester.replicaId, next - 1) && quorum.value == log[next - 1]
      ensures quorum.None? ==> next == |log| && NoneWith(log, subscription, next, requester.replicaId)
      ensures Abs() == if subscription < (if quorum.Some? then next - 1 else next)
                       then Register(old(Abs()), requester, now)
                       else old(Abs())
    {
      next, quorum := subscription, None;
      while next < |log|
        invariant log == old(log) && subscription <= next <= |log| && quorum.None?
        invariant NoneWith(log, subscription, next, requester.replicaId)
        invariant Abs() == if subscription < next then Register(old(Abs()), requester, now) else old(Abs())
        decreases |log| - next
      {
        quorum := Receive(next, requester, now);
        next := next + 1;
        if quorum.Some? {
          return;
        }
      }
    }
  }

  ghost predicate NoneWith(log: seq<Quorum>, from: nat, to: nat, id: string)
    requires to <= |log|
  {
    forall k :: from <= k < to ==> id !in IdSet(log[k].participants)
  }

  /** The first quorum of the log, from a position on, that contains `id`. */
  ghost predicate FirstWith(log: seq<Quorum>, from: nat, id: string, k: int) {
    from <= k < |log| && id in IdSet(log[k].participants) && NoneWith(log, from, k, id)
  }

  // ----- What one computed quorum is

  lemma IdSetOfCons(m: Member, rest: seq<Member>)
    ensures IdSet([m] + rest) == {m.replicaId} + IdSet(rest)
  {
    var ms := [m] + rest;
    forall x ensures x in IdSet(ms) <==> x in {m.replicaId} + IdSet(rest) {
      if x in IdSet(rest) {
        var i :| 0 <= i < |rest| && rest[i].replicaId == x;
        assert ms[i + 1].replicaId == x;
      }
      assert ms[0] == m;
    }
  }

  /** `ms` are the members registered under `ids`, in order. */
  ghost predicate Selected(ps: map<string, Details>, ids: set<string>, ms: seq<Member>)
    requires ids <= ps.Keys
  {
    && StrictlySorted(ms) && |ms| == |ids| && IdSet(ms) == ids
    && forall i :: 0 <= i < |ms| ==> ms[i].replicaId in ids && ms[i] == ps[ms[i].replicaId].member
  }

  lemma NoneSelected(ps: map<string, Details>)
    ensures Selected(ps, {}, [])
  {
  }

  lemma LeastComesFirst(ps: map<string, Details>, ids: set<string>, m: string, rest: seq<Member>)
    requires ids <= ps.Keys && KeysMatch(ps) && IsLeast(m, ids) && Selected(ps, ids - {m}, rest)
    ensures Selected(ps, ids, [ps[m].member] + rest)
  {
    hide Below;
    var ms := [ps[m].member] + rest;
    IdSetOfCons(ps[m].member, rest);
    assert IdSet(ms) == ids;
    assert forall i :: 0 <= i < |rest| ==> Below(m, rest[i].replicaId);
  }

  lemma {:induction false} SortedMembersAreThose(ps: map<string, Details>, ids: set<string>)
    requires ids <= ps.Keys && KeysMatch(ps)
    ensures Selected(ps, ids, SortedMembers(ps, ids))
    decreases |ids|
  {
    hide Selected, KeysMatch;
    if ids == {} {
      NoneSelected(ps);
    } else {
      LeastExists(ids);
      LeastIsUnique(ids);
      var m :| IsLeast(m, ids);
      SortedMembersAreThose(ps, ids - {m});
      LeastComesFirst(ps, ids, m, SortedMembers(ps, ids - {m}));
      assert SortedMembers(ps, ids) == [ps[m].member] + SortedMembers(ps, ids - {m});
    }
  }

  lemma {:induction false} KnownBeforeSelects(ms: seq<Member>, ids: set<string>)
    requires StrictlySorted(ms)
    ensures var r := KnownBefore(ms, ids);
            && StrictlySorted(r)
            && (forall m :: m in r <==> m in ms && m.replicaId in ids)
  {
    if ms != [] {
      KnownBeforeSelects(ms[1..], ids);
      var rest := KnownBefore(ms[1..], ids);
      assert ms == [ms[0]] + ms[1..];
      forall j | 0 <= j < |rest| ensures Below(ms[0].replicaId, rest[j].replicaId) {
        assert rest[j] in ms[1..];
      }
    }
  }

  /** A computed quorum lists, in id order, current records of healthy participants:
      all of them, or with a shrink-only request those that the previous quorum had too. */
  lemma ComputedQuorum(now: int, s: State, opt: Options)
    requires KeysMatch(s.participants) && QuorumCompute(now, s, opt).0.Some?
    ensures var ms := QuorumCompute(now, s, opt).0.value;
            var joined := HealthyParticipants(s, now, opt);
            && StrictlySorted(ms)
            && (forall i :: 0 <= i < |ms| ==>
                  ms[i].replicaId in joined && ms[i] == s.participants[ms[i].replicaId].member)
            && IdSet(ms) == if Shrinks(s, joined) then joined * IdSet(s.prevQuorum.value.participants) else joined
  {
    var joined := HealthyParticipants(s, now, opt);
    assert QuorumCompute(now, s, opt).0.value == Candidates(s, joined);
    CandidatesAreThose(s, joined);
  }

  lemma CandidatesAreThose(s: State, joined: set<string>)
    requires KeysMatch(s.participants) && joined <= s.participants.Keys
    ensures var ms := Candidates(s, joined);
            && StrictlySorted(ms)
            && (forall i :: 0 <= i < |ms| ==>
                  ms[i].replicaId in joined && ms[i] == s.participants[ms[i].replicaId].member)
            && IdSet(ms) == if Shrinks(s, joined) then joined * IdSet(s.prevQuorum.value.participants) else joined
  {
    SortedMembersAreThose(s.participants, joined);
    if Shrinks(s, joined) {
      var sorted := SortedMembers(s.participants, joined);
      var prev := IdSet(s.prevQuorum.value.participants);
      var ms := KnownBefore(sorted, prev);
      KnownBeforeSelects(sorted, prev);
      ShrunkIds(sorted, prev);
      forall i | 0 <= i < |ms| ensures ms[i].replicaId in joined && ms[i] == s.participants[ms[i].replicaId].member {
        assert ms[i] in ms;
      }
    }
  }

  lemma ShrunkIds(sorted: seq<Member>, prev: set<string>)
    requires StrictlySorted(sorted)
    ensures IdSet(KnownBefore(sorted, prev)) == IdSet(sorted) * prev
  {
    KnownBeforeSelects(sorted, prev);
    var r := KnownBefore(sorted, prev);
    forall x ensures x in IdSet(r) <==> x in IdSet(sorted) * prev {
      if x in IdSet(r) {
        var i :| 0 <= i < |r| && r[i].replicaId == x;
        assert r[i] in r;
      }
      if x in IdSet(sorted) * prev {
        var i :| 0 <= i < |sorted| && sorted[i].replicaId == x;
        assert sorted[i] in r;
      }
    }
  }

  /** A first joiner holds everyone up for at most the join timeout: a quorum that only waits for stragglers is issued
      once that long has passed since anyone joined, if the same replicas are healthy then. */
  lemma WaitingIsBounded(now: int, later: int, s: State, opt: Options)
    requires QuorumCompute(now, s, opt).1.WaitingForStragglers?
    requires Healthy(s, later, opt) == Healthy(s, now, opt)
    requires exists id :: id in HealthyParticipants(s, now, opt) && later >= s.participants[id].joined + opt.joinTimeout
    ensures QuorumCompute(now, s, opt).0.None? && Tick(s, later, opt).1.Some?
  {
    var id :| id in HealthyParticipants(s, now, opt) && later >= s.participants[id].joined + opt.joinTimeout;
    assert HealthyParticipants(s, later, opt) == HealthyParticipants(s, now, opt);
  }

  /** With every healthy replica joined nobody is waited for: a quorum is issued exactly if there are enough, or the
      previous members are all back. */
  lemma NobodyIsAwaited(now: int, s: State, opt: Options)
    requires Healthy(s, now, opt) <= s.participants.Keys && Healthy(s, now, opt) != {}
    ensures Tick(s, now, opt).1.Some?
            <==> (|Healthy(s, now, opt)| >= opt.minReplicas
                  || (s.prevQuorum.Some? && IdSet(s.prevQuorum.value.participants) <= Healthy(s, now, opt)))
  {
    assert HealthyParticipants(s, now, opt) == Healthy(s, now, opt);
    assert |Healthy(s, now, opt)| > 0;
  }

  // ----- Runs

  datatype Event =
    | HeartbeatArrives(id: string, now: int)
    | QuorumRequested(member: Member, now: int)
    | Ticks(now: int)
    | RegistersAgain(member: Member, now: int)

  /** A broadcast, with the replicas that were healthy when it was made. */
  datatype Issue = Issue(quorum: Quorum, healthy: set<string>)

  datatype Run = Run(state: State, issues: seq<Issue>)

  function Before(s: State, e: Event): State {
    match e
    case HeartbeatArrives(_, _) => s
    case QuorumRequested(m, now) => Register(Beat(s, m.replicaId, now), m, now)
    case Ticks(_) => s
    case RegistersAgain(_, _) => s
  }

  function Step(r: Run, e: Event, opt: Options): Run {
    match e
    case HeartbeatArrives(id, now) => r.(state := Beat(r.state, id, now))
    case RegistersAgain(m, now) => r.(state := Register(r.state, m, now))
    case QuorumRequested(_, _) => AfterTick(r, Before(r.state, e), e.now, opt)
    case Ticks(_) => AfterTick(r, Before(r.state, e), e.now, opt)
  }

  function AfterTick(r: Run, s: State, now: int, opt: Options): Run {
    var (next, q) := Tick(s, now, opt);
    Run(next, if q.Some? then r.issues + [Issue(q.value, Healthy(s, now, opt))] else r.issues)
  }

  function Execute(events: seq<Event>, opt: Options): Run {
    if events == [] then Run(Initial, [])
    else Step(Execute(events[..|events| - 1], opt), events[|events| - 1], opt)
  }

  ghost predicate NextInLine(a: Quorum, b: Quorum) {
    && (b.quorumId == a.quorumId || b.quorumId == a.quorumId + 1)
    && (b.quorumId == a.quorumId <==> Ids(a.participants) == Ids(b.participants) && !SomeCommitFailed(b.participants))
  }

  /** What every step of the Lighthouse keeps. */
  ghost predicate Consistent(r: Run) {
    && KeysMatch(r.state.participants)
    && (r.issues == [] ==> r.state.prevQuorum.None? && r.state.quorumId == 0)
    && (r.issues != [] ==>
          && r.state.prevQuorum == Some(r.issues[|r.issues| - 1].quorum)
          && r.state.quorumId == r.issues[|r.issues| - 1].quorum.quorumId
          && r.issues[0].quorum.quorumId == 1)
    && (forall i :: 0 <= i < |r.issues| ==> StrictlySorted(r.issues[i].quorum.participants))
    && (forall i :: 0 < i < |r.issues| ==> NextInLine(r.issues[i - 1].quorum, r.issues[i].quorum))
  }

  lemma StepKeepsConsistency(r: Run, e: Event, opt: Options)
    requires Consistent(r)
    ensures Consistent(Step(r, e, opt))
  {
    if e.QuorumRequested? || e.Ticks? {
      var s := Before(r.state, e);
      assert KeysMatch(s.participants);
      TickKeepsConsistency(r, s, e.now, opt);
    }
  }

  lemma TickKeepsConsistency(r: Run, s: State, now: int, opt: Options)
    requires Consistent(r) && KeysMatch(s.participants)
    requires s.prevQuorum == r.state.prevQuorum && s.quorumId == r.state.quorumId
    ensures Consistent(AfterTick(r, s, now, opt))
  {
    var (next, q) := Tick(s, now, opt);
    if q.Some? {
      ComputedQuorum(now, s, opt);
      var n := |r.issues|;
      assert n > 0 ==> NextInLine(r.issues[n - 1].quorum, q.value);
    }
  }

  lemma {:induction false} RunsAreConsistent(events: seq<Event>, opt: Options)
    ensures Consistent(Execute(events, opt))
  {
    if events != [] {
      RunsAreConsistent(events[..|events| - 1], opt);
      StepKeepsConsistency(Execute(events[..|events| - 1], opt), events[|events| - 1], opt);
    }
  }

  /** Over any run the ids start at 1, never fall, rise by at most one per quorum,
      and equal ids mean equal ordered member lists. */
  lemma QuorumIdsOverARun(events: seq<Event>, opt: Options, i: nat, j: nat)
    requires i <= j < |Execute(events, opt).issues|
    ensures var p, q := Execute(events, opt).issues[i].quorum, Execute(events, opt).issues[j].quorum;
            && 1 <= p.quorumId <= q.quorumId <= p.quorumId + (j - i)
            && (p.quorumId == q.quorumId ==> Ids(p.participants) == Ids(q.participants))
  {
    RunsAreConsistent(events, opt);
    IdsFrom(Execute(events, opt), 0, i);
    IdsFrom(Execute(events, opt), i, j);
  }

  /** From one quorum of a run to the next the id stays exactly if the same replicas are in it in the same order and no
      member of it reports a failed commit; otherwise it rises by one. */
  lemma QuorumIdMovesExactly(events: seq<Event>, opt: Options, k: nat)
    requires 0 < k < |Execute(events, opt).issues|
    ensures var p, q := Execute(events, opt).issues[k - 1].quorum, Execute(events, opt).issues[k].quorum;
            var same := && |p.participants| == |q.participants|
                        && forall i :: 0 <= i < |q.participants| ==>
                             && p.participants[i].replicaId == q.participants[i].replicaId
                             && q.participants[i].commitFailures <= 0;
            q.quorumId == if same then p.quorumId else p.quorumId + 1
  {
    RunsAreConsistent(events, opt);
    hide Execute;
    var p, q := Execute(events, opt).issues[k - 1].quorum, Execute(events, opt).issues[k].quorum;
    assert NextInLine(p, q);
    SameIds(p.participants, q.participants);
  }

  lemma SameIds(a: seq<Member>, b: seq<Member>)
    ensures Ids(a) == Ids(b) <==>
              |a| == |b| && forall i :: 0 <= i < |b| ==> a[i].replicaId == b[i].replicaId
  {
    if Ids(a) == Ids(b) {
      assert |Ids(a)| == |a| && |Ids(b)| == |b|;
      forall i | 0 <= i < |b| ensures a[i].replicaId == b[i].replicaId {
        assert Ids(a)[i] == Ids(b)[i];
      }
    }
  }

  /** When replica `id` last beat or asked. */
  function LastBeat(events: seq<Event>, id: string): Option<int> {
    if events == [] then None else
      match events[|events| - 1]
      case HeartbeatArrives(x, now) => if x == id then Some(now) else LastBeat(events[..|events| - 1], id)
      case QuorumRequested(m, now) => if m.replicaId == id then Some(now) else LastBeat(events[..|events| - 1], id)
      case _ => LastBeat(events[..|events| - 1], id)
  }

  /** In every run a replica is healthy exactly if it beat or asked less than the heartbeat timeout ago. */
  lemma {:induction false} HealthyExactly(events: seq<Event>, opt: Options, now: int, id: string)
    requires opt.heartbeatTimeout > 0
    ensures id in Healthy(Execute(events, opt).state, now, opt) <==>
              LastBeat(events, id).Some? && now - LastBeat(events, id).value < opt.heartbeatTimeout
    ensures id in Execute(events, opt).state.heartbeats <==> LastBeat(events, id).Some?
    ensures LastBeat(events, id).Some? ==> Execute(events, opt).state.heartbeats[id] == LastBeat(events, id).value
  {
    if events != [] {
      HealthyExactly(events[..|events| - 1], opt, now, id);
    }
  }

  /** A healthy replica that waits, with when it last registered. */
  ghost predicate WaitsSince(s: State, now: int, opt: Options, id: string, since: int) {
    && id in s.participants && s.participants[id].joined == since
    && id in s.heartbeats && Elapsed(now, s.heartbeats[id]) < opt.heartbeatTimeout
  }

  /** Exactly when a quorum is issued: all of the previous quorum are back; or at least the minimum and more than half
      of the healthy replicas wait, and either every healthy one does or somebody has waited out the join timeout. */
  lemma IssuedExactlyWhen(now: int, s: State, opt: Options)
    ensures var waiting := set id | id in s.participants && WaitsSince(s, now, opt, id, s.participants[id].joined);
            var healthy := set id | id in s.heartbeats && Elapsed(now, s.heartbeats[id]) < opt.heartbeatTimeout;
            Tick(s, now, opt).1.Some? <==>
              || (s.prevQuorum.Some?
                  && forall i :: 0 <= i < |s.prevQuorum.value.participants| ==>
                       s.prevQuorum.value.participants[i].replicaId in waiting)
              || (&& |waiting| >= opt.minReplicas && 2 * |waiting| > |healthy|
                  && (waiting == healthy
                      || exists id, since ::
                           WaitsSince(s, now, opt, id, since) && Elapsed(now, since) >= opt.joinTimeout))
  {
    var waiting := set id | id in s.participants && WaitsSince(s, now, opt, id, s.participants[id].joined);
    assert waiting == HealthyParticipants(s, now, opt);
    SubsetIsAll(waiting, Healthy(s, now, opt));
    if s.prevQuorum.Some? { SubsetOfIds(s, waiting); }
    forall id | id in waiting ensures WaitsSince(s, now, opt, id, s.participants[id].joined) {}
  }

  lemma SubsetIsAll(a: set<string>, b: set<string>)
    ensures a <= b ==> (|a| == |b| <==> a == b)
  {
    if a <= b {
      assert b == a + (b - a);
    }
  }

  lemma SubsetOfIds(s: State, waiting: set<string>)
    requires s.prevQuorum.Some?
    ensures IdSet(s.prevQuorum.value.participants) <= waiting <==>
              forall i :: 0 <= i < |s.prevQuorum.value.participants| ==>
                s.prevQuorum.value.participants[i].replicaId in waiting
  {
  }

  lemma {:induction false} IdsFrom(r: Run, i: nat, j: nat)
    requires Consistent(r) && i <= j < |r.issues|
    ensures var p, q := r.issues[i].quorum, r.issues[j].quorum;
            && p.quorumId <= q.quorumId <= p.quorumId + (j - i)
            && (p.quorumId == q.quorumId ==> Ids(p.participants) == Ids(q.participants))
    decreases j - i
  {
    if i < j {
      IdsFrom(r, i, j - 1);
      assert NextInLine(r.issues[j - 1].quorum, r.issues[j].quorum);
    }
  }

  /** A quorum with a member whose last commit failed gets an id above every earlier one. */
  lemma FailedCommitMovesTheId(events: seq<Event>, opt: Options, i: nat, j: nat)
    requires i < j < |Execute(events, opt).issues|
    requires SomeCommitFailed(Execute(events, opt).issues[j].quorum.participants)
    ensures Execute(events, opt).issues[i].quorum.quorumId < Execute(events, opt).issues[j].quorum.quorumId
  {
    RunsAreConsistent(events, opt);
    var r := Execute(events, opt);
    assert NextInLine(r.issues[j - 1].quorum, r.issues[j].quorum);
    IdsFrom(r, i, j - 1);
  }

  // ----- Quorum strength

  ghost predicate NoShrinkOnly(events: seq<Event>) {
    forall e :: e in events && (e.QuorumRequested? || e.RegistersAgain?) ==> !e.member.shrinkOnly
  }

  ghost predicate HealthNeverGrows(issues: seq<Issue>) {
    forall i :: 0 < i < |issues| ==> issues[i].healthy <= issues[i - 1].healthy
  }

  ghost predicate Strong(issue: Issue, opt: Options) {
    && issue.quorum.participants != []
    && |issue.quorum.participants| >= opt.minReplicas
    && IdSet(issue.quorum.participants) <= issue.healthy
    && |issue.quorum.participants| == |IdSet(issue.quorum.participants)|
  }

  ghost predicate StrictMajority(issue: Issue) {
    2 * |issue.quorum.participants| > |issue.healthy|
  }

  ghost predicate NobodyShrinks(s: State) {
    forall id :: id in s.participants ==> !s.participants[id].member.shrinkOnly
  }

  lemma {:induction false} DistinctIds(ms: seq<Member>)
    requires StrictlySorted(ms)
    ensures |IdSet(ms)| == |ms|
  {
    if ms != [] {
      DistinctIds(ms[1..]);
      StrictlySortedIsUnique(ms);
      assert ms == [ms[0]] + ms[1..];
      IdSetOfCons(ms[0], ms[1..]);
      assert ms[0].replicaId !in IdSet(ms[1..]);
    }
  }

  /** The fast path inherits what the slow path checks. */
  lemma TickIsStrong(r: Run, s: State, now: int, opt: Options)
    requires Consistent(r) && KeysMatch(s.participants) && NobodyShrinks(s)
    requires s.prevQuorum == r.state.prevQuorum && s.quorumId == r.state.quorumId
    requires forall i :: 0 <= i < |r.issues| ==> Strong(r.issues[i], opt)
    requires Tick(s, now, opt).1.Some?
    ensures Strong(Issue(Tick(s, now, opt).1.value, Healthy(s, now, opt)), opt)
    ensures (r.issues != [] ==> StrictMajority(r.issues[|r.issues| - 1])
                                && Healthy(s, now, opt) <= r.issues[|r.issues| - 1].healthy)
            ==> StrictMajority(Issue(Tick(s, now, opt).1.value, Healthy(s, now, opt)))
  {
    ComputedQuorum(now, s, opt);
    var joined := HealthyParticipants(s, now, opt);
    var ms := QuorumCompute(now, s, opt).0.value;
    DistinctIds(ms);
    assert IdSet(ms) == joined;
    if QuorumCompute(now, s, opt).1.Fast? {
      var prev := r.issues[|r.issues| - 1];
      assert Strong(prev, opt);
      SubsetIsSmaller(IdSet(prev.quorum.participants), joined);
      if Healthy(s, now, opt) <= prev.healthy {
        SubsetIsSmaller(Healthy(s, now, opt), prev.healthy);
      }
    }
  }

  lemma {:induction false} SubsetIsSmaller(a: set<string>, b: set<string>)
    requires a <= b
    ensures |a| <= |b|
  {
    assert b == a + (b - a);
  }

  lemma {:induction false} RunIsStrong(events: seq<Event>, opt: Options)
    requires NoShrinkOnly(events)
    ensures NobodyShrinks(Execute(events, opt).state)
    ensures forall i :: 0 <= i < |Execute(events, opt).issues| ==> Strong(Execute(events, opt).issues[i], opt)
    ensures HealthNeverGrows(Execute(events, opt).issues) ==>
              forall i :: 0 <= i < |Execute(events, opt).issues| ==> StrictMajority(Execute(events, opt).issues[i])
  {
    hide QuorumCompute, Strong, StrictMajority;
    if events != [] {
      var n := |events| - 1;
      var e := events[n];
      assert e in events;
      RunIsStrong(events[..n], opt);
      var r := Execute(events[..n], opt);
      RunsAreConsistent(events[..n], opt);
      if e.QuorumRequested? || e.Ticks? {
        var s := Before(r.state, e);
        if Tick(s, e.now, opt).1.Some? {
          TickIsStrong(r, s, e.now, opt);
          var after := Execute(events, opt).issues;
          assert after == r.issues + [after[|r.issues|]];
          if HealthNeverGrows(after) {
            forall i | 0 < i < |r.issues| ensures r.issues[i].healthy <= r.issues[i - 1].healthy {
              assert after[i].healthy <= after[i - 1].healthy;
            }
            if |r.issues| > 0 {
              assert after[|r.issues|].healthy <= after[|r.issues| - 1].healthy;
            }
          }
        }
      }
    }
  }

  /** Without shrink-only requests every quorum has at least `minReplicas` members, and while no
      replica turns healthy again each one is a strict majority of the replicas healthy at its issue. */
  lemma QuorumsAreStrong(events: seq<Event>, opt: Options, i: nat)
    requires NoShrinkOnly(events) && i < |Execute(events, opt).issues|
    ensures |Execute(events, opt).issues[i].quorum.participants| >= opt.minReplicas
    ensures Execute(events, opt).issues[i].quorum.participants != []
    ensures HealthNeverGrows(Execute(events, opt).issues) ==>
              2 * |Execute(events, opt).issues[i].quorum.participants| > |Execute(events, opt).issues[i].healthy|
  {
    RunIsStrong(events, opt);
    assert Strong(Execute(events, opt).issues[i], opt);
  }

  /** With a fixed healthy set any two quorums of a run share a member. */
  lemma QuorumsIntersect(events: seq<Event>, opt: Options, healthy: set<string>, i: nat, j: nat)
    requires NoShrinkOnly(events)
    requires i < |Execute(events, opt).issues| && j < |Execute(events, opt).issues|
    requires forall k :: 0 <= k < |Execute(events, opt).issues| ==> Execute(events, opt).issues[k].healthy == healthy
    ensures exists id :: id in IdSet(Execute(events, opt).issues[i].quorum.participants)
                         && id in IdSet(Execute(events, opt).issues[j].quorum.participants)
  {
    RunIsStrong(events, opt);
    var p, q := Execute(events, opt).issues[i], Execute(events, opt).issues[j];
    assert Strong(p, opt) && Strong(q, opt) && StrictMajority(p) && StrictMajority(q);
    var a, b := IdSet(p.quorum.participants), IdSet(q.quorum.participants);
    if a * b == {} {
      assert |a + b| == |a| + |b|;
      SubsetIsSmaller(a + b, healthy);
    }
    var id :| id in a * b;
  }

  /** Whether a quorum is a strict majority, exactly: of those the filter leaves, more than half as many as are healthy
      have to take part. Without shrink-only requests it can only be missing on the fast path, with joined replicas that
      are too few for the slow one. */
  lemma MajorityExactly(now: int, s: State, opt: Options)
    requires KeysMatch(s.participants) && Tick(s, now, opt).1.Some?
    ensures var joined := HealthyParticipants(s, now, opt);
            var kept := if Shrinks(s, joined) then joined * IdSet(s.prevQuorum.value.participants) else joined;
            var issue := Issue(Tick(s, now, opt).1.value, Healthy(s, now, opt));
            && (StrictMajority(issue) <==> |kept| > |Healthy(s, now, opt)| / 2)
            && (NobodyShrinks(s) && !StrictMajority(issue) ==> QuorumCompute(now, s, opt).1.Fast?)
  {
    ComputedQuorum(now, s, opt);
    DistinctIds(QuorumCompute(now, s, opt).0.value);
  }

  /** The fast path uses up the previous quorum's lead: how far twice its size was above the replicas healthy then.
      The quorum is no majority exactly if the healthy set has grown since by that lead and twice the newcomers that
      joined, of which a shrink-only request lets none in. */
  lemma FastMajorityExactly(r: Run, s: State, now: int, opt: Options)
    requires Consistent(r) && r.issues != [] && KeysMatch(s.participants) && s.prevQuorum == r.state.prevQuorum
    requires QuorumCompute(now, s, opt).1.Fast?
    ensures var prev := r.issues[|r.issues| - 1];
            var joined := HealthyParticipants(s, now, opt);
            var lead := 2 * |prev.quorum.participants| - |prev.healthy|;
            var newcomers := if Shrinks(s, joined) then 0 else |joined - IdSet(prev.quorum.participants)|;
            && Tick(s, now, opt).1.Some?
            && (StrictMajority(Issue(Tick(s, now, opt).1.value, Healthy(s, now, opt)))
                <==> |Healthy(s, now, opt)| - |prev.healthy| < lead + 2 * newcomers)
  {
    FastMeansAllBack(now, s, opt);
    hide QuorumCompute, HealthyParticipants, Healthy, Shrinks;
    ComputedQuorum(now, s, opt);
    var prev := r.issues[|r.issues| - 1].quorum.participants;
    DistinctIds(QuorumCompute(now, s, opt).0.value);
    DistinctIds(prev);
    WithoutSubset(HealthyParticipants(s, now, opt), IdSet(prev));
  }

  lemma FastMeansAllBack(now: int, s: State, opt: Options)
    requires QuorumCompute(now, s, opt).1.Fast?
    ensures QuorumCompute(now, s, opt).0.Some? && s.prevQuorum.Some?
    ensures IdSet(s.prevQuorum.value.participants) <= HealthyParticipants(s, now, opt)
  {
  }

  lemma WithoutSubset(a: set<string>, b: set<string>)
    requires b <= a
    ensures |a - b| == |a| - |b| && a * b == b
  {
    assert a == (a - b) + b;
  }

  const AloneThenWatched: seq<Event> :=
    [] + [QuorumRequested(Lone, 0)] + [HeartbeatArrives("b", 1)] + [HeartbeatArrives("c", 1)]
    + [QuorumRequested(Lone, 2)]

  const Lone: Member := Member("a", "", "", 0, 1, false, 0)

  /** A replica that joins alone, and then two more that only turn healthy: the fast path goes on issuing its quorum of
      one, which is one of three. */
  lemma FastPathCanLackAMajority()
    ensures NoShrinkOnly(AloneThenWatched)
    ensures var issues := Execute(AloneThenWatched, Options(1, 0, 10)).issues;
            |issues| == 2 && StrictMajority(issues[0]) && !StrictMajority(issues[1])
  {
    var opt := Options(1, 0, 10);
    var one := [] + [QuorumRequested(Lone, 0)];
    var two := one + [HeartbeatArrives("b", 1)];
    ExecuteOneMore([], QuorumRequested(Lone, 0), opt);
    ExecuteOneMore(one, HeartbeatArrives("b", 1), opt);
    ExecuteOneMore(two, HeartbeatArrives("c", 1), opt);
    ExecuteOneMore(two + [HeartbeatArrives("c", 1)], QuorumRequested(Lone, 2), opt);
    hide Execute, Healthy, Step, Tick, QuorumCompute;
    AsksAlone(Run(Initial, []), Lone, 0, opt, {"a"});
    WatchedAsksAlone(Execute(one, opt), opt);
  }

  lemma WatchedAsksAlone(r: Run, opt: Options)
    requires opt == Options(1, 0, 10) && r.state.participants == map[] && r.state.heartbeats == map["a" := 0]
    requires r.state.prevQuorum.Some? && r.state.prevQuorum.value.participants == [Lone]
    ensures var watched := Step(Step(r, HeartbeatArrives("b", 1), opt), HeartbeatArrives("c", 1), opt);
            var u := Step(watched, QuorumRequested(Lone, 2), opt);
            && |u.issues| == |r.issues| + 1 && u.issues[..|r.issues|] == r.issues
            && u.issues[|r.issues|].quorum.participants == [Lone]
            && u.issues[|r.issues|].healthy == {"a", "b", "c"}
  {
    hide Healthy, Step, Tick, QuorumCompute;
    BeatsOnly(r, "b", 1, opt);
    BeatsOnly(Step(r, HeartbeatArrives("b", 1), opt), "c", 1, opt);
    AsksAlone(Step(Step(r, HeartbeatArrives("b", 1), opt), HeartbeatArrives("c", 1), opt), Lone, 2, opt,
              {"a", "b", "c"});
  }

  lemma BeatsOnly(r: Run, id: string, now: int, opt: Options)
    ensures Step(r, HeartbeatArrives(id, now), opt) == r.(state := Beat(r.state, id, now))
  {
  }

  /** Asking alone starts a quorum of one, if nobody else is healthy or the last quorum was the same. */
  lemma AsksAlone(r: Run, m: Member, now: int, opt: Options, healthy: set<string>)
    requires r.state.participants == map[] && opt == Options(1, opt.joinTimeout, 10) && !m.shrinkOnly
    requires forall id :: id in healthy <==>
                          id == m.replicaId || (id in r.state.heartbeats && now - 10 < r.state.heartbeats[id] <= now)
    requires forall id :: id in r.state.heartbeats ==> r.state.heartbeats[id] <= now
    requires healthy == {m.replicaId} || (r.state.prevQuorum.Some? && r.state.prevQuorum.value.participants == [m])
    ensures var u := Step(r, QuorumRequested(m, now), opt);
            && u.state.participants == map[] && u.state.heartbeats == r.state.heartbeats[m.replicaId := now]
            && |u.issues| == |r.issues| + 1 && u.issues[..|r.issues|] == r.issues
            && u.issues[|r.issues|].quorum.participants == [m] && u.issues[|r.issues|].healthy == healthy
            && u.state.prevQuorum == Some(u.issues[|r.issues|].quorum)
  {
    hide Tick, QuorumCompute;
    var t := Before(r.state, QuorumRequested(m, now));
    assert Healthy(t, now, opt) == healthy;
    assert HealthyParticipants(t, now, opt) == {m.replicaId};
    AloneInQuorum(t, now, opt, m);
  }

  lemma ExecuteOneMore(events: seq<Event>, e: Event, opt: Options)
    ensures Execute([], opt) == Run(Initial, [])
    ensures Execute(events + [e], opt) == Step(Execute(events, opt), e, opt)
  {
    assert (events + [e])[..|events|] == events;
  }

  lemma AloneInQuorum(s: State, now: int, opt: Options, m: Member)
    requires KeysMatch(s.participants) && NobodyShrinks(s) && opt.minReplicas == 1
    requires HealthyParticipants(s, now, opt) == {m.replicaId} && s.participants[m.replicaId].member == m
    requires Healthy(s, now, opt) == {m.replicaId}
             || (s.prevQuorum.Some? && s.prevQuorum.value.participants == [m])
    ensures var (t, q) := Tick(s, now, opt);
            q.Some? && q.value.participants == [m] && t.prevQuorum == q && t.heartbeats == s.heartbeats
            && t.participants == map[]
  {
    assert IdSet([m]) == {m.replicaId} by {
      IdSetOfCons(m, []);
      assert [m] + [] == [m] && IdSet([]) == {};
    }
    ComputedQuorum(now, s, opt);
    var ms := QuorumCompute(now, s, opt).0.value;
    DistinctIds(ms);
    assert ms == [m];
  }

  /** How large a quorum really is: with a shrink-only request the size check, which counts all healthy
      participants, says nothing about it, and it has enough members exactly when enough of the
      previous quorum's members are healthy participants. */
  lemma QuorumSizeExactly(now: int, s: State, opt: Options)
    requires KeysMatch(s.participants) && Tick(s, now, opt).1.Some?
    ensures var joined := HealthyParticipants(s, now, opt);
            |Tick(s, now, opt).1.value.participants| >= opt.minReplicas
            <==> (if Shrinks(s, joined) then |joined * IdSet(s.prevQuorum.value.participants)| else |joined|)
                 >= opt.minReplicas
  {
    ComputedQuorum(now, s, opt);
    DistinctIds(QuorumCompute(now, s, opt).0.value);
  }

  /** The shrink-only filter runs before the size checks, which count the unfiltered replicas:
      two replicas of which one only shrinks can be turned into a quorum with no member at all. */
  lemma ShrinkOnlyCanEmptyAQuorum()
    ensures var m := Member("c", "", "", 0, 1, true, 0);
            var a := Member("a", "", "", 0, 1, false, 0);
            var s := State(map["c" := Details(0, m)], Some(Quorum(1, [a])), 1, map["c" := 0]);
            var opt := Options(1, 0, 10);
            KeysMatch(s.participants) && Tick(s, 1, opt).1 == Some(Quorum(2, []))
  {
    var m := Member("c", "", "", 0, 1, true, 0);
    var a := Member("a", "", "", 0, 1, false, 0);
    var s := State(map["c" := Details(0, m)], Some(Quorum(1, [a])), 1, map["c" := 0]);
    var opt := Options(1, 0, 10);
    assert Healthy(s, 1, opt) == {"c"};
    assert HealthyParticipants(s, 1, opt) == {"c"};
    assert [a][0].replicaId in IdSet([a]);
    assert "a" !in {"c"};
    assert QuorumCompute(1, s, opt).0.Some?;
    ComputedQuorum(1, s, opt);
    var ms := QuorumCompute(1, s, opt).0.value;
    assert IdSet(ms) == {};
    DistinctIds(ms);
    assert Ids([])== [] && Ids([a]) == ["a"];
  }
}
