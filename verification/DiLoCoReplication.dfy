/** Why DiLoCo replicas agree on the global parameters however differently they train. */
module DiLoCoReplication {

  import opened Quantization
  import opened DiLoCo
  import Schedule = DiLoCoSchedule

  /** One replica's fragment: what it saves and what it trains. */
  datatype Copy<S> = Copy(saved: Saved<S>, live: seq<real>)

  datatype Event<S> =
    | Trained(live: seq<real>)
    | Synced(averaged: seq<real>, commit: bool)
    | Recovered(saved: Saved<S>, live: seq<real>)

  ghost predicate Fits<S>(r: Copy<S>) {
    |r.saved.global| == |r.live|
  }

  ghost predicate EventFits<S>(n: nat, e: Event<S>) {
    match e
    case Trained(live) => |live| == n
    case Synced(averaged, _) => |averaged| == n
    case Recovered(saved, live) => |saved.global| == |live| == n
  }

  ghost predicate EventsFit<S>(n: nat, es: seq<Event<S>>) {
    forall i :: 0 <= i < |es| ==> EventFits(n, es[i])
  }

  lemma SyncKeepsLength<S(!new)>(outer: Outer<S>, saved: Saved<S>, averaged: seq<real>, commit: bool)
    requires KeepsLength(outer)
    ensures |AfterSync(outer, saved, averaged, commit).global| == |saved.global|
  {
    assert |outer(saved.state, saved.global, averaged).1| == |saved.global|;
  }

  ghost function Next<S(!new)>(outer: Outer<S>, alpha: real, r: Copy<S>, e: Event<S>): (q: Copy<S>)
    requires KeepsLength(outer) && Fits(r) && EventFits(|r.live|, e)
    ensures Fits(q) && |q.live| == |r.live|
  {
    match e
    case Trained(live) => Copy(r.saved, live)
    case Synced(averaged, commit) =>
      SyncKeepsLength(outer, r.saved, averaged, commit);
      var saved := AfterSync(outer, r.saved, averaged, commit);
      Copy(saved, LiveAfterSync(saved.global, r.live, alpha, commit))
    case Recovered(saved, live) => Copy(saved, live)
  }

  ghost function Reached<S(!new)>(outer: Outer<S>, alpha: real, r: Copy<S>, es: seq<Event<S>>): (q: Copy<S>)
    requires KeepsLength(outer) && Fits(r) && EventsFit(|r.live|, es)
    ensures Fits(q) && |q.live| == |r.live|
  {
    if es == [] then r else
      Next(outer, alpha, Reached(outer, alpha, r, es[..|es| - 1]), es[|es| - 1])
  }

  /** What replicas have in common: the averages, the outcomes and the recoveries, but not the training. */
  datatype Shared<S> = Average(averaged: seq<real>, commit: bool) | Restart(saved: Saved<S>)

  function SharedOf<S>(e: Event<S>): seq<Shared<S>> {
    match e
    case Trained(_) => []
    case Synced(averaged, commit) => [Average(averaged, commit)]
    case Recovered(saved, _) => [Restart(saved)]
  }

  function AllShared<S>(es: seq<Event<S>>): seq<Shared<S>> {
    if es == [] then [] else AllShared(es[..|es| - 1]) + SharedOf(es[|es| - 1])
  }

  ghost function Global<S(!new)>(outer: Outer<S>, saved: Saved<S>, shared: seq<Shared<S>>): Saved<S> {
    if shared == [] then saved else
      var before := Global(outer, saved, shared[..|shared| - 1]);
      match shared[|shared| - 1]
      case Average(averaged, commit) => AfterSync(outer, before, averaged, commit)
      case Restart(recovered) => recovered
  }

  lemma {:induction false} SavedIsGlobal<S(!new)>(outer: Outer<S>, alpha: real, r: Copy<S>, es: seq<Event<S>>)
    requires KeepsLength(outer) && Fits(r) && EventsFit(|r.live|, es)
    ensures Reached(outer, alpha, r, es).saved == Global(outer, r.saved, AllShared(es))
  {
    if es != [] {
      var before, e := es[..|es| - 1], es[|es| - 1];
      SavedIsGlobal(outer, alpha, r, before);
      assert AllShared(es) == AllShared(before) + SharedOf(e);
      if e.Trained? {
        assert AllShared(es) == AllShared(before);
      } else {
        assert AllShared(es)[..|AllShared(es)| - 1] == AllShared(before);
      }
    }
  }

  /**
   * Replicas that start from the same global copy and outer state and see the same averages and outcomes have the same
   * global copy and outer state at every point, whatever each trains and however it mixes the two copies.
   */
  lemma {:induction false} TrainingNeverSplitsTheGlobalCopy<S(!new)>(
      outer: Outer<S>, alpha: real, beta: real, r: Copy<S>, q: Copy<S>, es: seq<Event<S>>, fs: seq<Event<S>>)
    requires KeepsLength(outer) && Fits(r) && Fits(q) && EventsFit(|r.live|, es) && EventsFit(|q.live|, fs)
    requires r.saved == q.saved && AllShared(es) == AllShared(fs)
    ensures Reached(outer, alpha, r, es).saved == Reached(outer, beta, q, fs).saved
  {
    SavedIsGlobal(outer, alpha, r, es);
    SavedIsGlobal(outer, beta, q, fs);
  }

  /** After a failed commit two such replicas are the same altogether: what each had trained is forgotten. */
  lemma FailedCommitForgetsTraining<S(!new)>(
      outer: Outer<S>, alpha: real, beta: real, r: Copy<S>, q: Copy<S>, es: seq<Event<S>>, fs: seq<Event<S>>,
      averaged: seq<real>)
    requires KeepsLength(outer) && Fits(r) && Fits(q) && |r.live| == |q.live| == |averaged|
    requires EventsFit(|r.live|, es) && EventsFit(|q.live|, fs)
    requires r.saved == q.saved && AllShared(es) == AllShared(fs)
    ensures var failed: Event<S> := Synced(averaged, false);
            var saved := Reached(outer, alpha, r, es).saved;
            && EventsFit(|r.live|, es + [failed]) && EventsFit(|q.live|, fs + [failed])
            && Reached(outer, alpha, r, es + [failed]) == Reached(outer, beta, q, fs + [failed])
               == Copy(saved, saved.global)
  {
    var failed: Event<S> := Synced(averaged, false);
    TrainingNeverSplitsTheGlobalCopy(outer, alpha, beta, r, q, es, fs);
    assert (es + [failed])[..|es|] == es && (fs + [failed])[..|fs|] == fs;
  }

  /** After a commit each live parameter lies between the new global value and the trained one. */
  lemma MergedLiesBetween(a: real, b: real, w: real)
    requires 0.0 <= w <= 1.0
    ensures a <= b ==> a <= LerpOne(a, b, w) <= b
    ensures b <= a ==> b <= LerpOne(a, b, w) <= a
    ensures LerpOne(a, b, 0.0) == a && LerpOne(a, b, 1.0) == b
  {
    hide LerpOne, Times;
    LerpEnds(a, b);
    LerpAsStep(a, b, w);
    if a <= b {
      Within(w, b - a);
    } else {
      Within(w, a - b);
    }
  }

  lemma LerpEnds(a: real, b: real)
    ensures LerpOne(a, b, 0.0) == a && LerpOne(a, b, 1.0) == b
  {
  }

  lemma LerpAsStep(a: real, b: real, w: real)
    ensures LerpOne(a, b, w) == a + Times(w, b - a) == a - Times(w, a - b)
  {
    assert w * (b - a) + w * (a - b) == 0.0;
  }

  lemma Within(w: real, d: real)
    requires 0.0 <= w <= 1.0 && d >= 0.0
    ensures 0.0 <= Times(w, d) <= d
  {
    NonNegative(w, d);
    NonNegative(1.0 - w, d);
    assert (1.0 - w) * d == d - w * d;
  }

  lemma NonNegative(a: real, b: real)
    requires a >= 0.0 && b >= 0.0
    ensures a * b >= 0.0
  {
  }

  // ----- The averages, computed from what the replicas trained

  /** The mean over the replicas of the global copy minus the trained parameters. */
  function Averaged<S>(saved: seq<Saved<S>>, lives: seq<seq<real>>, n: nat): (r: seq<real>)
    requires |saved| == |lives| > 0
    requires forall j :: 0 <= j < |lives| ==> |saved[j].global| == |lives[j]| == n
    ensures |r| == n
  {
    seq(n, i requires 0 <= i < n => Sum(Pseudo(saved, lives, n, i)) / |lives| as real)
  }

  function Pseudo<S>(saved: seq<Saved<S>>, lives: seq<seq<real>>, n: nat, i: nat): (r: seq<real>)
    requires |saved| == |lives| && i < n
    requires forall j :: 0 <= j < |lives| ==> |saved[j].global| == |lives[j]| == n
    ensures |r| == |lives|
  {
    seq(|lives|, j requires 0 <= j < |lives| => saved[j].global[i] - lives[j][i])
  }

  lemma {:induction false} SumOfDifferences(x: seq<real>, a: real, y: seq<real>)
    requires |x| == |y| && forall j :: 0 <= j < |x| ==> x[j] == a - y[j]
    ensures Sum(x) == |x| as real * a - Sum(y)
  {
    if x != [] {
      SumOfDifferences(x[..|x| - 1], a, y[..|y| - 1]);
      assert |x| as real * a == (|x| - 1) as real * a + a;
    }
  }

  /** From one global copy, the averaged pseudogradient is the global copy minus the mean of what was trained. */
  lemma AveragedIsDistanceToMean<S>(g: Saved<S>, saved: seq<Saved<S>>, lives: seq<seq<real>>, n: nat, i: nat)
    requires |saved| == |lives| > 0 && i < n
    requires forall j :: 0 <= j < |lives| ==> |saved[j].global| == |lives[j]| == n
    requires forall j :: 0 <= j < |saved| ==> saved[j] == g
    ensures |g.global| == n
    ensures Averaged(saved, lives, n)[i] == g.global[i] - Sum(Across(lives, i)) / |lives| as real
  {
    assert saved[0] == g;
    var m := |lives| as real;
    SumOfDifferences(Pseudo(saved, lives, n, i), g.global[i], Across(lives, i));
    Share(m, g.global[i], Sum(Across(lives, i)));
  }

  lemma Share(m: real, a: real, total: real)
    requires m > 0.0
    ensures (m * a - total) / m == a - total / m
  {
    assert (m * a) / m == a;
  }

  // ----- The whole group: every fragment, the schedule, failures and recoveries

  /** One replica on values: where it is in its schedule, and what each of its fragments saves. */
  datatype Replica<S> = Replica(at: Schedule.Progress, saved: seq<Saved<S>>)

  /** What the group does. A replica that asks for its quorum at the prepare step and is behind recovers from `source`,
      which is itself otherwise. */
  datatype Deed = Enter(id: string) | Leave(id: string) | Hook(id: string, source: string, commit: bool)

  /** All that is fixed: the schedule, an outer optimizer per fragment, the first global copies, and the averages that
      the all-reduces of a manager step yield to whoever commits it. */
  datatype Group<!S> = Group(
    c: Schedule.Config,
    outers: seq<Outer<S>>,
    initial: seq<Saved<S>>,
    average: nat -> seq<real>)

  ghost predicate Formed<S>(group: Group<S>) {
    Schedule.Sound(group.c) && |group.outers| == |group.initial| == group.c.n
  }

  ghost predicate AllFit<S>(group: Group<S>, rs: map<string, Replica<S>>) {
    forall id :: id in rs ==> |rs[id].saved| == group.c.n
  }

  /** The hook of one replica. */
  ghost function Turn<S>(group: Group<S>, r: Replica<S>, source: Replica<S>, commit: bool): (q: Replica<S>)
    requires Formed(group) && |r.saved| == |source.saved| == group.c.n
    ensures |q.saved| == group.c.n
  {
    var x := Schedule.Input(source.at.step, commit);
    var saved := if Schedule.Preparing(group.c, r.at) then source.saved else r.saved;
    var step := Schedule.StepSeen(group.c, r.at, x);
    Replica(Schedule.After(group.c, r.at, x), HookSaved(group.c, group.outers, r.at, saved, x, group.average(step)))
  }

  ghost function Acted<S>(group: Group<S>, rs: map<string, Replica<S>>, d: Deed): (qs: map<string, Replica<S>>)
    requires Formed(group) && AllFit(group, rs)
    ensures AllFit(group, qs)
  {
    match d
    case Enter(id) => if id in rs then rs else rs[id := Replica(Schedule.Progress(0, 0), group.initial)]
    case Leave(id) => rs - {id}
    case Hook(id, source, commit) =>
      if id in rs && source in rs then rs[id := Turn(group, rs[id], rs[source], commit)] else rs
  }

  ghost function Members<S>(group: Group<S>, ds: seq<Deed>): (rs: map<string, Replica<S>>)
    requires Formed(group)
    ensures AllFit(group, rs)
  {
    if ds == [] then map[] else Acted(group, Members(group, ds[..|ds| - 1]), ds[|ds| - 1])
  }

  /** The global copies after `step` commits: each commit moves the fragment whose turn it is. */
  ghost function GlobalAt<S>(group: Group<S>, step: nat): (saved: seq<Saved<S>>)
    requires Formed(group)
    ensures |saved| == group.c.n
  {
    if step == 0 then group.initial else
      var before, f := GlobalAt(group, step - 1), (step - 1) % group.c.n;
      before[f := AfterSync(group.outers[f], before[f], group.average(step - 1), true)]
  }

  lemma TurnFollowsSteps<S>(group: Group<S>, r: Replica<S>, source: Replica<S>, commit: bool)
    requires Formed(group) && r.saved == GlobalAt(group, r.at.step) && source.saved == GlobalAt(group, source.at.step)
    ensures Turn(group, r, source, commit).saved == GlobalAt(group, Turn(group, r, source, commit).at.step)
  {
    var step := Schedule.StepSeen(group.c, r.at, Schedule.Input(source.at.step, commit));
    var saved := GlobalAt(group, step);
    assert saved == if Schedule.Preparing(group.c, r.at) then source.saved else r.saved;
    assert saved[step % group.c.n := saved[step % group.c.n]] == saved;
  }

  /** Whatever joins, crashes, failed commits and recoveries there were: what a replica saves, over all its fragments,
      is determined by its manager's step. */
  lemma {:induction false} SavedFollowsSteps<S>(group: Group<S>, ds: seq<Deed>, id: string)
    requires Formed(group) && id in Members(group, ds)
    ensures Members(group, ds)[id].saved == GlobalAt(group, Members(group, ds)[id].at.step)
  {
    var before, d := ds[..|ds| - 1], ds[|ds| - 1];
    var rs := Members(group, before);
    if id in rs { SavedFollowsSteps(group, before, id); }
    if d.Hook? && d.id == id && d.source in rs {
      SavedFollowsSteps(group, before, d.source);
      TurnFollowsSteps(group, rs[id], rs[d.source], d.commit);
    }
  }

  /** Replicas at one manager step hold the same global copies and outer states of all fragments. */
  lemma GroupStaysTogether<S>(group: Group<S>, ds: seq<Deed>, a: string, b: string)
    requires Formed(group) && a in Members(group, ds) && b in Members(group, ds)
    requires Members(group, ds)[a].at.step == Members(group, ds)[b].at.step
    ensures Members(group, ds)[a].saved == Members(group, ds)[b].saved
  {
    SavedFollowsSteps(group, ds, a);
    SavedFollowsSteps(group, ds, b);
  }

  /** A member takes part in a step: at some point of the run it prepared from what `id` saved then (itself, or the
      source it recovered from), having trained `live`. */
  datatype Part = Part(point: nat, id: string, live: seq<real>)

  ghost predicate TookPart<S>(group: Group<S>, ds: seq<Deed>, step: nat, part: Part)
    requires Formed(group)
  {
    && part.point <= |ds| && part.id in Members(group, ds[..part.point])
    && Members(group, ds[..part.point])[part.id].at.step == step
  }

  /** The copies of fragment `f` that the members prepared from, each its own. */
  ghost function CopiesOf<S>(group: Group<S>, ds: seq<Deed>, step: nat, parts: seq<Part>, f: nat): (r: seq<Saved<S>>)
    requires Formed(group) && f < group.c.n && forall j :: 0 <= j < |parts| ==> TookPart(group, ds, step, parts[j])
    ensures |r| == |parts|
  {
    seq(|parts|, j requires 0 <= j < |parts| && TookPart(group, ds, step, parts[j]) =>
      Members(group, ds[..parts[j].point])[parts[j].id].saved[f])
  }

  function LivesOf(parts: seq<Part>): (r: seq<seq<real>>)
    ensures |r| == |parts| && forall j :: 0 <= j < |r| ==> r[j] == parts[j].live
  {
    seq(|parts|, j requires 0 <= j < |parts| => parts[j].live)
  }

  /** How far the parameters are from the mean of what was trained. */
  function DistanceToMean(global: seq<real>, lives: seq<seq<real>>): (r: seq<real>)
    requires |lives| > 0 && forall j :: 0 <= j < |lives| ==> |lives[j]| == |global|
    ensures |r| == |global|
  {
    seq(|global|, i requires 0 <= i < |global| => global[i] - Sum(Across(lives, i)) / |lives| as real)
  }

  lemma CopiesAreGlobal<S>(group: Group<S>, ds: seq<Deed>, step: nat, parts: seq<Part>, f: nat)
    requires Formed(group) && f < group.c.n && forall j :: 0 <= j < |parts| ==> TookPart(group, ds, step, parts[j])
    ensures forall j :: 0 <= j < |parts| ==> CopiesOf(group, ds, step, parts, f)[j] == GlobalAt(group, step)[f]
  {
    forall j | 0 <= j < |parts|
      ensures CopiesOf(group, ds, step, parts, f)[j] == GlobalAt(group, step)[f]
    {
      assert TookPart(group, ds, step, parts[j]);
      SavedFollowsSteps(group, ds[..parts[j].point], parts[j].id);
    }
  }

  /**
   * Where the averages of a step are the mean over its members of own global copy minus own trained parameters, however
   * far apart in the run the members prepared, after failed commits or a recovery: the next global copy is the outer
   * step from the common one, by its distance to the mean of what was trained.
   */
  lemma OuterStepIsTowardsTheMean<S>(group: Group<S>, ds: seq<Deed>, step: nat, parts: seq<Part>)
    requires Formed(group) && |parts| > 0 && forall j :: 0 <= j < |parts| ==> TookPart(group, ds, step, parts[j])
    requires var f := step % group.c.n;
             var n := |parts[0].live|;
             && (forall j :: 0 <= j < |parts| ==>
                   |CopiesOf(group, ds, step, parts, f)[j].global| == |LivesOf(parts)[j]| == n)
             && group.average(step) == Averaged(CopiesOf(group, ds, step, parts, f), LivesOf(parts), n)
    ensures var f := step % group.c.n;
            var now := GlobalAt(group, step)[f];
            && |now.global| == |parts[0].live| && (forall j :: 0 <= j < |parts| ==> |parts[j].live| == |now.global|)
            && var distance := DistanceToMean(now.global, LivesOf(parts));
               var (state, global) := group.outers[f](now.state, now.global, distance);
               GlobalAt(group, step + 1)[f] == Saved(global, state)
  {
    var f, n, lives := step % group.c.n, |parts[0].live|, LivesOf(parts);
    var now, copies := GlobalAt(group, step)[f], CopiesOf(group, ds, step, parts, f);
    CopiesAreGlobal(group, ds, step, parts, f);
    assert copies[0] == now;
    forall j | 0 <= j < |parts| ensures |parts[j].live| == n { assert |lives[j]| == n; }
    forall i | 0 <= i < n
      ensures Averaged(copies, lives, n)[i] == DistanceToMean(now.global, lives)[i]
    {
      AveragedIsDistanceToMean(now, copies, lives, n, i);
    }
    assert group.average(step) == DistanceToMean(now.global, lives);
  }
}
