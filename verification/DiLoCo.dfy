/** DiLoCo's parameters: the saved global copy, the live copy, and the outer step that updates both. */
module DiLoCo {

  import opened DiLoCoSchedule

  /** One element of a parameter. The elements of a tensor are handled alike, so a tensor is as many of these. */
  class Element {
    /** The fragment it belongs to. */
    ghost const home: nat
    var data: real

    constructor (x: real, ghost home: nat)
      ensures data == x && this.home == home
    {
      data := x;
      this.home := home;
    }
  }

  ghost predicate AtHome(ts: seq<Element>, home: nat) {
    forall i :: 0 <= i < |ts| ==> ts[i].home == home
  }

  function Data(ts: seq<Element>): (r: seq<real>)
    reads ts
    ensures |r| == |ts| && forall i :: 0 <= i < |ts| ==> r[i] == ts[i].data
  {
    if ts == [] then [] else Data(ts[..|ts| - 1]) + [ts[|ts| - 1].data]
  }

  function Minus(a: seq<real>, b: seq<real>): (r: seq<real>)
    requires |a| == |b|
    ensures |r| == |a|
  {
    seq(|a|, i requires 0 <= i < |a| => a[i] - b[i])
  }

  function LerpOne(a: real, b: real, w: real): real {
    a + w * (b - a)
  }

  /** `a` moved towards `b` by the fraction `w`. */
  function Lerp(a: seq<real>, b: seq<real>, w: real): (r: seq<real>)
    requires |a| == |b|
    ensures |r| == |a|
  {
    seq(|a|, i requires 0 <= i < |a| => LerpOne(a[i], b[i], w))
  }

  ghost predicate Distinct(ts: seq<Element>) {
    forall i, j :: 0 <= i < j < |ts| ==> ts[i] != ts[j]
  }

  ghost predicate Apart(ts: seq<Element>, us: seq<Element>) {
    forall i, j :: 0 <= i < |ts| && 0 <= j < |us| ==> ts[i] != us[j]
  }

  // ----- What a fragment saves, as values

  datatype Saved<S> = Saved(global: seq<real>, state: S)

  /** An outer optimizer: from its state, the parameters and their gradients, its new state and new parameters. */
  type Outer<!S> = (S, seq<real>, seq<real>) -> (S, seq<real>)

  ghost predicate KeepsLength<S(!new)>(outer: Outer<S>) {
    forall s, p, g :: |outer(s, p, g).1| == |p|
  }

  /** The outer step starts from the global copy, whatever the live parameters were. */
  function AfterSync<S>(outer: Outer<S>, saved: Saved<S>, averaged: seq<real>, commit: bool): Saved<S> {
    if commit then
      var (state, global) := outer(saved.state, saved.global, averaged);
      Saved(global, state)
    else
      saved
  }

  /** The live parameters afterwards: the global copy, mixed with the trained parameters if the step committed. */
  function LiveAfterSync(global: seq<real>, live: seq<real>, alpha: real, commit: bool): seq<real>
    requires |global| == |live|
  {
    if commit then Lerp(global, live, alpha) else global
  }

  /** What all fragments save after a turn of the hook in which the averages came in for the current one. */
  function HookSaved<S>(c: Config, outers: seq<Outer<S>>, p: Progress, saved: seq<Saved<S>>, x: Input,
                        averaged: seq<real>): (r: seq<Saved<S>>)
    requires Sound(c) && |outers| == |saved| == c.n
    ensures |r| == c.n
  {
    var f := StepSeen(c, p, x) % c.n;
    if Syncing(c, p) then saved[f := AfterSync(outers[f], saved[f], averaged, x.commit)] else saved
  }

  /** What a synchronization does, in terms of the outer optimizer: a commit steps it from the saved copy and its own
      state with the averages, and every live parameter moves from the new global value towards the trained one by
      `alpha`; a failure leaves what was saved and resets the live parameters to it. */
  lemma SyncMeans<S>(outer: Outer<S>, was: Saved<S>, averaged: seq<real>, trained: seq<real>, alpha: real, commit: bool)
    requires |AfterSync(outer, was, averaged, commit).global| == |trained|
    ensures var after := AfterSync(outer, was, averaged, commit);
            var live := LiveAfterSync(after.global, trained, alpha, commit);
            && |live| == |trained|
            && (commit ==>
                  && after.state == outer(was.state, was.global, averaged).0
                  && after.global == outer(was.state, was.global, averaged).1
                  && forall i :: 0 <= i < |live| ==>
                       live[i] == after.global[i] + alpha * (trained[i] - after.global[i]))
            && (!commit ==> after == was && live == was.global)
  {
  }

  lemma HookSavesElementwise<S>(c: Config, outers: seq<Outer<S>>, p: Progress, before: seq<Saved<S>>,
                                after: seq<Saved<S>>, x: Input, averaged: seq<real>)
    requires Sound(c) && |outers| == |before| == |after| == c.n
    requires var f := StepSeen(c, p, x) % c.n;
             forall i :: 0 <= i < c.n ==>
               after[i] == if Syncing(c, p) && i == f then AfterSync(outers[f], before[f], averaged, x.commit)
                           else before[i]
    ensures after == HookSaved(c, outers, p, before, x, averaged)
  {
    hide AfterSync;
  }

  // ----- The fragment

  method CopyAll(dst: seq<Element>, src: seq<Element>)
    requires |dst| == |src| && Distinct(dst) && Apart(dst, src)
    modifies dst
    ensures Data(dst) == Data(src) == old(Data(src))
  {
    for i := 0 to |dst|
      invariant forall j :: 0 <= j < i ==> dst[j].data == src[j].data
      invariant forall j :: 0 <= j < |src| ==> src[j].data == old(src[j].data)
    {
      dst[i].data := src[i].data;
    }
    assert Data(src) == old(Data(src));
    assert Data(dst) == Data(src);
  }

  method Clone(src: seq<Element>, ghost home: nat) returns (dst: seq<Element>)
    ensures fresh(dst) && |dst| == |src| && Distinct(dst) && AtHome(dst, home) && Data(dst) == Data(src)
  {
    dst := [];
    for i := 0 to |src|
      invariant |dst| == i && fresh(dst) && Distinct(dst) && AtHome(dst, home)
      invariant forall j :: 0 <= j < i ==> dst[j].data == src[j].data
    {
      var t := new Element(src[i].data, home);
      dst := dst + [t];
    }
  }

  method Difference(a: seq<Element>, b: seq<Element>, ghost home: nat) returns (c: seq<Element>)
    requires |a| == |b|
    ensures fresh(c) && |c| == |a| && Distinct(c) && AtHome(c, home) && Data(c) == Minus(Data(a), Data(b))
  {
    c := [];
    for i := 0 to |a|
      invariant |c| == i && fresh(c) && Distinct(c) && AtHome(c, home)
      invariant forall j :: 0 <= j < i ==> c[j].data == a[j].data - b[j].data
    {
      var t := new Element(a[i].data - b[i].data, home);
      c := c + [t];
    }
    assert Data(c) == Minus(Data(a), Data(b));
  }

  class Fragment<S(!new)> {
    ghost const id: nat
    const params: seq<Element>
    const originalParameters: seq<Element>
    const outer: Outer<S>
    const alpha: real
    var outerState: S
    var localParameters: seq<Element>
    var grads: seq<Element>
    var allreduceWork: nat

    ghost predicate Valid()
      reads this
    {
      && |originalParameters| == |params| && Distinct(params) && Distinct(originalParameters)
      && Apart(params, originalParameters) && KeepsLength(outer)
      && AtHome(params, id) && AtHome(originalParameters, id) && AtHome(grads, id)
      && (allreduceWork > 0 ==> HasGradients())
    }

    ghost predicate HasGradients()
      reads this
    {
      && allreduceWork == |params| == |grads| && Distinct(grads)
      && Apart(grads, params) && Apart(grads, originalParameters)
    }

    function Live(): seq<real>
      reads params
    {
      Data(params)
    }

    function Held(): Saved<S>
      reads this`outerState, originalParameters
    {
      Saved(Data(originalParameters), outerState)
    }

    constructor (params: seq<Element>, outer: Outer<S>, state: S, alpha: real, ghost id: nat)
      requires Distinct(params) && AtHome(params, id) && KeepsLength(outer)
      ensures Valid() && this.id == id && this.params == params && this.outer == outer && this.alpha == alpha
      ensures allreduceWork == 0
      ensures fresh(originalParameters) && Held() == Saved(Data(params), state) && Live() == old(Data(params))
    {
      var saved := Clone(params, id);
      this.id := id;
      this.params := params;
      this.outer := outer;
      this.alpha := alpha;
      originalParameters := saved;
      outerState := state;
      localParameters, grads, allreduceWork := [], [], 0;
    }

    method SaveGrads()
      requires Valid() && allreduceWork == 0
      modifies this`grads
      ensures fresh(grads) && |grads| == |params| && Distinct(grads) && AtHome(grads, id)
      ensures Data(grads) == Minus(Held().global, Live())
    {
      grads := Difference(originalParameters, params, id);
    }

    /** The difference between the global copy and the trained parameters starts its way round the group. */
    method PrepareSync()
      requires Valid() && allreduceWork == 0
      modifies this`grads, this`allreduceWork
      ensures Valid() && allreduceWork == |params|
      ensures fresh(grads) && |grads| == |params|
      ensures forall i :: 0 <= i < |grads| ==> Data(grads)[i] == Held().global[i] - Live()[i]
      ensures Held() == old(Held()) && Live() == old(Live())
    {
      SaveGrads();
      for i := 0 to |params|
        invariant allreduceWork == i
        modifies this`allreduceWork
      {
        allreduceWork := allreduceWork + 1;
      }
    }

    /** The all-reduce leaves the averages in the gradients. */
    method Wait(averaged: seq<real>)
      requires Valid() && allreduceWork > 0 && |averaged| == |params|
      modifies this`allreduceWork, grads
      ensures Valid() && allreduceWork == 0 && Data(grads) == averaged && Apart(grads, params)
      ensures Held() == old(Held()) && Live() == old(Live())
    {
      for i := 0 to |grads|
        invariant forall j :: 0 <= j < i ==> grads[j].data == averaged[j]
        invariant forall j :: 0 <= j < |params| ==> params[j].data == old(params[j].data)
        invariant forall j :: 0 <= j < |params| ==> originalParameters[j].data == old(originalParameters[j].data)
      {
        grads[i].data := averaged[i];
      }
      allreduceWork := 0;
      assert Live() == old(Live());
      assert Data(originalParameters) == old(Data(originalParameters));
      assert Data(grads) == averaged;
    }

    method OuterStep()
      requires Valid() && |grads| == |params| && Apart(grads, params)
      modifies this`outerState, params
      ensures outerState == outer(old(outerState), old(Live()), old(Data(grads))).0
      ensures Live() == outer(old(outerState), old(Live()), old(Data(grads))).1
      ensures Data(originalParameters) == old(Data(originalParameters))
    {
      var (state, values) := outer(outerState, Data(params), Data(grads));
      outerState := state;
      for i := 0 to |params|
        invariant forall j :: 0 <= j < i ==> params[j].data == values[j]
        invariant forall j :: 0 <= j < |params| ==> originalParameters[j].data == old(originalParameters[j].data)
        modifies params
      {
        params[i].data := values[i];
      }
      assert Live() == values;
      assert Data(originalParameters) == old(Data(originalParameters));
    }

    method MergeParameters()
      requires Valid() && |localParameters| == |params| && Apart(localParameters, params)
      modifies params
      ensures Live() == Lerp(old(Live()), old(Data(localParameters)), alpha)
      ensures Data(originalParameters) == old(Data(originalParameters))
    {
      hide LerpOne;
      for i := 0 to |params|
        invariant forall j :: 0 <= j < i ==>
                    params[j].data == LerpOne(old(params[j].data), old(localParameters[j].data), alpha)
        invariant forall j :: i <= j < |params| ==> params[j].data == old(params[j].data)
        invariant forall j :: 0 <= j < |params| ==> localParameters[j].data == old(localParameters[j].data)
        invariant forall j :: 0 <= j < |params| ==> originalParameters[j].data == old(originalParameters[j].data)
      {
        params[i].data := LerpOne(params[i].data, localParameters[i].data, alpha);
      }
      assert Live() == Lerp(old(Live()), old(Data(localParameters)), alpha);
      assert Data(originalParameters) == old(Data(originalParameters));
    }

    /** Fails its assertion if nothing was prepared. */
    method PerformSync(averaged: seq<real>, commit: bool) returns (ok: bool)
      requires Valid() && |averaged| == |params|
      modifies this`outerState, this`localParameters, this`grads, this`allreduceWork
      modifies params, originalParameters, grads
      ensures Valid() && allreduceWork == 0
      ensures ok <==> old(allreduceWork) > 0
      ensures ok ==> Held() == AfterSync(outer, old(Held()), averaged, commit)
      ensures |Held().global| == |params| == |old(Live())|
      ensures ok ==> Live() == LiveAfterSync(Held().global, old(Live()), alpha, commit)
      ensures ok && commit ==>
                && outerState == outer(old(outerState), old(Held().global), averaged).0
                && Held().global == outer(old(outerState), old(Held().global), averaged).1
                && forall i :: 0 <= i < |params| ==>
                     Live()[i] == Held().global[i] + alpha * (old(Live())[i] - Held().global[i])
      ensures ok && !commit ==> Held() == old(Held()) && Live() == Held().global
      ensures !ok ==> Held() == old(Held()) && Live() == old(Live())
    {
      hide AfterSync, LiveAfterSync, Data, KeepsLength;
      ok := allreduceWork > 0;
      if ok {
        Synchronize(averaged, commit);
        SyncMeans(outer, old(Held()), averaged, old(Live()), alpha, commit);
      }
    }

    method Synchronize(averaged: seq<real>, commit: bool)
      requires Valid() && allreduceWork > 0 && |averaged| == |params|
      modifies this`outerState, this`localParameters, this`grads, this`allreduceWork
      modifies params, originalParameters, grads
      ensures Valid() && allreduceWork == 0
      ensures Held() == AfterSync(outer, old(Held()), averaged, commit)
      ensures |Held().global| == |params|
      ensures Live() == LiveAfterSync(Held().global, old(Live()), alpha, commit)
    {
      ghost var trained, was := Live(), Held();
      Wait(averaged);
      SaveAndRestore();
      Finish(trained, was, averaged, commit);
    }

    method Finish(ghost trained: seq<real>, ghost was: Saved<S>, ghost averaged: seq<real>, commit: bool)
      requires Valid() && allreduceWork == 0
      requires |grads| == |params| && Apart(grads, params) && Data(grads) == averaged
      requires |localParameters| == |params|
      requires Apart(localParameters, params) && Apart(localParameters, originalParameters)
      requires Data(localParameters) == trained && Held() == was && Live() == was.global
      modifies this`outerState, this`grads, this`localParameters, params, originalParameters
      ensures Valid() && allreduceWork == 0
      ensures Held() == AfterSync(outer, was, averaged, commit)
      ensures |Held().global| == |params|
      ensures Live() == LiveAfterSync(Held().global, trained, alpha, commit)
    {
      hide KeepsLength, Data, LerpOne;
      if commit {
        Commit(trained, was, averaged);
      }
      localParameters := [];
    }

    method SaveAndRestore()
      requires Valid() && allreduceWork == 0 && |grads| == |params| && Apart(grads, params)
      modifies this`localParameters, params
      ensures Valid() && |localParameters| == |params|
      ensures Apart(localParameters, params) && Apart(localParameters, originalParameters)
      ensures Data(localParameters) == old(Live()) && Data(grads) == old(Data(grads))
      ensures Live() == Held().global && Held() == old(Held())
    {
      hide KeepsLength, Data;
      localParameters := Clone(params, id);
      RestoreParameters();
    }

    method RestoreParameters()
      requires Valid()
      modifies params
      ensures Live() == Held().global && Held() == old(Held())
    {
      CopyAll(params, originalParameters);
    }

    /** From restored parameters: outer step, save, merge with what was trained. */
    method Commit(ghost trained: seq<real>, ghost was: Saved<S>, ghost averaged: seq<real>)
      requires Valid() && allreduceWork == 0
      requires |grads| == |params| && Apart(grads, params) && Data(grads) == averaged
      requires |localParameters| == |params|
      requires Apart(localParameters, params) && Apart(localParameters, originalParameters)
      requires Data(localParameters) == trained && Held() == was && Live() == was.global
      modifies this`outerState, this`grads, params, originalParameters
      ensures Valid() && allreduceWork == 0
      ensures Held() == AfterSync(outer, was, averaged, true)
      ensures |Held().global| == |params|
      ensures Live() == Lerp(Held().global, trained, alpha)
    {
      StepAndSave();
      MergeParameters();
    }

    method StepAndSave()
      requires Valid() && allreduceWork == 0
      requires |grads| == |params| && Apart(grads, params)
      requires Apart(localParameters, params) && Apart(localParameters, originalParameters)
      modifies this`outerState, this`grads, params, originalParameters
      ensures Valid() && allreduceWork == 0
      ensures outerState == outer(old(outerState), old(Live()), old(Data(grads))).0
      ensures Live() == Held().global == outer(old(outerState), old(Live()), old(Data(grads))).1
      ensures Data(localParameters) == old(Data(localParameters))
    {
      hide KeepsLength;
      OuterStep();
      assert Data(localParameters) == old(Data(localParameters));
      grads := [];
      CopyAll(originalParameters, params);
    }

    /** The fragment's part of a recovered checkpoint. */
    method Load(saved: Saved<S>)
      requires Valid() && |saved.global| == |params|
      modifies this`outerState, originalParameters
      ensures Valid() && Held() == saved && Live() == old(Live())
    {
      for i := 0 to |originalParameters|
        invariant forall j :: 0 <= j < i ==> originalParameters[j].data == saved.global[j]
        invariant forall j :: 0 <= j < |params| ==> params[j].data == old(params[j].data)
      {
        originalParameters[i].data := saved.global[i];
      }
      outerState := saved.state;
      assert Live() == old(Live());
      assert Data(originalParameters) == saved.global;
    }
  }

  // ----- The hook after every inner step

  class DiLoCo<S(!new)> {
    const config: Config
    const fragments: seq<Fragment<S>>
    var localStep: nat
    var managerStep: nat

    function Progress(): Progress
      reads this
    {
      DiLoCoSchedule.Progress(localStep, managerStep)
    }

    ghost function Elements(): (r: set<object>)
      reads fragments
    {
      (set i, j | 0 <= i < |fragments| && 0 <= j < |fragments[i].params| :: fragments[i].params[j])
      + (set i, j | 0 <= i < |fragments| && 0 <= j < |fragments[i].originalParameters| ::
           fragments[i].originalParameters[j])
      + (set i, j | 0 <= i < |fragments| && 0 <= j < |fragments[i].grads| :: fragments[i].grads[j])
    }

    ghost predicate Separate()
      reads fragments
    {
      && |fragments| == config.n
      && (forall i :: 0 <= i < |fragments| ==> fragments[i].Valid() && fragments[i].id == i)
    }

    ghost function AllHeld(): (r: seq<Saved<S>>)
      reads fragments, Elements()
      ensures |r| == |fragments| && forall i :: 0 <= i < |r| ==> r[i] == fragments[i].Held()
    {
      seq(|fragments|, i requires 0 <= i < |fragments| reads fragments, Elements() => fragments[i].Held())
    }

    ghost function Outers(): (r: seq<Outer<S>>)
      ensures |r| == |fragments|
    {
      seq(|fragments|, i requires 0 <= i < |fragments| => fragments[i].outer)
    }

    /** Only fragment `busy` has all-reduces in flight, or none if it is not a fragment. */
    ghost predicate InFlight(busy: nat)
      reads fragments
    {
      forall i :: 0 <= i < |fragments| ==>
                    fragments[i].allreduceWork == if i == busy then |fragments[i].params| else 0
    }

    /** All-reduces are in flight for the current fragment between its prepare and its sync, and for no other. */
    ghost predicate Valid()
      reads this, fragments
    {
      && Sound(config) && localStep < config.syncEvery && Separate()
      && InFlight(if Outstanding(config, Progress()) then managerStep % config.n else config.n)
    }

    /** The fragments' contents, except those of one fragment, are what they were. */
    twostate predicate OthersKept(f: nat)
      reads fragments, Elements()
    {
      forall i :: 0 <= i < |fragments| && i != f ==>
                    fragments[i].Held() == old(fragments[i].Held()) && fragments[i].Live() == old(fragments[i].Live())
    }

    method PrepareFragment(f: nat)
      requires Separate() && f < |fragments| && InFlight(|fragments|)
      modifies fragments[f]
      ensures Separate() && InFlight(f) && OthersKept(|fragments|)
      ensures fresh(fragments[f].grads)
    {
      hide AfterSync, LiveAfterSync, Distinct, KeepsLength, Data;
      fragments[f].PrepareSync();
    }

    method SyncFragment(f: nat, averaged: seq<real>, commit: bool) returns (ok: bool)
      requires Separate() && f < |fragments| && InFlight(f) && |averaged| == |fragments[f].params|
      modifies fragments[f], fragments[f].params, fragments[f].originalParameters, fragments[f].grads
      ensures ok <==> averaged != []
      ensures Separate() && InFlight(|fragments|) && OthersKept(if ok then f else |fragments|)
      ensures ok ==> Synced(f, averaged, commit)
    {
      hide AfterSync, LiveAfterSync, Distinct, KeepsLength, Data;
      ok := fragments[f].PerformSync(averaged, commit);
    }

    twostate predicate Synced(f: nat, averaged: seq<real>, commit: bool)
      reads fragments, Elements()
      requires f < |fragments|
    {
      var fragment := fragments[f];
      && fragment.Held() == AfterSync(fragment.outer, old(fragment.Held()), averaged, commit)
      && |fragment.Held().global| == |old(fragment.Live())|
      && fragment.Live() == LiveAfterSync(fragment.Held().global, old(fragment.Live()), fragment.alpha, commit)
    }

    /** The first half of the hook: count the step and, when it is time, prepare a fragment. */
    method Advance(quorumStep: nat)
      requires Valid()
      modifies this`localStep, this`managerStep, fragments
      ensures Separate() && OthersKept(|fragments|)
      ensures localStep == old(localStep) + 1
      ensures managerStep == if Preparing(config, old(Progress())) then quorumStep else old(managerStep)
      ensures InFlight(if Outstanding(config, Progress()) then managerStep % config.n else config.n)
      ensures forall i :: 0 <= i < |fragments| ==>
                fragments[i].grads == old(fragments[i].grads) || fresh(fragments[i].grads)
    {
      hide AfterSync, LiveAfterSync, Distinct, KeepsLength, Data;
      localStep := localStep + 1;
      if localStep == config.syncEvery - config.delay {
        managerStep := quorumStep;
        PrepareFragment(managerStep % config.n);
      }
    }

    /**
     * `x` and `averaged` are what the rest of the group contributes to this step: the quorum's step, the outcome of
     * the commit and the averaged pseudogradients.
     */
    method StepPostHook(x: Input, averaged: seq<real>) returns (ok: bool)
      requires Valid()
      requires |averaged| == |fragments[StepSeen(config, Progress(), x) % config.n].params|
      modifies this`localStep, this`managerStep
      modifies fragments, Elements()
      ensures ok <==> (Syncing(config, old(Progress())) ==> averaged != [])
      ensures ok ==> Valid() && Progress() == After(config, old(Progress()), x)
      ensures var f := StepSeen(config, old(Progress()), x) % config.n;
              if ok && Syncing(config, old(Progress())) then
                Synced(f, averaged, x.commit) && OthersKept(f)
              else
                OthersKept(|fragments|)
      ensures ok ==> AllHeld() == HookSaved(config, Outers(), old(Progress()), old(AllHeld()), x, averaged)
    {
      hide AfterSync, LiveAfterSync, Distinct, KeepsLength, Data, HookSaved;
      ghost var before := AllHeld();
      Advance(x.quorumStep);
      if localStep < config.syncEvery {
        HookSavesElementwise(config, Outers(), old(Progress()), before, AllHeld(), x, averaged);
        return true;
      }
      assert localStep == config.syncEvery;
      ok := SyncTurn(averaged, x.commit);
      if ok {
        HookSavesElementwise(config, Outers(), old(Progress()), before, AllHeld(), x, averaged);
      }
    }

    /** The second half of the hook. */
    method SyncTurn(averaged: seq<real>, commit: bool) returns (ok: bool)
      requires Sound(config) && Separate() && InFlight(managerStep % config.n)
      requires |averaged| == |fragments[managerStep % config.n].params|
      modifies this`localStep, this`managerStep
      modifies fragments, Elements()
      ensures ok <==> averaged != []
      ensures ok ==> Valid()
      ensures ok ==> Progress() == DiLoCoSchedule.Progress(0, if commit then old(managerStep) + 1 else old(managerStep))
      ensures ok ==> Synced(old(managerStep) % config.n, averaged, commit)
      ensures OthersKept(if ok then old(managerStep) % config.n else |fragments|)
    {
      hide AfterSync, LiveAfterSync, Distinct, KeepsLength, Data;
      ok := SyncFragment(managerStep % config.n, averaged, commit);
      if ok {
        StartOver(commit);
      }
    }

    /** The manager's step after its commit vote, and the next round of inner steps. */
    method StartOver(commit: bool)
      requires Separate() && InFlight(|fragments|) && Sound(config)
      modifies this`localStep, this`managerStep
      ensures Valid() && OthersKept(|fragments|)
      ensures Progress() == DiLoCoSchedule.Progress(0, if commit then old(managerStep) + 1 else old(managerStep))
    {
      if commit {
        managerStep := managerStep + 1;
      }
      localStep := 0;
    }
  }
}
