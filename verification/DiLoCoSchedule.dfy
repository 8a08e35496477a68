/** Which fragment DiLoCo prepares and synchronizes at each inner step. */
module DiLoCoSchedule {

  import opened Arithmetic

  /** `syncEvery` inner steps to a fragment's turn, of which the last `delay` overlap its all-reduce; `n` fragments. */
  datatype Config = Config(syncEvery: nat, delay: nat, n: nat)

  predicate Sound(c: Config) {
    c.n > 0 && c.delay < c.syncEvery
  }

  datatype SetupError =
    | NoFragments
    | WrongOptimizerCount
    | AsyncQuorum
    | TooManyFragments
    | UnevenFragments
    | DelayTooLong
    | BadAlpha

  datatype Setup = Ready(c: Config) | Refused(error: SetupError)

  /** What each refusal says is indeed so. */
  ghost predicate Wrong(error: SetupError, optimizers: nat, shared: bool, n: nat, asyncQuorum: bool, syncEvery: nat,
                        delay: nat, alpha: real)
  {
    match error
    case NoFragments => n == 0
    case WrongOptimizerCount => !shared && optimizers != n
    case AsyncQuorum => asyncQuorum
    case TooManyFragments => n > syncEvery
    case UnevenFragments => n > 0 && syncEvery % n != 0
    case DelayTooLong => n > 0 && delay >= syncEvery / n
    case BadAlpha => alpha < 0.0 || alpha > 1.0
  }

  /** The constructor's checks, in its order; without fragments the remainder divides by zero. */
  function Configure(optimizers: nat, shared: bool, n: nat, asyncQuorum: bool, syncEvery: nat, delay: nat,
                     alpha: real): (r: Setup)
    ensures r.Ready? ==> Sound(r.c) && r.c.n == n && r.c.syncEvery * n == syncEvery && 0.0 <= alpha <= 1.0
    ensures r.Ready? <==> && n > 0 && (shared || optimizers == n) && !asyncQuorum
                          && syncEvery >= n && syncEvery % n == 0 && delay < syncEvery / n && 0.0 <= alpha <= 1.0
    ensures r.Ready? ==> r.c.delay == delay
    ensures r.Refused? ==> Wrong(r.error, optimizers, shared, n, asyncQuorum, syncEvery, delay, alpha)
  {
    if !shared && optimizers != n then Refused(WrongOptimizerCount)
    else if asyncQuorum then Refused(AsyncQuorum)
    else if syncEvery < n then Refused(TooManyFragments)
    else if n == 0 then Refused(NoFragments)
    else if syncEvery % n != 0 then Refused(UnevenFragments)
    else if delay >= syncEvery / n then Refused(DelayTooLong)
    else if alpha < 0.0 || alpha > 1.0 then Refused(BadAlpha)
    else
      Divided(syncEvery, n);
      Ready(Config(syncEvery / n, delay, n))
  }

  /** Inner steps since the last synchronization, and the manager's step. */
  datatype Progress = Progress(localStep: nat, step: nat)

  /** What an inner step meets: the manager's step after its quorum (healing may raise it), and the commit outcome. */
  datatype Input = Input(quorumStep: nat, commit: bool)

  datatype Action = Prepare(fragment: nat) | Sync(fragment: nat, commit: bool)

  predicate Preparing(c: Config, p: Progress) {
    p.localStep + 1 == c.syncEvery - c.delay
  }

  predicate Syncing(c: Config, p: Progress) {
    p.localStep + 1 == c.syncEvery
  }

  function StepSeen(c: Config, p: Progress, x: Input): nat {
    if Preparing(c, p) then x.quorumStep else p.step
  }

  function After(c: Config, p: Progress, x: Input): Progress {
    var step := StepSeen(c, p, x);
    if Syncing(c, p) then
      Progress(0, if x.commit then step + 1 else step)
    else
      Progress(p.localStep + 1, step)
  }

  function Actions(c: Config, p: Progress, x: Input): seq<Action>
    requires c.n > 0
  {
    var fragment := StepSeen(c, p, x) % c.n;
    (if Preparing(c, p) then [Prepare(fragment)] else [])
    + (if Syncing(c, p) then [Sync(fragment, x.commit)] else [])
  }

  // ----- Runs, from just after a synchronization

  function Reached(c: Config, p: Progress, xs: seq<Input>): Progress {
    if xs == [] then p else After(c, Reached(c, p, xs[..|xs| - 1]), xs[|xs| - 1])
  }

  function Log(c: Config, p: Progress, xs: seq<Input>): seq<Action>
    requires c.n > 0
  {
    if xs == [] then [] else
      var before := xs[..|xs| - 1];
      Log(c, p, before) + Actions(c, Reached(c, p, before), xs[|xs| - 1])
  }

  /** Prepare, then sync the same fragment, then the next prepare. */
  ghost predicate Alternates(log: seq<Action>) {
    && (forall j :: 0 <= j < |log| ==> log[j].Prepare? == (j % 2 == 0))
    && (forall j :: 0 < j < |log| && j % 2 == 1 ==> log[j].fragment == log[j - 1].fragment)
  }

  /** A fragment is outstanding exactly between its prepare and its sync. */
  predicate Outstanding(c: Config, p: Progress) {
    c.syncEvery - c.delay <= p.localStep
  }

  /** In every run the local step stays in range, and prepares and syncs alternate on the same fragment. */
  lemma {:induction false} PrepareAndSyncAlternate(c: Config, step: nat, xs: seq<Input>)
    requires Sound(c)
    ensures var p, log := Reached(c, Progress(0, step), xs), Log(c, Progress(0, step), xs);
            && p.localStep < c.syncEvery
            && Alternates(log)
            && (|log| % 2 == 1 <==> Outstanding(c, p))
            && (Outstanding(c, p) ==> log[|log| - 1] == Prepare(p.step % c.n))
  {
    hide Alternates;
    LogStep(c, Progress(0, step), xs);
    if xs == [] {
      NothingAlternates();
    } else {
      var before := xs[..|xs| - 1];
      PrepareAndSyncAlternate(c, step, before);
      AlternatesOn(c, Log(c, Progress(0, step), before), Reached(c, Progress(0, step), before), xs[|xs| - 1]);
    }
  }

  lemma NothingAlternates()
    ensures Alternates([])
  {
  }

  lemma AlternatesOn(c: Config, log: seq<Action>, p: Progress, x: Input)
    requires Sound(c) && p.localStep < c.syncEvery && Alternates(log)
    requires |log| % 2 == 1 <==> Outstanding(c, p)
    requires Outstanding(c, p) ==> log[|log| - 1] == Prepare(p.step % c.n)
    ensures var q, more := After(c, p, x), log + Actions(c, p, x);
            && q.localStep < c.syncEvery && Alternates(more)
            && (|more| % 2 == 1 <==> Outstanding(c, q))
            && (Outstanding(c, q) ==> more[|more| - 1] == Prepare(q.step % c.n))
  {
  }

  function Prepares(log: seq<Action>): nat {
    if log == [] then 0 else Prepares(log[..|log| - 1]) + (if log[|log| - 1].Prepare? then 1 else 0)
  }

  lemma {:induction false} PreparesOfMore(log: seq<Action>, more: seq<Action>)
    ensures Prepares(log + more) == Prepares(log) + Prepares(more)
  {
    if more == [] {
      assert log + more == log;
    } else {
      PreparesOfMore(log, more[..|more| - 1]);
      assert (log + more)[..|log + more| - 1] == log + more[..|more| - 1];
    }
  }

  /** Everything is on time: after any number of inner steps there was one sync per whole `syncEvery` of them, the
      prepares are ahead of that by `delay` steps, and the local step counts the rest. */
  lemma {:induction false} SyncsAreOnTime(c: Config, step: nat, xs: seq<Input>)
    requires Sound(c)
    ensures var log := Log(c, Progress(0, step), xs);
            && Prepares(log) == (|xs| + c.delay) / c.syncEvery
            && |log| - Prepares(log) == |xs| / c.syncEvery
            && Reached(c, Progress(0, step), xs).localStep == |xs| % c.syncEvery
  {
    hide Actions, Log;
    LogStep(c, Progress(0, step), xs);
    if xs == [] {
      DivideBy(c.delay, c.syncEvery, 0, c.delay);
      DivideBy(0, c.syncEvery, 0, 0);
    } else {
      var before := xs[..|xs| - 1];
      SyncsAreOnTime(c, step, before);
      var p, x := Reached(c, Progress(0, step), before), xs[|xs| - 1];
      PreparesOfMore(Log(c, Progress(0, step), before), Actions(c, p, x));
      PreparesOfActions(c, p, x);
      NextQuotient(|before|, c.syncEvery);
      NextQuotient(|before| + c.delay, c.syncEvery);
      ShiftedRemainder(|before|, c.delay, c.syncEvery);
    }
  }

  lemma PreparesOfActions(c: Config, p: Progress, x: Input)
    requires Sound(c)
    ensures Prepares(Actions(c, p, x)) == if p.localStep + 1 == c.syncEvery - c.delay then 1 else 0
    ensures |Actions(c, p, x)| - Prepares(Actions(c, p, x)) == if p.localStep + 1 == c.syncEvery then 1 else 0
  {
    var fragment := StepSeen(c, p, x) % c.n;
    assert Prepares([Prepare(fragment)]) == 1 && Prepares([Sync(fragment, x.commit)]) == 0;
    PreparesOfMore(if Preparing(c, p) then [Prepare(fragment)] else [],
                   if Syncing(c, p) then [Sync(fragment, x.commit)] else []);
  }

  lemma NextQuotient(a: nat, n: nat)
    requires n > 0
    ensures (a + 1) / n == a / n + (if a % n == n - 1 then 1 else 0)
    ensures (a + 1) % n == if a % n == n - 1 then 0 else a % n + 1
  {
    Divided(a, n);
    if a % n == n - 1 {
      DivideBy(a + 1, n, a / n + 1, 0);
    } else {
      DivideBy(a + 1, n, a / n, a % n + 1);
    }
  }

  lemma ShiftedRemainder(a: nat, delay: nat, n: nat)
    requires delay < n
    ensures (a + delay) % n == n - 1 <==> a % n + 1 == n - delay
  {
    Divided(a, n);
    if a % n + delay < n {
      DivideBy(a + delay, n, a / n, a % n + delay);
    } else {
      DivideBy(a + delay, n, a / n + 1, a % n + delay - n);
    }
  }

  /** No quorum of the run moved the manager's step. */
  ghost predicate Steady(c: Config, p: Progress, xs: seq<Input>) {
    forall m :: 0 <= m < |xs| ==> SteadyAt(c, p, xs, m)
  }

  ghost predicate SteadyAt(c: Config, p: Progress, xs: seq<Input>, m: nat)
    requires m < |xs|
  {
    var q := Reached(c, p, xs[..m]);
    Preparing(c, q) ==> xs[m].quorumStep == q.step
  }

  lemma SteadyPrefix(c: Config, p: Progress, xs: seq<Input>)
    requires xs != [] && Steady(c, p, xs)
    ensures Steady(c, p, xs[..|xs| - 1])
    ensures SteadyAt(c, p, xs, |xs| - 1)
  {
    hide Reached, Preparing;
    var before := xs[..|xs| - 1];
    forall m | 0 <= m < |before|
      ensures SteadyAt(c, p, before, m)
    {
      assert SteadyAt(c, p, xs, m);
      assert before[..m] == xs[..m];
    }
  }

  /** The fragments whose synchronization committed, in order. */
  function Commits(log: seq<Action>): seq<nat> {
    if log == [] then [] else
      var last := log[|log| - 1];
      Commits(log[..|log| - 1]) + (if last.Sync? && last.commit then [last.fragment] else [])
  }

  lemma {:induction false} CommitsOfMore(log: seq<Action>, more: seq<Action>)
    ensures Commits(log + more) == Commits(log) + Commits(more)
  {
    if more == [] {
      assert log + more == log;
    } else {
      var init := more[..|more| - 1];
      CommitsOfMore(log, init);
      assert (log + more)[..|log + more| - 1] == log + init;
    }
  }

  /** Without jumps the committed fragments go round: each commit moves on to the next fragment. */
  lemma {:induction false} CommitsGoRound(c: Config, step: nat, xs: seq<Input>)
    requires Sound(c) && Steady(c, Progress(0, step), xs)
    ensures var commits := Commits(Log(c, Progress(0, step), xs));
            Reached(c, Progress(0, step), xs).step == step + |commits| && GoesRound(commits, step, c.n)
  {
    hide GoesRound, Actions, Log, Preparing, Syncing;
    LogStep(c, Progress(0, step), xs);
    if xs == [] {
      NoTurns(step, c.n);
    } else {
      var p, before := Progress(0, step), xs[..|xs| - 1];
      SteadyPrefix(c, p, xs);
      assert xs[..|xs| - 1] == before;
      CommitsGoRound(c, step, before);
      var actions := Actions(c, Reached(c, p, before), xs[|xs| - 1]);
      CommitsOfMore(Log(c, p, before), actions);
      CommitsOfActions(c, Reached(c, p, before), xs[|xs| - 1]);
      NextTurn(Commits(Log(c, p, before)), step, c.n);
      StepOfNext(c, p, xs);
    }
  }

  ghost predicate GoesRound(commits: seq<nat>, step: nat, n: nat)
    requires n > 0
  {
    forall i :: 0 <= i < |commits| ==> commits[i] == (step + i) % n
  }

  lemma NoTurns(step: nat, n: nat)
    requires n > 0
    ensures GoesRound([], step, n)
  {
  }

  lemma NextTurn(commits: seq<nat>, step: nat, n: nat)
    requires n > 0 && GoesRound(commits, step, n)
    ensures GoesRound(commits + [(step + |commits|) % n], step, n)
    ensures commits + [] == commits
  {
  }

  lemma LogStep(c: Config, p: Progress, xs: seq<Input>)
    requires c.n > 0
    ensures xs == [] ==> Log(c, p, xs) == [] && Reached(c, p, xs) == p
    ensures xs != [] ==>
              Log(c, p, xs) == Log(c, p, xs[..|xs| - 1])
                               + Actions(c, Reached(c, p, xs[..|xs| - 1]), xs[|xs| - 1])
  {
  }

  lemma StepOfNext(c: Config, p: Progress, xs: seq<Input>)
    requires xs != [] && SteadyAt(c, p, xs, |xs| - 1)
    ensures var q, x := Reached(c, p, xs[..|xs| - 1]), xs[|xs| - 1];
            && StepSeen(c, q, x) == q.step
            && Reached(c, p, xs).step == q.step + (if Syncing(c, q) && x.commit then 1 else 0)
  {
  }

  lemma CommitsOfActions(c: Config, p: Progress, x: Input)
    requires Sound(c)
    ensures Commits(Actions(c, p, x)) == if Syncing(c, p) && x.commit then [StepSeen(c, p, x) % c.n] else []
  {
    var fragment := StepSeen(c, p, x) % c.n;
    assert Commits([Prepare(fragment)]) == [];
    assert Commits([Sync(fragment, x.commit)]) == if x.commit then [fragment] else [];
    CommitsOfMore(if Preparing(c, p) then [Prepare(fragment)] else [],
                  if Syncing(c, p) then [Sync(fragment, x.commit)] else []);
  }

  /** Any `n` commits in a row synchronize each of the `n` fragments exactly once. */
  lemma EachFragmentOnce(c: Config, step: nat, xs: seq<Input>, from: nat, fragment: nat)
    requires Sound(c) && Steady(c, Progress(0, step), xs) && fragment < c.n
    requires from + c.n <= |Commits(Log(c, Progress(0, step), xs))|
    ensures exists i :: OnlyTurn(Commits(Log(c, Progress(0, step), xs)), from, c.n, fragment, i)
  {
    var commits := Commits(Log(c, Progress(0, step), xs));
    CommitsGoRound(c, step, xs);
    var i := TurnOf(step + from, c.n, fragment);
    forall k | from <= k < from + c.n
      ensures commits[k] == fragment <==> k == from + i
    {
      SameTurn(step + from, c.n, fragment, i, k - from);
    }
    assert OnlyTurn(commits, from, c.n, fragment, from + i);
  }

  ghost predicate OnlyTurn(commits: seq<nat>, from: nat, n: nat, fragment: nat, i: nat)
    requires from + n <= |commits|
  {
    from <= i < from + n && forall k :: from <= k < from + n ==> (commits[k] == fragment <==> k == i)
  }

  lemma TurnOf(start: nat, n: nat, fragment: nat) returns (i: nat)
    requires fragment < n
    ensures i < n && (start + i) % n == fragment
  {
    var r := start % n;
    Divided(start, n);
    if r <= fragment {
      i := fragment - r;
      DivideBy(start + i, n, start / n, fragment);
    } else {
      i := fragment + n - r;
      DivideBy(start + i, n, start / n + 1, fragment);
    }
  }

  lemma SameTurn(start: nat, n: nat, fragment: nat, i: nat, k: nat)
    requires fragment < n && i < n && k < n && (start + i) % n == fragment
    ensures (start + k) % n == fragment <==> k == i
  {
    Divided(start + i, n);
    Divided(start + k, n);
    if (start + k) % n == fragment {
      var d := (start + k) / n - (start + i) / n;
      assert d * n == k - i by {
        assert ((start + k) / n) * n - ((start + i) / n) * n == d * n;
      }
      Outgrows(d, n);
    }
  }

  /** A failed commit prepares the same fragment again. */
  lemma {:induction false} FailedCommitRetries(c: Config, step: nat, xs: seq<Input>, j: nat)
    requires Sound(c) && Steady(c, Progress(0, step), xs)
    requires j + 1 < |Log(c, Progress(0, step), xs)|
    requires var action := Log(c, Progress(0, step), xs)[j]; action.Sync? && !action.commit
    ensures Log(c, Progress(0, step), xs)[j + 1] == Prepare(Log(c, Progress(0, step), xs)[j].fragment)
  {
    if xs != [] {
      var p, before := Progress(0, step), xs[..|xs| - 1];
      SteadyPrefix(c, p, xs);
      PrepareAndSyncAlternate(c, step, before);
      LastSync(c, step, before);
      if j + 1 < |Log(c, p, before)| {
        FailedCommitRetries(c, step, before, j);
      }
    }
  }

  /** Until the next prepare, the manager's step is what the last sync left. */
  lemma {:induction false} LastSync(c: Config, step: nat, xs: seq<Input>)
    requires Sound(c) && Steady(c, Progress(0, step), xs)
    ensures var p, log := Reached(c, Progress(0, step), xs), Log(c, Progress(0, step), xs);
            log != [] && log[|log| - 1].Sync? && !log[|log| - 1].commit
            ==>
            p.step % c.n == log[|log| - 1].fragment && !Outstanding(c, p)
  {
    if xs != [] {
      SteadyPrefix(c, Progress(0, step), xs);
      LastSync(c, step, xs[..|xs| - 1]);
      PrepareAndSyncAlternate(c, step, xs[..|xs| - 1]);
    }
  }

  /** What a replica works on depends only on its manager's step: replicas at one step handle one fragment. */
  lemma {:induction false} SameStepSameFragment(c: Config, s: nat, xs: seq<Input>, t: nat, ys: seq<Input>)
    requires Sound(c)
    requires Outstanding(c, Reached(c, Progress(0, s), xs)) && Outstanding(c, Reached(c, Progress(0, t), ys))
    requires Reached(c, Progress(0, s), xs).step == Reached(c, Progress(0, t), ys).step
    ensures var one, other := Log(c, Progress(0, s), xs), Log(c, Progress(0, t), ys);
            one != [] && other != [] && one[|one| - 1] == other[|other| - 1]
  {
    PrepareAndSyncAlternate(c, s, xs);
    PrepareAndSyncAlternate(c, t, ys);
  }
}
