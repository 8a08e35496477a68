/** The timed reader-writer lock: any number of threads, stepping in any order, giving up whenever they like. */
module RwLock {

  type Thread = nat

  /** Where a thread is. Each step out of a place is one atomic action on the lock's fields. */
  datatype Place =
    | Outside
      // reading
    | WantCounter          // waiting for `_num_r_lock`
    | Counting             // holds it; about to add itself
    | WantWriterLock       // first reader: waiting for `_w_lock`
    | Uncounting           // gave up; about to subtract itself
    | GivingUp             // about to release `_num_r_lock` and raise
    | Entering             // about to release `_num_r_lock` and read
    | Reading
      // done reading
    | Checking             // about to assert that there are readers
    | LeaveWantCounter
    | Leaving              // holds `_num_r_lock`; about to subtract itself
    | FreeingWriterLock    // last reader
    | LeaveFreeing         // about to release `_num_r_lock`
      // writing
    | WantToWrite
    | Writing

  datatype Action = Read | Write | Done | Go | TimeOut

  datatype State = State(wLock: bool, numRLock: bool, numR: int, at: map<Thread, Place>)

  const Start: State := State(false, false, 0, map[])

  function At(s: State, t: Thread): Place {
    if t in s.at then s.at[t] else Outside
  }

  function Put(s: State, t: Thread, place: Place): State {
    s.(at := s.at[t := place])
  }

  /** An action a thread can take now. A lock can be acquired only when free; a wait can always time out. */
  predicate Enabled(s: State, t: Thread, a: Action) {
    match At(s, t)
    case Outside => a.Read? || a.Write?
    case WantCounter => (a.Go? && !s.numRLock) || a.TimeOut?
    case WantWriterLock => (a.Go? && !s.wLock) || a.TimeOut?
    case WantToWrite => (a.Go? && !s.wLock) || a.TimeOut?
    case LeaveWantCounter => a.Go? && !s.numRLock
    case Reading => a.Done?
    case Writing => a.Done?
    case _ => a.Go?
  }

  function Next(s: State, t: Thread, a: Action): State
    requires Enabled(s, t, a)
  {
    match At(s, t)
    case Outside => Put(s, t, if a.Read? then WantCounter else WantToWrite)
    case WantCounter => if a.TimeOut? then Put(s, t, Outside) else Put(s.(numRLock := true), t, Counting)
    case Counting => Put(s.(numR := s.numR + 1), t, if s.numR + 1 == 1 then WantWriterLock else Entering)
    case WantWriterLock => if a.TimeOut? then Put(s, t, Uncounting) else Put(s.(wLock := true), t, Entering)
    case Uncounting => Put(s.(numR := s.numR - 1), t, GivingUp)
    case GivingUp => Put(s.(numRLock := false), t, Outside)
    case Entering => Put(s.(numRLock := false), t, Reading)
    case Reading => Put(s, t, Checking)
    case Checking => Put(s, t, LeaveWantCounter)
    case LeaveWantCounter => Put(s.(numRLock := true), t, Leaving)
    case Leaving => Put(s.(numR := s.numR - 1), t, if s.numR - 1 == 0 then FreeingWriterLock else LeaveFreeing)
    case FreeingWriterLock => Put(s.(wLock := false), t, LeaveFreeing)
    case LeaveFreeing => Put(s.(numRLock := false), t, Outside)
    case WantToWrite => if a.TimeOut? then Put(s, t, Outside) else Put(s.(wLock := true), t, Writing)
    case Writing => Put(s.(wLock := false), t, Outside)
  }

  ghost predicate Run(steps: seq<(Thread, Action)>)
    decreases |steps|, 0
  {
    steps == [] || (Run(steps[..|steps| - 1])
                    && Enabled(After(steps[..|steps| - 1]), steps[|steps| - 1].0, steps[|steps| - 1].1))
  }

  ghost function After(steps: seq<(Thread, Action)>): State
    requires Run(steps)
    decreases |steps|, 1
  {
    if steps == [] then Start else
      Next(After(steps[..|steps| - 1]), steps[|steps| - 1].0, steps[|steps| - 1].1)
  }

  // ----- What the fields say about where the threads are

  predicate HoldsCounter(p: Place) {
    p in {Counting, WantWriterLock, Uncounting, GivingUp, Entering, Leaving, FreeingWriterLock, LeaveFreeing}
  }

  predicate Counted(p: Place) {
    p in {WantWriterLock, Uncounting, Entering, Reading, Checking, LeaveWantCounter, Leaving}
  }

  /** A reader for which `_w_lock` is held. */
  predicate Inside(p: Place) {
    p in {Entering, Reading, Checking, LeaveWantCounter, Leaving, FreeingWriterLock}
  }

  ghost function CountedThreads(s: State): set<Thread> {
    set t | t in s.at && Counted(s.at[t])
  }

  /** The counter lock is held by exactly the one thread that is where it is held. */
  ghost predicate CounterInv(s: State) {
    && (s.numRLock <==> exists t :: HoldsCounter(At(s, t)))
    && (forall t, u :: HoldsCounter(At(s, t)) && HoldsCounter(At(s, u)) ==> t == u)
  }

  ghost predicate NeedsWriterLock(s: State, t: Thread) {
    At(s, t) == Writing || Inside(At(s, t))
  }

  /** The writer lock is held by one writer or for the readers inside. */
  ghost predicate WriterInv(s: State) {
    && (s.wLock <==> exists t :: NeedsWriterLock(s, t))
    && (forall t, u :: At(s, t) == Writing && NeedsWriterLock(s, u) ==> t == u)
    && (forall t, u :: At(s, t) == FreeingWriterLock && Inside(At(s, u)) ==> t == u)
    && (forall t, u :: At(s, t) in {WantWriterLock, Uncounting} ==> !Inside(At(s, u)))
  }

  ghost predicate Inv(s: State) {
    CounterInv(s) && WriterInv(s) && s.numR == |CountedThreads(s)|
  }

  // ----- Counting

  lemma CountUpdated(s: State, t: Thread, place: Place)
    ensures |CountedThreads(Put(s, t, place))|
            == |CountedThreads(s)| - (if Counted(At(s, t)) then 1 else 0) + (if Counted(place) then 1 else 0)
  {
    var before, after := CountedThreads(s), CountedThreads(Put(s, t, place));
    forall u
      ensures u in after <==> if u == t then Counted(place) else u in before
    {
    }
    assert t in before <==> Counted(At(s, t));
    WithOrWithout(before, after, t);
  }

  lemma WithOrWithout(before: set<Thread>, after: set<Thread>, t: Thread)
    requires forall u :: u != t ==> (u in after <==> u in before)
    ensures |after| == |before| - (if t in before then 1 else 0) + (if t in after then 1 else 0)
  {
    assert after - {t} == before - {t};
    assert after == if t in after then (before - {t}) + {t} else before - {t};
  }

  lemma CountedMember(s: State, t: Thread)
    requires Counted(At(s, t))
    ensures |CountedThreads(s)| >= 1
    ensures |CountedThreads(s)| == 1 ==> forall u :: Counted(At(s, u)) ==> u == t
  {
    var rest := CountedThreads(s) - {t};
    assert t in CountedThreads(s);
    if |CountedThreads(s)| == 1 {
      assert |rest| == 0;
      forall u | Counted(At(s, u))
        ensures u == t
      {
        assert u in CountedThreads(s);
        assert u != t ==> u in rest;
      }
    }
  }

  lemma NobodyCounted(s: State)
    requires |CountedThreads(s)| == 0
    ensures forall u :: !Counted(At(s, u))
  {
    forall u
      ensures !Counted(At(s, u))
    {
      assert Counted(At(s, u)) ==> u in CountedThreads(s);
    }
  }

  lemma CountKept(s: State, t: Thread, a: Action)
    requires Enabled(s, t, a) && s.numR == |CountedThreads(s)|
    ensures Next(s, t, a).numR == |CountedThreads(Next(s, t, a))|
  {
    CountUpdated(s, t, At(Next(s, t, a), t));
    assert CountedThreads(Next(s, t, a)) == CountedThreads(Put(s, t, At(Next(s, t, a), t)));
  }

  lemma OthersStay(s: State, t: Thread, a: Action)
    requires Enabled(s, t, a)
    ensures forall u :: u != t ==> At(Next(s, t, a), u) == At(s, u)
  {
  }

  lemma CounterInvKept(s: State, t: Thread, a: Action)
    requires CounterInv(s) && Enabled(s, t, a)
    ensures CounterInv(Next(s, t, a))
  {
    OthersStay(s, t, a);
    var q := Next(s, t, a);
    assert HoldsCounter(At(s, t)) && HoldsCounter(At(q, t)) ==> q.numRLock == s.numRLock;
    assert q.numRLock ==> exists u :: HoldsCounter(At(q, u)) by {
      if q.numRLock && !HoldsCounter(At(q, t)) {
        var u :| HoldsCounter(At(s, u));
        assert HoldsCounter(At(q, u));
      }
    }
  }

  /** A reader that finds others counted finds them inside; one that finds none finds nobody inside. */
  lemma WhoIsCounted(s: State, t: Thread) returns (u: Thread)
    requires Inv(s) && At(s, t) == Counting
    ensures s.numR >= 0
    ensures s.numR == 0 ==> forall v :: !Inside(At(s, v))
    ensures s.numR > 0 ==> u != t && Inside(At(s, u)) && At(s, u) != FreeingWriterLock && NeedsWriterLock(s, u)
    ensures forall v :: At(s, v) !in {WantWriterLock, Uncounting, FreeingWriterLock}
  {
    u := t;
    if s.numR == 0 {
      NobodyCounted(s);
      forall v
        ensures !Inside(At(s, v))
      {
        assert !Counted(At(s, v));
        assert HoldsCounter(At(s, v)) ==> v == t;
      }
    } else {
      u :| u in CountedThreads(s);
      assert HoldsCounter(At(s, u)) ==> u == t;
    }
  }

  lemma WhoIsLeft(s: State, t: Thread) returns (u: Thread)
    requires Inv(s) && At(s, t) == Leaving
    ensures s.numR >= 1
    ensures s.numR == 1 ==> forall v :: Inside(At(s, v)) ==> v == t
    ensures s.numR > 1 ==> u != t && Inside(At(s, u)) && NeedsWriterLock(s, u)
    ensures forall v :: v != t ==> At(s, v) !in {WantWriterLock, Uncounting, FreeingWriterLock}
  {
    u := t;
    CountedMember(s, t);
    forall v | v != t
      ensures At(s, v) !in {WantWriterLock, Uncounting, FreeingWriterLock}
    {
      assert HoldsCounter(At(s, v)) ==> v == t;
    }
    if s.numR > 1 {
      var rest := CountedThreads(s) - {t};
      assert rest != {} by {
        assert |rest| == |CountedThreads(s)| - 1;
      }
      u :| u in rest;
    }
  }

  lemma WriterLockKept(s: State, t: Thread, a: Action)
    requires Inv(s) && Enabled(s, t, a)
    ensures Next(s, t, a).wLock <==> exists u :: NeedsWriterLock(Next(s, t, a), u)
  {
    OthersStay(s, t, a);
    var q := Next(s, t, a);
    var v := t;
    if At(s, t) == Leaving {
      v := WhoIsLeft(s, t);
    } else if s.wLock && !NeedsWriterLock(s, t) {
      v :| NeedsWriterLock(s, v);
    }
    if At(s, t) == Counting {
      var w := WhoIsCounted(s, t);
    }
    assert q.wLock ==> NeedsWriterLock(q, t) || NeedsWriterLock(q, v) by {
      assert NeedsWriterLock(s, v) && v != t ==> NeedsWriterLock(q, v);
    }
    forall u | NeedsWriterLock(q, u)
      ensures q.wLock
    {
      assert u != t ==> NeedsWriterLock(s, u);
      assert NeedsWriterLock(s, t) || !NeedsWriterLock(s, t);
      assert NeedsWriterLock(s, v) ==> s.wLock;
    }
  }

  lemma WriterStaysAlone(s: State, t: Thread, a: Action, x: Thread, u: Thread)
    requires Inv(s) && Enabled(s, t, a)
    requires At(Next(s, t, a), x) == Writing && NeedsWriterLock(Next(s, t, a), u)
    ensures x == u
  {
    OthersStay(s, t, a);
    assert u != t ==> NeedsWriterLock(s, u);
    if x != t {
      assert At(s, x) == Writing && NeedsWriterLock(s, x);
      assert !NeedsWriterLock(s, t);
      if u == t && At(s, t) == Counting {
        var v := WhoIsCounted(s, t);
      }
    }
  }

  lemma ExclusionKept(s: State, t: Thread, a: Action)
    requires Inv(s) && Enabled(s, t, a)
    ensures WriterInv(Next(s, t, a))
  {
    OthersStay(s, t, a);
    WriterLockKept(s, t, a);
    var q := Next(s, t, a);
    forall x, u | At(q, x) == Writing && NeedsWriterLock(q, u)
      ensures x == u
    {
      WriterStaysAlone(s, t, a, x, u);
    }
    ReadersStayInside(s, t, a);
  }

  lemma ReadersStayInside(s: State, t: Thread, a: Action)
    requires Inv(s) && Enabled(s, t, a)
    ensures var q := Next(s, t, a);
            && (forall x, u :: At(q, x) == FreeingWriterLock && Inside(At(q, u)) ==> x == u)
            && (forall x, u :: At(q, x) in {WantWriterLock, Uncounting} ==> !Inside(At(q, u)))
  {
    OthersStay(s, t, a);
    if At(s, t) == Counting {
      var v := WhoIsCounted(s, t);
    } else if At(s, t) == Leaving {
      var v := WhoIsLeft(s, t);
    } else {
      MovedWithin(s, t, a);
    }
  }

  /** Other moves neither let a reader in nor make one wait, except that a first reader goes in or gives up. */
  lemma MovedWithin(s: State, t: Thread, a: Action)
    requires Enabled(s, t, a) && At(s, t) !in {Counting, Leaving}
    ensures var p := At(Next(s, t, a), t);
            && (p == Uncounting ==> At(s, t) == WantWriterLock)
            && p !in {WantWriterLock, FreeingWriterLock}
            && (Inside(p) ==> Inside(At(s, t)) || At(s, t) == WantWriterLock)
  {
  }

  lemma StepKeepsInv(s: State, t: Thread, a: Action)
    requires Inv(s) && Enabled(s, t, a)
    ensures Inv(Next(s, t, a))
  {
    CounterInvKept(s, t, a);
    ExclusionKept(s, t, a);
    CountKept(s, t, a);
  }

  lemma {:induction false} RunsKeepInv(steps: seq<(Thread, Action)>)
    requires Run(steps)
    ensures Inv(After(steps))
  {
    if steps == [] {
      assert CountedThreads(Start) == {};
    } else {
      var before, step := steps[..|steps| - 1], steps[|steps| - 1];
      RunsKeepInv(before);
      StepKeepsInv(After(before), step.0, step.1);
    }
  }

  // ----- What the lock is for

  /** Never a reader and a writer together, nor two writers. */
  lemma ReadersAndWritersExclude(steps: seq<(Thread, Action)>, t: Thread, u: Thread)
    requires Run(steps) && At(After(steps), t) == Writing
    ensures At(After(steps), u) != Reading
    ensures At(After(steps), u) == Writing ==> t == u
  {
    RunsKeepInv(steps);
    assert At(After(steps), u) in {Reading, Writing} ==> NeedsWriterLock(After(steps), u);
  }

  /** A releasing reader always finds itself counted, so its assertion holds. */
  lemma ReleaseFindsReaders(steps: seq<(Thread, Action)>, t: Thread)
    requires Run(steps) && At(After(steps), t) in {Reading, Checking, LeaveWantCounter, Leaving}
    ensures After(steps).numR > 0
  {
    RunsKeepInv(steps);
    CountedMember(After(steps), t);
  }

  /** Every release, which would raise on an unlocked lock, is of a lock that is held. */
  lemma ReleasesAreOfHeldLocks(steps: seq<(Thread, Action)>, t: Thread)
    requires Run(steps)
    ensures At(After(steps), t) in {GivingUp, Entering, LeaveFreeing} ==> After(steps).numRLock
    ensures At(After(steps), t) in {FreeingWriterLock, Writing} ==> After(steps).wLock
  {
    RunsKeepInv(steps);
    assert At(After(steps), t) in {FreeingWriterLock, Writing} ==> NeedsWriterLock(After(steps), t);
  }

  /** While a first reader waits for the writer lock, nobody is reading or on the way out. */
  lemma NoReleaserBehindAWaitingReader(steps: seq<(Thread, Action)>, t: Thread, u: Thread)
    requires Run(steps) && At(After(steps), t) == WantWriterLock
    ensures At(After(steps), u) !in {Reading, Checking, LeaveWantCounter, Leaving, FreeingWriterLock, LeaveFreeing}
  {
    RunsKeepInv(steps);
  }

  /** So whoever holds the counter lock against a releasing reader can take its next step at once. */
  lemma ReleaserIsNeverStuck(steps: seq<(Thread, Action)>, t: Thread)
    requires Run(steps) && At(After(steps), t) == LeaveWantCounter && !Enabled(After(steps), t, Go)
    ensures exists u :: HoldsCounter(At(After(steps), u)) && Enabled(After(steps), u, Go)
  {
    RunsKeepInv(steps);
    var s := After(steps);
    var u :| HoldsCounter(At(s, u));
    assert Enabled(s, u, Go);
  }

  /** How many steps of its own a thread can take at most until it gives up the counter lock. */
  function StepsLeft(p: Place): nat {
    match p
    case Counting => 4
    case WantWriterLock => 3
    case Uncounting => 2
    case GivingUp => 1
    case Entering => 1
    case Leaving => 3
    case FreeingWriterLock => 2
    case LeaveFreeing => 1
    case _ => 0
  }

  /** Thread `u` holds the counter lock from the end of `steps` on, all through `more`. */
  ghost predicate KeepsCounter(steps: seq<(Thread, Action)>, more: seq<(Thread, Action)>, u: Thread) {
    && Run(steps + more) && HoldsCounter(At(After(steps + more), u))
    && (more == [] || KeepsCounter(steps, more[..|more| - 1], u))
  }

  function Taken(more: seq<(Thread, Action)>, u: Thread): nat {
    if more == [] then 0 else Taken(more[..|more| - 1], u) + (if more[|more| - 1].0 == u then 1 else 0)
  }

  lemma HoldersStep(s: State, u: Thread, t: Thread, v: Thread, a: Action)
    requires Inv(s) && HoldsCounter(At(s, u)) && Enabled(s, v, a) && HoldsCounter(At(Next(s, v, a), u))
    ensures StepsLeft(At(Next(s, v, a), u)) <= StepsLeft(At(s, u)) - (if v == u then 1 else 0)
    ensures At(s, t) == LeaveWantCounter ==> At(Next(s, v, a), t) == LeaveWantCounter
  {
    OthersStay(s, v, a);
    assert s.numRLock;
  }

  lemma HolderCanStep(s: State, u: Thread, t: Thread)
    requires Inv(s) && HoldsCounter(At(s, u))
    ensures Enabled(s, u, Go) || Enabled(s, u, TimeOut)
    ensures At(s, t) == LeaveWantCounter ==> Enabled(s, u, Go)
  {
    assert At(s, u) == WantWriterLock ==> !Inside(At(s, t));
  }

  /**
   * Whoever holds the counter lock gives it up within four steps of its own, whatever the others do in between. While
   * it holds it, it can always take its next step, if need be by timing out, and each brings it closer to the release.
   * If a releasing reader waits for it, it need not even time out.
   */
  lemma {:induction false} HolderLetsGo(
      steps: seq<(Thread, Action)>, more: seq<(Thread, Action)>, u: Thread, t: Thread)
    requires Run(steps) && HoldsCounter(At(After(steps), u)) && KeepsCounter(steps, more, u)
    ensures Taken(more, u) + StepsLeft(At(After(steps + more), u)) <= StepsLeft(At(After(steps), u)) <= 4
    ensures StepsLeft(At(After(steps + more), u)) > 0
    ensures Enabled(After(steps + more), u, Go) || Enabled(After(steps + more), u, TimeOut)
    ensures At(After(steps), t) == LeaveWantCounter ==>
              At(After(steps + more), t) == LeaveWantCounter && Enabled(After(steps + more), u, Go)
  {
    hide Inv, Next, Enabled, At;
    RunsKeepInv(steps + more);
    HolderCanStep(After(steps + more), u, t);
    if more == [] {
      assert steps + more == steps;
    } else {
      var before, step := more[..|more| - 1], more[|more| - 1];
      assert (steps + more)[..|steps + more| - 1] == steps + before;
      HolderLetsGo(steps, before, u, t);
      RunsKeepInv(steps + before);
      HoldersStep(After(steps + before), u, t, step.0, step.1);
    }
  }

  /** The lock's fields are determined by where the threads are, so a thread back outside has left no trace. */
  lemma FieldsFollowFromPlaces(steps: seq<(Thread, Action)>, others: seq<(Thread, Action)>)
    requires Run(steps) && Run(others)
    requires forall t :: At(After(steps), t) == At(After(others), t)
    ensures After(steps).wLock == After(others).wLock
    ensures After(steps).numRLock == After(others).numRLock
    ensures After(steps).numR == After(others).numR
  {
    RunsKeepInv(steps);
    RunsKeepInv(others);
    var s, q := After(steps), After(others);
    SamePlaces(s, q);
  }

  lemma SamePlaces(s: State, q: State)
    requires Inv(s) && Inv(q) && forall t :: At(s, t) == At(q, t)
    ensures s.wLock == q.wLock && s.numRLock == q.numRLock && s.numR == q.numR
  {
    assert forall t :: NeedsWriterLock(s, t) == NeedsWriterLock(q, t);
    assert CountedThreads(s) == CountedThreads(q) by {
      forall t
        ensures t in CountedThreads(s) <==> t in CountedThreads(q)
      {
        assert t in CountedThreads(s) <==> Counted(At(s, t));
        assert t in CountedThreads(q) <==> Counted(At(q, t));
      }
    }
  }

  // ----- Failed acquires

  /** Outside, or in an acquire that has not succeeded. */
  predicate Trying(p: Place) {
    p in {Outside, WantCounter, Counting, WantWriterLock, Uncounting, GivingUp, WantToWrite}
  }

  /** None of the acquires of `t` succeeds in `more`, which goes on after `steps`. */
  ghost predicate OnlyTries(steps: seq<(Thread, Action)>, more: seq<(Thread, Action)>, t: Thread) {
    && Run(steps + more) && Trying(At(After(steps + more), t))
    && (more == [] || OnlyTries(steps, more[..|more| - 1], t))
  }

  function Without(more: seq<(Thread, Action)>, t: Thread): seq<(Thread, Action)> {
    if more == [] then [] else
      Without(more[..|more| - 1], t) + (if more[|more| - 1].0 == t then [] else [more[|more| - 1]])
  }

  /** `q` is `s` without `t`: without the counter lock if `t` holds it, and without its count. */
  ghost predicate SameWithout(s: State, q: State, t: Thread) {
    && q.wLock == s.wLock
    && q.numRLock == (s.numRLock && !HoldsCounter(At(s, t)))
    && q.numR == s.numR - (if Counted(At(s, t)) then 1 else 0)
    && At(q, t) == Outside
    && forall u :: u != t ==> At(q, u) == At(s, u)
  }

  lemma NothingToTake(s: State, t: Thread)
    requires At(s, t) == Outside
    ensures SameWithout(s, s, t)
  {
  }

  lemma TryingChangesNothing(s: State, q: State, t: Thread, a: Action)
    requires SameWithout(s, q, t) && Enabled(s, t, a)
    requires Trying(At(s, t)) && Trying(At(Next(s, t, a), t))
    ensures SameWithout(Next(s, t, a), q, t)
  {
  }

  lemma OthersStepAlike(s: State, q: State, t: Thread, u: Thread, a: Action)
    requires Inv(s) && SameWithout(s, q, t) && Trying(At(s, t)) && u != t && Enabled(s, u, a)
    ensures Enabled(q, u, a) && SameWithout(Next(s, u, a), Next(q, u, a), t)
  {
    OthersStay(s, u, a);
    assert HoldsCounter(At(s, t)) ==> s.numRLock;
    assert At(q, u) == At(s, u) && Enabled(q, u, a);
    OthersStay(q, u, a);
    if HoldsCounter(At(s, u)) {
      assert !HoldsCounter(At(s, t)) && !Counted(At(s, t));
      assert q.numR == s.numR && q.numRLock == s.numRLock;
    }
    assert At(Next(q, u, a), u) == At(Next(s, u, a), u);
  }

  /** Acquires that fail, at either lock and however they interleave with what the others do meanwhile, can be deleted
      from the run: what is left is a run, and the others end up where they were. */
  lemma {:induction false} FailedAcquiresCanBeDeleted(
      steps: seq<(Thread, Action)>, more: seq<(Thread, Action)>, t: Thread)
    requires Run(steps) && At(After(steps), t) == Outside && OnlyTries(steps, more, t)
    ensures Run(steps + Without(more, t))
    ensures SameWithout(After(steps + more), After(steps + Without(more, t)), t)
  {
    hide Inv, Next, Enabled, Trying, SameWithout, At;
    if more == [] {
      assert steps + more == steps && steps + Without(more, t) == steps;
      RunsKeepInv(steps);
      NothingToTake(After(steps), t);
    } else {
      var before, step := more[..|more| - 1], more[|more| - 1];
      FailedAcquiresCanBeDeleted(steps, before, t);
      RunsKeepInv(steps + before);
      assert (steps + more)[..|steps + more| - 1] == steps + before;
      var s, q := After(steps + before), After(steps + Without(before, t));
      if step.0 == t {
        assert Without(more, t) == Without(before, t);
        TryingChangesNothing(s, q, t, step.1);
      } else {
        OthersStepAlike(s, q, t, step.0, step.1);
        var left := steps + Without(more, t);
        assert left[..|left| - 1] == steps + Without(before, t) && left[|left| - 1] == step;
      }
    }
  }

  /** So once a thread that acquired nothing is outside again, the fields and all places are as if it had never
      tried. */
  lemma FailedAcquireLeavesNoTrace(steps: seq<(Thread, Action)>, more: seq<(Thread, Action)>, t: Thread)
    requires Run(steps) && At(After(steps), t) == Outside && OnlyTries(steps, more, t)
    requires At(After(steps + more), t) == Outside
    ensures Run(steps + Without(more, t))
    ensures var s, q := After(steps + more), After(steps + Without(more, t));
            && s.wLock == q.wLock && s.numRLock == q.numRLock && s.numR == q.numR
            && forall u :: At(s, u) == At(q, u)
  {
    FailedAcquiresCanBeDeleted(steps, more, t);
  }

  // ----- Acquires that succeed

  ghost predicate NeverTimesOut(more: seq<(Thread, Action)>, t: Thread) {
    forall j :: 0 <= j < |more| ==> more[j] != (t, TimeOut)
  }

  lemma TryingGoesOn(s: State, t: Thread, a: Action)
    requires Enabled(s, t, a) && a != TimeOut
    requires At(s, t) in {Outside, WantCounter, Counting, WantWriterLock, WantToWrite}
    ensures At(Next(s, t, a), t) in {WantCounter, Counting, WantWriterLock, WantToWrite, Entering, Writing}
  {
  }

  /** An acquire fails only by a timeout of its own: as long as a thread that has not got in took no timeout, it is
      outside only if it has not taken a step. */
  lemma {:induction false} FailureNeedsATimeOut(
      steps: seq<(Thread, Action)>, more: seq<(Thread, Action)>, t: Thread)
    requires Run(steps) && At(After(steps), t) == Outside && OnlyTries(steps, more, t) && NeverTimesOut(more, t)
    ensures At(After(steps + more), t) in {Outside, WantCounter, Counting, WantWriterLock, WantToWrite}
    ensures At(After(steps + more), t) == Outside <==> Taken(more, t) == 0
  {
    hide Next, Enabled, At;
    if more == [] {
      assert steps + more == steps;
    } else {
      var before, step := more[..|more| - 1], more[|more| - 1];
      FailureNeedsATimeOut(steps, before, t);
      assert (steps + more)[..|steps + more| - 1] == steps + before;
      if step.0 == t {
        assert more[|more| - 1] != (t, TimeOut);
        TryingGoesOn(After(steps + before), t, step.1);
      } else {
        OthersStay(After(steps + before), step.0, step.1);
      }
    }
  }

  /** A thread's own actions in a row. */
  function Solo(t: Thread, actions: seq<Action>): seq<(Thread, Action)> {
    if actions == [] then [] else Solo(t, actions[..|actions| - 1]) + [(t, actions[|actions| - 1])]
  }

  lemma SoloStep(steps: seq<(Thread, Action)>, t: Thread, actions: seq<Action>, a: Action)
    requires Run(steps + Solo(t, actions)) && Enabled(After(steps + Solo(t, actions)), t, a)
    ensures Run(steps + Solo(t, actions + [a]))
    ensures After(steps + Solo(t, actions + [a])) == Next(After(steps + Solo(t, actions)), t, a)
  {
    assert (actions + [a])[..|actions|] == actions;
    var all := steps + Solo(t, actions + [a]);
    assert all[..|all| - 1] == steps + Solo(t, actions) && all[|all| - 1] == (t, a);
  }

  /** Thread `t` alone takes `actions`, and gets from one state to another. */
  ghost predicate Leads(steps: seq<(Thread, Action)>, t: Thread, actions: seq<Action>, place: Place, wLock: bool,
                        numRLock: bool, numR: int)
  {
    && Run(steps + Solo(t, actions))
    && var q := After(steps + Solo(t, actions));
       && At(q, t) == place && q.wLock == wLock && q.numRLock == numRLock && q.numR == numR
  }

  lemma NoActionLeads(steps: seq<(Thread, Action)>, t: Thread)
    requires Run(steps)
    ensures var s := After(steps);
            Leads(steps, t, [], At(s, t), s.wLock, s.numRLock, s.numR)
  {
    assert steps + Solo(t, []) == steps;
  }

  /** A state that looks to `t` as it does where `actions` lead. */
  function Seen(t: Thread, place: Place, wLock: bool, numRLock: bool, numR: int): State {
    State(wLock, numRLock, numR, map[t := place])
  }

  lemma LeadsOn(steps: seq<(Thread, Action)>, t: Thread, actions: seq<Action>, a: Action, s: State)
    requires Leads(steps, t, actions, At(s, t), s.wLock, s.numRLock, s.numR) && Enabled(s, t, a)
    ensures var q := Next(s, t, a);
            Leads(steps, t, actions + [a], At(q, t), q.wLock, q.numRLock, q.numR)
  {
    SoloStep(steps, t, actions, a);
  }

  /** A writer that finds the writer lock free takes it and is in; done, it gives it back. */
  lemma WriterGetsIn(steps: seq<(Thread, Action)>, t: Thread)
    requires Run(steps)
    ensures var s := After(steps);
            && (At(s, t) == Outside && !s.wLock ==> Leads(steps, t, [Write] + [Go], Writing, true, s.numRLock, s.numR))
            && (At(s, t) == WantToWrite && !s.wLock ==> Leads(steps, t, [] + [Go], Writing, true, s.numRLock, s.numR))
            && (At(s, t) == Writing ==> Leads(steps, t, [] + [Done], Outside, false, s.numRLock, s.numR))
  {
    var s := After(steps);
    NoActionLeads(steps, t);
    hide Leads, After, Run;
    if At(s, t) == Outside && !s.wLock {
      LeadsOn(steps, t, [], Write, Seen(t, Outside, false, s.numRLock, s.numR));
      assert [] + [Write] == [Write];
      LeadsOn(steps, t, [Write], Go, Seen(t, WantToWrite, false, s.numRLock, s.numR));
    } else if At(s, t) == WantToWrite && !s.wLock {
      LeadsOn(steps, t, [], Go, Seen(t, WantToWrite, false, s.numRLock, s.numR));
    } else if At(s, t) == Writing {
      LeadsOn(steps, t, [], Done, Seen(t, Writing, s.wLock, s.numRLock, s.numR));
    }
  }

  /** A reader on its own, with the counter lock free and no writer inside, gets in: counted, with the writer lock held
      and the counter lock free again. */
  lemma ReaderGetsIn(steps: seq<(Thread, Action)>, t: Thread)
    requires Run(steps) && At(After(steps), t) == Outside && !After(steps).numRLock
    requires After(steps).wLock ==> After(steps).numR > 0
    ensures var s := After(steps);
            var actions := [Read] + [Go] + [Go] + [Go];
            Leads(steps, t, if s.numR == 0 then actions + [Go] else actions, Reading, true, false, s.numR + 1)
  {
    var s := After(steps);
    RunsKeepInv(steps);
    NoActionLeads(steps, t);
    CountIsNotNegative(s);
    if s.numR > 0 { WriterLockOfReaders(s); }
    hide Leads, After, Run, Inv;
    var r, w := s.numR, s.wLock;
    assert [] + [Read] == [Read];
    LeadsOn(steps, t, [], Read, Seen(t, Outside, w, false, r));
    LeadsOn(steps, t, [Read], Go, Seen(t, WantCounter, w, false, r));
    LeadsOn(steps, t, [Read] + [Go], Go, Seen(t, Counting, w, true, r));
    if r == 0 {
      LeadsOn(steps, t, [Read] + [Go] + [Go], Go, Seen(t, WantWriterLock, false, true, 1));
      LeadsOn(steps, t, [Read] + [Go] + [Go] + [Go], Go, Seen(t, Entering, true, true, 1));
    } else {
      LeadsOn(steps, t, [Read] + [Go] + [Go], Go, Seen(t, Entering, true, true, r + 1));
    }
  }

  lemma CountIsNotNegative(s: State)
    requires Inv(s)
    ensures s.numR >= 0
  {
  }

  lemma WriterLockOfReaders(s: State)
    requires Inv(s) && s.numR > 0 && !s.numRLock
    ensures s.wLock
  {
    var t :| t in CountedThreads(s);
    assert !HoldsCounter(At(s, t));
    assert NeedsWriterLock(s, t);
  }

  lemma ReaderLeaves(steps: seq<(Thread, Action)>, t: Thread, r: int)
    requires Leads(steps, t, [], Reading, true, false, r)
    ensures Leads(steps, t, [Done] + [Go] + [Go], Leaving, true, true, r)
  {
    hide Leads;
    assert [] + [Done] == [Done];
    LeadsOn(steps, t, [], Done, Seen(t, Reading, true, false, r));
    LeadsOn(steps, t, [Done], Go, Seen(t, Checking, true, false, r));
    LeadsOn(steps, t, [Done] + [Go], Go, Seen(t, LeaveWantCounter, true, false, r));
  }

  /** A reader that is done, with the counter lock free, gets out: the last one gives the writer lock back. */
  lemma ReaderGetsOut(steps: seq<(Thread, Action)>, t: Thread)
    requires Run(steps) && At(After(steps), t) == Reading && !After(steps).numRLock
    ensures var s := After(steps);
            var actions := [Done] + [Go] + [Go] + [Go] + [Go];
            Leads(steps, t, if s.numR == 1 then actions + [Go] else actions, Outside, s.numR > 1, false, s.numR - 1)
  {
    var s := After(steps);
    RunsKeepInv(steps);
    NoActionLeads(steps, t);
    CountedMember(s, t);
    WriterLockOfReaders(s);
    hide Leads, After, Run, Inv;
    var r := s.numR;
    ReaderLeaves(steps, t, r);
    LeaverFrees(steps, t, [Done] + [Go] + [Go], r);
  }

  lemma LeaverFrees(steps: seq<(Thread, Action)>, t: Thread, actions: seq<Action>, r: int)
    requires Leads(steps, t, actions, Leaving, true, true, r) && r > 0
    ensures var rest := actions + [Go] + [Go];
            Leads(steps, t, if r == 1 then rest + [Go] else rest, Outside, r > 1, false, r - 1)
  {
    hide Leads;
    LeadsOn(steps, t, actions, Go, Seen(t, Leaving, true, true, r));
    if r == 1 {
      LeadsOn(steps, t, actions + [Go], Go, Seen(t, FreeingWriterLock, true, true, 0));
      LeadsOn(steps, t, actions + [Go] + [Go], Go, Seen(t, LeaveFreeing, false, true, 0));
    } else {
      LeadsOn(steps, t, actions + [Go], Go, Seen(t, LeaveFreeing, true, true, r - 1));
    }
  }

  // ----- The lock itself, one atomic action at a time

  class RWLock {
    var wLock: bool
    var numRLock: bool
    var numR: int
    /** Where each thread's call has come to. */
    var at: map<Thread, Place>

    function Now(): State
      reads this
    {
      State(wLock, numRLock, numR, at)
    }

    constructor ()
      ensures Now() == Start && Inv(Now())
    {
      wLock, numRLock, numR, at := false, false, 0, map[];
      assert CountedThreads(Start) == {};
    }

    method Step(t: Thread, a: Action)
      requires Inv(Now()) && Enabled(Now(), t, a)
      modifies this
      ensures Now() == Next(old(Now()), t, a) && Inv(Now())
    {
      StepKeepsInv(Now(), t, a);
      var place: Place;
      match At(Now(), t) {
        case Outside =>
          place := if a.Read? then WantCounter else WantToWrite;
        case WantCounter =>
          if a.TimeOut? {
            place := Outside;
          } else {
            numRLock := true;
            place := Counting;
          }
        case Counting =>
          numR := numR + 1;
          place := if numR == 1 then WantWriterLock else Entering;
        case WantWriterLock =>
          if a.TimeOut? {
            place := Uncounting;
          } else {
            wLock := true;
            place := Entering;
          }
        case Uncounting =>
          numR := numR - 1;
          place := GivingUp;
        case GivingUp =>
          numRLock := false;
          place := Outside;
        case Entering =>
          numRLock := false;
          place := Reading;
        case Reading =>
          place := Checking;
        case Checking =>
          CountedMember(Now(), t);
          assert numR > 0;
          place := LeaveWantCounter;
        case LeaveWantCounter =>
          numRLock := true;
          place := Leaving;
        case Leaving =>
          numR := numR - 1;
          place := if numR == 0 then FreeingWriterLock else LeaveFreeing;
        case FreeingWriterLock =>
          wLock := false;
          place := LeaveFreeing;
        case LeaveFreeing =>
          numRLock := false;
          place := Outside;
        case WantToWrite =>
          if a.TimeOut? {
            place := Outside;
          } else {
            wLock := true;
            place := Writing;
          }
        case Writing =>
          wLock := false;
          place := Outside;
      }
      at := at[t := place];
    }
  }
}
