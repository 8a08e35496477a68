/** The lazy callback chain of a managed work: a linked list of futures, built up by `then` and run on waiting. */
module ManagedWork {

  import opened Protocol

  /** A callback yields a value or raises. */
  type Callback<!V> = V -> Option<V>

  /** A future behind a node: none yet, running, completed with a value, or completed with an error. */
  datatype Future<+V> = Unset | Running | Done(value: V) | Broken

  predicate Complete<V>(fut: Future<V>) {
    fut.Done? || fut.Broken?
  }

  /** The Manager reports an error and completes the wrapped future with the default instead. */
  function Wrapped<V>(fut: Future<V>, default: V): Future<V> {
    if fut.Broken? then Done(default) else fut
  }

  class ManagedFuture<V> {
    var next: ManagedFuture?<V>
    var callback: Option<Callback<V>>
    var fut: Future<V>

    constructor ()
      ensures next == null && callback == None && fut == Unset
    {
      next, callback, fut := null, None, Unset;
    }
  }

  /** The callbacks that run, what they made of the value, what they were given, and the last node's future. */
  datatype Turn<V> = Turn(value: V, inputs: seq<V>, fut: Future<V>, failed: bool)

  /** One more node. Its callback runs on the value so far if there is one and the future before is good. The first node
      behind the head is wrapped. */
  function Turned<V>(t: Turn<V>, callback: Option<Callback<V>>, first: bool): Turn<V> {
    var runs := t.fut.Done? && callback.Some?;
    var result := if runs then callback.value(t.value) else None;
    var fut := if result.Some? then Done(result.value) else Broken;
    Turn(if result.Some? then result.value else t.value,
         if runs then t.inputs + [t.value] else t.inputs,
         if first then Wrapped(fut, t.value) else fut,
         t.failed || (first && fut.Broken?))
  }

  /** What becomes of callbacks behind complete work. */
  function Ran<V>(callbacks: seq<Option<Callback<V>>>, work: Future<V>, v: V): Turn<V> {
    if callbacks == [] then Turn(v, [], work, false) else
      var n := |callbacks| - 1;
      Turned(Ran(callbacks[..n], work, v), callbacks[n], n == 0)
  }

  /** Each callback on the result of the one before, if all are there and none raises. */
  function Fold<V>(callbacks: seq<Option<Callback<V>>>, v: V): Option<V> {
    if callbacks == [] then Some(v) else
      var n := |callbacks| - 1;
      var before := Fold(callbacks[..n], v);
      if before.Some? && callbacks[n].Some? then callbacks[n].value(before.value) else None
  }

  function Repeated<V>(f: Option<Callback<V>>, n: nat): (r: seq<Option<Callback<V>>>)
    ensures |r| == n
  {
    seq(n, _ => f)
  }

  lemma RanStep<V>(callbacks: seq<Option<Callback<V>>>, work: Future<V>, v: V, i: nat)
    ensures Ran([], work, v) == Turn(v, [], work, false)
    ensures i < |callbacks| ==>
              Ran(callbacks[..i + 1], work, v) == Turned(Ran(callbacks[..i], work, v), callbacks[i], i == 0)
  {
    if i < |callbacks| {
      assert callbacks[..i + 1][..i] == callbacks[..i];
    }
  }

  lemma {:induction false} RanIsComplete<V>(callbacks: seq<Option<Callback<V>>>, work: Future<V>, v: V)
    requires Complete(work)
    ensures Complete(Ran(callbacks, work, v).fut)
  {
    if callbacks != [] {
      RanIsComplete(callbacks[..|callbacks| - 1], work, v);
    }
  }

  /** What the rest of the callbacks starts from: the first one's result, or the default if it failed. */
  function Begun<V>(callback: Option<Callback<V>>, work: Future<V>, v: V): V {
    if work.Done? && callback.Some? && callback.value(v).Some? then callback.value(v).value else v
  }

  predicate FirstSucceeds<V>(callback: Option<Callback<V>>, work: Future<V>, v: V) {
    work.Done? && callback.Some? && callback.value(v).Some?
  }

  /** An error of the first callback, or of the work, is reported and replaced by the default. From there on the rest is
      a fold: the chain ends well exactly if none of the rest is missing or raises, and then with the fold's value. */
  lemma {:induction false} RestIsAFold<V>(callbacks: seq<Option<Callback<V>>>, work: Future<V>, v: V)
    requires callbacks != [] && Complete(work)
    ensures var r := Ran(callbacks, work, v);
            var rest := Fold(callbacks[1..], Begun(callbacks[0], work, v));
            && (r.failed <==> !FirstSucceeds(callbacks[0], work, v))
            && Complete(r.fut) && (r.fut.Done? <==> rest.Some?)
            && (rest.Some? ==> r.value == rest.value && r.fut == Done(rest.value))
  {
    var n := |callbacks| - 1;
    if n == 0 {
      RanStep(callbacks, work, v, 0);
      assert callbacks[..1] == callbacks && callbacks[..0] == [];
    } else {
      RestIsAFold(callbacks[..n], work, v);
      assert callbacks[..n][1..] == callbacks[1..][..n - 1];
    }
  }

  /** Over good work and without an error every callback runs once, in order, and the chain ends with the whole fold. */
  lemma {:induction false} GoodChainsFold<V>(callbacks: seq<Option<Callback<V>>>, work: Future<V>, v: V)
    requires work.Done? && Fold(callbacks, v).Some?
    ensures var r := Ran(callbacks, work, v);
            && !r.failed && r.fut.Done? && r.value == Fold(callbacks, v).value && |r.inputs| == |callbacks|
            && forall i :: 0 <= i < |callbacks| ==> Fold(callbacks[..i], v) == Some(r.inputs[i])
  {
    if callbacks != [] {
      var n := |callbacks| - 1;
      GoodChainsFold(callbacks[..n], work, v);
      forall i | 0 <= i < |callbacks|
        ensures Fold(callbacks[..i], v) == Some(Ran(callbacks, work, v).inputs[i])
      {
        if i < n { assert callbacks[..n][..i] == callbacks[..i]; }
      }
    }
  }

  /** Delayed callbacks that look at a node without one: the first error is replaced, a second one is not. */
  lemma {:induction false} NoneToRun<V>(n: nat, work: Future<V>, v: V)
    requires n > 0 && Complete(work)
    ensures var r := Ran(Repeated<V>(None, n), work, v);
            r.value == v && r.inputs == [] && r.failed && (r.fut.Done? <==> n == 1)
  {
    var cs := Repeated<V>(None, n);
    RanStep(cs, work, v, n - 1);
    assert cs[..n] == cs;
    if n > 1 {
      NoneToRun(n - 1, work, v);
      assert cs[..n - 1] == Repeated(None, n - 1);
    } else {
      assert cs[..0] == [];
    }
  }

  ghost function CallbacksOf<V>(nodes: seq<ManagedFuture<V>>, n: nat): (r: seq<Option<Callback<V>>>)
    requires n <= |nodes|
    reads nodes`callback
    ensures |r| == n && forall i :: 0 <= i < n ==> r[i] == nodes[i].callback
  {
    if n == 0 then [] else CallbacksOf(nodes, n - 1) + [nodes[n - 1].callback]
  }

  class Work<V> {
    /** The underlying work's own future. */
    var work: Future<V>
    var value: V
    var head: ManagedFuture<V>
    var tail: ManagedFuture<V>
    var isFutureCallbackSet: bool
    /** The nodes whose callbacks the underlying future still has to run, and the node that all these refer to. */
    var waiting: seq<ManagedFuture<V>>
    var current: ManagedFuture<V>
    /** An error was reported to the Manager. */
    var failed: bool
    /** The nodes from head to tail, and what callbacks have been given so far. */
    ghost var chain: seq<ManagedFuture<V>>
    ghost var inputs: seq<V>

    ghost predicate Valid()
      reads this`chain, this`head, this`tail, chain`next, chain`callback
    {
      && chain != [] && head == chain[0] && tail == chain[|chain| - 1]
      && (forall i, j :: 0 <= i < j < |chain| ==> chain[i] != chain[j])
      && (forall i :: 0 <= i < |chain| - 1 ==> chain[i].next == chain[i + 1] && chain[i].callback.Some?)
      && tail.next == null && tail.callback == None
    }

    /** What is known of the futures: once built, a tail that was added later has none, and the others are complete
        as soon as the work is. */
    ghost predicate Built()
      reads this, head, tail, waiting
    {
      && work != Unset
      && (!isFutureCallbackSet ==> waiting == [])
      && (isFutureCallbackSet ==>
            && head.fut == work
            && (tail != current ==> tail.fut.Unset?)
            && (tail == head ==> current == head && waiting == [])
            && (tail == current != head && waiting == [] ==> Complete(tail.fut)))
      && (waiting != [] ==>
            && work == Running && current == waiting[|waiting| - 1] && head !in waiting
            && (forall i, j :: 0 <= i < j < |waiting| ==> waiting[i] != waiting[j])
            && forall i :: 0 <= i < |waiting| ==> waiting[i].fut == Running)
    }

    ghost function Callbacks(): (r: seq<Option<Callback<V>>>)
      requires Valid()
      reads this`chain, this`head, this`tail, chain`next, chain`callback
      ensures |r| == |chain| - 1 && forall i :: 0 <= i < |r| ==> r[i] == chain[i].callback
    {
      CallbacksOf(chain, |chain| - 1)
    }

    constructor (work: Future<V>, value: V)
      requires work != Unset
      ensures Valid() && Built() && fresh(head) && chain == [head] && this.work == work && this.value == value
      ensures !isFutureCallbackSet && inputs == [] && !failed && waiting == []
    {
      var node := new ManagedFuture<V>();
      this.work, this.value := work, value;
      head, tail, current := node, node, node;
      isFutureCallbackSet, waiting, failed := false, [], false;
      chain, inputs := [node], [];
    }

    /**
     * `then` on the `i`-th future of the chain: a new tail behind it. On the tail that appends; on an earlier future
     * it drops the callbacks from there on.
     */
    method Then(node: ManagedFuture<V>, f: Callback<V>, ghost i: nat) returns (added: ManagedFuture<V>)
      requires Valid() && Built() && i < |chain| && node == chain[i]
      modifies this`tail, this`chain, node`next, node`callback
      ensures Valid() && Built() && fresh(added) && tail == added && chain == old(chain)[..i + 1] + [added]
      ensures Callbacks() == old(Callbacks())[..i] + [Some(f)]
      ensures added.fut == Unset
    {
      hide CallbacksOf;
      node.callback := Some(f);
      added := new ManagedFuture<V>();
      node.next := added;
      tail := added;
      chain := chain[..i + 1] + [added];
    }

    /**
     * Builds the futures behind the chain, once. If the underlying work is complete, each callback runs as it is
     * attached. Otherwise they are left for later, and all of them refer to whichever node the loop ends on.
     */
    method SetFutureCallback()
      requires Valid() && Built()
      modifies this`value, this`isFutureCallbackSet, this`waiting, this`current, this`failed, this`inputs, chain`fut
      ensures Valid() && Built() && isFutureCallbackSet && Callbacks() == old(Callbacks())
      ensures old(isFutureCallbackSet) ==>
                && value == old(value) && inputs == old(inputs) && failed == old(failed)
                && waiting == old(waiting) && current == old(current) && tail.fut == old(tail.fut)
      ensures !old(isFutureCallbackSet) && work != Running ==>
                HasRun(Ran(Callbacks(), work, old(value)), old(inputs), old(failed)) && waiting == []
                && tail.fut == Ran(Callbacks(), work, old(value)).fut
      ensures !old(isFutureCallbackSet) && work == Running ==>
                value == old(value) && inputs == old(inputs) && failed == old(failed) && waiting == chain[1..]
      ensures !old(isFutureCallbackSet) ==> current == tail
    {
      hide CallbacksOf, Ran;
      if !isFutureCallbackSet {
        AttachAll();
        if work != Running {
          RanIsComplete(Callbacks(), work, old(value));
        }
        isFutureCallbackSet := true;
      }
    }

    /** What `r` says ran, after what ran before. */
    ghost predicate HasRun(r: Turn<V>, given: seq<V>, hadFailed: bool)
      reads this`value, this`inputs, this`failed
    {
      value == r.value && inputs == given + r.inputs && (failed <==> hadFailed || r.failed)
    }

    /** Where the loop is after `i` turns. */
    ghost predicate Attached(i: nat, start: V, given: seq<V>, hadFailed: bool)
      requires Valid()
      reads this, head, tail, chain
    {
      && i < |chain| && work != Unset && head.fut == work
      && (work != Running ==>
            var r := Ran(Callbacks()[..i], work, start);
            chain[i].fut == r.fut && waiting == [] && HasRun(r, given, hadFailed))
      && (work == Running ==>
            && value == start && inputs == given && failed == hadFailed && waiting == chain[1..i + 1]
            && forall j :: 0 <= j <= i ==> chain[j].fut == Running)
    }

    method AttachAll()
      requires Valid() && waiting == [] && work != Unset
      modifies this`value, this`waiting, this`current, this`failed, this`inputs, chain`fut
      ensures Valid() && Callbacks() == old(Callbacks()) && current == tail && head.fut == work
      ensures work != Running ==>
                HasRun(Ran(Callbacks(), work, old(value)), old(inputs), old(failed)) && waiting == []
                && tail.fut == Ran(Callbacks(), work, old(value)).fut
      ensures work == Running ==>
                && value == old(value) && inputs == old(inputs) && failed == old(failed) && waiting == chain[1..]
                && forall j :: 0 <= j < |chain| ==> chain[j].fut == Running
    {
      hide CallbacksOf, Ran, Attached, HasRun;
      ghost var start, given := value, inputs;
      head.fut := work;
      NoneAttached();
      var managedFut, i := head, 0;
      while managedFut.next != null
        invariant Valid() && Callbacks() == old(Callbacks())
        invariant 0 <= i < |chain| && managedFut == chain[i] && Attached(i, start, given, old(failed))
        decreases |chain| - i
        modifies this`value, this`waiting, this`failed, this`inputs, chain`fut
      {
        managedFut := AttachNext(managedFut, i, start, given, old(failed));
        i := i + 1;
      }
      EndOfChain(i);
      AllAttached(start, given, old(failed));
      current := managedFut;
    }

    lemma NoneAttached()
      requires Valid() && waiting == [] && work != Unset && head.fut == work
      ensures Attached(0, value, inputs, failed)
    {
      hide CallbacksOf;
      assert Callbacks()[..0] == [];
    }

    lemma AllAttached(start: V, given: seq<V>, hadFailed: bool)
      requires Valid() && Attached(|chain| - 1, start, given, hadFailed)
      ensures head.fut == work
      ensures work != Running ==>
                HasRun(Ran(Callbacks(), work, start), given, hadFailed) && waiting == []
                && tail.fut == Ran(Callbacks(), work, start).fut
      ensures work == Running ==>
                && value == start && inputs == given && failed == hadFailed && waiting == chain[1..]
                && forall j :: 0 <= j < |chain| ==> chain[j].fut == Running
    {
      hide CallbacksOf, Ran;
      assert Callbacks()[..|Callbacks()|] == Callbacks();
    }

    method AttachNext(managedFut: ManagedFuture<V>, i: nat, ghost start: V, ghost given: seq<V>, ghost hadFailed: bool)
      returns (after: ManagedFuture<V>)
      requires Valid() && i < |chain| && managedFut == chain[i] && managedFut.next != null
      requires Attached(i, start, given, hadFailed)
      modifies this`value, this`waiting, this`failed, this`inputs, chain`fut
      ensures Valid() && Callbacks() == old(Callbacks()) && i + 1 < |chain| && after == chain[i + 1]
      ensures Attached(i + 1, start, given, hadFailed)
    {
      hide CallbacksOf, Ran, Valid;
      EndOfChain(i);
      RanStep(Callbacks(), work, start, i);
      if work != Running {
        RanIsComplete(Callbacks()[..i], work, start);
      }
      after := Attach(managedFut, i);
      assert waiting == chain[1..i + 1] + [after] ==> waiting == chain[1..i + 2];
    }

    lemma EndOfChain(i: nat)
      requires Valid() && i < |chain|
      ensures chain[i].next == null <==> i == |chain| - 1
      ensures i < |chain| - 1 ==> chain[i].next == chain[i + 1] && chain[i].callback.Some?
      ensures head == chain[0] && tail == chain[|chain| - 1]
    {
      assert i < |chain| - 1 ==> chain[i].next == chain[i + 1];
    }

    /** One turn of the loop: attach a callback and move on. The node behind the head is wrapped. */
    method Attach(managedFut: ManagedFuture<V>, i: nat) returns (after: ManagedFuture<V>)
      requires Valid() && i < |chain| - 1 && managedFut == chain[i] && managedFut.fut != Unset
      modifies this`value, this`waiting, this`failed, this`inputs, chain`fut
      ensures Valid() && Callbacks() == old(Callbacks()) && after == chain[i + 1]
      ensures forall j :: 0 <= j < |chain| && j != i + 1 ==> chain[j].fut == old(chain[j].fut)
      ensures old(managedFut.fut) != Running ==>
                && Turn(value, inputs, after.fut, failed)
                   == Turned(Turn(old(value), old(inputs), old(managedFut.fut), old(failed)), Callbacks()[i], i == 0)
                && waiting == old(waiting)
      ensures old(managedFut.fut) == Running ==>
                && value == old(value) && inputs == old(inputs) && failed == old(failed)
                && waiting == old(waiting) + [after] && after.fut == Running
    {
      hide CallbacksOf;
      EndOfChain(i);
      after := managedFut.next;
      if managedFut.fut == Running {
        waiting := waiting + [after];
        after.fut := Running;
      } else {
        after.fut := RunOne(managedFut.fut, managedFut.callback, value, i == 0);
      }
    }

    /** One callback: an error of the first one is reported and replaced by the default. */
    method RunOne(parent: Future<V>, callback: Option<Callback<V>>, default: V, first: bool) returns (fut: Future<V>)
      requires first ==> default == value
      modifies this`failed, this`value, this`inputs
      ensures Turn(value, inputs, fut, failed)
              == Turned(Turn(old(value), old(inputs), parent, old(failed)), callback, first)
    {
      fut := Broken;
      if parent.Done? && callback.Some? {
        inputs := inputs + [value];
        var result := callback.value(value);
        if result.Some? {
          value := result.value;
          fut := Done(value);
        }
      }
      if first {
        failed := failed || fut.Broken?;
        fut := Wrapped(fut, default);
      }
    }

    /**
     * Waiting for the work first, which then ends as `outcome` if it was running, then building the chain, then waiting
     * for the tail. An error is reported and makes the wait return false.
     */
    method Wait(outcome: Future<V>) returns (ok: bool)
      requires Valid() && Built() && Complete(outcome)
      modifies this`work, this`value, this`isFutureCallbackSet, this`waiting, this`current, this`failed, this`inputs
      modifies chain`fut, waiting`fut
      ensures Valid() && Built() && waiting == [] && Callbacks() == old(Callbacks())
      ensures work == (if old(work) == Running then outcome else old(work))
      ensures old(isFutureCallbackSet) ==> current == old(current)
      // failed work
      ensures work.Broken? ==> !ok && failed && isFutureCallbackSet == old(isFutureCallbackSet)
      // the first wait
      ensures work.Done? && !old(isFutureCallbackSet) ==>
                var r := Ran(Callbacks(), work, old(value));
                && isFutureCallbackSet && HasRun(r, old(inputs), old(failed) || !ok) && (ok <==> r.fut.Done?)
      ensures work.Done? && !old(isFutureCallbackSet) && Fold(old(Callbacks()), old(value)).Some? ==>
                && ok && failed == old(failed) && value == Fold(old(Callbacks()), old(value)).value
      // the chain was built before, and nothing is left to run
      ensures old(waiting) == [] && (old(isFutureCallbackSet) || work.Broken?) ==>
                value == old(value) && inputs == old(inputs)
      ensures work.Done? && old(isFutureCallbackSet) && old(waiting) == [] ==>
                && (ok <==> |chain| == 1 || old(tail.fut).Done?)
                && (failed <==> old(failed) || !ok)
      // the chain was built before the work was complete
      ensures old(waiting) != [] ==>
                var r := Ran(Repeated(old(current.callback), |old(waiting)|), work, old(value));
                && HasRun(r, old(inputs), old(failed) || !ok)
                && (work.Done? ==> (ok <==> tail == current && r.fut.Done?))
    {
      hide CallbacksOf, Ran, Repeated, Fold, Built;
      if outcome.Done? && Fold(Callbacks(), value).Some? {
        GoodChainsFold(Callbacks(), outcome, value);
      }
      if work.Done? && Fold(Callbacks(), value).Some? {
        GoodChainsFold(Callbacks(), work, value);
      }
      LateStep(current.callback, outcome, value, 0);
      BuiltFacts();
      if work == Running {
        WorkCompletes(outcome);
      }
      ok := WaitForTail();
    }

    lemma BuiltFacts()
      requires Valid() && Built()
      ensures waiting != [] ==> work == Running && isFutureCallbackSet && tail != head
      ensures work != Unset && (tail == head <==> |chain| == 1)
      ensures isFutureCallbackSet && tail == head ==> tail.fut == work
    {
    }

    /** The rest of the wait, once the work is complete. */
    method WaitForTail() returns (ok: bool)
      requires Valid() && Built() && Complete(work) && waiting == []
      modifies this`value, this`isFutureCallbackSet, this`waiting, this`current, this`failed, this`inputs, chain`fut
      ensures Valid() && Built() && waiting == [] && Callbacks() == old(Callbacks())
      ensures work.Broken? ==>
                && !ok && failed && isFutureCallbackSet == old(isFutureCallbackSet) && current == old(current)
                && value == old(value) && inputs == old(inputs)
      ensures work.Done? && !old(isFutureCallbackSet) ==>
                var r := Ran(Callbacks(), work, old(value));
                && isFutureCallbackSet && HasRun(r, old(inputs), old(failed) || !ok) && (ok <==> r.fut.Done?)
      ensures work.Done? && old(isFutureCallbackSet) ==>
                && value == old(value) && inputs == old(inputs) && current == old(current)
                && (ok <==> old(tail.fut).Done?) && (failed <==> old(failed) || !ok)
    {
      hide CallbacksOf, Ran;
      if work.Broken? {
        failed := true;
        return false;
      }
      SetFutureCallback();
      ok := tail.fut.Done?;
      if !ok {
        failed := true;
      }
    }

    /**
     * The work completes. Every delayed callback looks at the node the loop ended on: it fails if that has no callback,
     * and one attached there since is run for each of them.
     */
    method WorkCompletes(outcome: Future<V>)
      requires Valid() && Built() && work == Running && Complete(outcome)
      modifies this`work, this`waiting, this`failed, this`value, this`inputs, head`fut, waiting`fut
      ensures Valid() && Built() && Callbacks() == old(Callbacks()) && work == outcome && waiting == []
      ensures HasRun(Ran(Repeated(current.callback, |old(waiting)|), outcome, old(value)), old(inputs), old(failed))
      ensures forall k :: 0 <= k < |old(waiting)| ==>
                old(waiting)[k].fut == Ran(Repeated(current.callback, k + 1), outcome, old(value)).fut
      ensures isFutureCallbackSet ==>
                (tail.fut.Done? <==>
                   if tail == head then outcome.Done?
                   else if old(waiting) == [] then old(tail.fut).Done?
                   else tail == current
                        && Ran(Repeated(current.callback, |old(waiting)|), outcome, old(value)).fut.Done?)
    {
      hide CallbacksOf, Ran, Repeated, Turned;
      ghost var n := |waiting|;
      RanIsComplete(Repeated(current.callback, n), outcome, value);
      work := outcome;
      if isFutureCallbackSet {
        head.fut := outcome;
      }
      RunLate(outcome);
      waiting := [];
    }

    method RunLate(outcome: Future<V>)
      requires Complete(outcome) && forall i, j :: 0 <= i < j < |waiting| ==> waiting[i] != waiting[j]
      modifies this`failed, this`value, this`inputs, waiting`fut
      ensures HasRun(Ran(Repeated(current.callback, |waiting|), outcome, old(value)), old(inputs), old(failed))
      ensures forall k :: 0 <= k < |waiting| ==>
                waiting[k].fut == Ran(Repeated(current.callback, k + 1), outcome, old(value)).fut
    {
      hide Ran, Repeated;
      LateStep(current.callback, outcome, value, 0);
      var parent, default := outcome, value;
      for k := 0 to |waiting|
        invariant HasRun(Ran(Repeated(current.callback, k), outcome, default), old(inputs), old(failed))
        invariant parent == Ran(Repeated(current.callback, k), outcome, default).fut
        invariant forall j :: 0 <= j < k ==>
                    waiting[j].fut == Ran(Repeated(current.callback, j + 1), outcome, default).fut
        modifies this`failed, this`value, this`inputs, waiting`fut
      {
        LateStep(current.callback, outcome, default, k);
        parent := RunOne(parent, current.callback, default, k == 0);
        waiting[k].fut := parent;
      }
    }

    /** Building the chain without waiting. */
    method BlockCurrentStream()
      requires Valid() && Built()
      modifies this`value, this`isFutureCallbackSet, this`waiting, this`current, this`failed, this`inputs, chain`fut
      ensures Valid() && Built() && isFutureCallbackSet && Callbacks() == old(Callbacks())
      ensures old(isFutureCallbackSet) ==>
                && value == old(value) && inputs == old(inputs) && failed == old(failed)
                && waiting == old(waiting) && current == old(current) && tail.fut == old(tail.fut)
      ensures !old(isFutureCallbackSet) && work != Running ==>
                HasRun(Ran(Callbacks(), work, old(value)), old(inputs), old(failed)) && waiting == []
      ensures !old(isFutureCallbackSet) && work == Running ==>
                value == old(value) && inputs == old(inputs) && failed == old(failed) && waiting == chain[1..]
      ensures !old(isFutureCallbackSet) ==> current == tail
    {
      SetFutureCallback();
    }
  }

  lemma LateStep<V>(f: Option<Callback<V>>, work: Future<V>, v: V, k: nat)
    ensures Ran(Repeated(f, 0), work, v) == Turn(v, [], work, false)
    ensures Ran(Repeated(f, k + 1), work, v) == Turned(Ran(Repeated(f, k), work, v), f, k == 0)
  {
    var cs := Repeated(f, k + 1);
    RanStep(cs, work, v, k);
    assert cs[..k + 1] == cs && cs[..k] == Repeated(f, k);
  }

  /** One callback, as for the average of an all-reduce: attached before the work is done, it is lost. The wait returns
      true, and only the reported error tells. */
  method ADelayedCallbackIsLost<V>(value: V, f: Callback<V>, result: V) returns (ok: bool, reported: bool, left: V)
    ensures ok && reported && left == value
  {
    var w := new Work<V>(Running, value);
    var fut := w.Then(w.head, f, 0);
    w.BlockCurrentStream();
    NoneToRun(1, Done(result), value);
    ok := w.Wait(Done(result));
    reported, left := w.failed, w.value;
  }
}
