/** One state per step: what replicas hold, over whole runs and whenever quorums are issued. */
module OneState {
  import opened Protocol
  import opened ReplicaOrder
  import opened Planner
  import opened Manager
  import opened Cluster
  import opened ClusterSteps
  import opened Replication
  import opened Forks
  import L = Lighthouse

  // ----- What is assumed

  /** No two different quorums with one top step are both committed, by whomever and however far apart. */
  ghost predicate OneQuorumPerStep(env: Env, events: seq<Event>) {
    forall i: nat, j: nat, n: nat, k: nat ::
      CommitsIssue(env, events, i, n) && CommitsIssue(env, events, j, k) && SameTop(env, events, n, k) ==> n == k
  }

  ghost predicate SameTop(env: Env, events: seq<Event>, n: nat, k: nat) {
    var issues := After(env, events).run.issues;
    n < |issues| && k < |issues| && Top(issues[n].quorum) == Top(issues[k].quorum)
  }

  /** Where the first step synchronizes the initial weights, a replica that fetches late can get those of another
      quorum's primary; it does not commit them. */
  ghost predicate SharedStart(env: Env, s: System, e: Event) {
    env.cfg.initSync && Commits(env, s, e) && Top(Quorums(s, s.nodes[e.id].phase.issue)) == 0 ==>
      !Outdated(s.run.issues, s.nodes[e.id].phase.issue)
  }

  ghost predicate AllSharedStart(env: Env, events: seq<Event>) {
    forall i :: 0 <= i < |events| ==> SharedStart(env, After(env, events[..i]), events[i])
  }

  // ----- The book of a run: which state each step was first committed as, and by which issue

  datatype Book = Book(state: map<int, Checkpoint>, issue: map<int, nat>)

  /** Issue `n` is committed from `c`. */
  ghost function Entered(env: Env, issues: seq<L.Issue>, n: nat, c: Checkpoint, book: Book): Book
    requires n < |issues|
  {
    var t := Top(issues[n].quorum) + 1;
    if t in book.issue then book
    else Book(book.state[t := Advanced(env, issues, n, c)], book.issue[t := n])
  }

  ghost function Recorded(env: Env, s: System, e: Event, book: Book): Book {
    if Commits(env, s, e) then
      Entered(env, s.run.issues, s.nodes[e.id].phase.issue, Holds(s.nodes[e.id].r), book)
    else book
  }

  ghost function BookOf(env: Env, events: seq<Event>): Book {
    if events == [] then Book(map[], map[])
    else Recorded(env, After(env, events[..|events| - 1]), events[|events| - 1], BookOf(env, events[..|events| - 1]))
  }

  /** A commit of a step that is in the book is of the issue in the book. */
  ghost predicate Agreed(env: Env, s: System, e: Event, book: Book) {
    Commits(env, s, e) ==>
      var n := s.nodes[e.id].phase.issue;
      Top(Quorums(s, n)) + 1 in book.issue ==> book.issue[Top(Quorums(s, n)) + 1] == n
  }

  // ----- The invariant

  const Seed: Checkpoint := Checkpoint(0, 0, Seeded)

  ghost predicate BookFits(env: Env, issues: seq<L.Issue>, book: Book) {
    && book.state.Keys == book.issue.Keys
    && forall t :: t in book.issue ==>
         && t >= 1 && book.issue[t] < |issues|
         && (t >= 2 ==> t - 1 in book.state && book.state[t] == Advanced(env, issues, book.issue[t], book.state[t - 1]))
         && (t == 1 && !env.cfg.initSync ==> book.state[t] == Advanced(env, issues, book.issue[t], Seed))
  }

  /** Works on a quorum of step 0 that synchronizes initial weights and that no later one superseded. */
  ghost predicate Starts(env: Env, issues: seq<L.Issue>, node: Node, n: nat) {
    && env.cfg.initSync && n < |issues| && Up(env, issues, node) && node.phase.issue == n
    && Top(issues[n].quorum) == 0 && !Outdated(issues, n)
  }

  ghost predicate NodeFits(env: Env, issues: seq<L.Issue>, book: Book, node: Node) {
    && (node.r.step >= 1 ==> node.r.step in book.state && Holds(node.r) == book.state[node.r.step])
    && (1 in book.issue && 1 in book.state && Starts(env, issues, node, book.issue[1]) ==>
          book.state[1] == Advanced(env, issues, book.issue[1], Holds(node.r)))
  }

  ghost predicate StartAlike(env: Env, issues: seq<L.Issue>, a: Node, b: Node) {
    forall n: nat :: Starts(env, issues, a, n) && Starts(env, issues, b, n) ==> Holds(a.r) == Holds(b.r)
  }

  ghost predicate Fits(env: Env, s: System, book: Book) {
    && BookFits(env, s.run.issues, book)
    && (forall a :: a in s.nodes ==> NodeFits(env, s.run.issues, book, s.nodes[a]))
    && forall a, b :: a in s.nodes && b in s.nodes ==> StartAlike(env, s.run.issues, s.nodes[a], s.nodes[b])
  }

  // ----- Steps without a commit

  lemma PutFits(env: Env, s: System, id: string, node: Node, book: Book)
    requires Fits(env, s, book) && NodeFits(env, s.run.issues, book, node)
    requires forall b :: b in s.nodes && b != id ==> StartAlike(env, s.run.issues, node, s.nodes[b])
    ensures Fits(env, Put(s, id, node), book)
  {
    hide NodeFits, BookFits, Starts;
    var t := Put(s, id, node);
    forall a, b | a in t.nodes && b in t.nodes ensures StartAlike(env, t.run.issues, t.nodes[a], t.nodes[b]) {
      if a == id && b != id { assert StartAlike(env, s.run.issues, node, s.nodes[b]); }
      if a != id && b == id { assert StartAlike(env, s.run.issues, node, s.nodes[a]); }
    }
  }

  lemma SameHoldingsFit(env: Env, s: System, id: string, node: Node, book: Book)
    requires Fits(env, s, book) && id in s.nodes && Holds(node.r) == Holds(s.nodes[id].r)
    requires node.phase.InFlight? ==>
               && s.nodes[id].phase.InFlight? && node.phase.issue == s.nodes[id].phase.issue
               && (Up(env, s.run.issues, node) ==> Up(env, s.run.issues, s.nodes[id]))
    ensures Fits(env, Put(s, id, node), book)
  {
    hide BookFits;
    assert NodeFits(env, s.run.issues, book, s.nodes[id]);
    forall b | b in s.nodes && b != id ensures StartAlike(env, s.run.issues, node, s.nodes[b]) {
      assert StartAlike(env, s.run.issues, s.nodes[id], s.nodes[b]);
    }
    PutFits(env, s, id, node, book);
  }

  lemma BookOutlivesIssue(env: Env, issues: seq<L.Issue>, more: L.Issue, book: Book)
    requires BookFits(env, issues, book)
    ensures BookFits(env, issues + [more], book)
  {
    forall t | t in book.issue
      ensures t >= 2 ==> book.state[t] == Advanced(env, issues + [more], book.issue[t], book.state[t - 1])
      ensures t == 1 && !env.cfg.initSync ==> book.state[t] == Advanced(env, issues + [more], book.issue[t], Seed)
    {
      SinceOfPrefix(issues, more, book.issue[t]);
    }
  }

  lemma StartsBefore(env: Env, issues: seq<L.Issue>, more: L.Issue, a: Node, n: nat)
    requires n < |issues| && Starts(env, issues + [more], a, n)
    ensures Starts(env, issues, a, n)
  {
    OutdatedStays(issues, more, n);
  }

  lemma OldNodeFits(env: Env, issues: seq<L.Issue>, more: L.Issue, book: Book, a: Node, x: Node)
    requires NodeFits(env, issues, book, a) && MayStart(|issues|, a, x)
    requires BookFits(env, issues, book)
    ensures NodeFits(env, issues + [more], book, x)
  {
    if 1 in book.issue && Starts(env, issues + [more], x, book.issue[1]) {
      StartsBefore(env, issues, more, x, book.issue[1]);
      SinceOfPrefix(issues, more, book.issue[1]);
    }
  }

  /** Who starts the new quorum at step 0 is its primary, so nobody else does. */
  lemma StartersAlike(env: Env, issues: seq<L.Issue>, more: L.Issue, ida: string, idb: string,
                      a: Node, b: Node, x: Node, y: Node)
    requires ida != idb && StartAlike(env, issues, a, b)
    requires MayStart(|issues|, a, x) && MayStart(|issues|, b, y)
    requires a.phase.InFlight? ==> a.phase.issue < |issues|
    requires b.phase.InFlight? ==> b.phase.issue < |issues|
    requires Local(env, issues + [more], ida, x) && Local(env, issues + [more], idb, y)
    ensures StartAlike(env, issues + [more], x, y)
  {
    forall n: nat | Starts(env, issues + [more], x, n) && Starts(env, issues + [more], y, n)
      ensures Holds(x.r) == Holds(y.r)
    {
      if n < |issues| {
        StartsBefore(env, issues, more, x, n);
        StartsBefore(env, issues, more, y, n);
      } else {
        StartersAgree(env, issues + [more], ida, idb, x, y);
      }
    }
  }

  lemma BroadcastFits(env: Env, s: System, run: L.Run, book: Book)
    requires Inv(env, s) && Inv(env, Broadcast(s, run)) && Fits(env, s, book) && GrowsByOne(s.run.issues, run.issues)
    ensures Fits(env, Broadcast(s, run), book)
  {
    hide NodeFits, BookFits, StartAlike, Local;
    var t := Broadcast(s, run);
    if |run.issues| > |s.run.issues| {
      var more := run.issues[|s.run.issues|];
      BookOutlivesIssue(env, s.run.issues, more, book);
      forall a | a in t.nodes ensures NodeFits(env, t.run.issues, book, t.nodes[a]) {
        OldNodeFits(env, s.run.issues, more, book, s.nodes[a], t.nodes[a]);
      }
      forall a, b | a in t.nodes && b in t.nodes ensures StartAlike(env, t.run.issues, t.nodes[a], t.nodes[b]) {
        if a == b {
          AlikeToItself(env, t.run.issues, t.nodes[a]);
        } else {
          IsLocal(env, s, a);
          IsLocal(env, s, b);
          LocalAfter(env, t, a);
          LocalAfter(env, t, b);
          StartersAlike(env, s.run.issues, more, a, b, s.nodes[a], s.nodes[b], t.nodes[a], t.nodes[b]);
        }
      }
    }
  }

  lemma AlikeToItself(env: Env, issues: seq<L.Issue>, a: Node)
    ensures StartAlike(env, issues, a, a)
  {
  }

  /** What a replica loads fits like what its source holds. */
  lemma LoadedFits(env: Env, s: System, id: string, healed: Node, src: string, book: Book)
    requires Fits(env, s, book) && src in s.nodes && id in s.nodes && src != id
    requires Holds(healed.r) == Holds(s.nodes[src].r) && Up(env, s.run.issues, s.nodes[src])
    requires healed.phase.InFlight? && healed.phase.issue < |s.run.issues|
    requires s.nodes[src].phase.issue == healed.phase.issue || Outdated(s.run.issues, healed.phase.issue)
    ensures Fits(env, Put(s, id, healed), book)
  {
    hide BookFits;
    assert NodeFits(env, s.run.issues, book, s.nodes[src]);
    forall b | b in s.nodes && b != id ensures StartAlike(env, s.run.issues, healed, s.nodes[b]) {
      assert StartAlike(env, s.run.issues, s.nodes[src], s.nodes[b]);
    }
    PutFits(env, s, id, healed, book);
  }

  lemma FetchFits(env: Env, s: System, id: string, ok: bool, book: Book)
    requires Inv(env, s) && Fits(env, s, book) && At(s, id, Fetching)
    ensures Fits(env, Next(env, s, Fetch(id, ok)), book)
  {
    hide Fits;
    var node := s.nodes[id];
    var x := PlanInFlight(env, s, id);
    var fetched := if ok then Fetched(s, x) else None;
    var healed := Healed(env, node, x, fetched);
    FetchPuts(env, s, id, ok, x);
    if fetched.Some? {
      var q := Quorums(s, node.phase.issue);
      var src := FetchedIsHeld(env, s, x);
      assert q.participants[x.recoverSrcReplicaRank.value].replicaId == src;
      SourceIsOfTheQuorum(env, s, node.phase.issue, src, fetched.value);
      PlausibleWhenServed(env, s, src, fetched.value);
      HealedIsLocal(env, s.run.issues, id, node, x, fetched);
      LoadedFits(env, s, id, healed, src, book);
    } else {
      HealedIsLocal(env, s.run.issues, id, node, x, fetched);
      SameHoldingsFit(env, s, id, healed, book);
    }
  }

  lemma JoinFits(env: Env, s: System, id: string, book: Book)
    requires Inv(env, s) && Fits(env, s, book)
    ensures Fits(env, Next(env, s, Join(id)), book)
  {
    hide BookFits;
    if id !in s.used {
      PutFits(env, s, id, Node(Fresh(FirstWeights(env, id)), Idle, -1), book);
    }
  }

  lemma QuietFits(env: Env, s: System, e: Event, book: Book)
    requires Fits(env, s, book) && (e.Crash? || e.Beat? || e.AskAgain?)
    ensures Fits(env, Next(env, s, e), book)
  {
    hide BookFits, NodeFits, StartAlike;
  }

  // ----- A decision

  /** What is known of a replica that commits. */
  ghost predicate Committing(env: Env, issues: seq<L.Issue>, node: Node, n: nat) {
    && Up(env, issues, node) && node.phase.issue == n < |issues|
    && 0 <= node.r.step == Top(issues[n].quorum)
    && (node.r.step == 0 ==> if env.cfg.initSync then !Outdated(issues, n) else Holds(node.r) == Seed)
  }

  lemma WhoCommits(env: Env, s: System, id: string, groupError: bool, peersAgree: bool)
    requires Inv(env, s) && At(s, id, Voting) && Decided(env, s.nodes[id], groupError, peersAgree).1.Commit?
    requires SharedStart(env, s, Decide(id, groupError, peersAgree))
    ensures Committing(env, s.run.issues, s.nodes[id], s.nodes[id].phase.issue)
  {
    IsLocal(env, s, id);
    DecisionAdvances(env, s.run.issues, id, s.nodes[id], groupError, peersAgree);
  }

  /** What a commit makes of the state is what the book has. */
  lemma CommitIsInTheBook(env: Env, issues: seq<L.Issue>, node: Node, n: nat, book: Book)
    requires BookFits(env, issues, book) && NodeFits(env, issues, book, node) && Committing(env, issues, node, n)
    requires Top(issues[n].quorum) + 1 in book.issue && book.issue[Top(issues[n].quorum) + 1] == n
    ensures book.state[Top(issues[n].quorum) + 1] == Advanced(env, issues, n, Holds(node.r))
  {
  }

  lemma NewEntryFits(env: Env, s: System, id: string, n: nat, book: Book)
    requires Fits(env, s, book) && id in s.nodes && Committing(env, s.run.issues, s.nodes[id], n)
    requires Top(Quorums(s, n)) + 1 !in book.issue
    ensures Fits(env, s, Entered(env, s.run.issues, n, Holds(s.nodes[id].r), book))
  {
    hide Advanced, Outdated;
    var node := s.nodes[id];
    assert NodeFits(env, s.run.issues, book, node);
    forall a | a in s.nodes
      ensures NodeFits(env, s.run.issues, Entered(env, s.run.issues, n, Holds(node.r), book), s.nodes[a])
    {
      assert NodeFits(env, s.run.issues, book, s.nodes[a]);
      assert StartAlike(env, s.run.issues, node, s.nodes[a]);
    }
  }

  lemma DecideFits(env: Env, s: System, id: string, groupError: bool, peersAgree: bool, book: Book)
    requires Inv(env, s) && Fits(env, s, book) && At(s, id, Voting)
    requires var e := Decide(id, groupError, peersAgree);
             SharedStart(env, s, e) && Agreed(env, s, e, book)
    ensures var e := Decide(id, groupError, peersAgree);
            Fits(env, Next(env, s, e), Recorded(env, s, e, book))
  {
    hide Inv, Fits, Next, Decided, SharedStart, Entered;
    var node := s.nodes[id];
    var (after, d) := Decided(env, node, groupError, peersAgree);
    IsLocal(env, s, id);
    DecisionAdvances(env, s.run.issues, id, node, groupError, peersAgree);
    DecidePuts(env, s, id, groupError, peersAgree);
    if d.Commit? {
      WhoCommits(env, s, id, groupError, peersAgree);
      EnteredFits(env, s, id, node.phase.issue, book);
      CommittedFits(env, s, id, after, Recorded(env, s, Decide(id, groupError, peersAgree), book));
    } else if d.Skip? {
      SameHoldingsFit(env, s, id, after, book);
    } else {
      CrashFits(env, s, id, book);
    }
  }

  lemma EnteredFits(env: Env, s: System, id: string, n: nat, book: Book)
    requires Fits(env, s, book) && id in s.nodes && Committing(env, s.run.issues, s.nodes[id], n)
    requires var t := Top(Quorums(s, n)) + 1;
             t in book.issue ==> book.issue[t] == n
    ensures var book2 := Entered(env, s.run.issues, n, Holds(s.nodes[id].r), book);
            var t := Top(Quorums(s, n)) + 1;
            && Fits(env, s, book2) && t in book2.state && t == s.nodes[id].r.step + 1
            && book2.state[t] == Advanced(env, s.run.issues, n, Holds(s.nodes[id].r))
  {
    if Top(Quorums(s, n)) + 1 in book.issue {
      CommitIsInTheBook(env, s.run.issues, s.nodes[id], n, book);
    } else {
      NewEntryFits(env, s, id, n, book);
    }
  }

  lemma CrashFits(env: Env, s: System, id: string, book: Book)
    requires Fits(env, s, book)
    ensures Fits(env, s.(nodes := s.nodes - {id}), book)
  {
    hide BookFits, NodeFits, StartAlike;
  }

  lemma CommittedFits(env: Env, s: System, id: string, after: Node, book: Book)
    requires Fits(env, s, book) && after.phase.Idle? && after.r.step in book.state
    requires Holds(after.r) == book.state[after.r.step]
    ensures Fits(env, Put(s, id, after), book)
  {
    hide BookFits;
    PutFits(env, s, id, after, book);
  }

  // ----- All events

  lemma NextFits(env: Env, s: System, e: Event, book: Book)
    requires Inv(env, s) && Fits(env, s, book) && SharedStart(env, s, e) && Agreed(env, s, e, book)
    ensures Fits(env, Next(env, s, e), Recorded(env, s, e, book))
  {
    hide Inv, Fits, SharedStart, Agreed;
    match e
    case Join(id) => JoinFits(env, s, id, book);
    case Crash(_) => QuietFits(env, s, e, book);
    case Beat(_, _) => QuietFits(env, s, e, book);
    case AskAgain(_, _) => QuietFits(env, s, e, book);
    case Ask(id, shrinkOnly, now) =>
      if id in s.nodes && s.nodes[id].phase.Idle? { AskFits(env, s, id, shrinkOnly, now, book); }
    case Tick(now) =>
      TickFits(env, s, now, book);
    case Prepare(id, configureOk, sendOk) =>
      if At(s, id, Assigned) {
        var x := PlanInFlight(env, s, id);
        PreparedHoldsTheSame(env, s.run.issues, s.nodes[id], x, configureOk, sendOk);
        PreparePuts(env, s, id, configureOk, sendOk, x);
        SameHoldingsFit(env, s, id, Prepared(env, s.nodes[id], x, configureOk, sendOk), book);
      }
    case Fetch(id, ok) => if At(s, id, Fetching) { FetchFits(env, s, id, ok, book); }
    case Reduce(id, ok) =>
      if At(s, id, Ready) {
        ReducePuts(env, s, id, ok);
        SameHoldingsFit(env, s, id,
          s.nodes[id].(r := Reduced(s.nodes[id].r, ok), phase := s.nodes[id].phase.(stage := Voting)), book);
      }
    case Report(id) =>
      if At(s, id, Ready) || At(s, id, Voting) {
        ReportPuts(env, s, id);
        SameHoldingsFit(env, s, id, s.nodes[id].(r := s.nodes[id].r.(errored := true)), book);
      }
    case Decide(id, groupError, peersAgree) =>
      if At(s, id, Voting) { DecideFits(env, s, id, groupError, peersAgree, book); }
  }

  lemma TickFits(env: Env, s: System, now: int, book: Book)
    requires Inv(env, s) && Fits(env, s, book)
    ensures Fits(env, Next(env, s, Tick(now)), book)
  {
    hide Fits;
    TickBroadcasts(env, s, now);
    BroadcastKeepsInv(env, s, s.run.state, now);
    IssuesGrowByOne(s.run, s.run.state, now, env.opt);
    BroadcastFits(env, s, L.AfterTick(s.run, s.run.state, now, env.opt), book);
  }

  lemma AskFits(env: Env, s: System, id: string, shrinkOnly: bool, now: int, book: Book)
    requires Inv(env, s) && Fits(env, s, book) && id in s.nodes && s.nodes[id].phase.Idle?
    ensures Fits(env, Next(env, s, Ask(id, shrinkOnly, now)), book)
  {
    hide Fits;
    var t := Asked(env, s, id, shrinkOnly);
    var asked := L.QuorumRequested(t.nodes[id].phase.record, now);
    IsLocal(env, s, id);
    AskedKeepsInv(env, s, id, shrinkOnly);
    SameHoldingsFit(env, s, id, t.nodes[id], book);
    RegisteredBroadcastKeepsInv(env, t, id, now);
    IssuesGrowByOne(t.run, L.Before(t.run.state, asked), now, env.opt);
    AskBroadcasts(env, s, id, shrinkOnly, now);
    BroadcastFits(env, t, L.Step(t.run, asked, env.opt), book);
  }

  // ----- Over a run

  /** Every entry of the book is a commit of the run. */
  lemma {:induction false} EntriesAreCommits(env: Env, events: seq<Event>, t: int) returns (i: nat)
    requires t in BookOf(env, events).issue
    ensures CommitsIssue(env, events, i, BookOf(env, events).issue[t])
    ensures var issues := After(env, events).run.issues;
            var n := BookOf(env, events).issue[t];
            n < |issues| && Top(issues[n].quorum) + 1 == t
  {
    hide Next, Decided;
    var before, e := events[..|events| - 1], events[|events| - 1];
    var s := After(env, before);
    NextGrowsIssues(env, s, e);
    if t in BookOf(env, before).issue {
      i := EntriesAreCommits(env, before, t);
      assert events[..i] == before[..i];
    } else {
      i := |events| - 1;
    }
  }

  lemma SameTopLater(env: Env, events: seq<Event>, i: nat, n: nat, k: nat)
    requires i <= |events| && n < |After(env, events[..i]).run.issues| && k < |After(env, events[..i]).run.issues|
    ensures SameTop(env, events, n, k) <==> SameTop(env, events[..i], n, k)
  {
    IssuesArePrefix(env, events, i);
  }

  /** A run in which only one quorum is committed per step never contradicts its book. */
  lemma StepsAgreeWithTheBook(env: Env, events: seq<Event>, i: nat)
    requires OneQuorumPerStep(env, events) && i < |events|
    ensures Agreed(env, After(env, events[..i]), events[i], BookOf(env, events[..i]))
  {
    hide Next, Decided, Inv;
    var s, e, book := After(env, events[..i]), events[i], BookOf(env, events[..i]);
    if Commits(env, s, e) {
      var n := s.nodes[e.id].phase.issue;
      var t := Top(Quorums(s, n)) + 1;
      if t in book.issue {
        var j := EntriesAreCommits(env, events[..i], t);
        assert events[..i][..j] == events[..j];
        SameTopLater(env, events, i, n, book.issue[t]);
        assert CommitsIssue(env, events, i, n) && CommitsIssue(env, events, j, book.issue[t]);
        assert SameTop(env, events, n, book.issue[t]);
      }
    }
  }

  lemma {:induction false} RunsFit(env: Env, events: seq<Event>, i: nat)
    requires AllSharedStart(env, events) && OneQuorumPerStep(env, events) && i <= |events|
    ensures Inv(env, After(env, events[..i])) && Fits(env, After(env, events[..i]), BookOf(env, events[..i]))
    decreases i
  {
    hide Next, Decided, Inv, Agreed, SharedStart, OneQuorumPerStep, Recorded, BookFits, NodeFits, StartAlike;
    RunsKeepInv(env, events[..i]);
    if i == 0 {
      NothingRecorded(env);
    } else {
      RunsFit(env, events, i - 1);
      StepsAgreeWithTheBook(env, events, i - 1);
      NextFits(env, After(env, events[..i - 1]), events[i - 1], BookOf(env, events[..i - 1]));
      AfterNext(env, events, i - 1);
      assert events[..i][..i - 1] == events[..i - 1];
    }
  }

  lemma NothingRecorded(env: Env)
    ensures Fits(env, Start, Book(map[], map[]))
  {
  }

  lemma {:induction false} BookGrows(env: Env, events: seq<Event>, i: nat)
    requires i <= |events|
    ensures BookOf(env, events).state.Keys == BookOf(env, events).issue.Keys
    ensures forall t :: t in BookOf(env, events[..i]).state ==>
              t in BookOf(env, events).state && BookOf(env, events).state[t] == BookOf(env, events[..i]).state[t]
    decreases |events|
  {
    hide Next, Commits, Advanced;
    if i == |events| {
      assert events[..i] == events;
      if events != [] { BookGrows(env, events[..|events| - 1], 0); }
    } else {
      var before := events[..|events| - 1];
      BookGrows(env, before, i);
      assert before[..i] == events[..i];
    }
  }

  // ----- Main results

  /**
   * Whatever fails, crashes, is late or is formed without those ahead: as long as no two quorums with one top step are
   * both committed, there is one state per step from step 1 on. Any two replicas that are at a step, be it at different
   * points of the run and long after the one crashed, hold it.
   */
  lemma OneStatePerStep(env: Env, events: seq<Event>, i: nat, j: nat, a: string, b: string)
    requires AllSharedStart(env, events) && OneQuorumPerStep(env, events) && i <= |events| && j <= |events|
    requires a in After(env, events[..i]).nodes && b in After(env, events[..j]).nodes
    requires After(env, events[..i]).nodes[a].r.step == After(env, events[..j]).nodes[b].r.step >= 1
    ensures Holds(After(env, events[..i]).nodes[a].r) == Holds(After(env, events[..j]).nodes[b].r)
  {
    hide Next, After, BookOf, AllSharedStart, OneQuorumPerStep, Inv, BookFits, StartAlike;
    RunsFit(env, events, i);
    RunsFit(env, events, j);
    BookGrows(env, events, i);
    BookGrows(env, events, j);
    var s, t := After(env, events[..i]), After(env, events[..j]);
    assert NodeFits(env, s.run.issues, BookOf(env, events[..i]), s.nodes[a]);
    assert NodeFits(env, t.run.issues, BookOf(env, events[..j]), t.nodes[b]);
  }

  /** All commits from one top step leave one state behind. */
  ghost predicate CommitsOfAStepAgree(env: Env, events: seq<Event>) {
    forall i: nat, j: nat, n: nat, k: nat ::
      CommitsIssue(env, events, i, n) && CommitsIssue(env, events, j, k) && SameTop(env, events, n, k) ==>
        HeldAfter(env, events, i) == HeldAfter(env, events, j)
  }

  /** The commits of a run agree, step by step, if and only if no two quorums with one top step are both committed. */
  lemma CommitsAgreeExactlyIfOneQuorumPerStep(env: Env, events: seq<Event>)
    requires AllSharedStart(env, events)
    ensures CommitsOfAStepAgree(env, events) <==> OneQuorumPerStep(env, events)
  {
    hide Next, After, Decided, Advanced, Outdated, AllSharedStart;
    if OneQuorumPerStep(env, events) {
      forall i: nat, j: nat, n: nat, k: nat
        | CommitsIssue(env, events, i, n) && CommitsIssue(env, events, j, k) && SameTop(env, events, n, k)
        ensures HeldAfter(env, events, i) == HeldAfter(env, events, j)
      {
        CommittersAgree(env, events, i, j, n, k);
      }
    } else {
      var i: nat, j: nat, n: nat, k: nat :| CommitsIssue(env, events, i, n) && CommitsIssue(env, events, j, k)
                                            && SameTop(env, events, n, k) && n != k;
      CommitsOfDifferentQuorumsDiffer(env, events, i, j, n, k);
    }
  }

  lemma CommittersAgree(env: Env, events: seq<Event>, i: nat, j: nat, n: nat, k: nat)
    requires AllSharedStart(env, events) && OneQuorumPerStep(env, events)
    requires CommitsIssue(env, events, i, n) && CommitsIssue(env, events, j, k) && SameTop(env, events, n, k)
    ensures HeldAfter(env, events, i) == HeldAfter(env, events, j)
  {
    hide Next, After, Decided, Advanced, OneQuorumPerStep, AllSharedStart;
    var a := WhoCommitted(env, events, i, n);
    var b := WhoCommitted(env, events, j, k);
    IssuesArePrefix(env, events, i);
    IssuesArePrefix(env, events, j);
    OneStatePerStep(env, events, i + 1, j + 1, a, b);
  }

  lemma WhoCommitted(env: Env, events: seq<Event>, i: nat, n: nat) returns (a: string)
    requires CommitsIssue(env, events, i, n)
    ensures n < |After(env, events[..i]).run.issues| && a in After(env, events[..i + 1]).nodes
    ensures var node := After(env, events[..i + 1]).nodes[a];
            && HeldAfter(env, events, i) == Holds(node.r)
            && node.r.step == Top(After(env, events[..i]).run.issues[n].quorum) + 1 >= 1
  {
    hide Next, Decided, Inv, Up;
    var s, e := After(env, events[..i]), events[i];
    CommitLeaves(env, events, i, n);
    AfterNext(env, events, i);
    DecidePuts(env, s, e.id, e.groupError, e.peersAgree);
    IsLocal(env, s, e.id);
    a := e.id;
  }
}
