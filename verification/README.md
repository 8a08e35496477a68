# torchft, modelled in Dafny

torchft keeps data-parallel training going while replica groups crash, hang and join. This project models the parts
that decide whether the replicas still agree, and states what they guarantee as Dafny contracts and lemmas.
`dafny verify dfyconfig.toml` checks everything.

## The modules

**The fault-tolerant step.** `Protocol` has the records that travel, `ReplicaOrder` the order of replica ids.
`Lighthouse` is the quorum service: its state, the quorum computation with its fast path, shrink-only filter, majority
rule and join timeout, the tick that moves the quorum id, and runs of these. `GroupJoin` is how the ranks of one replica
group join into one Lighthouse request. `Planner` is `compute_quorum_results`, a loop proved equal to a function of the
sorted quorum, and how the plans of different replicas fit together. `Manager` is the per-rank object as a class over
the fields of the Python Manager. `CommitBarrier` is the `should_commit` rendezvous of a group's ranks.

`Cluster` puts Lighthouse, planner and managers together as a transition system: any number of replicas join, crash,
ask, are assigned a quorum, configure, fetch, reduce and vote in any interleaving, and configuring, sending, fetching
and reducing may each fail. `ClusterSteps` has the invariant of each step, `ClusterResults` the results about ids, process
groups and batches, `Replication` the theorem that live replicas at one step hold one state, `Forks` why its
assumption is there, and `OneState` the one state per step over whole runs. Model state is the term of averaged gradients
applied so far, so equal terms give equal states under any deterministic optimizer.

**Quantized collectives.** `Layout` is where scales and rows lie in the packed buffer. `Quantization` is one row's
arithmetic over the reals with the int8 limit, and its error. `Kernels` are the row kernels over an array of bytes, block
of columns by block of columns, including the reduction that overwrites one of its own inputs. `PackedBuffer` launches
them over all rows of all tensors with the programs in any order. `Collectives` is all-reduce and reduce-scatter of all
ranks, over ideal all-to-all and all-gather.

**DiLoCo.** `DiLoCoSchedule` is which fragment is prepared and synchronized when. `DiLoCo` has the fragments, with live,
saved, trained and gradient tensors as distinct heap objects, and the step hook. `DiLoCoReplication` is why replicas
agree on the global parameters.

**Supporting parts.** `RwLock` is the timed reader-writer lock as atomic steps of any number of threads. `ManagedWork` is
the lazy callback chain as a heap linked list. `Chunks` and `PgTransport` are the checkpoint encoders and decoders.
`Arithmetic` has division facts.

## Assumptions

- Replica ids are unique and never used again, one Lighthouse lives throughout, steps and group ranks are not negative,
  and all replicas share their configuration.
- Broadcasts reach everybody subscribed, and a mutex-protected handler is one step. Clocks are integers, and join and
  heartbeat times are arbitrary.
- A collective gives the same result to every member that sees no error, and may report an error to any member.
- Callers keep the documented order: `start_quorum`, work, `should_commit`.
- `Replication.ReplicasAgree` assumes of each new quorum that no live replica is beyond its top step, and that no replica
  commits a quorum after a later one with that top step or a lower one was issued (`Replication.TimelyStep`). Working on
  such a superseded quorum and failing is allowed for any length of time. Weights are synchronized (`init_sync`) or
  initially identical; without either, nothing is claimed of step 0.
- `OneState.OneStatePerStep` assumes nothing of when quorums are issued, only that no two with one top step are both
  committed, and that with `init_sync` no superseded quorum commits the first step (`OneState.SharedStart`): a late fetch
  at step 0 can bring the weights of another quorum's primary.
- The DiLoCo averages of one manager step are the same for every replica that commits it, as
  `Forks.CommitsAgreeExactlyWithinAQuorum` says of orderly runs, and all replicas start from one global copy.

## Where the code does less than one might expect

- A shrink-only request filters the candidates before the size and majority checks, which count the unfiltered set. A
  quorum can then be smaller than the minimum and even empty (`Lighthouse.ShrinkOnlyCanEmptyAQuorum`); the exact condition
  is `Lighthouse.QuorumSizeExactly`.
- That every quorum contains a live replica at the highest live step does not keep replicas equal. A replica whose vote
  is late commits the old quorum while a new one commits the same step (`Forks.LateVotesFork`). Commits of two different
  quorums always leave different states (`Forks.CommitsOfDifferentQuorumsDiffer`); as long as no superseded quorum is
  committed, two commits agree exactly when they are of one quorum (`Forks.CommitsAgreeExactlyWithinAQuorum`). Whenever
  quorums are issued, the commits of each step agree exactly if only one quorum is committed per step
  (`OneState.CommitsAgreeExactlyIfOneQuorumPerStep`).
- In an asynchronous first step with weight synchronization every rank holder counts in the divisor but only the primary
  adds its gradient (`Manager.AverageCountsGradientsExactlyWhen`, `Manager.FirstStepAddsOneGradientOfTwo`).
- A group's quorum channel is not replaced per round, so a rank that asks again before it was answered can receive the
  quorum of an earlier round (`GroupJoin.RetriesCanReceiveAnEarlierQuorum`): exactly if an earlier round was in flight
  when it joined (`GroupJoin.OwnQuorumExactlyIfNoneInFlight`). With answers out of order it hears whichever comes next
  (`GroupJoin.HearsTheNextReply`).
- Callbacks that are attached before the underlying work is done all refer to the chain's last node when they run, which
  has no callback: none of them runs and an error is reported (`ManagedWork.NoneToRun`). With a single callback,
  as of every all-reduce, the node behind the head is the tail and completes with the default, so the wait returns true
  although the division never ran (`ManagedWork.ADelayedCallbackIsLost`); with more it returns false. A callback added
  after a chain was built over finished work is never run, and the next wait fails (`ManagedWork.Work.Wait`).
- When replicas turn healthy again, the fast path can issue a quorum that is no majority of the healthy ones
  (`Lighthouse.FastPathCanLackAMajority`, exactly when by `Lighthouse.FastMajorityExactly`).
- A receiver whose paths share storage gets every leaf only if the sender's leaves there have equal bytes
  (`PgTransport.RecvCheckpoint`).
- A DiLoCo fragment without parameters fails the assertion of its first synchronization (`DiLoCo.DiLoCo.StepPostHook`).

## Model

| member | source | states |
|---|---|---|
| `ReplicaOrder.SortByIdSorts` | `src/manager.rs:496` | sorting a member list by replica id keeps exactly its members and leaves it sorted |
| `ReplicaOrder.SortIgnoresOrder` | `src/manager.rs:495-496` | two orders of the same members with distinct ids sort to one list, so every replica works on the same list |
| `ReplicaOrder.BelowExactly` | `src/manager.rs:496` | ids compare as strings do: a proper prefix comes first, else the first difference decides |
| `Planner.RankOf` | `src/manager.rs:499-514` | the rank is the first position that carries the id, and its absence is reported |
| `Planner.MaxStep` | `src/manager.rs:519` | the top step is reached by some member and exceeded by none |
| `Planner.AtStepIsTop` | `src/manager.rs:520-521` | the members at a step are exactly those of the list at that step, and there are some if anyone is there |
| `Planner.RanksWhereSelects` | `src/manager.rs:542-566` | the recovering and the up-to-date ranks are exactly the positions that qualify, in rising order |
| `Planner.AssignRecoveries` | `src/manager.rs:569-585` | the map of lists built in the loop holds each source's receivers in order, and the recorded source is the one the round robin picks |
| `Planner.ComputeQuorumResults` | `src/manager.rs:489-625` | the loop-built answer is the plan as a function of the sorted quorum, or not-participating for a stranger |
| `Planner.SomeoneIsUpToDate` | `src/manager.rs:556-574` | in every non-empty quorum somebody needs no recovery, so the round-robin modulus is never zero |
| `Planner.PlansAgree` | `src/manager.rs:495-624` | every member gets a plan; all plans share quorum id, store, top step, sizes and id list, and ranks are distinct and name their member |
| `Planner.SharedFieldsComeFromMembers` | `src/manager.rs:530-533` | the store everybody meets at belongs to an up-to-date member, and the failure count in the plans is the largest any member reported |
| `Planner.PrimaryIsPickedByRank` | `src/manager.rs:528-533` | the primary, whose store everybody uses, has exactly group rank modulo the number of top members, as many top members before it in id order |
| `Planner.RecoveryIsDealtFromTheGroupRank` | `src/manager.rs:572-585` | the k-th recovering member is given the up-to-date member number k plus group rank, counted round |
| `Planner.PlansMatch` | `src/manager.rs:569-611` | j is among i's destinations exactly when j's source is i, although each computes its plan alone |
| `Planner.ReceiversMatchSource` | `src/manager.rs:572-585` | the list a source ends with and the source a receiver records are two views of one assignment |
| `Planner.HealingHasASource` | `src/manager.rs:537-600` | exactly the members behind (or not primary at a synchronized step 0) heal, each from one member at the top step that does not heal, whose address it is given |
| `Planner.ServersDoNotHeal` | `src/manager.rs:554-585` | a member that is told to send a checkpoint is never told to fetch one |
| `Planner.PlanIgnoresOrder` | `src/manager.rs:495-496` | the plan is the same for every order of the quorum's participants |
| `Planner.LoadIsBalanced` | `src/manager.rs:568-585` | destination lists of any two up-to-date members differ in length by at most one |
| `Planner.RoundRobinIsEven` | `src/manager.rs:572-585` | dealing any receivers round robin from any starting offset gives any two sources loads within one |
| `Planner.LoadsAddUp` | `src/manager.rs:568-611` | the destination lists of all members together have one entry per recovering member |
| `Lighthouse.SortedMembersAreThose` | `src/lighthouse.rs:158-170` | the candidates are the current records of the healthy participants, one each, in id order |
| `Lighthouse.ComputedQuorum` | `src/lighthouse.rs:141-269` | a computed quorum is the healthy participants in id order, or with a shrink-only request those that were also in the previous quorum |
| `Lighthouse.WaitingIsBounded` | `src/lighthouse.rs:243-263` | a quorum that only waits for stragglers is issued once the join timeout has passed since anyone joined |
| `Lighthouse.NobodyIsAwaited` | `src/lighthouse.rs:204-263` | with every healthy replica joined a quorum is issued exactly if there are enough or the previous members are all back |
| `Lighthouse.IssuedExactlyWhen` | `src/lighthouse.rs:141-263` | a quorum is issued if and only if the previous members are all back, or at least the minimum and more than half of the healthy wait and either all healthy do or one has waited out the join timeout |
| `Lighthouse.HealthyExactly` | `src/lighthouse.rs:147-156` | over every run a replica is healthy exactly if it beat or asked less than the heartbeat timeout ago |
| `Lighthouse.Server.QuorumTick` | `src/lighthouse.rs:292-343` | the tick changes participants, previous quorum and id exactly as specified and broadcasts at most one quorum |
| `Lighthouse.Server.RequestQuorum` | `src/lighthouse.rs:498-521` | a request beats, registers, subscribes before ticking, and ticks at once |
| `Lighthouse.Server.Receive` | `src/lighthouse.rs:526-540` | one message of a subscription: the quorum is returned if the requester is in it, otherwise the requester registers again |
| `Lighthouse.Server.Await` | `src/lighthouse.rs:523-544` | the receiving loop returns the first quorum since the subscription that contains the requester, or none of what was broadcast does and it is registered again |
| `Lighthouse.Server.Heartbeat` | `src/lighthouse.rs:553-566` | a heartbeat only moves the replica's last beat |
| `Lighthouse.RunsAreConsistent` | `src/lighthouse.rs:292-343` | invariant of every run: records under their own ids, sorted quorums, and each quorum the legal successor of the one before |
| `Lighthouse.QuorumIdsOverARun` | `src/lighthouse.rs:133-138` | in every run ids start at 1, never fall, rise by at most one per quorum, and equal ids mean equal ordered member lists |
| `Lighthouse.QuorumIdMovesExactly` | `src/lighthouse.rs:299-325` | over every run the id stays from one quorum to the next if and only if the ordered ids are equal and no member reports a failure; else it rises by exactly one |
| `Lighthouse.FailedCommitMovesTheId` | `src/lighthouse.rs:299-325` | a quorum with a member whose last commit failed has an id above every earlier one |
| `Lighthouse.TickIsStrong` | `src/lighthouse.rs:204-241` | the fast path, which skips the size and majority checks, inherits both from the previous quorum |
| `Lighthouse.QuorumsAreStrong` | `src/lighthouse.rs:204-241` | without shrink-only requests every issued quorum is non-empty, has at least the minimum size, and is a strict majority while no replica turns healthy again |
| `Lighthouse.QuorumsIntersect` | `src/lighthouse.rs:230-241` | with a fixed healthy set any two issued quorums share a member, fast or not |
| `Lighthouse.MajorityExactly` | `src/lighthouse.rs:195-241` | exact condition for a strict majority on the state before the tick; without shrink-only requests only the fast path can lack one |
| `Lighthouse.FastPathCanLackAMajority` | `src/lighthouse.rs:204-218` | a concrete run in which replicas turn healthy again and the fast path issues a quorum of one out of three |
| `Lighthouse.FastMajorityExactly` | `src/lighthouse.rs:204-218` | a fast quorum is a strict majority exactly if the healthy set has grown since the previous quorum by less than that quorum's lead over it plus twice the newcomers let in |
| `Lighthouse.QuorumSizeExactly` | `src/lighthouse.rs:195-228` | exact condition for the minimum size: with a shrink-only request it is the filtered set that has to be large enough, which no check looks at |
| `Lighthouse.ShrinkOnlyCanEmptyAQuorum` | `src/lighthouse.rs:195-228` | a concrete state in which a shrink-only request passes all checks and an empty quorum is issued |
| `GroupJoin.Server.Request` | `src/manager.rs:353-385` | a rank's request joins the round, and the completing one forwards its own record and clears the round |
| `GroupJoin.EachReceivesItsOwnQuorum` | `src/manager.rs:353-400` | so it suffices that ranks ask again only once they are answered: then every rank receives the quorum of the round it joined, whatever order the Lighthouse answers in |
| `GroupJoin.RetriesCanReceiveAnEarlierQuorum` | `src/manager.rs:373-391` | with one rank: asking again before the answer receives the quorum of the earlier round |
| `GroupJoin.OwnQuorumExactlyIfNoneInFlight` | `src/manager.rs:353-391` | whoever asks again early, with rounds answered in order: an answered request receives the quorum of the round it joined if and only if no earlier round of the group was in flight when it joined; every forwarded round has all ranks |
| `GroupJoin.HearsTheNextReply` | `src/manager.rs:373-391` | with answers in any order: a request receives the quorum of whichever round is answered next after it joined, its own or not |
| `GroupJoin.Server.Round` | `src/manager.rs:370-391` | when all ranks of a quiet group ask, one request is forwarded and every rank listens where its answer is broadcast |
| `CommitBarrier.Server.ShouldCommit` | `src/manager.rs:439-470` | one request updates the vote sets and, when it completes the round, decides, resets and replaces the channel |
| `CommitBarrier.Server.Receive` | `src/manager.rs:472-479` | what a waiting request reads from its channel is the answer of its own round |
| `CommitBarrier.RequestsSplitIntoRounds` | `src/manager.rs:442-467` | every history of requests is its completed rounds followed by the open one, nothing lost or repeated |
| `CommitBarrier.RoundsHoldAllRanks` | `src/manager.rs:445-449` | a completed round contains requests of every rank |
| `CommitBarrier.UnansweredExactly` | `src/manager.rs:449-467` | the requests without an answer are exactly the last stretch of the history in which not all ranks have asked |
| `CommitBarrier.EveryoneInARoundGetsItsDecision` | `src/manager.rs:442-478` | in every interleaving an answered request's round is one stretch of the history with all ranks; its answer is yes exactly when nobody in it voted no; all and only its requests get that answer |
| `CommitBarrier.AnswersAreFinal` | `src/manager.rs:457-466` | no later request changes an answer |
| `CommitBarrier.Server.Enlist` | `src/manager.rs:442-447` | a vote enters the vote sets and its caller subscribes to the current round's channel |
| `CommitBarrier.Server.Close` | `src/manager.rs:449-467` | a full round is answered on its channel, the sets are cleared and a new channel opens |
| `Manager.Manager.AsyncQuorum` | `torchft/manager.py:630-813` | the quorum thread's updates in every combination of failing configure, failing send and failing fetch |
| `Manager.Manager.StartQuorum` | `torchft/manager.py:586-615` | a new step clears errors, and with a synchronous quorum a recovered replica loads its checkpoint at once |
| `Manager.Manager.Allreduce` | `torchft/manager.py:435-493` | an errored step is skipped, and without a group the error is reported; otherwise the own gradient is contributed exactly by a participating replica that is not healing, zeros by the rest |
| `Manager.Manager.ShouldCommit` | `torchft/manager.py:894-943` | commits if and only if there are enough participants, no error here or in the group, and the peers agree, healing or not; then step, batches and failures move, else a failure is counted and it raises exactly past the retry limit |
| `Manager.Manager.OptimizerStep` | `torchft/optim.py:52-55` | the loaded weights advance by the averaged gradient exactly on a commit |
| `Manager.RanksMatchDivisor` | `torchft/manager.py:671-690` | in every async/sync and spare mode the ranks handed out are 0 to the common divisor minus one, each once |
| `Manager.RanksCountTheEligible` | `torchft/manager.py:671-690` | a member takes part exactly if it is eligible (at the top step, unless recovery is synchronous) and within the spares limit; its rank counts the eligible ids before its own and the divisor all of them, up to the limit |
| `Manager.ThreadEndsAs` | `torchft/manager.py:630-813` | every outcome of the quorum thread on the fields: which failure leaves an error, when it sends, when it fetches, and what group, step, batches and weights are then |
| `Manager.AverageCountsGradientsExactlyWhen` | `torchft/manager.py:441-479` | the divisor equals the number of gradients added exactly unless an asynchronous first step synchronizes initial weights; then all rank holders but the primary add zeros |
| `Manager.ContributesAsPlanned` | `torchft/manager.py:441-493` | after a quorum thread without an error, in every mode, a replica contributes its own gradient exactly if the plan makes it a rank holder that does not heal asynchronously |
| `Manager.FirstStepAddsOneGradientOfTwo` | `torchft/manager.py:441-479` | a concrete quorum of two newcomers whose average divides by two and adds one gradient |
| `Manager.Manager.ApplyPendingStateDict` | `torchft/manager.py:826-853` | a staged checkpoint replaces the weights and is no longer pending; nothing staged needs an error |
| `Manager.Manager.TakeRank` | `torchft/manager.py:671-690` | participating rank and divisor by quorum mode, healing and spares |
| `Manager.Manager.Configure` | `torchft/manager.py:692-744` | the new id is stored before configuring; a failed configure leaves no group and an error |
| `Manager.Manager.Heal` | `torchft/manager.py:746-807` | sending comes first and its failure skips the fetch; a failed fetch leaves the replica healing with an error |
| `ClusterSteps.NextKeepsInv` | `torchft/manager.py:560-943` | every step of every replica and of the Lighthouse keeps the per-replica invariant, whatever fails |
| `ClusterSteps.RunsKeepInv` | `torchft/manager.py:560-943` | so the invariant holds in every run of any number of replicas |
| `ClusterSteps.GroupIsRight` | `torchft/manager.py:692-725` | keeping the process group when the id is unchanged gives the same group as configuring it anew would |
| `ClusterSteps.PrepareKeepsInv` | `torchft/manager.py:671-765` | the quorum thread up to recovery keeps the invariant, whether or not configuring and sending succeed |
| `ClusterSteps.FetchKeepsInv` | `torchft/manager.py:766-807` | a fetch that succeeds or fails keeps the invariant |
| `ClusterSteps.BroadcastKeepsInv` | `src/lighthouse.rs:327-341` | a broadcast to every waiting member keeps the invariant |
| `ClusterResults.WorkersShareTheirGroup` | `torchft/manager.py:692-725` | error-free workers of one quorum have its id, their rank in it and its size in their groups, and their next collective is the same one |
| `ClusterResults.CommitsExactlyWhen` | `torchft/manager.py:894-943` | in every run: a vote advances the replica by one step, forgets its failures and applies the average if and only if it has no error, nor has the group, peers agree and the divisor reaches the minimum, be it healing or rankless; else it keeps its state, counts a failure, and stops exactly at the limit |
| `ClusterResults.PreparesExactly` | `torchft/manager.py:692-780` | in every run: configuring and sending end with an error exactly if one called for fails, a fetch follows exactly if the replica is behind and configured, and the group is that of the quorum |
| `ClusterResults.FetchesExactly` | `torchft/manager.py:781-807` | in every run: a fetch brings the peer's state at the top step without error if and only if it goes well and the peer named is live and serves that step |
| `ClusterResults.ReducesExactly` | `torchft/manager.py:435-493` | in every run: the all-reduce gives the quorum's next collective if and only if there is no error before and it goes well |
| `ClusterResults.AsksWithItsRecord` | `torchft/manager.py:586-615` | in every run: asking, and asking again, registers the replica's current step and failures, with the error of the step before cleared |
| `ClusterResults.ReportedErrorsBlockTheCommit` | `torchft/manager.py:495-505` | in every run: an error reported before the vote keeps that vote from advancing the replica |
| `ClusterResults.CrashedStayGone` | `torchft/manager.py:560-630` | in every run: a replica joins idle at step 0, and is never there again after a crash |
| `ClusterResults.LighthouseRunsAsAlone` | `src/lighthouse.rs:292-343` | in every run of the whole protocol the Lighthouse is in the state of its own run on the messages it was sent |
| `ClusterResults.IdsStoredOnlyRise` | `torchft/manager.py:692-725` | one configure step: the stored id becomes the quorum's, never lower, and the group changes only with the id |
| `ClusterResults.NeverConfiguresTwice` | `torchft/manager.py:692-744` | over a whole run, with failing configures, the ids a replica configures with strictly rise, so it never configures twice with one id |
| `ClusterResults.FailedStepGetsAFreshId` | `torchft/manager.py:928-943` | over a whole run: after any decision against committing, the next quorum that replica is given has an id above all earlier ones, and each member given it has to configure anew |
| `ClusterResults.FailedStepIsAbandoned` | `torchft/manager.py:932-933` | a quorum given to a replica with a failure count has an id above all earlier ones and above what any of its members has stored |
| `ClusterResults.EveryFailureIsRemembered` | `torchft/manager.py:928-943` | a decision against committing leaves a positive failure count and the held state, step and batches as they were |
| `ClusterResults.FailedConfigureCannotCommit` | `torchft/manager.py:709-744` | after a failed configure, which stored the new id already, no vote of any kind can commit the step |
| `ClusterResults.FixedBatchesFollowSteps` | `torchft/manager.py:682-690` | with spares, committed batches are the minimum replica size times the step in every reachable state |
| `Replication.NextKeepsAgreement` | `torchft/manager.py:630-943` | every step keeps the pairwise agreement of live replicas, if a new quorum has no live replica ahead of it and no superseded quorum is committed |
| `Replication.CommitAppliesTheQuorumsAverage` | `torchft/manager.py:894-931` | in every run a commit happens only with enough participants, at the top step, and applies exactly the quorum's next collective with its divisor |
| `Replication.ReplicasAgree` | `torchft/manager.py:630-943` | in every such run, with any mix of commits, failures, stragglers on superseded quorums, recoveries, joins and crashes, live replicas at one step hold one model state and one batch count |
| `Replication.DecisionAdvances` | `torchft/manager.py:894-943` | a commit turns a worker's state into its quorum's next one, any other decision leaves it |
| `Forks.CommitsAgreeExactlyWithinAQuorum` | `torchft/manager.py:856-943` | in every such run any two commits, at whatever points of it, leave one state if and only if they are of the same quorum |
| `Forks.CommitsOfDifferentQuorumsDiffer` | `torchft/manager.py:856-943` | in every run at all, commits of different quorums leave different states, at one step if the quorums have one top step: committing a superseded quorum beside its successor always forks |
| `Forks.CommitsOfOneQuorumAgree` | `torchft/manager.py:856-943` | in every run without a commit of a superseded quorum, all commits of one quorum leave the same state, however far apart |
| `Forks.CollectivesTellIssuesApart` | `torchft/manager.py:692-725` | no two issued quorums ever share a collective |
| `Forks.LateVotesFork` | `torchft/manager.py:856-943` | a leader in every quorum with nobody ahead does not suffice: a concrete run in which a late vote leaves two live replicas at step 1 with different states |
| `OneState.OneStatePerStep` | `torchft/manager.py:630-943` | in every run, whenever quorums are issued and whoever is late (with init_sync: but for commits of a superseded quorum at step 0): if no two quorums with one top step are both committed, any two replicas ever at one step from 1 on hold one state, at whatever points of the run, crashed or not |
| `OneState.CommitsAgreeExactlyIfOneQuorumPerStep` | `torchft/manager.py:856-943` | in every such run the commits of each step leave one state if and only if no two quorums with one top step are both committed |
| `OneState.NextFits` | `torchft/manager.py:630-943` | every step of every replica keeps what is held at a step equal to what that step was first committed as, while commits are of the quorum first committed there |
| `Layout.PrepareLayout` | `torchft/quantization.py:476-503` | the running offsets are the tensors' positions in a slice, the size is one slice per rank, and the grid reaches every row and every slice row |
| `Layout.QuotientOfProduct` | `torchft/quantization.py:567-574` | the size per rank that the kernels are given is the size of a slice |
| `Layout.GetPaddedSizes` | `torchft/collectives.py:75-84` | padded row counts are the least multiples of the group size that cover the rows, and a rank's share is the slice row count |
| `Layout.SlotsAreAligned` | `torchft/quantization.py:114-128` | every slot starts on a scale boundary, for all shapes and group sizes |
| `Layout.RowFits` | `torchft/quantization.py:117-120` | a row takes the least multiple of four bytes that holds a scale and one byte per column |
| `Layout.SlotsAreInBounds` | `torchft/quantization.py:118-128` | every slot, padding rows included, lies within its rank's slice and the buffer |
| `Layout.SlotsAreDisjoint` | `torchft/quantization.py:118-128` | two different slots never overlap |
| `Layout.SlotsLeaveNoGap` | `torchft/quantization.py:486-503` | every byte of the buffer belongs to some slot |
| `Layout.RowsHaveSlots` | `torchft/quantization.py:106-123` | each row of each tensor has a slot of the rank that owns it |
| `Layout.SlotsOfRowsAreDistinct` | `torchft/quantization.py:106-123` | no two rows share a slot, within a tensor or across tensors |
| `Layout.SlotsOfSlice` | `torchft/quantization.py:106-123` | a slot that is not padding is the slot of exactly the row it stands for |
| `Layout.SliceDecodesAlone` | `torchft/collectives.py:217-228` | one rank's slice, re-read with group size 1 and ceiling-divided row counts, has every row where it was |
| `Layout.PaddedTensor` | `torchft/quantization.py:495-503` | one tensor padded to whole slices has as many bytes as its slices together |
| `Quantization.QuantizedError` | `torchft/quantization.py:142-161` | a quantized row fits in int8, is within RowMax/127 of the original and never larger in magnitude |
| `Quantization.LargestIsStoredAs127` | `torchft/quantization.py:30-52` | the scale is 127 over the row's largest magnitude, which is stored as plus or minus 127 |
| `Quantization.OneValue` | `torchft/quantization.py:46-50` | one value against a maximum: the limit is respected, all-zero rows included |
| `Quantization.ReducedError` | `torchft/quantization.py:339-365` | scaling before dividing by the factor quantizes the quotient: within its maximum over 127 |
| `Quantization.SumIgnoresRotation` | `torchft/quantization.py:405-426` | starting the accumulation at the own rank gives the plain sum |
| `Quantization.RoundTripError` | `torchft/quantization.py:339-375` | quantizing, reducing and quantizing again stays within 2/(127 d) times the sum of the row maxima |
| `Quantization.PaddingReducesToZero` | `torchft/quantization.py:417-419` | rows never written reduce to zeros with scale 1 |
| `Kernels.FindRowMax` | `torchft/quantization.py:130-143` | the maximum kept per lane over masked blocks is the row's largest magnitude |
| `Kernels.QuantizeRow` | `torchft/quantization.py:130-162` | the blockwise stores leave the quantized row at the address and change nothing else |
| `Kernels.DequantizeRow` | `torchft/quantization.py:238-258` | the blockwise loads give the stored values over the stored scale |
| `Kernels.AccumulateBlock` | `torchft/quantization.py:379-428` | one block of the accumulator is the sum over all ranks, from whichever rank it starts, and zero past the last column |
| `Kernels.FindReducedMax` | `torchft/quantization.py:314-337` | the first pass finds the maximum of the sums |
| `Kernels.UnreadIsUntouched` | `torchft/quantization.py:350-375` | what later blocks still read of the row being overwritten is the original, scale included |
| `Kernels.ReduceRow` | `torchft/quantization.py:312-375` | reducing in place over one of the inputs gives the reduction of the original rows and changes only the own copy |
| `Kernels.BlockExtendsMax` | `torchft/quantization.py:318-337` | a masked block extends the maximum of a prefix to the next prefix |
| `Kernels.StoreScale` | `torchft/quantization.py:145` | a stored scale is read back and nothing else changes |
| `Kernels.StoreBlock` | `torchft/quantization.py:157-161` | a masked store writes exactly the columns of the block that exist |
| `PackedBuffer.QuantizeInto` | `torchft/quantization.py:531-588` | programs in any order leave every row quantized in its slot and every padding slot zero |
| `PackedBuffer.ReduceIn` | `torchft/quantization.py:638-687` | programs in any order reduce every row the rank owns from the original copies and leave all other slots alone |
| `PackedBuffer.ReduceProgramDone` | `torchft/quantization.py:300-375` | no program reads or writes what another program writes |
| `PackedBuffer.DequantizeFrom` | `torchft/quantization.py:591-635` | every row is decoded from the slot that quantizing used for it |
| `PackedBuffer.QuantizeProgram` | `torchft/quantization.py:106-128` | the address a program computes is the slot of its row |
| `PackedBuffer.CopiesAreStrided` | `torchft/quantization.py:312-334` | the copies a reduce program walks over are the slots of that row at each rank, apart and in bounds |
| `PackedBuffer.DequantizeProgram` | `torchft/quantization.py:219-236` | dequantizing computes the address that quantizing computed |
| `PackedBuffer.ReduceProgram` | `torchft/quantization.py:297-312` | a reduce program finds its row, padding rows included, and does nothing past the last one |
| `Collectives.AllToAllMoves` | `torchft/collectives.py:366-375` | after the all-to-all each rank has every rank's copy of the rows it owns, at the slots the reduce kernel reads |
| `Collectives.AllGatherMoves` | `torchft/collectives.py:387-392` | after the all-gather every slot holds its owner's row |
| `Collectives.ChunkMoves` | `torchft/collectives.py:276-290` | a rank's own chunk, viewed alone, holds its rows |
| `Collectives.ExchangeAndReduce` | `torchft/collectives.py:361-385` | after quantize, all-to-all and reduce each rank holds the reduction of all ranks' original rows for the rows it owns |
| `Collectives.AllreduceQuantized` | `torchft/collectives.py:340-415` | every rank ends with tensors of the input shapes; with SUM each element is within 2/127 times the sum of the row maxima of the plain sum over the ranks, with AVG within 2/(127 n) times that of the mean; other operations and empty inputs are refused |
| `Collectives.AllRanksAgree` | `torchft/collectives.py:297-415` | all ranks hold the same tensors |
| `Collectives.AllReduceIsAccurate` | `torchft/collectives.py:361-415` | each element is within 2/(127 d) times the sum over ranks of that row's largest magnitude of the exact sum over d |
| `Collectives.ReduceScatterQuantized` | `torchft/collectives.py:202-294` | each rank ends with its slice, decoded from its own chunk, which answers SUM and AVG within the same bounds |
| `Collectives.ScatterIsAccurate` | `torchft/collectives.py:217-294` | scattered rows are as accurate as all-reduced ones and padding rows are zero |
| `DiLoCoSchedule.Configure` | `torchft/local_sgd.py:615-644` | the constructor succeeds exactly when at least one fragment, one outer optimizer per fragment or a shared one, a synchronous quorum, an even split, a short enough delay and an alpha in [0, 1] are given |
| `DiLoCoSchedule.PrepareAndSyncAlternate` | `torchft/local_sgd.py:745-795` | in every run, jumps included, the local step stays in range and prepares and syncs alternate on the same fragment |
| `DiLoCoSchedule.SyncsAreOnTime` | `torchft/local_sgd.py:752-791` | after any number of inner steps there was one sync per whole interval, the prepares are ahead by the delay, and the local step counts the rest |
| `DiLoCoSchedule.CommitsGoRound` | `torchft/local_sgd.py:738-743` | between jumps the i-th commit synchronizes fragment (start + i) mod n and the manager step counts the commits |
| `DiLoCoSchedule.EachFragmentOnce` | `torchft/local_sgd.py:738-743` | between jumps any n commits in a row synchronize each of the n fragments exactly once |
| `DiLoCoSchedule.FailedCommitRetries` | `torchft/local_sgd.py:777-790` | between jumps a failed commit is followed by preparing the same fragment |
| `DiLoCoSchedule.SameStepSameFragment` | `torchft/local_sgd.py:751-774` | replicas at one manager step have the same fragment in flight, whatever they did before |
| `DiLoCo.DiLoCo.StepPostHook` | `torchft/local_sgd.py:745-795` | the hook advances as scheduled, prepares and synchronizes only the current fragment, and its assertions fail exactly when the fragment to synchronize is empty |
| `DiLoCo.Fragment.PrepareSync` | `torchft/local_sgd.py:402-421` | the pseudogradient is the global copy minus the trained parameters and one all-reduce per parameter is in flight |
| `DiLoCo.Fragment.PerformSync` | `torchft/local_sgd.py:423-475` | a commit saves what the outer optimizer makes of the saved global copy, its own state and the averages, and moves each live parameter from the new global value towards the trained one by alpha; a failure leaves the saved copy and resets the live parameters to it |
| `DiLoCo.Fragment.MergeParameters` | `torchft/local_sgd.py:366-384` | live parameters move from the global value towards the trained one by alpha, in place |
| `DiLoCo.Fragment.Load` | `torchft/local_sgd.py:268-274` | loading a checkpoint sets the saved copy and the outer state and leaves the live parameters |
| `DiLoCo.Clone` | `torchft/local_sgd.py:31-42` | a clone has equal values in new storage |
| `DiLoCo.CopyAll` | `torchft/local_sgd.py:289-294` | copying makes the destination equal to the source and leaves the source |
| `DiLoCo.Fragment.SaveGrads` | `torchft/local_sgd.py:324-337` | the saved gradients are the global copy minus the live parameters |
| `DiLoCo.Fragment.Wait` | `torchft/local_sgd.py:387-400` | after waiting nothing is in flight and the gradients hold the averages |
| `DiLoCo.Fragment.OuterStep` | `torchft/local_sgd.py:339-358` | the outer optimizer is given the averages as gradients and updates the live parameters in place |
| `DiLoCo.Fragment.RestoreParameters` | `torchft/local_sgd.py:305-322` | restoring makes the live parameters the global copy |
| `DiLoCo.Fragment.SaveAndRestore` | `torchft/local_sgd.py:445-448` | what was trained survives restoring, because the saved copy is a clone |
| `DiLoCo.Fragment.StepAndSave` | `torchft/local_sgd.py:464-468` | the outer step's result becomes the global copy and the live parameters |
| `DiLoCo.DiLoCo.Advance` | `torchft/local_sgd.py:752-770` | a step is counted, and at the prepare step the current fragment, and no other, is prepared |
| `DiLoCo.DiLoCo.SyncTurn` | `torchft/local_sgd.py:775-791` | at the sync step the current fragment is synchronized and the next turn begins |
| `DiLoCoReplication.SavedIsGlobal` | `torchft/local_sgd.py:423-475` | what a replica saves is a function of the averages, outcomes and recoveries alone |
| `DiLoCoReplication.TrainingNeverSplitsTheGlobalCopy` | `torchft/local_sgd.py:423-475` | replicas that start equal and see the same averages and outcomes save the same forever, for any training and any two alphas |
| `DiLoCoReplication.GroupStaysTogether` | `torchft/local_sgd.py:745-795` | over the hook with all fragments, the schedule, joins, crashes, failed commits and recoveries from peers: replicas at one manager step hold the same global copies and outer states of all fragments |
| `DiLoCoReplication.SavedFollowsSteps` | `torchft/local_sgd.py:745-795` | in every such run what a replica saves is the fold of the committed averages over the fragments whose turn it was, up to its manager step |
| `DiLoCoReplication.AveragedIsDistanceToMean` | `torchft/local_sgd.py:324-337` | from one global copy the averaged pseudogradient is the global copy minus the mean of the trained parameters |
| `DiLoCoReplication.OuterStepIsTowardsTheMean` | `torchft/local_sgd.py:324-475` | with averages over what the members of a step trained, each against its own copy and at its own point of the run: the next global copy and outer state are what the outer optimizer makes of the common copy and its distance to their mean |
| `DiLoCoReplication.FailedCommitForgetsTraining` | `torchft/local_sgd.py:446-475` | after a failed commit two replicas with one global copy are equal in everything, live parameters included: what each trained is forgotten |
| `DiLoCoReplication.MergedLiesBetween` | `torchft/local_sgd.py:366-384` | for every alpha in [0, 1] a merged parameter lies between the global and the trained value, and alpha 0 and 1 give the ends |
| `RwLock.RWLock.Step` | `torchft/checkpointing/_rwlock.py:79-123` | each atomic action of acquire and release updates the fields as the transition says and keeps the invariant |
| `RwLock.RunsKeepInv` | `torchft/checkpointing/_rwlock.py:79-123` | invariant of every run of any number of threads with any timeouts: counter, counter lock and writer lock say exactly where the threads are |
| `RwLock.ReadersAndWritersExclude` | `torchft/checkpointing/_rwlock.py:79-123` | never a reader and a writer inside together, nor two writers |
| `RwLock.WriterGetsIn` | `torchft/checkpointing/_rwlock.py:116-123` | in every reachable state a writer that finds the writer lock free takes it and is in, and gives it back when done |
| `RwLock.ReaderGetsIn` | `torchft/checkpointing/_rwlock.py:79-94` | in every reachable state without a writer a reader alone gets in, counted, the first one taking the writer lock |
| `RwLock.ReaderGetsOut` | `torchft/checkpointing/_rwlock.py:96-103` | in every reachable state a reader alone gets out, uncounted, the last one giving the writer lock back |
| `RwLock.FailureNeedsATimeOut` | `torchft/checkpointing/_rwlock.py:79-119` | over every run an acquire that has not succeeded is outside again only after a timeout of its own |
| `RwLock.FailedAcquireLeavesNoTrace` | `torchft/checkpointing/_rwlock.py:80-91` | once a thread that acquired nothing is outside again, fields and all places are those of a run in which it never tried, whatever the others did meanwhile |
| `RwLock.FailedAcquiresCanBeDeleted` | `torchft/checkpointing/_rwlock.py:79-119` | the steps of acquires that fail, at either lock, can be deleted from any run: the rest is a run and the other threads end where they were |
| `RwLock.FieldsFollowFromPlaces` | `torchft/checkpointing/_rwlock.py:69-123` | the lock's fields are determined by where the threads are |
| `RwLock.NoReleaserBehindAWaitingReader` | `torchft/checkpointing/_rwlock.py:86-103` | while a first reader waits for the writer lock nobody is reading or releasing |
| `RwLock.ReleaserIsNeverStuck` | `torchft/checkpointing/_rwlock.py:96-103` | whoever holds the counter lock against a releasing reader can take its next step at once |
| `RwLock.HolderLetsGo` | `torchft/checkpointing/_rwlock.py:79-103` | in every interleaving whoever holds the counter lock gives it up within four steps of its own, each of them enabled, and without a timeout if a releasing reader waits for it |
| `RwLock.ReleaseFindsReaders` | `torchft/checkpointing/_rwlock.py:97` | the assertion in the release never fails |
| `RwLock.ReleasesAreOfHeldLocks` | `torchft/checkpointing/_rwlock.py:89-103` | no release is of an unlocked lock |
| `ManagedWork.Work.Then` | `torchft/manager.py:1166-1182` | then on any future of the chain makes a new tail behind it and keeps the head-to-tail list; on the tail it appends |
| `ManagedWork.Work.SetFutureCallback` | `torchft/manager.py:1256-1307` | built once; over complete work every callback runs as it is attached, with the outcome of the turns one after the other, errors included; over running work all of them are delayed and refer to the last node |
| `ManagedWork.Work.Wait` | `torchft/manager.py:1318-1333` | false with an error if the work failed; otherwise the first wait runs the callbacks attached before it, yields their fold if none raises and is true exactly if none but the first does; a second one re-runs nothing; on a chain built while the work ran, the delayed callbacks look at the shared node, and the wait is true, an error reported all the same, if there was one and nothing was attached since |
| `ManagedWork.Work.BlockCurrentStream` | `torchft/manager.py:1335-1341` | builds the chain and changes nothing if it was built: callbacks run exactly if the work is complete then, else all of them are delayed and refer to the tail |
| `ManagedWork.Work.WorkCompletes` | `torchft/manager.py:1279-1304` | every delayed callback looks at the node the loop ended on: it fails if that has no callback, or runs the one attached there since, once for each delayed one; each node ends with the future of its turn |
| `ManagedWork.ADelayedCallbackIsLost` | `torchft/manager.py:478-486` | the chain an all-reduce builds, completed after it was built: the wait returns true with an error reported, and the averaging callback never ran |
| `ManagedWork.GoodChainsFold` | `torchft/manager.py:1287-1293` | over good work and with no callback raising, every callback runs once and in order, the i-th on the fold of those before it, and the chain ends with the whole fold |
| `ManagedWork.RestIsAFold` | `torchft/manager.py:1279-1304` | a failure of the work or of the first callback is reported and replaced by the default; from there the rest is a fold, and the chain ends well exactly if none of the rest is missing or raises |
| `ManagedWork.NoneToRun` | `torchft/manager.py:1279-1304` | delayed callbacks without one to run leave the value, report one error, and end well exactly if there is only one |
| `ManagedWork.Work.AttachAll` | `torchft/manager.py:1272-1306` | the loop over the chain runs or delays every callback once and ends on the tail |
| `ManagedWork.Work.Attach` | `torchft/manager.py:1279-1304` | one turn of the loop runs the callback on the value so far, or leaves it delayed |
| `Chunks.SplitThenMerge` | `torchft/checkpointing/http_transport.py:287-298` | merging the strided chunks of any list gives the list, for every number of chunks |
| `Chunks.MergeChunks` | `torchft/checkpointing/http_transport.py:291-298` | the nested loops interleave chunks of any lengths row by row |
| `Chunks.StridedAt` | `torchft/checkpointing/http_transport.py:287-288` | element j of chunk c is element c + j n of the list, and exists exactly when that does |
| `PgTransport.PrepareStateDict` | `torchft/checkpointing/pg_transport.py:106-146` | paths, leaf metadata and tensor list follow the leaves in order |
| `PgTransport.IndexIsAligned` | `torchft/checkpointing/pg_transport.py:117-146` | the number of tensors before a leaf is the index of its own storage |
| `PgTransport.SendCheckpoint` | `torchft/checkpointing/pg_transport.py:202-233` | every destination is sent length, metadata and every tensor under its own tag, and nobody else is sent anything |
| `PgTransport.RecvTensor` | `torchft/checkpointing/pg_transport.py:258-291` | a tensor is received into the storage at its path if there is one of its size, else into new storage |
| `PgTransport.RecvCheckpoint` | `torchft/checkpointing/pg_transport.py:235-305` | fails exactly on a different step or a storage of another size; otherwise every leaf arrives with the sender's content, in place where there was a tensor, if and only if leaves whose paths share storage at the receiver have equal bytes |
| `PgTransport.RecvLeaf` | `torchft/checkpointing/pg_transport.py:293-303` | a leaf is received by its kind, and the tensor index advances exactly for tensors |
| `PgTransport.RecvNext` | `torchft/checkpointing/pg_transport.py:258-291` | receiving one more tensor leaves the leaves that arrived before as they are, also where they share its storage |

## Left out

- gRPC, HTTP, TCPStore, the tokio channels' capacity and lag, request timeouts and `_quorum_with_retries`: a request is
  handled in one step and its answer arrives or the replica crashes.
- Lighthouse restarts, which reset the quorum id, and replicas that are cut off and come back at the top step: the
  protocol does not defend against them.
- Manager.AverageCountsGradientsExactlyWhen: counts who adds a gradient when no recovery fails; a failed recovery or
  collective makes the step fail instead.
- Replication.ReplicasAgree: is about steps with `allow_heal`; with it off a replica that is behind counts its own lower
  steps without fetching a checkpoint, and nothing is claimed.
- Lighthouse.QuorumsAreStrong: says nothing of runs with shrink-only requests, for which `Lighthouse.QuorumSizeExactly` and
  `Lighthouse.MajorityExactly` give the exact conditions.
- A replica group is one unit in `Cluster`: only the last joiner's record is forwarded, so ranks of one group that heal
  differently are not modelled. `GroupJoin` has the join itself.
- Checkpoints in `Cluster` carry step, batches and weights; the transports' bytes are `PgTransport` and `Chunks`.
- Floating point rounding, the fp8 hardware type with its limit of 448, and overflow of the scale for denormal rows:
  values are reals, truncated as by a conversion to int8. A stored scale of 0, which the dequantizing kernel divides by,
  is excluded by a precondition that the collectives are shown to meet.
- Tensor pointers, strides and one-dimensional inputs of the quantized collectives: a tensor is its rows and columns, and
  dequantizing yields new tensors where the kernels write into the inputs.
- Interleaving of two kernel programs in the middle of a row: programs run in any order, one after the other, and write
  disjoint slots.
- CUDA streams and events, process group implementations and the subprocess-based groups.
- DiLoCo.Fragment.PerformSync: a tensor is a list of single elements, each with its own all-reduce, so a fragment has one
  work per element where the code has one per parameter.
- DiLoCo bucketization: the packer advances by bucket size rather than by what it packed, so only a single bucket is a
  round trip. One outer optimizer shared by several fragments. The `LocalSGD` class, which averages without fragments.
- Moving parameters into a recovered replica during `start_quorum` inside the heap model of the DiLoCo hook: the quorum's
  step is an input of `DiLoCo.DiLoCo.StepPostHook` and the loading is `DiLoCo.Fragment.Load`. On values,
  `DiLoCoReplication.GroupStaysTogether` has recoveries at the prepare step.
- ManagedWork.Work.Wait: the timeout of the wrapped future is not modelled.
- PgTransport.RecvCheckpoint: tensors are received one after the other in path order, where the code awaits the in-place
  ones together at the end, so paths that share storage may be filled in either order; that every leaf arrives if and
  only if such leaves have equal bytes does not depend on it.
- GroupJoin.EachReceivesItsOwnQuorum: is about ranks that ask again only once they are answered; the handler accepts others
  too, and `GroupJoin.OwnQuorumExactlyIfNoneInFlight` and `GroupJoin.HearsTheNextReply` say what those receive.
- `RWLock` timeouts inside `disallow_checkpoint`, where the flag is set before the lock is taken.
- Pickling in `PgTransport` is any pair of inverse functions, and a plain leaf is never one of the metadata records.
- The HTTP checkpoint server, dashboard, logging, launchers, the parameter server, the data sampler and the linter: they
  would add easy members only.
