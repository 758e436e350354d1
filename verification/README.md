# Repotraverse: model and proofs

A Dafny model of the algorithms that Repotraverse's conclusions rest on, with their correctness proved for
all inputs and all runs.  Git, SQLite, the file system and the clock appear as plain state: maps of refs, tables,
a file-size function, a clock value.

| file | subject |
|---|---|
| `Coordination.dfy` | the task lease that processes hold through Git refs, as a state machine with local views of any age |
| `Worker.dfy` | the order in which the worker uses the lease, and how long a completion then lasts |
| `WorkQueue.dfy` | the local work queue and the single runner lease, one step per transaction |
| `FactCache.dfy` | the bounded fact cache and what storing a fact does to the queue |
| `WorkspacePool.dfy` | the reference-counted, byte-bounded, least-recently-used pool of revision workspaces |
| `Lineage.dfy`, `UnionFind.dfy`, `HistoryStats.dfy` | matching elements between revisions, uniting their identities, and the rates reported from both |
| `ChangeEvidence.dfy` | origins of changes, the breadth-first propagation and the fact budget |
| `Dependents.dfy` | the reverse-dependency worklist |
| `HistoryPlan.dfy` | pull request facts and the grouping of history into integration units |
| `Encoding.dfy`, `CommandLine.dfy`, `Glob.dfy` | UTF-8 and UTF-16, Windows argument quoting, the two-row wildcard table |
| `Options.dfy`, `Ordering.dfy`, `Sums.dfy` | shared: optional values, byte order of strings, sums over sets |

Code that changes state is a class or a method with the loops of the source, proved equal to functions on values; the
properties are lemmas about those functions and about runs of them.

## What was found not to hold without a condition

- An unexpired owner can lose its claim.  It cannot in any run exactly when no lease time exceeds the fixed hour of a
  completed claim or the time after which a renewal by a process of the same producer could be taken over
  (`Coordination.OwnersKeptExactly`, with the runs `LongLeaseIsDisplaced` and `ShortRenewalIsDisplaced`).
- A completed claim can be reopened by a process of the same producer that is still at work, has a granted acquire to
  record, or acquires the task while an older, unexpired lease of the producer is recorded after the fetch that shows the
  completion.  Without these it lasts (`Worker.CompletionLastsExactly`), so after run_task it lasts when the other
  processes of the producer are quiet (`Worker.Extraction.RunTask`); `Worker.AcceptedAcquireReopens` is a run that
  reopens it.
- Work can be stranded without a runner, as `WorkQueue.StaleRunnerStrandsWork` shows.  A run loses a wake-up exactly when
  one of its steps strands work (`WorkQueue.NoLostWakeup`), which no step does when work is completed only under a lease
  and all clients can launch for each other (`WorkQueue.OrderlyRunIsAwake`).  Storing a fact also reopens work without
  launching for it (`FactCache.OtherWorkIsReopened`, `FactCache.StoreStrandsExactly`).
- A runner can be stopped by the exception of a claim, with its lease held, while a silent one still owns running work
  (`WorkQueue.SecondRunnerIsStopped`); only a launch after the lease has gone stale recovers
  (`WorkQueue.HeldUpUntilRecovered`, `WorkQueue.LaunchRecovers`).
- A rate of an element can exceed 1.  None does exactly when no accepted review pairs an element without an id with one
  that has an id (`HistoryStats.RatesBoundedExactly`).
- Arguments are lost behind an embedded NUL and behind a program name whose quotes do not contain its blanks
  (`CommandLine.ContainedRoundTrips`, `CommandLine.CommandLineRoundTrips`: the exact conditions).
- A full workspace can stay without leases, but only one whose removal has thrown (`WorkspacePool.Pool.Release`).
- For an included header a change is confirmed as induced only under an unchanged context; the propagation along
  dependents does not look at the context (`ChangeEvidence.InducedDespiteContext`).
- `semantic_dependents` reports truncation also when exactly `maximum` edges exist, and lets one row through for a
  maximum of 0 (`Dependents.SemanticDependents`).
- Storing a fact completes cancelled work (`FactCache.StoringIgnoresCancellation`).

## Model

| member | source | states |
|---|---|---|
| Coordination.StepInv | src/git_coordination.cpp:837-1014 | every step of every process, with a view of any age, keeps the claim chain legal, the ref history free of forks and every completed claim backed by its result |
| Coordination.RunInv | src/git_coordination.cpp:837-1014 | the same for every run of any number of processes |
| Coordination.ClaimHistory | src/git_coordination.cpp:837-934 | in every run each claim commit keeps the producer and acquisition time of its parent, or starts a lease on an uncompleted one past its expiry and grace; no commit has two successors, so of a heartbeat and a takeover one loses |
| Coordination.DisplacedOnlyAfterExpiry | src/git_coordination.cpp:837-896 | whatever step moves a claim ref, the old tip stays with its producer unless it had run out, and it is only deleted when completed and run out |
| Coordination.UnexpiredOwnerKeepsClaim | src/git_coordination.cpp:859-959 | from any reachable state and through any run, a processing claim belongs to the same producer for as long as the lease it was seen with lasts, when that lease is outlasted: it ends no later than a claim completed at once, and no later than a renewal by any process of its producer could be taken over |
| Coordination.OwnersKeptExactly | src/git_coordination.cpp:859-959 | over deployments: no run from the start takes a processing claim from its producer early if and only if the leases of all processes are outlasted |
| Coordination.StepHolds | src/git_coordination.cpp:859-959 | one step of the same: the tip is still a lease of the owner, written no earlier than the one it was seen with |
| Coordination.LongLeaseIsDisplaced | src/git_coordination.cpp:950-958 | any process with a lease time above the hour of a completed claim loses its claim before the lease ends: it completes, an hour later the claim is pruned |
| Coordination.ShortRenewalIsDisplaced | src/git_coordination.cpp:871-934 | and so does any process that another one of its producer can renew to a time which, grace included, ends before its own: a third one takes the claim over |
| Coordination.CompletedClaimHasResult | src/git_coordination.cpp:936-1014 | in every run a completed claim has a results ref that holds the result the claim names, under any interleaving of stale completers and pruners |
| Coordination.OrphanedForever | src/git_coordination.cpp:961-1014 | a result whose publisher never completed the claim is final: no continuation changes it, removes it or completes the claim |
| Coordination.CompletedUntilExpiry | src/git_coordination.cpp:916-959 | in every run without a heartbeat by its producer a completed claim stays at its commit until it runs out |
| Coordination.StepLeavesRest | src/git_coordination.cpp:107-1014 | a step of a process leaves the claims and results of all other tasks alone, all views but the one its producer has of the task, and what the other processes are doing; only time moves the clock |
| Coordination.PruneRemoves | src/git_coordination.cpp:226-243 | a prune deletes the claim ref of a completed claim that has run out exactly if it is still at the observed commit, then its result unless that deletion fails, and then the view; of any other claim it leaves everything |
| Coordination.Deployment.RefreshClaim | src/git_coordination.cpp:107-126 | the catalog records the fetched claim commit, and nothing else changes; the invariant is kept |
| Coordination.Deployment.Acquire | src/git_coordination.cpp:859-896 | the whole new state; a push is started exactly when the reply says so, and processing_local is said exactly of an unexpired own claim; the invariant is kept |
| Coordination.Deployment.Heartbeat | src/git_coordination.cpp:916-934 | the whole new state; a push is started exactly for an observed claim of the own producer; the invariant is kept |
| Coordination.Deployment.Complete | src/git_coordination.cpp:936-950 | the whole new state; a result upload is started exactly for an observed claim of the own producer; the invariant is kept |
| Coordination.Deployment.PublishResult | src/git_coordination.cpp:961-1014 | the results ref is created, never replaced, and only then the completion is prepared; the invariant is kept |
| Coordination.Deployment.Publish | src/git_coordination.cpp:837-851 | the claim ref moves exactly when it stands at the observed commit, or is absent when none was observed; the invariant is kept |
| Coordination.Deployment.ObserveOwnClaim | src/git_coordination.cpp:852-856 | the accepted commit becomes the own view; the invariant is kept |
| Coordination.Deployment.BeginPrune | src/git_coordination.cpp:226-231 | only a claim observed as completed and run out is pruned; the invariant is kept |
| Coordination.Deployment.DeleteClaim | src/git_coordination.cpp:232-237 | the claim ref is deleted only at the observed commit; the invariant is kept |
| Coordination.Deployment.DeleteResult | src/git_coordination.cpp:238-243 | the result goes after the claim, and the view is forgotten; the invariant is kept |
| Worker.CompletionLastsExactly | src/worker.cpp:61-227 | in every ordered state, a completed claim keeps its place until it runs out through all that processes in the order of run_task can do, if and only if nobody is about to push a successor and no process of its producer works on the task, has a granted acquire to record, has synchronized for an acquire while the catalog shows an unexpired own lease, or is in a call with such a lease yet to record while it acquires itself or another process of the producer exists |
| Worker.CompletedStays | src/worker.cpp:61-227 | one half over whole runs: nobody else gets to renew it, since a heartbeat is only sent between the grant and the join, and an acquire first records the completed claim |
| Worker.LateHeartbeatReopens | src/worker.cpp:142-154 | the other half: a process at work fetches the completed claim and renews it |
| Worker.LateRecordReopens | src/git_coordination.cpp:852-856 | so does one whose acquire was accepted before the completion and is recorded after it |
| Worker.LateViewReopens | src/git_coordination.cpp:859-875 | and one that synchronizes the completed claim, if another process of its producer then records an older, unexpired lease: it is told processing_local once the fact has left the cache |
| Worker.LateSyncReopens | src/git_coordination.cpp:859-875 | and one whose own sync has fetched such a lease before the completion and records it after |
| Worker.QuietLasts | src/worker.cpp:61-227 | so a completed claim lasts when the processes of its producer are in no call and not at work on the task |
| Worker.AcceptedAcquireReopens | src/git_coordination.cpp:852-934 | from an empty deployment: two processes of a producer reach a completed claim that nobody works on and that the first then replaces |
| Worker.MoveInOrder | src/git_coordination.cpp:859-1014 | every move keeps the order of the calls: before a call looks at the claim it does nothing but prune |
| Worker.BeatIs | src/git_coordination.cpp:916-934 | a heartbeat by the steps it consists of: it renews the claim when the ref is at a lease of the producer and otherwise changes none |
| Worker.AskIs | src/git_coordination.cpp:859-896 | an acquire: the claim may be taken if it is free, processing for the own producer, or processing for another and run out longer than the grace ago; an own one that is not run out keeps its lease, any other gets a new one |
| Worker.FinishIs | src/git_coordination.cpp:936-1014 | a completion: the result is stored exactly where there is none and the claim is known as own, and the claim is completed exactly if, besides, its ref is there |
| Worker.StillOwns | src/git_coordination.cpp:859-959 | in less time than its lease lasts no run of the others takes a claim whose producer has outlasted leases |
| Worker.Extraction.Beat | src/worker.cpp:142-154 | one turn of the heartbeat thread: when the claim ref is at a lease of the producer, afterwards it is at one new commit on top, processing, of the same producer and acquisition time, with one heartbeat more and a lease time from now to its expiry; otherwise no claim changes; the catalog shows the claim as its ref stands |
| Worker.Extraction.Period | src/worker.cpp:142-154 | between two heartbeats the other processes make whatever moves are open to them; if that takes less time than the claim has left and the leases of the producer are outlasted, the heartbeat renews the claim |
| Worker.Extraction.Extract | src/worker.cpp:139-166 | the heartbeats until the join: if each pause takes less time than the claim has left, the claim is own at the join whatever the others do, and lasts as long as a lease written at the last heartbeat |
| Worker.Extraction.SyncClaim | src/git_coordination.cpp:128-187 | afterwards the catalog shows the claim as its ref stands, and none when there is no ref |
| Worker.Extraction.Ask | src/git_coordination.cpp:859-902 | granted exactly when no fact is known or imported and the claim is free, processing for the own producer, or run out longer than the grace ago; then with the own lease that is still good or with a new one from now on, and otherwise no claim changes |
| Worker.Extraction.Finish | src/worker.cpp:204-213 | reported exactly when the claim ref is at an own lease and there is no result; then the claim is completed with the result for an hour from now, and otherwise no claim changes; the result is stored exactly when the claim is known as own and there is none |
| Worker.Extraction.RunTask | src/worker.cpp:61-227 | acquire, heartbeats, join, complete, with any moves of other processes before each heartbeat and before the join: every move is one the order allows; the grant and the new lease exactly as the acquire finds the claim; an extraction whose pauses are shorter than its leases has its claim at the join, lasting as long as one written at the last heartbeat; completion is reported exactly when the claim is own at the join and there is no result; it has its result, and it lasts until it runs out when the other processes of the producer leave the task alone |
| WorkspacePool.SizeMonotone | src/revision_workspace.cpp:92-100 | more paths never have a smaller size |
| WorkspacePool.SizeAtMostTotal | src/revision_workspace.cpp:92-108 | no set of paths is larger than the whole tree |
| WorkspacePool.ComputeSize | src/revision_workspace.cpp:92-108 | adding path by path gives the size of the set |
| WorkspacePool.ServingGrows | src/revision_workspace.cpp:291-324 | serving a request never lowers the estimate of an entry, keeps it exact and within the tree, so no subtraction can underflow |
| WorkspacePool.Grow | src/revision_workspace.cpp:291-324 | the grown entry and the bytes to add to the counter |
| WorkspacePool.NextVictim | src/revision_workspace.cpp:207-217 | evicting a least recently used evictable entry extends a least-recent-first order of victims |
| WorkspacePool.EvictionKeepsCounted | src/revision_workspace.cpp:192-219 | eviction keeps every lease count equal to the number of live leases |
| WorkspacePool.GrantKeepsCounted | src/revision_workspace.cpp:286-289 | granting a lease keeps the counts equal to the live leases and every live lease covered |
| WorkspacePool.ReleaseKeepsCounted | src/revision_workspace.cpp:330-339 | releasing a lease keeps them too |
| WorkspacePool.MoveKeepsCounted | src/revision_workspace.cpp:116-130 | moving a lease keeps them too |
| WorkspacePool.LiveIsLeased | src/revision_workspace.cpp:325-339 | the entry of a live lease exists, is leased, and holds every file the lease asked for |
| WorkspacePool.Lease.Reset | src/revision_workspace.cpp:134-143 | the lease lets go of its entry once and all other leases stay good, also when the removal of the entry fails and the failure is swallowed |
| WorkspacePool.Lease.TakeFrom | src/revision_workspace.cpp:116-130 | one live lease object takes the place of another and the pool is otherwise unchanged |
| WorkspacePool.Pool.constructor | src/revision_workspace.cpp:145-159 | an empty valid pool under the effective limits |
| WorkspacePool.Pool.Open | src/revision_workspace.cpp:149-150 | a pool is refused exactly when it may hold no revision |
| WorkspacePool.Pool.RemoveEntry | src/revision_workspace.cpp:221-231 | one entry goes and the counter stays exact; when the Git command throws, nothing has changed |
| WorkspacePool.Pool.Release | src/revision_workspace.cpp:330-339 | the count drops by one, a full entry goes with its last lease, the counter stays exact; when its removal throws, the entry stays with no lease |
| WorkspacePool.Pool.Lower | src/revision_workspace.cpp:330-336 | the count and the last use change and the entry waits for its removal exactly if it is full and unleased |
| WorkspacePool.Pool.EvictFor | src/revision_workspace.cpp:192-219 | terminates; removes unleased, unprotected entries in least-recently-used order, each only while the request does not fit; fails when nothing evictable is left or when a removal throws, and then keeps what it has done |
| WorkspacePool.Pool.LeastRecent | src/revision_workspace.cpp:207-212 | the evictable entry that was used longest ago, the first by key of several; none exactly when nothing is evictable |
| WorkspacePool.RoomIsFit | src/revision_workspace.cpp:192-205 | the room that a grant needs, with the entry stored: its bytes and the number of entries within the limits, its growth within the free space above the reserve; it is what the eviction loop tests on the sums |
| WorkspacePool.ByteLimitIs | src/revision_workspace.cpp:151-158 | the configured limit, or without one ten gibibytes or what is free beyond the reserve if that is less |
| WorkspacePool.ServingSuffices | src/revision_workspace.cpp:286-327 | the served entry holds the old and the requested files at their exact size; it is full if either is, and a full one stays as it was; its leases and last use are not touched |
| WorkspacePool.ReleasedIs | src/revision_workspace.cpp:330-339 | a release takes one lease, counts as a use, and drops a full entry with its last lease; all other entries stay |
| WorkspacePool.Pool.Grant | src/revision_workspace.cpp:286-327 | the stored entry, the lease handed out and the counter keep the pool valid |
| WorkspacePool.Pool.Store | src/revision_workspace.cpp:286-327 | an exact entry within the limits keeps the accounting |
| WorkspacePool.Pool.MakeRoom | src/revision_workspace.cpp:192-219 | making room keeps every live lease, whether it succeeds, finds nothing to evict or a removal throws |
| WorkspacePool.Pool.Materialize | src/revision_workspace.cpp:245-289 | refused for lack of space exactly when with the reported victims gone the request does not fit and nothing is evictable, for a failed removal or by Git exactly when those fail, and else granted; a refusal leaves the pool valid with only the evictions done |
| WorkspacePool.Pool.Acquire | src/revision_workspace.cpp:233-328 | each answer exactly: granted when the request fits after the victims, whose removals succeed, and Git succeeds or is not needed; refused for lack of space exactly when with the victims gone it does not fit and nothing is evictable; after success and failure the counter is the sum of exact estimates within all limits, every live lease is counted and covered, and an unleased full entry is one whose removal has failed before |
| WorkQueue.NoLostWakeup | src/catalog.cpp:1657-2095 | from any state in which due, uncancelled, unblocked work with a usable credential has a runner lease, and while the clock runs, it has one in every state of a run if and only if no step strands work: without a lease, completes what such work waits for, or enqueues such work without launching |
| WorkQueue.StepAwakeExactly | src/catalog.cpp:1657-2095 | step by step: a wake-up is lost if and only if the state before and the arguments strand work |
| WorkQueue.EmptyQueueAwake | src/catalog.cpp:1657-1676 | the empty queue has nothing to wake up for |
| WorkQueue.OrderlyRunIsAwake | src/catalog.cpp:1657-2095 | from the empty queue no wake-up is lost when work is completed only while there is a lease and whoever enqueues has launching configured and can use the credentials of the others |
| WorkQueue.StaleRunnerStrandsWork | src/catalog.cpp:2019-2036 | a run from the empty queue that loses one: a silent runner is replaced, its successor finds nothing to run and releases, and the completion by the first leaves due work without a runner |
| WorkQueue.StepInv | src/catalog.cpp:1657-2141 | every step keeps one running item at most, FIFO numbers unique, cancelled work uncompleted and launch tokens single use |
| WorkQueue.RunInv | src/catalog.cpp:1657-2141 | the same over whole runs |
| WorkQueue.AtMostOneRunning | src/catalog.cpp:263-264 | no reachable state has two running items |
| WorkQueue.TokenAdoptedOnce | src/catalog.cpp:1882-1912 | a launch token that was adopted is never adopted again |
| WorkQueue.CancelledStaysUncompleted | src/catalog.cpp:2126-2141 | work with an accepted cancellation is not completed by any queue step before it is enqueued again |
| WorkQueue.ClaimNextPicksLeast | src/catalog.cpp:1957-2016 | claiming makes an item running exactly if it is the least by (maintenance, fifo_sequence) of the due, compatible, unblocked items |
| WorkQueue.LostRunnerNeverLeaves | app/main.cpp:295-306 | a runner whose lease was taken over is never told to release, so its loop does not end |
| WorkQueue.RunRunner | app/main.cpp:295-336 | the loop of run_runner is a run of the queue that is orderly whatever the credentials of the clients and keeps the invariant; it is left with the lease released and nothing runnable, or thrown out of with the lease held and the queue as the claim found it |
| WorkQueue.ClaimOutcome | src/catalog.cpp:1929-2017 | the outcome of a claim can be told from the state before it: failing dependents and parking change neither what is claimable nor what runs |
| WorkQueue.AbortedClaim | src/catalog.cpp:2003-2016 | a claim that throws leaves the queue as it was |
| WorkQueue.SecondRunnerIsStopped | app/main.cpp:295-306 | a run from the empty queue after which the runner with the lease can neither claim the due work nor release the lease |
| WorkQueue.HeldUpUntilRecovered | src/catalog.cpp:1657-2141 | in every run without a launch and without its own runner settling it, running work stays so and no other work gets to run, whoever holds the lease |
| WorkQueue.LaunchRecovers | src/catalog.cpp:1790-1815 | a launch recovers it exactly when the lease is absent or stale |
| WorkQueue.EnqueueQueues | src/catalog.cpp:1657-1756 | new work waits behind all other, failed or cancelled work starts over at its old place without attempts, any other is left as it is, and the dependencies are added; an unknown dependency undoes everything |
| WorkQueue.EnqueueLaunches | src/catalog.cpp:1700-1756 | accepted work for which the client can launch has a live lease afterwards, the one there or a new launch under the token |
| WorkQueue.ScheduleLaunches | src/catalog.cpp:831-895 | a scheduled task has one too, whatever its credential |
| WorkQueue.AdoptionActivates | src/catalog.cpp:1882-1912 | an adoption makes the launching lease with the token and identities active for the owner and changes nothing else |
| WorkQueue.HeartbeatRenews | src/catalog.cpp:1914-1927 | a heartbeat of the owner sets the heartbeat time of the active lease, anybody else changes nothing |
| WorkQueue.LiveRunnerKeepsLease | src/catalog.cpp:1657-2095 | a runner whose lease is live at every step of a run keeps it until it releases it, whatever the others do |
| WorkQueue.LaunchNeedsDeadLease | src/catalog.cpp:1790-1865 | a launch changes nothing while the lease is live, and else leaves none or the new one under its token |
| WorkQueue.LaunchHandsBack | src/catalog.cpp:1790-1865 | without a live lease running work is pending again; and if no launch follows, work with a credential waits for it |
| WorkQueue.ClaimGivesFirst | src/catalog.cpp:1957-2016 | a claim by the lease owner gives the eligible item that no other eligible one precedes, by its columns |
| WorkQueue.ClaimParks | src/catalog.cpp:1957-2000 | and parks what precedes it and lacks only a credential |
| WorkQueue.ClaimFailsDependents | src/catalog.cpp:1936-1956 | and fails waiting work that depends on failed or cancelled work |
| WorkQueue.ClaimLeavesRest | src/catalog.cpp:1929-2017 | and leaves everything else as it was |
| WorkQueue.CompletionSettles | src/catalog.cpp:2019-2036 | completion by the running owner gives completed, or cancelled if a cancellation was accepted |
| WorkQueue.FailureCounts | src/catalog.cpp:2038-2065 | a failure of running work by its owner counts one attempt and gives cancelled if it was cancelled, else failed exactly when the attempts reach the maximum, else retry after 1, 2, 4 .. 256 seconds |
| WorkQueue.AttemptsAreFailures | src/catalog.cpp:2038-2065 | over runs: the attempts are the failures since the item was enqueued |
| WorkQueue.FailsAtMaximum | src/catalog.cpp:2038-2065 | so over runs with one maximum an item fails at most so many times after it was enqueued, and the n-th failure fails it for good exactly if n is the maximum, and else it is tried again |
| WorkQueue.CancellationMarks | src/catalog.cpp:2126-2141 | a cancellation flags running work, cancels waiting work and leaves finished work |
| WorkQueue.ReleaseFreesLease | src/catalog.cpp:2067-2095 | the lease goes exactly when its owner asks and no uncancelled, unblocked work is due |
| WorkQueue.Catalog.NextSequence | src/catalog.cpp:1673-1676 | one more than every FIFO number in use, 1 for an empty queue |
| WorkQueue.Catalog.EnqueueWork | src/catalog.cpp:1657-1756 | the whole new state: insertion or rerun, dependencies, launch; unknown dependencies undo everything; the invariant is kept |
| WorkQueue.Catalog.ScheduleTask | src/catalog.cpp:831-895 | the whole new state: insertion and launch without a credential test; the invariant is kept |
| WorkQueue.Catalog.ClaimRunnerLaunch | src/catalog.cpp:1790-1865 | the whole new state: recovery, launch or parking; the invariant is kept |
| WorkQueue.Catalog.AdoptRunner | src/catalog.cpp:1882-1912 | the whole new state; adopted exactly when token and identities match a launching lease; the invariant is kept |
| WorkQueue.Catalog.HeartbeatRunner | src/catalog.cpp:1914-1927 | the whole new state; alive exactly for the owner of the active lease; the invariant is kept |
| WorkQueue.Catalog.SelectNext | src/catalog.cpp:1957-1989 | the scan stops at the least usable item and passes over exactly the unusable ones before it |
| WorkQueue.Catalog.SelectAndPark | src/catalog.cpp:1957-2000 | what was passed over waits for its credential |
| WorkQueue.Catalog.ClaimNextWork | src/catalog.cpp:1929-2017 | the whole new state and which of three outcomes: claimed, nothing, or thrown with everything undone, which happens exactly when the runner has the lease and usable work while other work is running; the invariant is kept |
| WorkQueue.Catalog.CompleteWork | src/catalog.cpp:2019-2036 | the whole new state: completed or cancelled, only for the running owner; the invariant is kept |
| WorkQueue.Catalog.FailWork | src/catalog.cpp:2038-2065 | the whole new state: cancelled, failed or waiting with the capped back-off; the invariant is kept |
| WorkQueue.Catalog.ReleaseRunnerIfEmpty | src/catalog.cpp:2067-2095 | the lease goes exactly when its owner asks and nothing is runnable; the invariant is kept |
| WorkQueue.Catalog.CancelWork | src/catalog.cpp:2126-2141 | the whole new state; accepted exactly for unfinished work; the invariant is kept |
| FactCache.OlderIsStrictTotal | src/catalog.cpp:625 | (accessed_at, created_at, fact_id) orders the facts strictly and totally |
| FactCache.OldestUnique | src/catalog.cpp:622-633 | the n oldest facts are one set |
| FactCache.OldestAdd | src/catalog.cpp:622-633 | evicting the oldest and then the oldest of the rest evicts the oldest of all: the removed facts are a prefix of the order |
| FactCache.BatchAdded | src/catalog.cpp:621-637 | batch after batch, and no batch more than the limits need |
| FactCache.OldestGo | src/catalog.cpp:622-633 | what goes was used no later than what stays, nor, if used together, created later; a hundred facts a batch |
| FactCache.FactTable.OldestOf | src/catalog.cpp:624-625 | a fact older than all others |
| FactCache.FactTable.DeleteOldest | src/catalog.cpp:622-633 | the 100 oldest facts go, or all, and what is counted is what was removed |
| FactCache.FactTable.Evict | src/catalog.cpp:621-637 | terminates with both limits met; the running counters are the real usage; the removed facts are the oldest in the least number of batches |
| FactCache.FactTable.StoreFact | src/catalog.cpp:602-645 | on return both limits hold by the least number of batches of the least recently used facts; the stored task and completed work are completed while they have a fact and due at once without one, all other work is as it was; every completed item has a cached fact, so it is an extraction, and exactly what waits to run is no longer published |
| FactCache.ReopenedIsConsistent | src/catalog.cpp:638-645 | completed work stays completed exactly while it has a fact, and what is reopened or pending is not published |
| FactCache.ReopensExactly | src/catalog.cpp:638-645 | completed work is reopened exactly when it never had a fact or all its facts were just evicted |
| FactCache.OtherWorkIsReopened | src/catalog.cpp:638-645 | so every stored fact sends all completed work of other kinds than extraction back to the queue |
| FactCache.StoreStrandsExactly | src/catalog.cpp:602-645 | and as it launches no runner, it leaves due work without one if and only if there is no lease and some work is reopened, or waited only for the stored task, and can run |
| FactCache.StoringIgnoresCancellation | src/catalog.cpp:602-611 | unlike a completion by the queue, storing a fact completes work whose cancellation was accepted |
| UnionFind.Classes.Find | src/query.cpp:926-931 | terminates; answers the root and compresses without changing any root |
| UnionFind.Classes.Unite | src/query.cpp:932-938 | the forest then represents the classes of all pairs united so far |
| UnionFind.RootIsLowest | src/query.cpp:926-938 | a root is its own parent and no id of its path is below it |
| UnionFind.SameRootIffConnected | src/query.cpp:926-946 | two ids have the same root exactly when united pairs connect them |
| UnionFind.RootIsLeast | src/query.cpp:936-937 | the root is the least id of its class |
| UnionFind.RootsIndependentOfOrder | src/query.cpp:926-946 | two forests of the same pairs have the same roots, whatever the order of the calls |
| Lineage.ScanIsInjective | src/lineage.cpp:124-187 | every before element is decided once and no after element is matched twice |
| Lineage.CandidatesAreOpenPairs | src/lineage.cpp:135-142 | candidates are exactly the unused elements of the same shape that were not rejected |
| Lineage.FactsConserveElements | src/lineage.cpp:124-224 | for every nonempty id the facts name it as often on each side as the bundles do, and facts and matches together number the elements |
| Lineage.OnlyMatchedFactsVerify | src/lineage.cpp:170-184 | a verified content change, a dependency change, a rename or a move is only reported for a matched pair, as its fingerprints say, and the pair has one id or was accepted by a review |
| Lineage.KeyOrder | src/lineage.cpp:293-295 | the sort key is a strict weak order |
| Lineage.SortFacts | src/lineage.cpp:293-295 | the sorted facts are the same multiset in key order |
| Lineage.IndexAssertions | src/lineage.cpp:117-123 | the last accepted assertion for an element counts, and rejections are collected |
| Lineage.IndexElements | src/lineage.cpp:110-115 | the first element of an id is the one found by it |
| Lineage.TraceElement | src/lineage.cpp:124-187 | one element against the used vector: the decision, and exactly its match is marked |
| Lineage.TraceElements | src/lineage.cpp:124-187 | the loop over the before bundle makes the greedy matching and marks exactly the matched |
| Lineage.TraceTransition | src/lineage.cpp:94-297 | facts, candidates and completeness of a transition as the matching determines them |
| Lineage.TransitionExplained | src/lineage.cpp:94-297 | what a transition is, without the scan: every before element is matched to the first element that its review names if that is not taken by an earlier one, else to the first of its own id if that is not, else it is open with every free element of its shape that no review rejects; each gives its fact with what differs, and every after element not taken is added |
| Lineage.CandidatesExplained | src/lineage.cpp:144-170 | a candidate is reported for each element that an open one could have become, ambiguous when there are several |
| Lineage.LastReviewCounts | src/lineage.cpp:117-123 | of the accepted same_element reviews of an element the last one counts |
| Lineage.RejectionsAre | src/lineage.cpp:117-123 | a pair is rejected exactly by an accepted not_same_element review |
| Lineage.SortedByHistory | src/lineage.cpp:293-295 | facts come by history id, and within one added, deleted, moved, moved and renamed, renamed, same |
| HistoryStats.ChangeIsPair | src/query.cpp:985-1000 | every counted change pairs an element of one bundle with one of the next, of one id or as a review says |
| HistoryStats.ChangeIsLink | src/query.cpp:985-1000 | with nonempty ids every counted change is a fact that unites its two ids |
| HistoryStats.PairIsPresent | src/query.cpp:957-967 | the class such a change is counted for is present in both bundles unless exactly one side has no id |
| HistoryStats.MarkedIsObservable | src/query.cpp:968-1000 | every transition counted as changed, renamed or moved for a class is one of its opportunities, when no accepted review pairs an element without an id with one that has an id |
| HistoryStats.ElementRatesAtMostOne | src/query.cpp:1025-1044 | every reported rate of an element is then between 0 and 1 |
| HistoryStats.RatesBoundedExactly | src/query.cpp:968-1044 | over the reviews: the rates of all histories are at most 1 if and only if no accepted review pairs an element without an id with one that has an id |
| HistoryStats.FileRatesAtMostOne | src/query.cpp:1143-1238 | with named elements the changed transitions of a file are observed ones, so its rates are between 0 and 1 |
| HistoryStats.FileRatesBoundedExactly | src/query.cpp:1143-1238 | over sets of ids and under any reviews: the file rates of all histories with these ids are at most 1 if and only if no unnamed element can stand next to a named one |
| HistoryStats.UnnamedBreaksFileRate | src/query.cpp:1143-1238 | an unnamed and a named element in one file give a rate of 3 |
| HistoryStats.OneSidedBreaksRate | src/query.cpp:968-1044 | such a review on either side gives two transitions with an interface change over one opportunity, a rate of 2 |
| HistoryStats.CountElements | src/query.cpp:956-1016 | the version and change sets per class, whatever compression happens meanwhile |
| HistoryStats.CountFiles | src/query.cpp:1143-1209 | the observed and changed sets per file, and the classes in it and those that changed |
| HistoryStats.MarksAreDifferences | src/query.cpp:957-1016 | a class has a mark at a transition exactly if an element of the class differs so from the one it is matched to there, or, for the two marks of open elements, is on one side only |
| HistoryStats.MatchedFiles | src/query.cpp:1143-1209 | a matched pair counts for the files it was and is in, as observed if both have ids, and as changed if a fingerprint differs or, with ids, its name or path |
| HistoryStats.OpenFiles | src/query.cpp:1143-1209 | an element on one side only counts as neither |
| HistoryStats.UniteLinks | src/query.cpp:943-945 | exactly the two-sided facts are united |
| HistoryStats.HistoryStatistics | src/query.cpp:924-1238 | matching, uniting and counting together: the sets of every class and file are those of the transitions; under such reviews no class has more changes of a kind than opportunities, and with named elements no file has |
| Glob.StarStep | src/progressive.cpp:311-314 | a star matches a prefix of the text, or the text without its last character already did |
| Glob.StarRow | src/progressive.cpp:311-314 | after a star the row says which prefixes the longer pattern matches |
| Glob.TokenRow | src/experiment.cpp:350-354 | after any other token the row says which prefixes the longer pattern matches |
| Glob.Wildcard | src/progressive.cpp:306-323 | the two-row table answers the recursive glob relation, for every pattern and text; path_pattern of src/experiment.cpp is the same code |
| CommandLine.Quote | src/process.cpp:122-144 | the loop with its backslash counter writes the quoted form |
| CommandLine.Join | src/process.cpp:247-252 | the line is the quoted arguments with one blank between |
| CommandLine.SplitKept | src/process.cpp:247-254 | for all arguments: what is found of the line, which ends at the first NUL, is the arguments before it and the start of the one that contains it |
| CommandLine.SplitJoined | src/process.cpp:122-144 | splitting the joined line by the backslash and quote rules of the C runtime gives back every argument, under both readings of doubled quotes, if and only if no argument contains a NUL |
| CommandLine.ContainedRoundTrips | src/process.cpp:247-254 | behind such a name, for every list of arguments: what arrives, and that it is the whole list if and only if no argument contains a NUL |
| CommandLine.EmbeddedNulLosesArguments | src/worker.cpp:22-37 | a frontend argument that the filter lets pass loses its end and the arguments behind it |
| CommandLine.CommandLineRoundTrips | src/process.cpp:247-254 | the arguments after the program name come back for all lists without a NUL if and only if the quotes inside the name balance around its blanks, as they do when it has none, and the name contains no NUL |
| CommandLine.UncontainedFails | src/process.cpp:247-254 | any other name without a NUL loses arguments |
| CommandLine.CutProgramFails | src/process.cpp:247-254 | and so does a name with a NUL |
| Encoding.RangesAreGrammar | src/encoding.cpp:28-59 | the range checks accept exactly UTF8-1 to UTF8-4 of section 4 of RFC 3629 |
| Encoding.Utf8Sequence | src/encoding.cpp:28-59 | the length of the character of the grammar at the offset, 0 if there is none |
| Encoding.AppendUtf8 | src/encoding.cpp:61-77 | appends the encoding of the value |
| Encoding.EncodeIsChar | src/encoding.cpp:61-77 | what is appended is read back as one character, whatever follows |
| Encoding.CharIsEncode | src/encoding.cpp:28-77 | a character of the grammar is the encoding of its code point, so overlong forms and surrogates are out |
| Encoding.WellFormedIffEncoded | src/encoding.cpp:28-77 | text of the grammar is exactly what the encoder writes for some scalar values |
| Encoding.EncodeAllIsInjective | src/encoding.cpp:61-77 | and for only one list of them |
| Encoding.ValidUtf8 | src/encoding.cpp:121-129 | accepts exactly UTF8-octets of section 4 of RFC 3629 |
| Encoding.Utf8Lossy | src/encoding.cpp:136-149 | replaces byte by byte what starts no character |
| Encoding.LossyIsWellFormed | src/encoding.cpp:136-149 | the result is always valid |
| Encoding.LossyIsIdentityExactlyOnValid | src/encoding.cpp:136-149 | it changes nothing exactly on valid input, and a second pass changes nothing |
| Encoding.LossyRepairs | src/encoding.cpp:136-149 | behind valid text a byte that begins no character becomes U+FFFD, and the repair goes on with the next byte |
| Encoding.SerializedReads | src/encoding.cpp:82-87 | code units written in either byte order are read back |
| Encoding.TranscodedIffUtf16 | src/encoding.cpp:79-102 | decoding succeeds exactly on UTF-16 by section 2 of RFC 2781, and gives the UTF-8 form of the same scalar values |
| Encoding.TranscodedRoundTrips | src/encoding.cpp:79-102 | the output is valid and re-encodes to the input |
| Encoding.NextChar | src/encoding.cpp:89-100 | one pass of the loop: the character and its width, or the failure |
| Encoding.DecodeUtf16 | src/encoding.cpp:79-102 | the text or the first of the three failures, as the code units determine it |
| Encoding.DecodeText | src/encoding.cpp:151-183 | finds the text of every file that UTF-8 or marked UTF-16 stores and fails exactly on the others |
| ChangeEvidence.NewIsNearest | src/change_evidence.cpp:254-278 | a dependent met for the first time is met at its shortest distance |
| ChangeEvidence.Finished | src/change_evidence.cpp:254-278 | an empty queue has met every element within the depth, per root once |
| ChangeEvidence.VisitsAreReached | src/change_evidence.cpp:254-278 | and nothing else |
| ChangeEvidence.ExpandHead | src/change_evidence.cpp:258-277 | one turn of the queue keeps the exploration invariant and asks for exactly the new visits |
| ChangeEvidence.Propagate | src/change_evidence.cpp:254-278 | terminates on cyclic graphs with a breadth-first visit of every root |
| ChangeEvidence.Evidence.Emit | src/change_evidence.cpp:189-214 | a request is dropped, capped or reported so that the facts are the first requests of each key within the cap and the counters are exact |
| ChangeEvidence.CompleteIffNothingSuppressed | src/change_evidence.cpp:189-214 | facts stay within the cap and repeat no (id, origin, unit); coverage is complete exactly when every requested key has its fact |
| ChangeEvidence.OriginsSum | src/change_evidence.cpp:213 | the origin counts sum to the number of facts |
| ChangeEvidence.Attribute | src/change_evidence.cpp:217-234 | requests and propagation roots of the changed elements in order |
| ChangeEvidence.Expose | src/change_evidence.cpp:239-252 | requests of the units that include a changed header |
| ChangeEvidence.ChangesAreAttributed | src/change_evidence.cpp:217-234 | every element whose own fingerprints changed is attributed with its dimensions |
| ChangeEvidence.ChangesAreDifferences | src/change_evidence.cpp:124-134 | an element on both sides lists exactly the dimensions in which its two views differ, each once, in the order interface, implementation, dependencies |
| ChangeEvidence.FactsCarryDifferences | src/change_evidence.cpp:189-278 | a requested fact that is no exposure carries exactly these dimensions, an exposure none |
| ChangeEvidence.RequestsExactly | src/change_evidence.cpp:170-278 | a fact is requested if and only if the views, the changed files and the dependency edges ask for it: for a changed element, for an element under a changed header, or for a dependent of one that spreads, at its shortest distance |
| ChangeEvidence.RequestsInOrder | src/change_evidence.cpp:217-278 | first the changed elements, then what the headers expose, each in map order, then the dependents, nearer ones first |
| ChangeEvidence.DistinctAreFirst | src/change_evidence.cpp:189-214 | of requests with one id, origin and unit the first is reported, in the order of the requests |
| ChangeEvidence.OriginsExplained | src/change_evidence.cpp:217-234 | the origin of a changed element says what its locations, the compile context and the included headers say: own declaration only, own source, context, header, or none of them |
| ChangeEvidence.InducedHasChanged | src/change_evidence.cpp:217-278 | whatever is more than exposed has changed itself and carries its dimensions; unattributed is exactly what no location, context or header explains |
| ChangeEvidence.ReachedIsRequested | src/change_evidence.cpp:254-278 | a dependent within the depth is asked for with its root, its shortest distance and the origin that its own change decides |
| ChangeEvidence.InducedDespiteContext | src/change_evidence.cpp:254-278 | after a propagation under a changed context something is called induced if and only if a changed element depends, within the depth, on one that propagates its change |
| ChangeEvidence.InducedDespiteContextHappens | src/change_evidence.cpp:254-278 | and it does happen |
| ChangeEvidence.SummarizeChangeEvidence | src/change_evidence.cpp:139-297 | facts and coverage of every transition and the origin counts over all of them |
| Dependents.ClosedHoldsDependents | src/catalog.cpp:1110-1154 | a set closed under dependency edges that holds the seeds holds every dependent |
| Dependents.Expand | src/catalog.cpp:1127-1151 | one target: its rows are reported and their sources wait, up to the limit |
| Dependents.SemanticDependents | src/catalog.cpp:1110-1154 | terminates on cyclic relations; the rows are edges into seeds and their dependents, each once, all of them unless truncated; truncated exactly when there are at least as many as the limit |
| HistoryPlan.AddMatches | src/history_plan.cpp:326-327 | a pull request is added to each of its commits and to no other |
| HistoryPlan.MatchesAreLines | src/history_plan.cpp:282-327 | the pull requests of a commit are those of the lines that name it, in file order |
| HistoryPlan.StatusIs | src/history_plan.cpp:558-581 | the status of a commit by those lines: identified, compound, ambiguous, no_pr or unknown, each exactly when |
| HistoryPlan.ReadPrFacts | src/history_plan.cpp:282-336 | succeeds exactly when every line is well formed and no commit is of both kinds; then the facts are those of the lines, else the failure names the culprit |
| HistoryPlan.TilesJoin | src/history_plan.cpp:545-618 | the units put together are the history |
| HistoryPlan.GroupedBySinglePr | src/history_plan.cpp:580-593 | all commits of a unit with several have the same single pull request |
| HistoryPlan.BasesChain | src/history_plan.cpp:594-598 | on a first-parent chain a unit starts at the head of the one before |
| HistoryPlan.GroupingIsUnique | src/history_plan.cpp:545-618 | history and pull requests leave only one grouping whose neighbours share no pull request |
| HistoryPlan.UnitsBeginExactly | src/history_plan.cpp:582-620 | a unit begins at a commit exactly when it and the commit before do not share one only pull request |
| HistoryPlan.CountersSum | src/history_plan.cpp:571-581 | the five counters sum to the number of commits |
| HistoryPlan.PlanWriter.Flush | src/history_plan.cpp:498-543 | the open unit is written under the next number and the grouping is unchanged |
| HistoryPlan.PlanWriter.Count | src/history_plan.cpp:566-581 | each commit is counted under its grouping status although the branches are asked in another order, because no commit is of both kinds |
| HistoryPlan.PlanWriter.Consume | src/history_plan.cpp:545-617 | one commit more keeps the units a maximal tiling of what was read |
| HistoryPlan.WriteHistoryPlan | src/history_plan.cpp:545-635 | the written units are the maximal numbered tiling of the history, with exact counters |
| HistoryPlan.PlanFromFacts | src/history_plan.cpp:282-635 | reading and grouping together, or the rejection of the facts file |

## Left out

- Git, SQLite, libcurl, Win32, process and file system calls: their effect is a parameter or a state change; failures are
  the refusals that the steps allow.
- JSON parsing, configuration, the command line interface, telemetry, HTTP connectors and credentials: only easy claims.
- Clang and Tree-sitter extraction, rename and churn accounting, hunk parsing: they depend on foreign formats.
- Hashes are injective: a work id, a pool key, a transition id or a fact id stands for the hashed content, and Git commit
  ids are fresh.
- Clocks of different machines agree; a method under a mutex is one step.  The network calls of one coordination
  operation are separate steps.
- 64-bit counters do not wrap around; rates are real numbers, without rounding.
- Coordination: batches of published tasks, imported facts and reviews, and the trust filter on producers; a view may hold
  any commit ever written, which covers every order of fetches.
- Worker: building the extractor's command, its cancellation and the worker's own retries; a fetch takes all refs at one
  moment, and processes do not overwrite each other's tracking refs.  In `RunTask` the others move between the
  calls of the process, in `RunRunner` not at all; the lemmas about moves and runs cover all interleavings.
- WorkQueue: `clear_failed_launch`, `set_task_state`, and `fail_work` on an item that is not running (it reads columns of
  no row); the update that fails dependents is taken on the state before the statement.
- FactCache: the byte limit is in characters of the JSON text, which is what SQLite's `length` counts.
- WorkspacePool: the tree of a key is fixed, as a revision names a commit; path normalization and unknown revisions fail
  before the pool changes; the destructor, which removes leased entries too.
- Lineage: relation candidates (extract, inline), gap texts and origin evidence; keys joined with line breaks are tuples.
- HistoryStats: names, event lists and touch counts of a row, which enter no rate.
- ChangeEvidence: how views are read from manifests, and the gap record that repeats a capped transition's coverage; maps
  and sets are listed in their iteration order.
- Dependents: the table is listed in the order the query returns rows.
- Dependents.SemanticDependents: does not say in which order the worklist takes its targets, so not which edges a
  truncated answer holds.
- HistoryPlan: the net diff of a unit and its source and build flags, which Git computes.
- Encoding.DecodeText: the legacy Windows code page branch.
- CommandLine: the split of a command line is the documented rule of the Microsoft C runtime, in its older and newer
  reading of doubled quotes.
