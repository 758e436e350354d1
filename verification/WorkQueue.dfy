/** The local work queue and the single runner lease of one catalog database.

    Each operation of the catalog is one transaction, hence one step.  Work identities are
    content hashes; the model uses the hashed content itself. */
module WorkQueue {
  import opened Options

  datatype WorkId = Work(kind: string, parameters: string, reference: string) | Extraction(task: string)
  {
    /** The name of the credential the work needs; empty for none. */
    function Credential(): string {
      if Work? then reference else ""
    }
  }

  datatype WorkState = Pending | Running | WaitingForCredential | RetryWait | Completed | Failed | Cancelled

  datatype Item = Item(state: WorkState, owner: string, fifo: nat, maintenance: bool,
                       attempts: nat, nextAttempt: int, cancelled: bool)

  datatype LeaseState = Launching | Active

  datatype RunnerLease = RunnerLease(state: LeaseState, token: string, owner: string, executable: string,
                                     config: string, capabilities: set<string>, heartbeatAt: int)

  /** The launch configuration of a catalog object; an empty executable means none. */
  datatype Launch = Launch(capabilities: set<string>, executable: string, config: string)

  /** `issued` and `adopted` record the launch tokens handed out and taken so far. */
  datatype State = State(
    items: map<WorkId, Item>,
    deps: set<(WorkId, WorkId)>,
    lease: Option<RunnerLease>,
    clock: int,
    issued: set<string>,
    adopted: set<string>)

  const RUNNER_TIMEOUT := 30

  // ---------------------------------------------------------------- queries

  predicate Usable(credential: string, capabilities: set<string>) {
    credential == "" || credential in capabilities
  }

  predicate Blocked(s: State, id: WorkId) {
    exists d <- s.deps :: d.0 == id && d.1 in s.items && !s.items[d.1].state.Completed?
  }

  /** Not held back by time, cancellation or a dependency. */
  predicate Ready(s: State, id: WorkId, now: int) {
    && id in s.items && s.items[id].nextAttempt <= now && !s.items[id].cancelled && !Blocked(s, id)
  }

  predicate Queued(i: Item) {
    i.state.Pending? || i.state.RetryWait?
  }

  /** What claim_next_work and claim_runner_launch select. */
  predicate Claimable(s: State, id: WorkId) {
    Ready(s, id, s.clock) && (Queued(s.items[id]) || s.items[id].state.WaitingForCredential?)
  }

  /** What keeps a runner from releasing its lease. */
  predicate Runnable(s: State, id: WorkId, now: int) {
    Ready(s, id, now) && Queued(s.items[id])
  }

  predicate Before(a: Item, b: Item) {
    (!a.maintenance && b.maintenance) || (a.maintenance == b.maintenance && a.fifo < b.fifo)
  }

  ghost predicate IsNext(s: State, capabilities: set<string>, id: WorkId) {
    && Claimable(s, id) && Usable(id.Credential(), capabilities)
    && forall other :: Claimable(s, other) && Usable(other.Credential(), capabilities) && other != id ==>
         Before(s.items[id], s.items[other])
  }

  ghost function Next(s: State, capabilities: set<string>): Option<WorkId> {
    if n: WorkId :| IsNext(s, capabilities, n) then Some(n) else None
  }

  predicate Stale(l: RunnerLease, now: int) {
    l.heartbeatAt < now - RUNNER_TIMEOUT
  }

  predicate ActiveFor(s: State, owner: string) {
    s.lease.Some? && s.lease.value.state.Active? && s.lease.value.owner == owner
  }

  ghost predicate IsNextFifo(items: map<WorkId, Item>, n: nat) {
    && (forall id <- items :: items[id].fifo < n)
    && (if items == map[] then n == 1 else exists id <- items :: items[id].fifo + 1 == n)
  }

  lemma {:induction false} NextFifoExists(items: map<WorkId, Item>)
    ensures exists n :: IsNextFifo(items, n)
    decreases |items|
  {
    if items == map[] {
      assert IsNextFifo(items, 1);
    } else {
      var id :| id in items;
      var rest := items - {id};
      assert rest.Keys == items.Keys - {id};
      NextFifoExists(rest);
      var n :| IsNextFifo(rest, n);
      assert forall other <- items :: other == id || (other in rest && rest[other] == items[other]);
      if rest != map[] && items[id].fifo < n {
        assert IsNextFifo(items, n);
      } else {
        assert IsNextFifo(items, items[id].fifo + 1);
      }
    }
  }

  ghost function NextFifo(items: map<WorkId, Item>): nat {
    NextFifoExists(items);
    var n :| IsNextFifo(items, n);
    n
  }

  // ---------------------------------------------------------------- steps

  datatype Action =
    | Tick(seconds: nat)
    | Enqueue(launch: Launch, id: WorkId, maintenance: bool, dependencies: seq<WorkId>, token: string)
    | Schedule(launch: Launch, task: string, token: string)
    | ClaimLaunch(launch: Launch, token: string)
    | Adopt(token: string, owner: string, launch: Launch)
    | HeartbeatRunner(owner: string)
    | ClaimNext(owner: string, capabilities: set<string>)
    | Complete(id: WorkId, owner: string)
    | Fail(id: WorkId, owner: string, maximumAttempts: nat)
    | Release(owner: string)
    | Cancel(id: WorkId)

  ghost function Inserted(items: map<WorkId, Item>, id: WorkId, maintenance: bool): map<WorkId, Item> {
    if id in items then items
    else items[id := Item(Pending, "", NextFifo(items), maintenance, 0, 0, false)]
  }

  function Rerun(i: Item): Item {
    if i.state.Failed? || i.state.Cancelled?
    then i.(state := Pending, attempts := 0, nextAttempt := 0, cancelled := false)
    else i
  }

  /** The lease part of enqueue_work and schedule_task; `token` is the random launch token. */
  function LaunchOnEnqueue(s: State, launch: Launch, token: string): State {
    if launch.executable == "" || (s.lease.Some? && !Stale(s.lease.value, s.clock)) then s
    else s.(lease := Some(RunnerLease(Launching, token, "", launch.executable, launch.config,
                                      launch.capabilities, s.clock)),
            issued := s.issued + {token})
  }

  /** A dependency on unknown work violates a foreign key, and the transaction is undone. */
  ghost function EnqueueStep(s: State, launch: Launch, id: WorkId, maintenance: bool,
                             dependencies: seq<WorkId>, token: string): State
  {
    var items := if id in s.items then s.items[id := Rerun(s.items[id])] else Inserted(s.items, id, maintenance);
    if exists d <- dependencies :: d !in items then s
    else
      var s' := s.(items := items, deps := s.deps + (set d | d in dependencies :: (id, d)));
      if Usable(id.Credential(), launch.capabilities) then LaunchOnEnqueue(s', launch, token) else s'
  }

  ghost function ScheduleStep(s: State, launch: Launch, task: string, token: string): State {
    LaunchOnEnqueue(s.(items := Inserted(s.items, Extraction(task), false)), launch, token)
  }

  /** Running work without a live runner goes back to the queue, and a stale lease goes. */
  function Recovered(s: State): State {
    if s.lease.Some? && !Stale(s.lease.value, s.clock) then s
    else s.(lease := None,
            items := map id <- s.items :: if s.items[id].state.Running? then s.items[id].(state := Pending, owner := "")
                                          else s.items[id])
  }

  function Parked(items: map<WorkId, Item>): map<WorkId, Item> {
    map id <- items :: if Queued(items[id]) && id.Credential() != "" then items[id].(state := WaitingForCredential)
                       else items[id]
  }

  function ClaimLaunchStep(s: State, launch: Launch, token: string): State {
    var r := Recovered(s);
    if r.lease.Some? then r
    else if exists id <- r.items :: Claimable(r, id) && Usable(id.Credential(), launch.capabilities) then
      r.(lease := Some(RunnerLease(Launching, token, "", launch.executable, launch.config, launch.capabilities,
        s.clock)),
         issued := r.issued + {token})
    else r.(items := Parked(r.items))
  }

  predicate Adoptable(s: State, token: string, launch: Launch) {
    && s.lease.Some? && s.lease.value.state.Launching? && s.lease.value.token == token
    && s.lease.value.executable == launch.executable && s.lease.value.config == launch.config
  }

  function AdoptStep(s: State, token: string, owner: string, launch: Launch): State {
    if Adoptable(s, token, launch) then
      s.(lease := Some(s.lease.value.(state := Active, token := "", owner := owner,
                                      capabilities := launch.capabilities, heartbeatAt := s.clock)),
         adopted := s.adopted + {token})
    else s
  }

  function HeartbeatStep(s: State, owner: string): State {
    if ActiveFor(s, owner) then s.(lease := Some(s.lease.value.(heartbeatAt := s.clock))) else s
  }

  predicate Doomed(s: State, id: WorkId) {
    exists d <- s.deps :: d.0 == id && d.1 in s.items && (s.items[d.1].state.Failed? || s.items[d.1].state.Cancelled?)
  }

  /** Open work with a failed or cancelled dependency fails; one statement, one level. */
  function DependentsFailed(s: State): State {
    s.(items := map id <- s.items ::
         if (Queued(s.items[id]) || s.items[id].state.WaitingForCredential?) && Doomed(s, id)
         then s.items[id].(state := Failed) else s.items[id])
  }

  /** Claimable work that was passed over for its credential on the way to `next`. */
  predicate PassedOver(s: State, capabilities: set<string>, next: Option<WorkId>, id: WorkId) {
    && Claimable(s, id) && !Usable(id.Credential(), capabilities)
    && (next.Some? && next.value in s.items ==> Before(s.items[id], s.items[next.value]))
  }

  function WithParked(s: State, capabilities: set<string>, next: Option<WorkId>): State {
    s.(items := map id <- s.items ::
         if PassedOver(s, capabilities, next, id) then s.items[id].(state := WaitingForCredential) else s.items[id])
  }

  /** A second running row violates a unique index, and the transaction is undone. */
  ghost function ClaimNextStep(s: State, owner: string, capabilities: set<string>): State {
    var f := DependentsFailed(s);
    if !ActiveFor(f, owner) then f
    else
      var next := Next(f, capabilities);
      var w := WithParked(f, capabilities, next);
      if next.None? || next.value !in w.items then w
      else if exists id <- w.items :: w.items[id].state.Running? then s
      else w.(items := w.items[next.value := w.items[next.value].(state := Running, owner := owner)])
  }

  predicate RunningFor(s: State, id: WorkId, owner: string) {
    id in s.items && s.items[id].state.Running? && s.items[id].owner == owner
  }

  function CompleteStep(s: State, id: WorkId, owner: string): State {
    if !RunningFor(s, id, owner) then s
    else s.(items := s.items[id := s.items[id].(state := if s.items[id].cancelled then Cancelled else Completed,
                                                owner := "")])
  }

  function Pow2(n: nat): (power: nat)
    ensures power >= 1
  {
    if n == 0 then 1 else 2 * Pow2(n - 1)
  }

  function Min(a: nat, b: nat): nat {
    if a < b then a else b
  }

  function FailedItem(i: Item, now: int, maximumAttempts: nat): Item {
    i.(attempts := i.attempts + 1, owner := "",
       state := if i.cancelled then Cancelled else if i.attempts + 1 >= maximumAttempts then Failed else RetryWait,
       nextAttempt := now + Min(300, Pow2(Min(i.attempts, 8))))
  }

  function FailStep(s: State, id: WorkId, owner: string, maximumAttempts: nat): State {
    if !RunningFor(s, id, owner) then s
    else s.(items := s.items[id := FailedItem(s.items[id], s.clock, maximumAttempts)])
  }

  function ReleaseStep(s: State, owner: string): State {
    if (exists id <- s.items :: Runnable(s, id, s.clock)) || !ActiveFor(s, owner) then s
    else s.(lease := None)
  }

  predicate Finished(i: Item) {
    i.state.Completed? || i.state.Failed? || i.state.Cancelled?
  }

  function CancelStep(s: State, id: WorkId): State {
    if id !in s.items || Finished(s.items[id]) then s
    else s.(items := s.items[id := s.items[id].(cancelled := true,
                                                state := if s.items[id].state.Running? then Running else Cancelled)])
  }

  ghost function Step(s: State, a: Action): State {
    match a
    case Tick(seconds) => s.(clock := s.clock + seconds)
    case Enqueue(launch, id, maintenance, dependencies, token) =>
      EnqueueStep(s, launch, id, maintenance, dependencies, token)
    case Schedule(launch, task, token) => ScheduleStep(s, launch, task, token)
    case ClaimLaunch(launch, token) => ClaimLaunchStep(s, launch, token)
    case Adopt(token, owner, launch) => AdoptStep(s, token, owner, launch)
    case HeartbeatRunner(owner) => HeartbeatStep(s, owner)
    case ClaimNext(owner, capabilities) => ClaimNextStep(s, owner, capabilities)
    case Complete(id, owner) => CompleteStep(s, id, owner)
    case Fail(id, owner, maximumAttempts) => FailStep(s, id, owner, maximumAttempts)
    case Release(owner) => ReleaseStep(s, owner)
    case Cancel(id) => CancelStep(s, id)
  }

  ghost function Run(s: State, actions: seq<Action>): State
    decreases |actions|
  {
    if actions == [] then s else Run(Step(s, actions[0]), actions[1..])
  }

  function EmptyQueue(clock: int): State {
    State(map[], {}, None, clock, {}, {})
  }

  // ---------------------------------------------------------------- no lost wake-up

  /** Work that was due at `since` and can run has a runner, or one being launched, that may
      take it: `capabilities` are the credentials of the clients. */
  ghost predicate Awake(s: State, capabilities: set<string>, since: int) {
    forall id :: Runnable(s, id, since) && Usable(id.Credential(), capabilities) ==> s.lease.Some?
  }

  /** Everything `id` waits for, after `more` has been added to its dependencies, is completed. */
  predicate DependenciesMet(s: State, id: WorkId, more: seq<WorkId>) {
    && (forall d <- s.deps :: d.0 == id ==> d.1 != id && (d.1 in s.items ==> s.items[d.1].state.Completed?))
    && (forall d <- more :: d != id && d in s.items && s.items[d].state.Completed?)
  }

  /** The item is queued and due, or becomes so by being enqueued. */
  predicate QueuedByEnqueue(s: State, id: WorkId, since: int) {
    if id !in s.items || s.items[id].state.Failed? || s.items[id].state.Cancelled? then 0 <= since
    else Queued(s.items[id]) && s.items[id].nextAttempt <= since && !s.items[id].cancelled
  }

  /** Nothing but `id` keeps `other` from running. */
  predicate WaitsOnlyFor(s: State, other: WorkId, id: WorkId, since: int) {
    && other in s.items && Queued(s.items[other]) && s.items[other].nextAttempt <= since && !s.items[other].cancelled
    && forall d <- s.deps :: d.0 == other && d.1 in s.items && !s.items[d.1].state.Completed? ==> d.1 == id
  }

  /** When a step leaves work without a runner: without a lease, work is completed that other work waits for,
      or work is enqueued that can run at once and nothing is launched for it. */
  ghost predicate Strands(s: State, capabilities: set<string>, since: int, a: Action) {
    s.lease.None? &&
    match a
    case Complete(id, owner) =>
      && RunningFor(s, id, owner) && !s.items[id].cancelled
      && exists other <- s.items :: WaitsOnlyFor(s, other, id, since) && Usable(other.Credential(), capabilities)
    case Enqueue(launch, id, _, dependencies, _) =>
      && (launch.executable == "" || !Usable(id.Credential(), launch.capabilities))
      && Usable(id.Credential(), capabilities)
      && QueuedByEnqueue(s, id, since) && DependenciesMet(s, id, dependencies)
    case Schedule(launch, task, _) =>
      && launch.executable == "" && 0 <= since
      && Extraction(task) !in s.items && DependenciesMet(s, Extraction(task), [])
    case _ => false
  }

  /** Work can only become runnable by being queued or by a dependency completing. */
  lemma NotUnblocked(s: State, s': State, id: WorkId)
    requires s.deps <= s'.deps && id in s.items
    requires forall other <- s.items :: other in s'.items
    requires forall other <- s.items :: s'.items[other].state.Completed? ==> s.items[other].state.Completed?
    ensures Blocked(s, id) ==> Blocked(s', id)
  {
    if Blocked(s, id) {
      var d :| d in s.deps && d.0 == id && d.1 in s.items && !s.items[d.1].state.Completed?;
      assert d in s'.deps;
    }
  }

  lemma EnqueueOther(s: State, since: int, a: Action, other: WorkId)
    requires a.Enqueue? && other != a.id
    ensures Runnable(Step(s, a), other, since) ==> Runnable(s, other, since)
  {
    hide NextFifo;
    if Runnable(Step(s, a), other, since) {
      NotUnblocked(s, Step(s, a), other);
    }
  }

  /** With the new dependencies in place, the item is blocked exactly when one of them is open. */
  lemma BlockedExactly(s: State, s': State, id: WorkId, more: seq<WorkId>)
    requires forall d <- more :: d in s.items || d == id
    requires s'.deps == s.deps + (set d | d in more :: (id, d))
    requires s'.items.Keys == s.items.Keys + {id} && !s'.items[id].state.Completed?
    requires forall other <- s.items :: other != id ==> s'.items[other] == s.items[other]
    ensures Blocked(s', id) <==> !DependenciesMet(s, id, more)
  {
    if DependenciesMet(s, id, more) {
      forall d | d in s'.deps && d.0 == id && d.1 in s'.items
        ensures s'.items[d.1].state.Completed?
      {
        assert d in s.deps || d.1 in more;
      }
    }
    if !Blocked(s', id) {
      forall d | d in s.deps && d.0 == id
        ensures d.1 != id && (d.1 in s.items ==> s.items[d.1].state.Completed?)
      {
        assert d in s'.deps;
      }
      forall d | d in more
        ensures d != id && d in s.items && s.items[d].state.Completed?
      {
        assert (id, d) in s'.deps;
      }
    }
  }

  lemma EnqueueRuns(s: State, since: int, launch: Launch, id: WorkId, maintenance: bool, more: seq<WorkId>,
                    token: string)
    requires forall d <- more :: d in s.items || d == id
    ensures Runnable(EnqueueStep(s, launch, id, maintenance, more, token), id, since) <==>
      QueuedByEnqueue(s, id, since) && DependenciesMet(s, id, more)
  {
    hide NextFifo, Blocked, DependenciesMet;
    var s' := EnqueueStep(s, launch, id, maintenance, more, token);
    if !s'.items[id].state.Completed? {
      BlockedExactly(s, s', id, more);
    }
  }

  lemma EnqueueStrands(s: State, capabilities: set<string>, since: int, a: Action)
    requires Awake(s, capabilities, since) && a.Enqueue?
    ensures Awake(Step(s, a), capabilities, since) <==> !Strands(s, capabilities, since, a)
  {
    hide NextFifo, Runnable;
    var s' := Step(s, a);
    if forall d <- a.dependencies :: d in s.items || d == a.id {
      EnqueueRuns(s, since, a.launch, a.id, a.maintenance, a.dependencies, a.token);
      forall other | other != a.id ensures Runnable(s', other, since) ==> Runnable(s, other, since) {
        EnqueueOther(s, since, a, other);
      }
    } else {
      assert s' == s;
    }
  }

  lemma ScheduleStrands(s: State, capabilities: set<string>, since: int, a: Action)
    requires Awake(s, capabilities, since) && a.Schedule?
    ensures Awake(Step(s, a), capabilities, since) <==> !Strands(s, capabilities, since, a)
  {
    hide NextFifo;
    var s', id := Step(s, a), Extraction(a.task);
    forall other | other in s.items ensures Runnable(s', other, since) ==> Runnable(s, other, since) {
      if Runnable(s', other, since) {
        NotUnblocked(s, s', other);
      }
    }
    if id !in s.items {
      assert Runnable(s', id, since) <==> 0 <= since && DependenciesMet(s, id, []) by {
        if !DependenciesMet(s, id, []) {
          var d :| d in s.deps && d.0 == id && !(d.1 != id && (d.1 in s.items ==> s.items[d.1].state.Completed?));
          assert d in s'.deps;
        }
      }
    }
  }

  lemma CompleteStrands(s: State, capabilities: set<string>, since: int, a: Action)
    requires Awake(s, capabilities, since) && a.Complete?
    ensures Awake(Step(s, a), capabilities, since) <==> !Strands(s, capabilities, since, a)
  {
    var s' := Step(s, a);
    if RunningFor(s, a.id, a.owner) {
      forall other ensures Runnable(s', other, since) <==>
        Runnable(s, other, since) || (!s.items[a.id].cancelled && WaitsOnlyFor(s, other, a.id, since))
      {
        CompleteRuns(s, since, a.id, a.owner, other);
      }
    }
  }

  lemma CompleteRuns(s: State, since: int, id: WorkId, owner: string, other: WorkId)
    requires RunningFor(s, id, owner)
    ensures Runnable(CompleteStep(s, id, owner), other, since) <==>
      Runnable(s, other, since) || (!s.items[id].cancelled && WaitsOnlyFor(s, other, id, since))
  {
    var s' := CompleteStep(s, id, owner);
    if other in s.items && other != id {
      if Blocked(s', other) {
        var d :| d in s'.deps && d.0 == other && d.1 in s'.items && !s'.items[d.1].state.Completed?;
        assert d in s.deps;
      }
      if Blocked(s, other) && !Blocked(s', other) {
        forall d | d in s.deps && d.0 == other && d.1 in s.items && !s.items[d.1].state.Completed?
          ensures d.1 == id && !s.items[id].cancelled
        {
          assert d in s'.deps;
        }
      }
    }
  }

  lemma ClaimLaunchAwake(s: State, capabilities: set<string>, since: int, launch: Launch, token: string)
    requires since <= s.clock
    ensures Awake(ClaimLaunchStep(s, launch, token), capabilities, since)
  {
    var r, s' := Recovered(s), ClaimLaunchStep(s, launch, token);
    if s'.lease.None? {
      forall id | Runnable(s', id, since)
        ensures false
      {
        assert r.items[id] == s'.items[id];
        NotUnblocked(r, s', id);
        assert Claimable(r, id) && Usable(id.Credential(), launch.capabilities);
      }
    }
  }

  /** Steps that neither queue work nor complete it. */
  lemma OtherAwake(s: State, capabilities: set<string>, since: int, a: Action)
    requires Awake(s, capabilities, since) && since <= s.clock
    requires a.Fail? || a.Release? || a.Cancel? || a.ClaimNext? || a.Tick? || a.Adopt? || a.HeartbeatRunner?
    ensures Awake(Step(s, a), capabilities, since)
  {
    var s' := Step(s, a);
    if s'.lease.None? {
      forall id | Runnable(s', id, since) && Usable(id.Credential(), capabilities)
        ensures false
      {
        NotUnblocked(s, s', id);
        assert Runnable(s, id, since);
        assert a.Release? ==> Runnable(s, id, s.clock);
      }
    }
  }

  /** A step loses a wake-up exactly when it strands work. */
  lemma StepAwakeExactly(s: State, capabilities: set<string>, since: int, a: Action)
    requires Awake(s, capabilities, since) && since <= s.clock
    ensures Awake(Step(s, a), capabilities, since) <==> !Strands(s, capabilities, since, a)
    ensures s.clock <= Step(s, a).clock
  {
    hide Awake;
    match a
    case Enqueue(_, _, _, _, _) => EnqueueStrands(s, capabilities, since, a);
    case Schedule(_, _, _) => ScheduleStrands(s, capabilities, since, a);
    case Complete(_, _) => CompleteStrands(s, capabilities, since, a);
    case ClaimLaunch(launch, token) => ClaimLaunchAwake(s, capabilities, since, launch, token);
    case _ => OtherAwake(s, capabilities, since, a);
  }

  /** Awake before and after every step. */
  ghost predicate AwakeThroughout(s: State, capabilities: set<string>, since: int, actions: seq<Action>)
    decreases |actions|
  {
    && Awake(s, capabilities, since)
    && (actions == [] || AwakeThroughout(Step(s, actions[0]), capabilities, since, actions[1..]))
  }

  ghost predicate NeverStrands(s: State, capabilities: set<string>, since: int, actions: seq<Action>)
    decreases |actions|
  {
    actions == [] ||
    (!Strands(s, capabilities, since, actions[0])
      && NeverStrands(Step(s, actions[0]), capabilities, since, actions[1..]))
  }

  /** No wake-up is lost in a run exactly when no step of it strands work; the clock may run meanwhile. */
  lemma {:induction false} NoLostWakeup(s: State, capabilities: set<string>, since: int, actions: seq<Action>)
    requires Awake(s, capabilities, since) && since <= s.clock
    ensures AwakeThroughout(s, capabilities, since, actions) <==> NeverStrands(s, capabilities, since, actions)
    decreases |actions|
  {
    hide Awake, Strands, Step;
    if actions != [] {
      StepAwakeExactly(s, capabilities, since, actions[0]);
      if !Strands(s, capabilities, since, actions[0]) {
        NoLostWakeup(Step(s, actions[0]), capabilities, since, actions[1..]);
      } else {
        assert !AwakeThroughout(Step(s, actions[0]), capabilities, since, actions[1..]);
      }
    }
  }

  lemma EmptyQueueAwake(clock: int, capabilities: set<string>, since: int)
    ensures Awake(EmptyQueue(clock), capabilities, since)
  {
  }

  /** A discipline that strands nothing: clients that enqueue work have launching configured and can use what
      the others can, and work is only completed while there is a lease. */
  predicate Orderly(s: State, capabilities: set<string>, a: Action) {
    match a
    case Enqueue(launch, id, _, _, _) =>
      Usable(id.Credential(), capabilities) ==>
        launch.executable != "" && Usable(id.Credential(), launch.capabilities)
    case Schedule(launch, _, _) => launch.executable != ""
    case Complete(id, owner) => RunningFor(s, id, owner) ==> s.lease.Some?
    case _ => true
  }

  ghost predicate OrderlyRun(s: State, capabilities: set<string>, actions: seq<Action>)
    decreases |actions|
  {
    actions == [] ||
    (Orderly(s, capabilities, actions[0]) && OrderlyRun(Step(s, actions[0]), capabilities, actions[1..]))
  }

  /** From the empty queue, an orderly run is awake throughout. */
  lemma OrderlyRunIsAwake(clock: int, capabilities: set<string>, since: int, actions: seq<Action>)
    requires since <= clock && OrderlyRun(EmptyQueue(clock), capabilities, actions)
    ensures AwakeThroughout(EmptyQueue(clock), capabilities, since, actions)
  {
    EmptyQueueAwake(clock, capabilities, since);
    OrderlyNeverStrands(EmptyQueue(clock), capabilities, since, actions);
    NoLostWakeup(EmptyQueue(clock), capabilities, since, actions);
  }

  lemma {:induction false} OrderlyNeverStrands(s: State, capabilities: set<string>, since: int, actions: seq<Action>)
    requires OrderlyRun(s, capabilities, actions)
    ensures NeverStrands(s, capabilities, since, actions)
    decreases |actions|
  {
    hide Step;
    if actions != [] {
      assert !Strands(s, capabilities, since, actions[0]);
      OrderlyNeverStrands(Step(s, actions[0]), capabilities, since, actions[1..]);
    }
  }

  // A runner that lost its lease to an enqueue and completes its item later leaves the dependent work
  // without any runner.

  const FIRST := Work("first", "", "")
  const SECOND := Work("second", "", "")

  function Launcher(): Launch {
    Launch({}, "runner", "")
  }

  /** A runner works on the first item, which the second item waits for. */
  ghost predicate AtWork(s: State) {
    && s.items.Keys == {FIRST, SECOND} && s.deps == {(SECOND, FIRST)}
    && RunningFor(s, FIRST, "one") && !s.items[FIRST].cancelled
    && s.items[SECOND].state.Pending? && s.items[SECOND].nextAttempt == 0 && !s.items[SECOND].cancelled
    && ActiveFor(s, "one") && s.lease.value.heartbeatAt == 0 && s.clock == 0
  }

  function Starting(): seq<Action> {
    [Enqueue(Launcher(), FIRST, false, [], "one"), Enqueue(Launcher(), SECOND, false, [FIRST], "two"),
     Adopt("one", "one", Launcher()), ClaimNext("one", {})]
  }

  /** It falls silent, and a second runner comes and finds nothing to do. */
  function FallingSilent(): seq<Action> {
    [Tick(RUNNER_TIMEOUT + 1), Enqueue(Launcher(), SECOND, false, [], "three"),
     Adopt("three", "three", Launcher()), Release("three")]
  }

  lemma RunFour(s: State, a: Action, b: Action, c: Action, d: Action)
    ensures Run(s, [a, b, c, d]) == Step(Step(Step(Step(s, a), b), c), d)
  {
    hide Step;
    var s3 := Step(Step(Step(s, a), b), c);
    assert [a, b, c, d][1..] == [b, c, d] && [b, c, d][1..] == [c, d] && [c, d][1..] == [d] && [d][1..] == [];
    assert Run(Step(s, a), [b, c, d]) == Run(Step(Step(s, a), b), [c, d]);
    assert Run(s3, [d]) == Run(Step(s3, d), []);
  }

  lemma ReachQueued() returns (s: State)
    ensures s == Step(Step(Step(EmptyQueue(0), Starting()[0]), Starting()[1]), Starting()[2])
    ensures s.items.Keys == {FIRST, SECOND} && s.deps == {(SECOND, FIRST)} && s.clock == 0 && ActiveFor(s, "one")
    ensures s.lease.value.heartbeatAt == 0
    ensures s.items[FIRST] == Item(Pending, "", s.items[FIRST].fifo, false, 0, 0, false)
    ensures s.items[SECOND] == Item(Pending, "", s.items[SECOND].fifo, false, 0, 0, false)
    ensures s.items[FIRST].fifo < s.items[SECOND].fifo
  {
    var s1 := Step(EmptyQueue(0), Starting()[0]);
    assert IsNextFifo(s1.items, NextFifo(s1.items));
    var s2 := Step(s1, Starting()[1]);
    assert s2.deps == {(SECOND, FIRST)};
    s := Step(s2, Starting()[2]);
  }

  lemma ReachAtWork()
    ensures AtWork(Run(EmptyQueue(0), Starting()))
  {
    hide Step, ClaimNextStep;
    var s := ReachQueued();
    RunFour(EmptyQueue(0), Starting()[0], Starting()[1], Starting()[2], Starting()[3]);
    FirstIsClaimed(s);
    assert Run(EmptyQueue(0), Starting()) == ClaimNextStep(s, "one", {}) by {
      ClaimNextIsStep(s, "one", {});
    }
  }

  lemma ClaimNextIsStep(s: State, owner: string, capabilities: set<string>)
    ensures Step(s, ClaimNext(owner, capabilities)) == ClaimNextStep(s, owner, capabilities)
  {
  }

  lemma FirstIsClaimed(s: State)
    requires s.items.Keys == {FIRST, SECOND} && s.deps == {(SECOND, FIRST)} && s.clock == 0 && ActiveFor(s, "one")
    requires s.items[FIRST] == Item(Pending, "", s.items[FIRST].fifo, false, 0, 0, false)
    requires s.items[SECOND] == Item(Pending, "", s.items[SECOND].fifo, false, 0, 0, false)
    requires s.items[FIRST].fifo < s.items[SECOND].fifo
    ensures ClaimNextStep(s, "one", {}) ==
      s.(items := s.items[FIRST := s.items[FIRST].(state := Running, owner := "one")])
  {
    hide PassedOver;
    assert (SECOND, FIRST) in s.deps && Blocked(s, SECOND);
    assert DependentsFailed(s).items == s.items;
    assert Claimable(s, FIRST) && !Claimable(s, SECOND);
    assert IsNext(s, {}, FIRST);
    NextIsUnique(s, {}, FIRST);
    NothingParked(s);
  }

  lemma NothingParked(s: State)
    requires s.items.Keys == {FIRST, SECOND} && !Claimable(s, SECOND)
    ensures WithParked(s, {}, Some(FIRST)) == s
  {
    assert WithParked(s, {}, Some(FIRST)).items == s.items;
  }

  lemma ReachSilence(s: State) returns (s3: State)
    requires AtWork(s)
    ensures s3 == Step(Step(Step(s, FallingSilent()[0]), FallingSilent()[1]), FallingSilent()[2])
    ensures s3.items == s.items && s3.deps == s.deps && ActiveFor(s3, "three")
  {
    var s2 := Step(Step(s, FallingSilent()[0]), FallingSilent()[1]);
    assert s2.items == s.items && s2.deps == s.deps;
    s3 := Step(s2, FallingSilent()[2]);
  }

  lemma ReachStranded(s: State)
    requires AtWork(s)
    ensures var s' := Run(s, FallingSilent());
      && s'.lease.None? && s'.items == s.items && s'.deps == s.deps
      && Awake(s', {}, 0) && Strands(s', {}, 0, Complete(FIRST, "one"))
  {
    RunFour(s, FallingSilent()[0], FallingSilent()[1], FallingSilent()[2], FallingSilent()[3]);
    var s3 := ReachSilence(s);
    hide Run;
    assert (SECOND, FIRST) in s3.deps && Blocked(s3, SECOND);
    assert forall id <- s3.items :: !Runnable(s3, id, s3.clock);
    var s4 := Step(s3, FallingSilent()[3]);
    assert s4.lease.None? && Blocked(s4, SECOND);
    assert WaitsOnlyFor(s4, SECOND, FIRST, 0);
  }

  /** A run from the empty queue whose last step leaves due work without any runner. */
  lemma StaleRunnerStrandsWork()
    ensures var s := Run(Run(EmptyQueue(0), Starting()), FallingSilent());
      Awake(s, {}, 0) && !Awake(Step(s, Complete(FIRST, "one")), {}, 0)
  {
    hide Awake, Strands, Starting, FallingSilent, Step;
    ReachAtWork();
    var s0 := Run(EmptyQueue(0), Starting());
    ReachStranded(s0);
    var s := Run(s0, FallingSilent());
    RunClock(s0, FallingSilent());
    StepAwakeExactly(s, {}, 0, Complete(FIRST, "one"));
  }

  lemma {:induction false} RunClock(s: State, actions: seq<Action>)
    ensures s.clock <= Run(s, actions).clock
    decreases |actions|
  {
    if actions != [] {
      StepClock(s, actions[0]);
      RunClock(Step(s, actions[0]), actions[1..]);
    }
  }

  lemma StepClock(s: State, a: Action)
    ensures s.clock <= Step(s, a).clock
  {
  }

  // ---------------------------------------------------------------- the other invariants

  ghost predicate OneRunning(s: State) {
    forall a <- s.items, b <- s.items :: s.items[a].state.Running? && s.items[b].state.Running? ==> a == b
  }

  ghost predicate FifoUnique(s: State) {
    forall a <- s.items, b <- s.items :: s.items[a].fifo == s.items[b].fifo ==> a == b
  }

  ghost predicate CancelledNotCompleted(s: State) {
    forall id <- s.items :: s.items[id].cancelled ==> !s.items[id].state.Completed?
  }

  ghost predicate TokensOnce(s: State) {
    && s.adopted <= s.issued
    && (s.lease.Some? && s.lease.value.state.Launching? ==>
          s.lease.value.token in s.issued && s.lease.value.token !in s.adopted)
  }

  ghost predicate Inv(s: State) {
    OneRunning(s) && FifoUnique(s) && CancelledNotCompleted(s) && TokensOnce(s)
  }

  /** Launch tokens are random: a new one was never issued before. */
  predicate FreshToken(s: State, a: Action) {
    match a
    case Enqueue(_, _, _, _, token) => token !in s.issued
    case Schedule(_, _, token) => token !in s.issued
    case ClaimLaunch(_, token) => token !in s.issued
    case _ => true
  }

  ghost predicate FreshRun(s: State, actions: seq<Action>)
    decreases |actions|
  {
    actions == [] || (FreshToken(s, actions[0]) && FreshRun(Step(s, actions[0]), actions[1..]))
  }

  lemma StepOneRunning(s: State, a: Action)
    requires OneRunning(s)
    ensures OneRunning(Step(s, a))
  {
    var s' := Step(s, a);
    if a.ClaimNext? {
      ClaimNextOneRunning(s, a.owner, a.capabilities);
    } else {
      forall id <- s'.items | s'.items[id].state.Running?
        ensures id in s.items && s.items[id].state.Running?
      {
      }
    }
  }

  lemma ClaimNextOneRunning(s: State, owner: string, capabilities: set<string>)
    requires OneRunning(s)
    ensures OneRunning(ClaimNextStep(s, owner, capabilities))
  {
    var f := DependentsFailed(s);
    var w := WithParked(f, capabilities, Next(f, capabilities));
    assert forall id <- w.items :: w.items[id].state.Running? ==> s.items[id].state.Running?;
  }

  lemma StepFifo(s: State, a: Action, id: WorkId)
    requires id in Step(s, a).items
    ensures if id in s.items then Step(s, a).items[id].fifo == s.items[id].fifo
            else Step(s, a).items[id].fifo == NextFifo(s.items) && (a.Enqueue? || a.Schedule?)
                 && id == if a.Enqueue? then a.id else Extraction(a.task)
  {
    hide ClaimNextStep, Stale, Adoptable, Runnable, ActiveFor, Pow2, NextFifo;
    if a.ClaimNext? {
      ClaimNextKeeps(s, a.owner, a.capabilities, id);
    }
  }

  /** What claiming leaves alone. */
  lemma ClaimNextKeeps(s: State, owner: string, capabilities: set<string>, id: WorkId)
    ensures var s' := ClaimNextStep(s, owner, capabilities);
      && (id in s'.items <==> id in s.items)
      && (id in s.items ==>
            && s'.items[id].fifo == s.items[id].fifo && s'.items[id].cancelled == s.items[id].cancelled
            && (s'.items[id].state.Completed? ==> s.items[id].state.Completed?))
  {
    hide Doomed, PassedOver, ActiveFor, IsNext;
  }

  lemma StepFifoUnique(s: State, a: Action)
    requires FifoUnique(s)
    ensures FifoUnique(Step(s, a))
  {
    assert IsNextFifo(s.items, NextFifo(s.items));
    var s' := Step(s, a);
    forall x <- s'.items, y <- s'.items | s'.items[x].fifo == s'.items[y].fifo
      ensures x == y
    {
      StepFifo(s, a, x);
      StepFifo(s, a, y);
    }
  }

  /** A cancellation flag is only cleared by enqueueing the work again. */
  lemma StepCancelled(s: State, a: Action, id: WorkId)
    requires id in s.items && (s.items[id].cancelled ==> !s.items[id].state.Completed?)
    ensures id in Step(s, a).items
    ensures Step(s, a).items[id].cancelled ==> !Step(s, a).items[id].state.Completed?
    ensures s.items[id].cancelled && !(a.Enqueue? && a.id == id) ==> Step(s, a).items[id].cancelled
  {
    hide ClaimNextStep, Stale, Adoptable, Runnable, ActiveFor, Pow2, NextFifo;
    if a.ClaimNext? {
      ClaimNextKeeps(s, a.owner, a.capabilities, id);
    }
  }

  lemma StepCancelledNotCompleted(s: State, a: Action)
    requires CancelledNotCompleted(s)
    ensures CancelledNotCompleted(Step(s, a))
  {
    forall id <- Step(s, a).items
      ensures Step(s, a).items[id].cancelled ==> !Step(s, a).items[id].state.Completed?
    {
      if id in s.items {
        StepCancelled(s, a, id);
      }
    }
  }

  lemma StepTokensOnce(s: State, a: Action)
    requires TokensOnce(s) && FreshToken(s, a)
    ensures TokensOnce(Step(s, a)) && s.adopted <= Step(s, a).adopted
  {
  }

  lemma KeepsInv(s: State, a: Action)
    ensures Inv(s) && FreshToken(s, a) ==> Inv(Step(s, a))
  {
    hide Inv, FreshToken, Step;
    if Inv(s) && FreshToken(s, a) {
      StepInv(s, a);
    }
  }

  lemma StepInv(s: State, a: Action)
    requires Inv(s) && FreshToken(s, a)
    ensures Inv(Step(s, a)) && s.adopted <= Step(s, a).adopted
  {
    StepOneRunning(s, a);
    StepFifoUnique(s, a);
    StepCancelledNotCompleted(s, a);
    StepTokensOnce(s, a);
  }

  lemma {:induction false} RunInv(s: State, actions: seq<Action>)
    requires Inv(s) && FreshRun(s, actions)
    ensures Inv(Run(s, actions)) && s.adopted <= Run(s, actions).adopted
    decreases |actions|
  {
    if actions != [] {
      StepInv(s, actions[0]);
      RunInv(Step(s, actions[0]), actions[1..]);
    }
  }

  /** In every run at most one item is running at any time. */
  lemma AtMostOneRunning(clock: int, actions: seq<Action>, a: WorkId, b: WorkId)
    requires FreshRun(EmptyQueue(clock), actions)
    ensures var s := Run(EmptyQueue(clock), actions);
      a in s.items && b in s.items && s.items[a].state.Running? && s.items[b].state.Running? ==> a == b
  {
    RunInv(EmptyQueue(clock), actions);
  }

  /** A launch token that was adopted cannot be adopted again, ever. */
  lemma TokenAdoptedOnce(s: State, token: string, owner: string, launch: Launch, later: seq<Action>, again: Launch)
    requires Inv(s) && Adoptable(s, token, launch)
    requires FreshRun(AdoptStep(s, token, owner, launch), later)
    ensures !Adoptable(Run(AdoptStep(s, token, owner, launch), later), token, again)
  {
    assert FreshToken(s, Adopt(token, owner, launch));
    StepInv(s, Adopt(token, owner, launch));
    RunInv(AdoptStep(s, token, owner, launch), later);
  }

  /** Work whose cancellation was accepted is not completed before it is enqueued again. */
  lemma {:induction false} CancelledStaysUncompleted(s: State, id: WorkId, actions: seq<Action>)
    requires id in s.items && s.items[id].cancelled && !s.items[id].state.Completed?
    requires forall a <- actions :: !(a.Enqueue? && a.id == id)
    ensures var s' := Run(s, actions); id in s'.items && s'.items[id].cancelled && !s'.items[id].state.Completed?
    decreases |actions|
  {
    if actions != [] {
      StepCancelled(s, actions[0], id);
      CancelledStaysUncompleted(Step(s, actions[0]), id, actions[1..]);
    }
  }

  lemma NextIsUnique(s: State, capabilities: set<string>, id: WorkId)
    requires FifoUnique(s) && IsNext(s, capabilities, id)
    ensures Next(s, capabilities) == Some(id)
  {
  }

  /** The runner that holds the lease is given the first claimable work it has the credential
      for, in (maintenance, fifo) order, and nothing else starts. */
  lemma ClaimNextPicksLeast(s: State, owner: string, capabilities: set<string>, id: WorkId)
    requires Inv(s) && ActiveFor(s, owner)
    requires forall other <- s.items :: !s.items[other].state.Running?
    ensures RunningFor(ClaimNextStep(s, owner, capabilities), id, owner)
            <==> IsNext(DependentsFailed(s), capabilities, id)
  {
    hide Doomed, PassedOver, IsNext;
    var f := DependentsFailed(s);
    assert forall other <- f.items :: !f.items[other].state.Running?;
    assert FifoUnique(f);
    NextIsLeast(f, capabilities, id);
  }

  lemma NextIsLeast(s: State, capabilities: set<string>, id: WorkId)
    requires FifoUnique(s)
    ensures Next(s, capabilities) == Some(id) <==> IsNext(s, capabilities, id)
    ensures IsNext(s, capabilities, id) ==> id in s.items
  {
    if IsNext(s, capabilities, id) {
      NextIsUnique(s, capabilities, id);
    }
  }

  // ---------------------------------------------------------------- a runner without its lease

  /** release_runner_if_empty's answer, which is what ends the loop of a runner. */
  predicate Releases(s: State, owner: string) {
    ActiveFor(s, owner) && !exists id <- s.items :: Runnable(s, id, s.clock)
  }

  lemma StepStaysLost(s: State, a: Action, owner: string)
    requires !ActiveFor(s, owner) && !(a.Adopt? && a.owner == owner)
    ensures !ActiveFor(Step(s, a), owner)
  {
  }

  /** A runner whose lease was taken over is given no more work, and its loop never ends:
      the release it waits for is refused in every later state. */
  lemma {:induction false} LostRunnerNeverLeaves(s: State, actions: seq<Action>, owner: string,
                                                 capabilities: set<string>)
    requires !ActiveFor(s, owner) && forall a <- actions :: !(a.Adopt? && a.owner == owner)
    ensures !Releases(Run(s, actions), owner)
    ensures forall id :: RunningFor(ClaimNextStep(Run(s, actions), owner, capabilities), id, owner) ==>
      RunningFor(Run(s, actions), id, owner)
    decreases |actions|
  {
    if actions != [] {
      StepStaysLost(s, actions[0], owner);
      LostRunnerNeverLeaves(Step(s, actions[0]), actions[1..], owner, capabilities);
    }
  }

  // ---------------------------------------------------------------- a claim that is undone

  ghost predicate SomeRunning(s: State) {
    exists id <- s.items :: s.items[id].state.Running?
  }

  ghost predicate SomeClaimable(s: State, capabilities: set<string>) {
    exists id :: Claimable(s, id) && Usable(id.Credential(), capabilities)
  }

  /** When a claim breaks the unique index on running work: the runner has the lease and usable work, but other work
      is still running. */
  ghost predicate Aborts(s: State, owner: string, capabilities: set<string>) {
    ActiveFor(s, owner) && SomeRunning(s) && SomeClaimable(s, capabilities)
  }

  lemma {:induction false} LeastExists(s: State, rows: set<WorkId>) returns (least: WorkId)
    requires rows != {} && rows <= s.items.Keys && FifoUnique(s)
    ensures least in rows && forall id <- rows :: id != least ==> Before(s.items[least], s.items[id])
    decreases |rows|
  {
    var id :| id in rows;
    var rest := rows - {id};
    least := id;
    if rest == {} {
      assert rows == {id};
    } else {
      var other := LeastExists(s, rest);
      assert s.items[other].fifo != s.items[id].fifo;
      if Before(s.items[other], s.items[id]) {
        least := other;
      }
      forall x <- rows | x != least
        ensures Before(s.items[least], s.items[x])
      {
        if x != id && x != other {
          assert x in rest && Before(s.items[other], s.items[x]);
        }
      }
    }
  }

  lemma NextExists(s: State, capabilities: set<string>)
    requires FifoUnique(s)
    ensures Next(s, capabilities).Some? <==> SomeClaimable(s, capabilities)
    ensures Next(s, capabilities).Some? ==> Next(s, capabilities).value in s.items
  {
    var rows := set id <- s.items | Claimable(s, id) && Usable(id.Credential(), capabilities);
    if SomeClaimable(s, capabilities) {
      var id :| Claimable(s, id) && Usable(id.Credential(), capabilities);
      assert id in rows;
      var least := LeastExists(s, rows);
      assert IsNext(s, capabilities, least);
      NextIsUnique(s, capabilities, least);
    }
  }

  /** The failing of dependents neither adds to what can be claimed nor takes from it. */
  lemma ClaimableStays(s: State, id: WorkId)
    ensures Claimable(DependentsFailed(s), id) <==> Claimable(s, id)
  {
    var f := DependentsFailed(s);
    if Claimable(s, id) {
      assert !Doomed(s, id);
      assert forall d <- f.deps | d.0 == id && d.1 in f.items :: s.items[d.1].state.Completed?;
    }
    if Claimable(f, id) {
      assert forall d <- s.deps | d.0 == id && d.1 in s.items :: f.items[d.1].state.Completed?;
    }
  }

  lemma ParkedRunning(s: State, capabilities: set<string>, next: Option<WorkId>)
    ensures SomeRunning(WithParked(s, capabilities, next)) <==> SomeRunning(s)
  {
    var w := WithParked(s, capabilities, next);
    assert forall id <- s.items :: w.items[id].state.Running? <==> s.items[id].state.Running?;
    if SomeRunning(s) {
      var id :| id in s.items && s.items[id].state.Running?;
      assert id in w.items;
    }
  }

  lemma FailedRunning(s: State)
    ensures SomeRunning(DependentsFailed(s)) <==> SomeRunning(s)
  {
    hide Doomed;
    var f := DependentsFailed(s);
    assert forall id <- s.items :: f.items[id].state.Running? <==> s.items[id].state.Running?;
    if SomeRunning(s) {
      var id :| id in s.items && s.items[id].state.Running?;
      assert id in f.items;
    }
  }

  /** The three outcomes of a claim, told before it. */
  lemma ClaimOutcome(s: State, owner: string, capabilities: set<string>)
    requires FifoUnique(s)
    ensures var f := DependentsFailed(s);
      var next := Next(f, capabilities);
      && (ActiveFor(f, owner) <==> ActiveFor(s, owner))
      && (next.Some? <==> SomeClaimable(s, capabilities)) && (next.Some? ==> next.value in f.items)
      && (SomeRunning(WithParked(f, capabilities, next)) <==> SomeRunning(s))
  {
    hide Claimable, Doomed, PassedOver, IsNext, WithParked;
    var f := DependentsFailed(s);
    assert FifoUnique(f);
    NextExists(f, capabilities);
    ParkedRunning(f, capabilities, Next(f, capabilities));
    FailedRunning(s);
    forall id ensures Claimable(f, id) <==> Claimable(s, id) {
      ClaimableStays(s, id);
    }
    hide Next;
    assert SomeClaimable(f, capabilities) <==> SomeClaimable(s, capabilities);
  }

  lemma AbortedClaim(s: State, owner: string, capabilities: set<string>)
    requires FifoUnique(s) && Aborts(s, owner, capabilities)
    ensures ClaimNextStep(s, owner, capabilities) == s
  {
    hide Claimable, Doomed, PassedOver, IsNext, SomeClaimable, Next;
    ClaimOutcome(s, owner, capabilities);
  }

  predicate Settles(a: Action, id: WorkId, owner: string) {
    (a.Complete? && a.id == id && a.owner == owner) || (a.Fail? && a.id == id && a.owner == owner)
  }

  lemma ClaimNextHeldUp(s: State, owner: string, capabilities: set<string>, id: WorkId)
    requires id in s.items && s.items[id].state.Running?
    ensures var s' := ClaimNextStep(s, owner, capabilities); id in s'.items && s'.items[id] == s.items[id]
  {
    hide Doomed, IsNext;
    var f := DependentsFailed(s);
    assert f.items[id] == s.items[id];
    assert WithParked(f, capabilities, Next(f, capabilities)).items[id] == s.items[id];
  }

  lemma StepHeldUp(s: State, a: Action, id: WorkId)
    requires id in s.items && s.items[id].state.Running? && !a.ClaimLaunch? && !Settles(a, id, s.items[id].owner)
    ensures var s' := Step(s, a);
      id in s'.items && s'.items[id].state.Running? && s'.items[id].owner == s.items[id].owner
  {
    hide ClaimNextStep, NextFifo, Pow2;
    if a.ClaimNext? {
      ClaimNextHeldUp(s, a.owner, a.capabilities, id);
    }
  }

  /** Until its own runner settles it or a launch recovers it, running work keeps all other work from running, whoever
      holds the lease meanwhile. */
  lemma {:induction false} HeldUpUntilRecovered(s: State, actions: seq<Action>, id: WorkId)
    requires OneRunning(s) && id in s.items && s.items[id].state.Running?
    requires forall a <- actions :: !a.ClaimLaunch? && !Settles(a, id, s.items[id].owner)
    ensures var s' := Run(s, actions);
      && id in s'.items && s'.items[id].state.Running? && s'.items[id].owner == s.items[id].owner
      && forall other <- s'.items :: s'.items[other].state.Running? ==> other == id
    decreases |actions|
  {
    hide Step;
    if actions != [] {
      StepHeldUp(s, actions[0], id);
      StepOneRunning(s, actions[0]);
      HeldUpUntilRecovered(Step(s, actions[0]), actions[1..], id);
    }
  }

  /** And a launch recovers it exactly when no live runner holds the lease. */
  lemma LaunchRecovers(s: State, launch: Launch, token: string, id: WorkId)
    requires id in s.items && s.items[id].state.Running?
    ensures var s' := ClaimLaunchStep(s, launch, token);
      id in s'.items && (s'.items[id].state.Running? <==> s.lease.Some? && !Stale(s.lease.value, s.clock))
  {
    hide Claimable;
  }

  const THIRD := Work("third", "", "")

  /** The first runner falls silent at work, and a second one is launched for new work. */
  function Interfering(): seq<Action> {
    [Tick(RUNNER_TIMEOUT + 1), Enqueue(Launcher(), THIRD, false, [], "three"), Adopt("three", "three", Launcher())]
  }

  lemma RunThree(s: State, a: Action, b: Action, c: Action)
    ensures Run(s, [a, b, c]) == Step(Step(Step(s, a), b), c)
  {
    hide Step;
    assert [a, b, c][1..] == [b, c] && [b, c][1..] == [c] && [c][1..] == [];
    assert Run(Step(s, a), [b, c]) == Run(Step(Step(s, a), b), [c]);
    assert Run(Step(Step(s, a), b), [c]) == Run(Step(Step(Step(s, a), b), c), []);
  }

  lemma ReachInterference(s: State)
    requires AtWork(s)
    ensures var s' := Run(s, Interfering());
      && Aborts(s', "three", {}) && Runnable(s', THIRD, s'.clock) && !Releases(s', "three")
  {
    RunThree(s, Interfering()[0], Interfering()[1], Interfering()[2]);
    hide Run;
    var s1 := Step(s, Interfering()[0]);
    assert IsNextFifo(s1.items, NextFifo(s1.items));
    var s2 := Step(s1, Interfering()[1]);
    assert s2.deps == s.deps && s2.items == s.items[THIRD := s2.items[THIRD]];
    var s3 := Step(s2, Interfering()[2]);
    assert !Blocked(s3, THIRD) && Runnable(s3, THIRD, s3.clock);
    assert FIRST in s3.items && s3.items[FIRST].state.Running?;
    assert Claimable(s3, THIRD) && Usable(THIRD.Credential(), {});
  }

  /** A run from the empty queue in which the runner with the lease can neither claim the work that is due nor release
      its lease. */
  lemma SecondRunnerIsStopped()
    ensures var s := Run(Run(EmptyQueue(0), Starting()), Interfering());
      && Aborts(s, "three", {}) && Runnable(s, THIRD, s.clock) && !Releases(s, "three")
  {
    hide Aborts, Runnable, Releases, Starting, Interfering, AtWork;
    ReachAtWork();
    ReachInterference(Run(EmptyQueue(0), Starting()));
  }

  // ---------------------------------------------------------------- what the steps do to an item

  /** Waiting to run: whatever is not running and not finished. */
  predicate Waits(i: Item) {
    i.state == Pending || i.state == RetryWait || i.state == WaitingForCredential
  }

  /** Seconds from the n-th failure to the next attempt. */
  function Delay(failures: nat): nat
    requires failures >= 1
  {
    match failures
    case 1 => 1
    case 2 => 2
    case 3 => 4
    case 4 => 8
    case 5 => 16
    case 6 => 32
    case 7 => 64
    case 8 => 128
    case _ => 256
  }

  lemma SmallPowers()
    ensures Pow2(0) == 1 && Pow2(1) == 2 && Pow2(2) == 4 && Pow2(3) == 8 && Pow2(4) == 16
    ensures Pow2(5) == 32 && Pow2(6) == 64 && Pow2(7) == 128 && Pow2(8) == 256
  {
    assert Pow2(3) == 8 && Pow2(4) == 16 && Pow2(6) == 64 && Pow2(8) == 256;
  }

  /** A failure reported by the runner of an item counts as an attempt and delays the next one; at the maximum the item
      has failed, and cancelled work is cancelled. */
  lemma FailureCounts(s: State, id: WorkId, owner: string, maximumAttempts: nat)
    requires RunningFor(s, id, owner)
    ensures var s', i := Step(s, Fail(id, owner, maximumAttempts)), s.items[id];
      && s'.items.Keys == s.items.Keys && (forall other <- s.items :: other != id ==> s'.items[other] == s.items[other])
      && s'.items[id].attempts == i.attempts + 1
      && (s'.items[id].state == Cancelled <==> i.cancelled)
      && (s'.items[id].state == Failed <==> !i.cancelled && i.attempts + 1 >= maximumAttempts)
      && (s'.items[id].state == RetryWait <==> !i.cancelled && i.attempts + 1 < maximumAttempts)
      && s'.items[id].nextAttempt == s.clock + Delay(i.attempts + 1) && s'.items[id].owner == ""
      && s'.deps == s.deps && s'.lease == s.lease
  {
    SmallPowers();
    hide Pow2;
  }

  /** How often an item has failed since it was last enqueued, when it had failed `n` times before the actions. */
  ghost function Failures(s: State, actions: seq<Action>, id: WorkId, n: nat): nat
    decreases |actions|
  {
    if actions == [] then n
    else
      var a, s' := actions[0], Step(s, actions[0]);
      var failed := a.Fail? && a.id == id && RunningFor(s, id, a.owner);
      var again := a.Enqueue? && a.id == id && (forall d <- a.dependencies :: d in s.items || d == id)
                   && id in s.items && (s.items[id].state == Failed || s.items[id].state == Cancelled);
      Failures(s', actions[1..], id, if failed then n + 1 else if again then 0 else n)
  }

  function AttemptsOf(s: State, id: WorkId): nat {
    if id in s.items then s.items[id].attempts else 0
  }

  lemma ClaimNextAttempts(s: State, owner: string, capabilities: set<string>, id: WorkId)
    ensures var s' := ClaimNextStep(s, owner, capabilities);
      && AttemptsOf(s', id) == AttemptsOf(s, id)
      && (id in s.items && (s.items[id].state.Failed? || s.items[id].state.Cancelled?) ==> s'.items[id] == s.items[id])
  {
    hide Doomed, IsNext, ActiveFor, Usable, Blocked, Next;
    NextIsClaimable(DependentsFailed(s), capabilities);
  }

  lemma StepAttempts(s: State, a: Action, id: WorkId)
    requires !(a.Fail? && a.id == id) && !(a.Enqueue? && a.id == id)
    ensures AttemptsOf(Step(s, a), id) == AttemptsOf(s, id)
    ensures id in s.items && (s.items[id].state.Failed? || s.items[id].state.Cancelled?) ==>
      Step(s, a).items[id] == s.items[id]
  {
    hide ClaimNextStep, NextFifo, Pow2, Min, Usable, Blocked;
    if a.ClaimNext? {
      ClaimNextAttempts(s, a.owner, a.capabilities, id);
    }
  }

  /** An item's counter is the number of its failures since it was enqueued. */
  lemma {:induction false} AttemptsAreFailures(s: State, actions: seq<Action>, id: WorkId)
    ensures AttemptsOf(Run(s, actions), id) == Failures(s, actions, id, AttemptsOf(s, id))
    decreases |actions|
  {
    if actions != [] {
      var a := actions[0];
      OneAttempt(s, a, id);
      hide Step;
      AttemptsAreFailures(Step(s, a), actions[1..], id);
    }
  }

  lemma OneAttempt(s: State, a: Action, id: WorkId)
    ensures AttemptsOf(Step(s, a), id) ==
      if a.Fail? && a.id == id && RunningFor(s, id, a.owner) then AttemptsOf(s, id) + 1
      else if a.Enqueue? && a.id == id && (forall d <- a.dependencies :: d in s.items || d == id)
              && id in s.items && (s.items[id].state == Failed || s.items[id].state == Cancelled)
      then 0 else AttemptsOf(s, id)
  {
    if (a.Fail? && a.id == id) || (a.Enqueue? && a.id == id) {
      hide NextFifo, Pow2, Min, Usable;
    } else {
      StepAttempts(s, a, id);
      hide Step;
    }
  }

  /** Nothing is given more attempts than the maximum, and what has used them up is finished. */
  ghost predicate WithinAttempts(s: State, maximumAttempts: nat) {
    forall id <- s.items ::
      s.items[id].attempts < maximumAttempts ||
      (s.items[id].attempts == maximumAttempts && (s.items[id].state == Failed || s.items[id].state == Cancelled))
  }

  lemma StepWithinAttempts(s: State, a: Action, maximumAttempts: nat)
    requires WithinAttempts(s, maximumAttempts) && maximumAttempts >= 1
    requires a.Fail? ==> a.maximumAttempts == maximumAttempts
    ensures WithinAttempts(Step(s, a), maximumAttempts)
  {
    var s' := Step(s, a);
    forall id <- s'.items
      ensures s'.items[id].attempts < maximumAttempts ||
        (s'.items[id].attempts == maximumAttempts && (s'.items[id].state == Failed || s'.items[id].state == Cancelled))
    {
      OneAttempt(s, a, id);
      if a.Fail? && a.id == id && RunningFor(s, id, a.owner) {
        FailureCounts(s, id, a.owner, a.maximumAttempts);
      } else if !(a.Fail? && a.id == id) && !(a.Enqueue? && a.id == id) {
        StepAttempts(s, a, id);
      } else {
        EnqueuedAttempts(s, a, id);
      }
    }
  }

  lemma EnqueuedAttempts(s: State, a: Action, id: WorkId)
    requires (a.Fail? && a.id == id && !RunningFor(s, id, a.owner)) || (a.Enqueue? && a.id == id)
    ensures var s' := Step(s, a);
      id in s'.items ==> s'.items[id].attempts == 0 || (id in s.items && s'.items[id] == s.items[id])
  {
    hide NextFifo, Usable;
  }

  lemma {:induction false} RunWithinAttempts(s: State, actions: seq<Action>, maximumAttempts: nat)
    requires WithinAttempts(s, maximumAttempts) && maximumAttempts >= 1
    requires forall a <- actions :: a.Fail? ==> a.maximumAttempts == maximumAttempts
    ensures WithinAttempts(Run(s, actions), maximumAttempts)
    decreases |actions|
  {
    hide Step;
    if actions != [] {
      StepWithinAttempts(s, actions[0], maximumAttempts);
      RunWithinAttempts(Step(s, actions[0]), actions[1..], maximumAttempts);
    }
  }

  /** In every run an item fails at most `maximumAttempts` times after it was enqueued.  When its runner reports its
      n-th failure it has failed for good exactly if n is the maximum, and otherwise is tried again. */
  lemma FailsAtMaximum(clock: int, actions: seq<Action>, maximumAttempts: nat, id: WorkId, owner: string)
    requires maximumAttempts >= 1 && forall a <- actions :: a.Fail? ==> a.maximumAttempts == maximumAttempts
    ensures Failures(EmptyQueue(clock), actions, id, 0) <= maximumAttempts
    ensures var s, n := Run(EmptyQueue(clock), actions), Failures(EmptyQueue(clock), actions, id, 0) + 1;
      RunningFor(s, id, owner) && !s.items[id].cancelled ==>
        && (Step(s, Fail(id, owner, maximumAttempts)).items[id].state == Failed <==> n == maximumAttempts)
        && (Step(s, Fail(id, owner, maximumAttempts)).items[id].state == RetryWait <==> n < maximumAttempts)
  {
    var s := Run(EmptyQueue(clock), actions);
    AttemptsAreFailures(EmptyQueue(clock), actions, id);
    RunWithinAttempts(EmptyQueue(clock), actions, maximumAttempts);
    if RunningFor(s, id, owner) {
      FailureCounts(s, id, owner, maximumAttempts);
    }
    hide Step, Failures;
  }

  /** Completion by the runner of an item; anybody else's changes nothing. */
  lemma CompletionSettles(s: State, id: WorkId, owner: string)
    ensures var s' := Step(s, Complete(id, owner));
      && (!RunningFor(s, id, owner) ==> s' == s)
      && (RunningFor(s, id, owner) ==>
            && s'.items.Keys == s.items.Keys
            && (forall other <- s.items :: other != id ==> s'.items[other] == s.items[other])
            && s'.items[id].state == (if s.items[id].cancelled then Cancelled else Completed)
            && s'.items[id].owner == "" && s'.items[id].attempts == s.items[id].attempts && s'.items[id].cancelled == s.items[id].cancelled)
  {
  }

  /** A cancellation flags running work and cancels waiting work, and finished work is left as it is. */
  lemma CancellationMarks(s: State, id: WorkId)
    ensures var s' := Step(s, Cancel(id));
      && s'.items.Keys == s.items.Keys && (forall other <- s.items :: other != id ==> s'.items[other] == s.items[other])
      && (id in s.items && s.items[id].state == Running ==>
            s'.items[id].state == Running && s'.items[id].cancelled && s'.items[id].owner == s.items[id].owner)
      && (id in s.items && Waits(s.items[id]) ==> s'.items[id].state == Cancelled && s'.items[id].cancelled)
      && (id in s.items && s.items[id].state in {Completed, Failed, Cancelled} ==> s'.items[id] == s.items[id])
  {
  }

  /** New work waits at the end of the queue, finished work without success starts over at its old place, and the
      dependencies are added; with an unknown dependency nothing happens. */
  lemma EnqueueQueues(s: State, launch: Launch, id: WorkId, maintenance: bool, more: seq<WorkId>, token: string)
    ensures var s' := Step(s, Enqueue(launch, id, maintenance, more, token));
      if exists d <- more :: d !in s.items && d != id then s' == s
      else
        && s'.items.Keys == s.items.Keys + {id}
        && (forall other <- s.items :: other != id ==> s'.items[other] == s.items[other])
        && (forall d :: d in s'.deps <==> d in s.deps || (d.0 == id && d.1 in more))
        && var i := s'.items[id];
        && (id !in s.items ==>
              && i.state == Pending && i.attempts == 0 && i.nextAttempt == 0 && !i.cancelled
              && i.maintenance == maintenance && forall other <- s.items :: s.items[other].fifo < i.fifo)
        && (id in s.items && s.items[id].state in {Failed, Cancelled} ==>
              && i.state == Pending && i.attempts == 0 && i.nextAttempt == 0 && !i.cancelled
              && i.maintenance == s.items[id].maintenance && i.fifo == s.items[id].fifo)
        && (id in s.items && s.items[id].state !in {Failed, Cancelled} ==> i == s.items[id])
  {
    assert IsNextFifo(s.items, NextFifo(s.items));
    LaunchKeepsQueue(s, launch, id, maintenance, more, token);
    hide NextFifo, Usable, LaunchOnEnqueue, EnqueueStep;
  }

  lemma LaunchKeepsQueue(s: State, launch: Launch, id: WorkId, maintenance: bool, more: seq<WorkId>, token: string)
    ensures var s' := EnqueueStep(s, launch, id, maintenance, more, token);
      if exists d <- more :: d !in s.items && d != id then s' == s
      else s'.items == (if id in s.items then s.items[id := Rerun(s.items[id])] else Inserted(s.items, id, maintenance))
           && s'.deps == s.deps + (set d | d in more :: (id, d))
  {
    hide NextFifo, Usable;
  }

  // ---------------------------------------------------------------- the runner lease

  /** A lease that has just been written for a launch. */
  predicate LaunchedNow(s: State, launch: Launch, token: string) {
    s.lease == Some(RunnerLease(Launching, token, "", launch.executable, launch.config, launch.capabilities, s.clock))
  }

  /** A lease is live until half a minute after its last heartbeat. */
  predicate Live(s: State) {
    s.lease.Some? && s.clock <= s.lease.value.heartbeatAt + 30
  }

  /** Accepted work for which a client can launch has a live lease: the one there, or a new launch. */
  lemma EnqueueLaunches(s: State, launch: Launch, id: WorkId, maintenance: bool, more: seq<WorkId>, token: string)
    requires forall d <- more :: d in s.items || d == id
    ensures var s' := Step(s, Enqueue(launch, id, maintenance, more, token));
      var launches := launch.executable != "" && (id.Credential() == "" || id.Credential() in launch.capabilities);
      if launches && !Live(s) then LaunchedNow(s', launch, token) && token in s'.issued else s'.lease == s.lease
  {
    hide NextFifo;
  }

  lemma ScheduleLaunches(s: State, launch: Launch, task: string, token: string)
    ensures var s', id := Step(s, Schedule(launch, task, token)), Extraction(task);
      && (if launch.executable != "" && !Live(s) then LaunchedNow(s', launch, token) && token in s'.issued
          else s'.lease == s.lease)
      && s'.items.Keys == s.items.Keys + {id} && s'.deps == s.deps
      && (forall other <- s.items :: s'.items[other] == s.items[other])
      && (id !in s.items ==> Waits(s'.items[id]) && !s'.items[id].cancelled && s'.items[id].nextAttempt == 0
                             && forall other <- s.items :: s.items[other].fifo < s'.items[id].fifo)
  {
    assert IsNextFifo(s.items, NextFifo(s.items));
    hide NextFifo;
  }

  /** A launching lease is adopted by whoever brings its token and was started from the same program and configuration;
      it is active and live from then on. */
  lemma AdoptionActivates(s: State, token: string, owner: string, launch: Launch)
    ensures var s' := Step(s, Adopt(token, owner, launch));
      && s'.items == s.items && s'.deps == s.deps
      && if s.lease.Some? && s.lease.value.state == LeaseState.Launching && s.lease.value.token == token
            && s.lease.value.executable == launch.executable && s.lease.value.config == launch.config
         then ActiveFor(s', owner) && Live(s') && s'.lease.value.heartbeatAt == s.clock
              && s'.lease.value.capabilities == launch.capabilities && s'.lease.value.token == ""
         else s'.lease == s.lease
  {
  }

  /** A heartbeat of the owner is the time until which the lease stays live; nobody else's counts. */
  lemma HeartbeatRenews(s: State, owner: string)
    ensures var s' := Step(s, HeartbeatRunner(owner));
      && s'.items == s.items && (!ActiveFor(s, owner) ==> s' == s)
      && (ActiveFor(s, owner) ==> ActiveFor(s', owner) && s'.lease.value.heartbeatAt == s.clock && Live(s'))
  {
  }

  /** The lease is live before every action, and its owner does not release it. */
  ghost predicate StaysLive(s: State, actions: seq<Action>, owner: string)
    decreases |actions|
  {
    actions == [] ||
    (Live(s) && actions[0] != Release(owner) && StaysLive(Step(s, actions[0]), actions[1..], owner))
  }

  lemma LiveLeaseStays(s: State, a: Action, owner: string)
    requires ActiveFor(s, owner) && Live(s) && a != Release(owner)
    ensures ActiveFor(Step(s, a), owner)
    ensures Step(s, a).lease.value.heartbeatAt
      == if a == HeartbeatRunner(owner) then s.clock else s.lease.value.heartbeatAt
  {
    hide NextFifo, Claimable, Doomed, PassedOver, IsNext, Pow2;
  }

  /** A runner that keeps its lease live by heartbeats keeps it, whatever the others do. */
  lemma {:induction false} LiveRunnerKeepsLease(s: State, actions: seq<Action>, owner: string)
    requires ActiveFor(s, owner) && StaysLive(s, actions, owner)
    ensures ActiveFor(Run(s, actions), owner)
    decreases |actions|
  {
    hide Step;
    if actions != [] {
      LiveLeaseStays(s, actions[0], owner);
      LiveRunnerKeepsLease(Step(s, actions[0]), actions[1..], owner);
    }
  }

  /** A launch changes nothing while the lease is live, and otherwise leaves no lease or a new one. */
  lemma LaunchNeedsDeadLease(s: State, launch: Launch, token: string)
    ensures var s' := Step(s, ClaimLaunch(launch, token));
      && s'.items.Keys == s.items.Keys && s'.deps == s.deps && (Live(s) ==> s' == s)
      && (!Live(s) ==> s'.lease.None? || (LaunchedNow(s', launch, token) && token in s'.issued))
  {
    hide Claimable, Usable;
  }

  /** It hands running work back, and when it launches nothing the work that names a credential waits for it. */
  lemma LaunchHandsBack(s: State, launch: Launch, token: string, id: WorkId)
    requires !Live(s) && id in s.items
    ensures var s', i := Step(s, ClaimLaunch(launch, token)), s.items[id];
      && id in s'.items
      && var i' := s'.items[id];
      && i'.(state := i.state, owner := i.owner) == i
      && (if i.state == Running then i'.owner == "" else i'.owner == i.owner)
      && var open := i.state == Running || i.state == Pending || i.state == RetryWait;
      if s'.lease.None? && open && id.Credential() != "" then i'.state == WaitingForCredential
      else i'.state == if i.state == Running then Pending else i.state
  {
    hide Claimable, Usable;
    var r := Recovered(s);
    assert r.items[id] == if s.items[id].state.Running? then s.items[id].(state := Pending, owner := "")
                          else s.items[id];
  }

  /** Work that a runner with these credentials may be given, read from its columns. */
  predicate Eligible(s: State, id: WorkId, capabilities: set<string>) {
    && id in s.items && Waits(s.items[id]) && s.items[id].nextAttempt <= s.clock && !s.items[id].cancelled
    && (forall d <- s.deps :: d.0 == id && d.1 in s.items ==> s.items[d.1].state == Completed)
    && (id.Credential() == "" || id.Credential() in capabilities)
  }

  lemma EligibleIsClaimable(s: State, id: WorkId, capabilities: set<string>)
    ensures Claimable(s, id) && Usable(id.Credential(), capabilities) <==> Eligible(s, id, capabilities)
  {
  }

  /** In the order in which work is given. */
  predicate Precedes(a: Item, b: Item) {
    if a.maintenance == b.maintenance then a.fifo < b.fifo else b.maintenance
  }

  /** Only the work that the scan stops at is running after a claim, if nothing was running. */
  lemma OnlyNextRuns(s: State, owner: string, capabilities: set<string>, id: WorkId)
    requires FifoUnique(s) && ActiveFor(s, owner) && !SomeRunning(s)
    ensures var s', next := ClaimNextStep(s, owner, capabilities), Next(DependentsFailed(s), capabilities);
      && (id in s'.items && s'.items[id].state == Running <==> next == Some(id))
      && (next == Some(id) ==> s'.items[id].owner == owner)
  {
    hide Claimable, Doomed, PassedOver, Next, IsNext;
    ClaimOutcome(s, owner, capabilities);
    FailedRunning(s);
  }

  lemma OrderStays(s: State, a: WorkId, b: WorkId)
    requires a in s.items && b in s.items
    ensures var f := DependentsFailed(s); Before(f.items[a], f.items[b]) <==> Before(s.items[a], s.items[b])
  {
    hide Doomed;
  }

  /** What the scan stops at is the first eligible work. */
  lemma NextIsFirst(s: State, capabilities: set<string>, id: WorkId, other: WorkId)
    requires FifoUnique(s) && Next(DependentsFailed(s), capabilities) == Some(id)
    ensures Eligible(s, id, capabilities)
    ensures Eligible(s, other, capabilities) && other != id ==> Precedes(s.items[id], s.items[other])
  {
    hide Claimable, Doomed, Eligible;
    var f := DependentsFailed(s);
    ClaimableStays(s, id);
    ClaimableStays(s, other);
    EligibleIsClaimable(s, id, capabilities);
    EligibleIsClaimable(s, other, capabilities);
    assert IsNext(f, capabilities, id);
    EligibleIsItem(s, id, capabilities);
    if Eligible(s, other, capabilities) {
      EligibleIsItem(s, other, capabilities);
      OrderStays(s, id, other);
    }
  }

  lemma EligibleIsItem(s: State, id: WorkId, capabilities: set<string>)
    requires Eligible(s, id, capabilities)
    ensures id in s.items
  {
  }

  /** What the holder of the lease is given when nothing runs: eligible work, ordinary before maintenance work and
      in each of these the first by number, and something whenever there is any. */
  lemma ClaimGivesFirst(s: State, owner: string, capabilities: set<string>)
    requires Inv(s) && ActiveFor(s, owner) && !SomeRunning(s)
    ensures var s' := Step(s, ClaimNext(owner, capabilities));
      && (SomeRunning(s') <==> exists id :: Eligible(s, id, capabilities))
      && forall id, other | id in s'.items && s'.items[id].state == Running ::
           && s'.items[id].owner == owner && Eligible(s, id, capabilities)
           && (Eligible(s, other, capabilities) && other != id ==>
                 Precedes(s.items[id], s.items[other]))
  {
    InvIsFifo(s);
    ClaimNextIsStep(s, owner, capabilities);
    hide Claimable, Inv, Eligible, Next, ClaimNextStep, Step, DependentsFailed;
    var s', next := ClaimNextStep(s, owner, capabilities), Next(DependentsFailed(s), capabilities);
    ClaimOutcome(s, owner, capabilities);
    forall id ensures Claimable(s, id) && Usable(id.Credential(), capabilities) <==> Eligible(s, id, capabilities) {
      EligibleIsClaimable(s, id, capabilities);
    }
    forall id
      ensures id in s'.items && s'.items[id].state == Running <==> next == Some(id)
      ensures next == Some(id) ==> s'.items[id].owner == owner
    {
      OnlyNextRuns(s, owner, capabilities, id);
    }
    if next.Some? {
      var id := next.value;
      forall other
        ensures Eligible(s, id, capabilities)
        ensures Eligible(s, other, capabilities) && other != id ==>
          id in s.items && other in s.items
          && Precedes(s.items[id], s.items[other])
      {
        NextIsFirst(s, capabilities, id, other);
        EligibleIsItem(s, id, capabilities);
        if Eligible(s, other, capabilities) {
          EligibleIsItem(s, other, capabilities);
        }
      }
    }
  }

  /** A claim fails the waiting work that depends on failed or cancelled work, even when nothing is given. */
  lemma ClaimFailsDependents(s: State, owner: string, capabilities: set<string>, id: WorkId)
    requires FifoUnique(s) && !Aborts(s, owner, capabilities) && id in s.items && Waits(s.items[id])
    requires exists d <- s.deps :: d.0 == id && d.1 in s.items && s.items[d.1].state in {Failed, Cancelled}
    ensures var s' := ClaimNextStep(s, owner, capabilities); id in s'.items && s'.items[id].state == Failed
  {
    var f := DependentsFailed(s);
    assert Doomed(s, id) && f.items[id].state == Failed;
    ClaimOutcome(s, owner, capabilities);
    NextIsClaimable(f, capabilities);
    hide Next, IsNext, Doomed, DependentsFailed, Usable;
    assert !Claimable(f, id);
  }

  /** Work that could be given but for its credential waits for that from a claim on, if it precedes whatever is
      given. */
  lemma ClaimParks(s: State, owner: string, capabilities: set<string>, id: WorkId)
    requires FifoUnique(s) && ActiveFor(s, owner) && !SomeRunning(s)
    requires id in s.items && Eligible(s, id, capabilities + {id.Credential()}) && !Eligible(s, id, capabilities)
    ensures var s' := ClaimNextStep(s, owner, capabilities);
      id in s'.items && s'.items[id].state ==
        if forall other :: Eligible(s, other, capabilities) ==> Precedes(s.items[id], s.items[other])
        then WaitingForCredential else s.items[id].state
  {
    EligibleIsClaimable(s, id, capabilities);
    EligibleIsClaimable(s, id, capabilities + {id.Credential()});
    UndoomedStays(s, id);
    assert Claimable(s, id) && !Usable(id.Credential(), capabilities);
    hide Claimable, Eligible, Doomed, Usable, PassedOver, DependentsFailed, Next, ClaimNextStep;
    ParkedByClaim(s, owner, capabilities, id);
    PassedPrecedes(s, capabilities, id);
  }

  lemma ParkedByClaim(s: State, owner: string, capabilities: set<string>, id: WorkId)
    requires FifoUnique(s) && ActiveFor(s, owner) && !SomeRunning(s) && id in s.items
    requires !Usable(id.Credential(), capabilities)
    ensures var s', f := ClaimNextStep(s, owner, capabilities), DependentsFailed(s);
      id in s'.items && s'.items[id].state ==
        if PassedOver(f, capabilities, Next(f, capabilities), id) then WaitingForCredential else f.items[id].state
  {
    var f := DependentsFailed(s);
    ClaimOutcome(s, owner, capabilities);
    NextIsUsable(f, capabilities);
    FailedRunning(s);
    hide Claimable, Doomed, Next, Usable, PassedOver;
  }

  lemma NextIsUsable(s: State, capabilities: set<string>)
    ensures var next := Next(s, capabilities); next.Some? ==> Usable(next.value.Credential(), capabilities)
  {
  }

  lemma PassedPrecedes(s: State, capabilities: set<string>, id: WorkId)
    requires FifoUnique(s) && Claimable(s, id) && !Usable(id.Credential(), capabilities)
    ensures id in s.items
    ensures var f := DependentsFailed(s);
      PassedOver(f, capabilities, Next(f, capabilities), id) <==>
      forall other :: Eligible(s, other, capabilities) ==> other in s.items && Precedes(s.items[id], s.items[other])
  {
    var f := DependentsFailed(s);
    var next := Next(f, capabilities);
    ClaimableStays(s, id);
    ClaimOutcome(s, "", capabilities);
    NothingEligible(s, capabilities);
    hide Doomed, Next, Usable, Eligible, DependentsFailed, SomeClaimable;
    if next.Some? {
      var n := next.value;
      NextIsFirst(s, capabilities, n, n);
      EligibleIsItem(s, n, capabilities);
      OrderStays(s, id, n);
      forall other | Eligible(s, other, capabilities)
        ensures other in s.items && (Precedes(s.items[id], s.items[n]) ==> Precedes(s.items[id], s.items[other]))
      {
        NextIsFirst(s, capabilities, n, other);
        EligibleIsItem(s, other, capabilities);
      }
    }
  }

  lemma UndoomedStays(s: State, id: WorkId)
    requires Claimable(s, id)
    ensures DependentsFailed(s).items[id] == s.items[id]
  {
    assert !Doomed(s, id);
  }

  lemma NothingEligible(s: State, capabilities: set<string>)
    ensures !SomeClaimable(s, capabilities) ==> forall id :: !Eligible(s, id, capabilities)
  {
    forall id ensures Claimable(s, id) && Usable(id.Credential(), capabilities) <==> Eligible(s, id, capabilities) {
      EligibleIsClaimable(s, id, capabilities);
    }
  }

  /** And it leaves everything else as it was: only eligible work is given, and only work that lacks a credential
      parked. */
  lemma ClaimLeavesRest(s: State, owner: string, capabilities: set<string>, id: WorkId)
    requires FifoUnique(s) && id in s.items
    requires !Waits(s.items[id])
             || forall d <- s.deps :: d.0 == id && d.1 in s.items ==> s.items[d.1].state !in {Failed, Cancelled}
    ensures var s', i := ClaimNextStep(s, owner, capabilities), s.items[id];
      && s'.items.Keys == s.items.Keys && s'.deps == s.deps && s'.lease == s.lease
      && (s'.items[id] == i
          || (s'.items[id] == i.(state := WaitingForCredential)
              && Eligible(s, id, capabilities + {id.Credential()}) && !Eligible(s, id, capabilities))
          || (s'.items[id] == i.(state := Running, owner := owner) && Eligible(s, id, capabilities)))
  {
    var f := DependentsFailed(s);
    assert f.items[id] == s.items[id] && f.items.Keys == s.items.Keys && f.deps == s.deps && f.lease == s.lease;
    NextIsClaimable(f, capabilities);
    NextIsUsable(f, capabilities);
    ClaimableStays(s, id);
    EligibleIsClaimable(s, id, capabilities);
    EligibleIsClaimable(s, id, capabilities + {id.Credential()});
    ClaimTakesOrParks(s, owner, capabilities, id);
    hide Claimable, Eligible, Doomed, Next, DependentsFailed, ClaimNextStep;
  }

  /** A claim gives the next item, parks the items passed over, and changes no other. */
  lemma ClaimTakesOrParks(s: State, owner: string, capabilities: set<string>, id: WorkId)
    requires id in s.items && DependentsFailed(s).items.Keys == s.items.Keys
    requires DependentsFailed(s).items[id] == s.items[id]
    ensures var s', f := ClaimNextStep(s, owner, capabilities), DependentsFailed(s);
      && s'.items.Keys == s.items.Keys && (s'.deps == f.deps || s'.deps == s.deps)
      && (s'.lease == f.lease || s'.lease == s.lease)
      && (s'.items[id] == s.items[id]
          || (s'.items[id] == s.items[id].(state := WaitingForCredential)
              && PassedOver(f, capabilities, Next(f, capabilities), id))
          || (s'.items[id] == s.items[id].(state := Running, owner := owner) && Next(f, capabilities) == Some(id)
              && !PassedOver(f, capabilities, Next(f, capabilities), id))
          || (Next(f, capabilities) == Some(id) && PassedOver(f, capabilities, Next(f, capabilities), id)))
  {
    hide DependentsFailed, Next, PassedOver, ActiveFor;
  }

  lemma NextIsClaimable(s: State, capabilities: set<string>)
    ensures Next(s, capabilities).Some? ==> Claimable(s, Next(s, capabilities).value)
  {
  }

  /** The lease goes when its owner asks and no work that is not held back waits for anybody. */
  lemma ReleaseFreesLease(s: State, owner: string)
    ensures var s' := Step(s, Release(owner));
      && s'.items == s.items && s'.deps == s.deps
      && if ActiveFor(s, owner)
            && forall id <- s.items :: s.items[id].state == Pending || s.items[id].state == RetryWait ==>
                 s.items[id].nextAttempt > s.clock || s.items[id].cancelled
                 || exists d <- s.deps :: d.0 == id && d.1 in s.items && s.items[d.1].state != Completed
         then s'.lease.None? else s' == s
  {
  }

  // ---------------------------------------------------------------- the tables in place

  datatype Claim = Claimed(id: WorkId) | Nothing | Aborted

  /** The work_items, work_dependencies and runner_lease tables.  `issued` and `adopted` are the
      history of launch tokens. */
  class Catalog {
    var items: map<WorkId, Item>
    var deps: set<(WorkId, WorkId)>
    var lease: Option<RunnerLease>
    var clock: int
    var issued: set<string>
    var adopted: set<string>

    function Abs(): State
      reads this
    {
      State(items, deps, lease, clock, issued, adopted)
    }

    /** What every operation keeps. */
    ghost predicate Good()
      reads this
    {
      Inv(Abs())
    }

    constructor (clock: int)
      ensures Abs() == EmptyQueue(clock) && Good()
    {
      items, deps, lease, this.clock, issued, adopted := map[], {}, None, clock, {}, {};
    }

    method NextSequence() returns (n: nat)
      ensures n == NextFifo(items)
    {
      n := 1;
      var rest := items.Keys;
      while rest != {}
        invariant rest <= items.Keys
        invariant forall id <- items :: id in rest || items[id].fifo < n
        invariant n == 1 || exists id <- items :: items[id].fifo + 1 == n
      {
        var id :| id in rest;
        if items[id].fifo >= n {
          n := items[id].fifo + 1;
        }
        rest := rest - {id};
      }
    }

    method InsertIfAbsent(id: WorkId, maintenance: bool)
      modifies this`items
      ensures items == Inserted(old(items), id, maintenance)
    {
      if id !in items {
        var fifo := NextSequence();
        items := items[id := Item(Pending, "", fifo, maintenance, 0, 0, false)];
      }
    }

    /** Removes a stale lease and inserts a launching one unless a lease is there. */
    method LaunchRunner(launch: Launch, token: string)
      modifies this`lease, this`issued
      ensures Abs() == LaunchOnEnqueue(old(Abs()), launch, token)
    {
      if launch.executable != "" {
        if lease.Some? && lease.value.heartbeatAt < clock - RUNNER_TIMEOUT {
          lease := None;
        }
        if lease.None? {
          lease := Some(RunnerLease(Launching, token, "", launch.executable, launch.config, launch.capabilities,
            clock));
          issued := issued + {token};
        }
      }
    }

    method EnqueueWork(launch: Launch, id: WorkId, maintenance: bool, dependencies: seq<WorkId>, token: string)
      returns (inserted: bool)
      modifies this
      ensures Abs() == EnqueueStep(old(Abs()), launch, id, maintenance, dependencies, token)
      ensures old(Good()) && token !in old(issued) ==> Good()
      ensures inserted ==> id !in old(items)
    {
      hide Inv, ClaimLaunchStep, AdoptStep, ClaimNextStep, CompleteStep, FailStep, ReleaseStep, CancelStep, NextFifo;
      KeepsInv(Abs(), Action.Enqueue(launch, id, maintenance, dependencies, token));
      var before := items;
      inserted := id !in items;
      InsertIfAbsent(id, maintenance);
      if !inserted && (items[id].state.Failed? || items[id].state.Cancelled?) {
        items := items[id := items[id].(state := Pending, attempts := 0, nextAttempt := 0, cancelled := false)];
      }
      if exists d <- dependencies :: d !in items {
        items := before;
        return;
      }
      deps := deps + (set d | d in dependencies :: (id, d));
      if Usable(id.Credential(), launch.capabilities) {
        LaunchRunner(launch, token);
      }
    }

    method ScheduleTask(launch: Launch, task: string, token: string)
      modifies this
      ensures Abs() == ScheduleStep(old(Abs()), launch, task, token)
      ensures old(Good()) && token !in old(issued) ==> Good()
    {
      hide Inv;
      KeepsInv(Abs(), Action.Schedule(launch, task, token));
      InsertIfAbsent(Extraction(task), false);
      LaunchRunner(launch, token);
    }

    method ClaimRunnerLaunch(launch: Launch, token: string) returns (claimed: bool)
      modifies this
      ensures Abs() == ClaimLaunchStep(old(Abs()), launch, token)
      ensures old(Good()) && token !in old(issued) ==> Good()
      ensures claimed ==> lease.Some? && lease.value.state.Launching? && lease.value.token == token
      ensures !claimed ==> issued == old(issued)
    {
      hide Inv, Claimable, Usable;
      KeepsInv(Abs(), Action.ClaimLaunch(launch, token));
      if lease.None? || lease.value.heartbeatAt < clock - RUNNER_TIMEOUT {
        items := map id <- items ::
          if items[id].state.Running? then items[id].(state := Pending, owner := "") else items[id];
        lease := None;
      }
      if lease.Some? {
        return false;
      }
      if exists id <- items :: Claimable(Abs(), id) && Usable(id.Credential(), launch.capabilities) {
        lease := Some(RunnerLease(Launching, token, "", launch.executable, launch.config, launch.capabilities, clock));
        issued := issued + {token};
        return true;
      }
      items := map id <- items ::
        if Queued(items[id]) && id.Credential() != "" then items[id].(state := WaitingForCredential) else items[id];
      return false;
    }

    method AdoptRunner(token: string, owner: string, launch: Launch) returns (ok: bool)
      modifies this
      ensures Abs() == AdoptStep(old(Abs()), token, owner, launch) && ok == Adoptable(old(Abs()), token, launch)
      ensures old(Good()) ==> Good()
    {
      hide Inv;
      KeepsInv(Abs(), Action.Adopt(token, owner, launch));
      ok := Adoptable(Abs(), token, launch);
      if ok {
        lease := Some(lease.value.(state := Active, token := "", owner := owner,
                                   capabilities := launch.capabilities, heartbeatAt := clock));
        adopted := adopted + {token};
      }
    }

    method HeartbeatRunner(owner: string) returns (alive: bool)
      modifies this`lease
      ensures Abs() == HeartbeatStep(old(Abs()), owner) && alive == ActiveFor(old(Abs()), owner)
      ensures old(Good()) ==> Good()
    {
      hide Inv;
      KeepsInv(Abs(), Action.HeartbeatRunner(owner));
      alive := ActiveFor(Abs(), owner);
      if alive {
        lease := Some(lease.value.(heartbeatAt := clock));
      }
    }

    /** The first of some rows in (maintenance, fifo) order. */
    method FirstOf(rows: set<WorkId>) returns (first: WorkId)
      requires rows != {} && rows <= items.Keys && FifoUnique(Abs())
      ensures first in rows && forall id <- rows :: id != first ==> Before(items[first], items[id])
    {
      first :| first in rows;
      var rest := rows - {first};
      while rest != {}
        invariant rest <= rows && first in rows
        invariant forall id <- rows :: id == first || id in rest || Before(items[first], items[id])
      {
        var id :| id in rest;
        if Before(items[id], items[first]) {
          first := id;
        }
        rest := rest - {id};
      }
    }

    /** Walks the claimable rows in order up to the first one with a usable credential. */
    method SelectNext(capabilities: set<string>) returns (next: Option<WorkId>, passed: set<WorkId>)
      requires FifoUnique(Abs())
      ensures next == Next(Abs(), capabilities)
      ensures passed == set id | id in items && PassedOver(Abs(), capabilities, next, id)
    {
      next, passed := None, {};
      var rest := set id | id in items && Claimable(Abs(), id);
      while rest != {}
        invariant next.None? && passed !! rest
        invariant passed + rest == set id | id in items && Claimable(Abs(), id)
        invariant forall id <- passed :: !Usable(id.Credential(), capabilities)
        invariant forall a <- passed, b <- rest :: Before(items[a], items[b])
      {
        var id := FirstOf(rest);
        if Usable(id.Credential(), capabilities) {
          next := Some(id);
          assert IsNext(Abs(), capabilities, id);
          NextIsUnique(Abs(), capabilities, id);
          return;
        }
        passed, rest := passed + {id}, rest - {id};
      }
      assert forall id :: Claimable(Abs(), id) ==> id in passed;
    }

    /** Passed-over items wait for their credential from here on. */
    method SelectAndPark(capabilities: set<string>) returns (next: Option<WorkId>)
      requires FifoUnique(Abs())
      modifies this`items
      ensures next == Next(old(Abs()), capabilities) && Abs() == WithParked(old(Abs()), capabilities, next)
      ensures next.Some? ==> next.value in items
    {
      var passed;
      next, passed := SelectNext(capabilities);
      items := map id <- items :: if id in passed then items[id].(state := WaitingForCredential) else items[id];
    }

    /** A claim that breaks the unique index throws, after the transaction is undone. */
    method ClaimNextWork(owner: string, capabilities: set<string>) returns (claim: Claim)
      requires FifoUnique(Abs())
      modifies this`items
      ensures Abs() == ClaimNextStep(old(Abs()), owner, capabilities)
      ensures old(Good()) ==> Good()
      ensures claim.Aborted? <==> Aborts(old(Abs()), owner, capabilities)
      ensures claim.Aborted? ==> Abs() == old(Abs())
      ensures claim.Claimed? <==>
        ActiveFor(old(Abs()), owner) && !SomeRunning(old(Abs())) && SomeClaimable(old(Abs()), capabilities)
      ensures claim.Claimed? ==> RunningFor(Abs(), claim.id, owner) && ActiveFor(Abs(), owner)
    {
      hide Inv, Doomed, PassedOver, Claimable, IsNext, Next;
      KeepsInv(Abs(), Action.ClaimNext(owner, capabilities));
      ClaimOutcome(Abs(), owner, capabilities);
      var before := items;
      items := DependentsFailed(Abs()).items;
      assert Abs() == DependentsFailed(old(Abs()));
      if !ActiveFor(Abs(), owner) {
        return Nothing;
      }
      var next := SelectAndPark(capabilities);
      if next.None? {
        return Nothing;
      }
      if exists id <- items :: items[id].state.Running? {
        assert SomeRunning(Abs());
        items := before;
        return Aborted;
      }
      items := items[next.value := items[next.value].(state := Running, owner := owner)];
      return Claimed(next.value);
    }

    method CompleteWork(id: WorkId, owner: string)
      modifies this`items
      ensures Abs() == CompleteStep(old(Abs()), id, owner)
      ensures old(Good()) ==> Good()
    {
      hide Inv;
      KeepsInv(Abs(), Action.Complete(id, owner));
      if id in items && items[id].state.Running? && items[id].owner == owner {
        items := items[id := items[id].(state := if items[id].cancelled then Cancelled else Completed, owner := "")];
      }
    }

    method FailWork(id: WorkId, owner: string, maximumAttempts: nat)
      modifies this`items
      ensures Abs() == FailStep(old(Abs()), id, owner, maximumAttempts)
      ensures old(Good()) ==> Good()
    {
      hide Inv;
      KeepsInv(Abs(), Action.Fail(id, owner, maximumAttempts));
      if id in items && items[id].state.Running? && items[id].owner == owner {
        var i := items[id];
        var delay := Min(300, Pow2(Min(i.attempts, 8)));
        var state := if i.cancelled then Cancelled else if i.attempts + 1 >= maximumAttempts then Failed else RetryWait;
        items := items[id := i.(attempts := i.attempts + 1, owner := "", state := state, nextAttempt := clock + delay)];
      }
    }

    method ReleaseRunnerIfEmpty(owner: string) returns (released: bool)
      modifies this`lease
      ensures Abs() == ReleaseStep(old(Abs()), owner) && released == Releases(old(Abs()), owner)
      ensures old(Good()) ==> Good()
    {
      hide Inv;
      KeepsInv(Abs(), Action.Release(owner));
      if exists id <- items :: Runnable(Abs(), id, clock) {
        return false;
      }
      released := ActiveFor(Abs(), owner);
      if released {
        lease := None;
      }
    }

    method CancelWork(id: WorkId) returns (changed: bool)
      modifies this`items
      ensures Abs() == CancelStep(old(Abs()), id)
      ensures old(Good()) ==> Good()
      ensures changed == (id in old(items) && !Finished(old(items)[id]))
    {
      hide Inv;
      KeepsInv(Abs(), Action.Cancel(id));
      changed := id in items && !Finished(items[id]);
      if changed {
        var state := if items[id].state.Running? then Running else Cancelled;
        items := items[id := items[id].(cancelled := true, state := state)];
      }
    }
  }

  // ---------------------------------------------------------------- the runner

  lemma {:induction false} OneMore(s: State, actions: seq<Action>, a: Action, capabilities: set<string>)
    ensures Run(s, actions + [a]) == Step(Run(s, actions), a)
    ensures OrderlyRun(s, capabilities, actions) && Orderly(Run(s, actions), capabilities, a) ==>
      OrderlyRun(s, capabilities, actions + [a])
    decreases |actions|
  {
    hide Step, Orderly;
    if actions == [] {
      assert [] + [a] == [a] && [a][1..] == [];
      assert Run(Step(s, a), []) == Step(s, a);
    } else {
      assert (actions + [a])[1..] == actions[1..] + [a];
      OneMore(Step(s, actions[0]), actions[1..], a, capabilities);
    }
  }

  /** How the loop of a runner ends: not yet, by releasing the lease, or by the exception of a claim. */
  datatype Exit = StillAtWork | Left | Thrown

  /** The loop of run_runner over the outcomes of its items.  It settles only what it was given under its lease,
      which is orderly whatever the clients' credentials.  It leaves when nothing is left to run, or with its lease
      when a claim throws. */
  method RunRunner(queue: Catalog, owner: string, capabilities: set<string>, outcomes: seq<bool>, maximumAttempts: nat,
                   ghost clients: set<string>)
    returns (exit: Exit, ghost actions: seq<Action>)
    requires queue.Good()
    modifies queue
    ensures queue.Good() && queue.Abs() == Run(old(queue.Abs()), actions)
    ensures OrderlyRun(old(queue.Abs()), clients, actions)
    ensures exit.Left? ==> queue.lease.None? && forall id :: !Runnable(queue.Abs(), id, queue.clock)
    ensures exit.Thrown? ==> Aborts(queue.Abs(), owner, capabilities)
    ensures Aborts(old(queue.Abs()), owner, capabilities) && outcomes != [] ==>
      exit.Thrown? && queue.Abs() == old(queue.Abs())
  {
    hide Step, Inv, Runnable, Aborts, SomeRunning, SomeClaimable;
    ghost var s := queue.Abs();
    actions, exit := [], StillAtWork;
    for n := 0 to |outcomes|
      invariant queue.Good() && queue.Abs() == Run(s, actions) && OrderlyRun(s, clients, actions)
      invariant n == 0 ==> queue.Abs() == s
      invariant n > 0 ==> !Aborts(s, owner, capabilities)
    {
      InvIsFifo(queue.Abs());
      var claim := queue.ClaimNextWork(owner, capabilities);
      StepIs(Run(s, actions));
      OneMore(s, actions, ClaimNext(owner, capabilities), clients);
      actions := actions + [ClaimNext(owner, capabilities)];
      StepIs(queue.Abs());
      match claim {
        case Aborted =>
          exit := Thrown;
          return;
        case Nothing =>
          ghost var before := queue.Abs();
          var left := queue.ReleaseRunnerIfEmpty(owner);
          OneMore(s, actions, Release(owner), clients);
          actions := actions + [Release(owner)];
          if left {
            exit := Left;
            ReleasedIsEmpty(before, owner);
            return;
          }
        case Claimed(id) =>
          if outcomes[n] {
            queue.CompleteWork(id, owner);
            OneMore(s, actions, Complete(id, owner), clients);
            actions := actions + [Complete(id, owner)];
          } else {
            queue.FailWork(id, owner, maximumAttempts);
            OneMore(s, actions, Fail(id, owner, maximumAttempts), clients);
            actions := actions + [Fail(id, owner, maximumAttempts)];
          }
      }
    }
  }

  lemma InvIsFifo(s: State)
    requires Inv(s)
    ensures FifoUnique(s)
  {
  }

  lemma StepIs(s: State)
    ensures forall owner, capabilities ::
      Step(s, ClaimNext(owner, capabilities)) == ClaimNextStep(s, owner, capabilities)
    ensures forall owner :: Step(s, Release(owner)) == ReleaseStep(s, owner)
    ensures forall id, owner :: Step(s, Complete(id, owner)) == CompleteStep(s, id, owner)
    ensures forall id, owner, n :: Step(s, Fail(id, owner, n)) == FailStep(s, id, owner, n)
  {
  }

  lemma ReleasedIsEmpty(s: State, owner: string)
    requires Releases(s, owner)
    ensures ReleaseStep(s, owner).lease.None?
    ensures forall id :: !Runnable(ReleaseStep(s, owner), id, s.clock)
  {
    forall id ensures Runnable(ReleaseStep(s, owner), id, s.clock) ==> Runnable(s, id, s.clock) {
      if Runnable(ReleaseStep(s, owner), id, s.clock) {
        NotUnblocked(s, ReleaseStep(s, owner), id);
      }
    }
  }
}
