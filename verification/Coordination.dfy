/** The distributed task lease kept in claim refs of a shared Git repository.

    Every coordinator process works on its own catalog's view of a claim, which may be
    arbitrarily old, and moves the claim only by compare-and-swap.  The network calls of
    one operation are separate steps, so other processes run between them, and a process
    may stop after any step, with or without the server having accepted its push. */
module Coordination {
  import opened Options

  type Client = nat
  type Oid = nat

  /** Options of one coordinator process; `producer` is the identity of its catalog. */
  datatype Settings = Settings(producer: string, leaseSeconds: int, graceSeconds: int)
  type Config = Client -> Settings

  datatype LeaseState = Processing | Completed

  datatype Lease = Lease(producer: string, state: LeaseState, acquiredAt: int, expiresAt: int,
                         heartbeats: nat, resultId: Option<string>)

  /** A lease commit.  `author` names the process that wrote it. */
  datatype ClaimCommit = ClaimCommit(task: string, lease: Lease, parent: Option<Oid>, author: Client)

  /** A row of observed_claims. */
  datatype View = View(oid: Oid, lease: Lease)

  /** What a process is in the middle of, while it holds its coordinator mutex. */
  datatype Activity =
    | Idle
    | Uploading(task: string, view: View, fact: string)
    | Publishing(task: string, expected: Option<Oid>, lease: Lease)
    | Recording(task: string, view: View)
    | Pruning(task: string, oid: Oid)
    | Discarding(task: string)

  datatype State = State(
    commits: map<Oid, ClaimCommit>,
    claims: map<string, Oid>,
    results: map<string, string>,
    observed: map<(string, string), View>,
    activity: map<Client, Activity>,
    clock: int)
  {
    function Doing(c: Client): Activity {
      if c in activity then activity[c] else Idle
    }

    function Seen(producer: string, task: string): Option<View> {
      if (producer, task) in observed then Some(observed[(producer, task)]) else None
    }

    function Now(c: Client, next: Activity): State {
      this.(activity := activity[c := next])
    }

    function Tip(task: string): Option<Oid> {
      if task in claims then Some(claims[task]) else None
    }
  }

  const COMPLETED_LEASE_SECONDS := 3600

  function InitialState(clock: int): State {
    State(map[], map[], map[], map[], map[], clock)
  }

  // ---------------------------------------------------------------- leases

  function AcquiredLease(o: Settings, now: int): Lease {
    Lease(o.producer, Processing, now, now + o.leaseSeconds, 0, None)
  }

  function RenewedLease(o: Settings, held: Lease, now: int): Lease {
    held.(state := Processing, expiresAt := now + o.leaseSeconds, heartbeats := held.heartbeats + 1)
  }

  function CompletedLease(held: Lease, fact: string, now: int): Lease {
    held.(state := Completed, resultId := Some(fact), expiresAt := now + COMPLETED_LEASE_SECONDS)
  }

  // ---------------------------------------------------------------- steps

  datatype Action =
    | Tick(seconds: nat)
    | Observe(client: Client, oid: Oid)
    | Forget(client: Client, task: string)
    | Acquire(client: Client, task: string)
    | Heartbeat(client: Client, task: string)
    | Complete(client: Client, task: string, fact: string)
    | UploadResult(client: Client)
    | PushClaim(client: Client, oid: Oid)
    | Record(client: Client)
    | Prune(client: Client, task: string)
    | DeleteClaim(client: Client)
    | DeleteResult(client: Client, removed: bool)
    | Stop(client: Client)

  /** A catalog records a claim commit that was fetched at this or any earlier moment. */
  function ObserveStep(cfg: Config, s: State, c: Client, oid: Oid): State {
    if oid !in s.commits then s
    else
      var commit := s.commits[oid];
      s.(observed := s.observed[(cfg(c).producer, commit.task) := View(oid, commit.lease)])
  }

  function ForgetStep(cfg: Config, s: State, c: Client, task: string): State {
    s.(observed := s.observed - {(cfg(c).producer, task)})
  }

  /** Up to the push.  The caller gets the existing claim back when it is completed or unexpired. */
  function AcquireStep(cfg: Config, s: State, c: Client, task: string): State {
    if !s.Doing(c).Idle? then s
    else match s.Seen(cfg(c).producer, task)
      case None => s.Now(c, Publishing(task, None, AcquiredLease(cfg(c), s.clock)))
      case Some(view) =>
        if view.lease.state.Completed? || s.clock <= view.lease.expiresAt + cfg(c).graceSeconds then s
        else s.Now(c, Publishing(task, Some(view.oid), AcquiredLease(cfg(c), s.clock)))
  }

  /** The answer processing_local: the own claim is unexpired, so the task is worked on without a new lease. */
  predicate IsOwn(cfg: Config, s: State, c: Client, task: string) {
    s.Doing(c).Idle? &&
    match s.Seen(cfg(c).producer, task)
    case None => false
    case Some(view) =>
      && view.lease.state.Processing? && s.clock <= view.lease.expiresAt + cfg(c).graceSeconds
      && view.lease.producer == cfg(c).producer
  }

  function HeartbeatStep(cfg: Config, s: State, c: Client, task: string): State {
    match s.Seen(cfg(c).producer, task)
    case None => s
    case Some(view) =>
      if !s.Doing(c).Idle? || view.lease.producer != cfg(c).producer then s
      else s.Now(c, Publishing(task, Some(view.oid), RenewedLease(cfg(c), view.lease, s.clock)))
  }

  function CompleteStep(cfg: Config, s: State, c: Client, task: string, fact: string): State {
    match s.Seen(cfg(c).producer, task)
    case None => s
    case Some(view) =>
      if !s.Doing(c).Idle? || view.lease.producer != cfg(c).producer then s
      else s.Now(c, Uploading(task, view, fact))
  }

  /** A results ref is pushed without force from a commit without parents: it can only be created. */
  function UploadResultStep(s: State, c: Client): State {
    match s.Doing(c)
    case Uploading(task, view, fact) =>
      if task in s.results then s.Now(c, Idle)
      else s.(results := s.results[task := fact])
            .Now(c, Publishing(task, Some(view.oid), CompletedLease(view.lease, fact, s.clock)))
    case _ => s
  }

  /** The compare-and-swap: against the observed oid, or create-only when none was observed. */
  function PushClaimStep(s: State, c: Client, oid: Oid): State {
    match s.Doing(c)
    case Publishing(task, expected, lease) =>
      if oid in s.commits then s
      else if s.Tip(task) != expected then s.Now(c, Idle)
      else s.(commits := s.commits[oid := ClaimCommit(task, lease, expected, c)],
              claims := s.claims[task := oid]).Now(c, Recording(task, View(oid, lease)))
    case _ => s
  }

  function RecordStep(cfg: Config, s: State, c: Client): State {
    match s.Doing(c)
    case Recording(task, view) =>
      s.(observed := s.observed[(cfg(c).producer, task) := view]).Now(c, Idle)
    case _ => s
  }

  function PruneStep(cfg: Config, s: State, c: Client, task: string): State {
    match s.Seen(cfg(c).producer, task)
    case None => s
    case Some(view) =>
      if !s.Doing(c).Idle? || !view.lease.state.Completed? || view.lease.expiresAt > s.clock then s
      else s.Now(c, Pruning(task, view.oid))
  }

  function DeleteClaimStep(s: State, c: Client): State {
    match s.Doing(c)
    case Pruning(task, oid) =>
      if s.Tip(task) != Some(oid) then s.Now(c, Idle)
      else s.(claims := s.claims - {task}).Now(c, Discarding(task))
    case _ => s
  }

  /** The result deletion is unconditional and its failure is ignored. */
  function DeleteResultStep(cfg: Config, s: State, c: Client, removed: bool): State {
    match s.Doing(c)
    case Discarding(task) =>
      ForgetStep(cfg, s.(results := if removed then s.results - {task} else s.results), c, task).Now(c, Idle)
    case _ => s
  }

  function Step(cfg: Config, s: State, a: Action): State {
    match a
    case Tick(seconds) => s.(clock := s.clock + seconds)
    case Observe(c, oid) => ObserveStep(cfg, s, c, oid)
    case Forget(c, task) => ForgetStep(cfg, s, c, task)
    case Acquire(c, task) => AcquireStep(cfg, s, c, task)
    case Heartbeat(c, task) => HeartbeatStep(cfg, s, c, task)
    case Complete(c, task, fact) => CompleteStep(cfg, s, c, task, fact)
    case UploadResult(c) => UploadResultStep(s, c)
    case PushClaim(c, oid) => PushClaimStep(s, c, oid)
    case Record(c) => RecordStep(cfg, s, c)
    case Prune(c, task) => PruneStep(cfg, s, c, task)
    case DeleteClaim(c) => DeleteClaimStep(s, c)
    case DeleteResult(c, removed) => DeleteResultStep(cfg, s, c, removed)
    case Stop(c) => s.Now(c, Idle)
  }

  /** Steps that touch no remote ref. */
  predicate Local(a: Action) {
    a.Tick? || a.Observe? || a.Forget? || a.Record? || a.Stop?
  }

  /** Steps that only start an operation. */
  predicate Begins(a: Action) {
    a.Acquire? || a.Heartbeat? || a.Complete? || a.Prune?
  }

  function Run(cfg: Config, s: State, actions: seq<Action>): State
    decreases |actions|
  {
    if actions == [] then s else Run(cfg, Step(cfg, s, actions[0]), actions[1..])
  }

  // ---------------------------------------------------------------- the invariant

  ghost predicate GoodConfig(cfg: Config) {
    forall c :: cfg(c).graceSeconds >= 0
  }

  /** The child renews or completes the lease of its parent. */
  predicate Continues(parent: Lease, child: Lease) {
    child.producer == parent.producer && child.acquiredAt == parent.acquiredAt
  }

  /** The child is a new lease on a task whose last lease had run out. */
  predicate TakesOver(cfg: Config, author: Client, parent: Lease, child: Lease) {
    && parent.state.Processing? && child.state.Processing?
    && child.producer == cfg(author).producer
    && child.acquiredAt > parent.expiresAt + cfg(author).graceSeconds
  }

  /** The clock value a lease was written with. */
  function IssuedAt(cfg: Config, author: Client, l: Lease): int {
    l.expiresAt - (if l.state.Processing? then cfg(author).leaseSeconds else COMPLETED_LEASE_SECONDS)
  }

  /** A commit, written or about to be pushed, is a legal successor of its parent. */
  ghost predicate LegalCommit(cfg: Config, s: State, c: ClaimCommit) {
    && c.lease.producer == cfg(c.author).producer
    && c.lease.acquiredAt <= IssuedAt(cfg, c.author, c.lease) <= s.clock
    && (c.lease.state.Completed? ==> c.lease.resultId.Some?)
    && match c.parent
       case None => c.lease.state.Processing?
       case Some(p) =>
         && p in s.commits && s.commits[p].task == c.task
         && IssuedAt(cfg, s.commits[p].author, s.commits[p].lease) <= IssuedAt(cfg, c.author, c.lease)
         && (Continues(s.commits[p].lease, c.lease) || TakesOver(cfg, c.author, s.commits[p].lease, c.lease))
  }

  ghost predicate CommitOk(cfg: Config, s: State, o: Oid) {
    o in s.commits ==> LegalCommit(cfg, s, s.commits[o])
  }

  ghost predicate GoodView(s: State, task: string, v: View) {
    v.oid in s.commits && s.commits[v.oid].task == task && s.commits[v.oid].lease == v.lease
  }

  ghost predicate GoodActivity(cfg: Config, s: State, c: Client, activity: Activity) {
    match activity
    case Idle => true
    case Uploading(task, view, _) => GoodView(s, task, view) && view.lease.producer == cfg(c).producer
    case Publishing(task, expected, lease) => LegalCommit(cfg, s, ClaimCommit(task, lease, expected, c))
    case Recording(task, view) => GoodView(s, task, view)
    case Pruning(task, oid) =>
      && oid in s.commits && s.commits[oid].task == task
      && s.commits[oid].lease.state.Completed? && s.commits[oid].lease.expiresAt <= s.clock
    case Discarding(task) => true
  }

  /** Everything the claim history and the local views promise. */
  ghost predicate Chained(cfg: Config, s: State) {
    && (forall o :: CommitOk(cfg, s, o))
    && (forall t <- s.claims :: s.claims[t] in s.commits && s.commits[s.claims[t]].task == t)
    && (forall k <- s.observed :: GoodView(s, k.1, s.observed[k]))
    && (forall c <- s.activity :: GoodActivity(cfg, s, c, s.activity[c]))
  }

  ghost predicate ChildOf(s: State, o: Oid, parent: Oid) {
    o in s.commits && s.commits[o].parent == Some(parent)
  }

  /** The tip of a claim ref has no child, and no commit has two. */
  ghost predicate Linear(s: State) {
    && (forall t <- s.claims, o :: !ChildOf(s, o, s.claims[t]))
    && (forall o, o', p :: ChildOf(s, o, p) && ChildOf(s, o', p) ==> o == o')
  }

  /** The process has uploaded the result of `task` and is about to publish its completion. */
  predicate Finishing(s: State, c: Client, task: string) {
    s.Doing(c).Publishing? && s.Doing(c).task == task && s.Doing(c).lease.state.Completed?
  }

  predicate DiscardingTask(s: State, c: Client, task: string) {
    s.Doing(c) == Discarding(task)
  }

  predicate CompletedClaim(s: State, task: string) {
    task in s.claims && s.claims[task] in s.commits && s.commits[s.claims[task]].lease.state.Completed?
  }

  /** A completed claim has its result; what makes that inductive is who may still touch the result. */
  ghost predicate Backed(s: State) {
    && (forall t <- s.claims :: CompletedClaim(s, t) ==>
          t in s.results && s.commits[s.claims[t]].lease.resultId == Some(s.results[t]))
    && (forall c, t :: Finishing(s, c, t) ==>
          t in s.results && s.Doing(c).lease.resultId == Some(s.results[t]) && !CompletedClaim(s, t))
    && (forall c, c', t :: Finishing(s, c, t) && Finishing(s, c', t) ==> c == c')
    && (forall c, t :: DiscardingTask(s, c, t) ==> t in s.results && !CompletedClaim(s, t))
    && (forall c, c', t :: DiscardingTask(s, c, t) ==> !Finishing(s, c', t))
    && (forall c, c', t :: DiscardingTask(s, c, t) && DiscardingTask(s, c', t) ==> c == c')
  }

  ghost predicate Inv(cfg: Config, s: State) {
    Chained(cfg, s) && Linear(s) && Backed(s)
  }

  /** The only two steps that move a claim ref. */
  lemma StepClaims(cfg: Config, s: State, a: Action)
    ensures var s' := Step(cfg, s, a);
      || (s'.claims == s.claims && s'.commits == s.commits)
      || (a.PushClaim? && s.Doing(a.client).Publishing? && a.oid !in s.commits
          && s.Tip(s.Doing(a.client).task) == s.Doing(a.client).expected)
      || (a.DeleteClaim? && s.Doing(a.client).Pruning?
          && s.Tip(s.Doing(a.client).task) == Some(s.Doing(a.client).oid))
  {}

  lemma DoingIsGood(cfg: Config, s: State, c: Client)
    requires Chained(cfg, s)
    ensures GoodActivity(cfg, s, c, s.Doing(c))
  {
    if c in s.activity {
      assert GoodActivity(cfg, s, c, s.activity[c]);
    }
  }

  /** Growing the commit store and the clock keeps everything that was legal. */
  lemma Grows(cfg: Config, s: State, s': State)
    requires s.clock <= s'.clock
    requires forall o <- s.commits :: o in s'.commits && s'.commits[o] == s.commits[o]
    ensures forall c: ClaimCommit :: LegalCommit(cfg, s, c) ==> LegalCommit(cfg, s', c)
    ensures forall t, v :: GoodView(s, t, v) ==> GoodView(s', t, v)
    ensures forall c, a :: GoodActivity(cfg, s, c, a) ==> GoodActivity(cfg, s', c, a)
  {
    forall c: ClaimCommit | LegalCommit(cfg, s, c)
      ensures LegalCommit(cfg, s', c)
    {
    }
  }

  /** What a step has to show for the invariant of the history and the views to carry over. */
  lemma Carry(cfg: Config, s: State, s': State, c: Client)
    requires Chained(cfg, s) && s.clock <= s'.clock
    requires forall o <- s.commits :: o in s'.commits && s'.commits[o] == s.commits[o]
    requires forall o :: o in s.commits || CommitOk(cfg, s', o)
    requires forall t <- s'.claims :: (t in s.claims && s'.claims[t] == s.claims[t])
                                      || (s'.claims[t] in s'.commits && s'.commits[s'.claims[t]].task == t)
    requires forall k <- s'.observed :: (k in s.observed && s'.observed[k] == s.observed[k])
                                        || GoodView(s', k.1, s'.observed[k])
    requires forall d <- s'.activity :: d == c || (d in s.activity && s'.activity[d] == s.activity[d])
    requires GoodActivity(cfg, s', c, s'.Doing(c))
    ensures Chained(cfg, s')
  {
    Grows(cfg, s, s');
    forall o ensures CommitOk(cfg, s', o) {
      assert CommitOk(cfg, s, o);
    }
  }

  /** A step that only changes what `c` is doing, and perhaps the results. */
  lemma Becomes(cfg: Config, s: State, s': State, c: Client, next: Activity)
    requires Chained(cfg, s) && GoodActivity(cfg, s, c, next)
    requires s' == s.(results := s'.results).Now(c, next)
    ensures Chained(cfg, s')
  {
    Grows(cfg, s, s');
    Carry(cfg, s, s', c);
  }

  lemma AcceptedChained(cfg: Config, s: State, c: Client, oid: Oid)
    requires Chained(cfg, s) && s.Doing(c).Publishing? && oid !in s.commits
    requires s.Tip(s.Doing(c).task) == s.Doing(c).expected
    ensures Chained(cfg, PushClaimStep(s, c, oid))
  {
    var s' := PushClaimStep(s, c, oid);
    var a := s.Doing(c);
    var commit := ClaimCommit(a.task, a.lease, a.expected, c);
    assert c in s.activity && s.activity[c] == a;
    assert s'.commits == s.commits[oid := commit];
    Grows(cfg, s, s');
    assert CommitOk(cfg, s', oid);
    assert GoodActivity(cfg, s', c, s'.Doing(c));
    Carry(cfg, s, s', c);
  }

  lemma PushChained(cfg: Config, s: State, c: Client, oid: Oid)
    requires Chained(cfg, s)
    ensures Chained(cfg, PushClaimStep(s, c, oid))
  {
    if s.Doing(c).Publishing? && oid !in s.commits {
      if s.Tip(s.Doing(c).task) == s.Doing(c).expected {
        AcceptedChained(cfg, s, c, oid);
      } else {
        Becomes(cfg, s, PushClaimStep(s, c, oid), c, Idle);
      }
    }
  }

  lemma AcquireChained(cfg: Config, s: State, c: Client, task: string)
    requires GoodConfig(cfg) && Chained(cfg, s)
    ensures Chained(cfg, AcquireStep(cfg, s, c, task))
  {
    var s' := AcquireStep(cfg, s, c, task);
    if s' != s {
      var seen := s.Seen(cfg(c).producer, task);
      if seen.Some? {
        assert CommitOk(cfg, s, seen.value.oid);
      }
      Becomes(cfg, s, s', c, s'.Doing(c));
    }
  }

  lemma BeginChained(cfg: Config, s: State, a: Action)
    requires Chained(cfg, s)
    requires Begins(a) && !a.Acquire?
    ensures Chained(cfg, Step(cfg, s, a))
  {
    var s' := Step(cfg, s, a);
    if s' != s {
      var seen := s.Seen(cfg(a.client).producer, a.task);
      assert CommitOk(cfg, s, seen.value.oid);
      Becomes(cfg, s, s', a.client, s'.Doing(a.client));
    }
  }

  lemma UploadChained(cfg: Config, s: State, c: Client)
    requires Chained(cfg, s)
    ensures Chained(cfg, UploadResultStep(s, c))
  {
    var s' := UploadResultStep(s, c);
    if s' != s {
      assert CommitOk(cfg, s, s.Doing(c).view.oid);
      Becomes(cfg, s, s', c, s'.Doing(c));
    }
  }

  lemma RecordChained(cfg: Config, s: State, c: Client)
    requires Chained(cfg, s)
    ensures Chained(cfg, RecordStep(cfg, s, c))
  {
    if s.Doing(c).Recording? {
      assert c in s.activity && GoodActivity(cfg, s, c, s.activity[c]);
      Carry(cfg, s, RecordStep(cfg, s, c), c);
    }
  }

  lemma ObserveChained(cfg: Config, s: State, c: Client, oid: Oid)
    requires Chained(cfg, s)
    ensures Chained(cfg, ObserveStep(cfg, s, c, oid))
  {
    DoingIsGood(cfg, s, c);
    Carry(cfg, s, ObserveStep(cfg, s, c, oid), c);
  }

  lemma ForgetChained(cfg: Config, s: State, c: Client, task: string)
    requires Chained(cfg, s)
    ensures Chained(cfg, ForgetStep(cfg, s, c, task))
  {
    DoingIsGood(cfg, s, c);
    Carry(cfg, s, ForgetStep(cfg, s, c, task), c);
  }

  lemma TickChained(cfg: Config, s: State, seconds: nat)
    requires Chained(cfg, s)
    ensures Chained(cfg, s.(clock := s.clock + seconds))
  {
    var s' := s.(clock := s.clock + seconds);
    Grows(cfg, s, s');
    DoingIsGood(cfg, s, 0);
    Carry(cfg, s, s', 0);
  }

  lemma DeleteClaimChained(cfg: Config, s: State, c: Client)
    requires Chained(cfg, s)
    ensures Chained(cfg, DeleteClaimStep(s, c))
  {
    DoingIsGood(cfg, s, c);
    Carry(cfg, s, DeleteClaimStep(s, c), c);
  }

  lemma DeleteResultChained(cfg: Config, s: State, c: Client, removed: bool)
    requires Chained(cfg, s)
    ensures Chained(cfg, DeleteResultStep(cfg, s, c, removed))
  {
    DoingIsGood(cfg, s, c);
    Carry(cfg, s, DeleteResultStep(cfg, s, c, removed), c);
  }

  lemma StepChained(cfg: Config, s: State, a: Action)
    requires GoodConfig(cfg) && Chained(cfg, s)
    ensures Chained(cfg, Step(cfg, s, a))
  {
    if Begins(a) && !a.Acquire? {
      BeginChained(cfg, s, a);
    } else {
      hide Chained, AcquireStep, HeartbeatStep, CompleteStep, UploadResultStep, PushClaimStep, RecordStep, PruneStep,
         DeleteClaimStep, DeleteResultStep, ObserveStep, ForgetStep;
      match a
      case Tick(seconds) => TickChained(cfg, s, seconds);
      case Observe(c, oid) => ObserveChained(cfg, s, c, oid);
      case Forget(c, task) => ForgetChained(cfg, s, c, task);
      case Acquire(c, task) => AcquireChained(cfg, s, c, task);
      case UploadResult(c) => UploadChained(cfg, s, c);
      case PushClaim(c, oid) => PushChained(cfg, s, c, oid);
      case Record(c) => RecordChained(cfg, s, c);
      case DeleteClaim(c) => DeleteClaimChained(cfg, s, c);
      case DeleteResult(c, removed) => DeleteResultChained(cfg, s, c, removed);
      case Stop(c) => Becomes(cfg, s, s.Now(c, Idle), c, Idle);
    }
  }

  lemma PushLinear(cfg: Config, s: State, c: Client, oid: Oid)
    requires Chained(cfg, s) && Linear(s) && s.Doing(c).Publishing? && oid !in s.commits
    requires s.Tip(s.Doing(c).task) == s.Doing(c).expected
    ensures Linear(PushClaimStep(s, c, oid))
  {
    var s' := PushClaimStep(s, c, oid);
    var task, expected := s.Doing(c).task, s.Doing(c).expected;
    forall o, p: Oid | ChildOf(s', o, p)
      ensures p in s.commits && (ChildOf(s, o, p) || (o == oid && task in s.claims && s.claims[task] == p))
    {
      assert CommitOk(cfg, s, o);
    }
    assert forall t <- s.claims :: t != task && expected.Some? ==> s.claims[t] != expected.value;
  }

  lemma LinearKept(s: State, s': State)
    requires Linear(s) && s'.commits == s.commits
    requires forall t :: s'.Tip(t) == s.Tip(t) || s'.Tip(t) == None
    ensures Linear(s')
  {
    assert forall o, p :: ChildOf(s', o, p) == ChildOf(s, o, p);
    assert forall t <- s'.claims :: s'.Tip(t) == s.Tip(t);
  }

  lemma StepLinear(cfg: Config, s: State, a: Action)
    requires Chained(cfg, s) && Linear(s)
    ensures Linear(Step(cfg, s, a))
  {
    StepClaims(cfg, s, a);
    if Step(cfg, s, a).commits == s.commits {
      LinearKept(s, Step(cfg, s, a));
    } else {
      PushLinear(cfg, s, a.client, a.oid);
    }
  }

  /** A step that starts no finishing and no discarding keeps completed claims backed. */
  lemma BackedKept(s: State, s': State)
    requires Backed(s)
    requires s'.commits == s.commits && s'.claims == s.claims && s'.results == s.results
    requires forall c, t :: Finishing(s', c, t) ==> Finishing(s, c, t) && s'.Doing(c) == s.Doing(c)
    requires forall c, t :: DiscardingTask(s', c, t) ==> DiscardingTask(s, c, t)
    ensures Backed(s')
  {
    assert forall t :: CompletedClaim(s', t) == CompletedClaim(s, t);
  }

  /** Only a process whose task has no result yet gets to finish it. */
  lemma UploadBacked(s: State, c: Client)
    requires Backed(s) && s.Doing(c).Uploading? && s.Doing(c).task !in s.results
    ensures Backed(UploadResultStep(s, c))
  {
    var s', task := UploadResultStep(s, c), s.Doing(c).task;
    assert forall t :: CompletedClaim(s', t) == CompletedClaim(s, t);
    assert !CompletedClaim(s, task);
    forall d, t | Finishing(s', d, t)
      ensures if d == c then t == task else t != task && Finishing(s, d, t)
    {
      assert d != c ==> s'.Doing(d) == s.Doing(d) && Finishing(s, d, t);
    }
    forall d, t | DiscardingTask(s', d, t)
      ensures d != c && t != task && DiscardingTask(s, d, t)
    {
      assert DiscardingTask(s, d, t);
    }
  }

  lemma PushBacked(s: State, c: Client, oid: Oid)
    requires Backed(s) && s.Doing(c).Publishing? && oid !in s.commits
    requires s.Tip(s.Doing(c).task) == s.Doing(c).expected
    requires forall t <- s.claims :: s.claims[t] in s.commits
    ensures Backed(PushClaimStep(s, c, oid))
  {
    var s', a := PushClaimStep(s, c, oid), s.Doing(c);
    assert forall t :: CompletedClaim(s', t) == if t == a.task then a.lease.state.Completed? else CompletedClaim(s, t);
    assert forall d, t :: Finishing(s', d, t) ==> d != c && Finishing(s, d, t);
    assert forall d, t :: DiscardingTask(s', d, t) ==> d != c && DiscardingTask(s, d, t);
    assert a.lease.state.Completed? ==> Finishing(s, c, a.task);
  }

  lemma DeleteClaimBacked(s: State, c: Client)
    requires Backed(s) && s.Doing(c).Pruning?
    requires s.Tip(s.Doing(c).task) == Some(s.Doing(c).oid) && CompletedClaim(s, s.Doing(c).task)
    ensures Backed(DeleteClaimStep(s, c))
  {
    var s', task := DeleteClaimStep(s, c), s.Doing(c).task;
    assert forall t :: CompletedClaim(s', t) ==> t in s.claims && CompletedClaim(s, t) && t != task;
    forall d, t | Finishing(s', d, t)
      ensures d != c && t != task && Finishing(s, d, t)
    {
      assert d != c && s'.Doing(d) == s.Doing(d) && Finishing(s, d, t);
    }
    forall d, t | DiscardingTask(s', d, t)
      ensures if d == c then t == task else t != task && DiscardingTask(s, d, t)
    {
      assert d != c ==> s'.Doing(d) == s.Doing(d) && DiscardingTask(s, d, t);
    }
  }

  lemma DeleteResultBacked(cfg: Config, s: State, c: Client, removed: bool)
    requires Backed(s) && s.Doing(c).Discarding?
    ensures Backed(DeleteResultStep(cfg, s, c, removed))
  {
    var s', task := DeleteResultStep(cfg, s, c, removed), s.Doing(c).task;
    assert DiscardingTask(s, c, task);
    assert forall t :: CompletedClaim(s', t) ==> t in s.claims && CompletedClaim(s, t) && t != task;
    forall d, t | Finishing(s', d, t)
      ensures d != c && t != task && Finishing(s, d, t)
    {
      assert d != c && s'.Doing(d) == s.Doing(d) && Finishing(s, d, t);
    }
    forall d, t | DiscardingTask(s', d, t)
      ensures d != c && t != task && DiscardingTask(s, d, t)
    {
      assert d != c && s'.Doing(d) == s.Doing(d) && DiscardingTask(s, d, t);
    }
  }

  /** An operation that begins only sets the activity of its process: it discards nothing and completes nothing,
      and a push it prepares against a commit comes from the view of the own producer, which is completed only for
      a heartbeat of the claim's producer. */
  lemma BeginNow(cfg: Config, s: State, a: Action)
    requires Begins(a)
    ensures var s', c := Step(cfg, s, a), a.client;
      var next, seen := s'.Doing(c), s.Seen(cfg(c).producer, a.task);
      || s' == s
      || (&& s' == s.Now(c, next)
          && !next.Discarding? && !(next.Publishing? && next.lease.state.Completed?)
          && (next.Publishing? && next.expected.Some? ==>
                && next.task == a.task && seen.Some? && seen.value.oid == next.expected.value
                && (!seen.value.lease.state.Completed? || Renews(cfg, a, a.task, seen.value.lease.producer))))
  {
    hide Chained, Backed;
  }

  lemma BeginBacked(cfg: Config, s: State, a: Action)
    requires Backed(s) && Begins(a)
    ensures Backed(Step(cfg, s, a))
  {
    hide Backed, Step, Renews;
    BeginNow(cfg, s, a);
    if Step(cfg, s, a) != s {
      BackedKept(s, Step(cfg, s, a));
    }
  }

  lemma LocalBacked(cfg: Config, s: State, a: Action)
    requires Backed(s) && Local(a)
    ensures Backed(Step(cfg, s, a))
  {
    BackedKept(s, Step(cfg, s, a));
  }

  lemma UploadStepBacked(s: State, c: Client)
    requires Backed(s)
    ensures Backed(UploadResultStep(s, c))
  {
    if s.Doing(c).Uploading? && s.Doing(c).task !in s.results {
      UploadBacked(s, c);
    } else {
      BackedKept(s, UploadResultStep(s, c));
    }
  }

  lemma DeleteClaimStepBacked(cfg: Config, s: State, c: Client)
    requires Chained(cfg, s) && Backed(s)
    ensures Backed(DeleteClaimStep(s, c))
  {
    DoingIsGood(cfg, s, c);
    if DeleteClaimStep(s, c).claims != s.claims {
      DeleteClaimBacked(s, c);
    } else {
      BackedKept(s, DeleteClaimStep(s, c));
    }
  }

  lemma PushStepBacked(cfg: Config, s: State, c: Client, oid: Oid)
    requires Chained(cfg, s) && Backed(s)
    ensures Backed(PushClaimStep(s, c, oid))
  {
    if PushClaimStep(s, c, oid).commits != s.commits {
      PushBacked(s, c, oid);
    } else {
      BackedKept(s, PushClaimStep(s, c, oid));
    }
  }

  lemma StepBacked(cfg: Config, s: State, a: Action)
    requires Chained(cfg, s) && Backed(s)
    ensures Backed(Step(cfg, s, a))
  {
    hide Chained, Backed, AcquireStep, HeartbeatStep, CompleteStep, UploadResultStep, PushClaimStep, RecordStep,
         PruneStep, DeleteClaimStep, DeleteResultStep, ObserveStep, ForgetStep;
    if Local(a) {
      LocalBacked(cfg, s, a);
    } else if Begins(a) {
      BeginBacked(cfg, s, a);
    } else {
      match a
      case UploadResult(c) => UploadStepBacked(s, c);
      case PushClaim(c, oid) => PushStepBacked(cfg, s, c, oid);
      case DeleteClaim(c) => DeleteClaimStepBacked(cfg, s, c);
      case DeleteResult(c, removed) =>
        if s.Doing(c).Discarding? {
          DeleteResultBacked(cfg, s, c, removed);
        } else {
          NothingDiscarded(cfg, s, c, removed);
        }
    }
  }

  lemma NothingDiscarded(cfg: Config, s: State, c: Client, removed: bool)
    requires !s.Doing(c).Discarding?
    ensures DeleteResultStep(cfg, s, c, removed) == s
  {
  }

  lemma StepInv(cfg: Config, s: State, a: Action)
    requires GoodConfig(cfg) && Inv(cfg, s)
    ensures Inv(cfg, Step(cfg, s, a))
  {
    StepChained(cfg, s, a);
    StepLinear(cfg, s, a);
    StepBacked(cfg, s, a);
  }

  lemma KeepsInv(cfg: Config, s: State, a: Action)
    ensures GoodConfig(cfg) && Inv(cfg, s) ==> Inv(cfg, Step(cfg, s, a))
  {
    hide GoodConfig, Inv, Step;
    if GoodConfig(cfg) && Inv(cfg, s) {
      StepInv(cfg, s, a);
    }
  }

  // ---------------------------------------------------------------- whole runs

  lemma {:induction false} RunInv(cfg: Config, s: State, actions: seq<Action>)
    requires GoodConfig(cfg) && Inv(cfg, s)
    ensures Inv(cfg, Run(cfg, s, actions))
    decreases |actions|
  {
    if actions != [] {
      StepInv(cfg, s, actions[0]);
      RunInv(cfg, Step(cfg, s, actions[0]), actions[1..]);
    }
  }

  /** In every run, a claim commit either keeps the producer and the acquisition time of its
      parent, or starts a lease on an uncompleted one that had run out, grace included;
      and no lease is ever extended twice, so of a renewal and a takeover one loses. */
  lemma ClaimHistory(cfg: Config, clock: int, actions: seq<Action>, o: Oid)
    requires GoodConfig(cfg)
    ensures var s := Run(cfg, InitialState(clock), actions);
      o in s.commits && s.commits[o].parent.Some? ==>
        var p := s.commits[o].parent.value;
        && p in s.commits && s.commits[p].task == s.commits[o].task
        && (Continues(s.commits[p].lease, s.commits[o].lease)
            || TakesOver(cfg, s.commits[o].author, s.commits[p].lease, s.commits[o].lease))
        && (forall o' <- s.commits :: s.commits[o'].parent == Some(p) ==> o' == o)
  {
    var s := Run(cfg, InitialState(clock), actions);
    RunInv(cfg, InitialState(clock), actions);
    assert CommitOk(cfg, s, o);
    forall o' <- s.commits | o in s.commits && s.commits[o].parent.Some? && s.commits[o'].parent == s.commits[o].parent
      ensures o' == o
    {
      assert ChildOf(s, o', s.commits[o].parent.value) && ChildOf(s, o, s.commits[o].parent.value);
    }
  }

  /** Whenever the remote claim of a task is completed, its results ref holds that result. */
  lemma CompletedClaimHasResult(cfg: Config, clock: int, actions: seq<Action>, task: string)
    requires GoodConfig(cfg)
    ensures var s := Run(cfg, InitialState(clock), actions);
      CompletedClaim(s, task) ==>
        task in s.results && s.commits[s.claims[task]].lease.resultId == Some(s.results[task])
  {
    RunInv(cfg, InitialState(clock), actions);
  }

  /** The claim is at a lease of the producer of `o`, written no earlier than `o`. */
  predicate HeldSince(cfg: Config, s: State, o: Oid)
    requires o in s.commits
  {
    var task := s.commits[o].task;
    && task in s.claims && s.claims[task] in s.commits
    && var tip := s.commits[s.claims[task]];
    && tip.lease.producer == s.commits[o].lease.producer
    && IssuedAt(cfg, s.commits[o].author, s.commits[o].lease) <= IssuedAt(cfg, tip.author, tip.lease)
  }

  /** A lease that `a` writes is outlasted by the hour of a completed claim, and by every lease another process
      of its producer may renew it with, grace of the other producers included. */
  ghost predicate Outlasted(cfg: Config, a: Client) {
    && cfg(a).leaseSeconds <= COMPLETED_LEASE_SECONDS
    && forall c, e | cfg(c).producer == cfg(a).producer != cfg(e).producer :: NoShorter(cfg, a, c, e)
  }

  predicate NoShorter(cfg: Config, a: Client, c: Client, e: Client) {
    cfg(a).leaseSeconds <= 0 || cfg(a).leaseSeconds <= cfg(c).leaseSeconds + cfg(e).graceSeconds + 1
  }

  lemma StepClock(cfg: Config, s: State, a: Action)
    ensures s.clock <= Step(cfg, s, a).clock
  {}

  lemma StepKeepsCommits(cfg: Config, s: State, a: Action, o: Oid)
    requires o in s.commits
    ensures o in Step(cfg, s, a).commits && Step(cfg, s, a).commits[o] == s.commits[o]
    ensures s.clock <= Step(cfg, s, a).clock
  {
    StepClock(cfg, s, a);
  }

  lemma PushHolds(cfg: Config, s: State, c: Client, oid: Oid, o: Oid)
    requires GoodConfig(cfg) && Inv(cfg, s) && o in s.commits && s.commits[o].lease.state.Processing?
    requires Outlasted(cfg, s.commits[o].author) && HeldSince(cfg, s, o) && s.clock < s.commits[o].lease.expiresAt
    requires s.Doing(c).Publishing? && oid !in s.commits && s.Tip(s.Doing(c).task) == s.Doing(c).expected
    ensures HeldSince(cfg, PushClaimStep(s, c, oid), o)
  {
    DoingIsGood(cfg, s, c);
    var tip := s.claims[s.commits[o].task];
    assert CommitOk(cfg, s, o) && CommitOk(cfg, s, tip);
    assert NoShorter(cfg, s.commits[o].author, s.commits[tip].author, c)
      || cfg(c).producer == s.commits[o].lease.producer;
  }

  lemma DeleteHolds(cfg: Config, s: State, c: Client, o: Oid)
    requires Inv(cfg, s) && o in s.commits && s.commits[o].lease.state.Processing?
    requires Outlasted(cfg, s.commits[o].author) && HeldSince(cfg, s, o) && s.clock < s.commits[o].lease.expiresAt
    requires s.Doing(c).Pruning? && s.Tip(s.Doing(c).task) == Some(s.Doing(c).oid)
    ensures HeldSince(cfg, DeleteClaimStep(s, c), o)
  {
    DoingIsGood(cfg, s, c);
  }

  /** No step takes a claim from an owner whose lease has not run out. */
  lemma StepHolds(cfg: Config, s: State, a: Action, o: Oid)
    requires GoodConfig(cfg) && Inv(cfg, s) && o in s.commits && s.commits[o].lease.state.Processing?
    requires Outlasted(cfg, s.commits[o].author) && HeldSince(cfg, s, o)
    requires Step(cfg, s, a).clock < s.commits[o].lease.expiresAt
    ensures o in Step(cfg, s, a).commits && HeldSince(cfg, Step(cfg, s, a), o)
  {
    StepKeepsCommits(cfg, s, a, o);
    StepKeepsCommits(cfg, s, a, s.claims[s.commits[o].task]);
    StepClaims(cfg, s, a);
    if Step(cfg, s, a).claims != s.claims {
      if a.PushClaim? {
        PushHolds(cfg, s, a.client, a.oid, o);
      } else {
        DeleteHolds(cfg, s, a.client, o);
      }
    }
  }

  lemma {:induction false} RunClock(cfg: Config, s: State, actions: seq<Action>)
    ensures s.clock <= Run(cfg, s, actions).clock
    decreases |actions|
  {
    if actions != [] {
      StepClock(cfg, s, actions[0]);
      hide Step;
      RunClock(cfg, Step(cfg, s, actions[0]), actions[1..]);
    }
  }

  /** If the claim of `task` is processing, then after `after` it still has the same producer, unless the lease
      it was seen with has run out by then. */
  predicate OwnerKept(cfg: Config, s: State, after: seq<Action>, task: string) {
    CurrentTip(s, task) && s.commits[s.claims[task]].lease.state.Processing? &&
    Run(cfg, s, after).clock < s.commits[s.claims[task]].lease.expiresAt ==>
      && CurrentTip(Run(cfg, s, after), task)
      && Run(cfg, s, after).commits[Run(cfg, s, after).claims[task]].lease.producer
         == s.commits[s.claims[task]].lease.producer
  }

  predicate CurrentTip(s: State, task: string) {
    task in s.claims && s.claims[task] in s.commits
  }

  /** A claim stays with its owner for as long as the lease it was seen with lasts, whatever
      the other processes do with views of any age. */
  lemma UnexpiredOwnerKeepsClaim(cfg: Config, s: State, actions: seq<Action>, task: string)
    requires GoodConfig(cfg) && Inv(cfg, s)
    requires CurrentTip(s, task) ==> Outlasted(cfg, s.commits[s.claims[task]].author)
    ensures OwnerKept(cfg, s, actions, task)
  {
    if CurrentTip(s, task) && s.commits[s.claims[task]].lease.state.Processing? &&
       Run(cfg, s, actions).clock < s.commits[s.claims[task]].lease.expiresAt {
      RunHolds(cfg, s, actions, s.claims[task]);
    }
  }

  /** No run takes a processing claim from its producer before the lease it was seen with ends. */
  ghost predicate KeepsOwners(cfg: Config) {
    forall clock, before, after, task :: OwnerKept(cfg, Run(cfg, InitialState(clock), before), after, task)
  }

  /** The deployments in which that is so are those whose lease times are all outlasted. */
  lemma OwnersKeptExactly(cfg: Config)
    requires GoodConfig(cfg)
    ensures KeepsOwners(cfg) <==> forall a :: Outlasted(cfg, a)
  {
    if forall a :: Outlasted(cfg, a) {
      forall clock, before, after, task ensures OwnerKept(cfg, Run(cfg, InitialState(clock), before), after, task) {
        RunInv(cfg, InitialState(clock), before);
        UnexpiredOwnerKeepsClaim(cfg, Run(cfg, InitialState(clock), before), after, task);
      }
    } else {
      var a :| !Outlasted(cfg, a);
      if cfg(a).leaseSeconds > COMPLETED_LEASE_SECONDS {
        LongLeaseIsDisplaced(cfg, a, "", "");
        assert !OwnerKept(cfg, Run(cfg, InitialState(0), Claiming(a, "")), CompletingAndPruning(a, "", ""), "");
      } else {
        var c, e :| cfg(c).producer == cfg(a).producer != cfg(e).producer && !NoShorter(cfg, a, c, e);
        ShortRenewalIsDisplaced(cfg, a, c, e, "");
        assert !OwnerKept(cfg, Run(cfg, InitialState(0), Claiming(a, "")), Renewing(cfg, c, e, ""), "");
      }
    }
  }

  lemma {:induction false} RunHolds(cfg: Config, s: State, actions: seq<Action>, o: Oid)
    requires GoodConfig(cfg) && Inv(cfg, s) && o in s.commits && s.commits[o].lease.state.Processing?
    requires Outlasted(cfg, s.commits[o].author) && HeldSince(cfg, s, o)
    requires Run(cfg, s, actions).clock < s.commits[o].lease.expiresAt
    ensures o in Run(cfg, s, actions).commits && Run(cfg, s, actions).commits[o] == s.commits[o]
    ensures HeldSince(cfg, Run(cfg, s, actions), o)
    decreases |actions|
  {
    if actions != [] {
      var s' := Step(cfg, s, actions[0]);
      RunClock(cfg, s', actions[1..]);
      StepKeepsCommits(cfg, s, actions[0], o);
      StepHolds(cfg, s, actions[0], o);
      StepInv(cfg, s, actions[0]);
      RunHolds(cfg, s', actions[1..], o);
    }
  }

  /** A result whose publisher stopped, or lost the claim, before completing the claim. */
  ghost predicate Orphaned(s: State, task: string) {
    && task in s.results && !CompletedClaim(s, task)
    && (forall c :: !Finishing(s, c, task) && !DiscardingTask(s, c, task))
  }

  lemma PushOrphaned(s: State, c: Client, oid: Oid, task: string)
    requires Orphaned(s, task) && s.Doing(c).Publishing? && oid !in s.commits
    requires forall t <- s.claims :: s.claims[t] in s.commits
    requires s.Tip(s.Doing(c).task) == s.Doing(c).expected
    ensures Orphaned(PushClaimStep(s, c, oid), task)
  {
    assert !Finishing(s, c, task);
    forall d
      ensures !Finishing(PushClaimStep(s, c, oid), d, task) && !DiscardingTask(PushClaimStep(s, c, oid), d, task)
    {
      assert !Finishing(s, d, task) && !DiscardingTask(s, d, task);
    }
  }

  lemma DeleteOrphaned(cfg: Config, s: State, c: Client, task: string)
    requires Chained(cfg, s) && Orphaned(s, task) && s.Doing(c).Pruning?
    requires s.Tip(s.Doing(c).task) == Some(s.Doing(c).oid)
    ensures Orphaned(DeleteClaimStep(s, c), task)
  {
    DoingIsGood(cfg, s, c);
    forall d
      ensures !Finishing(DeleteClaimStep(s, c), d, task) && !DiscardingTask(DeleteClaimStep(s, c), d, task)
    {
      assert !Finishing(s, d, task) && !DiscardingTask(s, d, task);
    }
  }

  /** Who gets to finish or to discard a task. */
  lemma StepFinishing(cfg: Config, s: State, a: Action, d: Client, t: string)
    ensures Finishing(Step(cfg, s, a), d, t) ==> Finishing(s, d, t) || t !in s.results
  {
    hide DeleteClaimStep;
    if a.DeleteClaim? {
      DeleteClaimFinishing(s, a.client, d, t);
    }
  }

  lemma DeleteClaimFinishing(s: State, c: Client, d: Client, t: string)
    ensures Finishing(DeleteClaimStep(s, c), d, t) ==> Finishing(s, d, t)
  {
  }

  lemma StepDiscarding(cfg: Config, s: State, a: Action, d: Client, t: string)
    requires !a.DeleteClaim?
    ensures DiscardingTask(Step(cfg, s, a), d, t) ==> DiscardingTask(s, d, t)
  {
  }

  lemma StepIntent(cfg: Config, s: State, a: Action, d: Client, t: string)
    ensures Finishing(Step(cfg, s, a), d, t) ==> Finishing(s, d, t) || t !in s.results
    ensures DiscardingTask(Step(cfg, s, a), d, t) ==> DiscardingTask(s, d, t) || a.DeleteClaim?
  {
    hide Step, Finishing, DiscardingTask;
    StepFinishing(cfg, s, a, d, t);
    if !a.DeleteClaim? {
      StepDiscarding(cfg, s, a, d, t);
    }
  }

  /** Only a process that discards a task removes its result, and a result is never replaced. */
  lemma StepResults(cfg: Config, s: State, a: Action, t: string)
    requires t in s.results && !(a.DeleteResult? && DiscardingTask(s, a.client, t))
    ensures t in Step(cfg, s, a).results && Step(cfg, s, a).results[t] == s.results[t]
  {}

  lemma StepOrphaned(cfg: Config, s: State, a: Action, task: string)
    requires Chained(cfg, s) && Orphaned(s, task)
    ensures Orphaned(Step(cfg, s, a), task) && Step(cfg, s, a).results[task] == s.results[task]
  {
    hide Chained, AcquireStep, HeartbeatStep, CompleteStep, UploadResultStep, PushClaimStep, RecordStep, PruneStep,
         DeleteClaimStep, DeleteResultStep, ObserveStep, ForgetStep;
    StepClaims(cfg, s, a);
    StepResults(cfg, s, a, task);
    if Step(cfg, s, a).claims == s.claims && Step(cfg, s, a).commits == s.commits {
      hide Step;
      forall d
        ensures !Finishing(Step(cfg, s, a), d, task) && !DiscardingTask(Step(cfg, s, a), d, task)
      {
        StepIntent(cfg, s, a, d, task);
        if a.DeleteClaim? {
          NothingDeleted(cfg, s, a.client, d, task);
        }
      }
    } else if a.PushClaim? {
      ClaimsHaveCommits(cfg, s);
      PushOrphaned(s, a.client, a.oid, task);
    } else {
      DeleteOrphaned(cfg, s, a.client, task);
    }
  }

  lemma ClaimsHaveCommits(cfg: Config, s: State)
    requires Chained(cfg, s)
    ensures forall t <- s.claims :: s.claims[t] in s.commits
  {
  }

  lemma NothingDeleted(cfg: Config, s: State, c: Client, d: Client, task: string)
    requires DeleteClaimStep(s, c).claims == s.claims
    ensures DiscardingTask(Step(cfg, s, DeleteClaim(c)), d, task) ==> DiscardingTask(s, d, task)
  {
  }

  /** An orphaned result is final: no continuation completes the claim or changes the result. */
  lemma {:induction false} OrphanedForever(cfg: Config, s: State, actions: seq<Action>, task: string)
    requires GoodConfig(cfg) && Inv(cfg, s) && Orphaned(s, task)
    ensures Orphaned(Run(cfg, s, actions), task) && Run(cfg, s, actions).results[task] == s.results[task]
    decreases |actions|
  {
    if actions != [] {
      StepOrphaned(cfg, s, actions[0], task);
      StepInv(cfg, s, actions[0]);
      OrphanedForever(cfg, Step(cfg, s, actions[0]), actions[1..], task);
    }
  }

  /** The tip changed hands, or was removed, only because it had run out. */
  predicate DisplacedRightly(s: State, s': State, task: string)
    requires task in s.claims && s.claims[task] in s.commits
  {
    var tip := s.commits[s.claims[task]].lease;
    match s'.Tip(task)
    case None => tip.state.Completed? && tip.expiresAt <= s.clock
    case Some(next) =>
      next in s'.commits
      && (s'.commits[next].lease.producer == tip.producer || (tip.state.Processing? && tip.expiresAt < s.clock))
  }

  lemma MoveDisplaces(cfg: Config, s: State, a: Action, task: string)
    requires GoodConfig(cfg) && Chained(cfg, s) && task in s.claims
    requires a.PushClaim? || a.DeleteClaim?
    ensures Step(cfg, s, a).Tip(task) != s.Tip(task) ==> DisplacedRightly(s, Step(cfg, s, a), task)
  {
    DoingIsGood(cfg, s, a.client);
  }

  /** A claim leaves its tip only for a lease of the same producer, unless the tip has run out. */
  lemma DisplacedOnlyAfterExpiry(cfg: Config, clock: int, actions: seq<Action>, a: Action, task: string)
    requires GoodConfig(cfg)
    ensures var s := Run(cfg, InitialState(clock), actions);
      task in s.claims && Step(cfg, s, a).Tip(task) != s.Tip(task) ==>
        s.claims[task] in s.commits && DisplacedRightly(s, Step(cfg, s, a), task)
  {
    var s := Run(cfg, InitialState(clock), actions);
    RunInv(cfg, InitialState(clock), actions);
    StepClaims(cfg, s, a);
    if task in s.claims && (a.PushClaim? || a.DeleteClaim?) {
      MoveDisplaces(cfg, s, a, task);
    }
  }

  function Claiming(a: Client, task: string): seq<Action> {
    [Acquire(a, task), PushClaim(a, 0), Record(a)]
  }

  /** The deployment after process `a` has claimed `task` with lease `l` under commit 0. */
  function ClaimedState(cfg: Config, a: Client, task: string, l: Lease): State {
    State(map[0 := ClaimCommit(task, l, None, a)], map[task := 0], map[],
          map[(cfg(a).producer, task) := View(0, l)], map[a := Idle], 0)
  }

  lemma ReachClaimed(cfg: Config, a: Client, task: string)
    ensures Run(cfg, InitialState(0), Claiming(a, task)) == ClaimedState(cfg, a, task, AcquiredLease(cfg(a), 0))
  {
    RunThree(cfg, InitialState(0), Acquire(a, task), PushClaim(a, 0), Record(a));
  }

  lemma AfterPush(cfg: Config, s: State, c: Client, oid: Oid, task: string, expected: Option<Oid>, lease: Lease)
    requires s.Doing(c) == Publishing(task, expected, lease) && oid !in s.commits && s.Tip(task) == expected
    ensures Step(cfg, s, PushClaim(c, oid))
         == s.(commits := s.commits[oid := ClaimCommit(task, lease, expected, c)], claims := s.claims[task := oid])
             .Now(c, Recording(task, View(oid, lease)))
  {
  }

  lemma AfterRecord(cfg: Config, s: State, c: Client, task: string, view: View)
    requires s.Doing(c) == Recording(task, view)
    ensures Step(cfg, s, Record(c)) == s.(observed := s.observed[(cfg(c).producer, task) := view]).Now(c, Idle)
  {
  }

  lemma AfterUpload(cfg: Config, s: State, c: Client, task: string, view: View, fact: string)
    requires s.Doing(c) == Uploading(task, view, fact) && task !in s.results
    ensures Step(cfg, s, UploadResult(c))
         == s.(results := s.results[task := fact])
             .Now(c, Publishing(task, Some(view.oid), CompletedLease(view.lease, fact, s.clock)))
  {
  }

  lemma ReachCompleted(cfg: Config, a: Client, task: string, fact: string, l: Lease)
    requires l.producer == cfg(a).producer
    ensures var s := Run(cfg, CompleteStep(cfg, ClaimedState(cfg, a, task, l), a, task, fact),
                         [UploadResult(a), PushClaim(a, 1), Record(a)]);
      s.Tip(task) == Some(1) && s.Doing(a) == Idle && s.clock == 0
      && s.Seen(cfg(a).producer, task) == Some(View(1, CompletedLease(l, fact, 0)))
  {
    var s0 := CompleteStep(cfg, ClaimedState(cfg, a, task, l), a, task, fact);
    assert s0 == ClaimedState(cfg, a, task, l).Now(a, Uploading(task, View(0, l), fact));
    RunThree(cfg, s0, UploadResult(a), PushClaim(a, 1), Record(a));
    hide Step, Run, CompletedLease, CompleteStep;
    var lease := CompletedLease(l, fact, 0);
    AfterUpload(cfg, s0, a, task, View(0, l), fact);
    var s1 := Step(cfg, s0, UploadResult(a));
    AfterPush(cfg, s1, a, 1, task, Some(0), lease);
    AfterRecord(cfg, Step(cfg, s1, PushClaim(a, 1)), a, task, View(1, lease));
  }

  lemma ReachPruned(cfg: Config, a: Client, s: State, task: string, v: View)
    requires s.Tip(task) == Some(v.oid) && s.Doing(a) == Idle && s.clock == 0
    requires s.Seen(cfg(a).producer, task) == Some(v)
    requires v.lease.state.Completed? && v.lease.expiresAt == COMPLETED_LEASE_SECONDS
    ensures var s' := Run(cfg, s, [Tick(COMPLETED_LEASE_SECONDS), Prune(a, task), DeleteClaim(a)]);
      s'.clock == COMPLETED_LEASE_SECONDS && task !in s'.claims
  {
    RunThree(cfg, s, Tick(COMPLETED_LEASE_SECONDS), Prune(a, task), DeleteClaim(a));
  }

  /** The owner completes its claim, which is pruned an hour later. */
  function CompletingAndPruning(a: Client, task: string, fact: string): seq<Action> {
    [Complete(a, task, fact)] + [UploadResult(a), PushClaim(a, 1), Record(a)]
    + [Tick(COMPLETED_LEASE_SECONDS), Prune(a, task), DeleteClaim(a)]
  }

  /** With a lease time above that of a completed claim the owner can be displaced early: it
      completes, the completed claim runs out first, and any process prunes it. */
  lemma LongLeaseIsDisplaced(cfg: Config, a: Client, task: string, fact: string)
    requires cfg(a).leaseSeconds > COMPLETED_LEASE_SECONDS
    ensures var s := Run(cfg, InitialState(0), Claiming(a, task));
      var s' := Run(cfg, s, CompletingAndPruning(a, task, fact));
      CurrentTip(s, task) && s.commits[s.claims[task]].lease == AcquiredLease(cfg(a), 0)
      && s'.clock < s.commits[s.claims[task]].lease.expiresAt && task !in s'.claims
  {
    ReachClaimed(cfg, a, task);
    var l := AcquiredLease(cfg(a), 0);
    var s := ClaimedState(cfg, a, task, l);
    var start, finish := [Complete(a, task, fact)], [UploadResult(a), PushClaim(a, 1), Record(a)];
    RunConcat(cfg, s, start + finish, [Tick(COMPLETED_LEASE_SECONDS), Prune(a, task), DeleteClaim(a)]);
    RunConcat(cfg, s, start, finish);
    var s1 := CompleteStep(cfg, s, a, task, fact);
    RunOne(cfg, s, Complete(a, task, fact));
    ReachCompleted(cfg, a, task, fact, l);
    ReachPruned(cfg, a, Run(cfg, s1, finish), task, View(1, CompletedLease(l, fact, 0)));
  }

  /** When a renewal by `c` has run out for `e`. */
  function Patience(cfg: Config, c: Client, e: Client): nat {
    if cfg(c).leaseSeconds + cfg(e).graceSeconds < 0 then 0 else cfg(c).leaseSeconds + cfg(e).graceSeconds + 1
  }

  /** Another process of the producer renews the claim, and a process of another producer takes it over. */
  function Renewing(cfg: Config, c: Client, e: Client, task: string): seq<Action> {
    [Heartbeat(c, task), PushClaim(c, 1), Record(c)]
    + [Tick(Patience(cfg, c, e)), Observe(e, 1), Acquire(e, task)] + [PushClaim(e, 2)]
  }

  lemma ReachRenewed(cfg: Config, a: Client, c: Client, e: Client, task: string, l: Lease)
    requires l.producer == cfg(a).producer == cfg(c).producer != cfg(e).producer
    ensures var s := Run(cfg, ClaimedState(cfg, a, task, l), [Heartbeat(c, task), PushClaim(c, 1), Record(c)]);
      && s.Tip(task) == Some(1) && 1 in s.commits && 2 !in s.commits
      && s.commits[1] == ClaimCommit(task, RenewedLease(cfg(c), l, 0), Some(0), c)
      && s.Doing(e) == Idle && s.clock == 0
  {
    var s0 := ClaimedState(cfg, a, task, l);
    RunThree(cfg, s0, Heartbeat(c, task), PushClaim(c, 1), Record(c));
    HeartbeatOfClaimed(cfg, a, c, task, l);
    hide Step, Run, RenewedLease;
    var lease := RenewedLease(cfg(c), l, 0);
    var s1 := Step(cfg, s0, Heartbeat(c, task));
    AfterPush(cfg, s1, c, 1, task, Some(0), lease);
    AfterRecord(cfg, Step(cfg, s1, PushClaim(c, 1)), c, task, View(1, lease));
  }

  lemma HeartbeatOfClaimed(cfg: Config, a: Client, c: Client, task: string, l: Lease)
    requires l.producer == cfg(a).producer == cfg(c).producer
    ensures Step(cfg, ClaimedState(cfg, a, task, l), Heartbeat(c, task))
         == ClaimedState(cfg, a, task, l).Now(c, Publishing(task, Some(0), RenewedLease(cfg(c), l, 0)))
  {
  }

  lemma ReachTakenOver(cfg: Config, s: State, c: Client, e: Client, task: string, l: Lease)
    requires s.Tip(task) == Some(1) && 1 in s.commits && 2 !in s.commits && s.Doing(e) == Idle && s.clock == 0
    requires s.commits[1] == ClaimCommit(task, RenewedLease(cfg(c), l, 0), Some(0), c)
    ensures var s' := Run(cfg, s, [Tick(Patience(cfg, c, e)), Observe(e, 1), Acquire(e, task)] + [PushClaim(e, 2)]);
      && s'.clock == Patience(cfg, c, e) && CurrentTip(s', task)
      && s'.commits[s'.claims[task]].lease.producer == cfg(e).producer
  {
    var wait, push := [Tick(Patience(cfg, c, e)), Observe(e, 1), Acquire(e, task)], [PushClaim(e, 2)];
    RunConcat(cfg, s, wait, push);
    RunThree(cfg, s, Tick(Patience(cfg, c, e)), Observe(e, 1), Acquire(e, task));
    AcquireAfterWait(cfg, s, c, e, task, l);
    hide Step, Run, RenewedLease, Patience;
    var s1 := Run(cfg, s, wait);
    RunOne(cfg, s1, PushClaim(e, 2));
    AfterPush(cfg, s1, e, 2, task, Some(1), AcquiredLease(cfg(e), Patience(cfg, c, e)));
  }

  lemma AcquireAfterWait(cfg: Config, s: State, c: Client, e: Client, task: string, l: Lease)
    requires s.Tip(task) == Some(1) && 1 in s.commits && s.Doing(e) == Idle && s.clock == 0
    requires s.commits[1] == ClaimCommit(task, RenewedLease(cfg(c), l, 0), Some(0), c)
    ensures var n := Patience(cfg, c, e);
      Step(cfg, Step(cfg, Step(cfg, s, Tick(n)), Observe(e, 1)), Acquire(e, task))
      == s.(clock := n, observed := s.observed[(cfg(e).producer, task) := View(1, s.commits[1].lease)])
          .Now(e, Publishing(task, Some(1), AcquiredLease(cfg(e), n)))
  {
  }

  /** With a shorter lease time in another process of the producer the owner can be displaced early: that
      process renews the claim, and a process of another producer takes it over after its grace. */
  lemma ShortRenewalIsDisplaced(cfg: Config, a: Client, c: Client, e: Client, task: string)
    requires cfg(c).producer == cfg(a).producer != cfg(e).producer && !NoShorter(cfg, a, c, e)
    ensures var s := Run(cfg, InitialState(0), Claiming(a, task));
      var s' := Run(cfg, s, Renewing(cfg, c, e, task));
      CurrentTip(s, task) && s.commits[s.claims[task]].lease == AcquiredLease(cfg(a), 0)
      && s'.clock < s.commits[s.claims[task]].lease.expiresAt
      && CurrentTip(s', task) && s'.commits[s'.claims[task]].lease.producer == cfg(e).producer
  {
    ReachClaimed(cfg, a, task);
    var l := AcquiredLease(cfg(a), 0);
    var s := ClaimedState(cfg, a, task, l);
    var renew := [Heartbeat(c, task), PushClaim(c, 1), Record(c)];
    var wait := [Tick(Patience(cfg, c, e)), Observe(e, 1), Acquire(e, task)];
    RunConcat(cfg, s, renew, wait + [PushClaim(e, 2)]);
    assert Renewing(cfg, c, e, task) == renew + (wait + [PushClaim(e, 2)]);
    ReachRenewed(cfg, a, c, e, task, l);
    ReachTakenOver(cfg, Run(cfg, s, renew), c, e, task, l);
  }

  lemma RunOne(cfg: Config, s: State, a: Action)
    ensures Run(cfg, s, [a]) == Step(cfg, s, a)
  {
    assert [a][1..] == [] && Run(cfg, Step(cfg, s, a), []) == Step(cfg, s, a);
  }

  lemma {:induction false} RunConcat(cfg: Config, s: State, front: seq<Action>, back: seq<Action>)
    ensures Run(cfg, s, front + back) == Run(cfg, Run(cfg, s, front), back)
    decreases |front|
  {
    if front == [] {
      assert front + back == back;
    } else {
      assert (front + back)[1..] == front[1..] + back;
      RunConcat(cfg, Step(cfg, s, front[0]), front[1..], back);
    }
  }

  lemma RunThree(cfg: Config, s: State, a: Action, b: Action, c: Action)
    ensures Run(cfg, s, [a, b, c]) == Step(cfg, Step(cfg, Step(cfg, s, a), b), c)
  {
    assert [a, b, c][1..] == [b, c] && [b, c][1..] == [c] && [c][1..] == [];
    assert Run(cfg, Step(cfg, s, a), [b, c]) == Run(cfg, Step(cfg, Step(cfg, s, a), b), [c]);
  }

  // ------------------------------------------------- completion under the worker's order

  /** The claim is at the completed commit `o` and nobody is about to push a successor of it. */
  ghost predicate Settled(s: State, task: string, o: Oid) {
    && s.Tip(task) == Some(o) && CompletedClaim(s, task)
    && (forall c :: !(s.Doing(c).Publishing? && s.Doing(c).task == task && s.Doing(c).expected == Some(o)))
  }

  /** A renewal of `task` by the producer that holds it. */
  predicate Renews(cfg: Config, a: Action, task: string, producer: string) {
    a.Heartbeat? && a.task == task && cfg(a.client).producer == producer
  }

  /** Whatever leaves the tip and its commit alone and starts no push keeps the claim settled. */
  lemma QuietSettled(s: State, s': State, task: string, o: Oid)
    requires Settled(s, task, o) && s'.Tip(task) == s.Tip(task) && o in s'.commits && s'.commits[o] == s.commits[o]
    requires forall c :: s'.Doing(c).Publishing? ==> s'.Doing(c) == s.Doing(c)
    ensures Settled(s', task, o)
  {
  }

  lemma UploadSettled(s: State, c: Client, task: string, o: Oid)
    requires Backed(s) && Settled(s, task, o)
    ensures Settled(UploadResultStep(s, c), task, o)
  {
    var s' := UploadResultStep(s, c);
    assert task in s.results;
    assert forall d :: d != c ==> s'.Doing(d) == s.Doing(d);
  }

  lemma PushSettled(s: State, c: Client, oid: Oid, task: string, o: Oid)
    requires Settled(s, task, o)
    ensures Settled(PushClaimStep(s, c, oid), task, o)
  {
    QuietSettled(s, PushClaimStep(s, c, oid), task, o);
  }

  lemma DeleteSettled(cfg: Config, s: State, c: Client, task: string, o: Oid)
    requires Chained(cfg, s) && Settled(s, task, o) && s.clock < s.commits[o].lease.expiresAt
    ensures Settled(DeleteClaimStep(s, c), task, o)
  {
    DoingIsGood(cfg, s, c);
    QuietSettled(s, DeleteClaimStep(s, c), task, o);
  }

  lemma OtherSettled(cfg: Config, s: State, a: Action, task: string, o: Oid)
    requires Settled(s, task, o)
    requires a.Tick? || a.Observe? || a.Forget? || a.Record? || a.Stop? || a.DeleteResult?
    ensures Settled(Step(cfg, s, a), task, o)
  {
    QuietSettled(s, Step(cfg, s, a), task, o);
  }

  lemma NowSettled(s: State, c: Client, next: Activity, task: string, o: Oid)
    requires Settled(s, task, o)
    requires !(next.Publishing? && next.task == task && next.expected == Some(o))
    ensures Settled(s.Now(c, next), task, o)
  {
    assert forall d :: s.Now(c, next).Doing(d) == if d == c then next else s.Doing(d);
  }

  lemma SeenIsGood(cfg: Config, s: State, c: Client, task: string)
    requires Chained(cfg, s) && s.Seen(cfg(c).producer, task).Some?
    ensures GoodView(s, task, s.Seen(cfg(c).producer, task).value)
  {
  }

  /** An operation that begins prepares no push against the completed view, as that is neither taken over nor,
      without a renewal by its producer, renewed. */
  lemma BeginSettled(cfg: Config, s: State, a: Action, task: string, o: Oid)
    requires Chained(cfg, s) && Settled(s, task, o) && Begins(a)
    requires !Renews(cfg, a, task, s.commits[o].lease.producer)
    ensures Settled(Step(cfg, s, a), task, o)
  {
    hide Settled, Chained, Step;
    var s', c := Step(cfg, s, a), a.client;
    BeginNow(cfg, s, a);
    if s' != s {
      if s.Seen(cfg(c).producer, a.task).Some? {
        SeenIsGood(cfg, s, c, a.task);
      }
      SettledTip(s, task, o);
      NowSettled(s, c, s'.Doing(c), task, o);
    }
  }

  lemma SettledTip(s: State, task: string, o: Oid)
    requires Settled(s, task, o)
    ensures o in s.commits && s.commits[o].lease.state.Completed?
  {
  }

  lemma StepSettled(cfg: Config, s: State, a: Action, task: string, o: Oid)
    requires Chained(cfg, s) && Backed(s) && Settled(s, task, o)
    requires !Renews(cfg, a, task, s.commits[o].lease.producer)
    requires Step(cfg, s, a).clock < s.commits[o].lease.expiresAt
    ensures Settled(Step(cfg, s, a), task, o)
  {
    hide Chained, Backed, Settled, AcquireStep, HeartbeatStep, CompleteStep, UploadResultStep, PushClaimStep,
         RecordStep, PruneStep, DeleteClaimStep, DeleteResultStep, ObserveStep, ForgetStep;
    SettledTip(s, task, o);
    StepKeepsCommits(cfg, s, a, o);
    match a
    case UploadResult(c) => UploadSettled(s, c, task, o);
    case PushClaim(c, oid) => PushSettled(s, c, oid, task, o);
    case DeleteClaim(c) => DeleteSettled(cfg, s, c, task, o);
    case _ =>
      if Begins(a) {
        BeginSettled(cfg, s, a, task, o);
      } else {
        OtherSettled(cfg, s, a, task, o);
      }
  }

  /** Once the holder sends no more heartbeats, as the worker ensures by joining its heartbeat
      thread before it completes, a completed claim stays exactly as it is until it runs out. */
  lemma {:induction false} CompletedUntilExpiry(cfg: Config, s: State, actions: seq<Action>, task: string, o: Oid)
    requires GoodConfig(cfg) && Inv(cfg, s) && Settled(s, task, o)
    requires forall a <- actions :: !Renews(cfg, a, task, s.commits[o].lease.producer)
    requires Run(cfg, s, actions).clock < s.commits[o].lease.expiresAt
    ensures Settled(Run(cfg, s, actions), task, o)
    decreases |actions|
  {
    if actions != [] {
      RunClock(cfg, Step(cfg, s, actions[0]), actions[1..]);
      StepKeepsCommits(cfg, s, actions[0], o);
      StepSettled(cfg, s, actions[0], task, o);
      StepInv(cfg, s, actions[0]);
      CompletedUntilExpiry(cfg, Step(cfg, s, actions[0]), actions[1..], task, o);
    }
  }

  // ---------------------------------------------------------------- what a step leaves alone

  /** The task of the claim, result or view that a step is about. */
  function TaskOf(s: State, a: Action): Option<string> {
    match a
    case Observe(_, oid) => if oid in s.commits then Some(s.commits[oid].task) else None
    case Forget(_, task) => Some(task)
    case UploadResult(c) => if s.Doing(c).Uploading? then Some(s.Doing(c).task) else None
    case PushClaim(c, _) => if s.Doing(c).Publishing? then Some(s.Doing(c).task) else None
    case Record(c) => if s.Doing(c).Recording? then Some(s.Doing(c).task) else None
    case DeleteClaim(c) => if s.Doing(c).Pruning? then Some(s.Doing(c).task) else None
    case DeleteResult(c, _) => if s.Doing(c).Discarding? then Some(s.Doing(c).task) else None
    case _ => None
  }

  /** The step touches one task, and of the views only the one its producer has of it; it takes the part of one process,
      and only the passing of time moves the clock. */
  predicate LeavesRest(cfg: Config, s: State, a: Action, producer: string, task: string, d: Client) {
    var s', other := Step(cfg, s, a), TaskOf(s, a) != Some(task);
    && (other ==> s'.Tip(task) == s.Tip(task) && (task in s'.results <==> task in s.results))
    && (other && task in s.results ==> s'.results[task] == s.results[task])
    && (other || a.Tick? || producer != cfg(a.client).producer ==> s'.Seen(producer, task) == s.Seen(producer, task))
    && (a.Tick? || d != a.client ==> s'.Doing(d) == s.Doing(d))
    && s'.clock == s.clock + if a.Tick? then a.seconds else 0
  }

  lemma StepLeavesRest(cfg: Config, s: State, a: Action, producer: string, task: string, d: Client)
    ensures LeavesRest(cfg, s, a, producer, task, d)
  {
    hide AcquireStep, HeartbeatStep, CompleteStep, UploadResultStep, PushClaimStep, RecordStep, PruneStep,
         DeleteClaimStep, DeleteResultStep, ObserveStep, ForgetStep;
    if Begins(a) {
      BeginNow(cfg, s, a);
    } else if Local(a) {
      LocalLeavesRest(cfg, s, a, producer, task, d);
    } else {
      match a
      case DeleteClaim(_) => DeleteClaimLeavesRest(cfg, s, a, producer, task, d);
      case DeleteResult(_, _) => DeleteResultLeavesRest(cfg, s, a, producer, task, d);
      case UploadResult(_) => UploadLeavesRest(cfg, s, a, producer, task, d);
      case PushClaim(_, _) => PushLeavesRest(cfg, s, a, producer, task, d);
      case _ =>
    }
  }

  lemma LocalLeavesRest(cfg: Config, s: State, a: Action, producer: string, task: string, d: Client)
    requires Local(a)
    ensures LeavesRest(cfg, s, a, producer, task, d)
  {
  }

  lemma DeleteClaimLeavesRest(cfg: Config, s: State, a: Action, producer: string, task: string, d: Client)
    requires a.DeleteClaim?
    ensures LeavesRest(cfg, s, a, producer, task, d)
  {
  }

  lemma DeleteResultLeavesRest(cfg: Config, s: State, a: Action, producer: string, task: string, d: Client)
    requires a.DeleteResult?
    ensures LeavesRest(cfg, s, a, producer, task, d)
  {
  }

  lemma UploadLeavesRest(cfg: Config, s: State, a: Action, producer: string, task: string, d: Client)
    requires a.UploadResult?
    ensures LeavesRest(cfg, s, a, producer, task, d)
  {
  }

  lemma PushLeavesRest(cfg: Config, s: State, a: Action, producer: string, task: string, d: Client)
    requires a.PushClaim?
    ensures LeavesRest(cfg, s, a, producer, task, d)
  {
  }

  /** The prune of one claim by an idle process: of a completed claim that has run out, as the catalog shows it, the ref
      is deleted if it is still there, then the result unless its deletion fails, and then the view goes; any other
      claim stays as it is. */
  lemma PruneRemoves(cfg: Config, s: State, c: Client, task: string, removed: bool)
    requires s.Doing(c).Idle?
    ensures var s' := DeleteResultStep(cfg, DeleteClaimStep(PruneStep(cfg, s, c, task), c), c, removed);
      var seen := s.Seen(cfg(c).producer, task);
      && s'.Doing(c).Idle? && s'.commits == s.commits && s'.clock == s.clock
      && if seen.Some? && seen.value.lease.state.Completed? && seen.value.lease.expiresAt <= s.clock
            && s.Tip(task) == Some(seen.value.oid)
         then s'.claims == s.claims - {task} && s'.Seen(cfg(c).producer, task).None?
              && s'.results == if removed then s.results - {task} else s.results
         else s'.claims == s.claims && s'.results == s.results && s'.observed == s.observed
  {
    hide PruneStep, DeleteClaimStep;
    PruneBegins(cfg, s, c, task);
    var begun := PruneStep(cfg, s, c, task);
    DeletesRef(begun, c);
  }

  lemma PruneBegins(cfg: Config, s: State, c: Client, task: string)
    requires s.Doing(c).Idle?
    ensures var seen := s.Seen(cfg(c).producer, task);
      PruneStep(cfg, s, c, task) ==
        if seen.Some? && seen.value.lease.state.Completed? && seen.value.lease.expiresAt <= s.clock
        then s.Now(c, Pruning(task, seen.value.oid)) else s
  {
  }

  lemma DeletesRef(s: State, c: Client)
    requires s.Doing(c).Idle? || s.Doing(c).Pruning?
    ensures var s', doing := DeleteClaimStep(s, c), s.Doing(c);
      && s'.commits == s.commits && s'.results == s.results && s'.observed == s.observed && s'.clock == s.clock
      && if doing.Idle? then s' == s
         else if s.Tip(doing.task) == Some(doing.oid)
         then s'.claims == s.claims - {doing.task} && s'.Doing(c) == Discarding(doing.task)
         else s'.claims == s.claims && s'.Doing(c).Idle?
  {
  }

  // ---------------------------------------------------------------- the state in place

  datatype Reply =
    | Busy | NotClaimed | AlreadyCompleted | ProcessingLocal | ClaimedElsewhere | LeaseLost
    | Proceeding | Rejected

  /** The shared repository and the catalogs that talk to it, updated in place. */
  class Deployment {
    const cfg: Config
    var commits: map<Oid, ClaimCommit>
    var claims: map<string, Oid>
    var results: map<string, string>
    var observed: map<(string, string), View>
    var activity: map<Client, Activity>
    var clock: int

    ghost function Abs(): State
      reads this
    {
      State(commits, claims, results, observed, activity, clock)
    }

    /** What every operation keeps. */
    ghost predicate Good()
      reads this
    {
      GoodConfig(cfg) && Inv(cfg, Abs())
    }

    function Doing(c: Client): Activity
      reads this
    {
      if c in activity then activity[c] else Idle
    }

    constructor (cfg: Config, clock: int)
      ensures Abs() == InitialState(clock) && this.cfg == cfg && (GoodConfig(cfg) ==> Good())
    {
      this.cfg, this.clock := cfg, clock;
      commits, claims, results, observed, activity := map[], map[], map[], map[], map[];
    }

    method RefreshClaim(c: Client, oid: Oid)
      modifies this
      ensures Abs() == ObserveStep(cfg, old(Abs()), c, oid)
      ensures old(Good()) ==> Good()
    {
      hide GoodConfig, Inv;
      KeepsInv(cfg, Abs(), Action.Observe(c, oid));
      if oid in commits {
        observed := observed[(cfg(c).producer, commits[oid].task) := View(oid, commits[oid].lease)];
      }
    }

    method ForgetView(c: Client, task: string)
      modifies this
      ensures Abs() == ForgetStep(cfg, old(Abs()), c, task)
      ensures old(Good()) ==> Good()
    {
      hide GoodConfig, Inv;
      KeepsInv(cfg, Abs(), Action.Forget(c, task));
      observed := observed - {(cfg(c).producer, task)};
    }

    method Acquire(c: Client, task: string) returns (reply: Reply)
      modifies this
      ensures Abs() == AcquireStep(cfg, old(Abs()), c, task)
      ensures old(Good()) ==> Good()
      ensures reply.Proceeding? <==> Abs() != old(Abs())
      ensures reply.ProcessingLocal? <==> IsOwn(cfg, old(Abs()), c, task)
      ensures var seen := old(Abs()).Seen(cfg(c).producer, task);
        && (reply.AlreadyCompleted? <==> old(Doing(c)).Idle? && seen.Some? && seen.value.lease.state.Completed?)
        && (reply.ClaimedElsewhere? ==> seen.Some? && seen.value.lease.producer != cfg(c).producer)
    {
      hide GoodConfig, Inv;
      KeepsInv(cfg, Abs(), Action.Acquire(c, task));
      if !Doing(c).Idle? {
        return Busy;
      }
      var expected: Option<Oid> := None;
      var key := (cfg(c).producer, task);
      if key in observed {
        var existing := observed[key];
        if existing.lease.state.Completed? {
          return AlreadyCompleted;
        }
        if clock <= existing.lease.expiresAt + cfg(c).graceSeconds {
          return if existing.lease.producer == cfg(c).producer then ProcessingLocal else ClaimedElsewhere;
        }
        expected := Some(existing.oid);
      }
      var lease := Lease(cfg(c).producer, Processing, clock, clock + cfg(c).leaseSeconds, 0, None);
      activity := activity[c := Publishing(task, expected, lease)];
      assert old(Abs()).Doing(c) != Abs().Doing(c);
      return Proceeding;
    }

    method Heartbeat(c: Client, task: string) returns (reply: Reply)
      modifies this
      ensures Abs() == HeartbeatStep(cfg, old(Abs()), c, task)
      ensures old(Good()) ==> Good()
      ensures reply.Proceeding? <==> Abs() != old(Abs())
    {
      hide GoodConfig, Inv;
      KeepsInv(cfg, Abs(), Action.Heartbeat(c, task));
      var key := (cfg(c).producer, task);
      if key !in observed {
        return NotClaimed;
      }
      var existing := observed[key];
      if existing.lease.producer != cfg(c).producer {
        return ClaimedElsewhere;
      }
      if !Doing(c).Idle? {
        return Busy;
      }
      var lease := existing.lease;
      lease := lease.(state := Processing);
      lease := lease.(expiresAt := clock + cfg(c).leaseSeconds);
      lease := lease.(heartbeats := lease.heartbeats + 1);
      activity := activity[c := Publishing(task, Some(existing.oid), lease)];
      assert old(Abs()).Doing(c) != Abs().Doing(c);
      return Proceeding;
    }

    method Complete(c: Client, task: string, fact: string) returns (reply: Reply)
      modifies this
      ensures Abs() == CompleteStep(cfg, old(Abs()), c, task, fact)
      ensures old(Good()) ==> Good()
      ensures reply.Proceeding? <==> Abs() != old(Abs())
    {
      hide GoodConfig, Inv;
      KeepsInv(cfg, Abs(), Action.Complete(c, task, fact));
      var key := (cfg(c).producer, task);
      if key !in observed {
        return NotClaimed;
      }
      if observed[key].lease.producer != cfg(c).producer {
        return LeaseLost;
      }
      if !Doing(c).Idle? {
        return Busy;
      }
      activity := activity[c := Uploading(task, observed[key], fact)];
      assert old(Abs()).Doing(c) != Abs().Doing(c);
      return Proceeding;
    }

    method PublishResult(c: Client) returns (reply: Reply)
      modifies this
      ensures Abs() == UploadResultStep(old(Abs()), c)
      ensures old(Good()) ==> Good()
      ensures reply.Proceeding? <==> old(Doing(c)).Uploading? && old(Doing(c)).task !in old(results)
    {
      hide GoodConfig, Inv;
      KeepsInv(cfg, Abs(), Action.UploadResult(c));
      match Doing(c)
      case Uploading(task, view, fact) =>
        if task in results {
          activity := activity[c := Idle];
          return Rejected;
        }
        results := results[task := fact];
        var lease := view.lease.(state := Completed, resultId := Some(fact));
        lease := lease.(expiresAt := clock + COMPLETED_LEASE_SECONDS);
        activity := activity[c := Publishing(task, Some(view.oid), lease)];
        return Proceeding;
      case _ =>
        return Busy;
    }

    method Publish(c: Client, oid: Oid) returns (reply: Reply)
      modifies this
      ensures Abs() == PushClaimStep(old(Abs()), c, oid)
      ensures old(Good()) ==> Good()
      ensures reply.Proceeding? <==> commits != old(commits)
    {
      hide GoodConfig, Inv, AcquireStep, HeartbeatStep, CompleteStep, UploadResultStep, RecordStep, PruneStep,
           DeleteClaimStep, DeleteResultStep, ObserveStep, ForgetStep;
      KeepsInv(cfg, Abs(), Action.PushClaim(c, oid));
      match Doing(c)
      case Publishing(task, expected, lease) =>
        if oid in commits {
          return Busy;
        }
        if (task in claims) != expected.Some? || (task in claims && claims[task] != expected.value) {
          activity := activity[c := Idle];
          return Rejected;
        }
        commits := commits[oid := ClaimCommit(task, lease, expected, c)];
        assert oid in commits && oid !in old(commits);
        claims := claims[task := oid];
        activity := activity[c := Recording(task, View(oid, lease))];
        return Proceeding;
      case _ =>
        return Busy;
    }

    method ObserveOwnClaim(c: Client)
      modifies this
      ensures Abs() == RecordStep(cfg, old(Abs()), c)
      ensures old(Good()) ==> Good()
    {
      hide GoodConfig, Inv;
      KeepsInv(cfg, Abs(), Action.Record(c));
      match Doing(c)
      case Recording(task, view) =>
        observed := observed[(cfg(c).producer, task) := view];
        activity := activity[c := Idle];
      case _ =>
    }

    method BeginPrune(c: Client, task: string)
      modifies this
      ensures Abs() == PruneStep(cfg, old(Abs()), c, task)
      ensures old(Good()) ==> Good()
    {
      hide GoodConfig, Inv;
      KeepsInv(cfg, Abs(), Action.Prune(c, task));
      var key := (cfg(c).producer, task);
      if key in observed && Doing(c).Idle? {
        var claim := observed[key];
        if claim.lease.state.Completed? && claim.lease.expiresAt <= clock {
          activity := activity[c := Pruning(task, claim.oid)];
        }
      }
    }

    method DeleteClaim(c: Client)
      modifies this
      ensures Abs() == DeleteClaimStep(old(Abs()), c)
      ensures old(Good()) ==> Good()
    {
      hide GoodConfig, Inv;
      KeepsInv(cfg, Abs(), Action.DeleteClaim(c));
      match Doing(c)
      case Pruning(task, oid) =>
        if task in claims && claims[task] == oid {
          claims := claims - {task};
          activity := activity[c := Discarding(task)];
        } else {
          activity := activity[c := Idle];
        }
      case _ =>
    }

    method DeleteResult(c: Client, removed: bool)
      modifies this
      ensures Abs() == DeleteResultStep(cfg, old(Abs()), c, removed)
      ensures old(Good()) ==> Good()
    {
      hide GoodConfig, Inv;
      KeepsInv(cfg, Abs(), Action.DeleteResult(c, removed));
      match Doing(c)
      case Discarding(task) =>
        if removed {
          results := results - {task};
        }
        observed := observed - {(cfg(c).producer, task)};
        activity := activity[c := Idle];
      case _ =>
    }

    /** Any step of the deployment, by whichever process. */
    method Perform(a: Action)
      modifies this
      ensures Abs() == Step(cfg, old(Abs()), a)
      ensures old(Good()) ==> Good()
    {
      hide GoodConfig, Inv, ObserveStep, ForgetStep, AcquireStep, HeartbeatStep, CompleteStep, UploadResultStep,
           PushClaimStep, RecordStep, PruneStep, DeleteClaimStep, DeleteResultStep;
      KeepsInv(cfg, Abs(), a);
      match a
      case Tick(seconds) => clock := clock + seconds;
      case Observe(c, oid) => RefreshClaim(c, oid);
      case Forget(c, task) => ForgetView(c, task);
      case Acquire(c, task) => var _ := Acquire(c, task);
      case Heartbeat(c, task) => var _ := Heartbeat(c, task);
      case Complete(c, task, fact) => var _ := Complete(c, task, fact);
      case UploadResult(c) => var _ := PublishResult(c);
      case PushClaim(c, oid) => var _ := Publish(c, oid);
      case Record(c) => ObserveOwnClaim(c);
      case Prune(c, task) => BeginPrune(c, task);
      case DeleteClaim(c) => DeleteClaim(c);
      case DeleteResult(c, removed) => DeleteResult(c, removed);
      case Stop(c) => activity := activity[c := Idle];
    }
  }
}
