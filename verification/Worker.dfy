/** The background worker: how run_task uses the coordinator, and what its order guarantees.

    A worker acquires a task, renews its claim from a heartbeat thread while the extractor runs, joins
    that thread, and only then completes the claim.  Every call of the coordinator begins with a fetch and
    records what it fetched before it looks at the claim; other processes run in between. */
module Worker {
  import opened Options
  import opened Coordination

  /** Where a process is in run_task: it has asked for the claim, works with heartbeats, or has joined them. */
  datatype Phase = Resting | Asking(task: string) | Working(task: string) | Joined(task: string)

  /** What a call of the coordinator fetches for: to acquire a task, to renew or complete the claim of one, or only to
      synchronize.  For the second it fetches one ref, otherwise all. */
  datatype Purpose = ForAcquire(task: string) | ForRefresh(task: string) | ForSync

  function FetchedFor(purpose: Purpose, claims: map<string, Oid>): map<string, Oid> {
    if !purpose.ForRefresh? then claims
    else if purpose.task in claims then map[purpose.task := claims[purpose.task]] else map[]
  }

  /** A call before it looks at the claim: the claim refs it has fetched and not yet recorded, and the tasks whose
      view it has brought up to date. */
  datatype Call = Call(purpose: Purpose, fetched: map<string, Oid>, synced: set<string>)

  /** `facts` holds the tasks whose fact a producer's catalog has. */
  datatype World = World(s: State, phases: map<Client, Phase>, calls: map<Client, Call>, facts: set<(string, string)>)
  {
    function Phase(c: Client): Phase {
      if c in phases then phases[c] else Resting
    }

    function To(c: Client, phase: Phase): World {
      this.(phases := phases[c := phase])
    }

    predicate HasFetched(c: Client, task: string, oid: Oid) {
      c in calls && task in calls[c].fetched && calls[c].fetched[task] == oid
    }

    predicate HasSynced(c: Client, task: string) {
      c in calls && task in calls[c].synced
    }

    predicate Syncs(c: Client) {
      c in calls && !calls[c].purpose.ForRefresh?
    }

    predicate Asks(c: Client, task: string) {
      c in calls && calls[c].purpose == ForAcquire(task)
    }
  }

  /** A step of the deployment, the fetch that begins a call, its return, the join of a heartbeat thread, the end of
      run_task, and what the bounded fact cache of a producer stores and evicts. */
  datatype Move =
    | Coordinate(action: Action)
    | Fetch(client: Client, purpose: Purpose)
    | Return(client: Client)
    | Join(client: Client)
    | Leave(client: Client)
    | Cache(producer: string, task: string)
    | Evict(producer: string, task: string)

  function PhaseAfter(cfg: Config, w: World, a: Action): World {
    match a
    case Acquire(c, task) =>
      if IsOwn(cfg, w.s, c, task) then w.To(c, Working(task))
      else if AcquireStep(cfg, w.s, c, task) != w.s then w.To(c, Asking(task))
      else w
    case Record(c) =>
      if w.Phase(c).Asking? && w.s.Doing(c).Recording? && w.s.Doing(c).task == w.Phase(c).task
      then w.To(c, Working(w.Phase(c).task)) else w
    case _ => w
  }

  /** Whoever publishes a result stores its fact. */
  function FactsAfter(cfg: Config, w: World, a: Action): set<(string, string)> {
    match a
    case UploadResult(c) =>
      if w.s.Doing(c).Uploading? && w.s.Doing(c).task !in w.s.results
      then w.facts + {(cfg(c).producer, w.s.Doing(c).task)} else w.facts
    case _ => w.facts
  }

  /** A claim is recorded or forgotten once in a call, and a call that has looked at the claim does not record any
      more of what it fetched. */
  function CallsAfter(w: World, a: Action): map<Client, Call> {
    match a
    case Observe(c, oid) =>
      if c in w.calls && oid in w.s.commits then
        var task := w.s.commits[oid].task;
        w.calls[c := w.calls[c].(fetched := w.calls[c].fetched - {task}, synced := w.calls[c].synced + {task})]
      else w.calls
    case Forget(c, task) =>
      if c in w.calls then w.calls[c := w.calls[c].(synced := w.calls[c].synced + {task})] else w.calls
    case Acquire(c, _) => w.calls - {c}
    case Heartbeat(c, _) => w.calls - {c}
    case Complete(c, _, _) => w.calls - {c}
    case Stop(c) => w.calls - {c}
    case _ => w.calls
  }

  function Next(cfg: Config, w: World, m: Move): World {
    match m
    case Coordinate(a) =>
      PhaseAfter(cfg, w, a).(s := Step(cfg, w.s, a), calls := CallsAfter(w, a), facts := FactsAfter(cfg, w, a))
    case Fetch(c, purpose) => w.(calls := w.calls[c := Call(purpose, FetchedFor(purpose, w.s.claims), {})])
    case Return(c) => w.(calls := w.calls - {c})
    case Join(c) => if w.Phase(c).Working? then w.To(c, Joined(w.Phase(c).task)) else w
    case Leave(c) => w.To(c, Resting).(calls := w.calls - {c})
    case Cache(producer, task) => w.(facts := w.facts + {(producer, task)})
    case Evict(producer, task) => w.(facts := w.facts - {(producer, task)})
  }

  /** The order of run_task and of the calls.  An acquire has synchronized the task, and a known fact answers it before
      the claim is looked at; a claim is recorded as the call has fetched it, and forgotten and pruned only by a sync;
      the join waits for the heartbeat under way. */
  predicate Allowed(cfg: Config, w: World, m: Move) {
    match m
    case Coordinate(Acquire(c, task)) =>
      && w.Phase(c).Resting? && w.s.Doing(c).Idle? && w.Asks(c, task) && w.HasSynced(c, task)
      && (cfg(c).producer, task) !in w.facts
    case Coordinate(Heartbeat(c, task)) => w.Phase(c) == Working(task) && w.s.Doing(c).Idle?
    case Coordinate(Complete(c, task, _)) => w.Phase(c) == Joined(task) && w.s.Doing(c).Idle?
    case Coordinate(Observe(c, oid)) => oid in w.s.commits ==> w.HasFetched(c, w.s.commits[oid].task, oid)
    case Coordinate(Forget(c, task)) => w.Syncs(c) && task !in w.calls[c].fetched && !w.HasSynced(c, task)
    case Coordinate(Prune(c, _)) => w.Syncs(c)
    case Fetch(c, purpose) =>
      && w.s.Doing(c).Idle? && (purpose.ForAcquire? ==> w.Phase(c).Resting?)
      && (purpose.ForRefresh? ==> w.Phase(c) == Working(purpose.task) || w.Phase(c) == Joined(purpose.task))
    case Return(c) => w.s.Doing(c).Idle?
    case Join(c) => w.s.Doing(c).Idle? && c !in w.calls
    case Leave(c) => w.s.Doing(c).Idle?
    case _ => true
  }

  function Moves(cfg: Config, w: World, moves: seq<Move>): World
    decreases |moves|
  {
    if moves == [] then w else Moves(cfg, Next(cfg, w, moves[0]), moves[1..])
  }

  predicate AllAllowed(cfg: Config, w: World, moves: seq<Move>)
    decreases |moves|
  {
    moves == [] || (Allowed(cfg, w, moves[0]) && AllAllowed(cfg, Next(cfg, w, moves[0]), moves[1..]))
  }

  /** Before it looks at the claim a call does nothing but prune, and only a resting process acquires. */
  ghost predicate InOrder(w: World) {
    forall c <- w.calls ::
      && (w.s.Doing(c).Idle? || w.s.Doing(c).Pruning? || w.s.Doing(c).Discarding?)
      && (w.calls[c].purpose.ForAcquire? ==> w.Phase(c).Resting?)
  }

  lemma MoveInOrder(cfg: Config, w: World, m: Move)
    requires InOrder(w) && Allowed(cfg, w, m)
    ensures InOrder(Next(cfg, w, m))
  {
    var w' := Next(cfg, w, m);
    forall c <- w'.calls
      ensures w'.s.Doing(c).Idle? || w'.s.Doing(c).Pruning? || w'.s.Doing(c).Discarding?
      ensures w'.calls[c].purpose.ForAcquire? ==> w'.Phase(c).Resting?
    {
      if m.Coordinate? {
        CallOfStep(cfg, w, m.action, c);
      }
    }
  }

  lemma CallOfStep(cfg: Config, w: World, a: Action, c: Client)
    requires InOrder(w) && Allowed(cfg, w, Coordinate(a)) && c in CallsAfter(w, a)
    ensures var w', next := Next(cfg, w, Coordinate(a)), Step(cfg, w.s, a).Doing(c);
      && (next.Idle? || next.Pruning? || next.Discarding?)
      && c in w.calls && w'.calls[c].purpose == w.calls[c].purpose && w'.Phase(c) == w.Phase(c)
  {
    CallKeepsPruning(cfg, w, a, c);
    hide Step, FactsAfter;
  }

  lemma CallKeepsPruning(cfg: Config, w: World, a: Action, c: Client)
    requires InOrder(w) && c in CallsAfter(w, a)
    ensures var next := Step(cfg, w.s, a).Doing(c); next.Idle? || next.Pruning? || next.Discarding?
  {
    assert c in w.calls;
    if a.Tick? || a.client != c {
      OthersGoOn(cfg, w.s, a, c);
    } else {
      PruningGoesOn(cfg, w.s, a);
    }
    hide Step;
  }

  lemma OthersGoOn(cfg: Config, s: State, a: Action, c: Client)
    requires a.Tick? || a.client != c
    ensures Step(cfg, s, a).Doing(c) == s.Doing(c)
  {
  }

  lemma PruningGoesOn(cfg: Config, s: State, a: Action)
    requires !a.Tick? && !a.Acquire? && !a.Heartbeat? && !a.Complete?
    requires s.Doing(a.client).Idle? || s.Doing(a.client).Pruning? || s.Doing(a.client).Discarding?
    ensures var next := Step(cfg, s, a).Doing(a.client); next.Idle? || next.Pruning? || next.Discarding?
  {
    hide AcquireStep, HeartbeatStep, CompleteStep;
  }

  // ---------------------------------------------------------------- completed claims

  /** A process works on the task, or is about to: its acquire was accepted and only has to be recorded. */
  predicate AtWork(w: World, c: Client, task: string) {
    || w.Phase(c) == Working(task)
    || (w.Phase(c) == Asking(task) && w.s.Doing(c).Recording? && w.s.Doing(c).task == task)
  }

  /** With this view an acquire answers that the own claim is unexpired. */
  predicate OwnView(o: Settings, v: View, now: int) {
    v.lease.state.Processing? && v.lease.producer == o.producer && now <= v.lease.expiresAt + o.graceSeconds
  }

  /** The process has synchronized the task for its acquire, and finds an unexpired claim of its own. */
  predicate HoldsOwn(cfg: Config, w: World, c: Client, task: string) {
    && w.Asks(c, task) && w.HasSynced(c, task)
    && var seen := w.s.Seen(cfg(c).producer, task); seen.Some? && OwnView(cfg(c), seen.value, w.s.clock)
  }

  /** The process has pushed the view, or fetched it in its call under way, and is yet to record it. */
  predicate YetToRecord(w: World, d: Client, task: string, v: View) {
    || w.s.Doing(d) == Recording(task, v)
    || (v.oid in w.s.commits && w.s.commits[v.oid].lease == v.lease && w.s.commits[v.oid].task == task
        && w.HasFetched(d, task, v.oid))
  }

  /** An unexpired view of its own can come between the sync of the process and its look at the claim: a process of its
      producer is yet to record one, another one or the process itself in its sync. */
  ghost predicate MayHoldOwn(cfg: Config, w: World, c: Client, task: string) {
    exists d, v ::
      && cfg(d).producer == cfg(c).producer && YetToRecord(w, d, task, v) && OwnView(cfg(c), v, w.s.clock)
      && (d != c || w.Asks(c, task))
  }

  ghost predicate MayWork(cfg: Config, w: World, c: Client, task: string) {
    AtWork(w, c, task) || HoldsOwn(cfg, w, c, task) || MayHoldOwn(cfg, w, c, task)
  }

  /** Some process of the producer is at work on the task, or can take the claim for an unexpired one of its own. */
  ghost predicate StillClaimed(cfg: Config, w: World, task: string, producer: string) {
    exists c :: cfg(c).producer == producer && MayWork(cfg, w, c, task)
  }

  lemma SettledIsTip(s: State, task: string, o: Oid)
    requires Settled(s, task, o)
    ensures s.Tip(task) == Some(o) && o in s.commits && s.commits[o].lease.state.Completed?
  {
  }

  /** While a claim is settled nobody gets to record another one of the task. */
  lemma RecordingStays(cfg: Config, s: State, a: Action, task: string, o: Oid, d: Client)
    requires Settled(s, task, o)
    ensures var next := Step(cfg, s, a).Doing(d);
      next.Recording? && next.task == task ==> next == s.Doing(d)
  {
  }

  /** No processing lease of the task comes into the world. */
  lemma CommitsStay(cfg: Config, s: State, a: Action, task: string, o: Oid, oid: Oid)
    requires Settled(s, task, o)
    ensures var s' := Step(cfg, s, a);
      oid in s'.commits && s'.commits[oid].task == task ==> oid in s.commits && s.commits[oid] == s'.commits[oid]
  {
  }

  /** What a step lets a producer see of the task is what it saw or what the process was yet to record. */
  lemma SeenWasPending(cfg: Config, w: World, a: Action, producer: string, task: string)
    requires Allowed(cfg, w, Coordinate(a)) && !a.Tick?
    ensures var seen := Step(cfg, w.s, a).Seen(producer, task);
      seen == w.s.Seen(producer, task) || seen.None?
      || (cfg(a.client).producer == producer && YetToRecord(w, a.client, task, seen.value))
  {
  }

  /** A step neither fetches anything nor changes what a call is for. */
  lemma CallStays(cfg: Config, w: World, a: Action, c: Client, task: string)
    ensures var w' := Next(cfg, w, Coordinate(a));
      && (w'.Asks(c, task) ==> w.Asks(c, task))
      && (forall oid :: w'.HasFetched(c, task, oid) ==> w.HasFetched(c, task, oid))
  {
    hide Step, PhaseAfter, FactsAfter;
  }

  lemma PendingStays(cfg: Config, w: World, a: Action, task: string, o: Oid, d: Client, v: View)
    requires Settled(w.s, task, o)
    ensures YetToRecord(Next(cfg, w, Coordinate(a)), d, task, v) ==> YetToRecord(w, d, task, v)
  {
    RecordingStays(cfg, w.s, a, task, o, d);
    CommitsStay(cfg, w.s, a, task, o, v.oid);
    CallStays(cfg, w, a, d, task);
    hide Settled, Step, PhaseAfter, FactsAfter, CallsAfter;
  }

  /** A call only brings the task up to date with what it has fetched. */
  lemma SyncedWas(cfg: Config, w: World, a: Action, c: Client, task: string)
    requires Allowed(cfg, w, Coordinate(a)) && Next(cfg, w, Coordinate(a)).HasSynced(c, task) && !w.HasSynced(c, task)
    ensures var seen := Step(cfg, w.s, a).Seen(cfg(c).producer, task);
      seen.Some? ==> YetToRecord(w, c, task, seen.value)
  {
  }

  lemma HeldWas(cfg: Config, w: World, m: Move, task: string, c: Client)
    requires Allowed(cfg, w, m) && HoldsOwn(cfg, Next(cfg, w, m), c, task) && w.s.clock <= Next(cfg, w, m).s.clock
    ensures HoldsOwn(cfg, w, c, task) || MayHoldOwn(cfg, w, c, task)
  {
    hide Step, YetToRecord, PhaseAfter, FactsAfter, CallsAfter;
    var w', producer := Next(cfg, w, m), cfg(c).producer;
    var v := w'.s.Seen(producer, task).value;
    if m.Coordinate? {
      CallStays(cfg, w, m.action, c, task);
      if !w.HasSynced(c, task) {
        SyncedWas(cfg, w, m.action, c, task);
        assert YetToRecord(w, c, task, v) && OwnView(cfg(c), v, w.s.clock);
      } else if !m.action.Tick? {
        SeenWasPending(cfg, w, m.action, producer, task);
        if w.s.Seen(producer, task) != Some(v) {
          assert YetToRecord(w, m.action.client, task, v) && OwnView(cfg(c), v, w.s.clock);
        }
      } else {
        TickSeesNothing(cfg, w.s, m.action);
      }
    }
  }

  lemma TickSeesNothing(cfg: Config, s: State, a: Action)
    requires a.Tick?
    ensures Step(cfg, s, a).observed == s.observed
  {
  }

  lemma MayHoldWas(cfg: Config, w: World, m: Move, task: string, o: Oid, c: Client)
    requires Settled(w.s, task, o) && Allowed(cfg, w, m) && MayHoldOwn(cfg, Next(cfg, w, m), c, task)
    requires w.s.clock <= Next(cfg, w, m).s.clock
    ensures MayHoldOwn(cfg, w, c, task)
  {
    SettledIsTip(w.s, task, o);
    hide Settled, Step, PhaseAfter, FactsAfter, CallsAfter;
    var w' := Next(cfg, w, m);
    var d, v :| && cfg(d).producer == cfg(c).producer && YetToRecord(w', d, task, v) && OwnView(cfg(c), v, w'.s.clock)
                && (d != c || w'.Asks(c, task));
    if m.Coordinate? {
      PendingStays(cfg, w, m.action, task, o, d, v);
      CallStays(cfg, w, m.action, c, task);
    }
    assert YetToRecord(w, d, task, v) && OwnView(cfg(c), v, w.s.clock);
  }

  lemma WorkWas(cfg: Config, w: World, m: Move, task: string, o: Oid, c: Client)
    requires Settled(w.s, task, o) && Allowed(cfg, w, m) && AtWork(Next(cfg, w, m), c, task)
    ensures AtWork(w, c, task) || HoldsOwn(cfg, w, c, task)
  {
    if m.Coordinate? {
      RecordingStays(cfg, w.s, m.action, task, o, c);
      hide Settled, CallsAfter, FactsAfter;
    }
  }

  lemma MoveKeepsSettled(cfg: Config, w: World, m: Move, task: string, o: Oid)
    requires GoodConfig(cfg) && Inv(cfg, w.s) && Settled(w.s, task, o) && Allowed(cfg, w, m)
    requires !StillClaimed(cfg, w, task, w.s.commits[o].lease.producer)
    requires Next(cfg, w, m).s.clock < w.s.commits[o].lease.expiresAt
    ensures Settled(Next(cfg, w, m).s, task, o) && Next(cfg, w, m).s.commits[o] == w.s.commits[o]
    ensures !StillClaimed(cfg, Next(cfg, w, m), task, w.s.commits[o].lease.producer)
  {
    SettledIsTip(w.s, task, o);
    hide Settled, Inv, Step, StillClaimed, AtWork, HoldsOwn, MayHoldOwn;
    var producer, w' := w.s.commits[o].lease.producer, Next(cfg, w, m);
    MoveInv(cfg, w, m);
    if m.Coordinate? {
      assert !Renews(cfg, m.action, task, producer) by {
        NobodyBeats(cfg, w, m.action, task, producer);
      }
      InvParts(cfg, w.s);
      StepKeepsCommits(cfg, w.s, m.action, o);
      StepSettled(cfg, w.s, m.action, task, o);
    }
    forall c | cfg(c).producer == producer
      ensures !MayWork(cfg, w', c, task)
    {
      NobodyWorks(cfg, w, c, task, producer);
      if AtWork(w', c, task) {
        WorkWas(cfg, w, m, task, o, c);
      } else if HoldsOwn(cfg, w', c, task) {
        HeldWas(cfg, w, m, task, c);
      } else if MayHoldOwn(cfg, w', c, task) {
        MayHoldWas(cfg, w, m, task, o, c);
      }
    }
    NobodyAtAll(cfg, w', task, producer);
  }

  lemma InvParts(cfg: Config, s: State)
    requires Inv(cfg, s)
    ensures Chained(cfg, s) && Backed(s)
  {
  }

  lemma NobodyWorks(cfg: Config, w: World, c: Client, task: string, producer: string)
    requires !StillClaimed(cfg, w, task, producer) && cfg(c).producer == producer
    ensures !MayWork(cfg, w, c, task)
  {
  }

  lemma NobodyAtAll(cfg: Config, w: World, task: string, producer: string)
    requires forall c | cfg(c).producer == producer :: !MayWork(cfg, w, c, task)
    ensures !StillClaimed(cfg, w, task, producer)
  {
  }

  lemma NobodyBeats(cfg: Config, w: World, a: Action, task: string, producer: string)
    requires Allowed(cfg, w, Coordinate(a)) && !StillClaimed(cfg, w, task, producer)
    ensures !Renews(cfg, a, task, producer)
  {
    hide HoldsOwn, MayHoldOwn;
    if Renews(cfg, a, task, producer) {
      NobodyWorks(cfg, w, a.client, task, producer);
    }
  }

  lemma MoveInv(cfg: Config, w: World, m: Move)
    requires GoodConfig(cfg) && Inv(cfg, w.s)
    ensures Inv(cfg, Next(cfg, w, m).s) && w.s.clock <= Next(cfg, w, m).s.clock
  {
    hide Inv, Step;
    if m.Coordinate? {
      StepInv(cfg, w.s, m.action);
      StepClock(cfg, w.s, m.action);
    }
  }

  lemma {:induction false} MovesClock(cfg: Config, w: World, moves: seq<Move>)
    requires GoodConfig(cfg) && Inv(cfg, w.s)
    ensures w.s.clock <= Moves(cfg, w, moves).s.clock
    decreases |moves|
  {
    hide Inv, Next;
    if moves != [] {
      MoveInv(cfg, w, moves[0]);
      MovesClock(cfg, Next(cfg, w, moves[0]), moves[1..]);
    }
  }

  /** When nobody of its producer is at work or can get to work, a completed claim stays until it runs out. */
  lemma {:induction false} CompletedStays(cfg: Config, w: World, moves: seq<Move>, task: string, o: Oid)
    requires GoodConfig(cfg) && Inv(cfg, w.s) && Settled(w.s, task, o)
    requires !StillClaimed(cfg, w, task, w.s.commits[o].lease.producer)
    requires AllAllowed(cfg, w, moves) && Moves(cfg, w, moves).s.clock < w.s.commits[o].lease.expiresAt
    ensures Settled(Moves(cfg, w, moves).s, task, o)
    decreases |moves|
  {
    SettledIsTip(w.s, task, o);
    hide Inv, Next, Settled, Allowed, StillClaimed;
    if moves != [] {
      var w' := Next(cfg, w, moves[0]);
      MoveInv(cfg, w, moves[0]);
      MovesClock(cfg, w', moves[1..]);
      MoveKeepsSettled(cfg, w, moves[0], task, o);
      CompletedStays(cfg, w', moves[1..], task, o);
    }
  }

  // ---------------------------------------------------------------- reopened claims

  /** Some moves take the claim away from the completed commit at once. */
  ghost predicate Reopens(cfg: Config, w: World, task: string, o: Oid) {
    exists moves ::
      && AllAllowed(cfg, w, moves) && Moves(cfg, w, moves).s.clock == w.s.clock
      && Moves(cfg, w, moves).s.Tip(task) != Some(o)
  }

  lemma ReopensAfter(cfg: Config, w: World, m: Move, task: string, o: Oid)
    requires Allowed(cfg, w, m) && Next(cfg, w, m).s.clock == w.s.clock && Reopens(cfg, Next(cfg, w, m), task, o)
    ensures Reopens(cfg, w, task, o)
  {
    hide Allowed, Next;
    var rest :| && AllAllowed(cfg, Next(cfg, w, m), rest) && Moves(cfg, Next(cfg, w, m), rest).s.clock == w.s.clock
                && Moves(cfg, Next(cfg, w, m), rest).s.Tip(task) != Some(o);
    var moves := [m] + rest;
    assert moves[0] == m && moves[1..] == rest;
    assert Moves(cfg, w, moves) == Moves(cfg, Next(cfg, w, m), rest);
    assert AllAllowed(cfg, w, moves);
  }

  lemma ReopensNow(cfg: Config, w: World, task: string, o: Oid)
    requires w.s.Tip(task) != Some(o)
    ensures Reopens(cfg, w, task, o)
  {
    assert Moves(cfg, w, []) == w && AllAllowed(cfg, w, []);
  }

  lemma {:induction false} FreshOid(commits: set<Oid>) returns (oid: Oid)
    ensures forall o <- commits :: o < oid
    decreases |commits|
  {
    if commits == {} {
      oid := 0;
    } else {
      var o :| o in commits;
      var rest := FreshOid(commits - {o});
      oid := if o < rest then rest else o + 1;
      assert commits == (commits - {o}) + {o};
    }
  }

  /** The claim of the task stands at the commit of a producer. */
  predicate StandsAt(s: State, task: string, o: Oid, producer: string) {
    s.Tip(task) == Some(o) && o in s.commits && s.commits[o].task == task && s.commits[o].lease.producer == producer
  }

  /** A process at work renews the claim that it sees. */
  lemma SeenClaimReopens(cfg: Config, w: World, task: string, o: Oid, d: Client)
    requires StandsAt(w.s, task, o, cfg(d).producer) && w.Phase(d) == Working(task) && w.s.Doing(d).Idle?
    requires w.s.Seen(cfg(d).producer, task) == Some(View(o, w.s.commits[o].lease))
    ensures Reopens(cfg, w, task, o)
  {
    var oid := FreshOid(w.s.commits.Keys);
    var beat, push := Coordinate(Heartbeat(d, task)), Coordinate(PushClaim(d, oid));
    var lease := RenewedLease(cfg(d), w.s.commits[o].lease, w.s.clock);
    hide Reopens, AllAllowed, Moves;
    var w1 := Next(cfg, w, beat);
    assert w1.s == w.s.Now(d, Publishing(task, Some(o), lease));
    AfterPush(cfg, w1.s, d, oid, task, Some(o), lease);
    ReopensNow(cfg, Next(cfg, w1, push), task, o);
    ReopensAfter(cfg, w1, push, task, o);
    ReopensAfter(cfg, w, beat, task, o);
  }

  /** A process at work fetches the completed claim and renews it. */
  lemma LateHeartbeatReopens(cfg: Config, w: World, task: string, o: Oid, d: Client)
    requires StandsAt(w.s, task, o, cfg(d).producer) && w.Phase(d) == Working(task)
    ensures Reopens(cfg, w, task, o)
  {
    var stop, fetch, see := Coordinate(Stop(d)), Fetch(d, ForRefresh(task)), Coordinate(Observe(d, o));
    hide Reopens, AcquireStep, CompleteStep, HeartbeatStep, UploadResultStep, PushClaimStep, RecordStep, PruneStep,
         DeleteClaimStep, DeleteResultStep, ForgetStep, FactsAfter;
    var w1 := Next(cfg, w, stop);
    assert w1.s == w.s.Now(d, Idle);
    var w2 := Next(cfg, w1, fetch);
    SeenClaimReopens(cfg, Next(cfg, w2, see), task, o, d);
    ReopensAfter(cfg, w2, see, task, o);
    ReopensAfter(cfg, w1, fetch, task, o);
    ReopensAfter(cfg, w, stop, task, o);
  }

  /** A process records an acquire that was accepted before the completion, and works. */
  lemma LateRecordReopens(cfg: Config, w: World, task: string, o: Oid, d: Client)
    requires StandsAt(w.s, task, o, cfg(d).producer)
    requires w.Phase(d) == Asking(task) && w.s.Doing(d).Recording? && w.s.Doing(d).task == task
    ensures Reopens(cfg, w, task, o)
  {
    hide Reopens;
    var record := Coordinate(Record(d));
    LateHeartbeatReopens(cfg, Next(cfg, w, record), task, o, d);
    ReopensAfter(cfg, w, record, task, o);
  }

  /** The process does not prune the task at hand. */
  predicate PrunesElse(s: State, c: Client, task: string, o: Oid) {
    match s.Doing(c)
    case Idle => true
    case Pruning(other, oid) => other != task || oid != o
    case Discarding(other) => other != task
    case _ => false
  }

  /** An acquire that has synchronized the task looks at an unexpired own claim once the fact has left the cache. */
  lemma HeldIdleReopens(cfg: Config, w: World, task: string, o: Oid, c: Client)
    requires StandsAt(w.s, task, o, cfg(c).producer) && HoldsOwn(cfg, w, c, task)
    requires w.Phase(c).Resting? && w.s.Doing(c).Idle?
    ensures Reopens(cfg, w, task, o)
  {
    hide Reopens;
    var evict, acquire := Evict(cfg(c).producer, task), Coordinate(Acquire(c, task));
    var w1 := Next(cfg, w, evict);
    LateHeartbeatReopens(cfg, Next(cfg, w1, acquire), task, o, c);
    ReopensAfter(cfg, w1, acquire, task, o);
    ReopensAfter(cfg, w, evict, task, o);
  }

  /** The sync may have to finish its pruning of another task first. */
  lemma {:induction false} HeldReopens(cfg: Config, w: World, task: string, o: Oid, c: Client)
    requires StandsAt(w.s, task, o, cfg(c).producer) && HoldsOwn(cfg, w, c, task)
    requires w.Phase(c).Resting? && PrunesElse(w.s, c, task, o)
    ensures Reopens(cfg, w, task, o)
    decreases if w.s.Doing(c).Pruning? then 2 else if w.s.Doing(c).Discarding? then 1 else 0
  {
    hide Reopens, AcquireStep, HeartbeatStep, CompleteStep, UploadResultStep, PushClaimStep, RecordStep, PruneStep,
         ObserveStep;
    if w.s.Doing(c).Idle? {
      HeldIdleReopens(cfg, w, task, o, c);
    } else {
      var m := Coordinate(if w.s.Doing(c).Pruning? then DeleteClaim(c) else DeleteResult(c, false));
      HeldReopens(cfg, Next(cfg, w, m), task, o, c);
      ReopensAfter(cfg, w, m, task, o);
    }
  }

  /** A process records the unexpired own lease that its sync has fetched before the completion. */
  lemma LateSyncReopens(cfg: Config, w: World, task: string, o: Oid, c: Client, v: View)
    requires StandsAt(w.s, task, o, cfg(c).producer) && w.Phase(c).Resting? && PrunesElse(w.s, c, task, o)
    requires w.Asks(c, task) && YetToRecord(w, c, task, v) && OwnView(cfg(c), v, w.s.clock)
    ensures Reopens(cfg, w, task, o)
  {
    hide Reopens;
    var see := Coordinate(Observe(c, v.oid));
    HeldReopens(cfg, Next(cfg, w, see), task, o, c);
    ReopensAfter(cfg, w, see, task, o);
  }

  /** A process synchronizes the completed claim, and before it looks at the claim another one of its producer records
      an older, unexpired lease that it has pushed or fetched. */
  lemma LateViewReopens(cfg: Config, w: World, task: string, o: Oid, c: Client, d: Client, v: View)
    requires StandsAt(w.s, task, o, cfg(c).producer) && c != d && cfg(d).producer == cfg(c).producer
    requires YetToRecord(w, d, task, v) && OwnView(cfg(c), v, w.s.clock)
    ensures Reopens(cfg, w, task, o)
  {
    var stop, leave, fetch := Coordinate(Stop(c)), Leave(c), Fetch(c, ForAcquire(task));
    hide Reopens, AcquireStep, HeartbeatStep, CompleteStep, UploadResultStep, PushClaimStep, PruneStep, DeleteClaimStep,
         DeleteResultStep, ForgetStep, FactsAfter;
    var w1 := Next(cfg, w, stop);
    var w2 := Next(cfg, w1, leave);
    var w3 := Next(cfg, w2, fetch);
    assert w3.s == w.s.Now(c, Idle) && forall x :: x != c ==> (x in w3.calls <==> x in w.calls);
    assert YetToRecord(w3, d, task, v);
    SyncedViewReopens(cfg, w3, task, o, c, d, v);
    ReopensAfter(cfg, w2, fetch, task, o);
    ReopensAfter(cfg, w1, leave, task, o);
    ReopensAfter(cfg, w, stop, task, o);
  }

  lemma SyncedViewReopens(cfg: Config, w: World, task: string, o: Oid, c: Client, d: Client, v: View)
    requires StandsAt(w.s, task, o, cfg(c).producer) && c != d && cfg(d).producer == cfg(c).producer
    requires YetToRecord(w, d, task, v) && OwnView(cfg(c), v, w.s.clock)
    requires w.Asks(c, task) && w.HasFetched(c, task, o) && w.Phase(c).Resting? && w.s.Doing(c).Idle?
    ensures Reopens(cfg, w, task, o)
  {
    hide Reopens, AcquireStep, HeartbeatStep, CompleteStep, UploadResultStep, PushClaimStep, PruneStep, DeleteClaimStep,
         DeleteResultStep, ForgetStep, FactsAfter;
    var sync := Coordinate(Observe(c, o));
    var see := Coordinate(if w.s.Doing(d) == Recording(task, v) then Record(d) else Observe(d, v.oid));
    var w1 := Next(cfg, w, sync);
    assert YetToRecord(w1, d, task, v);
    var w2 := Next(cfg, w1, see);
    assert w2.s.Seen(cfg(c).producer, task) == Some(v);
    HeldIdleReopens(cfg, w2, task, o, c);
    ReopensAfter(cfg, w1, see, task, o);
    ReopensAfter(cfg, w, sync, task, o);
  }

  lemma ClaimedReopens(cfg: Config, w: World, task: string, o: Oid, c: Client)
    requires InOrder(w) && StandsAt(w.s, task, o, cfg(c).producer) && MayWork(cfg, w, c, task)
    requires w.s.Doing(c).Pruning? || w.s.Doing(c).Discarding? ==> PrunesElse(w.s, c, task, o)
    ensures Reopens(cfg, w, task, o)
  {
    hide Reopens;
    if w.Phase(c) == Working(task) {
      LateHeartbeatReopens(cfg, w, task, o, c);
    } else if AtWork(w, c, task) {
      LateRecordReopens(cfg, w, task, o, c);
    } else if HoldsOwn(cfg, w, c, task) {
      HeldReopens(cfg, w, task, o, c);
    } else {
      var d, v :| && cfg(d).producer == cfg(c).producer && YetToRecord(w, d, task, v) && OwnView(cfg(c), v, w.s.clock)
                  && (d != c || w.Asks(c, task));
      if c == d {
        LateSyncReopens(cfg, w, task, o, c, v);
      } else {
        LateViewReopens(cfg, w, task, o, c, d, v);
      }
    }
  }

  /** Some process is about to push a successor of the commit. */
  ghost predicate PushUnderWay(s: State, task: string, o: Oid) {
    exists c :: s.Doing(c).Publishing? && s.Doing(c).task == task && s.Doing(c).expected == Some(o)
  }

  lemma PushReopens(cfg: Config, w: World, task: string, o: Oid)
    requires w.s.Tip(task) == Some(o) && o in w.s.commits && PushUnderWay(w.s, task, o)
    ensures Reopens(cfg, w, task, o)
  {
    hide Reopens;
    var c :| w.s.Doing(c).Publishing? && w.s.Doing(c).task == task && w.s.Doing(c).expected == Some(o);
    var oid := FreshOid(w.s.commits.Keys);
    AfterPush(cfg, w.s, c, oid, task, Some(o), w.s.Doing(c).lease);
    var push := Coordinate(PushClaim(c, oid));
    ReopensNow(cfg, Next(cfg, w, push), task, o);
    ReopensAfter(cfg, w, push, task, o);
  }

  /** The claim stands at the completed commit. */
  predicate CompletedAt(s: State, task: string, o: Oid) {
    s.Tip(task) == Some(o) && o in s.commits && s.commits[o].lease.state.Completed?
  }

  lemma CompletedStands(cfg: Config, s: State, task: string, o: Oid)
    requires Inv(cfg, s) && CompletedAt(s, task, o)
    ensures StandsAt(s, task, o, s.commits[o].lease.producer)
    ensures !PushUnderWay(s, task, o) ==> Settled(s, task, o)
  {
    assert Chained(cfg, s);
  }

  /** A completed claim that has not run out is not pruned. */
  lemma PrunesOthers(cfg: Config, s: State, task: string, o: Oid, c: Client)
    requires Inv(cfg, s) && CompletedAt(s, task, o) && s.clock < s.commits[o].lease.expiresAt
    requires s.Doing(c).Pruning? || s.Doing(c).Discarding?
    ensures PrunesElse(s, c, task, o)
  {
    InvParts(cfg, s);
    DoingIsGood(cfg, s, c);
    if s.Doing(c).Discarding? && s.Doing(c).task == task {
      assert DiscardingTask(s, c, task) && CompletedClaim(s, task);
    }
  }

  /** Whatever happens in the order of run_task, the claim stands at the commit until its lease runs out. */
  ghost predicate Lasts(cfg: Config, w: World, task: string, o: Oid)
    requires o in w.s.commits
  {
    forall moves | AllAllowed(cfg, w, moves) && Moves(cfg, w, moves).s.clock < w.s.commits[o].lease.expiresAt ::
      Moves(cfg, w, moves).s.Tip(task) == Some(o)
  }

  lemma ReopenedDoesNotLast(cfg: Config, w: World, task: string, o: Oid)
    requires o in w.s.commits && w.s.clock < w.s.commits[o].lease.expiresAt && Reopens(cfg, w, task, o)
    ensures !Lasts(cfg, w, task, o)
  {
    hide AllAllowed, Moves;
    var moves :| && AllAllowed(cfg, w, moves) && Moves(cfg, w, moves).s.clock == w.s.clock
                 && Moves(cfg, w, moves).s.Tip(task) != Some(o);
  }

  lemma UnclaimedLasts(cfg: Config, w: World, task: string, o: Oid)
    requires GoodConfig(cfg) && Inv(cfg, w.s) && Settled(w.s, task, o) && o in w.s.commits
    requires !StillClaimed(cfg, w, task, w.s.commits[o].lease.producer)
    ensures Lasts(cfg, w, task, o)
  {
    hide Inv, Settled, StillClaimed, AllAllowed, Moves;
    forall moves | AllAllowed(cfg, w, moves) && Moves(cfg, w, moves).s.clock < w.s.commits[o].lease.expiresAt
      ensures Moves(cfg, w, moves).s.Tip(task) == Some(o)
    {
      CompletedStays(cfg, w, moves, task, o);
      SettledIsTip(Moves(cfg, w, moves).s, task, o);
    }
  }

  /** In the order of run_task a completed claim lasts until it runs out exactly when nobody is about to push a
      successor and no process of its producer is at work on the task or can still take the claim for an unexpired
      one of its own. */
  lemma CompletionLastsExactly(cfg: Config, w: World, task: string, o: Oid)
    requires GoodConfig(cfg) && Inv(cfg, w.s) && InOrder(w) && CompletedAt(w.s, task, o)
    requires w.s.clock < w.s.commits[o].lease.expiresAt
    ensures Lasts(cfg, w, task, o) <==>
      !PushUnderWay(w.s, task, o) && !StillClaimed(cfg, w, task, w.s.commits[o].lease.producer)
  {
    hide Inv, InOrder, Settled, MayWork, Lasts, Reopens, GoodConfig, PushUnderWay, PrunesElse;
    CompletedStands(cfg, w.s, task, o);
    if PushUnderWay(w.s, task, o) {
      PushReopens(cfg, w, task, o);
      ReopenedDoesNotLast(cfg, w, task, o);
    } else if StillClaimed(cfg, w, task, w.s.commits[o].lease.producer) {
      var c :| cfg(c).producer == w.s.commits[o].lease.producer && MayWork(cfg, w, c, task);
      if w.s.Doing(c).Pruning? || w.s.Doing(c).Discarding? {
        PrunesOthers(cfg, w.s, task, o, c);
      }
      ClaimedReopens(cfg, w, task, o, c);
      ReopenedDoesNotLast(cfg, w, task, o);
    } else {
      UnclaimedLasts(cfg, w, task, o);
    }
  }

  /** The process does nothing about the task and is in no call. */
  ghost predicate Quiet(w: World, c: Client, task: string) {
    && !AtWork(w, c, task) && c !in w.calls
    && !((w.s.Doing(c).Publishing? || w.s.Doing(c).Recording?) && w.s.Doing(c).task == task)
  }

  lemma QuietUnclaimed(cfg: Config, w: World, task: string, producer: string)
    requires forall c | cfg(c).producer == producer :: Quiet(w, c, task)
    ensures !StillClaimed(cfg, w, task, producer)
  {
    forall c | cfg(c).producer == producer
      ensures !MayWork(cfg, w, c, task)
    {
      forall d, v | cfg(d).producer == producer
        ensures !YetToRecord(w, d, task, v)
      {
      }
    }
    NobodyAtAll(cfg, w, task, producer);
  }

  /** Only the producer of a completed claim prepares a successor of it. */
  lemma SuccessorIsOwn(cfg: Config, s: State, task: string, o: Oid, c: Client)
    requires Inv(cfg, s) && CompletedAt(s, task, o)
    requires s.Doing(c).Publishing? && s.Doing(c).task == task && s.Doing(c).expected == Some(o)
    ensures cfg(c).producer == s.commits[o].lease.producer
  {
    InvParts(cfg, s);
    DoingIsGood(cfg, s, c);
  }

  lemma QuietNoPush(cfg: Config, w: World, task: string, o: Oid)
    requires Inv(cfg, w.s) && CompletedAt(w.s, task, o)
    requires forall c | cfg(c).producer == w.s.commits[o].lease.producer :: Quiet(w, c, task)
    ensures !PushUnderWay(w.s, task, o)
  {
    hide Inv;
    forall c
      ensures !(w.s.Doing(c).Publishing? && w.s.Doing(c).task == task && w.s.Doing(c).expected == Some(o))
    {
      if w.s.Doing(c).Publishing? && w.s.Doing(c).task == task && w.s.Doing(c).expected == Some(o) {
        SuccessorIsOwn(cfg, w.s, task, o, c);
      }
    }
  }

  /** So it lasts when all processes of its producer are quiet. */
  lemma QuietLasts(cfg: Config, w: World, task: string, o: Oid)
    requires GoodConfig(cfg) && Inv(cfg, w.s) && InOrder(w) && CompletedAt(w.s, task, o)
    requires w.s.clock < w.s.commits[o].lease.expiresAt
    requires forall c | cfg(c).producer == w.s.commits[o].lease.producer :: Quiet(w, c, task)
    ensures Lasts(cfg, w, task, o)
  {
    hide Inv, InOrder, Lasts, GoodConfig, Quiet, StillClaimed, PushUnderWay;
    CompletionLastsExactly(cfg, w, task, o);
    QuietNoPush(cfg, w, task, o);
    QuietUnclaimed(cfg, w, task, w.s.commits[o].lease.producer);
  }

  // It happens: the first process of a producer is granted the claim but yet to record it, the second sees the
  // claim, works and completes.

  ghost predicate Reaches(cfg: Config, w: World, goal: World) {
    exists moves :: AllAllowed(cfg, w, moves) && Moves(cfg, w, moves) == goal
  }

  lemma ReachesSelf(cfg: Config, w: World)
    ensures Reaches(cfg, w, w)
  {
    assert AllAllowed(cfg, w, []) && Moves(cfg, w, []) == w;
  }

  lemma ReachesAfter(cfg: Config, w: World, m: Move, goal: World)
    requires Allowed(cfg, w, m) && Reaches(cfg, Next(cfg, w, m), goal)
    ensures Reaches(cfg, w, goal)
  {
    hide Allowed, Next;
    var rest :| AllAllowed(cfg, Next(cfg, w, m), rest) && Moves(cfg, Next(cfg, w, m), rest) == goal;
    var moves := [m] + rest;
    assert moves[0] == m && moves[1..] == rest;
    assert AllAllowed(cfg, w, moves) && Moves(cfg, w, moves) == goal;
  }

  function Beginning(): World {
    World(InitialState(0), map[], map[], {})
  }

  /** The push of the first process is accepted. */
  function Accepted(cfg: Config, a: Client, task: string): World {
    var lease := AcquiredLease(cfg(a), 0);
    World(State(map[0 := ClaimCommit(task, lease, None, a)], map[task := 0], map[], map[],
                map[a := Recording(task, View(0, lease))], 0),
          map[a := Asking(task)], map[], {})
  }

  lemma FirstAsks(cfg: Config, a: Client, task: string, goal: World)
    requires Reaches(cfg, Accepted(cfg, a, task), goal)
    ensures Reaches(cfg, Beginning(), goal)
  {
    hide Reaches, HeartbeatStep, CompleteStep, UploadResultStep, RecordStep, PruneStep, DeleteClaimStep,
         DeleteResultStep, ObserveStep;
    var lease := AcquiredLease(cfg(a), 0);
    var fetch, forget := Fetch(a, ForAcquire(task)), Coordinate(Forget(a, task));
    var ask, push := Coordinate(Acquire(a, task)), Coordinate(PushClaim(a, 0));
    var w2 := Next(cfg, Next(cfg, Beginning(), fetch), forget);
    assert w2.s == InitialState(0);
    var w3 := Next(cfg, w2, ask);
    assert w3 == World(InitialState(0).Now(a, Publishing(task, None, lease)), map[a := Asking(task)], map[], {});
    AfterPush(cfg, w3.s, a, 0, task, None, lease);
    assert Next(cfg, w3, push) == Accepted(cfg, a, task);
    ReachesAfter(cfg, w3, push, goal);
    ReachesAfter(cfg, w2, ask, goal);
    ReachesAfter(cfg, Next(cfg, Beginning(), fetch), forget, goal);
    ReachesAfter(cfg, Beginning(), fetch, goal);
  }

  /** The second process is told that the claim is its own. */
  function Granted(cfg: Config, a: Client, b: Client, task: string): World {
    var w := Accepted(cfg, a, task);
    w.(s := w.s.(observed := map[(cfg(b).producer, task) := View(0, AcquiredLease(cfg(a), 0))]),
       phases := map[a := Asking(task), b := Working(task)])
  }

  lemma SecondAsks(cfg: Config, a: Client, b: Client, task: string, goal: World)
    requires a != b && cfg(a).producer == cfg(b).producer && cfg(a).leaseSeconds + cfg(b).graceSeconds >= 0
    requires Reaches(cfg, Granted(cfg, a, b, task), goal)
    ensures Reaches(cfg, Accepted(cfg, a, task), goal)
  {
    hide Reaches, HeartbeatStep, CompleteStep, UploadResultStep, RecordStep, PruneStep, DeleteClaimStep,
         DeleteResultStep, ForgetStep, PushClaimStep;
    var fetch, see, ask := Fetch(b, ForAcquire(task)), Coordinate(Observe(b, 0)), Coordinate(Acquire(b, task));
    var w := Accepted(cfg, a, task);
    var w1 := Next(cfg, w, fetch);
    var w2 := Next(cfg, w1, see);
    assert w2.s == Granted(cfg, a, b, task).s;
    assert Next(cfg, w2, ask) == Granted(cfg, a, b, task);
    ReachesAfter(cfg, w2, ask, goal);
    ReachesAfter(cfg, w1, see, goal);
    ReachesAfter(cfg, w, fetch, goal);
  }

  /** The first process has still to record its view, the second has joined, and nobody else does anything. */
  ghost predicate FirstWaits(w: World, a: Client, b: Client, task: string, doing: Activity) {
    && w.phases == map[a := Asking(task), b := Joined(task)]
    && w.s.Doing(a).Recording? && w.s.Doing(a).task == task && w.s.Doing(b) == doing
    && forall c | c != a && c != b :: w.s.Doing(c).Idle?
  }

  /** The second process ends its work and looks the claim up. */
  lemma SecondPrepares(cfg: Config, a: Client, b: Client, task: string, fact: string) returns (w: World)
    requires a != b && cfg(a).producer == cfg(b).producer
    ensures forall goal :: Reaches(cfg, w, goal) ==> Reaches(cfg, Granted(cfg, a, b, task), goal)
    ensures FirstWaits(w, a, b, task, Uploading(task, View(0, AcquiredLease(cfg(a), 0)), fact))
    ensures w.s.claims == map[task := 0] && 1 !in w.s.commits && w.s.results == map[] && w.s.clock == 0
  {
    hide Reaches, PushClaimStep, RecordStep, AcquireStep, HeartbeatStep, PruneStep, DeleteClaimStep, DeleteResultStep,
         ForgetStep, UploadResultStep;
    var g, join, fetch := Granted(cfg, a, b, task), Join(b), Fetch(b, ForRefresh(task));
    var see, complete := Coordinate(Observe(b, 0)), Coordinate(Complete(b, task, fact));
    var w1 := Next(cfg, g, join);
    var w2 := Next(cfg, w1, fetch);
    var w3 := Next(cfg, w2, see);
    assert w3.s == g.s;
    w := Next(cfg, w3, complete);
    assert w.s == g.s.Now(b, Uploading(task, View(0, AcquiredLease(cfg(a), 0)), fact));
    forall goal | Reaches(cfg, w, goal)
      ensures Reaches(cfg, g, goal)
    {
      ReachesAfter(cfg, w3, complete, goal);
      ReachesAfter(cfg, w2, see, goal);
      ReachesAfter(cfg, w1, fetch, goal);
      ReachesAfter(cfg, g, join, goal);
    }
  }

  lemma SecondUploads(cfg: Config, a: Client, b: Client, task: string, fact: string, w: World, view: View)
    returns (w': World)
    requires a != b && FirstWaits(w, a, b, task, Uploading(task, view, fact)) && view.oid == 0
    requires w.s.claims == map[task := 0] && 1 !in w.s.commits && w.s.results == map[] && w.s.clock == 0
    ensures w' == Next(cfg, w, Coordinate(UploadResult(b)))
    ensures FirstWaits(w', a, b, task, Publishing(task, Some(0), CompletedLease(view.lease, fact, 0)))
    ensures w'.s.claims == map[task := 0] && 1 !in w'.s.commits
  {
    AfterUpload(cfg, w.s, b, task, view, fact);
    hide Step;
    w' := Next(cfg, w, Coordinate(UploadResult(b)));
    assert forall c :: c != b ==> w'.s.Doing(c) == w.s.Doing(c);
  }

  lemma NobodyPublishes(s: State, task: string, o: Oid)
    requires s.Tip(task) == Some(o) && o in s.commits && s.commits[o].lease.state.Completed?
    requires forall c :: !s.Doing(c).Publishing?
    ensures Settled(s, task, o)
  {
  }

  lemma SecondPushes(cfg: Config, a: Client, b: Client, task: string, w: World, lease: Lease) returns (w': World)
    requires a != b && FirstWaits(w, a, b, task, Publishing(task, Some(0), lease))
    requires w.s.claims == map[task := 0] && 1 !in w.s.commits
    ensures w' == Next(cfg, w, Coordinate(PushClaim(b, 1)))
      && FirstWaits(w', a, b, task, Recording(task, View(1, lease)))
    ensures w'.s.Tip(task) == Some(1) && 1 in w'.s.commits && w'.s.commits[1] == ClaimCommit(task, lease, Some(0), b)
  {
    AfterPush(cfg, w.s, b, 1, task, Some(0), lease);
    hide Step;
    w' := Next(cfg, w, Coordinate(PushClaim(b, 1)));
    assert forall c :: c != b ==> w'.s.Doing(c) == w.s.Doing(c);
  }

  lemma SecondRecords(cfg: Config, a: Client, b: Client, task: string, w: World, lease: Lease) returns (w': World)
    requires a != b && FirstWaits(w, a, b, task, Recording(task, View(1, lease))) && lease.state.Completed?
    requires w.s.Tip(task) == Some(1) && 1 in w.s.commits && w.s.commits[1] == ClaimCommit(task, lease, Some(0), b)
    ensures w' == Next(cfg, w, Coordinate(Record(b))) && FirstWaits(w', a, b, task, Idle)
    ensures Settled(w'.s, task, 1) && StandsAt(w'.s, task, 1, lease.producer)
  {
    AfterRecord(cfg, w.s, b, task, View(1, lease));
    hide Step, Settled;
    w' := Next(cfg, w, Coordinate(Record(b)));
    forall c
      ensures w'.s.Doing(c) == if c == b then Idle else w.s.Doing(c)
      ensures !w'.s.Doing(c).Publishing?
    {
    }
    NobodyPublishes(w'.s, task, 1);
  }

  lemma AcceptedAcquireReopens(cfg: Config, a: Client, b: Client, task: string, fact: string)
    requires a != b && cfg(a).producer == cfg(b).producer && cfg(a).leaseSeconds + cfg(b).graceSeconds >= 0
    ensures exists w ::
      && Reaches(cfg, Beginning(), w) && Settled(w.s, task, 1) && (forall c :: !w.Phase(c).Working?)
      && Reopens(cfg, w, task, 1)
  {
    hide Reopens, Reaches, Settled, Next;
    var lease := CompletedLease(AcquiredLease(cfg(a), 0), fact, 0);
    var w2 := SecondPrepares(cfg, a, b, task, fact);
    var w3 := SecondUploads(cfg, a, b, task, fact, w2, View(0, AcquiredLease(cfg(a), 0)));
    var w4 := SecondPushes(cfg, a, b, task, w3, lease);
    var w5 := SecondRecords(cfg, a, b, task, w4, lease);
    ReachesSelf(cfg, w5);
    ReachesAfter(cfg, w4, Coordinate(Record(b)), w5);
    ReachesAfter(cfg, w3, Coordinate(PushClaim(b, 1)), w5);
    ReachesAfter(cfg, w2, Coordinate(UploadResult(b)), w5);
    SecondAsks(cfg, a, b, task, w5);
    FirstAsks(cfg, a, task, w5);
    LateRecordReopens(cfg, w5, task, 1, a);
  }

  lemma {:induction false} MovesConcat(cfg: Config, w: World, front: seq<Move>, back: seq<Move>)
    ensures Moves(cfg, w, front + back) == Moves(cfg, Moves(cfg, w, front), back)
    ensures AllAllowed(cfg, w, front + back) <==>
      AllAllowed(cfg, w, front) && AllAllowed(cfg, Moves(cfg, w, front), back)
    decreases |front|
  {
    hide Next, Allowed;
    if front == [] {
      assert front + back == back;
    } else {
      assert (front + back)[1..] == front[1..] + back;
      MovesConcat(cfg, Next(cfg, w, front[0]), front[1..], back);
    }
  }

  // ---------------------------------------------------------------- run_task

  lemma OneMove(cfg: Config, w: World, moves: seq<Move>, m: Move)
    requires AllAllowed(cfg, w, moves) && Allowed(cfg, Moves(cfg, w, moves), m)
    ensures AllAllowed(cfg, w, moves + [m]) && Moves(cfg, w, moves + [m]) == Next(cfg, Moves(cfg, w, moves), m)
  {
    hide Allowed, Next;
    var w' := Moves(cfg, w, moves);
    MovesConcat(cfg, w, moves, [m]);
    assert [m][1..] == [] && Moves(cfg, Next(cfg, w', m), []) == Next(cfg, w', m);
  }

  /** The claim stands at an unexpired completion by the producer, and the result is stored. */
  predicate IsDone(s: State, producer: string, task: string, fact: string) {
    && CompletedClaim(s, task) && task in s.results && s.results[task] == fact
    && var lease := s.commits[s.claims[task]].lease; lease.producer == producer && s.clock < lease.expiresAt
  }

  /** refresh_claim: the view is the claim as its ref stands, and without the ref it stays. */
  function Refreshed(cfg: Config, s: State, c: Client, task: string): State {
    if task in s.claims then ObserveStep(cfg, s, c, s.claims[task]) else s
  }

  /** sync: the view is the claim as its ref stands, and without the ref there is none. */
  function Synced(cfg: Config, s: State, c: Client, task: string): State {
    if task in s.claims then ObserveStep(cfg, s, c, s.claims[task]) else ForgetStep(cfg, s, c, task)
  }

  /** The push of a prepared lease, and its record when it is accepted. */
  function Pushed(cfg: Config, s: State, c: Client, oid: Oid): State {
    RecordStep(cfg, PushClaimStep(s, c, oid), c)
  }

  function TipLease(s: State, task: string): Lease
    requires CurrentTip(s, task)
  {
    s.commits[s.claims[task]].lease
  }

  /** The claim ref is at a lease of the producer of the process. */
  predicate OwnsTip(cfg: Config, s: State, c: Client, task: string) {
    CurrentTip(s, task) && TipLease(s, task).producer == cfg(c).producer
  }

  /** The catalog shows the claim as its ref stands. */
  predicate Shows(cfg: Config, s: State, c: Client, task: string) {
    task in s.claims ==>
      CurrentTip(s, task) && s.Seen(cfg(c).producer, task) == Some(View(s.claims[task], TipLease(s, task)))
  }

  predicate SameClaims(s: State, s': State) {
    s'.claims == s.claims && s'.commits == s.commits
  }

  /** The claim has moved to one new commit of the process on top of where it was, and no other claim has changed. */
  predicate Adds(s: State, s': State, c: Client, task: string) {
    && CurrentTip(s', task)
    && var oid := s'.claims[task];
    && oid !in s.commits && s'.commits == s.commits[oid := s'.commits[oid]] && s'.claims == s.claims[task := oid]
    && s'.commits[oid].task == task && s'.commits[oid].author == c && s'.commits[oid].parent == s.Tip(task)
  }

  /** A heartbeat: the new lease is the old one, processing, renewed from now on. */
  predicate Renewed(cfg: Config, s: State, s': State, c: Client, task: string)
    requires CurrentTip(s, task)
  {
    Adds(s, s', c, task) &&
    var held, lease := TipLease(s, task), TipLease(s', task);
    && lease.state.Processing? && lease.expiresAt == s.clock + cfg(c).leaseSeconds
    && lease.producer == held.producer && lease.acquiredAt == held.acquiredAt && lease.resultId == held.resultId
    && lease.heartbeats == held.heartbeats + 1
  }

  /** A completion: the new lease is the old one, completed with the result, for an hour from now on. */
  predicate Finished(s: State, s': State, c: Client, task: string, fact: string)
    requires CurrentTip(s, task)
  {
    Adds(s, s', c, task) &&
    var held, lease := TipLease(s, task), TipLease(s', task);
    && lease.state.Completed? && lease.resultId == Some(fact) && lease.expiresAt == s.clock + 3600
    && lease.producer == held.producer && lease.acquiredAt == held.acquiredAt && lease.heartbeats == held.heartbeats
  }

  /** A new lease, from now on. */
  predicate Claimed(cfg: Config, s: State, s': State, c: Client, task: string) {
    Adds(s, s', c, task) &&
    var lease := TipLease(s', task);
    && lease.state.Processing? && lease.producer == cfg(c).producer && lease.acquiredAt == s.clock
    && lease.expiresAt == s.clock + cfg(c).leaseSeconds && lease.heartbeats == 0 && lease.resultId.None?
  }

  /** The claim is free, the producer's own, or another's that ran out longer than the grace ago; and not completed. */
  predicate MayTake(cfg: Config, s: State, c: Client, task: string) {
    CurrentTip(s, task) ==>
      && TipLease(s, task).state.Processing?
      && (TipLease(s, task).producer == cfg(c).producer || s.clock > TipLease(s, task).expiresAt + cfg(c).graceSeconds)
  }

  /** The claim is the producer's own and has not run out longer than the grace ago. */
  predicate HoldsLive(cfg: Config, s: State, c: Client, task: string) {
    OwnsTip(cfg, s, c, task) && s.clock <= TipLease(s, task).expiresAt + cfg(c).graceSeconds
  }

  /** What the claim refs have to be for a call to read them: every ref is at a commit for its task. */
  predicate Readable(s: State, task: string) {
    task in s.claims ==> CurrentTip(s, task) && s.commits[s.claims[task]].task == task
  }

  lemma ClaimIsReadable(cfg: Config, s: State, task: string)
    requires Inv(cfg, s)
    ensures Readable(s, task)
  {
    InvParts(cfg, s);
  }

  lemma PushedIs(cfg: Config, s: State, c: Client, oid: Oid)
    requires s.Doing(c).Publishing? && oid !in s.commits
    ensures var s', lease := Pushed(cfg, s, c, oid), s.Doing(c);
      && s'.Doing(c).Idle? && s'.results == s.results && s'.clock == s.clock
      && if s.Tip(lease.task) != lease.expected then SameClaims(s, s') && s'.observed == s.observed
         else Adds(s, s', c, lease.task) && TipLease(s', lease.task) == lease.lease && Shows(cfg, s', c, lease.task)
  {
    hide AcquireStep, HeartbeatStep, CompleteStep, UploadResultStep;
  }

  lemma BeatBegins(cfg: Config, s: State, c: Client, task: string)
    requires s.Doing(c).Idle? && Readable(s, task)
    ensures var begun := HeartbeatStep(cfg, Refreshed(cfg, s, c, task), c, task);
      && SameClaims(s, begun) && begun.results == s.results && begun.clock == s.clock && Shows(cfg, begun, c, task)
      && (if !KnowsOwn(cfg, s, c, task) then begun.Doing(c).Idle?
          else begun.Doing(c).Publishing? && begun.Doing(c).task == task && begun.Doing(c).expected.Some?)
      && (OwnsTip(cfg, s, c, task) ==>
            begun.Doing(c) == Publishing(task, s.Tip(task), TipLease(s, task).(state := Processing,
              expiresAt := s.clock + cfg(c).leaseSeconds, heartbeats := TipLease(s, task).heartbeats + 1)))
  {
  }

  /** A heartbeat of the process at work renews the claim when its ref is at a lease of the producer, and otherwise
      changes no claim. */
  lemma BeatIs(cfg: Config, s: State, c: Client, task: string, oid: Oid)
    requires s.Doing(c).Idle? && oid !in s.commits && Readable(s, task)
    ensures var begun := HeartbeatStep(cfg, Refreshed(cfg, s, c, task), c, task);
      var s' := if begun.Doing(c).Idle? then begun else Pushed(cfg, begun, c, oid);
      && s'.results == s.results && s'.clock == s.clock && s'.Doing(c).Idle? && Shows(cfg, s', c, task)
      && if OwnsTip(cfg, s, c, task) then Renewed(cfg, s, s', c, task) else SameClaims(s, s')
  {
    hide HeartbeatStep, Refreshed, KnowsOwn, Pushed, OwnsTip;
    var begun := HeartbeatStep(cfg, Refreshed(cfg, s, c, task), c, task);
    BeatBegins(cfg, s, c, task);
    KnownByRef(cfg, s, c, task);
    if begun.Doing(c).Publishing? {
      PushedIs(cfg, begun, c, oid);
    }
  }

  lemma KnownByRef(cfg: Config, s: State, c: Client, task: string)
    requires Readable(s, task)
    ensures OwnsTip(cfg, s, c, task) <==> KnowsOwn(cfg, s, c, task) && task in s.claims
    ensures OwnsTip(cfg, s, c, task) ==> CurrentTip(s, task)
  {
  }

  lemma AskBegins(cfg: Config, s: State, c: Client, task: string)
    requires s.Doing(c).Idle? && Readable(s, task)
    ensures var synced := Synced(cfg, s, c, task);
      var begun := AcquireStep(cfg, synced, c, task);
      && SameClaims(s, begun) && begun.results == s.results && begun.clock == s.clock && Shows(cfg, begun, c, task)
      && (IsOwn(cfg, synced, c, task) <==> MayTake(cfg, s, c, task) && HoldsLive(cfg, s, c, task))
      && begun.Doing(c) == if !MayTake(cfg, s, c, task) || HoldsLive(cfg, s, c, task) then Idle
           else Publishing(task, s.Tip(task), Lease(cfg(c).producer, Processing, s.clock,
                                                    s.clock + cfg(c).leaseSeconds, 0, None))
  {
  }

  /** An acquire works on the task when the claim may be taken, with the lease it has or with a new one. */
  lemma AskIs(cfg: Config, s: State, c: Client, task: string, oid: Oid)
    requires s.Doing(c).Idle? && oid !in s.commits && Readable(s, task)
    ensures var synced := Synced(cfg, s, c, task);
      var begun := AcquireStep(cfg, synced, c, task);
      var s' := if begun.Doing(c).Idle? then begun else Pushed(cfg, begun, c, oid);
      && s'.results == s.results && s'.clock == s.clock && s'.Doing(c).Idle? && Shows(cfg, s', c, task)
      && (IsOwn(cfg, synced, c, task) <==> MayTake(cfg, s, c, task) && HoldsLive(cfg, s, c, task))
      && (!begun.Doing(c).Idle? <==> MayTake(cfg, s, c, task) && !HoldsLive(cfg, s, c, task))
      && (!begun.Doing(c).Idle? ==> begun.Doing(c).Publishing? && begun.Doing(c).task == task
                                     && begun.Doing(c).expected == begun.Tip(task))
      && if MayTake(cfg, s, c, task) && !HoldsLive(cfg, s, c, task) then Claimed(cfg, s, s', c, task)
         else SameClaims(s, s')
  {
    hide AcquireStep, Synced, IsOwn, MayTake, HoldsLive, Pushed;
    var begun := AcquireStep(cfg, Synced(cfg, s, c, task), c, task);
    AskBegins(cfg, s, c, task);
    if begun.Doing(c).Publishing? {
      PushedIs(cfg, begun, c, oid);
    }
  }

  /** What complete finds: the claim as its ref stands, or without the ref what the catalog still shows. */
  predicate KnowsOwn(cfg: Config, s: State, c: Client, task: string) {
    var seen := s.Seen(cfg(c).producer, task);
    if task in s.claims then OwnsTip(cfg, s, c, task)
    else seen.Some? && seen.value.lease.producer == cfg(c).producer
  }

  lemma FinishBegins(cfg: Config, s: State, c: Client, task: string, fact: string)
    requires s.Doing(c).Idle? && Readable(s, task)
    ensures var begun := CompleteStep(cfg, Refreshed(cfg, s, c, task), c, task, fact);
      && SameClaims(s, begun) && begun.results == s.results && begun.clock == s.clock && Shows(cfg, begun, c, task)
      && if !KnowsOwn(cfg, s, c, task) then begun.Doing(c).Idle?
         else begun.Doing(c).Uploading? && begun.Doing(c).task == task && begun.Doing(c).fact == fact
              && begun.Doing(c).view.lease.producer == cfg(c).producer
              && if task in s.claims then begun.Doing(c).view == View(s.claims[task], TipLease(s, task))
                 else begun.Doing(c).view == s.Seen(cfg(c).producer, task).value
  {
  }

  lemma SentIs(s: State, c: Client)
    requires s.Doing(c).Uploading?
    ensures var sent, doing := UploadResultStep(s, c), s.Doing(c);
      && SameClaims(s, sent) && sent.clock == s.clock && sent.observed == s.observed
      && (doing.task in s.results ==> sent.Doing(c).Idle? && sent.results == s.results)
      && (doing.task !in s.results ==>
            && sent.results == s.results[doing.task := doing.fact]
            && sent.Doing(c) == Publishing(doing.task, Some(doing.view.oid), sent.Doing(c).lease)
            && var held, lease := doing.view.lease, sent.Doing(c).lease;
            && lease.state.Completed? && lease.resultId == Some(doing.fact) && lease.expiresAt == s.clock + 3600
            && lease.producer == held.producer && lease.acquiredAt == held.acquiredAt
            && lease.heartbeats == held.heartbeats)
  {
  }

  /** A completion stores the result where there is none, when the claim is known as the producer's own, and then
      completes the claim if its ref is there. */
  lemma FinishIs(cfg: Config, s: State, c: Client, task: string, fact: string, oid: Oid)
    requires s.Doing(c).Idle? && oid !in s.commits && Readable(s, task)
    ensures var begun := CompleteStep(cfg, Refreshed(cfg, s, c, task), c, task, fact);
      var sent := UploadResultStep(begun, c);
      var s' := if sent.Doing(c).Idle? then sent else Pushed(cfg, sent, c, oid);
      var stores := KnowsOwn(cfg, s, c, task) && task !in s.results;
      && (if KnowsOwn(cfg, s, c, task) then begun.Doing(c).Uploading? && begun.Doing(c).task == task
          else begun.Doing(c).Idle?)
      && begun.results == s.results && (begun.Doing(c).Idle? ==> sent == begun)
      && (stores <==> !sent.Doing(c).Idle?)
      && (stores ==> sent.Doing(c).Publishing? && sent.Doing(c).task == task
                     && (sent.Doing(c).expected == sent.Tip(task) <==> task in s.claims))
      && s'.results == (if stores then s.results[task := fact] else s.results)
      && s'.clock == s.clock && s'.Doing(c).Idle? && Shows(cfg, s', c, task)
      && if stores && task in s.claims then Finished(s, s', c, task, fact) else SameClaims(s, s')
  {
    hide CompleteStep, UploadResultStep, Refreshed, KnowsOwn, Pushed;
    var begun := CompleteStep(cfg, Refreshed(cfg, s, c, task), c, task, fact);
    FinishBegins(cfg, s, c, task, fact);
    if begun.Doing(c).Uploading? {
      SentIs(begun, c);
      var sent := UploadResultStep(begun, c);
      if sent.Doing(c).Publishing? {
        PushedIs(cfg, sent, c, oid);
      }
    } else {
      NothingSent(begun, c);
    }
  }

  lemma NothingSent(s: State, c: Client)
    requires s.Doing(c).Idle?
    ensures UploadResultStep(s, c) == s
  {
  }

  lemma TipIsGood(cfg: Config, s: State, task: string)
    requires Inv(cfg, s) && task in s.claims
    ensures s.claims[task] in s.commits && s.commits[s.claims[task]].task == task
  {
    InvParts(cfg, s);
  }

  /** The time that passes in some moves. */
  function Elapsed(moves: seq<Move>): nat {
    if moves == [] then 0
    else (match moves[0] case Coordinate(Tick(seconds)) => seconds case _ => 0) + Elapsed(moves[1..])
  }

  /** The time that passes in all the pauses. */
  function ElapsedAll(pauses: seq<seq<Move>>): nat {
    if pauses == [] then 0 else ElapsedAll(pauses[..|pauses| - 1]) + Elapsed(pauses[|pauses| - 1])
  }

  /** What becomes of the world when the others make those of the moves that are open to them. */
  function Others(cfg: Config, w: World, c: Client, moves: seq<Move>): World {
    if moves == [] then w
    else
      var w', m := Others(cfg, w, c, moves[..|moves| - 1]), moves[|moves| - 1];
      if Foreign(c, m) && Allowed(cfg, w', m) then Next(cfg, w', m) else w'
  }

  /** Time always passes. */
  lemma TimePasses(cfg: Config, w: World, m: Move, c: Client)
    ensures Elapsed([m]) == 0 || (Foreign(c, m) && Allowed(cfg, w, m))
  {
  }

  lemma OthersAppended(cfg: Config, w: World, c: Client, moves: seq<Move>, n: nat)
    requires n < |moves|
    ensures Others(cfg, w, c, moves[..n + 1])
      == var w' := Others(cfg, w, c, moves[..n]);
         if Foreign(c, moves[n]) && Allowed(cfg, w', moves[n]) then Next(cfg, w', moves[n]) else w'
  {
    hide Next, Allowed, Foreign;
    assert moves[..n + 1][..n] == moves[..n];
  }

  lemma ElapsedAllAppended(pauses: seq<seq<Move>>, n: nat)
    requires n < |pauses|
    ensures ElapsedAll(pauses[..n + 1]) == ElapsedAll(pauses[..n]) + Elapsed(pauses[n])
  {
    assert pauses[..n + 1][..n] == pauses[..n];
  }

  /** The process has no part in the move. */
  predicate Foreign(c: Client, m: Move) {
    match m
    case Coordinate(a) => a.Tick? || a.client != c
    case Fetch(d, _) => d != c
    case Return(d) => d != c
    case Join(d) => d != c
    case Leave(d) => d != c
    case Cache(_, _) => true
    case Evict(_, _) => true
  }

  lemma ForeignLeaves(cfg: Config, w: World, m: Move, c: Client)
    requires Foreign(c, m)
    ensures var w' := Next(cfg, w, m);
      && w'.Phase(c) == w.Phase(c) && (c in w'.calls <==> c in w.calls) && w'.s.Doing(c) == w.s.Doing(c)
      && w'.s.clock == w.s.clock + Elapsed([m])
  {
    if m.Coordinate? {
      hide AcquireStep, HeartbeatStep, CompleteStep, UploadResultStep, PushClaimStep, RecordStep, PruneStep,
           DeleteClaimStep, DeleteResultStep, ObserveStep, ForgetStep, IsOwn;
      TickTakesTime(cfg, w.s, m.action);
      OthersGoOn(cfg, w.s, m.action, c);
    }
  }

  lemma TickTakesTime(cfg: Config, s: State, a: Action)
    ensures Step(cfg, s, a).clock == s.clock + if a.Tick? then a.seconds else 0
  {
  }

  lemma {:induction false} ElapsedAppended(moves: seq<Move>, m: Move)
    ensures Elapsed(moves + [m]) == Elapsed(moves) + Elapsed([m])
  {
    if moves != [] {
      assert (moves + [m])[1..] == moves[1..] + [m];
      ElapsedAppended(moves[1..], m);
    } else {
      assert [] + [m] == [m];
    }
  }

  /** The others do not take a claim from the process in less time than its lease lasts. */
  lemma StillOwns(cfg: Config, s: State, actions: seq<Action>, c: Client, task: string)
    requires GoodConfig(cfg) && Inv(cfg, s) && OwnsTip(cfg, s, c, task) && TipLease(s, task).state.Processing?
    requires forall a | cfg(a).producer == cfg(c).producer :: Outlasted(cfg, a)
    requires Run(cfg, s, actions).clock < TipLease(s, task).expiresAt
    ensures OwnsTip(cfg, Run(cfg, s, actions), c, task)
  {
    hide Inv, Outlasted;
    TipIsOwn(cfg, s, task);
    UnexpiredOwnerKeepsClaim(cfg, s, actions, task);
  }

  lemma TipIsOwn(cfg: Config, s: State, task: string)
    requires Inv(cfg, s) && CurrentTip(s, task)
    ensures cfg(s.commits[s.claims[task]].author).producer == TipLease(s, task).producer
  {
    InvParts(cfg, s);
    assert CommitOk(cfg, s, s.claims[task]);
  }

  lemma SyncedIs(cfg: Config, s: State, c: Client, task: string)
    ensures var s' := Synced(cfg, s, c, task);
      s'.results == s.results && s'.clock == s.clock && s'.activity == s.activity && SameClaims(s, s')
  {
  }

  lemma NewCommit(cfg: Config, s: State, a: Action)
    ensures forall o <- Step(cfg, s, a).commits :: o in s.commits || (a.PushClaim? && o == a.oid)
  {
  }

  lemma NoMoves(cfg: Config, w: World, c: Client)
    ensures Others(cfg, w, c, []) == w
  {
  }

  lemma NoPause()
    ensures ElapsedAll([]) == 0
  {
  }

  lemma NoTime()
    ensures Elapsed([]) == 0
  {
  }

  ghost predicate AllOutlasted(cfg: Config, c: Client) {
    forall a | cfg(a).producer == cfg(c).producer :: Outlasted(cfg, a)
  }

  /** How long the claim lasts that the acquire was granted, and then each that a heartbeat renewed. */
  function Allowance(cfg: Config, asked: State, c: Client, task: string, n: nat): int
    requires CurrentTip(asked, task)
  {
    if n == 0 then TipLease(asked, task).expiresAt - asked.clock else cfg(c).leaseSeconds
  }

  /** Each pause is over before the claim runs out. */
  predicate InTime(cfg: Config, asked: State, c: Client, task: string, pauses: seq<seq<Move>>)
    requires CurrentTip(asked, task)
  {
    forall n | 0 <= n < |pauses| :: Elapsed(pauses[n]) < Allowance(cfg, asked, c, task, n)
  }

  predicate HasLeft(cfg: Config, s: State, c: Client, task: string, left: int) {
    OwnsTip(cfg, s, c, task) && TipLease(s, task).state.Processing? && s.clock + left <= TipLease(s, task).expiresAt
  }

  predicate IssuedNow(cfg: Config, s: State, task: string) {
    CurrentTip(s, task) && var tip := s.commits[s.claims[task]]; IssuedAt(cfg, tip.author, tip.lease) == s.clock
  }

  /** The claim is at a lease that lasts as long as one that was written at the time. */
  predicate RenewedSince(cfg: Config, s: State, time: int, task: string) {
    CurrentTip(s, task) &&
    var tip := s.commits[s.claims[task]];
    tip.lease.expiresAt >= time + if tip.lease.state.Processing? then cfg(tip.author).leaseSeconds else 3600
  }

  /** The pauses are over in time, and the leases of the producer are outlasted: what keeps a claim. */
  ghost predicate Keeps(cfg: Config, asked: State, c: Client, task: string, pauses: seq<seq<Move>>) {
    && CurrentTip(asked, task) && InTime(cfg, asked, c, task, pauses) && AllOutlasted(cfg, c)
    && OwnsTip(cfg, asked, c, task) && TipLease(asked, task).state.Processing?
  }

  lemma KeepsAtFirst(cfg: Config, asked: State, c: Client, task: string, pauses: seq<seq<Move>>)
    requires Keeps(cfg, asked, c, task, pauses)
    ensures CurrentTip(asked, task) && HasLeft(cfg, asked, c, task, Allowance(cfg, asked, c, task, 0))
  {
  }

  lemma GrantedIs(cfg: Config, s: State, s': State, c: Client, task: string)
    requires MayTake(cfg, s, c, task) && s'.clock == s.clock
    requires if HoldsLive(cfg, s, c, task) then SameClaims(s, s') else Claimed(cfg, s, s', c, task)
    ensures OwnsTip(cfg, s', c, task) && CurrentTip(s', task) && TipLease(s', task).state.Processing?
  {
  }

  /** The claim has time left, more than the pause takes. */
  ghost predicate Outlives(cfg: Config, s: State, c: Client, task: string, left: int, pause: seq<Move>) {
    AllOutlasted(cfg, c) && HasLeft(cfg, s, c, task, left) && Elapsed(pause) < left
  }

  lemma PauseIsShort(cfg: Config, asked: State, s: State, c: Client, task: string, pauses: seq<seq<Move>>, n: nat)
    requires Keeps(cfg, asked, c, task, pauses) && n < |pauses|
    requires CurrentTip(asked, task) && HasLeft(cfg, s, c, task, Allowance(cfg, asked, c, task, n))
    ensures Outlives(cfg, s, c, task, Allowance(cfg, asked, c, task, n), pauses[n])
  {
    hide AllOutlasted, HasLeft, Elapsed;
    assert Elapsed(pauses[n]) < Allowance(cfg, asked, c, task, n);
  }

  lemma PausePasses(cfg: Config, held: State, actions: seq<Action>, c: Client, task: string, left: int,
                    pause: seq<Move>)
    requires GoodConfig(cfg) && Inv(cfg, held) && Outlives(cfg, held, c, task, left, pause)
    requires Run(cfg, held, actions).clock == held.clock + Elapsed(pause)
    ensures OwnsTip(cfg, Run(cfg, held, actions), c, task) && OwnsTip(cfg, held, c, task) && AllOutlasted(cfg, c)
    ensures CurrentTip(held, task) && TipLease(held, task).state.Processing?
    ensures Run(cfg, held, actions).clock < TipLease(held, task).expiresAt
  {
    hide GoodConfig, Inv, Run, Outlasted, Elapsed;
    StillOwns(cfg, held, actions, c, task);
  }

  lemma BeatPasses(cfg: Config, s: State, s': State, c: Client, task: string)
    requires OwnsTip(cfg, s, c, task) && Renewed(cfg, s, s', c, task) && s'.clock == s.clock
    ensures HasLeft(cfg, s', c, task, cfg(c).leaseSeconds) && IssuedNow(cfg, s', task)
  {
  }

  lemma JoinedInTime(cfg: Config, held: State, actions: seq<Action>, c: Client, task: string)
    requires GoodConfig(cfg) && Inv(cfg, held) && AllOutlasted(cfg, c) && IssuedNow(cfg, held, task)
    requires OwnsTip(cfg, held, c, task) && TipLease(held, task).state.Processing?
    requires Run(cfg, held, actions).clock < TipLease(held, task).expiresAt
    ensures RenewedSince(cfg, Run(cfg, held, actions), held.clock, task)
  {
    hide GoodConfig, Inv, Run, Outlasted;
    TipIsGood(cfg, held, task);
    TipIsOwn(cfg, held, task);
    RunHolds(cfg, held, actions, held.claims[task]);
  }

  lemma FinishedIsDone(cfg: Config, s: State, s': State, c: Client, task: string, fact: string)
    requires OwnsTip(cfg, s, c, task) && Finished(s, s', c, task, fact) && s'.clock == s.clock
    requires task in s'.results && s'.results[task] == fact
    ensures IsDone(s', cfg(c).producer, task, fact)
  {
  }

  /** One call of run_task by process `client`; `next` is an unused commit id. */
  class Extraction {
    const deployment: Deployment
    const client: Client
    const task: string
    var next: Oid
    /** The processes of the deployment as they stand. */
    var world: World
    ghost const start: World
    ghost var moves: seq<Move>

    /** What was done so far keeps to the order of run_task and has made the deployment what it is. */
    ghost predicate Valid()
      reads this, deployment
    {
      && AllAllowed(deployment.cfg, start, moves) && Moves(deployment.cfg, start, moves) == world
      && world.s == deployment.Abs() && deployment.Good() && InOrder(world)
      && forall o <- deployment.commits :: o < next
    }

    predicate Free()
      reads this, deployment
    {
      deployment.Doing(client).Idle?
    }

    /** The catalog has a fact for the task. */
    predicate IsKnown()
      reads this
    {
      (deployment.cfg(client).producer, task) in world.facts
    }

    constructor (deployment: Deployment, client: Client, task: string, next: Oid, start: World)
      requires start.s == deployment.Abs() && deployment.Good() && InOrder(start)
      requires forall o <- deployment.commits :: o < next
      ensures Valid() && this.deployment == deployment && this.client == client && this.task == task
      ensures this.start == start == world && moves == []
    {
      this.deployment, this.client, this.task, this.next := deployment, client, task, next;
      this.start, world, moves := start, start, [];
    }

    method Done(m: Move)
      requires AllAllowed(deployment.cfg, start, moves) && Moves(deployment.cfg, start, moves) == world
      requires Allowed(deployment.cfg, world, m) && Next(deployment.cfg, world, m).s == deployment.Abs()
      requires deployment.Good() && InOrder(world)
      requires forall o <- deployment.commits :: o < next
      modifies this`moves, this`world
      ensures Valid() && world == Next(deployment.cfg, old(world), m)
    {
      hide InOrder, Allowed, Next, Inv;
      MoveInOrder(deployment.cfg, world, m);
      OneMove(deployment.cfg, start, moves, m);
      moves := moves + [m];
      world := Next(deployment.cfg, world, m);
    }

    /** A move of another process, or the passing of time. */
    method Let(m: Move) returns (ghost actions: seq<Action>)
      requires Valid() && Allowed(deployment.cfg, world, m) && Foreign(client, m)
      modifies this`moves, this`world, this`next, deployment
      ensures Valid() && deployment.Abs() == Run(deployment.cfg, old(deployment.Abs()), actions) && |actions| <= 1
      ensures world == Next(deployment.cfg, old(world), m)
    {
      hide AllAllowed, Moves, InOrder, Inv, GoodConfig, Allowed, Step, Foreign;
      actions := [];
      if m.Coordinate? {
        actions := [m.action];
        RunOne(deployment.cfg, deployment.Abs(), m.action);
        NewCommit(deployment.cfg, deployment.Abs(), m.action);
        deployment.Perform(m.action);
        if m.action.PushClaim? && next <= m.action.oid {
          next := m.action.oid + 1;
        }
      }
      Done(m);
    }

    /** The other processes make the moves that are open to them. */
    method Elsewhere(others: seq<Move>) returns (ghost actions: seq<Action>)
      requires Valid()
      modifies this`moves, this`world, this`next, deployment
      ensures Valid() && deployment.Abs() == Run(deployment.cfg, old(deployment.Abs()), actions)
      ensures world.Phase(client) == old(world.Phase(client))
      ensures deployment.Doing(client) == old(deployment.Doing(client))
      ensures client in world.calls <==> client in old(world.calls)
      ensures world == Others(deployment.cfg, old(world), client, others)
      ensures deployment.clock == old(deployment.clock) + Elapsed(others)
    {
      hide AllAllowed, Moves, InOrder, Inv, GoodConfig, Allowed, Next, Foreign, Elapsed, Others;
      actions := [];
      NoTime();
      NoMoves(deployment.cfg, world, client);
      for n := 0 to |others|
        invariant Valid() && deployment.Abs() == Run(deployment.cfg, old(deployment.Abs()), actions)
        invariant world.Phase(client) == old(world.Phase(client)) && world.s.Doing(client) == old(world.s.Doing(client))
        invariant client in world.calls <==> client in old(world.calls)
        invariant world == Others(deployment.cfg, old(world), client, others[..n])
        invariant deployment.clock == old(deployment.clock) + Elapsed(others[..n])
      {
        OthersAppended(deployment.cfg, old(world), client, others, n);
        TimePasses(deployment.cfg, world, others[n], client);
        ElapsedAppended(others[..n], others[n]);
        assert others[..n + 1] == others[..n] + [others[n]];
        if Foreign(client, others[n]) && Allowed(deployment.cfg, world, others[n]) {
          ForeignLeaves(deployment.cfg, world, others[n], client);
          ghost var one := Let(others[n]);
          RunConcat(deployment.cfg, old(deployment.Abs()), actions, one);
          actions := actions + one;
        }
      }
      assert others[..|others|] == others;
    }

    /** refresh_claim.  Without the ref the fetch fails and the view stays. */
    method Refresh()
      requires Valid() && Free() && (world.Phase(client) == Working(task) || world.Phase(client) == Joined(task))
      modifies this`moves, this`world, deployment
      ensures Valid() && Free() && world.phases == old(world.phases) && world.facts == old(world.facts)
      ensures deployment.Abs() == Refreshed(deployment.cfg, old(deployment.Abs()), client, task)
    {
      hide AllAllowed, Moves, InOrder, Inv;
      Done(Move.Fetch(client, ForRefresh(task)));
      if task in deployment.claims {
        TipIsGood(deployment.cfg, deployment.Abs(), task);
        deployment.RefreshClaim(client, deployment.claims[task]);
        Done(Coordinate(Observe(client, deployment.claims[task])));
      }
    }

    /** sync records the claim of the task, or forgets it when there is no ref. */
    method SyncClaim()
      requires Valid() && Free() && world.Phase(client).Resting?
      modifies this`moves, this`world, deployment
      ensures Valid() && world.phases == old(world.phases) && world.facts == old(world.facts)
      ensures world.Asks(client, task) && world.HasSynced(client, task)
      ensures deployment.Abs() == Synced(deployment.cfg, old(deployment.Abs()), client, task)
      ensures Shows(deployment.cfg, deployment.Abs(), client, task)
      ensures task !in deployment.claims ==> deployment.Abs().Seen(deployment.cfg(client).producer, task).None?
    {
      hide AllAllowed, Moves, InOrder, Inv, AcquireStep, HeartbeatStep, CompleteStep, UploadResultStep, PushClaimStep,
           RecordStep, PruneStep, DeleteClaimStep, DeleteResultStep;
      Done(Move.Fetch(client, ForAcquire(task)));
      if task in deployment.claims {
        TipIsGood(deployment.cfg, deployment.Abs(), task);
        deployment.RefreshClaim(client, deployment.claims[task]);
        Done(Coordinate(Observe(client, deployment.claims[task])));
      } else {
        deployment.ForgetView(client, task);
        Done(Coordinate(Forget(client, task)));
      }
    }

    /** sync imports a result that is new to the catalog. */
    method Sync(isNew: bool)
      requires Valid() && Free() && world.Phase(client).Resting?
      modifies this`moves, this`world, deployment
      ensures Valid() && world.phases == old(world.phases)
      ensures world.Asks(client, task) && world.HasSynced(client, task)
      ensures deployment.Abs() == Synced(deployment.cfg, old(deployment.Abs()), client, task)
      ensures IsKnown() <==> old(IsKnown()) || (isNew && task in deployment.results)
      ensures Shows(deployment.cfg, deployment.Abs(), client, task)
    {
      hide AllAllowed, Moves, Step, InOrder, Inv, Synced;
      SyncClaim();
      if isNew && task in deployment.results {
        Done(Cache(deployment.cfg(client).producer, task));
      }
    }

    /** The push of a prepared lease. */
    method Send() returns (accepted: bool)
      requires Valid() && deployment.Doing(client).Publishing?
      modifies this`moves, this`world, this`next, deployment
      ensures Valid() && world.phases == old(world.phases) && world.calls == old(world.calls)
      ensures deployment.Abs() == PushClaimStep(old(deployment.Abs()), client, old(next))
      ensures accepted <==> old(deployment.Abs()).Tip(old(deployment.Doing(client)).task)
                            == old(deployment.Doing(client)).expected
      ensures if accepted then deployment.Doing(client).Recording? else Free()
      ensures accepted ==> deployment.Doing(client).task == old(deployment.Doing(client)).task
    {
      hide AllAllowed, Moves, InOrder, Inv, AcquireStep, HeartbeatStep, CompleteStep, UploadResultStep, RecordStep,
           PruneStep, DeleteClaimStep, DeleteResultStep, ObserveStep, ForgetStep;
      var reply := deployment.Publish(client, next);
      accepted := reply.Proceeding?;
      next := next + 1;
      Done(Coordinate(PushClaim(client, next - 1)));
    }

    /** The push of a prepared lease, and its record when it is accepted. */
    method Publish() returns (accepted: bool)
      requires Valid() && deployment.Doing(client).Publishing?
      modifies this`moves, this`world, this`next, deployment
      ensures Valid() && Free() && world.calls == old(world.calls)
      ensures deployment.Abs() == Pushed(deployment.cfg, old(deployment.Abs()), client, old(next))
      ensures var sent := old(deployment.Doing(client));
        && (accepted <==> old(deployment.Abs()).Tip(sent.task) == sent.expected)
        && world.phases == if accepted && old(world.Phase(client)) == Asking(sent.task)
                           then old(world.To(client, Working(sent.task))).phases else old(world.phases)
    {
      hide AllAllowed, Moves, InOrder, Inv, AcquireStep, HeartbeatStep, CompleteStep, UploadResultStep, PushClaimStep,
           PruneStep, DeleteClaimStep, DeleteResultStep, ObserveStep, ForgetStep, IsOwn;
      accepted := Send();
      if accepted {
        deployment.ObserveOwnClaim(client);
        Done(Coordinate(Record(client)));
      }
    }

    /** One turn of the heartbeat thread.  It renews the claim exactly when the claim ref is at an own lease. */
    method Beat()
      requires Valid() && Free() && world.Phase(client) == Working(task)
      modifies this`moves, this`world, this`next, deployment
      ensures Valid() && Free() && world.Phase(client) == Working(task) && client !in world.calls
      ensures if OwnsTip(deployment.cfg, old(deployment.Abs()), client, task)
              then Renewed(deployment.cfg, old(deployment.Abs()), deployment.Abs(), client, task)
              else SameClaims(old(deployment.Abs()), deployment.Abs())
      ensures deployment.results == old(deployment.results) && deployment.clock == old(deployment.clock)
      ensures Shows(deployment.cfg, deployment.Abs(), client, task)
    {
      hide AllAllowed, Moves, InOrder, Inv, AcquireStep, CompleteStep, UploadResultStep, PushClaimStep, RecordStep,
           PruneStep, DeleteClaimStep, DeleteResultStep, ObserveStep, ForgetStep, OwnsTip, Renewed, SameClaims, Pushed,
           Readable, Refreshed, Shows;
      ClaimIsReadable(deployment.cfg, deployment.Abs(), task);
      BeatIs(deployment.cfg, deployment.Abs(), client, task, next);
      Refresh();
      var reply := deployment.Heartbeat(client, task);
      Done(Coordinate(Heartbeat(client, task)));
      if reply.Proceeding? {
        var _ := Publish();
      }
    }

    /** acquire, up to the push. */
    method Request() returns (reply: Reply)
      requires Valid() && Free() && world.Phase(client).Resting? && !IsKnown()
      requires world.Asks(client, task) && world.HasSynced(client, task)
      modifies this`moves, this`world, deployment
      ensures Valid() && (reply.Proceeding? <==> !Free()) && client !in world.calls
      ensures deployment.Abs() == AcquireStep(deployment.cfg, old(deployment.Abs()), client, task)
      ensures reply.Proceeding? ==> world.Phase(client) == Asking(task)
      ensures reply.ProcessingLocal? <==> IsOwn(deployment.cfg, old(deployment.Abs()), client, task)
      ensures reply.ProcessingLocal? ==> world.Phase(client) == Working(task)
      ensures !reply.Proceeding? && !reply.ProcessingLocal? ==> world.Phase(client).Resting?
      ensures world.facts == old(world.facts)
    {
      hide AllAllowed, Moves, InOrder, Inv, HeartbeatStep, CompleteStep, UploadResultStep, PushClaimStep, RecordStep,
           PruneStep, DeleteClaimStep, DeleteResultStep, ObserveStep, ForgetStep;
      reply := deployment.Acquire(client, task);
      Done(Coordinate(Acquire(client, task)));
    }

    /** acquire: a known fact ends it; otherwise the task is worked on with the own lease that is still good, or with a
        new one when the claim is free or has run out. */
    method Ask(isNew: bool) returns (granted: bool)
      requires Valid() && Free() && world.Phase(client).Resting?
      modifies this`moves, this`world, this`next, deployment
      ensures Valid() && Free() && client !in world.calls
      ensures if granted then world.Phase(client) == Working(task)
              else !world.Phase(client).Working? && !world.Phase(client).Joined?
      ensures granted <==> !old(IsKnown()) && !(isNew && task in old(deployment.results))
                           && MayTake(deployment.cfg, old(deployment.Abs()), client, task)
      ensures if granted && !HoldsLive(deployment.cfg, old(deployment.Abs()), client, task)
              then Claimed(deployment.cfg, old(deployment.Abs()), deployment.Abs(), client, task)
              else SameClaims(old(deployment.Abs()), deployment.Abs())
      ensures deployment.results == old(deployment.results) && deployment.clock == old(deployment.clock)
      ensures Shows(deployment.cfg, deployment.Abs(), client, task)
    {
      hide AllAllowed, Moves, InOrder, Inv, GoodConfig, Synced, AcquireStep, Pushed, MayTake, HoldsLive, Claimed, IsOwn,
           SameClaims, Readable, Shows;
      ClaimIsReadable(deployment.cfg, deployment.Abs(), task);
      AskIs(deployment.cfg, deployment.Abs(), client, task, next);
      SyncedIs(deployment.cfg, deployment.Abs(), client, task);
      Sync(isNew);
      if IsKnown() {
        Done(Return(client));
        return false;
      }
      var reply := Request();
      granted := reply.ProcessingLocal?;
      if reply.Proceeding? {
        granted := Publish();
      }
    }

    /** complete looks the claim up. */
    method Prepare(fact: string) returns (ready: bool)
      requires Valid() && Free() && world.Phase(client) == Joined(task)
      modifies this`moves, this`world, deployment
      ensures Valid() && world.phases == old(world.phases)
      ensures deployment.Abs() == CompleteStep(deployment.cfg,
        Refreshed(deployment.cfg, old(deployment.Abs()), client, task), client, task, fact)
      ensures if ready then deployment.Doing(client).Uploading? else Free()
    {
      hide AllAllowed, Moves, InOrder, Inv, PushClaimStep, RecordStep, AcquireStep, HeartbeatStep, PruneStep,
           DeleteClaimStep, DeleteResultStep, ObserveStep, ForgetStep, UploadResultStep;
      Refresh();
      var reply := deployment.Complete(client, task, fact);
      Done(Coordinate(Complete(client, task, fact)));
      ready := reply.Proceeding?;
    }

    /** complete makes the result durable and prepares the completion lease. */
    method SendResult() returns (stored: bool)
      requires Valid() && deployment.Doing(client).Uploading?
      modifies this`moves, this`world, deployment
      ensures Valid() && world.phases == old(world.phases)
      ensures deployment.Abs() == UploadResultStep(old(deployment.Abs()), client)
      ensures stored <==> old(deployment.Doing(client)).task !in old(deployment.results)
      ensures if stored then deployment.Doing(client).Publishing? else Free()
    {
      hide AllAllowed, Moves, InOrder, Inv, PushClaimStep, RecordStep, AcquireStep, HeartbeatStep, PruneStep,
           DeleteClaimStep, DeleteResultStep, ObserveStep, ForgetStep, CompleteStep;
      var reply := deployment.PublishResult(client);
      stored := reply.Proceeding?;
      Done(Coordinate(UploadResult(client)));
    }

    /** complete: the result first, then the claim.  It is reported exactly when the claim ref is at an own lease and
        there is no result yet. */
    method Finish(fact: string) returns (completed: bool)
      requires Valid() && Free() && world.Phase(client) == Joined(task)
      modifies this`moves, this`world, this`next, deployment
      ensures Valid() && Free()
      ensures completed <==>
        OwnsTip(deployment.cfg, old(deployment.Abs()), client, task) && task !in old(deployment.results)
      ensures if completed then Finished(old(deployment.Abs()), deployment.Abs(), client, task, fact)
              else SameClaims(old(deployment.Abs()), deployment.Abs())
      ensures deployment.results == if KnowsOwn(deployment.cfg, old(deployment.Abs()), client, task)
                                       && task !in old(deployment.results)
                                    then old(deployment.results)[task := fact] else old(deployment.results)
      ensures deployment.clock == old(deployment.clock) && Shows(deployment.cfg, deployment.Abs(), client, task)
    {
      hide AllAllowed, Moves, InOrder, Inv, GoodConfig, Refreshed, CompleteStep, UploadResultStep, Pushed, OwnsTip,
           Finished, SameClaims, Readable, Shows;
      ClaimIsReadable(deployment.cfg, deployment.Abs(), task);
      FinishIs(deployment.cfg, deployment.Abs(), client, task, fact, next);
      KnownByRef(deployment.cfg, deployment.Abs(), client, task);
      completed := Prepare(fact);
      if completed {
        completed := SendResult();
      }
      if completed {
        completed := Publish();
      }
    }

    /** The acquire is granted: no fact ends it, and the claim may be taken. */
    ghost predicate Grants(isNew: bool)
      reads this, deployment
    {
      && !IsKnown() && !(isNew && task in deployment.results)
      && MayTake(deployment.cfg, deployment.Abs(), client, task)
    }

    /** The moves of the others until the next heartbeat, and the heartbeat.  When the claim has more time left, it is
        renewed, whatever the others do. */
    method Period(pause: seq<Move>, ghost left: int)
      requires Valid() && Free() && world.Phase(client) == Working(task) && client !in world.calls
      modifies this`moves, this`world, this`next, deployment
      ensures Valid() && Free() && world.Phase(client) == Working(task) && client !in world.calls
      ensures deployment.clock == old(deployment.clock) + Elapsed(pause)
      ensures Outlives(deployment.cfg, old(deployment.Abs()), client, task, left, pause) ==>
        && HasLeft(deployment.cfg, deployment.Abs(), client, task, deployment.cfg(client).leaseSeconds)
        && IssuedNow(deployment.cfg, deployment.Abs(), task)
    {
      hide AllAllowed, Moves, InOrder, Inv, GoodConfig, OwnsTip, Renewed, SameClaims, Run, HasLeft, IssuedNow, Elapsed,
           Outlives;
      ghost var held := deployment.Abs();
      ghost var actions := Elsewhere(pause);
      if Outlives(deployment.cfg, held, client, task, left, pause) {
        PausePasses(deployment.cfg, held, actions, client, task, left, pause);
      }
      ghost var before := deployment.Abs();
      Beat();
      if Outlives(deployment.cfg, held, client, task, left, pause) {
        BeatPasses(deployment.cfg, before, deployment.Abs(), client, task);
      }
    }

    /** The moves of the others until the extractor is done, and the join. */
    method Await(last: seq<Move>, ghost left: int)
      requires Valid() && Free() && world.Phase(client) == Working(task) && client !in world.calls
      modifies this`moves, this`world, this`next, deployment
      ensures Valid() && Free() && world.Phase(client) == Joined(task)
      ensures deployment.clock == old(deployment.clock) + Elapsed(last)
      ensures Outlives(deployment.cfg, old(deployment.Abs()), client, task, left, last) ==>
        && OwnsTip(deployment.cfg, deployment.Abs(), client, task)
        && (IssuedNow(deployment.cfg, old(deployment.Abs()), task) ==>
              RenewedSince(deployment.cfg, deployment.Abs(), old(deployment.clock), task))
    {
      hide AllAllowed, Moves, InOrder, Inv, GoodConfig, OwnsTip, Run, IssuedNow, Elapsed, Outlives, RenewedSince;
      ghost var held := deployment.Abs();
      ghost var actions := Elsewhere(last);
      if Outlives(deployment.cfg, held, client, task, left, last) {
        PausePasses(deployment.cfg, held, actions, client, task, left, last);
        if IssuedNow(deployment.cfg, held, task) {
          JoinedInTime(deployment.cfg, held, actions, client, task);
        }
      }
      Done(Join(client));
    }

    /** The heartbeats while the extractor runs, with what the others do before each of them and before the extractor is
        done, and the join.  When each pause takes less time than the claim has left, it is still the producer's at the
        join, whatever the others do, and lasts as long as a lease written at the last heartbeat. */
    method Extract(pauses: seq<seq<Move>>, last: seq<Move>)
      requires Valid() && Free() && world.Phase(client) == Working(task) && client !in world.calls
      requires CurrentTip(deployment.Abs(), task)
      modifies this`moves, this`world, this`next, deployment
      ensures Valid() && Free() && world.Phase(client) == Joined(task)
      ensures deployment.clock == old(deployment.clock) + ElapsedAll(pauses) + Elapsed(last)
      ensures var asked := old(deployment.Abs());
        Keeps(deployment.cfg, asked, client, task, pauses + [last]) ==>
          && OwnsTip(deployment.cfg, deployment.Abs(), client, task)
          && (pauses != [] ==> RenewedSince(deployment.cfg, deployment.Abs(), deployment.clock - Elapsed(last), task))
    {
      hide Valid, OwnsTip, RenewedSince, HasLeft, IssuedNow, Elapsed, ElapsedAll, Keeps, Outlives;
      ghost var asked, all := deployment.Abs(), pauses + [last];
      ghost var kept := Keeps(deployment.cfg, asked, client, task, all);
      if kept {
        KeepsAtFirst(deployment.cfg, asked, client, task, all);
      }
      NoPause();
      for n := 0 to |pauses|
        invariant Valid() && Free() && world.Phase(client) == Working(task) && client !in world.calls
        invariant deployment.clock == old(deployment.clock) + ElapsedAll(pauses[..n])
        invariant kept && n > 0 ==> IssuedNow(deployment.cfg, deployment.Abs(), task)
        invariant kept ==>
          HasLeft(deployment.cfg, deployment.Abs(), client, task, Allowance(deployment.cfg, asked, client, task, n))
      {
        ElapsedAllAppended(pauses, n);
        if kept {
          PauseIsShort(deployment.cfg, asked, deployment.Abs(), client, task, all, n);
        }
        Period(pauses[n], Allowance(deployment.cfg, asked, client, task, n));
      }
      assert pauses[..|pauses|] == pauses && all[|pauses|] == last;
      if kept {
        PauseIsShort(deployment.cfg, asked, deployment.Abs(), client, task, all, |pauses|);
      }
      Await(last, Allowance(deployment.cfg, asked, client, task, |pauses|));
    }

    /** The end of run_task. */
    method Rest()
      requires Valid() && Free()
      modifies this`moves, this`world
      ensures Valid() && Free() && world.Phase(client).Resting? && client !in world.calls
    {
      hide AllAllowed, Moves, InOrder, Inv;
      Done(Leave(client));
    }

    /** The claim is granted: the extraction, and the completion. */
    method Work(pauses: seq<seq<Move>>, last: seq<Move>, fact: string) returns (completed: bool, ghost joined: State)
      requires Valid() && Free() && world.Phase(client) == Working(task) && client !in world.calls
      requires CurrentTip(deployment.Abs(), task)
      modifies this`moves, this`world, this`next, deployment
      ensures Valid() && Free()
      ensures completed ==> IsDone(deployment.Abs(), deployment.cfg(client).producer, task, fact)
      ensures completed <==> OwnsTip(deployment.cfg, joined, client, task) && task !in joined.results
      ensures joined.clock == old(deployment.clock) + ElapsedAll(pauses) + Elapsed(last)
      ensures Keeps(deployment.cfg, old(deployment.Abs()), client, task, pauses + [last]) ==>
        && OwnsTip(deployment.cfg, joined, client, task)
        && (pauses != [] ==> RenewedSince(deployment.cfg, joined, joined.clock - Elapsed(last), task))
    {
      hide AllAllowed, Moves, InOrder, Inv, GoodConfig, OwnsTip, Keeps, RenewedSince, IsDone, Finished, KnowsOwn,
           Elapsed, ElapsedAll, SameClaims, CurrentTip, Readable;
      Extract(pauses, last);
      joined := deployment.Abs();
      completed := Finish(fact);
      if completed {
        ClaimIsReadable(deployment.cfg, joined, task);
        KnownByRef(deployment.cfg, joined, client, task);
        FinishedIsDone(deployment.cfg, joined, deployment.Abs(), client, task, fact);
      }
    }

    /** run_task: the acquire, the heartbeats while the extractor runs, and the completion.  The claim is granted in
        `asked` and stands in `joined` at the join. */
    method RunTask(isNew: bool, pauses: seq<seq<Move>>, last: seq<Move>, fact: string)
      returns (completed: bool, ghost asked: State, ghost joined: State)
      requires Valid() && Free() && world.Phase(client).Resting?
      modifies this`moves, this`world, this`next, deployment
      ensures Valid() && Free() && world.Phase(client).Resting?
      ensures completed ==> IsDone(deployment.Abs(), deployment.cfg(client).producer, task, fact)
      ensures completed && OthersQuiet() ==> Lasts(deployment.cfg, world, task, deployment.claims[task])
      ensures !old(Grants(isNew)) ==> !completed && SameClaims(old(deployment.Abs()), deployment.Abs())
      ensures old(Grants(isNew)) ==>
        && (if HoldsLive(deployment.cfg, old(deployment.Abs()), client, task)
            then SameClaims(old(deployment.Abs()), asked)
            else Claimed(deployment.cfg, old(deployment.Abs()), asked, client, task))
        && asked.clock == old(deployment.clock) && joined.clock == asked.clock + ElapsedAll(pauses) + Elapsed(last)
        && (completed <==> OwnsTip(deployment.cfg, joined, client, task) && task !in joined.results)
        && (Keeps(deployment.cfg, asked, client, task, pauses + [last]) ==>
              && OwnsTip(deployment.cfg, joined, client, task)
              && (pauses != [] ==> RenewedSince(deployment.cfg, joined, joined.clock - Elapsed(last), task)))
    {
      hide AllAllowed, Moves, InOrder, Inv, Lasts, GoodConfig, MayTake, HoldsLive, Claimed, SameClaims, OwnsTip, Keeps,
           RenewedSince, IsDone, Elapsed, ElapsedAll, CurrentTip, OthersQuiet;
      completed := false;
      ghost var begin := deployment.Abs();
      var granted := Ask(isNew);
      asked, joined := deployment.Abs(), deployment.Abs();
      if granted {
        GrantedIs(deployment.cfg, begin, asked, client, task);
        completed, joined := Work(pauses, last, fact);
      }
      Rest();
      if completed && OthersQuiet() {
        Rested(fact);
      }
    }

    /** The other processes of the producer leave the task alone. */
    ghost predicate OthersQuiet()
      reads this, deployment
    {
      forall d | deployment.cfg(d).producer == deployment.cfg(client).producer && d != client :: Quiet(world, d, task)
    }

    lemma Rested(fact: string)
      requires Valid() && Free() && world.Phase(client).Resting? && client !in world.calls && OthersQuiet()
      requires IsDone(deployment.Abs(), deployment.cfg(client).producer, task, fact)
      ensures Lasts(deployment.cfg, world, task, deployment.claims[task])
    {
      hide InOrder, Inv, Lasts;
      assert Quiet(world, client, task);
      QuietLasts(deployment.cfg, world, task, deployment.claims[task]);
    }
  }
}
