/** The bounded cache of extraction facts: storing one evicts the least recently used others,
    and reopens the work whose facts are gone. */
module FactCache {
  import opened Ordering
  import opened Sums
  import opened WorkQueue

  /** `length` is what the byte limit counts: the length of the fact's JSON text. */
  datatype Fact = Fact(task: WorkId, length: nat, createdAt: int, accessedAt: int)

  const BATCH: nat := 100

  /** The eviction order: access time, creation time, identity. */
  predicate Older(facts: map<string, Fact>, a: string, b: string)
    requires a in facts && b in facts
  {
    var x, y := facts[a], facts[b];
    || x.accessedAt < y.accessedAt
    || (x.accessedAt == y.accessedAt && (x.createdAt < y.createdAt || (x.createdAt == y.createdAt && Less(a, b))))
  }

  lemma OlderIsStrictTotal(facts: map<string, Fact>, a: string, b: string, c: string)
    requires a in facts && b in facts && c in facts
    ensures !Older(facts, a, a)
    ensures Older(facts, a, b) || a == b || Older(facts, b, a)
    ensures Older(facts, a, b) && Older(facts, b, c) ==> Older(facts, a, c)
  {
    LessIrreflexive(a);
    LessTotal(a, b);
    if Less(a, b) && Less(b, c) {
      LessTransitive(a, b, c);
    }
  }

  function LengthOf(facts: map<string, Fact>, id: string): nat {
    if id in facts then facts[id].length else 0
  }

  ghost function TotalLength(facts: map<string, Fact>): nat {
    Sum(facts.Keys, (id: string) => LengthOf(facts, id))
  }

  lemma LengthWithout(facts: map<string, Fact>, id: string)
    requires id in facts
    ensures TotalLength(facts) == facts[id].length + TotalLength(facts - {id})
  {
    var left := facts - {id};
    SumWithout(facts.Keys, (x: string) => LengthOf(facts, x), id);
    assert left.Keys == facts.Keys - {id};
    SumAgrees(left.Keys, (x: string) => LengthOf(facts, x), (x: string) => LengthOf(left, x));
  }

  /** The first `n` facts in eviction order, all of them if there are fewer. */
  ghost predicate IsOldest(facts: map<string, Fact>, gone: set<string>, n: nat) {
    && gone <= facts.Keys && |gone| == Min(n, |facts|)
    && forall a <- gone, b <- facts.Keys - gone :: Older(facts, a, b)
  }

  /** The oldest fact that is left comes next. */
  lemma OldestNext(facts: map<string, Fact>, gone: set<string>, left: map<string, Fact>, id: string)
    requires gone <= facts.Keys && left == facts - gone && id in left
    requires forall a <- gone, b <- facts.Keys - gone :: Older(facts, a, b)
    requires forall b <- left :: b != id ==> Older(left, id, b)
    ensures forall a <- gone + {id}, b <- facts.Keys - (gone + {id}) :: Older(facts, a, b)
  {
    forall b <- facts.Keys - (gone + {id})
      ensures Older(facts, id, b)
    {
      assert b in left && Older(left, id, b);
    }
  }

  /** There is only one such set. */
  lemma OldestUnique(facts: map<string, Fact>, gone: set<string>, other: set<string>, n: nat)
    requires IsOldest(facts, gone, n) && IsOldest(facts, other, n)
    ensures gone == other
  {
    if gone <= other {
      SubsetSize(gone, other);
    } else if other <= gone {
      SubsetSize(other, gone);
    } else {
      var a :| a in gone && a !in other;
      var b :| b in other && b !in gone;
      OlderIsStrictTotal(facts, a, b, a);
    }
  }

  lemma OldestAdd(facts: map<string, Fact>, gone: set<string>, more: set<string>, n: nat, m: nat)
    requires IsOldest(facts, gone, n) && IsOldest(facts - gone, more, m)
    ensures IsOldest(facts, gone + more, n + m) && facts - gone - more == facts - (gone + more)
  {
    var left := facts - gone;
    assert left.Keys == facts.Keys - gone && gone !! more;
    assert |left.Keys| == |facts.Keys| - |gone|;
    forall a <- gone + more, b <- facts.Keys - (gone + more)
      ensures Older(facts, a, b)
    {
      if a in more {
        assert b in left.Keys - more && Older(left, a, b);
      }
    }
  }

  predicate WithinLimits(count: nat, bytes: nat, maxFacts: nat, maxBytes: nat) {
    count <= maxFacts && bytes <= maxBytes
  }

  lemma EmptyHasNoLength(facts: map<string, Fact>)
    ensures facts == map[] ==> TotalLength(facts) == 0
  {
    if facts == map[] {
      assert facts.Keys == {};
    }
  }

  /** `gone` are the oldest facts, in `batches` batches of which every one was needed. */
  ghost predicate EvictedInBatches(facts: map<string, Fact>, gone: set<string>, batches: nat, maxFacts: nat,
                                   maxBytes: nat)
  {
    && IsOldest(facts, gone, BATCH * batches)
    && forall n: nat, some :: n < batches && IsOldest(facts, some, BATCH * n) ==>
         !WithinLimits(|facts - some|, TotalLength(facts - some), maxFacts, maxBytes)
  }

  lemma BatchAdded(facts: map<string, Fact>, gone: set<string>, more: set<string>, batches: nat, maxFacts: nat,
                   maxBytes: nat)
    requires EvictedInBatches(facts, gone, batches, maxFacts, maxBytes)
    requires !WithinLimits(|facts - gone|, TotalLength(facts - gone), maxFacts, maxBytes)
    requires IsOldest(facts - gone, more, BATCH)
    ensures EvictedInBatches(facts, gone + more, batches + 1, maxFacts, maxBytes)
    ensures facts - gone - more == facts - (gone + more)
  {
    OldestAdd(facts, gone, more, BATCH * batches, BATCH);
    forall n: nat, some | n < batches + 1 && IsOldest(facts, some, BATCH * n)
      ensures !WithinLimits(|facts - some|, TotalLength(facts - some), maxFacts, maxBytes)
    {
      if n == batches {
        OldestUnique(facts, some, gone, BATCH * n);
      }
    }
  }

  // ---------------------------------------------------------------- work and publication

  function Completes(items: map<WorkId, Item>, task: WorkId): map<WorkId, Item> {
    if task in items then items[task := items[task].(state := Completed, owner := "")] else items
  }

  predicate HasFact(facts: map<string, Fact>, task: WorkId) {
    exists id <- facts :: facts[id].task == task
  }

  /** Completed work without a cached fact goes back to the queue. */
  function Reopened(facts: map<string, Fact>, items: map<WorkId, Item>): map<WorkId, Item> {
    map w <- items :: if items[w].state.Completed? && !HasFact(facts, w)
                      then items[w].(state := Pending, nextAttempt := 0) else items[w]
  }

  function StillPublished(items: map<WorkId, Item>, published: set<WorkId>): set<WorkId> {
    set w | w in published && !(w in items && items[w].state.Pending?)
  }

  /** Exactly the completed work with a cached fact stays completed, and nothing that waits to
      run is marked published. */
  lemma ReopenedIsConsistent(facts: map<string, Fact>, items: map<WorkId, Item>, published: set<WorkId>, w: WorkId)
    requires w in items
    ensures Reopened(facts, items)[w].state.Completed? <==> items[w].state.Completed? && HasFact(facts, w)
    ensures w in StillPublished(Reopened(facts, items), published) <==>
      w in published && !items[w].state.Pending? && (items[w].state.Completed? ==> HasFact(facts, w))
  {
  }

  /** Completed work is reopened exactly when it had no fact at all, or all its facts have just been evicted. */
  lemma ReopensExactly(facts: map<string, Fact>, gone: set<string>, items: map<WorkId, Item>, w: WorkId)
    requires w in items && items[w].state.Completed?
    ensures Reopened(facts - gone, items)[w].state.Pending? <==>
      !HasFact(facts, w) || forall id <- facts :: facts[id].task == w ==> id in gone
  {
    var left := facts - gone;
    if id :| id in facts && facts[id].task == w && id !in gone {
      assert id in left && HasFact(left, w);
    }
  }

  ghost predicate OnlyExtractions(facts: map<string, Fact>) {
    forall id <- facts :: facts[id].task.Extraction?
  }

  /** As facts belong to extractions, that is all completed work of any other kind. */
  lemma OtherWorkIsReopened(facts: map<string, Fact>, items: map<WorkId, Item>, w: WorkId)
    requires OnlyExtractions(facts) && w in items && !w.Extraction?
    ensures !Reopened(facts, items)[w].state.Completed?
    ensures items[w].state.Completed? ==>
      Reopened(facts, items)[w].state.Pending? && Reopened(facts, items)[w].nextAttempt == 0
  {
    assert !HasFact(facts, w);
  }

  lemma ExtractionsComplete(facts: map<string, Fact>, items: map<WorkId, Item>)
    requires forall w <- items :: items[w].state.Completed? ==> HasFact(facts, w)
    ensures OnlyExtractions(facts) ==> forall w <- items :: items[w].state.Completed? ==> w.Extraction?
  {
  }

  /** Storing a fact, as a step of the queue's state; `facts` are those that are left.  No runner is launched. */
  function StoreStep(s: State, facts: map<string, Fact>, task: WorkId): State {
    s.(items := Reopened(facts, Completes(s.items, task)))
  }

  /** Completed after a fact of `task` is stored. */
  predicate CompletedThen(s: State, facts: map<string, Fact>, task: WorkId, w: WorkId)
    requires w in s.items
  {
    (s.items[w].state.Completed? || w == task) && HasFact(facts, w)
  }

  /** Work that can run after a fact of `task` is stored: it is reopened or was queued, and waits for nothing. */
  predicate RunsThen(s: State, facts: map<string, Fact>, task: WorkId, w: WorkId, since: int) {
    && w in s.items && !s.items[w].cancelled
    && (if s.items[w].state.Completed? || w == task then !HasFact(facts, w) && 0 <= since
        else Queued(s.items[w]) && s.items[w].nextAttempt <= since)
    && forall d <- s.deps :: d.0 == w && d.1 in s.items ==> CompletedThen(s, facts, task, d.1)
  }

  lemma StoredItem(s: State, facts: map<string, Fact>, task: WorkId, w: WorkId)
    ensures w in StoreStep(s, facts, task).items <==> w in s.items
    ensures w in s.items ==>
      var i := StoreStep(s, facts, task).items[w];
      && i.cancelled == s.items[w].cancelled
      && (i.state.Completed? <==> CompletedThen(s, facts, task, w))
      && (if s.items[w].state.Completed? || w == task
          then Queued(i) <==> !HasFact(facts, w)
          else i == s.items[w])
      && ((s.items[w].state.Completed? || w == task) && !HasFact(facts, w) ==> i.nextAttempt == 0)
  {
  }

  lemma StoredRuns(s: State, facts: map<string, Fact>, task: WorkId, w: WorkId, since: int)
    ensures Runnable(StoreStep(s, facts, task), w, since) <==> RunsThen(s, facts, task, w, since)
  {
    hide StoreStep, CompletedThen, HasFact;
    var s' := StoreStep(s, facts, task);
    StoredItem(s, facts, task, w);
    assert s'.deps == s.deps by {
      StoredRest(s, facts, task);
    }
    forall d <- s.deps
      ensures d.1 in s'.items <==> d.1 in s.items
      ensures d.1 in s.items ==> (s'.items[d.1].state.Completed? <==> CompletedThen(s, facts, task, d.1))
    {
      StoredItem(s, facts, task, d.1);
    }
    assert w in s.items ==>
      (Blocked(s', w) <==> exists d <- s.deps :: d.0 == w && d.1 in s.items && !CompletedThen(s, facts, task, d.1));
  }

  lemma StoredRest(s: State, facts: map<string, Fact>, task: WorkId)
    ensures StoreStep(s, facts, task).deps == s.deps && StoreStep(s, facts, task).lease == s.lease
  {
  }

  /** Storing a fact leaves work without a runner exactly when there is no lease and some usable work can then run. */
  lemma StoreStrandsExactly(s: State, facts: map<string, Fact>, task: WorkId, capabilities: set<string>, since: int)
    ensures !Awake(StoreStep(s, facts, task), capabilities, since) <==>
      s.lease.None? && exists w :: RunsThen(s, facts, task, w, since) && Usable(w.Credential(), capabilities)
  {
    hide StoreStep, RunsThen, Runnable;
    StoredRest(s, facts, task);
    forall w ensures Runnable(StoreStep(s, facts, task), w, since) <==> RunsThen(s, facts, task, w, since) {
      StoredRuns(s, facts, task, w, since);
    }
  }

  /** An item after a fact of a task is stored: completed work and the task itself are completed while they have a fact,
      and due at once without one; no other work changes. */
  ghost predicate StoredAs(was: Item, item: Item, facts: map<string, Fact>, w: WorkId, task: WorkId) {
    var settled := if w == task then was.(owner := "") else was;
    item == if !was.state.Completed? && w != task then was
            else if exists id <- facts :: facts[id].task == w then settled.(state := Completed)
            else settled.(state := Pending, nextAttempt := 0)
  }

  lemma StoredItemIs(facts: map<string, Fact>, items: map<WorkId, Item>, task: WorkId)
    ensures var after := Reopened(facts, Completes(items, task));
      after.Keys == items.Keys && forall w <- items :: StoredAs(items[w], after[w], facts, w, task)
  {
  }

  /** Of a fact that goes and one that stays the first was used no later, nor, if used together, created later. */
  ghost predicate KeepsRecent(all: map<string, Fact>, kept: map<string, Fact>) {
    forall a <- all.Keys - kept.Keys, b <- kept | b in all ::
      && all[a].accessedAt <= all[b].accessedAt
      && (all[a].accessedAt == all[b].accessedAt ==> all[a].createdAt <= all[b].createdAt)
  }

  lemma NoneEvicted(facts: map<string, Fact>, maxFacts: nat, maxBytes: nat)
    ensures EvictedInBatches(facts, {}, 0, maxFacts, maxBytes) && facts - {} == facts
  {
  }

  lemma OldestGo(all: map<string, Fact>, gone: set<string>, batches: nat, maxFacts: nat, maxBytes: nat)
    requires EvictedInBatches(all, gone, batches, maxFacts, maxBytes)
    ensures KeepsRecent(all, all - gone) && |all| - |all - gone| == Min(100 * batches, |all|)
  {
    assert (all - gone).Keys == all.Keys - gone;
    forall a <- all.Keys - (all - gone).Keys, b <- all - gone
      ensures all[a].accessedAt <= all[b].accessedAt
      ensures all[a].accessedAt == all[b].accessedAt ==> all[a].createdAt <= all[b].createdAt
    {
      assert Older(all, a, b);
    }
  }

  lemma StillExtractions(facts: map<string, Fact>, all: map<string, Fact>, left: map<string, Fact>, id: string,
                         task: WorkId)
    requires left.Keys <= all.Keys && forall k <- left :: left[k] == all[k]
    requires forall k <- all :: (k in facts && all[k] == facts[k]) || all[k].task == task
    ensures OnlyExtractions(facts) && task.Extraction? ==> OnlyExtractions(left)
  {
  }

  lemma EverythingConsistent(facts: map<string, Fact>, items: map<WorkId, Item>, published: set<WorkId>)
    ensures var after := Reopened(facts, items);
      forall w <- after :: (after[w].state.Completed? ==> HasFact(facts, w))
                           && (after[w].state.Pending? ==> w !in StillPublished(after, published))
  {
  }

  /** Unlike the queue's own steps, storing a fact completes work whose cancellation was accepted. */
  lemma StoringIgnoresCancellation(facts: map<string, Fact>, items: map<WorkId, Item>, task: WorkId)
    requires task in items && items[task].state.Cancelled? && items[task].cancelled && HasFact(facts, task)
    ensures var after := Reopened(facts, Completes(items, task));
      after[task].cancelled && after[task].state.Completed?
  {
    ReopenedIsConsistent(facts, Completes(items, task), {}, task);
  }

  /** The tables facts, work_items and published_tasks. */
  class FactTable {
    const maxFacts: nat
    const maxBytes: nat
    var facts: map<string, Fact>
    var items: map<WorkId, Item>
    var published: set<WorkId>

    /** SELECT sum(length(fact_json)). */
    method UsedLength() returns (bytes: nat)
      ensures bytes == TotalLength(facts)
    {
      bytes := 0;
      var rest := facts;
      while rest != map[]
        invariant rest.Keys <= facts.Keys && forall id <- rest :: rest[id] == facts[id]
        invariant bytes + TotalLength(rest) == TotalLength(facts)
        decreases |rest|
      {
        var id :| id in rest;
        LengthWithout(rest, id);
        bytes := bytes + rest[id].length;
        assert (rest - {id}).Keys == rest.Keys - {id};
        rest := rest - {id};
      }
      EmptyHasNoLength(rest);
    }

    method OldestOf(ids: set<string>) returns (oldest: string)
      requires ids != {} && ids <= facts.Keys
      ensures oldest in ids && forall id <- ids :: id != oldest ==> Older(facts, oldest, id)
    {
      oldest :| oldest in ids;
      var rest := ids - {oldest};
      while rest != {}
        invariant rest <= ids && oldest in ids
        invariant forall id <- ids :: id == oldest || id in rest || Older(facts, oldest, id)
      {
        var id :| id in rest;
        OlderIsStrictTotal(facts, id, oldest, oldest);
        if Older(facts, id, oldest) {
          forall other <- ids | other != id && other !in rest
            ensures Older(facts, id, other)
          {
            OlderIsStrictTotal(facts, id, oldest, other);
          }
          oldest := id;
        }
        rest := rest - {id};
      }
    }

    /** DELETE of the hundred oldest facts, returning how many went and their lengths. */
    method DeleteOldest() returns (removed: nat, removedBytes: nat)
      modifies this`facts
      ensures exists gone: set<string> :: IsOldest(old(facts), gone, BATCH) && facts == old(facts) - gone
      ensures removed == |old(facts)| - |facts| == Min(BATCH, |old(facts)|)
      ensures removedBytes + TotalLength(facts) == TotalLength(old(facts))
    {
      hide TotalLength, LengthOf, Older;
      ghost var before, gone := facts, {};
      removed, removedBytes := 0, 0;
      while removed < BATCH && facts != map[]
        invariant removed <= BATCH && gone <= before.Keys && |gone| == removed
        invariant facts == before - gone && facts.Keys == before.Keys - gone && |facts| + removed == |before|
        invariant forall a <- gone, b <- before.Keys - gone :: Older(before, a, b)
        invariant removedBytes + TotalLength(facts) == TotalLength(before)
        decreases |facts|
      {
        var id := OldestOf(facts.Keys);
        LengthWithout(facts, id);
        OldestNext(before, gone, facts, id);
        removed, removedBytes := removed + 1, removedBytes + facts[id].length;
        gone := gone + {id};
        facts := facts - {id};
        assert facts.Keys == before.Keys - gone;
        assert facts == before - gone;
      }
      assert IsOldest(before, gone, BATCH);
    }

    /** Brings the table within its limits, a batch at a time. */
    method Evict() returns (batches: nat)
      modifies this`facts
      ensures WithinLimits(|facts|, TotalLength(facts), maxFacts, maxBytes)
      ensures exists gone: set<string> ::
        EvictedInBatches(old(facts), gone, batches, maxFacts, maxBytes) && facts == old(facts) - gone
      ensures KeepsRecent(old(facts), facts) && |old(facts)| - |facts| == Min(100 * batches, |old(facts)|)
    {
      hide KeepsRecent, TotalLength, EvictedInBatches, IsOldest;
      NoneEvicted(facts, maxFacts, maxBytes);
      ghost var before, gone := facts, {};
      var count := |facts|;
      var bytes := UsedLength();
      batches := 0;
      assert facts == before - gone;
      while count > maxFacts || bytes > maxBytes
        invariant count == |facts| && bytes == TotalLength(facts)
        invariant facts == before - gone && EvictedInBatches(before, gone, batches, maxFacts, maxBytes)
        decreases |facts|
      {
        EmptyHasNoLength(facts);
        ghost var left := facts;
        var removed, removedBytes := DeleteOldest();
        ghost var more: set<string> :| IsOldest(left, more, BATCH) && facts == left - more;
        BatchAdded(before, gone, more, batches, maxFacts, maxBytes);
        gone, batches := gone + more, batches + 1;
        if removed == 0 {
          break;
        }
        count := count - (if count < removed then count else removed);
        bytes := bytes - (if bytes < removedBytes then bytes else removedBytes);
      }
      OldestGo(before, gone, batches, maxFacts, maxBytes);
    }

    /** Completed work without a fact is due again, and what is due is not published. */
    method Reschedule()
      modifies this`items, this`published
      ensures items == Reopened(facts, old(items))
      ensures forall w :: w in published <==> w in old(published) && !(w in items && items[w].state.Pending?)
      ensures forall w <- items :: items[w].state.Completed? ==> HasFact(facts, w)
    {
      hide HasFact;
      EverythingConsistent(facts, items, published);
      items := Reopened(facts, items);
      published := StillPublished(items, published);
    }

    method StoreFact(id: string, task: WorkId, length: nat, now: int) returns (batches: nat)
      modifies this
      ensures WithinLimits(|facts|, TotalLength(facts), maxFacts, maxBytes)
      ensures var all := if id in old(facts) then old(facts) else old(facts)[id := Fact(task, length, now, now)];
        exists gone: set<string> :: EvictedInBatches(all, gone, batches, maxFacts, maxBytes) && facts == all - gone
      ensures var all := if id in old(facts) then old(facts) else old(facts)[id := Fact(task, length, now, now)];
        KeepsRecent(all, facts) && |all| - |facts| == Min(100 * batches, |all|)
      ensures items == Reopened(facts, Completes(old(items), task)) && items.Keys == old(items).Keys
      ensures forall w <- items :: StoredAs(old(items)[w], items[w], facts, w, task)
      ensures forall w :: w in published <==> w in old(published) && !(w in items && items[w].state.Pending?)
      ensures forall w <- items :: items[w].state.Completed? ==> HasFact(facts, w)
      ensures forall w <- items :: items[w].state.Pending? ==> w !in published
      ensures OnlyExtractions(old(facts)) && task.Extraction? ==>
        OnlyExtractions(facts) && forall w <- items :: items[w].state.Completed? ==> w.Extraction?
    {
      hide TotalLength, EvictedInBatches, WithinLimits, Reopened, StillPublished, HasFact, StoredAs, KeepsRecent, Min,
           OnlyExtractions;
      if id !in facts {
        facts := facts[id := Fact(task, length, now, now)];
      }
      if task in items {
        items := items[task := items[task].(state := Completed, owner := "")];
      }
      assert items == Completes(old(items), task);
      ghost var all := facts;
      batches := Evict();
      StoredItemIs(facts, old(items), task);
      Reschedule();
      StillExtractions(old(facts), all, facts, id, task);
      ExtractionsComplete(facts, items);
    }
  }
}
