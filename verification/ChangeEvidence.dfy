/** Origins of changes between two revisions: attribution, propagation to dependents and the fact budget. */
module ChangeEvidence {
  import opened Sums

  type Id = string

  // ---------------------------------------------------------------- propagation along dependents

  type Graph = map<Id, seq<Id>>

  function Next(g: Graph, id: Id): seq<Id> {
    if id in g then g[id] else []
  }

  /** `id` is reached from `root` by a walk of exactly `n` dependents edges. */
  ghost predicate Walk(g: Graph, root: Id, id: Id, n: nat)
    decreases n
  {
    if n == 0 then id == root else exists s :: Walk(g, root, s, n - 1) && id in Next(g, s)
  }

  /** An element met by the propagation from `root`, and how many edges away. */
  datatype Visit = Visit(id: Id, depth: nat, root: Id)

  /** The visit is at the shortest distance: no walk of fewer edges, but at least one, reaches the element. */
  ghost predicate Nearest(g: Graph, v: Visit) {
    && v.depth >= 1 && Walk(g, v.root, v.id, v.depth)
    && forall n | 1 <= n < v.depth :: !Walk(g, v.root, v.id, n)
  }

  ghost predicate Reached(g: Graph, root: Id, id: Id, maximumDepth: nat) {
    exists n :: 1 <= n <= maximumDepth && Walk(g, root, id, n)
  }

  function Starts(roots: seq<Id>): seq<Visit> {
    seq(|roots|, i requires 0 <= i < |roots| => Visit(roots[i], 0, roots[i]))
  }

  /** The roots, then the visits, in the order in which the queue held them. */
  function Order(roots: seq<Id>, visits: seq<Visit>): seq<Visit> {
    Starts(roots) + visits
  }

  ghost predicate Found(g: Graph, roots: seq<Id>, maximumDepth: nat, v: Visit) {
    Nearest(g, v) && v.depth <= maximumDepth && v.root in roots
  }

  /** The visits are at shortest distances, within the depth, and pairwise different. */
  ghost predicate Shortest(g: Graph, roots: seq<Id>, maximumDepth: nat, visits: seq<Visit>) {
    && (forall i {:trigger Found(g, roots, maximumDepth, visits[i])} | 0 <= i < |visits| ::
         Found(g, roots, maximumDepth, visits[i]))
    && (forall i, j | 0 <= i < j < |visits| :: (visits[i].root, visits[i].id) != (visits[j].root, visits[j].id))
  }

  predicate Ascending(order: seq<Visit>) {
    forall i, j | 0 <= i < j < |order| :: order[i].depth <= order[j].depth
  }

  function Pairs(visits: seq<Visit>): set<(Id, Id)> {
    if visits == [] then {}
    else
      var v := visits[|visits| - 1];
      Pairs(visits[..|visits| - 1]) + {(v.root, v.id)}
  }

  lemma {:induction false} PairIsVisited(visits: seq<Visit>, i: nat)
    requires i < |visits|
    ensures (visits[i].root, visits[i].id) in Pairs(visits)
  {
    if i < |visits| - 1 {
      PairIsVisited(visits[..|visits| - 1], i);
    }
  }

  lemma {:induction false} FindPair(visits: seq<Visit>, p: (Id, Id)) returns (i: nat)
    requires p in Pairs(visits)
    ensures i < |visits| && p == (visits[i].root, visits[i].id)
  {
    var last := |visits| - 1;
    if p == (visits[last].root, visits[last].id) {
      i := last;
    } else {
      i := FindPair(visits[..last], p);
    }
  }

  ghost predicate Expanded(g: Graph, maximumDepth: nat, visits: seq<Visit>, v: Visit) {
    v.depth < maximumDepth ==> forall e | e in Next(g, v.id) :: (v.root, e) in Pairs(visits)
  }

  /** The queue holds the order from `head` on; everything before has been expanded. */
  ghost predicate Exploring(g: Graph, roots: seq<Id>, maximumDepth: nat, visits: seq<Visit>, head: nat) {
    var order := Order(roots, visits);
    && head <= |order| && Ascending(order)
    && Shortest(g, roots, maximumDepth, visits)
    && (forall i {:trigger Expanded(g, maximumDepth, visits, order[i])} | 0 <= i < head ::
         Expanded(g, maximumDepth, visits, order[i]))
    && (forall i | head <= i < |order| :: order[i].depth <= order[head].depth + 1)
  }

  /** Whatever lies less far than the head of the queue has left the queue at its distance or below. */
  lemma {:induction false} Passed(g: Graph, roots: seq<Id>, maximumDepth: nat, visits: seq<Visit>, head: nat,
                                  root: Id, id: Id, n: nat) returns (i: nat)
    requires Exploring(g, roots, maximumDepth, visits, head)
    requires root in roots && Walk(g, root, id, n) && n <= maximumDepth
    requires var order := Order(roots, visits); head < |order| ==> n < order[head].depth
    ensures var order := Order(roots, visits);
      i < head && order[i].id == id && order[i].root == root && order[i].depth <= n
    decreases n
  {
    var order := Order(roots, visits);
    if n == 0 {
      i :| 0 <= i < |roots| && roots[i] == root;
      assert order[i] == Visit(root, 0, root);
    } else {
      var s :| Walk(g, root, s, n - 1) && id in Next(g, s);
      var k := Passed(g, roots, maximumDepth, visits, head, root, s, n - 1);
      assert Expanded(g, maximumDepth, visits, order[k]);
      var j := FindPair(visits, (root, id));
      assert Found(g, roots, maximumDepth, visits[j]);
      i := |roots| + j;
      assert order[i] == visits[j];
    }
  }

  lemma Seen(g: Graph, roots: seq<Id>, maximumDepth: nat, visits: seq<Visit>, head: nat, root: Id, id: Id, n: nat)
    requires Exploring(g, roots, maximumDepth, visits, head)
    requires root in roots && Walk(g, root, id, n) && 1 <= n <= maximumDepth
    requires var order := Order(roots, visits); head < |order| ==> n <= order[head].depth
    ensures (root, id) in Pairs(visits)
  {
    var s :| Walk(g, root, s, n - 1) && id in Next(g, s);
    var k := Passed(g, roots, maximumDepth, visits, head, root, s, n - 1);
    assert Expanded(g, maximumDepth, visits, Order(roots, visits)[k]);
  }

  lemma HeadIsReached(g: Graph, roots: seq<Id>, maximumDepth: nat, visits: seq<Visit>, head: nat)
    requires Exploring(g, roots, maximumDepth, visits, head) && head < |Order(roots, visits)|
    ensures var v := Order(roots, visits)[head]; v.root in roots && Walk(g, v.root, v.id, v.depth)
  {
    if head >= |roots| {
      assert Found(g, roots, maximumDepth, visits[head - |roots|]);
    }
  }

  /** A dependent of the head of the queue that was not met before is met now at its shortest distance. */
  lemma NewIsNearest(g: Graph, roots: seq<Id>, maximumDepth: nat, visits: seq<Visit>, head: nat, v: Visit, e: Id)
    requires Exploring(g, roots, maximumDepth, visits, head) && head < |Order(roots, visits)|
    requires v == Order(roots, visits)[head] && v.depth < maximumDepth && e in Next(g, v.id)
    requires (v.root, e) !in Pairs(visits)
    ensures Found(g, roots, maximumDepth, Visit(e, v.depth + 1, v.root))
  {
    HeadIsReached(g, roots, maximumDepth, visits, head);
    assert Walk(g, v.root, e, v.depth + 1);
    forall n | 1 <= n < v.depth + 1 ensures !Walk(g, v.root, e, n) {
      if Walk(g, v.root, e, n) {
        Seen(g, roots, maximumDepth, visits, head, v.root, e, n);
      }
    }
  }

  lemma ShortestOneMore(g: Graph, roots: seq<Id>, maximumDepth: nat, visits: seq<Visit>, next: Visit)
    requires Shortest(g, roots, maximumDepth, visits)
    requires Found(g, roots, maximumDepth, next) && (next.root, next.id) !in Pairs(visits)
    ensures Shortest(g, roots, maximumDepth, visits + [next])
    ensures Pairs(visits + [next]) == Pairs(visits) + {(next.root, next.id)}
  {
    assert (visits + [next])[..|visits|] == visits;
    forall i | 0 <= i < |visits| ensures (visits[i].root, visits[i].id) != (next.root, next.id) {
      PairIsVisited(visits, i);
    }
    forall i | 0 <= i < |visits + [next]| ensures Found(g, roots, maximumDepth, (visits + [next])[i]) {
      if i < |visits| {
        assert Found(g, roots, maximumDepth, visits[i]);
      }
    }
  }

  lemma AscendingOneMore(order: seq<Visit>, head: nat, next: Visit)
    requires Ascending(order) && head < |order| && next.depth == order[head].depth + 1
    requires forall i | head <= i < |order| :: order[i].depth <= order[head].depth + 1
    ensures Ascending(order + [next])
  {
    forall i | 0 <= i < |order| ensures order[i].depth <= next.depth {
    }
  }

  lemma OrderOneMore(roots: seq<Id>, visits: seq<Visit>, next: Visit)
    ensures Order(roots, visits + [next]) == Order(roots, visits) + [next]
  {
  }

  lemma ExpandedMore(g: Graph, maximumDepth: nat, visits: seq<Visit>, more: seq<Visit>, v: Visit)
    requires Expanded(g, maximumDepth, visits, v) && Pairs(visits) <= Pairs(more)
    ensures Expanded(g, maximumDepth, more, v)
  {
  }

  lemma Meet(g: Graph, roots: seq<Id>, maximumDepth: nat, visits: seq<Visit>, head: nat, v: Visit, e: Id)
    requires Exploring(g, roots, maximumDepth, visits, head) && head < |Order(roots, visits)|
    requires v == Order(roots, visits)[head] && v.depth < maximumDepth && e in Next(g, v.id)
    requires (v.root, e) !in Pairs(visits)
    ensures var next := Visit(e, v.depth + 1, v.root);
      && Exploring(g, roots, maximumDepth, visits + [next], head)
      && Order(roots, visits + [next]) == Order(roots, visits) + [next]
      && Pairs(visits + [next]) == Pairs(visits) + {(v.root, e)}
  {
    hide Found, Shortest, Ascending, Expanded, Pairs, Order;
    var next := Visit(e, v.depth + 1, v.root);
    var order := Order(roots, visits);
    NewIsNearest(g, roots, maximumDepth, visits, head, v, e);
    ShortestOneMore(g, roots, maximumDepth, visits, next);
    OrderOneMore(roots, visits, next);
    AscendingOneMore(order, head, next);
    forall i | 0 <= i < head ensures Expanded(g, maximumDepth, visits + [next], Order(roots, visits + [next])[i]) {
      assert Expanded(g, maximumDepth, visits, order[i]);
      ExpandedMore(g, maximumDepth, visits, visits + [next], order[i]);
    }
  }

  lemma Advance(g: Graph, roots: seq<Id>, maximumDepth: nat, visits: seq<Visit>, head: nat)
    requires Exploring(g, roots, maximumDepth, visits, head) && head < |Order(roots, visits)|
    requires Expanded(g, maximumDepth, visits, Order(roots, visits)[head])
    ensures Exploring(g, roots, maximumDepth, visits, head + 1)
  {
    var order := Order(roots, visits);
    forall i | 0 <= i < head + 1 ensures Expanded(g, maximumDepth, visits, order[i]) {
      if i < head {
        assert Expanded(g, maximumDepth, visits, order[i]);
      }
    }
  }

  /** What the propagation owes: every reachable element, per root once, at its shortest distance, nearest first. */
  ghost predicate BreadthFirst(g: Graph, roots: seq<Id>, maximumDepth: nat, visits: seq<Visit>) {
    && Shortest(g, roots, maximumDepth, visits)
    && Ascending(visits)
    && forall root, id | root in roots && Reached(g, root, id, maximumDepth) :: (root, id) in Pairs(visits)
  }

  lemma Finished(g: Graph, roots: seq<Id>, maximumDepth: nat, visits: seq<Visit>)
    requires Exploring(g, roots, maximumDepth, visits, |Order(roots, visits)|)
    ensures BreadthFirst(g, roots, maximumDepth, visits)
  {
    forall root, id | root in roots && Reached(g, root, id, maximumDepth) ensures (root, id) in Pairs(visits) {
      var n :| 1 <= n <= maximumDepth && Walk(g, root, id, n);
      Seen(g, roots, maximumDepth, visits, |Order(roots, visits)|, root, id, n);
    }
    assert Order(roots, visits)[|roots|..] == visits;
    forall i, j | 0 <= i < j < |visits| ensures visits[i].depth <= visits[j].depth {
      assert Order(roots, visits)[|roots| + i].depth <= Order(roots, visits)[|roots| + j].depth;
    }
  }

  /** The visits are exactly the (root, element) pairs within the depth. */
  lemma VisitsAreReached(g: Graph, roots: seq<Id>, maximumDepth: nat, visits: seq<Visit>, root: Id, id: Id)
    requires BreadthFirst(g, roots, maximumDepth, visits)
    ensures (root, id) in Pairs(visits) <==> root in roots && Reached(g, root, id, maximumDepth)
  {
    if (root, id) in Pairs(visits) {
      var i := FindPair(visits, (root, id));
      assert Found(g, roots, maximumDepth, visits[i]);
    }
  }

  // ---------------------------------------------------------------- the fact budget

  datatype Origin =
    OwnDeclaration | DirectSource | BuildConfiguration | ConfirmedInduced | UpstreamExposure |
      UnattributedSemanticChange

  datatype Dimension = InterfaceDimension | ImplementationDimension | DependenciesDimension

  datatype Fact = Fact(id: Id, name: string, translationUnit: string, configuration: string, variant: string,
                       origin: Origin, semantic: seq<Dimension>, causes: set<string>, depth: nat)

  function Key(f: Fact): (Id, Origin, string) {
    (f.id, f.origin, f.translationUnit)
  }

  function Keys(facts: seq<Fact>): set<(Id, Origin, string)> {
    set f | f in facts :: Key(f)
  }

  /** The first request of every (id, origin, translation unit). */
  function Distinct(requests: seq<Fact>): seq<Fact> {
    if requests == [] then []
    else
      var before := Distinct(requests[..|requests| - 1]);
      var f := requests[|requests| - 1];
      if Key(f) in Keys(before) then before else before + [f]
  }

  function Take<T>(s: seq<T>, n: nat): seq<T> {
    if |s| <= n then s else s[..n]
  }

  predicate NoRepeat(facts: seq<Fact>) {
    forall i, j | 0 <= i < j < |facts| :: Key(facts[i]) != Key(facts[j])
  }

  lemma {:induction false} DistinctKeepsKeys(requests: seq<Fact>)
    ensures Keys(Distinct(requests)) == Keys(requests)
    ensures NoRepeat(Distinct(requests))
    ensures forall f | f in Distinct(requests) :: f in requests
  {
    if requests != [] {
      var rest, f := requests[..|requests| - 1], requests[|requests| - 1];
      DistinctKeepsKeys(rest);
      assert requests == rest + [f];
      assert Keys(requests) == Keys(rest) + {Key(f)};
    }
  }

  /** Requests of which only the first is reported. */
  predicate Alike(a: Fact, b: Fact) {
    a.id == b.id && a.origin == b.origin && a.translationUnit == b.translationUnit
  }

  ghost predicate Rising(at: seq<nat>, n: nat) {
    (forall i | 0 <= i < |at| :: at[i] < n) && forall i, j | 0 <= i < j < |at| :: at[i] < at[j]
  }

  /** The facts are those requests, at the positions, that no earlier one is alike. */
  ghost predicate AreFirst(facts: seq<Fact>, requests: seq<Fact>, at: seq<nat>) {
    && |at| == |facts| && Rising(at, |requests|) && (forall n | 0 <= n < |at| :: facts[n] == requests[at[n]])
    && forall i | 0 <= i < |requests| :: i in at <==> forall j | 0 <= j < i :: !Alike(requests[j], requests[i])
  }

  lemma FirstOneMore(facts: seq<Fact>, requests: seq<Fact>, at: seq<nat>, f: Fact)
    requires AreFirst(facts, requests, at)
    ensures if forall j | 0 <= j < |requests| :: !Alike(requests[j], f)
            then AreFirst(facts + [f], requests + [f], at + [|requests|])
            else AreFirst(facts, requests + [f], at)
  {
    var more, at' := requests + [f], at + [|requests|];
    forall i | 0 <= i < |more|
      ensures i in at' <==> i in at || i == |requests|
      ensures i in at ==> i < |requests|
      ensures (forall j | 0 <= j < i :: !Alike(more[j], more[i])) <==>
        if i < |requests| then forall j | 0 <= j < i :: !Alike(requests[j], requests[i])
        else forall j | 0 <= j < |requests| :: !Alike(requests[j], f)
    {
      assert at'[|at|] == |requests|;
      assert forall j | 0 <= j < |requests| :: more[j] == requests[j];
    }
  }

  lemma NoneFirst()
    ensures AreFirst([], [], [])
  {
  }

  lemma KeyIsAlike(requests: seq<Fact>, f: Fact)
    ensures Key(f) in Keys(requests) <==> exists j | 0 <= j < |requests| :: Alike(requests[j], f)
  {
    if Key(f) in Keys(requests) {
      var r :| r in requests && Key(r) == Key(f);
      var j :| 0 <= j < |requests| && requests[j] == r;
      assert Alike(requests[j], f);
    }
    if j :| 0 <= j < |requests| && Alike(requests[j], f) {
      assert requests[j] in requests && Key(requests[j]) == Key(f);
    }
  }

  /** What is reported without a cap is the first of each kind of request, in the order of the requests. */
  lemma {:induction false} DistinctAreFirst(requests: seq<Fact>) returns (at: seq<nat>)
    ensures AreFirst(Distinct(requests), requests, at)
  {
    hide AreFirst, Alike, Key, Keys, Distinct;
    at := [];
    if requests == [] {
      NoneFirst();
      NothingDistinct();
    } else {
      var rest, f := requests[..|requests| - 1], requests[|requests| - 1];
      assert requests == rest + [f];
      at := DistinctAreFirst(rest);
      at := OneMoreIsFirst(rest, at, f);
    }
  }

  lemma OneMoreIsFirst(requests: seq<Fact>, at: seq<nat>, f: Fact) returns (more: seq<nat>)
    requires AreFirst(Distinct(requests), requests, at)
    ensures AreFirst(Distinct(requests + [f]), requests + [f], more)
  {
    hide AreFirst, Alike, Key, Keys, Distinct;
    FirstOneMore(Distinct(requests), requests, at, f);
    KeyIsAlike(requests, f);
    DistinctOneMore(requests, f);
    more := if Key(f) in Keys(requests) then at else at + [|requests|];
  }

  lemma NothingDistinct()
    ensures Distinct([]) == []
  {
  }

  lemma {:induction false} NoRepeatCounts(facts: seq<Fact>)
    requires NoRepeat(facts)
    ensures |Keys(facts)| == |facts|
  {
    if facts != [] {
      var rest, f := facts[..|facts| - 1], facts[|facts| - 1];
      NoRepeatCounts(rest);
      assert facts == rest + [f];
      assert Keys(facts) == Keys(rest) + {Key(f)};
    }
  }

  /** The reported facts stay in the budget, repeat no key, and lack one exactly when the budget was exceeded. */
  lemma CompleteIffNothingSuppressed(requests: seq<Fact>, maximum: nat)
    ensures var facts := Take(Distinct(requests), maximum);
      && |facts| <= maximum && NoRepeat(facts)
      && (forall f | f in facts :: f in requests)
      && (|Distinct(requests)| <= maximum <==> Keys(facts) == Keys(requests))
      && |Distinct(requests)| == |Keys(requests)|
  {
    var facts := Take(Distinct(requests), maximum);
    DistinctKeepsKeys(requests);
    NoRepeatCounts(Distinct(requests));
    NoRepeatCounts(facts);
  }

  function Count(facts: seq<Fact>, origin: Origin): nat {
    if facts == [] then 0
    else Count(facts[..|facts| - 1], origin) + if facts[|facts| - 1].origin == origin then 1 else 0
  }

  ghost predicate Counts(counts: map<Origin, nat>, facts: seq<Fact>) {
    forall o :: (o in counts <==> Count(facts, o) > 0) && (o in counts ==> counts[o] == Count(facts, o))
  }

  lemma CountAppend(facts: seq<Fact>, f: Fact)
    ensures forall o :: Count(facts + [f], o) == Count(facts, o) + if f.origin == o then 1 else 0
  {
    assert (facts + [f])[..|facts|] == facts;
  }

  function Bumped(counts: map<Origin, nat>, o: Origin): map<Origin, nat> {
    counts[o := if o in counts then counts[o] + 1 else 1]
  }

  lemma CountsOneMore(counts: map<Origin, nat>, facts: seq<Fact>, f: Fact)
    requires Counts(counts, facts)
    ensures Counts(Bumped(counts, f.origin), facts + [f])
  {
    CountAppend(facts, f);
  }

  lemma DistinctOneMore(requests: seq<Fact>, f: Fact)
    ensures Keys(requests + [f]) == Keys(requests) + {Key(f)}
    ensures Distinct(requests + [f])
            == if Key(f) in Keys(requests) then Distinct(requests) else Distinct(requests) + [f]
  {
    DistinctKeepsKeys(requests);
    assert (requests + [f])[..|requests|] == requests;
  }

  /** The origin counts sum to the number of facts. */
  lemma {:induction false} OriginsSum(counts: map<Origin, nat>, facts: seq<Fact>)
    requires Counts(counts, facts)
    ensures Sum(counts.Keys, o => Count(facts, o)) == |facts|
  {
    if facts != [] {
      var rest, f := facts[..|facts| - 1], facts[|facts| - 1];
      var o := f.origin;
      var earlier := if Count(rest, o) == 0 then counts - {o} else counts[o := Count(rest, o)];
      assert Counts(earlier, rest);
      OriginsSum(earlier, rest);
      var inRest, inAll := (k: Origin) => Count(rest, k), (k: Origin) => Count(facts, k);
      SumWithout(counts.Keys, inAll, o);
      assert counts.Keys - {o} == earlier.Keys - {o};
      SumAgrees(counts.Keys - {o}, inAll, inRest);
      if Count(rest, o) == 0 {
        assert earlier.Keys == counts.Keys - {o};
      } else {
        assert earlier.Keys == counts.Keys;
        SumWithout(earlier.Keys, inRest, o);
      }
    }
  }

  /** What the requests of a transition, and the facts of earlier ones, determine. */
  ghost predicate Accounted(maximum: nat, requests: seq<Fact>, earlier: seq<Fact>, facts: seq<Fact>,
                            emitted: set<(Id, Origin, string)>, capped: bool, counts: map<Origin, nat>) {
    && facts == Take(Distinct(requests), maximum)
    && emitted == Keys(requests)
    && (capped <==> |Distinct(requests)| > maximum)
    && Counts(counts, earlier + facts)
  }

  lemma AccountsOneMore(maximum: nat, requests: seq<Fact>, earlier: seq<Fact>, facts: seq<Fact>,
                        emitted: set<(Id, Origin, string)>, capped: bool, counts: map<Origin, nat>, f: Fact)
    requires Accounted(maximum, requests, earlier, facts, emitted, capped, counts)
    ensures Key(f) in emitted ==> Accounted(maximum, requests + [f], earlier, facts, emitted, capped, counts)
    ensures Key(f) !in emitted && |facts| >= maximum ==>
              Accounted(maximum, requests + [f], earlier, facts, emitted + {Key(f)}, true, counts)
    ensures Key(f) !in emitted && |facts| < maximum ==>
              Accounted(maximum, requests + [f], earlier, facts + [f], emitted + {Key(f)}, capped,
                        Bumped(counts, f.origin))
  {
    DistinctOneMore(requests, f);
    if Key(f) in emitted {
      assert emitted + {Key(f)} == emitted;
    }
    CountsOneMore(counts, earlier + facts, f);
    assert (earlier + facts) + [f] == earlier + (facts + [f]);
  }

  /** The facts of the transition at hand and the counters the emit closure keeps. */
  class Evidence {
    const maximum: nat
    var facts: seq<Fact>
    var emitted: set<(Id, Origin, string)>
    var capped: bool
    var originCounts: map<Origin, nat>
    ghost var requests: seq<Fact>
    ghost var earlier: seq<Fact>

    ghost predicate Valid()
      reads this
    {
      Accounted(maximum, requests, earlier, facts, emitted, capped, originCounts)
    }

    lemma CountsAreExact()
      requires Valid()
      ensures Counts(originCounts, earlier + facts)
    {
    }

    constructor (maximum: nat)
      ensures Valid() && this.maximum == maximum && requests == [] && earlier == [] && facts == []
    {
      this.maximum := maximum;
      facts, emitted, capped, originCounts := [], {}, false, map[];
      requests, earlier := [], [];
    }

    method Begin()
      requires Valid()
      modifies this
      ensures Valid() && requests == [] && earlier == old(earlier + facts)
    {
      earlier, requests := earlier + facts, [];
      facts, emitted, capped := [], {}, false;
      assert earlier + [] == earlier;
    }

    method Emit(f: Fact)
      requires Valid()
      modifies this
      ensures Valid() && requests == old(requests) + [f] && earlier == old(earlier)
    {
      hide Accounted, Key, Bumped;
      AccountsOneMore(maximum, requests, earlier, facts, emitted, capped, originCounts, f);
      requests := requests + [f];
      if Key(f) in emitted {
        return;
      }
      emitted := emitted + {Key(f)};
      if |facts| >= maximum {
        capped := true;
        return;
      }
      facts := facts + [f];
      originCounts := Bumped(originCounts, f.origin);
    }
  }

  // ---------------------------------------------------------------- one translation unit

  datatype Anchor = Anchor(path: string, role: string)

  datatype ElementView = ElementView(name: string, interfaces: set<string>, implementations: set<string>,
                                     dependencies: set<string>, locations: seq<Anchor>)

  /** `ids` lists the keys of `elements` in map order. */
  datatype View = View(contextId: string, translationUnit: string, ids: seq<Id>, elements: map<Id, ElementView>,
                       projectFiles: set<string>, dependents: Graph)

  /** The two views of a translation unit and the paths that differ between the revisions. */
  datatype Delta = Delta(before: View, after: View, configuration: string, variant: string, touched: set<string>) {
    ghost predicate Valid() {
      forall id :: id in after.ids <==> id in after.elements
    }

    function ChangedDependencies(): set<string> {
      set p | p in after.projectFiles && p != after.translationUnit && p in touched
    }

    predicate ContextChanged() {
      before.contextId != after.contextId
    }

    /** The dimensions in which an element present on both sides differs. */
    function Changes(id: Id): (dimensions: seq<Dimension>)
      ensures dimensions != [] ==> id in before.elements && id in after.elements
    {
      if id in before.elements && id in after.elements then
        var old', new' := before.elements[id], after.elements[id];
        (if old'.interfaces != new'.interfaces then [InterfaceDimension] else [])
        + (if old'.implementations != new'.implementations then [ImplementationDimension] else [])
        + (if old'.dependencies != new'.dependencies then [DependenciesDimension] else [])
      else []
    }

    /** The roles of the locations in changed files of an element present on both sides. */
    function OwnRoles(id: Id): set<string> {
      if id in before.elements && id in after.elements then
        set l | l in after.elements[id].locations && l.path in touched :: l.role
      else {}
    }

    predicate IsRoot(id: Id) {
      Changes(id) != [] && (OwnRoles(id) != {} || (!ContextChanged() && ChangedDependencies() != {}))
    }

    function FactOf(id: Id, origin: Origin, semantic: seq<Dimension>, causes: set<string>, depth: nat): Fact {
      Fact(id, if id in after.elements then after.elements[id].name else "", after.translationUnit,
           configuration, variant, origin, semantic, causes, depth)
    }

    /** How a changed element is attributed. */
    function Attributed(id: Id): Fact {
      var roles := OwnRoles(id);
      if roles != {} then
        FactOf(id, if "declaration" in roles && "definition" !in roles then OwnDeclaration else DirectSource,
               Changes(id), {}, 0)
      else if ContextChanged() then FactOf(id, BuildConfiguration, Changes(id), ChangedDependencies(), 0)
      else if ChangedDependencies() != {} then FactOf(id, ConfirmedInduced, Changes(id), ChangedDependencies(), 1)
      else FactOf(id, UnattributedSemanticChange, Changes(id), {}, 0)
    }

    /** An element of a unit that includes a changed header. */
    function Exposed(id: Id): Fact {
      if Changes(id) != [] && !ContextChanged() then
        FactOf(id, ConfirmedInduced, Changes(id), ChangedDependencies(), 1)
      else FactOf(id, UpstreamExposure, [], ChangedDependencies(), 1)
    }

    function Propagated(v: Visit): Fact {
      FactOf(v.id, if Changes(v.id) != [] then ConfirmedInduced else UpstreamExposure, Changes(v.id), {v.root}, v.depth)
    }

    function AttributedTo(ids: seq<Id>): seq<Fact> {
      if ids == [] then []
      else
        var id := ids[|ids| - 1];
        AttributedTo(ids[..|ids| - 1]) + if Changes(id) != [] then [Attributed(id)] else []
    }

    function RootsOf(ids: seq<Id>): seq<Id> {
      if ids == [] then []
      else
        var id := ids[|ids| - 1];
        RootsOf(ids[..|ids| - 1]) + if IsRoot(id) then [id] else []
    }

    function ExposedTo(ids: seq<Id>): seq<Fact> {
      if ids == [] then []
      else
        var id := ids[|ids| - 1];
        ExposedTo(ids[..|ids| - 1]) + if OwnRoles(id) == {} then [Exposed(id)] else []
    }

    function PropagatedTo(visits: seq<Visit>): seq<Fact> {
      if visits == [] then []
      else PropagatedTo(visits[..|visits| - 1]) + [Propagated(visits[|visits| - 1])]
    }

    /** Every fact the unit asks for, in order. */
    function Requests(visits: seq<Visit>): seq<Fact> {
      AttributedTo(after.ids) + (if ChangedDependencies() != {} then ExposedTo(after.ids) else [])
      + PropagatedTo(visits)
    }
  }

  lemma {:induction false} AttributedMembers(d: Delta, ids: seq<Id>)
    ensures forall id | id in ids && d.Changes(id) != [] :: d.Attributed(id) in d.AttributedTo(ids)
    ensures forall f | f in d.AttributedTo(ids) :: f.id in ids && d.Changes(f.id) != [] && f == d.Attributed(f.id)
    ensures forall id :: id in d.RootsOf(ids) <==> id in ids && d.IsRoot(id)
  {
    if ids != [] {
      var rest := ids[..|ids| - 1];
      AttributedMembers(d, rest);
      assert ids == rest + [ids[|ids| - 1]];
    }
  }

  lemma {:induction false} ExposedMembers(d: Delta, ids: seq<Id>)
    ensures forall id | id in ids && d.OwnRoles(id) == {} :: d.Exposed(id) in d.ExposedTo(ids)
    ensures forall f | f in d.ExposedTo(ids) :: f.id in ids && d.OwnRoles(f.id) == {} && f == d.Exposed(f.id)
  {
    if ids != [] {
      var rest := ids[..|ids| - 1];
      ExposedMembers(d, rest);
      assert ids == rest + [ids[|ids| - 1]];
    }
  }

  lemma {:induction false} PropagatedMembers(d: Delta, visits: seq<Visit>)
    ensures forall v | v in visits :: d.Propagated(v) in d.PropagatedTo(visits)
    ensures forall f | f in d.PropagatedTo(visits) :: exists v :: v in visits && f == d.Propagated(v)
  {
    if visits != [] {
      var rest, last := visits[..|visits| - 1], visits[|visits| - 1];
      PropagatedMembers(d, rest);
      assert visits == rest + [last];
      assert last in visits;
    }
  }

  /** Every element whose own fingerprints changed is attributed with its changed dimensions. */
  lemma ChangesAreAttributed(d: Delta, visits: seq<Visit>, id: Id)
    requires d.Valid() && d.Changes(id) != []
    ensures exists f :: f in d.Requests(visits) && f.id == id && f.semantic == d.Changes(id)
                        && f.origin != UpstreamExposure
  {
    AttributedMembers(d, d.after.ids);
    assert d.Attributed(id) in d.Requests(visits);
  }

  predicate TouchedAs(d: Delta, id: Id, role: string)
    requires id in d.after.elements
  {
    exists l :: l in d.after.elements[id].locations && l.path in d.touched && l.role == role
  }

  /** The origin given to a changed element, read from its locations, the context and the headers. */
  lemma OriginsExplained(d: Delta, id: Id)
    requires d.Changes(id) != []
    ensures var own := exists l :: l in d.after.elements[id].locations && l.path in d.touched;
      var header := exists p :: p in d.after.projectFiles && p in d.touched && p != d.after.translationUnit;
      match d.Attributed(id).origin
      case OwnDeclaration => TouchedAs(d, id, "declaration") && !TouchedAs(d, id, "definition")
      case DirectSource => own && (!TouchedAs(d, id, "declaration") || TouchedAs(d, id, "definition"))
      case BuildConfiguration => !own && d.before.contextId != d.after.contextId
      case ConfirmedInduced => !own && d.before.contextId == d.after.contextId && header
      case UpstreamExposure => false
      case UnattributedSemanticChange => !own && d.before.contextId == d.after.contextId && !header
  {
    var roles := d.OwnRoles(id);
    assert forall role :: role in roles <==> TouchedAs(d, id, role);
    if l :| l in d.after.elements[id].locations && l.path in d.touched {
      assert l.role in roles;
    }
    if roles != {} {
      var role :| role in roles;
    }
    if d.ChangedDependencies() != {} {
      var p :| p in d.ChangedDependencies();
    }
    if p :| p in d.after.projectFiles && p in d.touched && p != d.after.translationUnit {
      assert p in d.ChangedDependencies();
    }
  }

  /** What is called induced has changed itself, and only what has changed is given dimensions. */
  lemma InducedHasChanged(d: Delta, visits: seq<Visit>, f: Fact)
    requires f in d.Requests(visits)
    ensures f.origin != UpstreamExposure ==> f.semantic == d.Changes(f.id) != []
    ensures f.origin == UpstreamExposure ==> f.semantic == []
    ensures f.origin == UnattributedSemanticChange <==>
            d.Changes(f.id) != [] && d.OwnRoles(f.id) == {} && !d.ContextChanged() && d.ChangedDependencies() == {}
            && f == d.Attributed(f.id)
  {
    AttributedMembers(d, d.after.ids);
    ExposedMembers(d, d.after.ids);
    PropagatedMembers(d, visits);
  }

  /** The visits are those the propagation of the unit owes. */
  ghost predicate Propagates(d: Delta, maximumDepth: nat, visits: seq<Visit>) {
    BreadthFirst(d.after.dependents, d.RootsOf(d.after.ids), maximumDepth, visits)
  }

  /** A dependent within the depth is reported with its root and its shortest distance. */
  lemma ReachedIsRequested(d: Delta, visits: seq<Visit>, maximumDepth: nat, root: Id, id: Id) returns (f: Fact)
    requires Propagates(d, maximumDepth, visits)
    requires root in d.after.ids && d.IsRoot(root) && Reached(d.after.dependents, root, id, maximumDepth)
    ensures f in d.Requests(visits) && f.id == id && f.causes == {root}
    ensures f.origin == if d.Changes(id) != [] then ConfirmedInduced else UpstreamExposure
    ensures Nearest(d.after.dependents, Visit(id, f.depth, root)) && f.depth <= maximumDepth
  {
    AttributedMembers(d, d.after.ids);
    PropagatedMembers(d, visits);
    var i := FindPair(visits, (root, id));
    assert Found(d.after.dependents, d.RootsOf(d.after.ids), maximumDepth, visits[i]);
    assert visits[i] in visits && visits[i] == Visit(id, visits[i].depth, root);
    f := d.Propagated(visits[i]);
  }

  /** Some element that propagates its change reaches an element that changed itself. */
  ghost predicate ChangeReached(d: Delta, maximumDepth: nat) {
    exists root, id ::
      && root in d.after.ids && d.IsRoot(root) && Reached(d.after.dependents, root, id, maximumDepth)
      && d.Changes(id) != []
  }

  /**
   * For an included header a change is confirmed as induced only under an unchanged context.  The propagation along
   * dependents does not look at the context: when that has changed, the unit calls something induced exactly when a
   * changed element depends, within the depth, on one that propagates its change.
   */
  lemma InducedDespiteContext(d: Delta, visits: seq<Visit>, maximumDepth: nat)
    requires d.ContextChanged() && Propagates(d, maximumDepth, visits)
    ensures (exists f :: f in d.Requests(visits) && f.origin == ConfirmedInduced) <==> ChangeReached(d, maximumDepth)
  {
    AttributedMembers(d, d.after.ids);
    if root, id :| root in d.after.ids && d.IsRoot(root) && Reached(d.after.dependents, root, id, maximumDepth)
                   && d.Changes(id) != [] {
      var f := ReachedIsRequested(d, visits, maximumDepth, root, id);
    }
    if f :| f in d.Requests(visits) && f.origin == ConfirmedInduced {
      HeadersKeepContext(d, f);
      PropagatedMembers(d, visits);
      var v :| v in visits && f == d.Propagated(v);
      var i :| 0 <= i < |visits| && visits[i] == v;
      PairIsVisited(visits, i);
      VisitsAreReached(d.after.dependents, d.RootsOf(d.after.ids), maximumDepth, visits, v.root, v.id);
      assert d.Changes(v.id) != [];
    }
  }

  lemma HeadersKeepContext(d: Delta, f: Fact)
    requires d.ContextChanged() && f.origin == ConfirmedInduced
    ensures f !in d.AttributedTo(d.after.ids) && f !in d.ExposedTo(d.after.ids)
  {
    AttributedMembers(d, d.after.ids);
    ExposedMembers(d, d.after.ids);
  }

  // ---------------------------------------------------------------- what is asked for, read from the views

  /** The element is on both sides and differs in this dimension. */
  predicate Differs(d: Delta, id: Id, dimension: Dimension) {
    && id in d.before.elements && id in d.after.elements
    && var old', new' := d.before.elements[id], d.after.elements[id];
    match dimension
    case InterfaceDimension => old'.interfaces != new'.interfaces
    case ImplementationDimension => old'.implementations != new'.implementations
    case DependenciesDimension => old'.dependencies != new'.dependencies
  }

  function Rank(dimension: Dimension): nat {
    match dimension
    case InterfaceDimension => 0
    case ImplementationDimension => 1
    case DependenciesDimension => 2
  }

  /** An element lists exactly the dimensions it differs in, each once, interface before implementation before
      dependencies. */
  lemma ChangesAreDifferences(d: Delta, id: Id)
    ensures forall dimension :: dimension in d.Changes(id) <==> Differs(d, id, dimension)
    ensures forall i, j | 0 <= i < j < |d.Changes(id)| :: Rank(d.Changes(id)[i]) < Rank(d.Changes(id)[j])
  {
  }

  /** A fact that is no exposure carries exactly the dimensions in which its element differs, an exposure none. */
  lemma FactsCarryDifferences(d: Delta, visits: seq<Visit>, f: Fact, dimension: Dimension)
    requires f in d.Requests(visits)
    ensures dimension in f.semantic <==> f.origin != UpstreamExposure && Differs(d, f.id, dimension)
  {
    InducedHasChanged(d, visits, f);
    ChangesAreDifferences(d, f.id);
  }

  predicate IsHeader(d: Delta, path: string) {
    path in d.after.projectFiles && path in d.touched && path != d.after.translationUnit
  }

  ghost predicate HeaderChanged(d: Delta) {
    exists path :: IsHeader(d, path)
  }

  predicate OnBothSides(d: Delta, id: Id) {
    id in d.before.elements && id in d.after.elements
  }

  /** The element is on both sides and has a place in a changed file. */
  ghost predicate InChangedFile(d: Delta, id: Id) {
    OnBothSides(d, id) && exists l :: l in d.after.elements[id].locations && l.path in d.touched
  }

  ghost predicate DiffersSomehow(d: Delta, id: Id) {
    exists dimension :: Differs(d, id, dimension)
  }

  /** What all facts of a unit have in common. */
  predicate OfUnit(d: Delta, f: Fact) {
    && f.translationUnit == d.after.translationUnit && f.configuration == d.configuration && f.variant == d.variant
    && f.name == if f.id in d.after.elements then d.after.elements[f.id].name else ""
  }

  ghost predicate CausedByHeaders(d: Delta, f: Fact) {
    forall path :: path in f.causes <==> IsHeader(d, path)
  }

  /** A changed element by its own place, by the compile context, by a header, or by none of them. */
  ghost predicate AskedForChange(d: Delta, f: Fact) {
    && f.id in d.after.ids && DiffersSomehow(d, f.id)
    && if InChangedFile(d, f.id) then
         && f.origin == (if TouchedAs(d, f.id, "declaration") && !TouchedAs(d, f.id, "definition")
                         then OwnDeclaration else DirectSource)
         && f.causes == {} && f.depth == 0
       else if d.before.contextId != d.after.contextId then
         f.origin == BuildConfiguration && CausedByHeaders(d, f) && f.depth == 0
       else if HeaderChanged(d) then
         f.origin == ConfirmedInduced && CausedByHeaders(d, f) && f.depth == 1
       else f.origin == UnattributedSemanticChange && f.causes == {} && f.depth == 0
  }

  /** An element without a place in a changed file, in a unit that includes a changed header. */
  ghost predicate AskedForHeader(d: Delta, f: Fact) {
    && f.id in d.after.ids && HeaderChanged(d) && !InChangedFile(d, f.id) && CausedByHeaders(d, f) && f.depth == 1
    && f.origin == (if DiffersSomehow(d, f.id) && d.before.contextId == d.after.contextId
                    then ConfirmedInduced else UpstreamExposure)
  }

  /** A changed element from which the propagation starts. */
  ghost predicate Spreads(d: Delta, root: Id) {
    && root in d.after.ids && DiffersSomehow(d, root)
    && (InChangedFile(d, root) || (d.before.contextId == d.after.contextId && HeaderChanged(d)))
  }

  /** A dependent within the depth of a changed element, at its shortest distance. */
  ghost predicate AskedForDependent(d: Delta, maximumDepth: nat, f: Fact) {
    exists root ::
      && Spreads(d, root) && f.causes == {root} && f.depth <= maximumDepth
      && Nearest(d.after.dependents, Visit(f.id, f.depth, root))
      && f.origin == if DiffersSomehow(d, f.id) then ConfirmedInduced else UpstreamExposure
  }

  ghost predicate Asked(d: Delta, maximumDepth: nat, f: Fact) {
    && OfUnit(d, f)
    && (forall dimension :: dimension in f.semantic <==> f.origin != UpstreamExposure && Differs(d, f.id, dimension))
    && (forall i, j | 0 <= i < j < |f.semantic| :: Rank(f.semantic[i]) < Rank(f.semantic[j]))
    && (AskedForChange(d, f) || AskedForHeader(d, f) || AskedForDependent(d, maximumDepth, f))
  }

  lemma Readings(d: Delta, id: Id)
    ensures d.Changes(id) != [] <==> DiffersSomehow(d, id)
    ensures d.OwnRoles(id) != {} <==> InChangedFile(d, id)
    ensures d.ChangedDependencies() != {} <==> HeaderChanged(d)
    ensures forall path :: path in d.ChangedDependencies() <==> IsHeader(d, path)
    ensures OnBothSides(d, id) ==> forall role :: role in d.OwnRoles(id) <==> TouchedAs(d, id, role)
  {
    ChangesAreDifferences(d, id);
    if d.Changes(id) != [] {
      assert d.Changes(id)[0] in d.Changes(id);
    }
    if OnBothSides(d, id) {
      if l :| l in d.after.elements[id].locations && l.path in d.touched {
        assert l.role in d.OwnRoles(id);
      }
    }
    assert forall path :: path in d.ChangedDependencies() <==> IsHeader(d, path);
    if d.ChangedDependencies() != {} {
      var path :| path in d.ChangedDependencies();
      assert IsHeader(d, path);
    }
  }

  /** Two lists of the same dimensions in order are one list. */
  lemma OneOrder(s: seq<Dimension>, t: seq<Dimension>)
    requires forall x :: x in s <==> x in t
    requires forall i, j | 0 <= i < j < |s| :: Rank(s[i]) < Rank(s[j])
    requires forall i, j | 0 <= i < j < |t| :: Rank(t[i]) < Rank(t[j])
    ensures s == t
  {
    AsListed(s);
    AsListed(t);
  }

  lemma {:induction false} RankAtLeast(s: seq<Dimension>, i: nat)
    requires i < |s| && forall i, j | 0 <= i < j < |s| :: Rank(s[i]) < Rank(s[j])
    ensures i <= Rank(s[i])
  {
    if i > 0 {
      RankAtLeast(s, i - 1);
    }
  }

  lemma AsListed(s: seq<Dimension>)
    requires forall i, j | 0 <= i < j < |s| :: Rank(s[i]) < Rank(s[j])
    ensures s == (if InterfaceDimension in s then [InterfaceDimension] else [])
              + (if ImplementationDimension in s then [ImplementationDimension] else [])
              + (if DependenciesDimension in s then [DependenciesDimension] else [])
  {
    if |s| >= 4 {
      RankAtLeast(s, 3);
    }
    if |s| == 1 {
      assert s == [s[0]];
    } else if |s| == 2 {
      assert s == [s[0], s[1]];
    } else if |s| == 3 {
      assert s == [s[0], s[1], s[2]];
    }
    MembersOf(s);
  }

  lemma MembersOf(s: seq<Dimension>)
    requires |s| <= 3
    ensures forall x :: x in s <==>
      (|s| > 0 && x == s[0]) || (|s| > 1 && x == s[1]) || (|s| > 2 && x == s[2])
  {
  }

  lemma SemanticIs(d: Delta, f: Fact)
    ensures (forall dimension ::
               dimension in f.semantic <==> f.origin != UpstreamExposure && Differs(d, f.id, dimension))
            && (forall i, j | 0 <= i < j < |f.semantic| :: Rank(f.semantic[i]) < Rank(f.semantic[j]))
       <==> f.semantic == if f.origin != UpstreamExposure then d.Changes(f.id) else []
  {
    ChangesAreDifferences(d, f.id);
    var listed := if f.origin != UpstreamExposure then d.Changes(f.id) else [];
    if (forall dimension :: dimension in f.semantic <==> f.origin != UpstreamExposure && Differs(d, f.id, dimension))
       && (forall i, j | 0 <= i < j < |f.semantic| :: Rank(f.semantic[i]) < Rank(f.semantic[j])) {
      OneOrder(f.semantic, listed);
    }
  }

  lemma ChangeIsAsked(d: Delta, f: Fact)
    requires OfUnit(d, f) && f.semantic == if f.origin != UpstreamExposure then d.Changes(f.id) else []
    ensures f in d.AttributedTo(d.after.ids) <==> AskedForChange(d, f)
  {
    hide Differs, Delta.AttributedTo, Delta.Changes, Delta.OwnRoles, Delta.ChangedDependencies;
    AttributedMembers(d, d.after.ids);
    Readings(d, f.id);
    hide DiffersSomehow, InChangedFile, HeaderChanged, IsHeader, TouchedAs;
    if AskedForChange(d, f) {
      assert f.causes == d.Attributed(f.id).causes;
      assert f == d.Attributed(f.id);
    }
  }

  lemma HeaderIsAsked(d: Delta, f: Fact)
    requires OfUnit(d, f) && f.semantic == if f.origin != UpstreamExposure then d.Changes(f.id) else []
    ensures d.ChangedDependencies() != {} && f in d.ExposedTo(d.after.ids) <==> AskedForHeader(d, f)
  {
    hide Differs, Delta.ExposedTo, Delta.Changes, Delta.OwnRoles, Delta.ChangedDependencies;
    ExposedMembers(d, d.after.ids);
    Readings(d, f.id);
    hide DiffersSomehow, InChangedFile, HeaderChanged, IsHeader;
    if AskedForHeader(d, f) {
      assert f.causes == d.ChangedDependencies();
      assert f == d.Exposed(f.id);
    }
  }

  lemma RootsSpread(d: Delta, root: Id)
    ensures root in d.RootsOf(d.after.ids) <==> Spreads(d, root)
  {
    hide Differs, Delta.RootsOf, Delta.Changes, Delta.OwnRoles, Delta.ChangedDependencies;
    AttributedMembers(d, d.after.ids);
    Readings(d, root);
  }

  lemma DependentIsAsked(d: Delta, visits: seq<Visit>, maximumDepth: nat, f: Fact)
    requires Propagates(d, maximumDepth, visits)
    requires OfUnit(d, f) && f.semantic == if f.origin != UpstreamExposure then d.Changes(f.id) else []
    ensures f in d.PropagatedTo(visits) <==> AskedForDependent(d, maximumDepth, f)
  {
    hide Differs, Delta.PropagatedTo, Delta.Changes, Delta.RootsOf, Spreads;
    var g, roots := d.after.dependents, d.RootsOf(d.after.ids);
    PropagatedMembers(d, visits);
    Readings(d, f.id);
    hide DiffersSomehow;
    if f in d.PropagatedTo(visits) {
      var v :| v in visits && f == d.Propagated(v);
      var i :| 0 <= i < |visits| && visits[i] == v;
      assert Found(g, roots, maximumDepth, visits[i]);
      RootsSpread(d, v.root);
    }
    if root :| Spreads(d, root) && f.causes == {root} && f.depth <= maximumDepth
               && Nearest(g, Visit(f.id, f.depth, root))
               && f.origin == if DiffersSomehow(d, f.id) then ConfirmedInduced else UpstreamExposure {
      RootsSpread(d, root);
      assert Reached(g, root, f.id, maximumDepth);
      var i := FindPair(visits, (root, f.id));
      assert Found(g, roots, maximumDepth, visits[i]);
      OneDistance(g, visits[i], Visit(f.id, f.depth, root));
      assert visits[i] in visits && f == d.Propagated(visits[i]);
    }
  }

  lemma OneDistance(g: Graph, v: Visit, u: Visit)
    requires Nearest(g, v) && Nearest(g, u) && v.id == u.id && v.root == u.root
    ensures v == u
  {
  }

  /** The facts a unit asks for are its own, and list the changed dimensions unless they are exposures. */
  predicate IsOfUnit(d: Delta, f: Fact) {
    OfUnit(d, f) && f.semantic == if f.origin != UpstreamExposure then d.Changes(f.id) else []
  }

  lemma AttributedOfUnit(d: Delta, id: Id)
    ensures IsOfUnit(d, d.Attributed(id))
  {
    hide Delta.Changes, Delta.OwnRoles, Delta.ChangedDependencies;
  }

  lemma ExposedOfUnit(d: Delta, id: Id)
    ensures IsOfUnit(d, d.Exposed(id))
  {
    hide Delta.Changes, Delta.OwnRoles, Delta.ChangedDependencies;
  }

  lemma PropagatedOfUnit(d: Delta, v: Visit)
    ensures IsOfUnit(d, d.Propagated(v))
  {
    hide Delta.Changes;
  }

  lemma RequestsAreOfUnit(d: Delta, visits: seq<Visit>, f: Fact)
    requires f in d.Requests(visits)
    ensures OfUnit(d, f) && f.semantic == if f.origin != UpstreamExposure then d.Changes(f.id) else []
  {
    hide Delta.AttributedTo, Delta.ExposedTo, Delta.PropagatedTo, Delta.Changes, Delta.OwnRoles, Delta.Attributed,
         Delta.Exposed, Delta.Propagated, Delta.ChangedDependencies, OfUnit;
    if f in d.AttributedTo(d.after.ids) {
      AttributedMembers(d, d.after.ids);
      AttributedOfUnit(d, f.id);
    } else if f in d.ExposedTo(d.after.ids) {
      ExposedMembers(d, d.after.ids);
      ExposedOfUnit(d, f.id);
    } else {
      PropagatedMembers(d, visits);
      var v :| v in visits && f == d.Propagated(v);
      PropagatedOfUnit(d, v);
    }
  }

  /** The requests of a unit are exactly those that its two views, the changed files and the dependency edges give. */
  lemma RequestsExactly(d: Delta, visits: seq<Visit>, maximumDepth: nat, f: Fact)
    requires Propagates(d, maximumDepth, visits)
    ensures f in d.Requests(visits) <==> Asked(d, maximumDepth, f)
  {
    hide Differs, AskedForChange, AskedForHeader, AskedForDependent, Propagates, OfUnit, Delta.AttributedTo,
         Delta.ExposedTo, Delta.PropagatedTo, Delta.Changes;
    SemanticIs(d, f);
    if f in d.Requests(visits) {
      RequestsAreOfUnit(d, visits, f);
    }
    if OfUnit(d, f) && f.semantic == if f.origin != UpstreamExposure then d.Changes(f.id) else [] {
      ChangeIsAsked(d, f);
      HeaderIsAsked(d, f);
      DependentIsAsked(d, visits, maximumDepth, f);
    }
  }

  /** The facts are about elements of the list, in its order. */
  ghost predicate InOrderOf(facts: seq<Fact>, ids: seq<Id>, at: seq<nat>) {
    |at| == |facts| && Rising(at, |ids|) && forall n | 0 <= n < |at| :: facts[n].id == ids[at[n]]
  }

  lemma InOrderOneMore(facts: seq<Fact>, ids: seq<Id>, at: seq<nat>, f: Fact)
    requires InOrderOf(facts, ids, at)
    ensures InOrderOf(facts, ids + [f.id], at) && InOrderOf(facts + [f], ids + [f.id], at + [|ids|])
  {
  }

  lemma {:induction false} AttributedInOrder(d: Delta, ids: seq<Id>) returns (at: seq<nat>)
    ensures InOrderOf(d.AttributedTo(ids), ids, at)
  {
    hide InOrderOf, Delta.Attributed, Delta.Changes;
    at := [];
    NothingInOrder(ids);
    if ids != [] {
      var rest, f := ids[..|ids| - 1], d.Attributed(ids[|ids| - 1]);
      AttributedIsOf(d, ids[|ids| - 1]);
      var before := AttributedInOrder(d, rest);
      InOrderOneMore(d.AttributedTo(rest), rest, before, f);
      assert ids == rest + [f.id];
      at := if d.Changes(f.id) != [] then before + [|rest|] else before;
      assert d.AttributedTo(rest) + [] == d.AttributedTo(rest);
    }
  }

  lemma {:induction false} ExposedInOrder(d: Delta, ids: seq<Id>) returns (at: seq<nat>)
    ensures InOrderOf(d.ExposedTo(ids), ids, at)
  {
    hide InOrderOf, Delta.Exposed, Delta.OwnRoles;
    at := [];
    NothingInOrder(ids);
    if ids != [] {
      var rest, f := ids[..|ids| - 1], d.Exposed(ids[|ids| - 1]);
      AttributedIsOf(d, ids[|ids| - 1]);
      var before := ExposedInOrder(d, rest);
      InOrderOneMore(d.ExposedTo(rest), rest, before, f);
      assert ids == rest + [f.id];
      at := if d.OwnRoles(f.id) == {} then before + [|rest|] else before;
      assert d.ExposedTo(rest) + [] == d.ExposedTo(rest);
    }
  }

  lemma NothingInOrder(ids: seq<Id>)
    ensures InOrderOf([], ids, [])
  {
  }

  lemma AttributedIsOf(d: Delta, id: Id)
    ensures d.Attributed(id).id == id && d.Exposed(id).id == id
  {
  }

  lemma {:induction false} PropagatedInOrder(d: Delta, visits: seq<Visit>)
    ensures |d.PropagatedTo(visits)| == |visits|
    ensures forall i | 0 <= i < |visits| :: d.PropagatedTo(visits)[i] == d.Propagated(visits[i])
  {
    hide Delta.Propagated;
    if visits != [] {
      PropagatedInOrder(d, visits[..|visits| - 1]);
    }
  }

  /** A unit asks for the changed elements first, then for what its headers expose, each in map order, and then for the
      dependents, the nearer ones first. */
  lemma RequestsInOrder(d: Delta, visits: seq<Visit>, maximumDepth: nat)
    returns (n: nat, m: nat, changes: seq<nat>, exposures: seq<nat>)
    requires Propagates(d, maximumDepth, visits)
    ensures n <= m <= |d.Requests(visits)|
    ensures forall i | 0 <= i < n :: AskedForChange(d, d.Requests(visits)[i])
    ensures forall i | n <= i < m :: AskedForHeader(d, d.Requests(visits)[i])
    ensures forall i | m <= i < |d.Requests(visits)| :: AskedForDependent(d, maximumDepth, d.Requests(visits)[i])
    ensures InOrderOf(d.Requests(visits)[..n], d.after.ids, changes)
    ensures InOrderOf(d.Requests(visits)[n..m], d.after.ids, exposures)
    ensures forall i, j | m <= i < j < |d.Requests(visits)| ::
      d.Requests(visits)[i].depth <= d.Requests(visits)[j].depth
  {
    hide AskedForChange, AskedForHeader, AskedForDependent, InOrderOf, Delta.AttributedTo, Delta.ExposedTo,
         Delta.PropagatedTo, Propagates;
    var ids, requests := d.after.ids, d.Requests(visits);
    var own, exposed := d.AttributedTo(ids), if d.ChangedDependencies() != {} then d.ExposedTo(ids) else [];
    var spread := d.PropagatedTo(visits);
    assert requests == own + exposed + spread;
    hide Delta.Requests, Delta.ChangedDependencies;
    n, m := |own|, |own| + |exposed|;
    assert requests[..n] == own && requests[n..m] == exposed && requests[m..] == spread;
    changes := AttributedInOrder(d, ids);
    if exposed == [] {
      NothingInOrder(ids);
      exposures := [];
    } else {
      exposures := ExposedInOrder(d, ids);
    }
    forall i | 0 <= i < |requests|
      ensures i < n ==> AskedForChange(d, requests[i])
      ensures n <= i < m ==> AskedForHeader(d, requests[i])
      ensures m <= i ==> AskedForDependent(d, maximumDepth, requests[i])
    {
      if i < n {
        assert requests[i] == own[i];
      } else if i < m {
        assert requests[i] == exposed[i - n];
      } else {
        assert requests[i] == spread[i - m];
      }
      PartIsAsked(d, visits, maximumDepth, requests[i]);
    }
    NearerFirst(d, visits, maximumDepth, spread);
    LaterPart(requests, spread, m);
  }

  lemma LaterPart(requests: seq<Fact>, spread: seq<Fact>, m: nat)
    requires m <= |requests| && requests[m..] == spread
    requires forall i, j | 0 <= i < j < |spread| :: spread[i].depth <= spread[j].depth
    ensures forall i, j | m <= i < j < |requests| :: requests[i].depth <= requests[j].depth
  {
    forall i, j | m <= i < j < |requests|
      ensures requests[i].depth <= requests[j].depth
    {
      assert requests[i] == spread[i - m] && requests[j] == spread[j - m];
    }
  }

  lemma PartIsAsked(d: Delta, visits: seq<Visit>, maximumDepth: nat, f: Fact)
    requires Propagates(d, maximumDepth, visits) && f in d.Requests(visits)
    ensures f in d.AttributedTo(d.after.ids) ==> AskedForChange(d, f)
    ensures d.ChangedDependencies() != {} && f in d.ExposedTo(d.after.ids) ==> AskedForHeader(d, f)
    ensures f in d.PropagatedTo(visits) ==> AskedForDependent(d, maximumDepth, f)
  {
    hide AskedForChange, AskedForHeader, AskedForDependent, Delta.AttributedTo, Delta.ExposedTo, Delta.PropagatedTo,
         Delta.ChangedDependencies, Propagates, Delta.Changes;
    RequestsAreOfUnit(d, visits, f);
    ChangeIsAsked(d, f);
    HeaderIsAsked(d, f);
    DependentIsAsked(d, visits, maximumDepth, f);
  }

  lemma NearerFirst(d: Delta, visits: seq<Visit>, maximumDepth: nat, facts: seq<Fact>)
    requires Propagates(d, maximumDepth, visits) && facts == d.PropagatedTo(visits)
    ensures forall i, j | 0 <= i < j < |facts| :: facts[i].depth <= facts[j].depth
  {
    PropagatedInOrder(d, visits);
  }

  lemma OneEdge(g: Graph, v: Visit)
    requires v.depth == 1 && Next(g, v.root) == [v.id]
    ensures BreadthFirst(g, [v.root], 1, [v])
  {
    assert Walk(g, v.root, v.root, 0) && v.id in Next(g, v.root);
    assert Walk(g, v.root, v.id, 1);
    assert Found(g, [v.root], 1, v);
    forall root, id | root in [v.root] && Reached(g, root, id, 1) ensures (root, id) in Pairs([v]) {
      assert Walk(g, v.root, id, 1);
      var s :| Walk(g, v.root, s, 0) && id in Next(g, s);
      PairIsVisited([v], 0);
    }
  }

  /** It happens: a changed definition, a changed dependent and a changed context. */
  lemma InducedDespiteContextHappens() returns (d: Delta, visits: seq<Visit>, f: Fact)
    ensures d.Valid() && d.ContextChanged()
    ensures Propagates(d, 1, visits)
    ensures f in d.Requests(visits) && f.origin == ConfirmedInduced
  {
    var was := ElementView("", {}, {"1"}, {}, []);
    var changed := ElementView("", {}, {"2"}, {}, [Anchor("f", "definition")]);
    var user := ElementView("", {}, {"2"}, {}, []);
    var g: Graph := map["a" := ["b"]];
    d := Delta(View("x", "u", ["a", "b"], map["a" := was, "b" := was], {}, g),
               View("y", "u", ["a", "b"], map["a" := changed, "b" := user], {}, g), "", "", {"f"});
    var v := Visit("b", 1, "a");
    visits := [v];
    assert changed.locations[0].role in d.OwnRoles("a");
    assert d.IsRoot("a") && !d.IsRoot("b");
    assert ["a", "b"][..1] == ["a"] && ["a"][..0] == [];
    assert d.RootsOf(["a"]) == ["a"];
    assert d.RootsOf(d.after.ids) == ["a"];
    OneEdge(g, v);
    f := d.Propagated(v);
    assert d.PropagatedTo(visits) == [f];
  }

  // ---------------------------------------------------------------- the loops

  lemma OneMore(d: Delta, ids: seq<Id>, i: nat)
    requires i < |ids|
    ensures d.AttributedTo(ids[..i + 1])
            == d.AttributedTo(ids[..i]) + if d.Changes(ids[i]) != [] then [d.Attributed(ids[i])] else []
    ensures d.RootsOf(ids[..i + 1]) == d.RootsOf(ids[..i]) + if d.IsRoot(ids[i]) then [ids[i]] else []
    ensures d.ExposedTo(ids[..i + 1])
            == d.ExposedTo(ids[..i]) + if d.OwnRoles(ids[i]) == {} then [d.Exposed(ids[i])] else []
  {
    assert ids[..i + 1][..i] == ids[..i];
  }

  lemma NoneYet(d: Delta)
    ensures d.AttributedTo([]) == [] && d.RootsOf([]) == [] && d.ExposedTo([]) == []
  {
  }

  lemma Joined(requests: seq<Fact>, done: seq<Fact>, more: seq<Fact>)
    ensures (requests + done) + more == requests + (done + more)
  {
  }

  method AttributeElement(d: Delta, id: Id, evidence: Evidence) returns (root: bool)
    requires evidence.Valid()
    modifies evidence
    ensures evidence.Valid() && evidence.earlier == old(evidence.earlier)
    ensures evidence.requests == old(evidence.requests) + if d.Changes(id) != [] then [d.Attributed(id)] else []
    ensures root == d.IsRoot(id)
  {
    root := false;
    var semantic := d.Changes(id);
    if semantic == [] {
      return;
    }
    var own := d.OwnRoles(id);
    if own != {} {
      var declarationOnly := "declaration" in own && "definition" !in own;
      evidence.Emit(d.FactOf(id, if declarationOnly then OwnDeclaration else DirectSource, semantic, {}, 0));
      root := true;
    } else if d.ContextChanged() {
      evidence.Emit(d.FactOf(id, BuildConfiguration, semantic, d.ChangedDependencies(), 0));
    } else if d.ChangedDependencies() != {} {
      evidence.Emit(d.FactOf(id, ConfirmedInduced, semantic, d.ChangedDependencies(), 1));
      root := true;
    } else {
      evidence.Emit(d.FactOf(id, UnattributedSemanticChange, semantic, {}, 0));
    }
  }

  method Attribute(d: Delta, evidence: Evidence) returns (roots: seq<Id>)
    requires evidence.Valid()
    modifies evidence
    ensures evidence.Valid() && evidence.earlier == old(evidence.earlier)
    ensures evidence.requests == old(evidence.requests) + d.AttributedTo(d.after.ids)
    ensures roots == d.RootsOf(d.after.ids)
  {
    hide Evidence.Valid, Delta.AttributedTo, Delta.RootsOf, Delta.IsRoot, Delta.Attributed;
    NoneYet(d);
    var ids := d.after.ids;
    roots := [];
    for i := 0 to |ids|
      invariant evidence.Valid() && evidence.earlier == old(evidence.earlier)
      invariant evidence.requests == old(evidence.requests) + d.AttributedTo(ids[..i])
      invariant roots == d.RootsOf(ids[..i])
    {
      OneMore(d, ids, i);
      Joined(old(evidence.requests), d.AttributedTo(ids[..i]),
             if d.Changes(ids[i]) != [] then [d.Attributed(ids[i])] else []);
      var root := AttributeElement(d, ids[i], evidence);
      roots := roots + if root then [ids[i]] else [];
    }
    assert ids[..|ids|] == ids;
  }

  method ExposeElement(d: Delta, id: Id, evidence: Evidence)
    requires evidence.Valid()
    modifies evidence
    ensures evidence.Valid() && evidence.earlier == old(evidence.earlier)
    ensures evidence.requests == old(evidence.requests) + if d.OwnRoles(id) == {} then [d.Exposed(id)] else []
  {
    if d.OwnRoles(id) == {} {
      var induced := d.Changes(id) != [] && !d.ContextChanged();
      evidence.Emit(d.FactOf(id, if induced then ConfirmedInduced else UpstreamExposure,
                             if induced then d.Changes(id) else [], d.ChangedDependencies(), 1));
    }
  }

  method Expose(d: Delta, evidence: Evidence)
    requires evidence.Valid()
    modifies evidence
    ensures evidence.Valid() && evidence.earlier == old(evidence.earlier)
    ensures evidence.requests == old(evidence.requests)
                                 + if d.ChangedDependencies() != {} then d.ExposedTo(d.after.ids) else []
  {
    hide Evidence.Valid, Delta.ExposedTo, Delta.Exposed, Delta.OwnRoles;
    if d.ChangedDependencies() != {} {
      NoneYet(d);
      var ids := d.after.ids;
      for i := 0 to |ids|
        invariant evidence.Valid() && evidence.earlier == old(evidence.earlier)
        invariant evidence.requests == old(evidence.requests) + d.ExposedTo(ids[..i])
      {
        OneMore(d, ids, i);
        Joined(old(evidence.requests), d.ExposedTo(ids[..i]),
               if d.OwnRoles(ids[i]) == {} then [d.Exposed(ids[i])] else []);
        ExposeElement(d, ids[i], evidence);
      }
      assert ids[..|ids|] == ids;
    }
  }

  lemma PropagatedOneMore(d: Delta, visits: seq<Visit>, next: Visit)
    ensures d.PropagatedTo(visits + [next]) == d.PropagatedTo(visits) + [d.Propagated(next)]
  {
    assert (visits + [next])[..|visits|] == visits;
  }

  lemma QueueOneMore(order: seq<Visit>, head: nat, next: Visit)
    requires head < |order|
    ensures (order + [next])[head] == order[head]
    ensures (order + [next])[head + 1..] == order[head + 1..] + [next]
  {
  }

  /** Emits and queues a dependent of the head of the queue unless its root has met it. */
  method MeetDependent(d: Delta, ghost roots: seq<Id>, maximumDepth: nat, evidence: Evidence, ghost before: seq<Fact>,
                       ghost visits: seq<Visit>, ghost head: nat, v: Visit, e: Id,
                       pending: seq<Visit>, visited: set<(Id, Id)>)
    returns (ghost visits': seq<Visit>, pending': seq<Visit>, visited': set<(Id, Id)>)
    requires evidence.Valid() && evidence.requests == before + d.PropagatedTo(visits)
    requires Exploring(d.after.dependents, roots, maximumDepth, visits, head)
    requires head < |Order(roots, visits)| && v == Order(roots, visits)[head]
    requires pending == Order(roots, visits)[head + 1..] && visited == Pairs(visits)
    requires v.depth < maximumDepth && e in Next(d.after.dependents, v.id)
    modifies evidence
    ensures evidence.Valid() && evidence.earlier == old(evidence.earlier)
    ensures evidence.requests == before + d.PropagatedTo(visits')
    ensures Exploring(d.after.dependents, roots, maximumDepth, visits', head)
    ensures head < |Order(roots, visits')| && v == Order(roots, visits')[head]
    ensures pending' == Order(roots, visits')[head + 1..] && visited' == Pairs(visits')
    ensures visited' == visited + {(v.root, e)} && (visited' == visited ==> pending' == pending)
  {
    hide Evidence.Valid, Exploring, Pairs, Order, Delta.PropagatedTo;
    visits', pending', visited' := visits, pending, visited;
    if (v.root, e) in visited {
      assert visited + {(v.root, e)} == visited;
      return;
    }
    var next := Visit(e, v.depth + 1, v.root);
    Meet(d.after.dependents, roots, maximumDepth, visits, head, v, e);
    PropagatedOneMore(d, visits, next);
    QueueOneMore(Order(roots, visits), head, next);
    visited' := visited + {(v.root, e)};
    var fact := d.FactOf(e, if d.Changes(e) != [] then ConfirmedInduced else UpstreamExposure,
                         d.Changes(e), {v.root}, v.depth + 1);
    assert fact == d.Propagated(next);
    assert (before + d.PropagatedTo(visits)) + [fact] == before + (d.PropagatedTo(visits) + [fact]);
    evidence.Emit(fact);
    pending' := pending + [next];
    visits' := visits + [next];
  }

  /** Lets every dependent of the head of the queue meet its root. */
  method ExpandHead(d: Delta, ghost roots: seq<Id>, maximumDepth: nat, evidence: Evidence, ghost before: seq<Fact>,
                    ghost visits: seq<Visit>, ghost head: nat, pending: seq<Visit>, visited: set<(Id, Id)>)
    returns (ghost visits': seq<Visit>, pending': seq<Visit>, visited': set<(Id, Id)>)
    requires evidence.Valid() && evidence.requests == before + d.PropagatedTo(visits)
    requires Exploring(d.after.dependents, roots, maximumDepth, visits, head)
    requires head < |Order(roots, visits)|
    requires pending == Order(roots, visits)[head..] && visited == Pairs(visits)
    modifies evidence
    ensures evidence.Valid() && evidence.earlier == old(evidence.earlier)
    ensures evidence.requests == before + d.PropagatedTo(visits')
    ensures Exploring(d.after.dependents, roots, maximumDepth, visits', head + 1)
    ensures pending' == Order(roots, visits')[head + 1..] && visited' == Pairs(visits')
    ensures visited <= visited' && (visited' == visited ==> |pending'| < |pending|)
  {
    hide Evidence.Valid, Exploring, Pairs;
    visits', pending', visited' := visits, pending[1..], visited;
    var v := pending[0];
    if v.depth < maximumDepth {
      var dependents := Next(d.after.dependents, v.id);
      for k := 0 to |dependents|
        invariant evidence.Valid() && evidence.earlier == old(evidence.earlier)
        invariant evidence.requests == before + d.PropagatedTo(visits')
        invariant Exploring(d.after.dependents, roots, maximumDepth, visits', head)
        invariant head < |Order(roots, visits')| && v == Order(roots, visits')[head]
        invariant pending' == Order(roots, visits')[head + 1..] && visited' == Pairs(visits')
        invariant visited <= visited' && (visited' == visited ==> |pending'| < |pending|)
        invariant forall i | 0 <= i < k :: (v.root, dependents[i]) in visited'
      {
        visits', pending', visited' := MeetDependent(d, roots, maximumDepth, evidence, before, visits', head,
                                                     v, dependents[k], pending', visited');
      }
    }
    Advance(d.after.dependents, roots, maximumDepth, visits', head);
  }

  function Universe(g: Graph, roots: seq<Id>): set<(Id, Id)> {
    set r, s, e | r in roots && s in g && e in g[s] :: (r, e)
  }

  lemma PairsBounded(g: Graph, roots: seq<Id>, maximumDepth: nat, visits: seq<Visit>)
    requires Shortest(g, roots, maximumDepth, visits)
    ensures Pairs(visits) <= Universe(g, roots)
  {
    forall p | p in Pairs(visits) ensures p in Universe(g, roots) {
      var i := FindPair(visits, p);
      assert Found(g, roots, maximumDepth, visits[i]);
      var s :| Walk(g, visits[i].root, s, visits[i].depth - 1) && visits[i].id in Next(g, s);
    }
  }

  lemma NothingMet(g: Graph, roots: seq<Id>, maximumDepth: nat)
    ensures Exploring(g, roots, maximumDepth, [], 0) && Pairs([]) == {}
    ensures Order(roots, [])[0..] == Starts(roots)
  {
  }

  lemma ExploringIsBounded(g: Graph, roots: seq<Id>, maximumDepth: nat, visits: seq<Visit>, head: nat)
    requires Exploring(g, roots, maximumDepth, visits, head)
    ensures Pairs(visits) <= Universe(g, roots) && head <= |Order(roots, visits)|
  {
    PairsBounded(g, roots, maximumDepth, visits);
  }

  /** The queue loop. */
  method Propagate(d: Delta, roots: seq<Id>, maximumDepth: nat, evidence: Evidence) returns (ghost visits: seq<Visit>)
    requires evidence.Valid()
    modifies evidence
    ensures evidence.Valid() && evidence.earlier == old(evidence.earlier)
    ensures evidence.requests == old(evidence.requests) + d.PropagatedTo(visits)
    ensures BreadthFirst(d.after.dependents, roots, maximumDepth, visits)
  {
    hide Evidence.Valid, Exploring, Pairs, Order, BreadthFirst, Universe;
    ghost var before := evidence.requests;
    var pending, visited: set<(Id, Id)> := Starts(roots), {};
    ghost var head := 0;
    visits := [];
    NothingMet(d.after.dependents, roots, maximumDepth);
    assert before + d.PropagatedTo(visits) == before;
    ExploringIsBounded(d.after.dependents, roots, maximumDepth, visits, head);
    while pending != []
      invariant evidence.Valid() && evidence.earlier == old(evidence.earlier)
      invariant evidence.requests == before + d.PropagatedTo(visits)
      invariant Exploring(d.after.dependents, roots, maximumDepth, visits, head)
      invariant head <= |Order(roots, visits)|
      invariant pending == Order(roots, visits)[head..] && visited == Pairs(visits)
      decreases |Universe(d.after.dependents, roots) - visited|, |pending|
    {
      ghost var met := visited;
      visits, pending, visited := ExpandHead(d, roots, maximumDepth, evidence, before, visits, head, pending, visited);
      head := head + 1;
      ExploringIsBounded(d.after.dependents, roots, maximumDepth, visits, head);
      FewerRemain(Universe(d.after.dependents, roots), met, visited);
    }
    Finished(d.after.dependents, roots, maximumDepth, visits);
  }

  /** Everything one translation unit contributes. */
  method SummarizeUnit(d: Delta, maximumDepth: nat, evidence: Evidence) returns (ghost visits: seq<Visit>)
    requires evidence.Valid()
    modifies evidence
    ensures evidence.Valid() && evidence.earlier == old(evidence.earlier)
    ensures evidence.requests == old(evidence.requests) + d.Requests(visits)
    ensures Propagates(d, maximumDepth, visits)
  {
    hide Evidence.Valid, BreadthFirst, Delta.AttributedTo, Delta.ExposedTo, Delta.PropagatedTo, Delta.RootsOf;
    var roots := Attribute(d, evidence);
    Expose(d, evidence);
    visits := Propagate(d, roots, maximumDepth, evidence);
  }

  // ---------------------------------------------------------------- all transitions

  /** The facts of a transition; it is complete when the budget suppressed none. */
  datatype Transition = Transition(facts: seq<Fact>, complete: bool)

  /** What the units ask for when their propagations make the given visits. */
  ghost function RequestsOf(units: seq<Delta>, visits: seq<seq<Visit>>): seq<Fact>
    requires |visits| == |units|
  {
    if units == [] then []
    else
      var last := |units| - 1;
      RequestsOf(units[..last], visits[..last]) + units[last].Requests(visits[last])
  }

  ghost predicate AllPropagate(units: seq<Delta>, maximumDepth: nat, visits: seq<seq<Visit>>) {
    |visits| == |units| && forall k | 0 <= k < |units| :: Propagates(units[k], maximumDepth, visits[k])
  }

  /** The first requests of each key within the budget, complete when these are all. */
  predicate Reports(t: Transition, requests: seq<Fact>, maximum: nat) {
    && t.facts == Take(Distinct(requests), maximum)
    && (t.complete <==> |Distinct(requests)| <= maximum)
  }

  ghost predicate Summarizes(t: Transition, units: seq<Delta>, maximumDepth: nat, maximum: nat) {
    exists visits :: AllPropagate(units, maximumDepth, visits) && Reports(t, RequestsOf(units, visits), maximum)
  }

  function AllFacts(transitions: seq<Transition>): seq<Fact> {
    if transitions == [] then []
    else AllFacts(transitions[..|transitions| - 1]) + transitions[|transitions| - 1].facts
  }

  lemma RequestsOneMore(units: seq<Delta>, k: nat, before: seq<seq<Visit>>, visits: seq<Visit>)
    requires k < |units| && |before| == k
    ensures RequestsOf(units[..k + 1], before + [visits]) == RequestsOf(units[..k], before) + units[k].Requests(visits)
  {
    hide Delta.Requests;
    assert units[..k + 1][..k] == units[..k] && (before + [visits])[..k] == before;
  }

  method SummarizeTransition(units: seq<Delta>, maximumDepth: nat, evidence: Evidence) returns (t: Transition)
    requires evidence.Valid()
    modifies evidence
    ensures evidence.Valid() && evidence.earlier == old(evidence.earlier + evidence.facts)
    ensures t.facts == evidence.facts && Summarizes(t, units, maximumDepth, evidence.maximum)
  {
    hide BreadthFirst, Delta.Requests, RequestsOf, Counts, Keys, Distinct;
    evidence.Begin();
    ghost var visits: seq<seq<Visit>> := [];
    NothingAsked();
    assert units[..0] == [];
    for k := 0 to |units|
      invariant evidence.Valid() && evidence.earlier == old(evidence.earlier + evidence.facts)
      invariant AllPropagate(units[..k], maximumDepth, visits)
      invariant evidence.requests == RequestsOf(units[..k], visits)
    {
      ghost var met := SummarizeUnit(units[k], maximumDepth, evidence);
      RequestsOneMore(units, k, visits, met);
      assert Propagates(units[k], maximumDepth, met);
      visits := visits + [met];
    }
    assert units[..|units|] == units;
    t := Transition(evidence.facts, !evidence.capped);
    assert Reports(t, RequestsOf(units, visits), evidence.maximum);
  }

  lemma NothingAsked()
    ensures RequestsOf([], []) == []
  {
  }

  /** The facts of every transition within its budget, and how often each origin was given in all of them. */
  method SummarizeChangeEvidence(changes: seq<seq<Delta>>, maximum: nat, maximumDepth: nat)
    returns (transitions: seq<Transition>, originCounts: map<Origin, nat>)
    ensures |transitions| == |changes|
    ensures forall i | 0 <= i < |changes| :: Summarizes(transitions[i], changes[i], maximumDepth, maximum)
    ensures Counts(originCounts, AllFacts(transitions))
    ensures Sum(originCounts.Keys, o => Count(AllFacts(transitions), o)) == |AllFacts(transitions)|
  {
    hide Evidence.Valid, Summarizes, Counts, Count;
    var evidence := new Evidence(maximum);
    transitions := [];
    for i := 0 to |changes|
      invariant fresh(evidence) && evidence.Valid() && evidence.maximum == maximum
      invariant |transitions| == i && evidence.earlier + evidence.facts == AllFacts(transitions)
      invariant forall k | 0 <= k < i :: Summarizes(transitions[k], changes[k], maximumDepth, maximum)
    {
      var t := SummarizeTransition(changes[i], maximumDepth, evidence);
      assert (transitions + [t])[..i] == transitions;
      transitions := transitions + [t];
    }
    originCounts := evidence.originCounts;
    evidence.CountsAreExact();
    OriginsSum(originCounts, AllFacts(transitions));
  }
}
