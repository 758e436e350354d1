/** The statistics of element.history_stats and file.history_stats over a run of bundles. */
module HistoryStats {
  import opened Options
  import opened Lineage
  import opened UnionFind
  import opened Sums

  /** The sets of transitions that are kept for an element class. */
  datatype Mark = ContentMark | InterfaceMark | ImplementationMark | DependencyMark | RenamedMark | MovedMark
                | AmbiguousMark | UnresolvedMark

  /** `marked` holds (m, i) when transition i was inserted into the set of mark m. */
  datatype Stats = Stats(versions: set<nat>, marked: set<(Mark, nat)>)

  datatype FileStats = FileStats(observed: set<nat>, changed: set<nat>, elements: set<string>,
                                 changedElements: set<string>)

  // ---------------------------------------------------------------- facts

  function ClassId(f: Fact): string {
    if f.before != "" then f.before else f.after
  }

  predicate IsLink(f: Fact) {
    f.before != "" && f.after != ""
  }

  predicate IsMarked(f: Fact, m: Mark) {
    match m
    case ContentMark => VerifiedChange(f)
    case InterfaceMark => f.content.InterfaceChanged? || f.content.BothChanged?
    case ImplementationMark => f.content.ImplementationChanged? || f.content.BothChanged?
    case DependencyMark => f.dependenciesChanged
    case RenamedMark => f.continuity.Renamed? || f.continuity.MovedAndRenamed?
    case MovedMark => f.continuity.Moved? || f.continuity.MovedAndRenamed?
    case AmbiguousMark => f.confidence.Ambiguous?
    case UnresolvedMark => f.continuity.AddedOrUnresolved? || f.continuity.DeletedOrUnresolved?
  }

  /** The insertions that one fact causes. */
  function MarksOf(f: Fact): (marks: set<Mark>)
    ensures forall m :: m in marks <==> IsMarked(f, m)
  {
    (if VerifiedChange(f) then {ContentMark} else {})
    + (if f.content.InterfaceChanged? || f.content.BothChanged? then {InterfaceMark} else {})
    + (if f.content.ImplementationChanged? || f.content.BothChanged? then {ImplementationMark} else {})
    + (if f.dependenciesChanged then {DependencyMark} else {})
    + (if f.continuity.Renamed? || f.continuity.MovedAndRenamed? then {RenamedMark} else {})
    + (if f.continuity.Moved? || f.continuity.MovedAndRenamed? then {MovedMark} else {})
    + (if f.confidence.Ambiguous? then {AmbiguousMark} else {})
    + (if f.continuity.AddedOrUnresolved? || f.continuity.DeletedOrUnresolved? then {UnresolvedMark} else {})
  }

  predicate ChangesFile(f: Fact) {
    VerifiedChange(f) || f.dependenciesChanged || (IsLink(f) && !f.continuity.Same?)
  }

  function PathsOf(f: Fact): set<string> {
    (if f.beforePath.Some? && f.beforePath.value != "" then {f.beforePath.value} else {})
    + (if f.afterPath.Some? && f.afterPath.value != "" then {f.afterPath.value} else {})
  }

  // ---------------------------------------------------------------- what the statistics are

  ghost function RootOf(parent: Forest, id: string): string {
    if Descending(parent) && id in parent then Root(parent, id) else id
  }

  ghost predicate Present(bundle: Bundle, parent: Forest, root: string) {
    exists e <- bundle.elements :: RootOf(parent, e.id) == root
  }

  ghost predicate MarkedIn(facts: seq<Fact>, parent: Forest, root: string, m: Mark) {
    exists f <- facts :: RootOf(parent, ClassId(f)) == root && IsMarked(f, m)
  }

  function StatsAt(stats: map<string, Stats>, root: string): Stats {
    if root in stats then stats[root] else Stats({}, {})
  }

  ghost predicate VersionsCounted(stats: map<string, Stats>, bundles: seq<Bundle>, n: nat, parent: Forest)
    requires n <= |bundles|
  {
    forall root, v: nat {:trigger v in StatsAt(stats, root).versions} {:trigger Present(bundles[v], parent, root)} ::
      v in StatsAt(stats, root).versions <==> v < n && Present(bundles[v], parent, root)
  }

  ghost predicate MarksCounted(stats: map<string, Stats>, transitions: seq<seq<Fact>>, n: nat, parent: Forest)
    requires n <= |transitions|
  {
    forall root, m, i: nat :: (m, i) in StatsAt(stats, root).marked <==>
      i < n && MarkedIn(transitions[i], parent, root, m)
  }

  /** Every set of every class holds exactly the versions and transitions it should. */
  ghost predicate CountsElements(stats: map<string, Stats>, bundles: seq<Bundle>, transitions: seq<seq<Fact>>,
                                 parent: Forest)
  {
    VersionsCounted(stats, bundles, |bundles|, parent) && MarksCounted(stats, transitions, |transitions|, parent)
  }

  function FileAt(files: map<string, FileStats>, path: string): FileStats {
    if path in files then files[path] else FileStats({}, {}, {}, {})
  }

  ghost predicate FileObserved(facts: seq<Fact>, path: string) {
    exists f <- facts :: path in PathsOf(f) && IsLink(f)
  }

  ghost predicate FileChanged(facts: seq<Fact>, path: string) {
    exists f <- facts :: path in PathsOf(f) && ChangesFile(f)
  }

  ghost predicate FilesCounted(files: map<string, FileStats>, transitions: seq<seq<Fact>>, n: nat)
    requires n <= |transitions|
  {
    && (forall path, i: nat
          {:trigger i in FileAt(files, path).observed} {:trigger FileObserved(transitions[i], path)} ::
          i in FileAt(files, path).observed <==> i < n && FileObserved(transitions[i], path))
    && (forall path, i: nat
          {:trigger i in FileAt(files, path).changed} {:trigger FileChanged(transitions[i], path)} ::
          i in FileAt(files, path).changed <==> i < n && FileChanged(transitions[i], path))
  }

  ghost predicate FileHolds(facts: seq<Fact>, parent: Forest, path: string, root: string) {
    exists f <- facts :: path in PathsOf(f) && RootOf(parent, ClassId(f)) == root
  }

  ghost predicate FileHoldsChanged(facts: seq<Fact>, parent: Forest, path: string, root: string) {
    exists f <- facts :: path in PathsOf(f) && RootOf(parent, ClassId(f)) == root
                         && (VerifiedChange(f) || f.dependenciesChanged)
  }

  /** The element classes of a file are those of its facts, and the changed ones those of its reported changes. */
  ghost predicate FileElementsCounted(files: map<string, FileStats>, transitions: seq<seq<Fact>>, n: nat,
                                      parent: Forest)
    requires n <= |transitions|
  {
    && (forall path, root :: root in FileAt(files, path).elements <==>
          exists i | 0 <= i < n :: FileHolds(transitions[i], parent, path, root))
    && (forall path, root :: root in FileAt(files, path).changedElements <==>
          exists i | 0 <= i < n :: FileHoldsChanged(transitions[i], parent, path, root))
  }

  ghost predicate CountsFiles(files: map<string, FileStats>, transitions: seq<seq<Fact>>) {
    FilesCounted(files, transitions, |transitions|)
  }

  // ---------------------------------------------------------------- rates

  /** The pairs of identities that the facts of some transitions link. */
  ghost function Links(transitions: seq<seq<Fact>>): set<Edge> {
    set i, f | 0 <= i < |transitions| && f in transitions[i] && IsLink(f) :: (f.before, f.after)
  }

  ghost predicate NamedElements(bundles: seq<Bundle>) {
    forall b <- bundles, e <- b.elements :: e.id != ""
  }

  ghost predicate IsTrace(facts: seq<Fact>, before: Bundle, after: Bundle, assertions: seq<Assertion>,
                          hash: string -> string)
  {
    var b, a := before.elements, after.elements;
    multiset(facts) == multiset(FactsOf(Scan(b, a, AcceptedBy(assertions), RejectedBy(assertions), {}), a, hash))
  }

  ghost predicate TracedSoFar(bundles: seq<Bundle>, transitions: seq<seq<Fact>>, assertions: seq<Assertion>,
                              hash: string -> string)
  {
    && |transitions| < |bundles|
    && forall i | 0 <= i < |transitions| :: IsTrace(transitions[i], bundles[i], bundles[i + 1], assertions, hash)
  }

  /** Each transition is the trace of its two bundles. */
  ghost predicate Traced(bundles: seq<Bundle>, transitions: seq<seq<Fact>>, assertions: seq<Assertion>,
                         hash: string -> string)
  {
    |transitions| + 1 == |bundles| && TracedSoFar(bundles, transitions, assertions, hash)
  }

  predicate Consecutive(versions: set<nat>, v: nat) {
    v in versions && v + 1 in versions
  }

  /** The opportunities for change: versions whose successor was seen too. */
  ghost function Observable(versions: set<nat>): set<nat> {
    set v {:trigger Consecutive(versions, v)} | v in versions && Consecutive(versions, v)
  }

  ghost function Marked(stats: Stats, m: Mark): set<nat> {
    set p | p in stats.marked && p.0 == m :: p.1
  }

  /** No accepted review says that an element without an id is the same as one with an id. */
  predicate NamesAgree(assertions: seq<Assertion>) {
    forall k <- AcceptedBy(assertions) :: k == "" <==> AcceptedBy(assertions)[k] == ""
  }

  /** A fact that reports a change pairs two elements of the adjacent bundles that have one id or were reviewed. */
  lemma ChangeIsPair(bundles: seq<Bundle>, transitions: seq<seq<Fact>>, assertions: seq<Assertion>,
                     hash: string -> string, i: nat, f: Fact)
    requires Traced(bundles, transitions, assertions, hash)
    requires i < |transitions| && f in transitions[i] && ReportsChange(f)
    ensures ReportsPair(f, bundles[i].elements, bundles[i + 1].elements)
    ensures Warranted(f.before, f.after, AcceptedBy(assertions))
  {
    var b, a := bundles[i].elements, bundles[i + 1].elements;
    assert IsTrace(transitions[i], bundles[i], bundles[i + 1], assertions, hash) && f in multiset(transitions[i]);
    OnlyMatchedFactsVerify(b, a, AcceptedBy(assertions), RejectedBy(assertions), hash, f);
  }

  /** A fact that reports a change links two named elements of the adjacent bundles. */
  lemma ChangeIsLink(bundles: seq<Bundle>, transitions: seq<seq<Fact>>, assertions: seq<Assertion>,
                     hash: string -> string, i: nat, f: Fact)
    requires Traced(bundles, transitions, assertions, hash) && NamedElements(bundles)
    requires i < |transitions| && f in transitions[i] && ReportsChange(f)
    ensures ReportsPair(f, bundles[i].elements, bundles[i + 1].elements) && IsLink(f)
  {
    ChangeIsPair(bundles, transitions, assertions, hash, i, f);
    var b, a := bundles[i].elements, bundles[i + 1].elements;
    var j, k :| IsPairOf(f, b, a, j, k);
    assert bundles[i] in bundles && b[j] in b && bundles[i + 1] in bundles && a[k] in a;
  }

  /** The class that a fact is counted for is present on both sides, unless only one side has an id. */
  lemma PairIsPresent(bundles: seq<Bundle>, transitions: seq<seq<Fact>>, parent: Forest, i: nat, f: Fact)
    requires |transitions| + 1 == |bundles| && i < |transitions| && f in transitions[i]
    requires f.before == "" <==> f.after == ""
    requires Represents(parent, Links(transitions))
    requires ReportsPair(f, bundles[i].elements, bundles[i + 1].elements)
    ensures var root := RootOf(parent, ClassId(f));
      Present(bundles[i], parent, root) && Present(bundles[i + 1], parent, root)
  {
    if IsLink(f) {
      assert (f.before, f.after) in Links(transitions);
    }
    var j, k :| IsPairOf(f, bundles[i].elements, bundles[i + 1].elements, j, k);
    assert bundles[i].elements[j] in bundles[i].elements && bundles[i + 1].elements[k] in bundles[i + 1].elements;
  }

  /** A mark of change on a class means the class is present in both adjacent bundles. */
  lemma MarkedIsObservable(stats: map<string, Stats>, bundles: seq<Bundle>, transitions: seq<seq<Fact>>,
                           assertions: seq<Assertion>, hash: string -> string, parent: Forest, root: string, m: Mark)
    requires Traced(bundles, transitions, assertions, hash) && NamesAgree(assertions)
    requires Represents(parent, Links(transitions)) && CountsElements(stats, bundles, transitions, parent)
    requires m != AmbiguousMark && m != UnresolvedMark
    ensures Marked(StatsAt(stats, root), m) <= Observable(StatsAt(stats, root).versions)
  {
    forall i: nat | i in Marked(StatsAt(stats, root), m)
      ensures i in Observable(StatsAt(stats, root).versions)
    {
      assert (m, i) in StatsAt(stats, root).marked && MarkedIn(transitions[i], parent, root, m);
      var f :| f in transitions[i] && RootOf(parent, ClassId(f)) == root && IsMarked(f, m);
      ChangeIsPair(bundles, transitions, assertions, hash, i, f);
      PairIsPresent(bundles, transitions, parent, i, f);
      assert Consecutive(StatsAt(stats, root).versions, i);
    }
  }

  /** A reported rate; null without opportunities. */
  function Rate(count: nat, opportunities: nat): Option<real> {
    if opportunities == 0 then None else Some(count as real / opportunities as real)
  }

  lemma RateAtMostOne(count: nat, opportunities: nat)
    requires count <= opportunities
    ensures Rate(count, opportunities).Some? ==> 0.0 <= Rate(count, opportunities).value <= 1.0
  {
    if opportunities > 0 {
      assert count as real / opportunities as real <= opportunities as real / opportunities as real;
    }
  }

  /** Some run of bundles and its statistics. */
  ghost predicate Reported(stats: map<string, Stats>, bundles: seq<Bundle>, transitions: seq<seq<Fact>>,
                           assertions: seq<Assertion>, hash: string -> string, parent: Forest)
  {
    && Traced(bundles, transitions, assertions, hash)
    && Represents(parent, Links(transitions)) && CountsElements(stats, bundles, transitions, parent)
  }

  ghost function RateOf(stats: map<string, Stats>, root: string, m: Mark): Option<real> {
    Rate(|Marked(StatsAt(stats, root), m)|, |Observable(StatsAt(stats, root).versions)|)
  }

  predicate AtMostOne(rate: Option<real>) {
    rate.Some? ==> 0.0 <= rate.value <= 1.0
  }

  /** Every change rate that is reported under some reviews is at most one. */
  ghost predicate RatesBounded(assertions: seq<Assertion>, hash: string -> string) {
    forall stats, bundles, transitions, parent, root, m |
      Reported(stats, bundles, transitions, assertions, hash, parent) && m != AmbiguousMark && m != UnresolvedMark ::
      AtMostOne(RateOf(stats, root, m))
  }

  /** Every reported change rate of an element class is at most one when the reviews agree on names. */
  lemma ElementRatesAtMostOne(stats: map<string, Stats>, bundles: seq<Bundle>, transitions: seq<seq<Fact>>,
                              assertions: seq<Assertion>, hash: string -> string, parent: Forest, root: string, m: Mark)
    requires Reported(stats, bundles, transitions, assertions, hash, parent) && NamesAgree(assertions)
    requires m != AmbiguousMark && m != UnresolvedMark
    ensures AtMostOne(RateOf(stats, root, m))
  {
    MarkedIsObservable(stats, bundles, transitions, assertions, hash, parent, root, m);
    SubsetSize(Marked(StatsAt(stats, root), m), Observable(StatsAt(stats, root).versions));
    RateAtMostOne(|Marked(StatsAt(stats, root), m)|, |Observable(StatsAt(stats, root).versions)|);
  }

  /** And they are for all histories exactly when the reviews do. */
  lemma RatesBoundedExactly(assertions: seq<Assertion>, hash: string -> string)
    ensures RatesBounded(assertions, hash) <==> NamesAgree(assertions)
  {
    hide Reported;
    if NamesAgree(assertions) {
      forall stats, bundles, transitions, parent, root, m |
        Reported(stats, bundles, transitions, assertions, hash, parent) && m != AmbiguousMark && m != UnresolvedMark
        ensures AtMostOne(RateOf(stats, root, m))
      {
        ElementRatesAtMostOne(stats, bundles, transitions, assertions, hash, parent, root, m);
      }
    } else {
      var k :| k in AcceptedBy(assertions) && !(k == "" <==> AcceptedBy(assertions)[k] == "");
      var x := if k == "" then AcceptedBy(assertions)[k] else k;
      OneSidedBreaksRate(assertions, hash, x);
      assert !AtMostOne(RateOf(ThreeVersionStats(Asserted(assertions, "", x), x), x, InterfaceMark));
    }
  }

  /** What is counted of one transition for one file. */
  lemma FileIsCounted(files: map<string, FileStats>, transitions: seq<seq<Fact>>, path: string, i: nat)
    requires CountsFiles(files, transitions)
    ensures i in FileAt(files, path).observed <==> i < |transitions| && FileObserved(transitions[i], path)
    ensures i in FileAt(files, path).changed <==> i < |transitions| && FileChanged(transitions[i], path)
  {
  }

  lemma ChangedIsObserved(bundles: seq<Bundle>, transitions: seq<seq<Fact>>, assertions: seq<Assertion>,
                          hash: string -> string, i: nat, path: string)
    requires Traced(bundles, transitions, assertions, hash) && NamedElements(bundles)
    requires i < |transitions| && FileChanged(transitions[i], path)
    ensures FileObserved(transitions[i], path)
  {
    hide Traced, NamedElements, PathsOf, ReportsPair;
    var f :| f in transitions[i] && path in PathsOf(f) && ChangesFile(f);
    if !IsLink(f) {
      ChangeIsLink(bundles, transitions, assertions, hash, i, f);
    }
  }

  /** Every file change rate is at most one: a file that changed in a transition was observed in it. */
  lemma FileRatesAtMostOne(files: map<string, FileStats>, bundles: seq<Bundle>, transitions: seq<seq<Fact>>,
                           assertions: seq<Assertion>, hash: string -> string, path: string)
    requires Traced(bundles, transitions, assertions, hash) && NamedElements(bundles)
    requires CountsFiles(files, transitions)
    ensures FileAt(files, path).changed <= FileAt(files, path).observed
    ensures var rate := Rate(|FileAt(files, path).changed|, |FileAt(files, path).observed|);
      rate.Some? ==> 0.0 <= rate.value <= 1.0
  {
    hide CountsFiles, Traced, NamedElements, FileObserved, FileChanged;
    ghost var file := FileAt(files, path);
    forall i: nat | i in file.changed
      ensures i in file.observed
    {
      FileIsCounted(files, transitions, path, i);
      ChangedIsObserved(bundles, transitions, assertions, hash, i, path);
    }
    SubsetSize(FileAt(files, path).changed, FileAt(files, path).observed);
    RateAtMostOne(|FileAt(files, path).changed|, |FileAt(files, path).observed|);
  }

  // What is counted, in terms of the elements: an element of one bundle and the one of the next that it is matched to.

  predicate DiffersBy(m: Mark, e: Element, next: Element) {
    match m
    case ContentMark => e.interface != next.interface || e.implementation != next.implementation
    case InterfaceMark => e.interface != next.interface
    case ImplementationMark => e.implementation != next.implementation
    case DependencyMark => e.dependency != next.dependency
    case RenamedMark => e.name != next.name
    case MovedMark => e.path != next.path
    case AmbiguousMark => false
    case UnresolvedMark => false
  }

  predicate MarksOpen(m: Mark) {
    m == AmbiguousMark || m == UnresolvedMark
  }

  lemma MatchedMarks(f: Fact, e: Element, next: Element, reviewed: bool, m: Mark)
    requires Compares(f, e, next, reviewed)
    ensures IsMarked(f, m) <==> DiffersBy(m, e, next)
    ensures ClassId(f) == if e.id != "" then e.id else next.id
  {
  }

  lemma OpenMarks(f: Fact, e: Element, gone: bool, m: Mark)
    requires IsOpen(f, e, gone)
    ensures (IsMarked(f, m) <==> MarksOpen(m)) && ClassId(f) == e.id
  {
  }

  /** The outcome of an element counts for the class with the mark. */
  ghost predicate OutcomeMarks(o: Outcome, after: seq<Element>, parent: Forest, root: string, m: Mark)
    requires Within(o, |after|)
  {
    if o.matched.None? then MarksOpen(m) && RootOf(parent, o.element.id) == root
    else
      var next := after[o.matched.value.index];
      DiffersBy(m, o.element, next) && RootOf(parent, if o.element.id != "" then o.element.id else next.id) == root
  }

  /** Some element of the class differs so from the one it is matched to, or is open on either side. */
  ghost predicate ClassMarked(before: seq<Element>, after: seq<Element>, assertions: seq<Assertion>, parent: Forest,
                              root: string, m: Mark)
  {
    var outcomes := Scan(before, after, AcceptedBy(assertions), RejectedBy(assertions), {});
    || (exists o <- outcomes :: Within(o, |after|) && OutcomeMarks(o, after, parent, root, m))
    || FreeMarks(after, UsedBy(outcomes), parent, root, m)
  }

  lemma OutcomeIsMarked(outcomes: seq<Outcome>, after: seq<Element>, hash: string -> string, k: nat, parent: Forest,
                        root: string, m: Mark)
    requires InRange(outcomes, |after|) && k < |outcomes|
    ensures var f := FactsOf(outcomes, after, hash)[k];
      CountsFor(f, parent, root, m) <==> OutcomeMarks(outcomes[k], after, parent, root, m)
  {
    hide IsMarked, RootOf;
    FactsExplained(outcomes, after, hash, k);
    var f, o := FactsOf(outcomes, after, hash)[k], outcomes[k];
    if o.matched.None? {
      OpenMarks(f, o.element, true, m);
    } else {
      MatchedMarks(f, o.element, after[o.matched.value.index], o.matched.value.reviewed, m);
    }
  }

  ghost predicate CountsFor(f: Fact, parent: Forest, root: string, m: Mark) {
    RootOf(parent, ClassId(f)) == root && IsMarked(f, m)
  }

  ghost predicate FreeMarks(after: seq<Element>, used: set<nat>, parent: Forest, root: string, m: Mark) {
    MarksOpen(m) && exists j | 0 <= j < |after| :: j !in used && RootOf(parent, after[j].id) == root
  }

  lemma AddedIsMarked(facts: seq<Fact>, after: seq<Element>, positions: seq<nat>, used: set<nat>,
                      hash: string -> string, parent: Forest, root: string, m: Mark)
    requires AddedAre(facts, after, positions, hash) && ListsFree(positions, used, 0, |after|)
    ensures (exists f <- facts :: CountsFor(f, parent, root, m)) <==> FreeMarks(after, used, parent, root, m)
  {
    hide IsMarked, RootOf, IsOpen;
    if exists f <- facts :: CountsFor(f, parent, root, m) {
      var k :| 0 <= k < |facts| && CountsFor(facts[k], parent, root, m);
      OpenMarks(facts[k], after[positions[k]], false, m);
      assert positions[k] in positions;
    }
    if FreeMarks(after, used, parent, root, m) {
      var j: nat :| j < |after| && j !in used && RootOf(parent, after[j].id) == root;
      assert j in positions;
      var k :| 0 <= k < |positions| && positions[k] == j;
      OpenMarks(facts[k], after[j], false, m);
      assert facts[k] in facts && CountsFor(facts[k], parent, root, m);
    }
  }

  /** A class holds a mark of a transition exactly if an element of the class differs so there from the one it is
      matched to, or, for the two marks of open elements, is on one side only. */
  lemma MarksAreDifferences(stats: map<string, Stats>, bundles: seq<Bundle>, transitions: seq<seq<Fact>>,
                            assertions: seq<Assertion>, hash: string -> string, parent: Forest, root: string, m: Mark,
                            i: nat)
    requires Reported(stats, bundles, transitions, assertions, hash, parent) && i < |transitions|
    ensures (m, i) in StatsAt(stats, root).marked <==>
      ClassMarked(bundles[i].elements, bundles[i + 1].elements, assertions, parent, root, m)
  {
    assert IsTrace(transitions[i], bundles[i], bundles[i + 1], assertions, hash);
    TraceMarks(transitions[i], bundles[i].elements, bundles[i + 1].elements, assertions, hash, parent, root, m);
  }

  lemma TraceMarks(facts: seq<Fact>, before: seq<Element>, after: seq<Element>, assertions: seq<Assertion>,
                   hash: string -> string, parent: Forest, root: string, m: Mark)
    requires var outcomes := Scan(before, after, AcceptedBy(assertions), RejectedBy(assertions), {});
      multiset(facts) == multiset(FactsOf(outcomes, after, hash))
    ensures MarkedIn(facts, parent, root, m) <==> ClassMarked(before, after, assertions, parent, root, m)
  {
    hide CountsFor, AddedFacts, UsedBy, Scan, AcceptedBy, RejectedBy, OutcomeMarks, FreeMarks, AddedAre, ListsFree;
    var outcomes := Scan(before, after, AcceptedBy(assertions), RejectedBy(assertions), {});
    var all, added := FactsOf(outcomes, after, hash), AddedFacts(after, UsedBy(outcomes), 0, hash);
    SameFactsMark(facts, all, parent, root, m);
    forall k | 0 <= k < |outcomes|
      ensures CountsFor(all[k], parent, root, m) <==> OutcomeMarks(outcomes[k], after, parent, root, m)
    {
      OutcomeIsMarked(outcomes, after, hash, k, parent, root, m);
    }
    var positions := AddedExplained(after, UsedBy(outcomes), 0, hash);
    AddedIsMarked(added, after, positions, UsedBy(outcomes), hash, parent, root, m);
    MarkedSplits(outcomes, all, added, after, parent, root, m);
  }

  lemma SameFactsMark(facts: seq<Fact>, all: seq<Fact>, parent: Forest, root: string, m: Mark)
    requires multiset(facts) == multiset(all)
    ensures MarkedIn(facts, parent, root, m) <==> exists f <- all :: CountsFor(f, parent, root, m)
  {
    hide IsMarked, RootOf;
    assert forall f :: f in facts <==> f in multiset(facts);
    assert forall f :: f in all <==> f in multiset(all);
    if MarkedIn(facts, parent, root, m) {
      var f :| f in facts && RootOf(parent, ClassId(f)) == root && IsMarked(f, m);
      assert f in all && CountsFor(f, parent, root, m);
    }
    if exists f <- all :: CountsFor(f, parent, root, m) {
      var f :| f in all && CountsFor(f, parent, root, m);
      assert f in facts;
    }
  }

  lemma MarkedSplits(outcomes: seq<Outcome>, all: seq<Fact>, added: seq<Fact>, after: seq<Element>, parent: Forest,
                     root: string, m: Mark)
    requires InRange(outcomes, |after|) && |outcomes| <= |all| && all[|outcomes|..] == added
    requires forall k | 0 <= k < |outcomes| ::
      CountsFor(all[k], parent, root, m) <==> OutcomeMarks(outcomes[k], after, parent, root, m)
    ensures (exists f <- all :: CountsFor(f, parent, root, m)) <==>
      || (exists o <- outcomes :: Within(o, |after|) && OutcomeMarks(o, after, parent, root, m))
      || (exists f <- added :: CountsFor(f, parent, root, m))
  {
    hide CountsFor, OutcomeMarks;
    if exists f <- all :: CountsFor(f, parent, root, m) {
      var k :| 0 <= k < |all| && CountsFor(all[k], parent, root, m);
      if k < |outcomes| {
        assert outcomes[k] in outcomes && OutcomeMarks(outcomes[k], after, parent, root, m);
      } else {
        assert all[k] == added[k - |outcomes|];
      }
    }
    if exists o <- outcomes :: Within(o, |after|) && OutcomeMarks(o, after, parent, root, m) {
      var k :| 0 <= k < |outcomes| && Within(outcomes[k], |after|) && OutcomeMarks(outcomes[k], after, parent, root, m);
      assert all[k] in all;
    }
    if exists f <- added :: CountsFor(f, parent, root, m) {
      var f :| f in added && CountsFor(f, parent, root, m);
      assert f in all;
    }
  }

  /** What a matched pair counts for its files, both of them when it has moved. */
  lemma MatchedFiles(f: Fact, e: Element, next: Element, reviewed: bool)
    requires Compares(f, e, next, reviewed)
    ensures PathsOf(f) == {e.path, next.path} - {""}
    ensures IsLink(f) <==> e.id != "" && next.id != ""
    ensures ChangesFile(f) <==>
      || e.interface != next.interface || e.implementation != next.implementation || e.dependency != next.dependency
      || (e.id != "" && next.id != "" && (e.name != next.name || e.path != next.path))
  {
  }

  /** An element on one side only is no opportunity and no change of its file. */
  lemma OpenFiles(f: Fact, e: Element, gone: bool)
    requires IsOpen(f, e, gone)
    ensures PathsOf(f) == {e.path} - {""} && !IsLink(f) && !ChangesFile(f)
  {
  }

  // Of three versions of one function one has no identity, the first or the last, and is linked to its
  // neighbour by a review; the function changes twice.

  function Version(id: string, interface: string): Element {
    Element(id, "function", "f", "f.cpp", interface, "", "")
  }

  function IdAt(unnamedFirst: bool, x: string, v: nat): string {
    if unnamedFirst then if v == 0 then "" else x
    else if v == 2 then "" else x
  }

  function ThreeVersions(unnamedFirst: bool, x: string): seq<Bundle> {
    [Bundle("r0", "c", true, [Version(IdAt(unnamedFirst, x, 0), "i0")]),
     Bundle("r1", "c", true, [Version(x, "i1")]),
     Bundle("r2", "c", true, [Version(IdAt(unnamedFirst, x, 2), "i2")])]
  }

  function ChangeFact(before: string, after: string, reviewed: bool, hash: string -> string): Fact {
    Fact("history-" + hash(before), before, after, Some("f.cpp"), Some("f.cpp"), Same, InterfaceChanged, false,
         if reviewed then Reviewed else Exact)
  }

  predicate Asserted(assertions: seq<Assertion>, before: string, after: string) {
    before in AcceptedBy(assertions) && AcceptedBy(assertions)[before] == after
  }

  function ChangeIn(assertions: seq<Assertion>, before: string, after: string, hash: string -> string): Fact {
    ChangeFact(before, after, Asserted(assertions, before, after), hash)
  }

  function TwoChanges(assertions: seq<Assertion>, unnamedFirst: bool, x: string, hash: string -> string): seq<seq<Fact>>
  {
    [[ChangeIn(assertions, IdAt(unnamedFirst, x, 0), x, hash)],
     [ChangeIn(assertions, x, IdAt(unnamedFirst, x, 2), hash)]]
  }

  function ThreeVersionStats(unnamedFirst: bool, x: string): map<string, Stats> {
    var marks := {(ContentMark, 0), (InterfaceMark, 0), (ContentMark, 1), (InterfaceMark, 1)};
    if unnamedFirst then map["" := Stats({0}, {}), x := Stats({1, 2}, marks)]
    else map["" := Stats({2}, {}), x := Stats({0, 1}, marks)]
  }

  lemma SingleChange(assertions: seq<Assertion>, before: Bundle, after: Bundle, hash: string -> string)
    requires |before.elements| == 1 == |after.elements|
    requires var b, a := before.elements[0], after.elements[0];
      && b == Version(b.id, b.interface) && a == Version(a.id, a.interface) && b.interface != a.interface
      && (b.id == a.id || Asserted(assertions, b.id, a.id))
    ensures IsTrace([ChangeIn(assertions, before.elements[0].id, after.elements[0].id, hash)], before, after,
      assertions, hash)
  {
    var b, a := before.elements, after.elements;
    var accepted, rejected := AcceptedBy(assertions), RejectedBy(assertions);
    var o := Decide(b[0], a, accepted, rejected, {});
    assert o == Outcome(b[0], Some(Match(0, Asserted(assertions, b[0].id, a[0].id))), []);
    assert b[1..] == [] && Scan(b, a, accepted, rejected, {}) == [o];
    assert 0 in Used(o) && UsedBy([o]) == {0};
    assert AddedFacts(a, {0}, 0, hash) == [] + AddedFacts(a, {0}, 1, hash);
  }

  lemma TwoChangesTraced(assertions: seq<Assertion>, unnamedFirst: bool, x: string, hash: string -> string)
    requires x != "" && (if unnamedFirst then Asserted(assertions, "", x) else Asserted(assertions, x, ""))
    ensures Traced(ThreeVersions(unnamedFirst, x), TwoChanges(assertions, unnamedFirst, x, hash), assertions, hash)
  {
    hide IsTrace, ChangeIn;
    var bundles := ThreeVersions(unnamedFirst, x);
    SingleChange(assertions, bundles[0], bundles[1], hash);
    SingleChange(assertions, bundles[1], bundles[2], hash);
  }

  lemma OnlySelfLinked(assertions: seq<Assertion>, unnamedFirst: bool, x: string, hash: string -> string)
    requires x != ""
    ensures Represents(map[x := x], Links(TwoChanges(assertions, unnamedFirst, x, hash)))
  {
    var edges := Links(TwoChanges(assertions, unnamedFirst, x, hash));
    forall e | e in edges
      ensures e == (x, x)
    {
    }
    ConnectedSelf(edges, x);
    assert LinkDescends(map[x := x], x);
  }

  lemma PresentInVersion(unnamedFirst: bool, x: string, root: string, v: nat)
    requires x != "" && v < 3
    ensures Present(ThreeVersions(unnamedFirst, x)[v], map[x := x], root) <==> root == IdAt(unnamedFirst, x, v)
  {
    var e := Version(IdAt(unnamedFirst, x, v), if v == 0 then "i0" else if v == 1 then "i1" else "i2");
    var bundle := ThreeVersions(unnamedFirst, x)[v];
    assert bundle.elements == [e] && e in bundle.elements;
    assert Root(map[x := x], x) == x;
  }

  lemma VersionsAreCounted(unnamedFirst: bool, x: string)
    requires x != ""
    ensures VersionsCounted(ThreeVersionStats(unnamedFirst, x), ThreeVersions(unnamedFirst, x), 3, map[x := x])
  {
    hide Present;
    forall root, v: nat
      ensures v in StatsAt(ThreeVersionStats(unnamedFirst, x), root).versions <==>
              v < 3 && Present(ThreeVersions(unnamedFirst, x)[v], map[x := x], root)
    {
      if v < 3 {
        PresentInVersion(unnamedFirst, x, root, v);
      }
    }
  }

  lemma MarksAreCounted(assertions: seq<Assertion>, unnamedFirst: bool, x: string, hash: string -> string)
    requires x != ""
    ensures MarksCounted(ThreeVersionStats(unnamedFirst, x), TwoChanges(assertions, unnamedFirst, x, hash), 2,
      map[x := x])
  {
    var facts := TwoChanges(assertions, unnamedFirst, x, hash);
    forall root, m, i: nat
      ensures (m, i) in StatsAt(ThreeVersionStats(unnamedFirst, x), root).marked <==>
              i < 2 && MarkedIn(facts[i], map[x := x], root, m)
    {
      if i < 2 {
        MarkedInChange(facts[i], x, root, m);
      }
    }
  }

  lemma MarkedInChange(facts: seq<Fact>, x: string, root: string, m: Mark)
    requires x != "" && |facts| == 1 && facts[0].content == InterfaceChanged && facts[0].continuity == Same
    requires !facts[0].dependenciesChanged && facts[0].confidence != Ambiguous && ClassId(facts[0]) == x
    ensures MarkedIn(facts, map[x := x], root, m) <==> root == x && (m == ContentMark || m == InterfaceMark)
  {
    assert facts[0] in facts && Root(map[x := x], x) == x;
  }

  lemma TwoMarksOneOpportunity(unnamedFirst: bool, x: string)
    requires x != ""
    ensures RateOf(ThreeVersionStats(unnamedFirst, x), x, InterfaceMark) == Some(2.0)
  {
    var item := StatsAt(ThreeVersionStats(unnamedFirst, x), x);
    forall i: nat
      ensures i in Marked(item, InterfaceMark) <==> i == 0 || i == 1
    {
      assert i in Marked(item, InterfaceMark) <==> (InterfaceMark, i) in item.marked;
    }
    assert Marked(item, InterfaceMark) == {0, 1};
    var v := if unnamedFirst then 1 else 0;
    assert Consecutive(item.versions, v);
    assert Observable(item.versions) == {v};
  }

  /** A review that gives an element without an id the id `x`, or takes it away, lets a rate reach two. */
  lemma OneSidedBreaksRate(assertions: seq<Assertion>, hash: string -> string, x: string)
    requires x != "" && (Asserted(assertions, "", x) || Asserted(assertions, x, ""))
    ensures var unnamedFirst := Asserted(assertions, "", x);
      var stats := ThreeVersionStats(unnamedFirst, x);
      && Reported(stats, ThreeVersions(unnamedFirst, x), TwoChanges(assertions, unnamedFirst, x, hash),
                  assertions, hash, map[x := x])
      && RateOf(stats, x, InterfaceMark) == Some(2.0)
  {
    hide Traced, Represents, VersionsCounted, MarksCounted, RateOf;
    var unnamedFirst := Asserted(assertions, "", x);
    TwoChangesTraced(assertions, unnamedFirst, x, hash);
    OnlySelfLinked(assertions, unnamedFirst, x, hash);
    VersionsAreCounted(unnamedFirst, x);
    MarksAreCounted(assertions, unnamedFirst, x, hash);
    TwoMarksOneOpportunity(unnamedFirst, x);
  }

  // A function without an identity changes twice and goes; one with an identity comes in its file and changes once.

  function OneVersion(id: string, interface: string): Bundle {
    Bundle("r", "c", true, [Version(id, interface)])
  }

  function InterruptedVersions(x: string): seq<Bundle> {
    [OneVersion("", "i0"), OneVersion("", "i1"), OneVersion("", "i0"), Bundle("r", "c", true, []), OneVersion(x, "i0"),
     OneVersion(x, "i1")]
  }

  function GoneFact(id: string, hash: string -> string): Fact {
    Fact("history-" + hash(id), id, "", Some("f.cpp"), None, DeletedOrUnresolved, Unverified, false, Ambiguous)
  }

  function InterruptedFacts(assertions: seq<Assertion>, x: string, hash: string -> string): seq<seq<Fact>> {
    [[ChangeIn(assertions, "", "", hash)], [ChangeIn(assertions, "", "", hash)], [GoneFact("", hash)],
     [AddedFact(Version(x, "i0"), hash)], [ChangeIn(assertions, x, x, hash)]]
  }

  lemma LoneGone(assertions: seq<Assertion>, before: Bundle, after: Bundle, hash: string -> string)
    requires |before.elements| == 1 && after.elements == []
    requires before.elements[0] == Version(before.elements[0].id, before.elements[0].interface)
    ensures IsTrace([GoneFact(before.elements[0].id, hash)], before, after, assertions, hash)
  {
    var b, accepted, rejected := before.elements, AcceptedBy(assertions), RejectedBy(assertions);
    var o := Decide(b[0], [], accepted, rejected, {});
    assert o == Outcome(b[0], None, []);
    assert b[1..] == [] && Scan(b, [], accepted, rejected, {}) == [o];
    assert AddedFacts([], UsedBy([o]), 0, hash) == [];
    assert FactsOf([o], [], hash) == [GoneFact(b[0].id, hash)];
  }

  lemma LoneAdded(assertions: seq<Assertion>, before: Bundle, after: Bundle, hash: string -> string)
    requires before.elements == [] && |after.elements| == 1
    ensures IsTrace([AddedFact(after.elements[0], hash)], before, after, assertions, hash)
  {
    var a := after.elements;
    assert Scan([], a, AcceptedBy(assertions), RejectedBy(assertions), {}) == [];
    assert AddedFacts(a, {}, 0, hash) == [AddedFact(a[0], hash)] + AddedFacts(a, {}, 1, hash);
    assert UsedBy([]) == {} && FactsOf([], a, hash) == [AddedFact(a[0], hash)];
  }

  lemma InterruptedTraced(assertions: seq<Assertion>, x: string, hash: string -> string)
    ensures Traced(InterruptedVersions(x), InterruptedFacts(assertions, x, hash), assertions, hash)
  {
    hide IsTrace, ChangeIn;
    var bundles := InterruptedVersions(x);
    SingleChange(assertions, bundles[0], bundles[1], hash);
    SingleChange(assertions, bundles[1], bundles[2], hash);
    LoneGone(assertions, bundles[2], bundles[3], hash);
    LoneAdded(assertions, bundles[3], bundles[4], hash);
    SingleChange(assertions, bundles[4], bundles[5], hash);
  }

  lemma FileOfOne(f: Fact, path: string)
    ensures FileObserved([f], path) <==> path in PathsOf(f) && IsLink(f)
    ensures FileChanged([f], path) <==> path in PathsOf(f) && ChangesFile(f)
  {
    assert f in [f];
  }

  function InterruptedFiles(): map<string, FileStats> {
    map["f.cpp" := FileStats({4}, {0, 1, 4}, {}, {})]
  }

  lemma InterruptedCounted(assertions: seq<Assertion>, x: string, hash: string -> string)
    requires x != ""
    ensures CountsFiles(InterruptedFiles(), InterruptedFacts(assertions, x, hash))
  {
    hide FileObserved, FileChanged;
    var transitions := InterruptedFacts(assertions, x, hash);
    forall path, i: nat
      ensures i in FileAt(InterruptedFiles(), path).observed <==> i < 5 && FileObserved(transitions[i], path)
      ensures i in FileAt(InterruptedFiles(), path).changed <==> i < 5 && FileChanged(transitions[i], path)
    {
      if i < 5 {
        FileOfOne(transitions[i][0], path);
        assert transitions[i] == [transitions[i][0]];
      }
    }
  }

  /** All ids of a history are among some. */
  ghost predicate IdsAmong(bundles: seq<Bundle>, ids: set<string>) {
    forall b <- bundles, e <- b.elements :: e.id in ids
  }

  ghost predicate FileReported(files: map<string, FileStats>, bundles: seq<Bundle>, transitions: seq<seq<Fact>>,
                               ids: set<string>, assertions: seq<Assertion>, hash: string -> string)
  {
    IdsAmong(bundles, ids) && Traced(bundles, transitions, assertions, hash) && CountsFiles(files, transitions)
  }

  function FileRate(files: map<string, FileStats>, path: string): Option<real> {
    Rate(|FileAt(files, path).changed|, |FileAt(files, path).observed|)
  }

  /** Every change rate of a file is at most one in the histories of elements with these ids. */
  ghost predicate FileRatesBounded(ids: set<string>, assertions: seq<Assertion>, hash: string -> string) {
    forall files, bundles, transitions, path | FileReported(files, bundles, transitions, ids, assertions, hash) ::
      AtMostOne(FileRate(files, path))
  }

  /** An unnamed element and a named one in a file let its rate reach three, whatever the reviews. */
  lemma UnnamedBreaksFileRate(assertions: seq<Assertion>, hash: string -> string, x: string)
    requires x != ""
    ensures FileReported(InterruptedFiles(), InterruptedVersions(x), InterruptedFacts(assertions, x, hash), {"", x},
                         assertions, hash)
    ensures FileRate(InterruptedFiles(), "f.cpp") == Some(3.0)
  {
    hide Traced, CountsFiles;
    InterruptedTraced(assertions, x, hash);
    InterruptedCounted(assertions, x, hash);
  }

  /** Without any name no fact links two elements, so no file is observed. */
  lemma NothingObserved(files: map<string, FileStats>, bundles: seq<Bundle>, transitions: seq<seq<Fact>>,
                        ids: set<string>, assertions: seq<Assertion>, hash: string -> string, path: string)
    requires FileReported(files, bundles, transitions, ids, assertions, hash) && ids <= {""}
    ensures FileAt(files, path).observed == {}
  {
    hide Traced, PathsOf;
    forall i: nat
      ensures i !in FileAt(files, path).observed
    {
      FileIsCounted(files, transitions, path, i);
      if i < |transitions| {
        forall f | f in transitions[i]
          ensures !IsLink(f)
        {
          if IsLink(f) {
            FactIdsAmong(bundles, transitions, ids, assertions, hash, i, f);
          }
        }
      }
    }
  }

  lemma FactIdsAmong(bundles: seq<Bundle>, transitions: seq<seq<Fact>>, ids: set<string>, assertions: seq<Assertion>,
                     hash: string -> string, i: nat, f: Fact)
    requires IdsAmong(bundles, ids) && Traced(bundles, transitions, assertions, hash)
    requires i < |transitions| && f in transitions[i] && IsLink(f)
    ensures f.before in ids
  {
    var b, a := bundles[i].elements, bundles[i + 1].elements;
    assert IsTrace(transitions[i], bundles[i], bundles[i + 1], assertions, hash) && f in multiset(transitions[i]);
    FactBefore(b, a, AcceptedBy(assertions), RejectedBy(assertions), hash, f);
    var j :| 0 <= j < |b| && b[j].id == f.before;
    assert bundles[i] in bundles && b[j] in b;
  }

  /** The file rates are bounded in all histories over some ids exactly when these have no unnamed element next to a
      named one. */
  lemma FileRatesBoundedExactly(ids: set<string>, assertions: seq<Assertion>, hash: string -> string)
    ensures FileRatesBounded(ids, assertions, hash) <==> "" !in ids || ids <= {""}
  {
    hide Traced, CountsFiles;
    if "" !in ids || ids <= {""} {
      forall files, bundles, transitions, path | FileReported(files, bundles, transitions, ids, assertions, hash)
        ensures AtMostOne(FileRate(files, path))
      {
        if "" !in ids {
          FileRatesAtMostOne(files, bundles, transitions, assertions, hash, path);
        } else {
          NothingObserved(files, bundles, transitions, ids, assertions, hash, path);
        }
      }
    } else {
      var x :| x in ids && x != "";
      UnnamedBreaksFileRate(assertions, hash, x);
      var bundles, facts := InterruptedVersions(x), InterruptedFacts(assertions, x, hash);
      assert FileReported(InterruptedFiles(), bundles, facts, ids, assertions, hash);
      assert !AtMostOne(FileRate(InterruptedFiles(), "f.cpp"));
    }
  }

  // ---------------------------------------------------------------- the loops

  ghost predicate SameRoots(left: Forest, right: Forest) {
    forall id :: RootOf(left, id) == RootOf(right, id)
  }

  method ClassOf(classes: Classes, id: string) returns (root: string)
    requires classes.Valid()
    modifies classes`parent
    ensures classes.Valid() && SameRoots(old(classes.parent), classes.parent)
    ensures root == RootOf(old(classes.parent), id)
  {
    ghost var before := classes.parent;
    root := classes.Find(id);
    forall x
      ensures RootOf(before, x) == RootOf(classes.parent, x)
    {
      assert x in classes.parent <==> x in before || x == id;
    }
  }

  /** The elements of one version. */
  method CountVersion(stats: map<string, Stats>, bundle: Bundle, version: nat, classes: Classes)
    returns (counted: map<string, Stats>)
    requires classes.Valid()
    modifies classes`parent
    ensures classes.Valid() && SameRoots(old(classes.parent), classes.parent)
    ensures forall root :: StatsAt(counted, root).marked == StatsAt(stats, root).marked
    ensures forall root, v: nat :: v in StatsAt(counted, root).versions <==>
      v in StatsAt(stats, root).versions || (v == version && Present(bundle, classes.parent, root))
  {
    ghost var parent := classes.parent;
    counted := stats;
    for k := 0 to |bundle.elements|
      invariant classes.Valid() && SameRoots(parent, classes.parent)
      invariant forall root :: StatsAt(counted, root).marked == StatsAt(stats, root).marked
      invariant forall root, v: nat :: v in StatsAt(counted, root).versions <==>
        v in StatsAt(stats, root).versions
        || (v == version && exists e <- bundle.elements[..k] :: RootOf(parent, e.id) == root)
    {
      var e := bundle.elements[k];
      var root := ClassOf(classes, e.id);
      var item := StatsAt(counted, root);
      assert bundle.elements[..k + 1] == bundle.elements[..k] + [e];
      counted := counted[root := item.(versions := item.versions + {version})];
    }
    assert bundle.elements[..|bundle.elements|] == bundle.elements;
  }

  /** The facts of one transition. */
  method CountFacts(stats: map<string, Stats>, facts: seq<Fact>, transition: nat, classes: Classes)
    returns (counted: map<string, Stats>)
    requires classes.Valid()
    modifies classes`parent
    ensures classes.Valid() && SameRoots(old(classes.parent), classes.parent)
    ensures forall root :: StatsAt(counted, root).versions == StatsAt(stats, root).versions
    ensures forall root, m, i: nat :: (m, i) in StatsAt(counted, root).marked <==>
      (m, i) in StatsAt(stats, root).marked || (i == transition && MarkedIn(facts, classes.parent, root, m))
  {
    hide MarkedIn, RootOf, SameRoots, Classes.Valid, IsMarked;
    ghost var parent := classes.parent;
    SameRootsSelf(parent);
    NoneMarked(parent);
    counted := stats;
    for k := 0 to |facts|
      invariant classes.Valid() && SameRoots(parent, classes.parent)
      invariant forall root :: StatsAt(counted, root).versions == StatsAt(stats, root).versions
      invariant forall root, m, i: nat :: (m, i) in StatsAt(counted, root).marked <==>
        (m, i) in StatsAt(stats, root).marked || (i == transition && MarkedIn(facts[..k], parent, root, m))
    {
      var f := facts[k];
      ghost var before := classes.parent;
      var root := ClassOf(classes, ClassId(f));
      SameRootsChain(parent, before, classes.parent, ClassId(f));
      var item := StatsAt(counted, root);
      MarkedGrows(facts, k, parent);
      counted := counted[root := item.(marked := item.marked + (set m | m in MarksOf(f) :: (m, transition)))];
    }
    assert facts[..|facts|] == facts;
    SameRootsMark(facts, parent, classes.parent);
  }

  lemma SameRootsSelf(parent: Forest)
    ensures SameRoots(parent, parent)
  {
  }

  lemma SameRootsChain(left: Forest, middle: Forest, right: Forest, id: string)
    requires SameRoots(left, middle) && SameRoots(middle, right)
    ensures SameRoots(left, right)
    ensures RootOf(left, id) == RootOf(middle, id)
  {
  }

  lemma SameRootsMark(facts: seq<Fact>, left: Forest, right: Forest)
    requires SameRoots(left, right)
    ensures forall root, m :: MarkedIn(facts, left, root, m) == MarkedIn(facts, right, root, m)
  {
  }

  lemma NoneMarked(parent: Forest)
    ensures forall root, m :: !MarkedIn([], parent, root, m)
  {
  }

  lemma MarkedGrows(facts: seq<Fact>, k: nat, parent: Forest)
    requires k < |facts|
    ensures forall root, m :: MarkedIn(facts[..k + 1], parent, root, m) <==>
      MarkedIn(facts[..k], parent, root, m) || (RootOf(parent, ClassId(facts[k])) == root && IsMarked(facts[k], m))
  {
    hide IsMarked, RootOf;
    var more := facts[..k + 1];
    assert more == facts[..k] + [facts[k]];
    forall root, m
      ensures MarkedIn(more, parent, root, m) <==>
        MarkedIn(facts[..k], parent, root, m) || (RootOf(parent, ClassId(facts[k])) == root && IsMarked(facts[k], m))
    {
      if RootOf(parent, ClassId(facts[k])) == root && IsMarked(facts[k], m) {
        assert facts[k] in more;
      }
    }
  }

  method CountElements(bundles: seq<Bundle>, transitions: seq<seq<Fact>>, classes: Classes)
    returns (stats: map<string, Stats>)
    requires classes.Valid()
    modifies classes`parent
    ensures classes.Valid() && SameRoots(old(classes.parent), classes.parent)
    ensures CountsElements(stats, bundles, transitions, classes.parent)
  {
    ghost var parent := classes.parent;
    stats := map[];
    assert forall root :: StatsAt(stats, root) == Stats({}, {});
    for v := 0 to |bundles|
      invariant classes.Valid() && SameRoots(parent, classes.parent)
      invariant VersionsCounted(stats, bundles, v, parent) && MarksCounted(stats, [], 0, parent)
    {
      stats := CountVersion(stats, bundles[v], v, classes);
      assert forall root :: Present(bundles[v], classes.parent, root) == Present(bundles[v], parent, root);
    }
    for i := 0 to |transitions|
      invariant classes.Valid() && SameRoots(parent, classes.parent)
      invariant VersionsCounted(stats, bundles, |bundles|, parent) && MarksCounted(stats, transitions, i, parent)
    {
      stats := CountFacts(stats, transitions[i], i, classes);
      assert forall root, m ::
        MarkedIn(transitions[i], classes.parent, root, m) == MarkedIn(transitions[i], parent, root, m);
    }
    SameRootsCount(stats, bundles, transitions, parent, classes.parent);
  }

  lemma SameRootsCount(stats: map<string, Stats>, bundles: seq<Bundle>, transitions: seq<seq<Fact>>, left: Forest,
                       right: Forest)
    requires SameRoots(left, right) && CountsElements(stats, bundles, transitions, left)
    ensures CountsElements(stats, bundles, transitions, right)
  {
    assert forall b: Bundle, root :: Present(b, left, root) == Present(b, right, root);
    assert forall fs: seq<Fact>, root, m :: MarkedIn(fs, left, root, m) == MarkedIn(fs, right, root, m);
  }

  /** A file after one fact, which may or may not touch it. */
  function FileAfter(file: FileStats, f: Fact, transition: nat, root: string, touched: bool): FileStats {
    if !touched then file
    else FileStats(file.observed + (if IsLink(f) then {transition} else {}),
                   file.changed + (if ChangesFile(f) then {transition} else {}),
                   file.elements + {root},
                   file.changedElements + (if VerifiedChange(f) || f.dependenciesChanged then {root} else {}))
  }

  /** One fact, for each of its paths. */
  method CountFileFact(files: map<string, FileStats>, f: Fact, transition: nat, root: string)
    returns (counted: map<string, FileStats>)
    ensures forall path ::
      FileAt(counted, path) == FileAfter(FileAt(files, path), f, transition, root, path in PathsOf(f))
  {
    hide PathsOf, VerifiedChange, ChangesFile;
    counted := files;
    var rest := PathsOf(f);
    while rest != {}
      invariant rest <= PathsOf(f)
      invariant forall path ::
        FileAt(counted, path)
        == FileAfter(FileAt(files, path), f, transition, root, path in PathsOf(f) && path !in rest)
    {
      var path :| path in rest;
      var file := FileAt(counted, path);
      file := file.(elements := file.elements + {root});
      if f.before != "" && f.after != "" {
        file := file.(observed := file.observed + {transition});
      }
      if VerifiedChange(f) || f.dependenciesChanged {
        file := file.(changedElements := file.changedElements + {root});
      }
      if ChangesFile(f) {
        file := file.(changed := file.changed + {transition});
      }
      assert file == FileAfter(FileAt(files, path), f, transition, root, true);
      counted := counted[path := file];
      rest := rest - {path};
    }
  }

  lemma NoFileTouched()
    ensures forall path :: !FileObserved([], path) && !FileChanged([], path)
  {
  }

  lemma FilesGrow(facts: seq<Fact>, k: nat)
    requires k < |facts|
    ensures forall path :: FileObserved(facts[..k + 1], path) <==>
      FileObserved(facts[..k], path) || (path in PathsOf(facts[k]) && IsLink(facts[k]))
    ensures forall path :: FileChanged(facts[..k + 1], path) <==>
      FileChanged(facts[..k], path) || (path in PathsOf(facts[k]) && ChangesFile(facts[k]))
  {
    assert facts[..k + 1] == facts[..k] + [facts[k]];
  }

  /** The element classes of a file grow by those of some facts, and the changed ones by those of their changes. */
  ghost predicate FileElementsGrow(files: map<string, FileStats>, counted: map<string, FileStats>, facts: seq<Fact>,
                                   parent: Forest)
  {
    && (forall path, root :: root in FileAt(counted, path).elements <==>
          root in FileAt(files, path).elements || FileHolds(facts, parent, path, root))
    && (forall path, root :: root in FileAt(counted, path).changedElements <==>
          root in FileAt(files, path).changedElements || FileHoldsChanged(facts, parent, path, root))
  }

  lemma NoElements(files: map<string, FileStats>, parent: Forest)
    ensures FileElementsGrow(files, files, [], parent)
  {
  }

  lemma ElementsGrow(files: map<string, FileStats>, before: map<string, FileStats>, counted: map<string, FileStats>,
                     facts: seq<Fact>, k: nat, transition: nat, parent: Forest)
    requires k < |facts| && FileElementsGrow(files, before, facts[..k], parent)
    requires forall path ::
      FileAt(counted, path) == FileAfter(FileAt(before, path), facts[k], transition,
                                         RootOf(parent, ClassId(facts[k])), path in PathsOf(facts[k]))
    ensures FileElementsGrow(files, counted, facts[..k + 1], parent)
  {
    hide PathsOf, VerifiedChange, RootOf, ClassId, FileHolds, FileHoldsChanged;
    forall path, root
      ensures root in FileAt(counted, path).elements <==>
        root in FileAt(files, path).elements || FileHolds(facts[..k + 1], parent, path, root)
      ensures root in FileAt(counted, path).changedElements <==>
        root in FileAt(files, path).changedElements || FileHoldsChanged(facts[..k + 1], parent, path, root)
    {
      HoldsGrow(facts, k, parent, path, root);
    }
  }

  lemma HoldsGrow(facts: seq<Fact>, k: nat, parent: Forest, path: string, root: string)
    requires k < |facts|
    ensures FileHolds(facts[..k + 1], parent, path, root) <==>
      FileHolds(facts[..k], parent, path, root)
      || (path in PathsOf(facts[k]) && RootOf(parent, ClassId(facts[k])) == root)
    ensures FileHoldsChanged(facts[..k + 1], parent, path, root) <==>
      FileHoldsChanged(facts[..k], parent, path, root)
      || (path in PathsOf(facts[k]) && RootOf(parent, ClassId(facts[k])) == root
          && (VerifiedChange(facts[k]) || facts[k].dependenciesChanged))
  {
    hide PathsOf, VerifiedChange, RootOf, ClassId;
    assert facts[..k + 1] == facts[..k] + [facts[k]];
    assert facts[k] in facts[..k + 1];
  }

  lemma ElementsCounted(files: map<string, FileStats>, counted: map<string, FileStats>, transitions: seq<seq<Fact>>,
                        n: nat, left: Forest, right: Forest)
    requires n < |transitions| && FileElementsCounted(files, transitions, n, left) && SameRoots(left, right)
    requires FileElementsGrow(files, counted, transitions[n], right)
    ensures FileElementsCounted(counted, transitions, n + 1, left)
  {
    forall path, root
      ensures FileHolds(transitions[n], left, path, root) == FileHolds(transitions[n], right, path, root)
      ensures FileHoldsChanged(transitions[n], left, path, root) == FileHoldsChanged(transitions[n], right, path, root)
    {
    }
  }

  /** The facts of one transition, for the files. */
  method CountFileFacts(files: map<string, FileStats>, facts: seq<Fact>, transition: nat, classes: Classes)
    returns (counted: map<string, FileStats>)
    requires classes.Valid()
    modifies classes`parent
    ensures classes.Valid() && SameRoots(old(classes.parent), classes.parent)
    ensures forall path, i: nat :: i in FileAt(counted, path).observed <==>
      i in FileAt(files, path).observed || (i == transition && FileObserved(facts, path))
    ensures forall path, i: nat :: i in FileAt(counted, path).changed <==>
      i in FileAt(files, path).changed || (i == transition && FileChanged(facts, path))
    ensures FileElementsGrow(files, counted, facts, old(classes.parent))
  {
    hide FileObserved, FileChanged, PathsOf, IsLink, ChangesFile, VerifiedChange, SameRoots, Classes.Valid,
      FileElementsGrow, RootOf, ClassId;
    ghost var parent := classes.parent;
    SameRootsSelf(parent);
    NoFileTouched();
    NoElements(files, parent);
    counted := files;
    for k := 0 to |facts|
      invariant classes.Valid() && SameRoots(parent, classes.parent)
      invariant forall path, i: nat :: i in FileAt(counted, path).observed <==>
        i in FileAt(files, path).observed || (i == transition && FileObserved(facts[..k], path))
      invariant forall path, i: nat :: i in FileAt(counted, path).changed <==>
        i in FileAt(files, path).changed || (i == transition && FileChanged(facts[..k], path))
      invariant FileElementsGrow(files, counted, facts[..k], parent)
    {
      ghost var before := classes.parent;
      var root := ClassOf(classes, ClassId(facts[k]));
      SameRootsChain(parent, before, classes.parent, ClassId(facts[k]));
      FilesGrow(facts, k);
      ghost var were := counted;
      counted := CountFileFact(counted, facts[k], transition, root);
      ElementsGrow(files, were, counted, facts, k, transition, parent);
    }
    assert facts[..|facts|] == facts;
  }

  lemma NothingCounted(transitions: seq<seq<Fact>>, parent: Forest)
    ensures FileElementsCounted(map[], transitions, 0, parent)
  {
  }

  method CountFiles(transitions: seq<seq<Fact>>, classes: Classes) returns (files: map<string, FileStats>)
    requires classes.Valid()
    modifies classes`parent
    ensures classes.Valid() && SameRoots(old(classes.parent), classes.parent)
    ensures CountsFiles(files, transitions)
    ensures FileElementsCounted(files, transitions, |transitions|, old(classes.parent))
  {
    hide FileElementsGrow, FileElementsCounted;
    ghost var parent := classes.parent;
    files := map[];
    NothingCounted(transitions, parent);
    assert forall path :: FileAt(files, path) == FileStats({}, {}, {}, {});
    for i := 0 to |transitions|
      invariant classes.Valid() && SameRoots(parent, classes.parent)
      invariant FilesCounted(files, transitions, i) && FileElementsCounted(files, transitions, i, parent)
    {
      ghost var were, before := files, classes.parent;
      files := CountFileFacts(files, transitions[i], i, classes);
      ElementsCounted(were, files, transitions, i, parent, before);
    }
  }

  lemma LinksAppended(transitions: seq<seq<Fact>>, facts: seq<Fact>)
    ensures Links(transitions + [facts]) == Links(transitions) + FactLinks(facts)
  {
    var more := transitions + [facts];
    forall e | e in Links(transitions) + FactLinks(facts)
      ensures e in Links(more)
    {
      if e in FactLinks(facts) {
        var f :| f in facts && IsLink(f) && e == (f.before, f.after);
        assert f in more[|transitions|];
      } else {
        var i, f :| 0 <= i < |transitions| && f in transitions[i] && IsLink(f) && e == (f.before, f.after);
        assert f in more[i];
      }
    }
  }

  /** Traces every adjacent pair and unites what its facts link. */
  method TraceAll(bundles: seq<Bundle>, assertions: seq<Assertion>, hash: string -> string, classes: Classes)
    returns (transitions: seq<seq<Fact>>)
    requires |bundles| >= 2 && classes.Valid() && classes.edges == {}
    modifies classes
    ensures classes.Valid() && classes.edges == Links(transitions)
    ensures Traced(bundles, transitions, assertions, hash)
  {
    transitions := [];
    for i := 0 to |bundles| - 1
      invariant classes.Valid() && classes.edges == Links(transitions)
      invariant |transitions| == i && TracedSoFar(bundles, transitions, assertions, hash)
    {
      var facts, _, _ := TraceTransition(bundles[i], bundles[i + 1], assertions, hash);
      UniteLinks(facts, classes);
      LinksAppended(transitions, facts);
      assert IsTrace(facts, bundles[i], bundles[i + 1], assertions, hash);
      transitions := transitions + [facts];
    }
  }

  ghost function FactLinks(facts: seq<Fact>): set<Edge> {
    set f | f in facts && IsLink(f) :: (f.before, f.after)
  }

  method UniteLinks(facts: seq<Fact>, classes: Classes)
    requires classes.Valid()
    modifies classes
    ensures classes.Valid() && classes.edges == old(classes.edges) + FactLinks(facts)
  {
    for k := 0 to |facts|
      invariant classes.Valid() && classes.edges == old(classes.edges) + FactLinks(facts[..k])
    {
      assert facts[..k + 1] == facts[..k] + [facts[k]];
      assert FactLinks(facts[..k + 1]) ==
             FactLinks(facts[..k]) + if IsLink(facts[k]) then {(facts[k].before, facts[k].after)} else {};
      if facts[k].before != "" && facts[k].after != "" {
        classes.Unite(facts[k].before, facts[k].after);
      }
    }
    assert facts[..|facts|] == facts;
  }

  /** The whole query: traces, classes and statistics, with every rate at most one. */
  method HistoryStatistics(bundles: seq<Bundle>, assertions: seq<Assertion>, hash: string -> string)
    returns (stats: map<string, Stats>, files: map<string, FileStats>,
             ghost transitions: seq<seq<Fact>>, ghost parent: Forest)
    requires |bundles| >= 2
    ensures Reported(stats, bundles, transitions, assertions, hash, parent)
    ensures CountsFiles(files, transitions) && FileElementsCounted(files, transitions, |transitions|, parent)
    ensures NamesAgree(assertions) ==> forall root, m: Mark :: m != AmbiguousMark && m != UnresolvedMark ==>
      |Marked(StatsAt(stats, root), m)| <= |Observable(StatsAt(stats, root).versions)|
    ensures NamedElements(bundles) ==> forall path ::
      |FileAt(files, path).changed| <= |FileAt(files, path).observed|
  {
    var classes := new Classes();
    var traced := TraceAll(bundles, assertions, hash, classes);
    transitions := traced;
    stats := CountElements(bundles, traced, classes);
    parent := classes.parent;
    files := CountFiles(traced, classes);
    if NamesAgree(assertions) {
      forall root, m: Mark | m != AmbiguousMark && m != UnresolvedMark
        ensures |Marked(StatsAt(stats, root), m)| <= |Observable(StatsAt(stats, root).versions)|
      {
        MarkedIsObservable(stats, bundles, transitions, assertions, hash, parent, root, m);
        SubsetSize(Marked(StatsAt(stats, root), m), Observable(StatsAt(stats, root).versions));
      }
    }
    if NamedElements(bundles) {
      forall path
        ensures |FileAt(files, path).changed| <= |FileAt(files, path).observed|
      {
        FileRatesAtMostOne(files, bundles, transitions, assertions, hash, path);
        SubsetSize(FileAt(files, path).changed, FileAt(files, path).observed);
      }
    }
  }
}
