/** Matching the elements of two adjacent bundles into transition facts. */
module Lineage {
  import opened Options
  import opened Ordering

  datatype Element = Element(id: string, kind: string, name: string, path: string,
                             interface: string, implementation: string, dependency: string)

  datatype Bundle = Bundle(revision: string, configuration: string, complete: bool, elements: seq<Element>)

  datatype Relation = SameElement | NotSameElement | OtherRelation

  datatype Assertion = Assertion(before: string, after: string, relation: Relation, accepted: bool)

  datatype Continuity = Same | Renamed | Moved | MovedAndRenamed | DeletedOrUnresolved | AddedOrUnresolved
  {
    function Name(): string {
      match this
      case Same => "same"
      case Renamed => "renamed"
      case Moved => "moved"
      case MovedAndRenamed => "moved_and_renamed"
      case DeletedOrUnresolved => "deleted_or_unresolved"
      case AddedOrUnresolved => "added_or_unresolved"
    }
  }

  datatype Content = Unchanged | InterfaceChanged | ImplementationChanged | BothChanged | Unverified

  datatype Confidence = Exact | Reviewed | Ambiguous

  /** `before` or `after` is empty on the side that has no element. */
  datatype Fact = Fact(historyId: string, before: string, after: string, beforePath: Option<string>,
                       afterPath: Option<string>, continuity: Continuity, content: Content,
                       dependenciesChanged: bool, confidence: Confidence)

  datatype Candidate = Candidate(before: string, after: string, continuity: Continuity, ambiguous: bool)

  datatype Match = Match(index: nat, reviewed: bool)

  /** What the scan decides for one element of the before bundle. */
  datatype Outcome = Outcome(element: Element, matched: Option<Match>, candidates: seq<nat>)

  // ---------------------------------------------------------------- one pair of elements

  function ContinuityOf(before: Element, after: Element): Continuity {
    var renamed, moved := before.name != after.name, before.path != after.path;
    if renamed && moved then MovedAndRenamed else if renamed then Renamed else if moved then Moved else Same
  }

  function ContentOf(before: Element, after: Element): Content {
    var interface, implementation := before.interface != after.interface, before.implementation != after.implementation;
    if interface && implementation then BothChanged
    else if interface then InterfaceChanged
    else if implementation then ImplementationChanged
    else Unchanged
  }

  predicate SameShape(a: Element, b: Element) {
    a.kind == b.kind && a.interface == b.interface && a.implementation == b.implementation
      && a.dependency == b.dependency
  }

  predicate VerifiedChange(f: Fact) {
    !f.content.Unchanged? && !f.content.Unverified?
  }

  predicate ReportsChange(f: Fact) {
    VerifiedChange(f) || f.dependenciesChanged || f.continuity in {Renamed, Moved, MovedAndRenamed}
  }

  // ---------------------------------------------------------------- the scan

  /** The index under which a map filled by emplace keeps an identity. */
  function FirstIndex(elements: seq<Element>, id: string): (r: Option<nat>)
    ensures r.Some? ==> r.value < |elements| && elements[r.value].id == id
                        && forall j | 0 <= j < r.value :: elements[j].id != id
    ensures r.None? ==> forall j | 0 <= j < |elements| :: elements[j].id != id
  {
    if elements == [] then None
    else if elements[0].id == id then Some(0)
    else
      match FirstIndex(elements[1..], id)
      case None => None
      case Some(i) => Some(i + 1)
  }

  /** Two identities may be matched: they are equal, or a review says that they are the same element. */
  predicate Warranted(before: string, after: string, accepted: map<string, string>) {
    before == after || (before in accepted && accepted[before] == after)
  }

  function MatchOf(e: Element, after: seq<Element>, accepted: map<string, string>, used: set<nat>): (r: Option<Match>)
    ensures r.Some? ==> r.value.index < |after| && r.value.index !in used
                        && Warranted(e.id, after[r.value.index].id, accepted)
  {
    var asserted := if e.id in accepted then FirstIndex(after, accepted[e.id]) else None;
    if asserted.Some? && asserted.value !in used then Some(Match(asserted.value, true))
    else
      var same := FirstIndex(after, e.id);
      if same.Some? && same.value !in used then Some(Match(same.value, false)) else None
  }

  /** Unused elements of the same shape that no review has rejected, from index `i` on. */
  function CandidatesOf(e: Element, after: seq<Element>, rejected: set<(string, string)>, used: set<nat>,
                        i: nat): (found: seq<nat>)
    ensures forall j <- found :: j < |after|
    decreases |after| - i
  {
    if i >= |after| then []
    else if SameShape(e, after[i]) && i !in used && (e.id, after[i].id) !in rejected
      then [i] + CandidatesOf(e, after, rejected, used, i + 1)
    else CandidatesOf(e, after, rejected, used, i + 1)
  }

  function Decide(e: Element, after: seq<Element>, accepted: map<string, string>,
                  rejected: set<(string, string)>, used: set<nat>): (o: Outcome)
    ensures Within(o, |after|)
  {
    var m := MatchOf(e, after, accepted, used);
    Outcome(e, m, if m.Some? then [] else CandidatesOf(e, after, rejected, used, 0))
  }

  /** An outcome only refers to the first `n` elements of the after bundle. */
  predicate Within(o: Outcome, n: nat) {
    (o.matched.Some? ==> o.matched.value.index < n) && forall i <- o.candidates :: i < n
  }

  predicate WarrantedMatch(o: Outcome, after: seq<Element>, accepted: map<string, string>) {
    o.matched.Some? && o.matched.value.index < |after| ==>
      Warranted(o.element.id, after[o.matched.value.index].id, accepted)
  }

  predicate InRange(outcomes: seq<Outcome>, n: nat) {
    forall i | 0 <= i < |outcomes| :: Within(outcomes[i], n)
  }

  function Used(o: Outcome): set<nat> {
    if o.matched.Some? then {o.matched.value.index} else {}
  }

  function Scan(before: seq<Element>, after: seq<Element>, accepted: map<string, string>,
                rejected: set<(string, string)>, used: set<nat>): (outcomes: seq<Outcome>)
    ensures |outcomes| == |before| && InRange(outcomes, |after|)
    ensures forall i | 0 <= i < |outcomes| :: WarrantedMatch(outcomes[i], after, accepted)
  {
    if before == [] then []
    else
      var o := Decide(before[0], after, accepted, rejected, used);
      [o] + Scan(before[1..], after, accepted, rejected, used + Used(o))
  }

  function UsedBy(outcomes: seq<Outcome>): set<nat> {
    set o, i | o in outcomes && i in Used(o) :: i
  }

  // ---------------------------------------------------------------- facts

  function FactOf(o: Outcome, after: seq<Element>, hash: string -> string): Fact
    requires Within(o, |after|)
  {
    var e, historyId := o.element, "history-" + hash(o.element.id);
    match o.matched
    case None =>
      Fact(historyId, e.id, "", Some(e.path), None, DeletedOrUnresolved, Unverified, false, Ambiguous)
    case Some(m) =>
      var next := after[m.index];
      Fact(historyId, e.id, next.id, Some(e.path), Some(next.path), ContinuityOf(e, next), ContentOf(e, next),
           e.dependency != next.dependency, if m.reviewed then Reviewed else Exact)
  }

  function AddedFact(e: Element, hash: string -> string): Fact {
    Fact("history-" + hash(e.id), "", e.id, None, Some(e.path), AddedOrUnresolved, Unverified, false, Ambiguous)
  }

  function MatchedFacts(outcomes: seq<Outcome>, after: seq<Element>, hash: string -> string): seq<Fact>
    requires InRange(outcomes, |after|)
  {
    seq(|outcomes|, i requires 0 <= i < |outcomes| => FactOf(outcomes[i], after, hash))
  }

  function AddedFacts(after: seq<Element>, used: set<nat>, i: nat, hash: string -> string): seq<Fact>
    decreases |after| - i
  {
    if i >= |after| then []
    else (if i in used then [] else [AddedFact(after[i], hash)]) + AddedFacts(after, used, i + 1, hash)
  }

  function FactsOf(outcomes: seq<Outcome>, after: seq<Element>, hash: string -> string): seq<Fact>
    requires InRange(outcomes, |after|)
  {
    MatchedFacts(outcomes, after, hash) + AddedFacts(after, UsedBy(outcomes), 0, hash)
  }

  // ---------------------------------------------------------------- what the scan keeps

  predicate Injective(outcomes: seq<Outcome>) {
    forall i, j | 0 <= i < j < |outcomes| && outcomes[i].matched.Some? && outcomes[j].matched.Some? ::
      outcomes[i].matched.value.index != outcomes[j].matched.value.index
  }

  /** No element of the after bundle is matched twice. */
  lemma {:induction false} ScanIsInjective(before: seq<Element>, after: seq<Element>, accepted: map<string, string>,
                                           rejected: set<(string, string)>, used: set<nat>)
    ensures var outcomes := Scan(before, after, accepted, rejected, used);
      && Injective(outcomes) && UsedBy(outcomes) !! used
      && forall i | 0 <= i < |before| :: outcomes[i].element == before[i]
  {
    if before != [] {
      var o := Decide(before[0], after, accepted, rejected, used);
      var rest := Scan(before[1..], after, accepted, rejected, used + Used(o));
      ScanIsInjective(before[1..], after, accepted, rejected, used + Used(o));
      forall j | 0 <= j < |rest| && rest[j].matched.Some?
        ensures rest[j].matched.value.index !in used + Used(o)
      {
        assert rest[j].matched.value.index in Used(rest[j]);
        assert rest[j].matched.value.index in UsedBy(rest);
      }
    }
  }

  // ---------------------------------------------------------------- conservation

  /** How many of some things carry a name. */
  function Count<T>(xs: seq<T>, name: T -> string, id: string): nat {
    if xs == [] then 0 else (if name(xs[0]) == id then 1 else 0) + Count(xs[1..], name, id)
  }

  function Befores(facts: seq<Fact>, id: string): nat {
    Count(facts, (f: Fact) => f.before, id)
  }

  function Afters(facts: seq<Fact>, id: string): nat {
    Count(facts, (f: Fact) => f.after, id)
  }

  function Occurrences(elements: seq<Element>, id: string): nat {
    Count(elements, (e: Element) => e.id, id)
  }

  lemma {:induction false} CountConcat<T>(xs: seq<T>, ys: seq<T>, name: T -> string, id: string)
    ensures Count(xs + ys, name, id) == Count(xs, name, id) + Count(ys, name, id)
  {
    if xs == [] {
      assert xs + ys == ys;
    } else {
      assert (xs + ys)[1..] == xs[1..] + ys;
      CountConcat(xs[1..], ys, name, id);
    }
  }

  lemma {:induction false} CountAgrees<T, U>(xs: seq<T>, ys: seq<U>, left: T -> string, right: U -> string, id: string)
    requires |xs| == |ys| && forall i | 0 <= i < |xs| :: left(xs[i]) == right(ys[i])
    ensures Count(xs, left, id) == Count(ys, right, id)
  {
    if xs != [] {
      assert left(xs[0]) == right(ys[0]);
      forall i | 0 <= i < |xs[1..]|
        ensures left(xs[1..][i]) == right(ys[1..][i])
      {
        assert left(xs[i + 1]) == right(ys[i + 1]);
      }
      CountAgrees(xs[1..], ys[1..], left, right, id);
    }
  }

  /** Order does not matter to a count, so sorting keeps it. */
  lemma {:induction false} CountPermuted<T>(xs: seq<T>, ys: seq<T>, name: T -> string, id: string)
    requires multiset(xs) == multiset(ys)
    ensures Count(xs, name, id) == Count(ys, name, id)
  {
    if xs == [] {
      assert |multiset(xs)| == 0 && |multiset(ys)| == |ys|;
    } else {
      assert xs[0] in multiset(xs);
      var k :| 0 <= k < |ys| && ys[k] == xs[0];
      RemoveOne(xs, ys, k);
      CountPermuted(xs[1..], ys[..k] + ys[k + 1..], name, id);
      CountConcat(ys[..k], ys[k + 1..], name, id);
      CountConcat(ys[..k], ys[k..], name, id);
      assert ys == ys[..k] + ys[k..];
    }
  }

  lemma RemoveOne<T>(xs: seq<T>, ys: seq<T>, k: nat)
    requires xs != [] && k < |ys| && ys[k] == xs[0] && multiset(xs) == multiset(ys)
    ensures multiset(xs[1..]) == multiset(ys[..k] + ys[k + 1..])
  {
    assert xs == [xs[0]] + xs[1..];
    assert ys == ys[..k] + [ys[k]] + ys[k + 1..];
    assert multiset(ys[..k] + ys[k + 1..]) == multiset(ys) - multiset{xs[0]};
    assert multiset(xs[1..]) == multiset(xs) - multiset{xs[0]};
  }

  lemma {:induction false} AddedHaveNoBefore(after: seq<Element>, used: set<nat>, i: nat, hash: string -> string,
                                             id: string)
    requires id != ""
    ensures Befores(AddedFacts(after, used, i, hash), id) == 0
    decreases |after| - i
  {
    if i < |after| {
      AddedHaveNoBefore(after, used, i + 1, hash, id);
      var first := if i in used then [] else [AddedFact(after[i], hash)];
      CountConcat(first, AddedFacts(after, used, i + 1, hash), (f: Fact) => f.before, id);
    }
  }

  lemma {:induction false} AllAdded(after: seq<Element>, i: nat, hash: string -> string, id: string)
    requires i <= |after|
    ensures Afters(AddedFacts(after, {}, i, hash), id) == Occurrences(after[i..], id)
    ensures |AddedFacts(after, {}, i, hash)| == |after| - i
    decreases |after| - i
  {
    if i < |after| {
      AllAdded(after, i + 1, hash, id);
      CountConcat([AddedFact(after[i], hash)], AddedFacts(after, {}, i + 1, hash), (f: Fact) => f.after, id);
      assert after[i..][1..] == after[i + 1..];
    }
  }

  /** Using an element takes exactly its own fact out of the added ones. */
  lemma {:induction false} AddedWithout(after: seq<Element>, used: set<nat>, j: nat, i: nat, hash: string -> string,
                                        id: string)
    requires j !in used && j < |after|
    ensures var (more, fewer) := (AddedFacts(after, used, i, hash), AddedFacts(after, used + {j}, i, hash));
      if i <= j then Afters(more, id) == (if after[j].id == id then 1 else 0) + Afters(fewer, id)
        && |more| == |fewer| + 1
      else more == fewer
    decreases |after| - i
  {
    if i < |after| {
      AddedWithout(after, used, j, i + 1, hash, id);
      if i <= j {
        var first := if i in used then [] else [AddedFact(after[i], hash)];
        var first' := if i in used + {j} then [] else [AddedFact(after[i], hash)];
        CountConcat(first, AddedFacts(after, used, i + 1, hash), (f: Fact) => f.after, id);
        CountConcat(first', AddedFacts(after, used + {j}, i + 1, hash), (f: Fact) => f.after, id);
      }
    }
  }

  function MatchedCount(outcomes: seq<Outcome>): nat {
    if outcomes == [] then 0 else (if outcomes[0].matched.Some? then 1 else 0) + MatchedCount(outcomes[1..])
  }

  lemma UsedBySplits(outcomes: seq<Outcome>)
    requires outcomes != [] && Injective(outcomes)
    ensures UsedBy(outcomes) == Used(outcomes[0]) + UsedBy(outcomes[1..])
    ensures Used(outcomes[0]) !! UsedBy(outcomes[1..]) && Injective(outcomes[1..])
  {
    forall i | i in UsedBy(outcomes[1..])
      ensures i !in Used(outcomes[0])
    {
      var r :| r in outcomes[1..] && i in Used(r);
      var j :| 0 <= j < |outcomes[1..]| && outcomes[1..][j] == r;
      assert outcomes[j + 1] == r;
    }
  }

  lemma {:induction false} AfterConserved(outcomes: seq<Outcome>, after: seq<Element>, used: set<nat>,
                                          hash: string -> string, id: string)
    requires InRange(outcomes, |after|) && Injective(outcomes) && UsedBy(outcomes) !! used && id != ""
    ensures var (left, all) := (AddedFacts(after, used + UsedBy(outcomes), 0, hash), AddedFacts(after, used, 0, hash));
      && Afters(MatchedFacts(outcomes, after, hash), id) + Afters(left, id) == Afters(all, id)
      && |left| + MatchedCount(outcomes) == |all|
  {
    if outcomes == [] {
      assert used + UsedBy(outcomes) == used;
    } else {
      var o, rest := outcomes[0], outcomes[1..];
      UsedBySplits(outcomes);
      assert used + UsedBy(outcomes) == (used + Used(o)) + UsedBy(rest);
      AfterConserved(rest, after, used + Used(o), hash, id);
      assert MatchedFacts(outcomes, after, hash) == [FactOf(o, after, hash)] + MatchedFacts(rest, after, hash);
      CountConcat([FactOf(o, after, hash)], MatchedFacts(rest, after, hash), (f: Fact) => f.after, id);
      if o.matched.Some? {
        AddedWithout(after, used, o.matched.value.index, 0, hash, id);
      } else {
        assert used + Used(o) == used;
      }
    }
  }

  /** The facts of a transition, in any order, account for every element of both bundles once. */
  lemma FactsConserveElements(before: seq<Element>, after: seq<Element>, accepted: map<string, string>,
                              rejected: set<(string, string)>, hash: string -> string, facts: seq<Fact>, id: string)
    requires id != ""
    requires multiset(facts) == multiset(FactsOf(Scan(before, after, accepted, rejected, {}), after, hash))
    ensures Befores(facts, id) == Occurrences(before, id)
    ensures Afters(facts, id) == Occurrences(after, id)
    ensures |facts| + MatchedCount(Scan(before, after, accepted, rejected, {})) == |before| + |after|
  {
    hide Scan, UsedBy, AddedFacts, Count;
    var outcomes := Scan(before, after, accepted, rejected, {});
    ScanIsInjective(before, after, accepted, rejected, {});
    var matched, added := MatchedFacts(outcomes, after, hash), AddedFacts(after, UsedBy(outcomes), 0, hash);
    assert |facts| == |multiset(facts)| == |matched + added|;
    CountPermuted(facts, matched + added, (f: Fact) => f.before, id);
    CountPermuted(facts, matched + added, (f: Fact) => f.after, id);
    CountConcat(matched, added, (f: Fact) => f.before, id);
    CountConcat(matched, added, (f: Fact) => f.after, id);
    AddedHaveNoBefore(after, UsedBy(outcomes), 0, hash, id);
    CountAgrees(matched, before, (f: Fact) => f.before, (e: Element) => e.id, id);
    AfterConserved(outcomes, after, {}, hash, id);
    AllAdded(after, 0, hash, id);
    assert {} + UsedBy(outcomes) == UsedBy(outcomes) && after[0..] == after;
  }

  /** A two-sided fact starts from an element of the before bundle. */
  lemma FactBefore(before: seq<Element>, after: seq<Element>, accepted: map<string, string>,
                   rejected: set<(string, string)>, hash: string -> string, f: Fact)
    requires f in FactsOf(Scan(before, after, accepted, rejected, {}), after, hash) && f.before != ""
    ensures exists j :: 0 <= j < |before| && before[j].id == f.before
  {
    var outcomes := Scan(before, after, accepted, rejected, {});
    ScanIsInjective(before, after, accepted, rejected, {});
    var facts := MatchedFacts(outcomes, after, hash);
    if f in facts {
      var j :| 0 <= j < |facts| && facts[j] == f;
      assert outcomes[j].element == before[j];
    } else {
      AddedAreOneSided(after, UsedBy(outcomes), 0, hash, f);
    }
  }

  lemma {:induction false} AddedAreOneSided(after: seq<Element>, used: set<nat>, i: nat, hash: string -> string,
                                            f: Fact)
    requires f in AddedFacts(after, used, i, hash)
    ensures f.before == ""
    decreases |after| - i
  {
    if i < |after| && f in AddedFacts(after, used, i + 1, hash) {
      AddedAreOneSided(after, used, i + 1, hash, f);
    }
  }

  /** A verified content change or a dependency change is only ever reported for a matched pair,
      with what the pair's fingerprints say, and the pair has one id or was reviewed. */
  lemma OnlyMatchedFactsVerify(before: seq<Element>, after: seq<Element>, accepted: map<string, string>,
                               rejected: set<(string, string)>, hash: string -> string, f: Fact)
    requires f in FactsOf(Scan(before, after, accepted, rejected, {}), after, hash)
    ensures ReportsChange(f) ==> ReportsPair(f, before, after) && Warranted(f.before, f.after, accepted)
  {
    var outcomes := Scan(before, after, accepted, rejected, {});
    ScanIsInjective(before, after, accepted, rejected, {});
    if f in MatchedFacts(outcomes, after, hash) {
      var i :| 0 <= i < |outcomes| && f == FactOf(outcomes[i], after, hash);
      MatchedFactIsPair(outcomes[i], before, after, accepted, i, hash);
    } else {
      AddedAreUnverified(after, UsedBy(outcomes), 0, hash, f);
    }
  }

  lemma MatchedFactIsPair(o: Outcome, before: seq<Element>, after: seq<Element>, accepted: map<string, string>,
                          i: nat, hash: string -> string)
    requires i < |before| && o.element == before[i] && Within(o, |after|) && WarrantedMatch(o, after, accepted)
    ensures var f := FactOf(o, after, hash);
      ReportsChange(f) ==> ReportsPair(f, before, after) && Warranted(f.before, f.after, accepted)
  {
    if o.matched.Some? {
      assert IsPairOf(FactOf(o, after, hash), before, after, i, o.matched.value.index);
    }
  }

  /** `f` reports the elements `before[i]` and `after[j]` as one. */
  predicate IsPairOf(f: Fact, before: seq<Element>, after: seq<Element>, i: int, j: int) {
    && 0 <= i < |before| && 0 <= j < |after|
    && f.before == before[i].id && f.after == after[j].id
    && f.content == ContentOf(before[i], after[j]) && f.continuity == ContinuityOf(before[i], after[j])
    && (f.dependenciesChanged <==> before[i].dependency != after[j].dependency)
    && f.beforePath == Some(before[i].path) && f.afterPath == Some(after[j].path)
  }

  ghost predicate ReportsPair(f: Fact, before: seq<Element>, after: seq<Element>) {
    exists i, j :: IsPairOf(f, before, after, i, j)
  }

  lemma {:induction false} AddedAreUnverified(after: seq<Element>, used: set<nat>, i: nat, hash: string -> string,
                                              f: Fact)
    requires f in AddedFacts(after, used, i, hash)
    ensures exists j :: 0 <= j < |after| && f == AddedFact(after[j], hash)
    decreases |after| - i
  {
    if i < |after| && f !in (if i in used then [] else [AddedFact(after[i], hash)]) {
      AddedAreUnverified(after, used, i + 1, hash, f);
    }
  }

  // ---------------------------------------------------------------- sorting

  predicate KeyBefore(a: Fact, b: Fact) {
    Less(a.historyId, b.historyId) || (a.historyId == b.historyId && Less(a.continuity.Name(), b.continuity.Name()))
  }

  lemma KeyOrder(a: Fact, b: Fact, c: Fact)
    ensures !KeyBefore(b, a) && !KeyBefore(c, b) ==> !KeyBefore(c, a)
    ensures KeyBefore(a, b) ==> !KeyBefore(b, a)
  {
    LessTotal(a.historyId, b.historyId);
    LessTotal(b.historyId, c.historyId);
    LessTotal(a.continuity.Name(), b.continuity.Name());
    LessTotal(b.continuity.Name(), c.continuity.Name());
    LessIrreflexive(a.historyId);
    LessIrreflexive(a.continuity.Name());
    LessChains(a.historyId, b.historyId, c.historyId);
    LessChains(a.continuity.Name(), b.continuity.Name(), c.continuity.Name());
  }

  lemma LessChains(a: string, b: string, c: string)
    ensures Less(a, b) && Less(b, c) ==> Less(a, c)
    ensures Less(a, b) && Less(c, a) ==> Less(c, b)
    ensures Less(c, a) && Less(b, c) ==> Less(b, a)
    ensures Less(a, b) && Less(b, a) ==> Less(a, a)
  {
    if Less(a, b) && Less(b, c) { LessTransitive(a, b, c); }
    if Less(a, b) && Less(c, a) { LessTransitive(c, a, b); }
    if Less(c, a) && Less(b, c) { LessTransitive(b, c, a); }
    if Less(a, b) && Less(b, a) { LessTransitive(a, b, a); }
  }

  ghost predicate SortedFacts(facts: seq<Fact>) {
    forall i, j | 0 <= i < j < |facts| :: !KeyBefore(facts[j], facts[i])
  }

  /** The place of a fact behind every sorted one that does not come after it. */
  method PlaceOf(sorted: seq<Fact>, f: Fact) returns (k: nat)
    ensures k <= |sorted| && (k < |sorted| ==> KeyBefore(f, sorted[k]))
    ensures forall i | 0 <= i < k :: !KeyBefore(f, sorted[i])
  {
    k := 0;
    while k < |sorted| && !KeyBefore(f, sorted[k])
      invariant 0 <= k <= |sorted| && forall i | 0 <= i < k :: !KeyBefore(f, sorted[i])
    {
      k := k + 1;
    }
  }

  method SortFacts(facts: seq<Fact>) returns (sorted: seq<Fact>)
    ensures multiset(sorted) == multiset(facts) && SortedFacts(sorted)
  {
    hide KeyBefore, SortedFacts;
    sorted := [];
    NoneSorted();
    for n := 0 to |facts|
      invariant multiset(sorted) == multiset(facts[..n]) && SortedFacts(sorted)
    {
      var k := PlaceOf(sorted, facts[n]);
      InsertSorted(sorted, k, facts[n]);
      assert sorted == sorted[..k] + sorted[k..];
      assert facts[..n + 1] == facts[..n] + [facts[n]];
      sorted := sorted[..k] + [facts[n]] + sorted[k..];
    }
    assert facts[..|facts|] == facts;
  }

  lemma NoneSorted()
    ensures SortedFacts([])
  {
  }

  lemma InsertSorted(facts: seq<Fact>, k: nat, f: Fact)
    requires SortedFacts(facts) && k <= |facts|
    requires forall i | 0 <= i < k :: !KeyBefore(f, facts[i])
    requires k < |facts| ==> KeyBefore(f, facts[k])
    ensures SortedFacts(facts[..k] + [f] + facts[k..])
  {
    forall j | k <= j < |facts|
      ensures !KeyBefore(facts[j], f)
    {
      KeyOrder(f, facts[k], facts[j]);
    }
  }

  // ---------------------------------------------------------------- trace_transition

  /** The last accepted same_element assertion about an identity decides. */
  function AcceptedBy(assertions: seq<Assertion>): map<string, string> {
    if assertions == [] then map[]
    else
      var rest, last := AcceptedBy(assertions[..|assertions| - 1]), assertions[|assertions| - 1];
      if last.accepted && last.relation.SameElement? then rest[last.before := last.after] else rest
  }

  function RejectedBy(assertions: seq<Assertion>): set<(string, string)> {
    set a | a in assertions && a.accepted && a.relation.NotSameElement? :: (a.before, a.after)
  }

  function UsedIn(flags: seq<bool>): set<nat> {
    set i: nat | i < |flags| && flags[i]
  }

  function CandidateAt(o: Outcome, after: seq<Element>, i: nat): Candidate
    requires i in o.candidates && Within(o, |after|)
  {
    Candidate(o.element.id, after[i].id, ContinuityOf(o.element, after[i]), |o.candidates| > 1)
  }

  function CandidatesFrom(o: Outcome, after: seq<Element>): seq<Candidate>
    requires Within(o, |after|)
  {
    seq(|o.candidates|, n requires 0 <= n < |o.candidates| =>
      CandidateAt(o, after, o.candidates[n]))
  }

  function AllCandidates(outcomes: seq<Outcome>, after: seq<Element>): seq<Candidate>
    requires InRange(outcomes, |after|)
  {
    if outcomes == [] then []
    else AllCandidates(outcomes[..|outcomes| - 1], after) + CandidatesFrom(outcomes[|outcomes| - 1], after)
  }

  /** A candidate is exactly an unused element of the same shape that no review rejected. */
  lemma {:induction false} CandidatesAreOpenPairs(e: Element, after: seq<Element>, rejected: set<(string, string)>,
                                                  used: set<nat>, from: nat, i: nat)
    ensures i in CandidatesOf(e, after, rejected, used, from) <==>
      from <= i < |after| && SameShape(e, after[i]) && i !in used && (e.id, after[i].id) !in rejected
    decreases |after| - from
  {
    if from < |after| {
      CandidatesAreOpenPairs(e, after, rejected, used, from + 1, i);
    }
  }

  // ---------------------------------------------------------------- what the facts say

  /** The first element with an id is at the index. */
  predicate FirstAt(elements: seq<Element>, id: string, j: nat) {
    j < |elements| && elements[j].id == id && forall k | 0 <= k < j :: elements[k].id != id
  }

  /** A review sends the element to the first one with the id it names. */
  predicate ReviewedTo(e: Element, after: seq<Element>, accepted: map<string, string>, j: nat) {
    e.id in accepted && FirstAt(after, accepted[e.id], j)
  }

  lemma FirstIndexIs(elements: seq<Element>, id: string)
    ensures forall j: nat :: FirstAt(elements, id, j) <==> FirstIndex(elements, id) == Some(j)
  {
  }

  /** The outcome for an element, when these were taken by the elements before it: its review comes first, then its own
      id, and without either it stays open, with every element of its kind and fingerprints that is free and that no
      review has ruled out. */
  ghost predicate Explains(o: Outcome, e: Element, after: seq<Element>, accepted: map<string, string>,
                           rejected: set<(string, string)>, taken: set<nat>)
  {
    var byReview := exists j: nat | j < |after| :: ReviewedTo(e, after, accepted, j) && j !in taken;
    var byId := exists j: nat | j < |after| :: FirstAt(after, e.id, j) && j !in taken;
    && o.element == e
    && (forall j: nat | j < |after| ::
          o.matched == Some(Match(j, true)) <==> ReviewedTo(e, after, accepted, j) && j !in taken)
    && (forall j: nat | j < |after| ::
          o.matched == Some(Match(j, false)) <==> !byReview && FirstAt(after, e.id, j) && j !in taken)
    && (o.matched.None? <==> !byReview && !byId)
    && (forall j: nat :: j in o.candidates <==>
          && o.matched.None? && j < |after| && j !in taken && (e.id, after[j].id) !in rejected
          && after[j].kind == e.kind && after[j].interface == e.interface
          && after[j].implementation == e.implementation && after[j].dependency == e.dependency)
    && Ascending(o.candidates, 0)
  }

  lemma {:induction false} CandidatesAscend(e: Element, after: seq<Element>, rejected: set<(string, string)>,
                                            used: set<nat>, from: nat)
    ensures Ascending(CandidatesOf(e, after, rejected, used, from), from)
    decreases |after| - from
  {
    if from < |after| {
      CandidatesAscend(e, after, rejected, used, from + 1);
      AscendingCons(CandidatesOf(e, after, rejected, used, from + 1), from);
    }
  }

  /** The indices grow, and none is below the bound. */
  predicate Ascending(indices: seq<nat>, from: nat) {
    (forall m | 0 <= m < |indices| :: from <= indices[m])
      && forall m, n | 0 <= m < n < |indices| :: indices[m] < indices[n]
  }

  lemma NothingAscends()
    ensures Ascending([], 0)
  {
  }

  lemma AscendingCons(indices: seq<nat>, from: nat)
    requires Ascending(indices, from + 1)
    ensures Ascending(indices, from) && Ascending([from] + indices, from)
  {
  }

  /** The elements of the after bundle that the first `n` outcomes are matched to. */
  function TakenBy(outcomes: seq<Outcome>, n: nat): set<nat>
    requires n <= |outcomes|
  {
    set i | 0 <= i < n && outcomes[i].matched.Some? :: outcomes[i].matched.value.index
  }

  lemma TakenIsUsed(outcomes: seq<Outcome>, n: nat)
    requires n <= |outcomes|
    ensures TakenBy(outcomes, n) == UsedBy(outcomes[..n])
  {
    forall j | j in UsedBy(outcomes[..n])
      ensures j in TakenBy(outcomes, n)
    {
      var o :| o in outcomes[..n] && j in Used(o);
    }
    forall i | 0 <= i < n && outcomes[i].matched.Some?
      ensures outcomes[i].matched.value.index in UsedBy(outcomes[..n])
    {
      assert outcomes[..n][i] == outcomes[i];
      assert outcomes[i].matched.value.index in Used(outcomes[i]);
    }
  }

  lemma DecisionExplained(e: Element, after: seq<Element>, accepted: map<string, string>,
                          rejected: set<(string, string)>, taken: set<nat>)
    ensures Explains(Decide(e, after, accepted, rejected, taken), e, after, accepted, rejected, taken)
  {
    hide FirstIndex, FirstAt, CandidatesOf, Ascending;
    var o := Decide(e, after, accepted, rejected, taken);
    FirstIndexIs(after, e.id);
    if e.id in accepted {
      FirstIndexIs(after, accepted[e.id]);
    }
    CandidatesAscend(e, after, rejected, taken, 0);
    NothingAscends();
    forall j: nat
      ensures j in CandidatesOf(e, after, rejected, taken, 0) <==>
        && j < |after| && j !in taken && (e.id, after[j].id) !in rejected && SameShape(e, after[j])
    {
      CandidatesAreOpenPairs(e, after, rejected, taken, 0, j);
    }
  }

  /** Every element of the before bundle is decided so, in order. */
  lemma {:induction false} ScanExplained(before: seq<Element>, after: seq<Element>, accepted: map<string, string>,
                                         rejected: set<(string, string)>, used: set<nat>, i: nat)
    requires i < |before|
    ensures var outcomes := Scan(before, after, accepted, rejected, used);
      Explains(outcomes[i], before[i], after, accepted, rejected, used + UsedBy(outcomes[..i]))
  {
    hide Explains, Scan, Decide, UsedBy, Used;
    var outcomes := Scan(before, after, accepted, rejected, used);
    var o := Decide(before[0], after, accepted, rejected, used);
    ScanUnfolds(before, after, accepted, rejected, used);
    if i == 0 {
      DecisionExplained(before[0], after, accepted, rejected, used);
      NothingUsed();
      assert outcomes[..0] == [] && used + UsedBy([]) == used;
    } else {
      var rest := Scan(before[1..], after, accepted, rejected, used + Used(o));
      ScanExplained(before[1..], after, accepted, rejected, used + Used(o), i - 1);
      assert outcomes[..i] == [o] + rest[..i - 1];
      UsedByCons(o, rest[..i - 1]);
      assert used + UsedBy(outcomes[..i]) == used + Used(o) + UsedBy(rest[..i - 1]);
    }
  }

  lemma ScanUnfolds(before: seq<Element>, after: seq<Element>, accepted: map<string, string>,
                    rejected: set<(string, string)>, used: set<nat>)
    requires before != []
    ensures var o := Decide(before[0], after, accepted, rejected, used);
      Scan(before, after, accepted, rejected, used)
      == [o] + Scan(before[1..], after, accepted, rejected, used + Used(o))
  {
  }

  lemma NothingUsed()
    ensures UsedBy([]) == {}
  {
  }

  lemma UsedByCons(o: Outcome, rest: seq<Outcome>)
    ensures UsedBy([o] + rest) == Used(o) + UsedBy(rest)
  {
    forall i
      ensures i in UsedBy([o] + rest) <==> i in Used(o) + UsedBy(rest)
    {
      assert o in [o] + rest;
    }
  }

  /** What is reported of two elements that are matched. */
  predicate Compares(f: Fact, e: Element, next: Element, reviewed: bool) {
    && f.before == e.id && f.after == next.id && f.beforePath == Some(e.path) && f.afterPath == Some(next.path)
    && (f.continuity in {Renamed, MovedAndRenamed} <==> e.name != next.name)
    && (f.continuity in {Moved, MovedAndRenamed} <==> e.path != next.path)
    && (f.continuity == Same <==> e.name == next.name && e.path == next.path)
    && (f.content in {InterfaceChanged, BothChanged} <==> e.interface != next.interface)
    && (f.content in {ImplementationChanged, BothChanged} <==> e.implementation != next.implementation)
    && (f.content == Unchanged <==> e.interface == next.interface && e.implementation == next.implementation)
    && (f.dependenciesChanged <==> e.dependency != next.dependency)
    && f.confidence == if reviewed then Reviewed else Exact
  }

  /** What is reported of an element that is only on one side. */
  predicate IsOpen(f: Fact, e: Element, gone: bool) {
    && f.before == (if gone then e.id else "") && f.after == (if gone then "" else e.id)
    && f.beforePath == (if gone then Some(e.path) else None) && f.afterPath == (if gone then None else Some(e.path))
    && f.continuity == (if gone then DeletedOrUnresolved else AddedOrUnresolved)
    && f.content == Unverified && !f.dependenciesChanged && f.confidence == Ambiguous
  }

  /** Fact for fact: the before elements in order, then the after elements that none was matched to, in order. */
  lemma FactsExplained(outcomes: seq<Outcome>, after: seq<Element>, hash: string -> string, i: nat)
    requires InRange(outcomes, |after|) && i < |outcomes|
    ensures IsFactOf(FactsOf(outcomes, after, hash)[i], outcomes[i], after, hash)
  {
    assert Within(outcomes[i], |after|);
  }

  /** The fact says what has become of the element. */
  predicate IsFactOf(f: Fact, o: Outcome, after: seq<Element>, hash: string -> string)
    requires Within(o, |after|)
  {
    && f.historyId == "history-" + hash(o.element.id)
    && if o.matched.None? then IsOpen(f, o.element, true)
       else Compares(f, o.element, after[o.matched.value.index], o.matched.value.reviewed)
  }

  /** An after element is reported as added exactly if nothing was matched to it. */
  lemma {:induction false} AddedExplained(after: seq<Element>, used: set<nat>, from: nat, hash: string -> string)
    returns (positions: seq<nat>)
    requires from <= |after|
    ensures ListsFree(positions, used, from, |after|)
    ensures AddedAre(AddedFacts(after, used, from, hash), after, positions, hash)
    decreases |after| - from
  {
    hide AddedAre, ListsFree;
    positions := [];
    if from < |after| {
      var rest := AddedExplained(after, used, from + 1, hash);
      FreeCons(rest, used, from, |after|);
      AddedUnfolds(after, used, from, hash);
      AddedCons(AddedFacts(after, used, from + 1, hash), after, rest, hash, from);
      positions := if from in used then rest else [from] + rest;
    } else {
      NothingAdded(after, used, hash);
    }
  }

  /** The facts report the elements at the positions as added, in order. */
  predicate AddedAre(facts: seq<Fact>, after: seq<Element>, positions: seq<nat>, hash: string -> string) {
    |facts| == |positions| && forall m | 0 <= m < |facts| ::
      positions[m] < |after| && IsOpen(facts[m], after[positions[m]], false)
        && facts[m].historyId == "history-" + hash(after[positions[m]].id)
  }

  lemma AddedCons(facts: seq<Fact>, after: seq<Element>, positions: seq<nat>, hash: string -> string, from: nat)
    requires AddedAre(facts, after, positions, hash) && from < |after|
    ensures AddedAre([AddedFact(after[from], hash)] + facts, after, [from] + positions, hash)
  {
  }

  lemma NothingAdded(after: seq<Element>, used: set<nat>, hash: string -> string)
    ensures AddedAre([], after, [], hash) && ListsFree([], used, |after|, |after|)
  {
  }

  /** The indices are those from one bound to the other that are not used, in order. */
  ghost predicate ListsFree(indices: seq<nat>, used: set<nat>, from: nat, n: nat) {
    Ascending(indices, from) && forall j: nat :: j in indices <==> from <= j < n && j !in used
  }

  lemma FreeCons(indices: seq<nat>, used: set<nat>, from: nat, n: nat)
    requires from < n && ListsFree(indices, used, from + 1, n)
    ensures ListsFree(if from in used then indices else [from] + indices, used, from, n)
  {
    AscendingCons(indices, from);
    hide Ascending;
    forall j: nat
      ensures j in (if from in used then indices else [from] + indices) <==> from <= j < n && j !in used
    {
      assert j in indices <==> from + 1 <= j < n && j !in used;
    }
  }

  /** A candidate is reported for each element that an open one could have become. */
  lemma {:induction false} CandidatesExplained(outcomes: seq<Outcome>, after: seq<Element>, c: Candidate)
    requires InRange(outcomes, |after|)
    ensures c in AllCandidates(outcomes, after) <==>
      exists i | 0 <= i < |outcomes| :: SuggestedBy(c, outcomes[i], after)
  {
    hide SuggestedBy, CandidatesFrom;
    if outcomes != [] {
      var last := |outcomes| - 1;
      CandidatesExplained(outcomes[..last], after, c);
      assert forall i | 0 <= i < last :: outcomes[..last][i] == outcomes[i];
      OwnCandidates(outcomes[last], after, c);
    }
  }

  lemma OwnCandidates(o: Outcome, after: seq<Element>, c: Candidate)
    requires Within(o, |after|)
    ensures c in CandidatesFrom(o, after) <==> SuggestedBy(c, o, after)
  {
    var own := CandidatesFrom(o, after);
    assert forall n | 0 <= n < |o.candidates| :: own[n] == CandidateAt(o, after, o.candidates[n]);
    if c in own {
      var n :| 0 <= n < |own| && own[n] == c;
      assert o.candidates[n] in o.candidates && Suggests(c, o, after[o.candidates[n]]);
    }
    if SuggestedBy(c, o, after) {
      var j :| j in o.candidates && j < |after| && Suggests(c, o, after[j]);
      var n :| 0 <= n < |o.candidates| && o.candidates[n] == j;
      assert own[n] == c;
    }
  }

  ghost predicate SuggestedBy(c: Candidate, o: Outcome, after: seq<Element>) {
    exists j <- o.candidates :: j < |after| && Suggests(c, o, after[j])
  }

  predicate Suggests(c: Candidate, o: Outcome, next: Element) {
    && c.before == o.element.id && c.after == next.id && (c.ambiguous <==> |o.candidates| > 1)
    && (c.continuity in {Renamed, MovedAndRenamed} <==> o.element.name != next.name)
    && (c.continuity in {Moved, MovedAndRenamed} <==> o.element.path != next.path)
    && (c.continuity == Same <==> o.element.name == next.name && o.element.path == next.path)
  }

  /** The review that counts for an element is its last accepted one. */
  lemma {:induction false} LastReviewCounts(assertions: seq<Assertion>, id: string)
    ensures id in AcceptedBy(assertions) <==> exists i | 0 <= i < |assertions| :: Identifies(assertions[i], id)
    ensures forall i | 0 <= i < |assertions| && Identifies(assertions[i], id)
                       && forall j | i < j < |assertions| :: !Identifies(assertions[j], id) ::
      id in AcceptedBy(assertions) && AcceptedBy(assertions)[id] == assertions[i].after
  {
    if assertions != [] {
      var rest, last := assertions[..|assertions| - 1], |assertions| - 1;
      LastReviewCounts(rest, id);
      assert forall i | 0 <= i < last :: rest[i] == assertions[i];
      if Identifies(assertions[last], id) {
        assert AcceptedBy(assertions)[id] == assertions[last].after;
      }
    }
  }

  /** An accepted review that says which element this one has become. */
  predicate Identifies(a: Assertion, id: string) {
    a.before == id && a.accepted && a.relation == SameElement
  }

  lemma RejectionsAre(assertions: seq<Assertion>, before: string, after: string)
    ensures (before, after) in RejectedBy(assertions) <==>
      exists a <- assertions :: a.before == before && a.after == after && a.accepted && a.relation == NotSameElement
  {
  }

  /** Where the facts of one history stand among each other. */
  function Place(continuity: Continuity): nat {
    match continuity
    case AddedOrUnresolved => 0
    case DeletedOrUnresolved => 1
    case Moved => 2
    case MovedAndRenamed => 3
    case Renamed => 4
    case Same => 5
  }

  lemma {:induction false} PrefixIsLess(front: string, back: string)
    ensures back != "" ==> Less(front, front + back)
    ensures !Less(front + back, front)
  {
    if front == "" {
      assert "" + back == back;
    } else {
      assert (front + back)[1..] == front[1..] + back;
      PrefixIsLess(front[1..], back);
    }
  }

  lemma NamesAscend(a: Continuity, b: Continuity)
    ensures Less(a.Name(), b.Name()) <==> Place(a) < Place(b)
  {
    assert "moved_and_renamed" == "moved" + "_and_renamed";
    PrefixIsLess("moved", "_and_renamed");
    if a == b {
      LessIrreflexive(a.Name());
    }
  }

  /** The facts are sorted by history id, and those of one history by what has become of the element: added, deleted,
      moved, moved and renamed, renamed, the same. */
  lemma SortedByHistory(facts: seq<Fact>, i: nat, j: nat)
    requires SortedFacts(facts) && i < j < |facts|
    ensures !Less(facts[j].historyId, facts[i].historyId)
    ensures facts[i].historyId == facts[j].historyId ==> Place(facts[i].continuity) <= Place(facts[j].continuity)
  {
    assert !KeyBefore(facts[j], facts[i]);
    NamesAscend(facts[j].continuity, facts[i].continuity);
  }

  /** What becomes of one scan: sorted facts, and complete only when nothing was left open. */
  ghost predicate Traces(before: Bundle, after: Bundle, assertions: seq<Assertion>, hash: string -> string,
                         facts: seq<Fact>, candidates: seq<Candidate>, complete: bool)
  {
    var outcomes := Scan(before.elements, after.elements, AcceptedBy(assertions), RejectedBy(assertions), {});
    && multiset(facts) == multiset(FactsOf(outcomes, after.elements, hash)) && SortedFacts(facts)
    && candidates == AllCandidates(outcomes, after.elements)
    && (complete <==> before.complete && after.complete && before.configuration == after.configuration
                      && forall o <- outcomes :: o.matched.Some?)
  }

  /** What a transition is, without the scan: every before element is decided by its review, then by its own id, against
      what the ones before it have taken; each gives its fact, and so does every after element nobody has taken. */
  lemma TransitionExplained(before: Bundle, after: Bundle, assertions: seq<Assertion>, hash: string -> string,
                            facts: seq<Fact>, candidates: seq<Candidate>, complete: bool)
    returns (outcomes: seq<Outcome>, report: seq<Fact>, added: seq<nat>)
    requires Traces(before, after, assertions, hash, facts, candidates, complete)
    ensures InRange(outcomes, |after.elements|) && |outcomes| == |before.elements|
    ensures forall i | 0 <= i < |outcomes| ::
      Explains(outcomes[i], before.elements[i], after.elements, AcceptedBy(assertions), RejectedBy(assertions),
               TakenBy(outcomes, i))
    ensures multiset(facts) == multiset(report) && |report| == |outcomes| + |added| && SortedFacts(facts)
    ensures forall i | 0 <= i < |outcomes| :: IsFactOf(report[i], outcomes[i], after.elements, hash)
    ensures AddedAre(report[|outcomes|..], after.elements, added, hash)
    ensures ListsFree(added, TakenBy(outcomes, |outcomes|), 0, |after.elements|)
    ensures candidates == AllCandidates(outcomes, after.elements)
    ensures complete <==> before.complete && after.complete && before.configuration == after.configuration
                          && forall i | 0 <= i < |outcomes| :: outcomes[i].matched.Some?
  {
    var accepted, rejected := AcceptedBy(assertions), RejectedBy(assertions);
    outcomes := Scan(before.elements, after.elements, accepted, rejected, {});
    report := FactsOf(outcomes, after.elements, hash);
    hide Scan, Explains, AddedAre, IsFactOf, SortedFacts, ListsFree, AllCandidates, AcceptedBy, RejectedBy, FactsOf,
      TakenBy;
    OutcomesExplained(before.elements, after.elements, accepted, rejected, hash);
    added := FreeAreAdded(outcomes, after.elements, hash);
  }

  lemma FreeAreAdded(outcomes: seq<Outcome>, after: seq<Element>, hash: string -> string) returns (added: seq<nat>)
    requires InRange(outcomes, |after|)
    ensures var report := FactsOf(outcomes, after, hash);
      |report| == |outcomes| + |added| && AddedAre(report[|outcomes|..], after, added, hash)
    ensures ListsFree(added, TakenBy(outcomes, |outcomes|), 0, |after|)
  {
    hide AddedAre, ListsFree, TakenBy, UsedBy, AddedFacts, FactOf;
    TakenIsUsed(outcomes, |outcomes|);
    assert outcomes[..|outcomes|] == outcomes;
    added := AddedExplained(after, UsedBy(outcomes), 0, hash);
    var facts := AddedFacts(after, UsedBy(outcomes), 0, hash);
    assert FactsOf(outcomes, after, hash)[|outcomes|..] == facts;
    AddedLength(facts, after, added, hash);
  }

  lemma OutcomesExplained(before: seq<Element>, after: seq<Element>, accepted: map<string, string>,
                          rejected: set<(string, string)>, hash: string -> string)
    ensures var outcomes := Scan(before, after, accepted, rejected, {});
      forall i | 0 <= i < |outcomes| ::
        && Explains(outcomes[i], before[i], after, accepted, rejected, TakenBy(outcomes, i))
        && IsFactOf(FactsOf(outcomes, after, hash)[i], outcomes[i], after, hash)
  {
    hide Explains, Scan, TakenBy, IsFactOf, AddedFacts;
    var outcomes := Scan(before, after, accepted, rejected, {});
    forall i | 0 <= i < |outcomes|
      ensures Explains(outcomes[i], before[i], after, accepted, rejected, TakenBy(outcomes, i))
      ensures IsFactOf(FactsOf(outcomes, after, hash)[i], outcomes[i], after, hash)
    {
      OutcomeExplained(before, after, accepted, rejected, i);
      FactsExplained(outcomes, after, hash, i);
    }
  }

  lemma OutcomeExplained(before: seq<Element>, after: seq<Element>, accepted: map<string, string>,
                         rejected: set<(string, string)>, i: nat)
    requires i < |before|
    ensures var outcomes := Scan(before, after, accepted, rejected, {});
      Explains(outcomes[i], before[i], after, accepted, rejected, TakenBy(outcomes, i))
  {
    hide Explains, Scan, TakenBy;
    var outcomes := Scan(before, after, accepted, rejected, {});
    ScanExplained(before, after, accepted, rejected, {}, i);
    TakenIsUsed(outcomes, i);
    assert {} + UsedBy(outcomes[..i]) == UsedBy(outcomes[..i]);
  }

  lemma AddedLength(facts: seq<Fact>, after: seq<Element>, positions: seq<nat>, hash: string -> string)
    requires AddedAre(facts, after, positions, hash)
    ensures |facts| == |positions|
  {
  }

  method IndexAssertions(assertions: seq<Assertion>)
    returns (accepted: map<string, string>, rejected: set<(string, string)>)
    ensures accepted == AcceptedBy(assertions) && rejected == RejectedBy(assertions)
  {
    accepted, rejected := map[], {};
    for n := 0 to |assertions|
      invariant accepted == AcceptedBy(assertions[..n]) && rejected == RejectedBy(assertions[..n])
    {
      var a := assertions[n];
      assert assertions[..n + 1][..n] == assertions[..n];
      assert assertions[..n + 1] == assertions[..n] + [a];
      if a.accepted && a.relation.SameElement? {
        accepted := accepted[a.before := a.after];
      }
      if a.accepted && a.relation.NotSameElement? {
        rejected := rejected + {(a.before, a.after)};
      }
    }
    assert assertions[..|assertions|] == assertions;
  }

  /** after_by_id: emplace keeps the first index of an identity. */
  method IndexElements(elements: seq<Element>) returns (byId: map<string, nat>)
    ensures forall id :: (if id in byId then Some(byId[id]) else None) == FirstIndex(elements, id)
  {
    byId := map[];
    for n := 0 to |elements|
      invariant forall id <- byId :: byId[id] < n && elements[byId[id]].id == id
      invariant forall id <- byId, j | 0 <= j < byId[id] :: elements[j].id != id
      invariant forall j | 0 <= j < n :: elements[j].id in byId
    {
      if elements[n].id !in byId {
        byId := byId[elements[n].id := n];
      }
    }
  }

  method FindMatch(e: Element, after: seq<Element>, byId: map<string, nat>, accepted: map<string, string>,
                   used: array<bool>)
    returns (m: Option<Match>)
    requires used.Length == |after|
    requires forall id :: (if id in byId then Some(byId[id]) else None) == FirstIndex(after, id)
    ensures m == MatchOf(e, after, accepted, UsedIn(used[..]))
  {
    m := None;
    if e.id in accepted && accepted[e.id] in byId {
      var i := byId[accepted[e.id]];
      assert FirstIndex(after, accepted[e.id]) == Some(i);
      if !used[i] {
        return Some(Match(i, true));
      }
    }
    if e.id in byId {
      var i := byId[e.id];
      assert FirstIndex(after, e.id) == Some(i);
      if !used[i] {
        m := Some(Match(i, false));
      }
    }
  }

  method FindCandidates(e: Element, after: seq<Element>, rejected: set<(string, string)>, used: array<bool>)
    returns (found: seq<nat>)
    requires used.Length == |after|
    ensures found == CandidatesOf(e, after, rejected, UsedIn(used[..]), 0)
  {
    ghost var taken := UsedIn(used[..]);
    assert forall i: nat | i < used.Length :: i in taken <==> used[i];
    hide CandidatesOf, UsedIn, SameShape;
    found := [];
    assert [] + CandidatesOf(e, after, rejected, taken, 0) == CandidatesOf(e, after, rejected, taken, 0);
    for i := 0 to |after|
      invariant found + CandidatesOf(e, after, rejected, taken, i) == CandidatesOf(e, after, rejected, taken, 0)
    {
      CandidatesUnfold(e, after, rejected, taken, i);
      if SameShape(e, after[i]) && !used[i] && (e.id, after[i].id) !in rejected {
        assert (found + [i]) + CandidatesOf(e, after, rejected, taken, i + 1)
            == found + ([i] + CandidatesOf(e, after, rejected, taken, i + 1));
        found := found + [i];
      }
    }
    NoCandidates(e, after, rejected, taken);
  }

  lemma CandidatesUnfold(e: Element, after: seq<Element>, rejected: set<(string, string)>, used: set<nat>, i: nat)
    requires i < |after|
    ensures CandidatesOf(e, after, rejected, used, i)
         == if SameShape(e, after[i]) && i !in used && (e.id, after[i].id) !in rejected
            then [i] + CandidatesOf(e, after, rejected, used, i + 1) else CandidatesOf(e, after, rejected, used, i + 1)
  {
  }

  lemma NoCandidates(e: Element, after: seq<Element>, rejected: set<(string, string)>, used: set<nat>)
    ensures CandidatesOf(e, after, rejected, used, |after|) == []
  {
  }

  method TraceElement(e: Element, after: seq<Element>, byId: map<string, nat>, accepted: map<string, string>,
                      rejected: set<(string, string)>, used: array<bool>)
    returns (o: Outcome)
    requires used.Length == |after|
    requires forall id :: (if id in byId then Some(byId[id]) else None) == FirstIndex(after, id)
    modifies used
    ensures o == Decide(e, after, accepted, rejected, UsedIn(old(used[..])))
    ensures UsedIn(used[..]) == UsedIn(old(used[..])) + Used(o)
  {
    var m := FindMatch(e, after, byId, accepted, used);
    if m.Some? {
      used[m.value.index] := true;
      return Outcome(e, m, []);
    }
    var found := FindCandidates(e, after, rejected, used);
    return Outcome(e, m, found);
  }

  lemma ScanStep(before: seq<Element>, n: nat, after: seq<Element>, accepted: map<string, string>,
                 rejected: set<(string, string)>, used: set<nat>)
    requires n < |before|
    ensures var o := Decide(before[n], after, accepted, rejected, used);
      Scan(before[n..], after, accepted, rejected, used)
      == [o] + Scan(before[n + 1..], after, accepted, rejected, used + Used(o))
  {
    assert before[n..][0] == before[n] && before[n..][1..] == before[n + 1..];
  }

  lemma UsedByAppended(outcomes: seq<Outcome>, o: Outcome)
    ensures UsedBy(outcomes + [o]) == UsedBy(outcomes) + Used(o)
  {
    forall i
      ensures i in UsedBy(outcomes + [o]) <==> i in UsedBy(outcomes) + Used(o)
    {
      assert o in outcomes + [o];
    }
  }

  method TraceElements(before: seq<Element>, after: seq<Element>, accepted: map<string, string>,
                       rejected: set<(string, string)>, used: array<bool>)
    returns (outcomes: seq<Outcome>)
    requires used.Length == |after| && UsedIn(used[..]) == {}
    modifies used
    ensures outcomes == Scan(before, after, accepted, rejected, {}) && UsedIn(used[..]) == UsedBy(outcomes)
  {
    hide Scan;
    var byId := IndexElements(after);
    outcomes := [];
    ghost var taken: set<nat> := {};
    for n := 0 to |before|
      invariant outcomes + Scan(before[n..], after, accepted, rejected, taken)
             == Scan(before, after, accepted, rejected, {})
      invariant taken == UsedIn(used[..]) == UsedBy(outcomes)
    {
      ScanStep(before, n, after, accepted, rejected, taken);
      var o := TraceElement(before[n], after, byId, accepted, rejected, used);
      UsedByAppended(outcomes, o);
      outcomes, taken := outcomes + [o], taken + Used(o);
    }
  }

  /** Turns the decisions into facts and candidates. */
  method Report(outcomes: seq<Outcome>, after: seq<Element>, hash: string -> string)
    returns (facts: seq<Fact>, candidates: seq<Candidate>, resolved: bool)
    requires InRange(outcomes, |after|)
    ensures facts == MatchedFacts(outcomes, after, hash) && candidates == AllCandidates(outcomes, after)
    ensures resolved <==> forall o <- outcomes :: o.matched.Some?
  {
    facts, candidates, resolved := [], [], true;
    for n := 0 to |outcomes|
      invariant facts == MatchedFacts(outcomes[..n], after, hash)
      invariant candidates == AllCandidates(outcomes[..n], after)
      invariant resolved <==> forall o <- outcomes[..n] :: o.matched.Some?
    {
      assert outcomes[..n + 1] == outcomes[..n] + [outcomes[n]];
      assert outcomes[..n + 1][..n] == outcomes[..n];
      facts := facts + [FactOf(outcomes[n], after, hash)];
      candidates := candidates + CandidatesFrom(outcomes[n], after);
      resolved := resolved && outcomes[n].matched.Some?;
    }
    assert outcomes[..|outcomes|] == outcomes;
  }

  /** The facts of the elements nobody was matched to. */
  method ReportAdded(after: seq<Element>, used: array<bool>, hash: string -> string) returns (facts: seq<Fact>)
    requires used.Length == |after|
    ensures facts == AddedFacts(after, UsedIn(used[..]), 0, hash)
  {
    ghost var taken := UsedIn(used[..]);
    assert forall i: nat | i < used.Length :: i in taken <==> used[i];
    hide AddedFacts, UsedIn;
    facts := [];
    assert [] + AddedFacts(after, taken, 0, hash) == AddedFacts(after, taken, 0, hash);
    for i := 0 to |after|
      invariant facts + AddedFacts(after, taken, i, hash) == AddedFacts(after, taken, 0, hash)
    {
      AddedUnfolds(after, taken, i, hash);
      if !used[i] {
        assert (facts + [AddedFact(after[i], hash)]) + AddedFacts(after, taken, i + 1, hash)
            == facts + ([AddedFact(after[i], hash)] + AddedFacts(after, taken, i + 1, hash));
        facts := facts + [AddedFact(after[i], hash)];
      }
    }
    NoneAdded(after, taken, hash);
  }

  lemma AddedUnfolds(after: seq<Element>, used: set<nat>, i: nat, hash: string -> string)
    requires i < |after|
    ensures AddedFacts(after, used, i, hash)
         == if i in used then AddedFacts(after, used, i + 1, hash)
            else [AddedFact(after[i], hash)] + AddedFacts(after, used, i + 1, hash)
  {
  }

  lemma NoneAdded(after: seq<Element>, used: set<nat>, hash: string -> string)
    ensures AddedFacts(after, used, |after|, hash) == []
  {
  }

  method TraceTransition(before: Bundle, after: Bundle, assertions: seq<Assertion>, hash: string -> string)
    returns (facts: seq<Fact>, candidates: seq<Candidate>, complete: bool)
    ensures Traces(before, after, assertions, hash, facts, candidates, complete)
  {
    var accepted, rejected := IndexAssertions(assertions);
    var used := new bool[|after.elements|](_ => false);
    var outcomes := TraceElements(before.elements, after.elements, accepted, rejected, used);
    var matched, resolved;
    matched, candidates, resolved := Report(outcomes, after.elements, hash);
    complete := before.complete && after.complete && before.configuration == after.configuration && resolved;
    var added := ReportAdded(after.elements, used, hash);
    facts := SortFacts(matched + added);
  }
}
