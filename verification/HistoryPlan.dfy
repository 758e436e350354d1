/** Pull request facts, and the grouping of a first-parent history into integration units. */
module HistoryPlan {
  import opened Options

  type Id = string

  // ---------------------------------------------------------------- pull request facts

  /** A JSON id: a string stands for itself, anything else for its dump. */
  datatype PrId = Text(text: string) | Other(dump: string)

  datatype Match = Match(id: PrId, kind: string)

  function PrKey(m: Match): string {
    match m.id
    case Text(text) => text
    case Other(dump) => dump
  }

  /** A line of the facts file: blank, a no_pr fact, or a pull request and the commits it names. */
  datatype Line = Blank | NoPr(commit: Option<Id>) | Pr(id: Option<PrId>, commits: set<Id>, kind: string)

  datatype Failure = LacksCommit(line: nat) | LacksPrId(line: nat) | LacksAssociated(line: nat) | BothKinds(commit: Id)

  datatype PrFacts = PrFacts(matches: map<Id, seq<Match>>, noPr: set<Id>)

  datatype Outcome<T> = Read(value: T) | Rejected(failure: Failure)

  predicate WellFormed(line: Line) {
    match line
    case Blank => true
    case NoPr(commit) => commit.Some?
    case Pr(id, commits, _) => id.Some? && commits != {}
  }

  /** The pull requests that name a commit, in file order. */
  function MatchesOf(lines: seq<Line>, commit: Id): seq<Match> {
    if lines == [] then []
    else
      var line := lines[|lines| - 1];
      MatchesOf(lines[..|lines| - 1], commit)
      + if line.Pr? && line.id.Some? && commit in line.commits then [Match(line.id.value, line.kind)] else []
  }

  predicate SaysNoPr(lines: seq<Line>, commit: Id) {
    NoPr(Some(commit)) in lines
  }

  function Listed(matches: map<Id, seq<Match>>, commit: Id): seq<Match> {
    if commit in matches then matches[commit] else []
  }

  ghost predicate Faithful(facts: PrFacts, lines: seq<Line>) {
    && (forall c :: c in facts.noPr <==> SaysNoPr(lines, c))
    && (forall c :: c in facts.matches <==> MatchesOf(lines, c) != [])
    && (forall c :: Listed(facts.matches, c) == MatchesOf(lines, c))
  }

  /** No commit is said both to have and not to have a pull request. */
  ghost predicate Disjoint(facts: PrFacts) {
    forall c | c in facts.matches :: c !in facts.noPr
  }

  lemma {:induction false} MatchesNameCommit(lines: seq<Line>, c: Id)
    ensures MatchesOf(lines, c) != [] <==>
      exists line :: line in lines && line.Pr? && line.id.Some? && c in line.commits
  {
    if lines != [] {
      var rest, last := lines[..|lines| - 1], lines[|lines| - 1];
      MatchesNameCommit(rest, c);
      assert lines == rest + [last];
      if last.Pr? && last.id.Some? && c in last.commits {
        assert last in lines;
      }
    }
  }

  /** A pull request that names the commit. */
  predicate Names(line: Line, c: Id) {
    line.Pr? && line.id.Some? && c in line.commits
  }

  /** The matches are the pull requests of the lines at some positions, which are those that name the commit. */
  ghost predicate TakenFrom(matches: seq<Match>, lines: seq<Line>, at: seq<nat>, c: Id) {
    && |at| == |matches| && (forall n | 0 <= n < |at| :: at[n] < |lines|)
    && (forall n | 0 <= n < |at| :: Names(lines[at[n]], c)
                                     && matches[n] == Match(lines[at[n]].id.value, lines[at[n]].kind))
    && (forall m, n | 0 <= m < n < |at| :: at[m] < at[n])
    && (forall i | 0 <= i < |lines| && Names(lines[i], c) :: i in at)
  }

  lemma TakenOneMore(matches: seq<Match>, lines: seq<Line>, at: seq<nat>, c: Id, line: Line)
    requires TakenFrom(matches, lines, at, c)
    ensures if Names(line, c)
            then TakenFrom(matches + [Match(line.id.value, line.kind)], lines + [line], at + [|lines|], c)
            else TakenFrom(matches, lines + [line], at, c)
  {
    var more := at + [|lines|];
    assert forall n | 0 <= n < |at| :: more[n] == at[n];
    forall i | 0 <= i < |lines + [line]| && Names((lines + [line])[i], c)
      ensures i in if Names(line, c) then more else at
    {
      if i == |lines| {
        assert more[|at|] == i;
      } else {
        assert i in at;
      }
    }
  }

  /** The pull requests of a commit are those of the lines that name it, in file order. */
  lemma {:induction false} MatchesAreLines(lines: seq<Line>, c: Id) returns (at: seq<nat>)
    ensures TakenFrom(MatchesOf(lines, c), lines, at, c)
  {
    hide TakenFrom, Names, MatchesOf;
    if lines == [] {
      at := [];
      NothingTaken(c);
    } else {
      var rest, line := lines[..|lines| - 1], lines[|lines| - 1];
      assert lines == rest + [line];
      at := MatchesAreLines(rest, c);
      at := OneMoreTaken(rest, at, c, line);
    }
  }

  lemma OneMoreTaken(lines: seq<Line>, at: seq<nat>, c: Id, line: Line) returns (more: seq<nat>)
    requires TakenFrom(MatchesOf(lines, c), lines, at, c)
    ensures TakenFrom(MatchesOf(lines + [line], c), lines + [line], more, c)
  {
    hide TakenFrom, Names, MatchesOf;
    TakenOneMore(MatchesOf(lines, c), lines, at, c, line);
    MatchesOneMore(lines, line, c);
    more := if Names(line, c) then at + [|lines|] else at;
  }

  lemma NothingTaken(c: Id)
    ensures TakenFrom(MatchesOf([], c), [], [], c)
  {
  }

  lemma MatchesOneMore(lines: seq<Line>, line: Line, c: Id)
    ensures MatchesOf(lines + [line], c)
      == if Names(line, c) then MatchesOf(lines, c) + [Match(line.id.value, line.kind)] else MatchesOf(lines, c)
  {
    assert (lines + [line])[..|lines|] == lines;
    assert MatchesOf(lines, c) + [] == MatchesOf(lines, c);
  }

  /** One pull request is added to each of its commits. */
  method AddMatches(matches: map<Id, seq<Match>>, commits: set<Id>, m: Match) returns (added: map<Id, seq<Match>>)
    ensures forall c :: c in added <==> c in matches || c in commits
    ensures forall c :: Listed(added, c) == Listed(matches, c) + if c in commits then [m] else []
  {
    added := matches;
    var left := commits;
    while left != {}
      invariant left <= commits
      invariant forall c | c !in commits || c in left ::
        (c in added <==> c in matches) && Listed(added, c) == Listed(matches, c)
      invariant forall c | c in commits && c !in left :: c in added && Listed(added, c) == Listed(matches, c) + [m]
      decreases |left|
    {
      var c :| c in left;
      added := added[c := Listed(added, c) + [m]];
      left := left - {c};
    }
    forall c ensures Listed(matches, c) + [] == Listed(matches, c) {
    }
  }

  lemma FaithfulOneMore(facts: PrFacts, lines: seq<Line>, i: nat)
    requires i < |lines| && Faithful(facts, lines[..i])
    ensures lines[i].Blank? ==> Faithful(facts, lines[..i + 1])
    ensures lines[i].NoPr? && lines[i].commit.Some? ==>
              Faithful(facts.(noPr := facts.noPr + {lines[i].commit.value}), lines[..i + 1])
  {
    assert lines[..i + 1] == lines[..i] + [lines[i]];
    assert lines[..i + 1][..i] == lines[..i];
    if !lines[i].Pr? {
      forall c ensures MatchesOf(lines[..i + 1], c) == MatchesOf(lines[..i], c) {
      }
      forall c ensures SaysNoPr(lines[..i + 1], c) <==> SaysNoPr(lines[..i], c) || lines[i] == NoPr(Some(c)) {
      }
    }
  }

  lemma FaithfulOnePr(facts: PrFacts, lines: seq<Line>, i: nat, added: map<Id, seq<Match>>)
    requires i < |lines| && Faithful(facts, lines[..i]) && lines[i].Pr? && lines[i].id.Some?
    requires forall c :: c in added <==> c in facts.matches || c in lines[i].commits
    requires forall c :: Listed(added, c) == Listed(facts.matches, c)
                           + if c in lines[i].commits then [Match(lines[i].id.value, lines[i].kind)] else []
    ensures Faithful(facts.(matches := added), lines[..i + 1])
  {
    assert lines[..i + 1] == lines[..i] + [lines[i]];
    assert lines[..i + 1][..i] == lines[..i];
    forall c
      ensures c in added <==> MatchesOf(lines[..i + 1], c) != []
      ensures Listed(added, c) == MatchesOf(lines[..i + 1], c)
    {
      assert Listed(facts.matches, c) == MatchesOf(lines[..i], c);
      assert MatchesOf(lines[..i + 1], c) == MatchesOf(lines[..i], c)
        + if c in lines[i].commits then [Match(lines[i].id.value, lines[i].kind)] else [];
    }
  }

  /** A failure names the first malformed line, or a commit of both kinds when every line is well formed. */
  ghost predicate Blames(lines: seq<Line>, failure: Failure) {
    if failure.BothKinds? then
      && SaysNoPr(lines, failure.commit) && MatchesOf(lines, failure.commit) != []
      && forall line | line in lines :: WellFormed(line)
    else
      && 1 <= failure.line <= |lines| && (forall line | line in lines[..failure.line - 1] :: WellFormed(line))
      && match lines[failure.line - 1]
         case Blank => false
         case NoPr(commit) => failure.LacksCommit? && commit.None?
         case Pr(id, commits, _) => if id.None? then failure.LacksPrId? else failure.LacksAssociated? && commits == {}
  }

  /** Reading succeeds exactly when every line is well formed and no commit is of both kinds. */
  method ReadPrFacts(lines: seq<Line>) returns (outcome: Outcome<PrFacts>)
    ensures outcome.Read? <==>
      && (forall line | line in lines :: WellFormed(line))
      && (forall c :: !(SaysNoPr(lines, c) && MatchesOf(lines, c) != []))
    ensures outcome.Read? ==> Faithful(outcome.value, lines) && Disjoint(outcome.value)
    ensures outcome.Rejected? ==> Blames(lines, outcome.failure)
  {
    var facts := PrFacts(map[], {});
    for i := 0 to |lines|
      invariant Faithful(facts, lines[..i])
      invariant forall line | line in lines[..i] :: WellFormed(line)
    {
      FaithfulOneMore(facts, lines, i);
      assert lines[..i + 1] == lines[..i] + [lines[i]];
      assert lines[i] in lines;
      match lines[i] {
        case Blank =>
        case NoPr(commit) =>
          if commit.None? {
            return Rejected(LacksCommit(i + 1));
          }
          facts := facts.(noPr := facts.noPr + {commit.value});
        case Pr(id, commits, kind) =>
          if id.None? {
            return Rejected(LacksPrId(i + 1));
          }
          if commits == {} {
            return Rejected(LacksAssociated(i + 1));
          }
          var added := AddMatches(facts.matches, commits, Match(id.value, kind));
          FaithfulOnePr(facts, lines, i, added);
          facts := facts.(matches := added);
      }
    }
    assert lines[..|lines|] == lines;
    var left := facts.noPr;
    while left != {}
      invariant left <= facts.noPr
      invariant forall c | c in facts.noPr && c !in left :: c !in facts.matches
      decreases |left|
    {
      var c :| c in left;
      if c in facts.matches {
        return Rejected(BothKinds(c));
      }
      left := left - {c};
    }
    return Read(facts);
  }

  // ---------------------------------------------------------------- integration units

  datatype Commit = Commit(id: Id, parent: Id, tree: Id, time: int, subject: string)

  datatype Status = Identified | Compound | Ambiguous | ConfirmedNoPr | Unknown

  function StatusOf(facts: PrFacts, commit: Id): Status {
    var matches := Listed(facts.matches, commit);
    if |matches| == 1 then Identified
    else if |matches| > 1 then
      if forall m | m in matches :: m.kind == "compound" then Compound else Ambiguous
    else if commit in facts.noPr then ConfirmedNoPr
    else Unknown
  }

  /** The status of a commit by the lines that name it. */
  lemma StatusIs(facts: PrFacts, lines: seq<Line>, commit: Id)
    requires Faithful(facts, lines) && Disjoint(facts)
    ensures var matches, status := MatchesOf(lines, commit), StatusOf(facts, commit);
      && (status == Identified <==> |matches| == 1)
      && (status == Compound <==> |matches| > 1 && forall i | 0 <= i < |matches| :: matches[i].kind == "compound")
      && (status == Ambiguous <==> |matches| > 1 && exists i | 0 <= i < |matches| :: matches[i].kind != "compound")
      && (status == ConfirmedNoPr <==> NoPr(Some(commit)) in lines)
      && (status == Unknown <==> matches == [] && NoPr(Some(commit)) !in lines)
  {
    assert Listed(facts.matches, commit) == MatchesOf(lines, commit);
    assert commit in facts.noPr <==> SaysNoPr(lines, commit);
    assert commit in facts.matches ==> commit !in facts.noPr;
  }

  /** The key of the only pull request of a commit, "" when there is none or more than one. */
  function ExactPr(facts: PrFacts, commit: Id): string {
    var matches := Listed(facts.matches, commit);
    if |matches| == 1 then PrKey(matches[0]) else ""
  }

  /** A run of commits; `last` is the commit whose id, tree, time and subject the unit shows. */
  datatype Unit = Unit(sequence: nat, base: Id, commits: seq<Id>, last: Commit, status: Status, matches: seq<Match>)

  function Key(u: Unit): string {
    if |u.matches| == 1 then PrKey(u.matches[0]) else ""
  }

  function Ids(commits: seq<Commit>): seq<Id> {
    seq(|commits|, i requires 0 <= i < |commits| => commits[i].id)
  }

  predicate SamePr(facts: PrFacts, run: seq<Commit>, key: string) {
    forall i | 0 <= i < |run| :: ExactPr(facts, run[i].id) == key
  }

  /** A unit made of one commit, or of several that all have the same single pull request. */
  predicate Covers(facts: PrFacts, u: Unit, run: seq<Commit>) {
    && run != []
    && u.commits == Ids(run) && u.base == run[0].parent && u.last == run[|run| - 1]
    && u.status == StatusOf(facts, run[0].id) && u.matches == Listed(facts.matches, run[0].id)
    && (|run| > 1 ==> Key(u) != "" && SamePr(facts, run, Key(u)))
  }

  /** The units cut the history into consecutive runs. */
  predicate Tiles(facts: PrFacts, units: seq<Unit>, commits: seq<Commit>) {
    if units == [] then commits == []
    else
      var u := units[|units| - 1];
      var cut := |commits| - |u.commits|;
      cut >= 0 && Covers(facts, u, commits[cut..]) && Tiles(facts, units[..|units| - 1], commits[..cut])
  }

  /** No two neighbours share a pull request. */
  predicate Maximal(units: seq<Unit>) {
    forall i | 0 <= i < |units| - 1 :: Key(units[i]) == Key(units[i + 1]) ==> Key(units[i]) == ""
  }

  predicate Numbered(units: seq<Unit>) {
    forall i | 0 <= i < |units| :: units[i].sequence == i
  }

  // ---------------------------------------------------------------- what a tiling means

  function Joined(units: seq<Unit>): seq<Id> {
    if units == [] then [] else Joined(units[..|units| - 1]) + units[|units| - 1].commits
  }

  lemma CoversSome(facts: PrFacts, u: Unit, run: seq<Commit>)
    requires Covers(facts, u, run)
    ensures |run| == |u.commits| >= 1
  {
  }

  lemma RunKey(facts: PrFacts, u: Unit, run: seq<Commit>, i: nat)
    requires Covers(facts, u, run) && i < |run|
    ensures ExactPr(facts, run[i].id) == Key(u) && (|run| > 1 ==> Key(u) != "")
  {
  }

  /** A tiling ends with the run of its last unit. */
  lemma TilesSplit(facts: PrFacts, units: seq<Unit>, commits: seq<Commit>)
    returns (rest: seq<Unit>, u: Unit, before: seq<Commit>, run: seq<Commit>)
    requires Tiles(facts, units, commits) && units != []
    ensures units == rest + [u] && commits == before + run
    ensures Tiles(facts, rest, before) && Covers(facts, u, run) && |run| == |u.commits| >= 1
  {
    hide Covers;
    rest, u := units[..|units| - 1], units[|units| - 1];
    var cut := |commits| - |u.commits|;
    before, run := commits[..cut], commits[cut..];
    CoversSome(facts, u, run);
  }

  lemma TilesAppend(facts: PrFacts, units: seq<Unit>, before: seq<Commit>, u: Unit, run: seq<Commit>)
    requires Tiles(facts, units, before) && Covers(facts, u, run)
    ensures Tiles(facts, units + [u], before + run)
  {
    hide Covers;
    CoversSome(facts, u, run);
    assert (units + [u])[..|units|] == units;
    assert (before + run)[|before|..] == run && (before + run)[..|before|] == before;
  }

  lemma IdsJoin(before: seq<Commit>, run: seq<Commit>)
    ensures Ids(before + run) == Ids(before) + Ids(run)
  {
  }

  /** The units' commits, put together, are the history. */
  lemma {:induction false} TilesJoin(facts: PrFacts, units: seq<Unit>, commits: seq<Commit>)
    requires Tiles(facts, units, commits)
    ensures Joined(units) == Ids(commits)
    decreases |units|
  {
    if units != [] {
      hide Tiles, Ids, SamePr, Key, StatusOf;
      var rest, u, before, run := TilesSplit(facts, units, commits);
      TilesJoin(facts, rest, before);
      IdsJoin(before, run);
      assert units[..|units| - 1] == rest;
    }
  }

  /** The run behind the unit at position `k`. */
  lemma {:induction false} RunOf(facts: PrFacts, units: seq<Unit>, commits: seq<Commit>, k: nat)
    returns (start: nat, end: nat)
    requires Tiles(facts, units, commits) && k < |units|
    ensures start < end <= |commits| && Covers(facts, units[k], commits[start..end])
    ensures Tiles(facts, units[..k], commits[..start])
    ensures Tiles(facts, units[..k + 1], commits[..end])
    ensures k + 1 == |units| ==> end == |commits|
  {
    hide Covers;
    var last := |units| - 1;
    var cut := |commits| - |units[last].commits|;
    CoversSome(facts, units[last], commits[cut..]);
    if k == last {
      start, end := cut, |commits|;
      assert units[..k + 1] == units && commits[..end] == commits;
    } else {
      start, end := RunOf(facts, units[..last], commits[..cut], k);
      assert units[..last][..k] == units[..k] && units[..last][..k + 1] == units[..k + 1];
      assert commits[..cut][start..end] == commits[start..end];
      assert commits[..cut][..start] == commits[..start] && commits[..cut][..end] == commits[..end];
    }
  }

  /** Every commit of a unit with several commits has one pull request, the same for all of them. */
  lemma {:induction false} GroupedBySinglePr(facts: PrFacts, units: seq<Unit>, commits: seq<Commit>, k: nat)
    requires Tiles(facts, units, commits) && k < |units|
    ensures |units[k].commits| >= 1
    ensures |units[k].commits| > 1 ==>
              Key(units[k]) != "" && forall c | c in units[k].commits :: ExactPr(facts, c) == Key(units[k])
    ensures forall c | c in units[k].commits && |units[k].commits| > 1 ::
      StatusOf(facts, c) == units[k].status == Identified
  {
    var start, end := RunOf(facts, units, commits, k);
    var run := commits[start..end];
    forall c | c in units[k].commits && |units[k].commits| > 1 ensures ExactPr(facts, c) == Key(units[k]) {
      var i :| 0 <= i < |run| && run[i].id == c;
    }
  }

  /** Two commits each have one pull request, and it goes by the same name, which is not empty. */
  predicate SharePr(facts: PrFacts, left: Id, right: Id) {
    var a, b := Listed(facts.matches, left), Listed(facts.matches, right);
    && |a| == 1 && |b| == 1
    && var (m, n) := (a[0].id, b[0].id);
    && (if m.Text? then m.text else m.dump) == (if n.Text? then n.text else n.dump)
    && (if m.Text? then m.text else m.dump) != ""
  }

  lemma SharedKey(facts: PrFacts, left: Id, right: Id)
    ensures SharePr(facts, left, right) <==> ExactPr(facts, left) == ExactPr(facts, right) != ""
  {
  }

  /** A unit begins at the commit with the number. */
  ghost predicate BeginsUnit(units: seq<Unit>, n: nat) {
    exists k | 0 <= k < |units| :: Start(units, k) == n
  }

  /** How many commits are in the units before one. */
  function Start(units: seq<Unit>, k: nat): nat
    requires k <= |units|
  {
    if k == 0 then 0 else Start(units, k - 1) + |units[k - 1].commits|
  }

  lemma {:induction false} StartBefore(units: seq<Unit>, more: seq<Unit>, k: nat)
    requires k <= |units|
    ensures Start(units + more, k) == Start(units, k)
  {
    if k > 0 {
      StartBefore(units, more, k - 1);
      assert (units + more)[k - 1] == units[k - 1];
    }
  }

  lemma {:induction false} StartIs(facts: PrFacts, units: seq<Unit>, commits: seq<Commit>)
    requires Tiles(facts, units, commits)
    ensures Start(units, |units|) == |commits|
    decreases |units|
  {
    hide Covers;
    if units != [] {
      var last := |units| - 1;
      var cut := |commits| - |units[last].commits|;
      CoversSome(facts, units[last], commits[cut..]);
      StartIs(facts, units[..last], commits[..cut]);
      assert units == units[..last] + units[last..];
      StartBefore(units[..last], units[last..], last);
    }
  }

  lemma {:induction false} StartGrows(units: seq<Unit>, i: nat, j: nat)
    requires i <= j <= |units|
    ensures Start(units, i) <= Start(units, j)
  {
    if i < j {
      StartGrows(units, i, j - 1);
    }
  }

  /** A unit begins at a commit exactly when it does not share its only pull request with the commit before. */
  lemma UnitsBeginExactly(facts: PrFacts, units: seq<Unit>, commits: seq<Commit>, n: nat)
    requires Tiles(facts, units, commits) && Maximal(units) && 0 < n < |commits|
    ensures BeginsUnit(units, n) <==> !SharePr(facts, commits[n - 1].id, commits[n].id)
  {
    hide Tiles, Covers, Key, ExactPr, SharePr;
    SharedKey(facts, commits[n - 1].id, commits[n].id);
    StartIs(facts, units, commits);
    var k := UnitAt(units, |units|, n);
    var start, end := RunOf(facts, units, commits, k);
    RunStarts(facts, units, commits, k, start);
    CoversSome(facts, units[k], commits[start..end]);
    RunKey(facts, units[k], commits[start..end], n - start);
    if start == n {
      assert BeginsUnit(units, n);
      LastKey(facts, units[..k], commits[..start]);
      assert units[..k][k - 1] == units[k - 1] && commits[..start][n - 1] == commits[n - 1];
    } else {
      RunKey(facts, units[k], commits[start..end], n - 1 - start);
      if BeginsUnit(units, n) {
        var j :| 0 <= j < |units| && Start(units, j) == n;
        if j <= k {
          StartGrows(units, j, k);
        } else {
          StartGrows(units, k + 1, j);
        }
      }
    }
  }

  /** The unit among the first `m` that the commit with the number falls into. */
  lemma {:induction false} UnitAt(units: seq<Unit>, m: nat, n: nat) returns (k: nat)
    requires m <= |units| && n < Start(units, m)
    ensures k < m && Start(units, k) <= n < Start(units, k + 1)
  {
    if n >= Start(units, m - 1) {
      k := m - 1;
    } else {
      k := UnitAt(units, m - 1, n);
    }
  }

  lemma RunStarts(facts: PrFacts, units: seq<Unit>, commits: seq<Commit>, k: nat, start: nat)
    requires k <= |units| && start <= |commits| && Tiles(facts, units[..k], commits[..start])
    ensures Start(units, k) == start
  {
    StartIs(facts, units[..k], commits[..start]);
    assert units == units[..k] + units[k..];
    StartBefore(units[..k], units[k..], k);
  }

  predicate FirstParentChain(commits: seq<Commit>) {
    forall i | 0 <= i < |commits| - 1 :: commits[i + 1].parent == commits[i].id
  }

  /** On a first-parent chain every unit starts from the head of the one before. */
  lemma {:induction false} BasesChain(facts: PrFacts, units: seq<Unit>, commits: seq<Commit>, k: nat)
    requires Tiles(facts, units, commits) && FirstParentChain(commits) && k + 1 < |units|
    ensures units[k + 1].base == units[k].last.id
  {
    hide Tiles, StatusOf, Key, SamePr;
    var start, end := RunOf(facts, units, commits, k + 1);
    assert units[..k + 1][k] == units[k] && |units[..k + 1]| == k + 1;
    var first, start' := RunOf(facts, units[..k + 1], commits[..start], k);
    assert commits[..start][first..start'][start' - first - 1] == commits[start - 1];
    assert commits[start..end][0] == commits[start];
  }

  /** The pull request of a unit is the one of the last commit it covers. */
  lemma LastKey(facts: PrFacts, units: seq<Unit>, commits: seq<Commit>)
    requires Tiles(facts, units, commits) && units != []
    ensures commits != [] && ExactPr(facts, commits[|commits| - 1].id) == Key(units[|units| - 1])
  {
    hide Covers;
    var u := units[|units| - 1];
    var cut := |commits| - |u.commits|;
    var run := commits[cut..];
    CoversSome(facts, u, run);
    RunKey(facts, u, run, |run| - 1);
    assert run[|run| - 1] == commits[|commits| - 1];
  }

  /** When one tiling ends in a shorter unit than another, its last two units share a pull request. */
  lemma ShorterIsNotMaximal(facts: PrFacts, us: seq<Unit>, vs: seq<Unit>, commits: seq<Commit>)
    requires Tiles(facts, us, commits) && Tiles(facts, vs, commits) && us != [] && vs != []
    requires |us[|us| - 1].commits| < |vs[|vs| - 1].commits|
    ensures |us| >= 2 && Key(us[|us| - 2]) == Key(us[|us| - 1]) != ""
  {
    hide Covers, ExactPr, Key;
    var u, v := us[|us| - 1], vs[|vs| - 1];
    var cut, cut' := |commits| - |u.commits|, |commits| - |v.commits|;
    var before, run := us[..|us| - 1], commits[cut'..];
    assert Tiles(facts, before, commits[..cut]);
    CoversSome(facts, u, commits[cut..]);
    LastKey(facts, before, commits[..cut]);
    assert before[|before| - 1] == us[|us| - 2];
    LastKey(facts, us, commits);
    RunKey(facts, v, run, cut - 1 - cut');
    RunKey(facts, v, run, |run| - 1);
    assert run[cut - 1 - cut'] == commits[..cut][cut - 1] && run[|run| - 1] == commits[|commits| - 1];
  }

  lemma LastUnitsAgree(facts: PrFacts, us: seq<Unit>, vs: seq<Unit>, commits: seq<Commit>)
    requires Tiles(facts, us, commits) && Tiles(facts, vs, commits) && us != [] && vs != []
    requires Maximal(us) && Maximal(vs)
    ensures |us[|us| - 1].commits| == |vs[|vs| - 1].commits|
  {
    hide Tiles;
    if |us[|us| - 1].commits| < |vs[|vs| - 1].commits| {
      ShorterIsNotMaximal(facts, us, vs, commits);
    } else if |vs[|vs| - 1].commits| < |us[|us| - 1].commits| {
      ShorterIsNotMaximal(facts, vs, us, commits);
    }
  }

  lemma OneUnitPerRun(facts: PrFacts, u: Unit, v: Unit, run: seq<Commit>)
    requires Covers(facts, u, run) && Covers(facts, v, run) && u.sequence == v.sequence
    ensures u == v
  {
  }

  lemma HeadIsLast(facts: PrFacts, units: seq<Unit>, commits: seq<Commit>)
    requires Tiles(facts, units, commits)
    ensures units == [] <==> commits == []
    ensures units != [] ==> units[|units| - 1].last == commits[|commits| - 1]
  {
    if units != [] {
      var cut := |commits| - |units[|units| - 1].commits|;
      assert commits[cut..][|commits| - cut - 1] == commits[|commits| - 1];
    }
  }

  /** The history and the pull requests leave only one way to group. */
  lemma {:induction false} GroupingIsUnique(facts: PrFacts, us: seq<Unit>, vs: seq<Unit>, commits: seq<Commit>)
    requires Tiles(facts, us, commits) && Maximal(us) && Numbered(us)
    requires Tiles(facts, vs, commits) && Maximal(vs) && Numbered(vs)
    ensures us == vs
    decreases |us|
  {
    hide Tiles, Covers, Key;
    HeadIsLast(facts, us, commits);
    HeadIsLast(facts, vs, commits);
    if us != [] {
      LastUnitsAgree(facts, us, vs, commits);
      var us', u, before, run := TilesSplit(facts, us, commits);
      var vs', v, before', run' := TilesSplit(facts, vs, commits);
      assert before == commits[..|commits| - |run|] && before' == commits[..|commits| - |run'|];
      assert run == commits[|commits| - |run|..] && run' == commits[|commits| - |run'|..];
      MaximalRest(us', u);
      MaximalRest(vs', v);
      GroupingIsUnique(facts, us', vs', before);
      OneUnitPerRun(facts, u, v, run);
    }
  }

  lemma MaximalRest(units: seq<Unit>, u: Unit)
    requires Maximal(units + [u]) && Numbered(units + [u])
    ensures Maximal(units) && Numbered(units) && u.sequence == |units|
  {
    hide Key;
    var more := units + [u];
    assert more[|units|] == u;
    forall i | 0 <= i < |units| ensures units[i] == more[i] {
    }
  }

  // ---------------------------------------------------------------- counting

  function CountStatus(facts: PrFacts, commits: seq<Commit>, status: Status): nat {
    if commits == [] then 0
    else CountStatus(facts, commits[..|commits| - 1], status)
         + if StatusOf(facts, commits[|commits| - 1].id) == status then 1 else 0
  }

  datatype Counters = Counters(identified: nat, compound: nat, ambiguous: nat, noPr: nat, unknown: nat)

  predicate CountsStatuses(facts: PrFacts, commits: seq<Commit>, n: Counters) {
    && n.identified == CountStatus(facts, commits, Identified)
    && n.compound == CountStatus(facts, commits, Compound)
    && n.ambiguous == CountStatus(facts, commits, Ambiguous)
    && n.noPr == CountStatus(facts, commits, ConfirmedNoPr)
    && n.unknown == CountStatus(facts, commits, Unknown)
  }

  /** Every commit is counted once. */
  lemma {:induction false} CountersSum(facts: PrFacts, commits: seq<Commit>, n: Counters)
    requires CountsStatuses(facts, commits, n)
    ensures n.identified + n.compound + n.ambiguous + n.noPr + n.unknown == |commits|
  {
    if commits != [] {
      var rest := commits[..|commits| - 1];
      CountersSum(facts, rest, Counters(CountStatus(facts, rest, Identified), CountStatus(facts, rest, Compound),
        CountStatus(facts, rest, Ambiguous), CountStatus(facts, rest, ConfirmedNoPr),
        CountStatus(facts, rest, Unknown)));
    }
  }

  // ---------------------------------------------------------------- the plan writer

  lemma CoversExtend(facts: PrFacts, u: Unit, run: seq<Commit>, c: Commit)
    requires Covers(facts, u, run) && ExactPr(facts, c.id) == Key(u) != ""
    ensures Covers(facts, u.(commits := u.commits + [c.id], last := c), run + [c])
  {
    var u' := u.(commits := u.commits + [c.id], last := c);
    assert Ids(run + [c]) == Ids(run) + [c.id];
    assert Key(u') == Key(u);
    forall i | 0 <= i < |run| ensures ExactPr(facts, run[i].id) == Key(u) {
      RunKey(facts, u, run, i);
    }
  }

  lemma TilesExtend(facts: PrFacts, units: seq<Unit>, commits: seq<Commit>, u: Unit, c: Commit)
    requires Tiles(facts, units + [u], commits)
    requires ExactPr(facts, c.id) == Key(u) != ""
    ensures Tiles(facts, units + [u.(commits := u.commits + [c.id], last := c)], commits + [c])
  {
    hide Tiles, Covers, ExactPr, Key;
    var rest, u', before, run := TilesSplit(facts, units + [u], commits);
    assert rest == units && u' == u by {
      assert (rest + [u'])[..|rest|] == rest && (units + [u])[..|units|] == units;
      assert (rest + [u'])[|rest|] == u' && (units + [u])[|units|] == u;
    }
    CoversExtend(facts, u, run, c);
    TilesAppend(facts, units, before, u.(commits := u.commits + [c.id], last := c), run + [c]);
    assert before + (run + [c]) == commits + [c];
  }

  predicate Grouped(facts: PrFacts, units: seq<Unit>, commits: seq<Commit>) {
    Tiles(facts, units, commits) && Maximal(units)
  }

  /** A commit with the pull request of the last unit joins it. */
  lemma ExtendLast(facts: PrFacts, units: seq<Unit>, commits: seq<Commit>, u: Unit, c: Commit) returns (u': Unit)
    requires Grouped(facts, units + [u], commits) && ExactPr(facts, c.id) == Key(u) != ""
    ensures u' == u.(commits := u.commits + [c.id], last := c) && Key(u') == Key(u)
    ensures Grouped(facts, units + [u'], commits + [c])
  {
    hide Tiles;
    u' := u.(commits := u.commits + [c.id], last := c);
    TilesExtend(facts, units, commits, u, c);
    assert forall i | 0 <= i < |units| + 1 :: Key((units + [u'])[i]) == Key((units + [u])[i]);
  }

  function Opened(facts: PrFacts, c: Commit): Unit {
    Unit(0, c.parent, [c.id], c, StatusOf(facts, c.id), Listed(facts.matches, c.id))
  }

  lemma OpenedCovers(facts: PrFacts, c: Commit)
    ensures Covers(facts, Opened(facts, c), [c]) && Key(Opened(facts, c)) == ExactPr(facts, c.id)
    ensures Opened(facts, c).commits == [c.id]
  {
    assert Ids([c]) == [c.id];
  }

  lemma MaximalOneMore(units: seq<Unit>, u: Unit)
    requires Maximal(units)
    requires units != [] && Key(units[|units| - 1]) == Key(u) ==> Key(u) == ""
    ensures Maximal(units + [u])
  {
    hide Key;
    var more := units + [u];
    forall i | 0 <= i < |more| - 1 && Key(more[i]) == Key(more[i + 1]) ensures Key(more[i]) == "" {
      assert more[i] == units[i];
    }
  }

  /** Any other commit opens a unit of its own. */
  lemma OpenUnit(facts: PrFacts, units: seq<Unit>, commits: seq<Commit>, c: Commit)
    requires Grouped(facts, units, commits)
    requires units != [] && Key(units[|units| - 1]) == ExactPr(facts, c.id) ==> ExactPr(facts, c.id) == ""
    ensures Grouped(facts, units + [Opened(facts, c)], commits + [c])
    ensures Key(Opened(facts, c)) == ExactPr(facts, c.id)
  {
    hide Tiles, Maximal, Covers, Key, ExactPr, Opened;
    var u := Opened(facts, c);
    OpenedCovers(facts, c);
    TilesAppend(facts, units, commits, u, [c]);
    MaximalOneMore(units, u);
  }

  /** The sequence number of a unit plays no part. */
  lemma Renumber(facts: PrFacts, units: seq<Unit>, commits: seq<Commit>, u: Unit, sequence: nat)
    requires Grouped(facts, units + [u], commits)
    ensures Grouped(facts, units + [u.(sequence := sequence)], commits)
  {
    var u' := u.(sequence := sequence);
    assert (units + [u])[..|units|] == units && (units + [u'])[..|units|] == units;
    assert forall i | 0 <= i < |units| + 1 :: Key((units + [u'])[i]) == Key((units + [u])[i]);
  }

  class PlanWriter {
    const facts: PrFacts
    var units: seq<Unit>
    var pending: Option<Unit>
    var pendingPr: string
    var counters: Counters
    ghost var consumed: seq<Commit>

    /** The units written and the one still open. */
    ghost function All(): seq<Unit>
      reads this
    {
      if pending.Some? then units + [pending.value] else units
    }

    ghost predicate Consistent()
      reads this
    {
      && Grouped(facts, All(), consumed) && Numbered(units)
      && (if pending.Some? then pendingPr == Key(pending.value) else pendingPr == "" && units == [])
    }

    ghost predicate Valid()
      reads this
    {
      Consistent() && CountsStatuses(facts, consumed, counters)
    }

    constructor (facts: PrFacts)
      ensures Valid() && this.facts == facts && consumed == []
    {
      this.facts := facts;
      units, pending, pendingPr := [], None, "";
      counters := Counters(0, 0, 0, 0, 0);
      consumed := [];
    }

    /** Writes the open unit under the next sequence number. */
    method Flush()
      requires Consistent()
      modifies this
      ensures consumed == old(consumed) && counters == old(counters)
      ensures pending.None? && pendingPr == ""
      ensures Grouped(facts, units, consumed) && Numbered(units)
      ensures |units| == |old(All())| && (units != [] ==> Key(units[|units| - 1]) == old(pendingPr))
    {
      hide Grouped;
      if pending.Some? {
        Renumber(facts, units, consumed, pending.value, |units|);
        units := units + [pending.value.(sequence := |units|)];
        pending, pendingPr := None, "";
      }
    }

    /** Counts a commit under its status; a confirmed no_pr is looked at before the matches. */
    method Count(ghost commits: seq<Commit>, commit: Commit)
      requires Disjoint(facts) && forall c | c in facts.matches :: facts.matches[c] != []
      requires CountsStatuses(facts, commits, counters)
      modifies this`counters
      ensures CountsStatuses(facts, commits + [commit], counters)
    {
      var matches := Listed(facts.matches, commit.id);
      var compound := |matches| > 1 && forall m | m in matches :: m.kind == "compound";
      assert (commits + [commit])[..|commits|] == commits;
      if commit.id in facts.noPr {
        counters := counters.(noPr := counters.noPr + 1);
      } else if matches == [] {
        counters := counters.(unknown := counters.unknown + 1);
      } else if |matches| == 1 {
        counters := counters.(identified := counters.identified + 1);
      } else if compound {
        counters := counters.(compound := counters.compound + 1);
      } else {
        counters := counters.(ambiguous := counters.ambiguous + 1);
      }
    }

    /** One commit of the history: it joins the open unit or opens the next. */
    method Consume(commit: Commit)
      requires Valid() && Disjoint(facts) && forall c | c in facts.matches :: facts.matches[c] != []
      modifies this
      ensures Valid() && consumed == old(consumed) + [commit]
    {
      hide Grouped, CountsStatuses, StatusOf, ExactPr, Key, Disjoint;
      Count(consumed, commit);
      var exactPr := ExactPr(facts, commit.id);
      if pending.Some? && exactPr != "" && pendingPr == exactPr {
        var u := pending.value;
        ghost var u' := ExtendLast(facts, units, consumed, u, commit);
        pending := Some(u.(commits := u.commits + [commit.id], last := commit));
      } else {
        Flush();
        OpenUnit(facts, units, consumed, commit);
        pending := Some(Unit(0, commit.parent, [commit.id], commit, StatusOf(facts, commit.id),
                             Listed(facts.matches, commit.id)));
        pendingPr := exactPr;
      }
      consumed := consumed + [commit];
    }
  }

  /** The plan of a history: its only maximal grouping, numbered, with every commit counted by its status. */
  method WriteHistoryPlan(commits: seq<Commit>, facts: PrFacts)
    returns (units: seq<Unit>, counters: Counters, resolvedHead: Option<Id>)
    requires Disjoint(facts) && forall c | c in facts.matches :: facts.matches[c] != []
    ensures Tiles(facts, units, commits) && Maximal(units) && Numbered(units)
    ensures CountsStatuses(facts, commits, counters)
    ensures resolvedHead == if units == [] then None else Some(units[|units| - 1].last.id)
  {
    hide Tiles, CountsStatuses, PlanWriter.Consistent, Disjoint;
    var writer := new PlanWriter(facts);
    resolvedHead := None;
    for i := 0 to |commits|
      invariant fresh(writer) && writer.Valid() && writer.facts == facts
      invariant writer.consumed == commits[..i]
      invariant resolvedHead == if i == 0 then None else Some(commits[i - 1].id)
    {
      resolvedHead := Some(commits[i].id);
      writer.Consume(commits[i]);
      assert commits[..i + 1] == commits[..i] + [commits[i]];
    }
    assert commits[..|commits|] == commits;
    writer.Flush();
    units, counters := writer.units, writer.counters;
    HeadIsLast(facts, units, commits);
  }

  lemma ListedIsNonempty(facts: PrFacts, lines: seq<Line>)
    requires Faithful(facts, lines)
    ensures forall c | c in facts.matches :: facts.matches[c] != []
  {
    forall c | c in facts.matches ensures facts.matches[c] != [] {
      assert Listed(facts.matches, c) == MatchesOf(lines, c);
    }
  }

  /** From the facts file to the plan: the grouping answers to the lines, or the file is rejected. */
  method PlanFromFacts(lines: seq<Line>, commits: seq<Commit>)
    returns (facts: Outcome<PrFacts>, units: seq<Unit>, counters: Counters)
    ensures facts.Rejected? ==> Blames(lines, facts.failure) && units == []
    ensures facts.Read? ==>
      && Faithful(facts.value, lines)
      && Tiles(facts.value, units, commits) && Maximal(units) && Numbered(units)
      && CountsStatuses(facts.value, commits, counters)
      && counters.identified + counters.compound + counters.ambiguous + counters.noPr + counters.unknown == |commits|
  {
    hide Tiles, Faithful, CountsStatuses, Blames, Maximal, Numbered;
    facts := ReadPrFacts(lines);
    units, counters := [], Counters(0, 0, 0, 0, 0);
    if facts.Read? {
      ListedIsNonempty(facts.value, lines);
      var head;
      units, counters, head := WriteHistoryPlan(commits, facts.value);
      CountersSum(facts.value, commits, counters);
    }
  }
}
