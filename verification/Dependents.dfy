/** The reverse-dependency worklist over the dependency table of one revision. */
module Dependents {
  import opened Sums

  type Id = string

  /** A row of element_dependencies: `source` depends on `target` in a context. */
  datatype Edge = Edge(source: Id, target: Id, context: string, manifest: string)

  /** The rows with a target, each once.  The table is listed in the order the query returns rows. */
  function RowsOf(table: seq<Edge>, target: Id): (rows: seq<Edge>)
    ensures forall e :: e in rows <==> e in table && e.target == target
    ensures forall i, j | 0 <= i < j < |rows| :: rows[i] != rows[j]
  {
    if table == [] then []
    else
      var before := RowsOf(table[..|table| - 1], target);
      var e := table[|table| - 1];
      if e.target == target && e !in before then before + [e] else before
  }

  // ---------------------------------------------------------------- what should be reported

  /** `id` is a seed, or depends on one through `n` edges. */
  ghost predicate DependsBy(table: seq<Edge>, seeds: set<Id>, id: Id, n: nat)
    decreases n
  {
    if n == 0 then id in seeds
    else exists e :: e in table && e.source == id && DependsBy(table, seeds, e.target, n - 1)
  }

  ghost predicate Depends(table: seq<Edge>, seeds: set<Id>, id: Id) {
    exists n: nat :: DependsBy(table, seeds, id, n)
  }

  /** The edges whose target is a seed or transitively depends on one. */
  ghost function Impact(table: seq<Edge>, seeds: set<Id>): set<Edge> {
    set e | e in table && Depends(table, seeds, e.target)
  }

  lemma SourceDepends(table: seq<Edge>, seeds: set<Id>, e: Edge)
    requires e in table && Depends(table, seeds, e.target)
    ensures Depends(table, seeds, e.source)
  {
    var n: nat :| DependsBy(table, seeds, e.target, n);
    assert DependsBy(table, seeds, e.source, n + 1);
  }

  /** A set that holds the seeds and the sources of all edges into it holds every dependent. */
  lemma {:induction false} ClosedHoldsDependents(table: seq<Edge>, seeds: set<Id>, closed: set<Id>, id: Id, n: nat)
    requires seeds <= closed
    requires forall e | e in table && e.target in closed :: e.source in closed
    requires DependsBy(table, seeds, id, n)
    ensures id in closed
    decreases n
  {
    if n > 0 {
      var e :| e in table && e.source == id && DependsBy(table, seeds, e.target, n - 1);
      ClosedHoldsDependents(table, seeds, closed, e.target, n - 1);
    }
  }

  // ---------------------------------------------------------------- the worklist

  predicate Once(rows: seq<Edge>) {
    forall i, j | 0 <= i < j < |rows| :: rows[i] != rows[j]
  }

  /** The rows of every expanded target are reported, and their sources are expanded or waiting. */
  ghost predicate Expanded(table: seq<Edge>, expanded: set<Id>, frontier: seq<Id>, rows: seq<Edge>) {
    forall e | e in table && e.target in expanded :: e in rows && (e.source in expanded || e.source in frontier)
  }

  /** Only dependents are reached, and only their edges are reported. */
  ghost predicate Sound(table: seq<Edge>, seeds: set<Id>, expanded: set<Id>, frontier: seq<Id>, rows: seq<Edge>) {
    && (forall id | id in expanded || id in frontier :: Depends(table, seeds, id))
    && (forall e | e in rows :: e in Impact(table, seeds) && e.target in expanded)
    && Once(rows)
  }

  function SetOf<T>(s: seq<T>): set<T> {
    set x | x in s
  }

  lemma {:induction false} OnceCounts(rows: seq<Edge>)
    requires Once(rows)
    ensures |SetOf(rows)| == |rows|
  {
    if rows != [] {
      var rest, last := rows[..|rows| - 1], rows[|rows| - 1];
      OnceCounts(rest);
      assert rows == rest + [last];
      assert last !in rest;
      assert SetOf(rows) == SetOf(rest) + {last};
    }
  }

  lemma ExhaustedIsComplete(table: seq<Edge>, seeds: set<Id>, expanded: set<Id>, rows: seq<Edge>)
    requires seeds <= expanded
    requires Expanded(table, expanded, [], rows) && Sound(table, seeds, expanded, [], rows)
    ensures SetOf(rows) == Impact(table, seeds)
  {
    forall e | e in Impact(table, seeds) ensures e in rows {
      var n: nat :| DependsBy(table, seeds, e.target, n);
      ClosedHoldsDependents(table, seeds, expanded, e.target, n);
    }
  }

  /** The limit is looked at after a row has been added, so even a maximum of 0 lets one row through. */
  function Limit(maximum: nat): nat {
    if maximum == 0 then 1 else maximum
  }

  /** A finite set that holds every id the worklist can meet. */
  ghost predicate Bounds(universe: set<Id>, table: seq<Edge>, expanded: set<Id>, frontier: seq<Id>) {
    && (forall e | e in table :: e.source in universe)
    && expanded <= universe
    && (forall id | id in frontier :: id in universe)
  }

  /** What holds between two targets of the worklist. */
  ghost predicate Between(table: seq<Edge>, seeds: set<Id>, universe: set<Id>, maximum: nat,
                          expanded: set<Id>, frontier: seq<Id>, rows: seq<Edge>, truncated: bool) {
    && Sound(table, seeds, expanded, frontier, rows)
    && Bounds(universe, table, expanded, frontier)
    && (truncated ==> |rows| == Limit(maximum))
    && (!truncated ==>
          && |rows| < Limit(maximum)
          && Expanded(table, expanded, frontier, rows)
          && forall id | id in seeds :: id in expanded || id in frontier)
  }

  /** The rows of one target, up to the limit. */
  method Expand(table: seq<Edge>, ghost seeds: set<Id>, ghost universe: set<Id>, target: Id, maximum: nat,
                ghost before: set<Id>, expanded: set<Id>, frontier: seq<Id>, rows: seq<Edge>)
    returns (frontier': seq<Id>, rows': seq<Edge>, truncated: bool)
    requires target !in before && expanded == before + {target}
    requires Between(table, seeds, universe, maximum, before, frontier + [target], rows, false)
    ensures Between(table, seeds, universe, maximum, expanded, frontier', rows', truncated)
  {
    hide Depends;
    frontier', rows', truncated := frontier, rows, false;
    var emitted := SetOf(rows);
    var selected := RowsOf(table, target);
    assert target in frontier + [target];
    for i := 0 to |selected|
      invariant emitted == SetOf(rows') && |rows'| < Limit(maximum)
      invariant Sound(table, seeds, expanded, frontier', rows')
      invariant Bounds(universe, table, expanded, frontier')
      invariant forall id | id in frontier :: id in frontier'
      invariant forall e | e in rows :: e in rows'
      invariant forall e | e in selected[..i] :: e in rows' && (e.source in expanded || e.source in frontier')
    {
      var e := selected[i];
      assert e in selected;
      SourceDepends(table, seeds, e);
      assert selected[..i + 1] == selected[..i] + [e];
      if e !in emitted {
        emitted := emitted + {e};
        rows' := rows' + [e];
      }
      if e.source !in expanded {
        frontier' := frontier' + [e.source];
      }
      if |rows'| >= maximum {
        truncated := true;
        return;
      }
    }
    assert selected[..|selected|] == selected;
    forall id | id in seeds ensures id in expanded || id in frontier' {
      assert id in before || id in frontier + [target];
    }
  }

  lemma Start(table: seq<Edge>, elementIds: seq<Id>, maximum: nat) returns (universe: set<Id>)
    ensures Between(table, SetOf(elementIds), universe, maximum, {}, elementIds, [], false)
  {
    universe := SetOf(elementIds) + set e | e in table :: e.source;
    forall id | id in elementIds ensures Depends(table, SetOf(elementIds), id) {
      assert DependsBy(table, SetOf(elementIds), id, 0);
    }
  }

  /** Dropping a waiting target that was expanded before changes nothing. */
  lemma PopExpanded(table: seq<Edge>, seeds: set<Id>, universe: set<Id>, maximum: nat,
                    expanded: set<Id>, frontier: seq<Id>, target: Id, rows: seq<Edge>)
    requires target in expanded && Between(table, seeds, universe, maximum, expanded, frontier + [target], rows, false)
    ensures Between(table, seeds, universe, maximum, expanded, frontier, rows, false)
  {
    var waiting := frontier + [target];
    forall id | id in frontier ensures Depends(table, seeds, id) && id in universe {
      assert id in waiting;
    }
    forall e | e in table && e.target in expanded ensures e.source in expanded || e.source in frontier {
      assert e.source in expanded || e.source in waiting;
    }
    forall id | id in seeds ensures id in expanded || id in frontier {
      assert id in expanded || id in waiting;
    }
  }

  lemma ImpactIsFound(table: seq<Edge>, seeds: set<Id>, universe: set<Id>, maximum: nat,
                      expanded: set<Id>, frontier: seq<Id>, rows: seq<Edge>, truncated: bool)
    requires Between(table, seeds, universe, maximum, expanded, frontier, rows, truncated)
    requires frontier == [] || truncated
    ensures Once(rows) && SetOf(rows) <= Impact(table, seeds)
    ensures !truncated ==> SetOf(rows) == Impact(table, seeds)
    ensures truncated <==> |Impact(table, seeds)| >= Limit(maximum)
    ensures if truncated then |rows| == Limit(maximum) else |rows| < Limit(maximum)
  {
    OnceCounts(rows);
    SubsetSize(SetOf(rows), Impact(table, seeds));
    if !truncated {
      ExhaustedIsComplete(table, seeds, expanded, rows);
    }
  }

  /** Takes the last waiting target and expands it unless that was done before. */
  method Next(table: seq<Edge>, ghost seeds: set<Id>, ghost universe: set<Id>, maximum: nat,
              expanded: set<Id>, frontier: seq<Id>, rows: seq<Edge>)
    returns (expanded': set<Id>, frontier': seq<Id>, rows': seq<Edge>, truncated: bool)
    requires frontier != [] && Between(table, seeds, universe, maximum, expanded, frontier, rows, false)
    ensures Between(table, seeds, universe, maximum, expanded', frontier', rows', truncated)
    ensures |universe - expanded'| < |universe - expanded| || (expanded == expanded' && |frontier'| < |frontier|)
  {
    var target := frontier[|frontier| - 1];
    frontier' := frontier[..|frontier| - 1];
    assert frontier == frontier' + [target];
    if target in expanded {
      PopExpanded(table, seeds, universe, maximum, expanded, frontier', target, rows);
      expanded', rows', truncated := expanded, rows, false;
    } else {
      expanded' := expanded + {target};
      frontier', rows', truncated := Expand(table, seeds, universe, target, maximum, expanded, expanded', frontier',
        rows);
      FewerRemain(universe, expanded, expanded');
    }
  }

  /**
   * The rows are edges of the impact of the seeds, each once; all of them unless the answer says it is
   * truncated, which it says exactly when the impact reaches the limit.
   */
  method SemanticDependents(table: seq<Edge>, elementIds: seq<Id>, maximum: nat)
    returns (rows: seq<Edge>, truncated: bool)
    ensures Once(rows) && SetOf(rows) <= Impact(table, SetOf(elementIds))
    ensures !truncated ==> SetOf(rows) == Impact(table, SetOf(elementIds))
    ensures var limit := if maximum == 0 then 1 else maximum;
      && (truncated <==> |Impact(table, SetOf(elementIds))| >= limit)
      && (if truncated then |rows| == limit else |rows| < limit)
  {
    ghost var seeds := SetOf(elementIds);
    var expanded: set<Id> := {};
    var frontier := elementIds;
    rows, truncated := [], false;
    ghost var universe := Start(table, elementIds, maximum);
    while frontier != [] && !truncated
      invariant Between(table, seeds, universe, maximum, expanded, frontier, rows, truncated)
      decreases |universe - expanded|, |frontier|, !truncated
    {
      expanded, frontier, rows, truncated := Next(table, seeds, universe, maximum, expanded, frontier, rows);
    }
    ImpactIsFound(table, seeds, universe, maximum, expanded, frontier, rows, truncated);
  }
}
