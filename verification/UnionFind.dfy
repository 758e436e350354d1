/** The union-find over element identities that the history statistics are grouped by. */
module UnionFind {
  import opened Ordering

  type Forest = map<string, string>
  type Edge = (string, string)

  // ---------------------------------------------------------------- connectivity

  predicate Linked(edges: set<Edge>, a: string, b: string) {
    (a, b) in edges || (b, a) in edges
  }

  predicate IsPath(edges: set<Edge>, p: seq<string>) {
    p != [] && forall i | 0 <= i < |p| - 1 :: Linked(edges, p[i], p[i + 1])
  }

  predicate Joins(p: seq<string>, a: string, b: string)
    requires p != []
  {
    p[0] == a && p[|p| - 1] == b
  }

  ghost predicate Connected(edges: set<Edge>, a: string, b: string) {
    exists p: seq<string> :: IsPath(edges, p) && Joins(p, a, b)
  }

  lemma ConnectedSelf(edges: set<Edge>, a: string)
    ensures Connected(edges, a, a)
  {
    assert IsPath(edges, [a]) && Joins([a], a, a);
  }

  lemma ConnectedByEdge(edges: set<Edge>, a: string, b: string)
    requires Linked(edges, a, b)
    ensures Connected(edges, a, b)
  {
    assert IsPath(edges, [a, b]) && Joins([a, b], a, b);
  }

  lemma ConnectedSymmetric(edges: set<Edge>, a: string, b: string)
    requires Connected(edges, a, b)
    ensures Connected(edges, b, a)
  {
    var p :| IsPath(edges, p) && Joins(p, a, b);
    var q := seq(|p|, i requires 0 <= i < |p| => p[|p| - 1 - i]);
    forall i | 0 <= i < |q| - 1
      ensures Linked(edges, q[i], q[i + 1])
    {
      assert Linked(edges, p[|p| - 2 - i], p[|p| - 2 - i + 1]);
    }
    assert IsPath(edges, q) && Joins(q, b, a);
  }

  lemma ConnectedTransitive(edges: set<Edge>, a: string, b: string, c: string)
    requires Connected(edges, a, b) && Connected(edges, b, c)
    ensures Connected(edges, a, c)
  {
    var p :| IsPath(edges, p) && Joins(p, a, b);
    var q :| IsPath(edges, q) && Joins(q, b, c);
    var r := p + q[1..];
    forall i | 0 <= i < |r| - 1
      ensures Linked(edges, r[i], r[i + 1])
    {
      if i >= |p| - 1 {
        assert Linked(edges, q[i - |p| + 1], q[i - |p| + 1 + 1]);
      }
    }
    assert IsPath(edges, r) && Joins(r, a, c);
  }

  lemma ConnectedGrows(edges: set<Edge>, more: set<Edge>, a: string, b: string)
    requires edges <= more && Connected(edges, a, b)
    ensures Connected(more, a, b)
  {
    var p :| IsPath(edges, p) && Joins(p, a, b);
    assert IsPath(more, p);
  }

  // ---------------------------------------------------------------- forests

  predicate LinkDescends(parent: Forest, x: string) {
    x in parent ==> parent[x] in parent && (parent[x] == x || Less(parent[x], x))
  }

  /** A parent is never above its child, and only roots are their own parent. */
  ghost predicate Descending(parent: Forest) {
    forall x :: LinkDescends(parent, x)
  }

  ghost function Below(parent: Forest, x: string): set<string> {
    set k | k in parent && Less(k, x)
  }

  lemma BelowShrinks(parent: Forest, x: string, y: string)
    requires x in parent && Less(x, y)
    ensures Below(parent, x) < Below(parent, y)
  {
    LessIrreflexive(x);
    forall k | k in Below(parent, x)
      ensures k in Below(parent, y)
    {
      LessTransitive(k, x, y);
    }
    assert x in Below(parent, y) && x !in Below(parent, x);
  }

  ghost function Root(parent: Forest, x: string): string
    requires Descending(parent) && x in parent
    decreases Below(parent, x)
  {
    assert LinkDescends(parent, x);
    if parent[x] == x then x
    else
      BelowShrinks(parent, parent[x], x);
      Root(parent, parent[x])
  }

  /** Following parents ends at a root that is not above the start. */
  lemma {:induction false} RootIsLowest(parent: Forest, x: string)
    requires Descending(parent) && x in parent
    ensures Root(parent, x) in parent && parent[Root(parent, x)] == Root(parent, x)
    ensures Root(parent, x) == x || Less(Root(parent, x), x)
    decreases Below(parent, x)
  {
    assert LinkDescends(parent, x);
    if parent[x] != x {
      BelowShrinks(parent, parent[x], x);
      RootIsLowest(parent, parent[x]);
      if Root(parent, parent[x]) != parent[x] {
        LessTransitive(Root(parent, parent[x]), parent[x], x);
      }
    }
  }

  /** Path compression changes no root. */
  lemma {:induction false} CompressKeepsRoots(parent: Forest, at: string, x: string)
    requires Descending(parent) && at in parent && x in parent
    ensures Descending(parent[at := Root(parent, at)])
    ensures Root(parent[at := Root(parent, at)], x) == Root(parent, x)
    decreases Below(parent, x)
  {
    RootIsLowest(parent, at);
    var parent' := parent[at := Root(parent, at)];
    forall y ensures LinkDescends(parent', y) {
      assert LinkDescends(parent, y);
    }
    assert Below(parent', x) == Below(parent, x);
    assert LinkDescends(parent, x);
    if parent[x] != x {
      BelowShrinks(parent, parent[x], x);
      CompressKeepsRoots(parent, at, parent[x]);
      if x == at {
        assert Root(parent', Root(parent, at)) == Root(parent, at);
      }
    }
  }

  /** Hanging one root below another moves its whole tree and nothing else. */
  lemma {:induction false} LinkMovesTree(parent: Forest, low: string, high: string, x: string)
    requires Descending(parent) && low in parent && high in parent && x in parent
    requires parent[low] == low && parent[high] == high && Less(low, high)
    ensures Descending(parent[high := low])
    ensures Root(parent[high := low], x) == if Root(parent, x) == high then low else Root(parent, x)
    decreases Below(parent, x)
  {
    LessIrreflexive(low);
    var parent' := parent[high := low];
    forall y ensures LinkDescends(parent', y) {
      assert LinkDescends(parent, y);
    }
    assert Below(parent', x) == Below(parent, x);
    assert LinkDescends(parent, x);
    if parent[x] != x {
      BelowShrinks(parent, parent[x], x);
      LinkMovesTree(parent, low, high, parent[x]);
    }
  }

  lemma AddDescends(parent: Forest, id: string)
    requires Descending(parent) && id !in parent
    ensures Descending(parent[id := id])
  {
    var parent' := parent[id := id];
    forall y ensures LinkDescends(parent', y) {
      assert LinkDescends(parent, y);
    }
  }

  /** A new identity is its own root. */
  lemma {:induction false} AddKeepsRoots(parent: Forest, id: string, x: string)
    requires Descending(parent) && id !in parent && x in parent
    ensures Descending(parent[id := id]) && Root(parent[id := id], x) == Root(parent, x)
    decreases Below(parent, x)
  {
    AddDescends(parent, id);
    assert LinkDescends(parent, x);
    if parent[x] != x {
      BelowShrinks(parent, parent[x], x);
      AddKeepsRoots(parent, id, parent[x]);
    }
  }

  // ---------------------------------------------------------------- what the forest means

  /** The forest holds the connectivity of `edges`: each edge has one root, and each link of
      the forest is connected. */
  ghost predicate Represents(parent: Forest, edges: set<Edge>) {
    && Descending(parent)
    && (forall e <- edges :: e.0 in parent && e.1 in parent && Root(parent, e.0) == Root(parent, e.1))
    && (forall x <- parent :: Connected(edges, x, parent[x]))
  }

  lemma {:induction false} ConnectedToRoot(parent: Forest, edges: set<Edge>, x: string)
    requires Represents(parent, edges) && x in parent
    ensures Connected(edges, x, Root(parent, x))
    decreases Below(parent, x)
  {
    assert LinkDescends(parent, x);
    if parent[x] == x {
      ConnectedSelf(edges, x);
    } else {
      BelowShrinks(parent, parent[x], x);
      ConnectedToRoot(parent, edges, parent[x]);
      ConnectedTransitive(edges, x, parent[x], Root(parent, x));
    }
  }

  lemma {:induction false} PathHasOneRoot(parent: Forest, edges: set<Edge>, p: seq<string>)
    requires Represents(parent, edges) && IsPath(edges, p) && p[0] in parent
    ensures p[|p| - 1] in parent && Root(parent, p[|p| - 1]) == Root(parent, p[0])
    decreases |p|
  {
    if |p| > 1 {
      assert Linked(edges, p[0], p[0 + 1]);
      forall i | 0 <= i < |p[1..]| - 1
        ensures Linked(edges, p[1..][i], p[1..][i + 1])
      {
        assert Linked(edges, p[i + 1], p[i + 1 + 1]);
      }
      PathHasOneRoot(parent, edges, p[1..]);
    }
  }

  /** Two identities share a root exactly when matched facts connect them. */
  lemma SameRootIffConnected(parent: Forest, edges: set<Edge>, a: string, b: string)
    requires Represents(parent, edges) && a in parent && b in parent
    ensures Root(parent, a) == Root(parent, b) <==> Connected(edges, a, b)
  {
    if Root(parent, a) == Root(parent, b) {
      ConnectedToRoot(parent, edges, a);
      ConnectedToRoot(parent, edges, b);
      ConnectedSymmetric(edges, b, Root(parent, b));
      ConnectedTransitive(edges, a, Root(parent, a), b);
    }
    if Connected(edges, a, b) {
      var p :| IsPath(edges, p) && Joins(p, a, b);
      PathHasOneRoot(parent, edges, p);
    }
  }

  /** The root is the least identity of its class. */
  lemma RootIsLeast(parent: Forest, edges: set<Edge>, x: string, other: string)
    requires Represents(parent, edges) && x in parent && other in parent && Connected(edges, x, other)
    ensures Connected(edges, x, Root(parent, x))
    ensures Root(parent, x) == other || Less(Root(parent, x), other)
  {
    ConnectedToRoot(parent, edges, x);
    SameRootIffConnected(parent, edges, x, other);
    RootIsLowest(parent, other);
  }

  /** Forests of the same edges agree on roots, whatever the order of calls that built them. */
  lemma RootsIndependentOfOrder(left: Forest, right: Forest, edges: set<Edge>, x: string)
    requires Represents(left, edges) && Represents(right, edges) && x in left && x in right
    ensures Root(left, x) == Root(right, x)
  {
    var a, b := Root(left, x), Root(right, x);
    ConnectedToRoot(left, edges, x);
    ConnectedToRoot(right, edges, x);
    ConnectedInside(right, edges, x, a);
    ConnectedInside(left, edges, x, b);
    RootIsLeast(left, edges, x, b);
    RootIsLeast(right, edges, x, a);
    if a != b {
      LessTransitive(a, b, a);
      LessIrreflexive(a);
    }
  }

  lemma ConnectedInside(parent: Forest, edges: set<Edge>, a: string, b: string)
    requires Represents(parent, edges) && a in parent && Connected(edges, a, b)
    ensures b in parent
  {
    var p :| IsPath(edges, p) && Joins(p, a, b);
    PathHasOneRoot(parent, edges, p);
  }

  lemma AddRepresents(parent: Forest, edges: set<Edge>, id: string)
    requires Represents(parent, edges) && id !in parent
    ensures Represents(parent[id := id], edges)
    ensures forall x <- parent :: Root(parent[id := id], x) == Root(parent, x)
  {
    AddDescends(parent, id);
    forall x <- parent
      ensures Root(parent[id := id], x) == Root(parent, x)
    {
      AddKeepsRoots(parent, id, x);
    }
    ConnectedSelf(edges, id);
  }

  lemma CompressRepresents(parent: Forest, edges: set<Edge>, at: string)
    requires Represents(parent, edges) && at in parent
    ensures Represents(parent[at := Root(parent, at)], edges)
    ensures forall x <- parent :: Root(parent[at := Root(parent, at)], x) == Root(parent, x)
  {
    CompressKeepsRoots(parent, at, at);
    forall x <- parent
      ensures Root(parent[at := Root(parent, at)], x) == Root(parent, x)
    {
      CompressKeepsRoots(parent, at, x);
    }
    ConnectedToRoot(parent, edges, at);
  }

  /** The roots of the two ends of a new edge are connected by it. */
  lemma EndsConnectRoots(parent: Forest, edges: set<Edge>, left: string, right: string)
    requires Represents(parent, edges) && left in parent && right in parent
    ensures Connected(edges + {(left, right)}, Root(parent, left), Root(parent, right))
  {
    var more := edges + {(left, right)};
    ConnectedToRoot(parent, edges, left);
    ConnectedToRoot(parent, edges, right);
    ConnectedGrows(edges, more, left, Root(parent, left));
    ConnectedGrows(edges, more, right, Root(parent, right));
    ConnectedSymmetric(more, left, Root(parent, left));
    ConnectedByEdge(more, left, right);
    ConnectedTransitive(more, Root(parent, left), left, right);
    ConnectedTransitive(more, Root(parent, left), right, Root(parent, right));
  }

  /** What unite leaves: the roots of the two ends become one, the lower of the two. */
  ghost function United(parent: Forest, left: string, right: string): Forest
    requires Descending(parent) && left in parent && right in parent
  {
    var a, b := Root(parent, left), Root(parent, right);
    if a == b then parent else if Less(a, b) then parent[b := a] else parent[a := b]
  }

  lemma UniteRepresents(parent: Forest, edges: set<Edge>, left: string, right: string)
    requires Represents(parent, edges) && left in parent && right in parent
    ensures Represents(United(parent, left, right), edges + {(left, right)})
  {
    var more, parent' := edges + {(left, right)}, United(parent, left, right);
    var a, b := Root(parent, left), Root(parent, right);
    RootIsLowest(parent, left);
    RootIsLowest(parent, right);
    LessTotal(a, b);
    if a != b {
      var low, high := if Less(a, b) then a else b, if Less(a, b) then b else a;
      LinkMovesTree(parent, low, high, left);
      forall x <- parent
        ensures Root(parent', x) == if Root(parent, x) == high then low else Root(parent, x)
      {
        LinkMovesTree(parent, low, high, x);
      }
      EndsConnectRoots(parent, edges, left, right);
      ConnectedSymmetric(more, a, b);
    }
    forall x <- parent
      ensures Connected(more, x, parent[x])
    {
      ConnectedGrows(edges, more, x, parent[x]);
    }
  }

  lemma UniteStep(parent: Forest, edges: set<Edge>, left: string, right: string)
    requires Represents(parent, edges) && left in parent && right in parent
    ensures var a, b := Root(parent, left), Root(parent, right);
      && a in parent && b in parent
      && Represents(if a == b then parent else if Less(a, b) then parent[b := a] else parent[a := b],
                    edges + {(left, right)})
  {
    UniteRepresents(parent, edges, left, right);
    RootIsLowest(parent, left);
    RootIsLowest(parent, right);
  }

  // ---------------------------------------------------------------- find and unite in place

  class Classes {
    var parent: Forest
    /** The pairs united so far. */
    ghost var edges: set<Edge>

    ghost predicate Valid()
      reads this
    {
      Represents(parent, edges)
    }

    constructor ()
      ensures Valid() && parent == map[] && edges == {}
    {
      parent, edges := map[], {};
    }

    method Find(id: string) returns (root: string)
      requires Valid()
      modifies this`parent
      ensures Valid() && parent.Keys == old(parent.Keys) + {id}
      ensures root == Root(parent, id) && (id !in old(parent) ==> root == id)
      ensures forall x <- old(parent) :: Root(parent, x) == Root(old(parent), x)
      decreases Below(parent, id), if id in parent then 0 else 1
    {
      if id !in parent {
        AddRepresents(parent, edges, id);
        parent := parent[id := id];
      }
      if parent[id] == id {
        return id;
      }
      assert LinkDescends(parent, id);
      BelowShrinks(parent, parent[id], id);
      root := Find(parent[id]);
      CompressRepresents(parent, edges, id);
      parent := parent[id := root];
    }

    method Unite(left: string, right: string)
      requires Valid()
      modifies this
      ensures Valid() && edges == old(edges) + {(left, right)}
      ensures parent.Keys == old(parent.Keys) + {left, right}
    {
      hide Represents, Root, Descending, United;
      var a := Find(left);
      var b := Find(right);
      UniteStep(parent, edges, left, right);
      if a != b {
        var low, high := if Less(a, b) then a else b, if Less(a, b) then b else a;
        parent := parent[high := low];
      }
      edges := edges + {(left, right)};
    }
  }
}
