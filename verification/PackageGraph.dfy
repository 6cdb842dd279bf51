/**
 The dependency sub-graph of a package (sui-execution/src/tests.rs): a worklist of edges, popped from
 a stack, that adds an edge only when its target is new.
 */
module PackageGraph {
  import opened ChainTypes

  datatype Name = Name(text: string)

  datatype Kind = Normal | Development | Build

  datatype Dependency = Dependency(name: Name, kind: Kind, target: Option<string>)

  datatype Edge = Edge(from: Name, to: Name)

  type Packages = map<Name, seq<Dependency>>

  predicate IsNormal(d: Dependency) { d.kind == Normal && d.target == None }

  function NormalOf(pkg: Name, deps: seq<Dependency>): seq<Edge> {
    if deps == [] then []
    else
      var d := deps[0];
      (if IsNormal(d) then [Edge(pkg, d.name)] else []) + NormalOf(pkg, deps[1..])
  }

  /** Exactly the normal dependencies become edges. */
  lemma {:induction false} NormalOfHolds(pkg: Name, deps: seq<Dependency>, e: Edge)
    ensures e in NormalOf(pkg, deps)
        <==> e.from == pkg && exists d | d in deps :: d.kind == Normal && d.target == None && d.name == e.to
  {
    if deps == [] {
    } else {
      NormalOfHolds(pkg, deps[1..], e);
      assert deps == [deps[0]] + deps[1..];
    }
  }

  /** The edges to a package's normal dependencies: not for a target, for development or for building. */
  function NormalEdges(ps: Packages, pkg: Name): seq<Edge> { if pkg in ps then NormalOf(pkg, ps[pkg]) else [] }

  lemma EdgeFrom(ps: Packages, pkg: Name, e: Edge)
    requires e in NormalEdges(ps, pkg)
    ensures e.from == pkg && Depends(ps, e)
  {
    NormalOfHolds(pkg, ps[pkg], e);
  }

  predicate Depends(ps: Packages, e: Edge) { e in NormalEdges(ps, e.from) }

  // ---------------------------------------------------------------- paths

  predicate Walks(edges: set<Edge>, p: seq<Name>) {
    |p| > 0 && forall i | 0 <= i < |p| - 1 :: Edge(p[i], p[i + 1]) in edges
  }

  predicate DependencyPath(ps: Packages, p: seq<Name>) {
    |p| > 0 && forall i | 0 <= i < |p| - 1 :: Depends(ps, Edge(p[i], p[i + 1]))
  }

  ghost predicate WalkTo(edges: set<Edge>, a: Name, b: Name) {
    exists p: seq<Name> :: Walks(edges, p) && p[0] == a && p[|p| - 1] == b
  }

  ghost predicate Reaches(ps: Packages, a: Name, b: Name) {
    exists p: seq<Name> :: DependencyPath(ps, p) && p[0] == a && p[|p| - 1] == b
  }

  lemma WalkStays(edges: set<Edge>, more: set<Edge>, a: Name, b: Name)
    requires WalkTo(edges, a, b) && edges <= more
    ensures WalkTo(more, a, b)
  {
    var p: seq<Name> :| Walks(edges, p) && p[0] == a && p[|p| - 1] == b;
    assert Walks(more, p);
  }

  lemma WalkOn(edges: set<Edge>, a: Name, b: Name, c: Name)
    requires WalkTo(edges, a, b)
    ensures WalkTo(edges + {Edge(b, c)}, a, c)
  {
    var p: seq<Name> :| Walks(edges, p) && p[0] == a && p[|p| - 1] == b;
    var q := p + [c];
    forall i | 0 <= i < |q| - 1 ensures Edge(q[i], q[i + 1]) in edges + {Edge(b, c)} {
      if i < |p| - 1 { assert Edge(p[i], p[i + 1]) in edges; }
    }
    assert Walks(edges + {Edge(b, c)}, q);
  }

  ghost predicate Closed(ps: Packages, nodes: set<Name>) {
    forall e: Edge | e.from in nodes && Depends(ps, e) :: e.to in nodes
  }

  /** A set that contains a name and the dependencies of its members contains what the name reaches. */
  lemma {:induction false} ClosedHoldsPath(ps: Packages, nodes: set<Name>, p: seq<Name>)
    requires DependencyPath(ps, p) && p[0] in nodes
    requires Closed(ps, nodes)
    ensures p[|p| - 1] in nodes
    decreases |p|
  {
    if |p| > 1 {
      assert Depends(ps, Edge(p[0], p[0 + 1]));
      var rest := p[1..];
      forall i | 0 <= i < |rest| - 1 ensures Depends(ps, Edge(rest[i], rest[i + 1])) {
        assert Depends(ps, Edge(p[i + 1], p[i + 1 + 1]));
      }
      ClosedHoldsPath(ps, nodes, rest);
    }
  }

  // ---------------------------------------------------------------- the worklist

  /** Every name some package depends on. */
  function Names(ps: Packages): set<Name> { set pkg, d | pkg in ps && d in ps[pkg] :: d.name }

  lemma TargetIsNamed(ps: Packages, e: Edge)
    requires Depends(ps, e)
    ensures e.to in Names(ps)
  {
    NormalOfHolds(e.from, ps[e.from], e);
    var d :| d in ps[e.from] && d.kind == Normal && d.target == None && d.name == e.to;
  }

  /** The edge into the root that the stack yields first, if its last dependency is itself. */
  predicate RootFirst(ps: Packages, root: Name) {
    var es := NormalEdges(ps, root);
    es != [] && es[|es| - 1] == Edge(root, root)
  }

  predicate NotTwice(edges: set<Edge>, e: Edge, f: Edge) { e in edges && f in edges && e.to == f.to ==> e == f }

  ghost predicate Entered(root: Name, nodes: set<Name>, edges: set<Edge>, n: Name) {
    n in nodes && n != root ==> exists a :: Edge(a, n) in edges
  }

  /** Each node is entered once: by one edge, and the root by none but a first edge from itself. */
  ghost predicate EnteredOnce(ps: Packages, root: Name, nodes: set<Name>, edges: set<Edge>) {
    && (forall e, f :: NotTwice(edges, e, f))
    && (forall a :: Edge(a, root) in edges ==> a == root && RootFirst(ps, root))
    && (nodes != {} && RootFirst(ps, root) ==> Edge(root, root) in edges)
    && (forall n :: Entered(root, nodes, edges, n))
  }

  ghost predicate Walked(root: Name, nodes: set<Name>, edges: set<Edge>, n: Name) {
    n in nodes ==> WalkTo(edges, root, n)
  }

  /** The edges are dependencies between nodes, and every node is walked to from the root. */
  ghost predicate Sound(ps: Packages, root: Name, nodes: set<Name>, edges: set<Edge>) {
    && (forall e | e in edges :: Depends(ps, e) && e.from in nodes && e.to in nodes)
    && (forall n :: Walked(root, nodes, edges, n))
    && (nodes != {} ==> root in nodes)
  }

  /** An edge from an expanded package leads to a node or waits on the stack. */
  ghost predicate Pending(ps: Packages, root: Name, nodes: set<Name>, stack: seq<Edge>) {
    && (forall e | e in stack :: Depends(ps, e) && (e.from == root || e.from in nodes))
    && (forall e: Edge | Depends(ps, e) && (e.from == root || e.from in nodes) :: e.to in nodes || e in stack)
  }

  lemma AddKeepsSound(ps: Packages, root: Name, nodes: set<Name>, edges: set<Edge>, e: Edge)
    requires Sound(ps, root, nodes, edges) && Depends(ps, e) && (e.from == root || e.from in nodes)
    ensures Sound(ps, root, nodes + {e.from, e.to}, edges + {e})
  {
    var nodes', edges' := nodes + {e.from, e.to}, edges + {e};
    if e.from == root {
      var p := [root];
      assert Walks(edges, p) && p[0] == root && p[|p| - 1] == root;
    }
    assert Walked(root, nodes, edges, e.from);
    WalkOn(edges, root, e.from, e.to);
    forall n ensures Walked(root, nodes', edges', n) {
      assert Walked(root, nodes, edges, n);
      if n in nodes' && n != e.to { WalkStays(edges, edges', root, n); }
    }
  }

  lemma AddKeepsOnce(ps: Packages, root: Name, nodes: set<Name>, edges: set<Edge>, e: Edge)
    requires EnteredOnce(ps, root, nodes, edges) && Sound(ps, root, nodes, edges) && e.to !in nodes
    requires e.from == root || e.from in nodes
    requires nodes == {} ==> NormalEdges(ps, root) != [] && e == NormalEdges(ps, root)[|NormalEdges(ps, root)| - 1]
    ensures EnteredOnce(ps, root, nodes + {e.from, e.to}, edges + {e})
  {
    var nodes', edges' := nodes + {e.from, e.to}, edges + {e};
    forall f, g ensures NotTwice(edges', f, g) { assert NotTwice(edges, f, g); }
    forall n ensures Entered(root, nodes', edges', n) {
      assert Entered(root, nodes, edges, n);
      if n == e.to {
        assert Edge(e.from, n) in edges';
      } else if n in nodes && n != root {
        var a :| Edge(a, n) in edges;
        assert Edge(a, n) in edges';
      }
    }
  }

  lemma SkipKeepsPending(ps: Packages, root: Name, nodes: set<Name>, stack: seq<Edge>, e: Edge)
    requires Pending(ps, root, nodes, stack + [e]) && e.to in nodes
    ensures Pending(ps, root, nodes, stack)
  {
    forall f | f in stack ensures Depends(ps, f) && (f.from == root || f.from in nodes) { assert f in stack + [e]; }
  }

  lemma ExpandKeepsPending(ps: Packages, root: Name, nodes: set<Name>, stack: seq<Edge>, e: Edge)
    requires Pending(ps, root, nodes, stack + [e])
    ensures Pending(ps, root, nodes + {e.from, e.to}, stack + NormalEdges(ps, e.to))
  {
    assert e in stack + [e];
    forall f | f in stack ensures Depends(ps, f) && (f.from == root || f.from in nodes) { assert f in stack + [e]; }
    forall f | f in NormalEdges(ps, e.to) ensures Depends(ps, f) && f.from == e.to { EdgeFrom(ps, e.to, f); }
  }

  lemma WorkingStarts(ps: Packages, root: Name)
    ensures Working(ps, root, {}, {}, NormalEdges(ps, root))
  {
    forall e | e in NormalEdges(ps, root) ensures Depends(ps, e) && e.from == root { EdgeFrom(ps, root, e); }
  }

  function Unvisited(ps: Packages, nodes: set<Name>): set<Name> { Names(ps) - nodes }

  lemma VisitShrinks(ps: Packages, nodes: set<Name>, e: Edge)
    requires e.to in Names(ps) && e.to !in nodes
    ensures Unvisited(ps, nodes + {e.from, e.to}) < Unvisited(ps, nodes)
  {
    assert e.to in Unvisited(ps, nodes);
  }

  /** What holds whenever the loop tests its stack. */
  ghost predicate Working(ps: Packages, root: Name, nodes: set<Name>, edges: set<Edge>, stack: seq<Edge>) {
    && Sound(ps, root, nodes, edges) && EnteredOnce(ps, root, nodes, edges) && Pending(ps, root, nodes, stack)
    && (nodes == {} ==> stack == NormalEdges(ps, root))
    && (NormalEdges(ps, root) == [] ==> nodes == {})
  }

  lemma SkipKeeps(ps: Packages, root: Name, nodes: set<Name>, edges: set<Edge>, stack: seq<Edge>, e: Edge)
    requires Working(ps, root, nodes, edges, stack + [e]) && e.to in nodes
    ensures Working(ps, root, nodes, edges, stack)
  {
    SkipKeepsPending(ps, root, nodes, stack, e);
  }

  lemma ExpandKeeps(ps: Packages, root: Name, nodes: set<Name>, edges: set<Edge>, stack: seq<Edge>, e: Edge)
    requires Working(ps, root, nodes, edges, stack + [e]) && e.to !in nodes
    ensures Working(ps, root, nodes + {e.from, e.to}, edges + {e}, stack + NormalEdges(ps, e.to))
    ensures Unvisited(ps, nodes + {e.from, e.to}) < Unvisited(ps, nodes)
  {
    assert e in stack + [e];
    TargetIsNamed(ps, e);
    VisitShrinks(ps, nodes, e);
    AddKeepsSound(ps, root, nodes, edges, e);
    AddKeepsOnce(ps, root, nodes, edges, e);
    ExpandKeepsPending(ps, root, nodes, stack, e);
  }

  ghost predicate NodeIffReached(ps: Packages, root: Name, nodes: set<Name>, n: Name) {
    n in nodes <==> Reaches(ps, root, n)
  }

  /** What the loop has built when its stack is empty. */
  ghost predicate IsGraphOf(ps: Packages, root: Name, nodes: set<Name>, edges: set<Edge>) {
    && (NormalEdges(ps, root) == [] ==> nodes == {})
    && (NormalEdges(ps, root) != [] ==> forall n :: NodeIffReached(ps, root, nodes, n))
    && Closed(ps, nodes) && Sound(ps, root, nodes, edges) && EnteredOnce(ps, root, nodes, edges)
  }

  /** The transitive dependency graph of `root`. */
  method Graph(ps: Packages, root: Name) returns (nodes: set<Name>, edges: set<Edge>)
    ensures IsGraphOf(ps, root, nodes, edges)
  {
    nodes, edges := {}, {};
    var stack := NormalEdges(ps, root);
    WorkingStarts(ps, root);
    while stack != []
      invariant Working(ps, root, nodes, edges, stack)
      decreases Unvisited(ps, nodes), |stack|
    {
      var e := stack[|stack| - 1];
      assert stack == stack[..|stack| - 1] + [e];
      stack := stack[..|stack| - 1];
      if e.to !in nodes {
        ExpandKeeps(ps, root, nodes, edges, stack, e);
        nodes := nodes + {e.from, e.to};
        edges := edges + {e};
        stack := stack + NormalEdges(ps, e.to);
      } else {
        SkipKeeps(ps, root, nodes, edges, stack, e);
      }
    }
    DrainedIsGraph(ps, root, nodes, edges);
  }

  lemma DrainedIsGraph(ps: Packages, root: Name, nodes: set<Name>, edges: set<Edge>)
    requires Working(ps, root, nodes, edges, [])
    ensures IsGraphOf(ps, root, nodes, edges)
  {
    if NormalEdges(ps, root) != [] { DrainedIsReached(ps, root, nodes, edges); }
  }

  lemma DrainedIsReached(ps: Packages, root: Name, nodes: set<Name>, edges: set<Edge>)
    requires NormalEdges(ps, root) != [] && Sound(ps, root, nodes, edges) && Pending(ps, root, nodes, [])
    ensures forall n :: NodeIffReached(ps, root, nodes, n)
  {
    EdgeFrom(ps, root, NormalEdges(ps, root)[0]);
    forall n | Reaches(ps, root, n) ensures n in nodes {
      var p: seq<Name> :| DependencyPath(ps, p) && p[0] == root && p[|p| - 1] == n;
      ClosedHoldsPath(ps, nodes, p);
    }
    forall n | n in nodes ensures Reaches(ps, root, n) {
      assert Walked(root, nodes, edges, n);
      var p: seq<Name> :| Walks(edges, p) && p[0] == root && p[|p| - 1] == n;
      WalksAreReal(ps, root, nodes, edges, p);
    }
  }

  /** Every walk in the graph is a path of real dependencies. */
  lemma WalksAreReal(ps: Packages, root: Name, nodes: set<Name>, edges: set<Edge>, p: seq<Name>)
    requires Sound(ps, root, nodes, edges) && Walks(edges, p)
    ensures DependencyPath(ps, p)
  {
    forall i | 0 <= i < |p| - 1 ensures Depends(ps, Edge(p[i], p[i + 1])) {
      assert Edge(p[i], p[i + 1]) in edges;
    }
  }

  // ---------------------------------------------------------------- what the graph leaves out

  ghost predicate Complete(ps: Packages, nodes: set<Name>, edges: set<Edge>) {
    forall e: Edge | e.from in nodes && Depends(ps, e) :: e in edges
  }

  ghost predicate Reached(ps: Packages, root: Name, e: Edge) { Reaches(ps, root, e.from) && Depends(ps, e) }

  /** Among what the root reaches, each package has one dependant, and the root none but itself, last in
      its list. */
  ghost predicate OneDependant(ps: Packages, root: Name) {
    && (forall e: Edge, f: Edge | Reached(ps, root, e) && Reached(ps, root, f) :: e.to == f.to ==> e == f)
    && (forall e: Edge | Reached(ps, root, e) && e.to == root :: e.from == root && RootFirst(ps, root))
  }

  /** The dependencies the root reaches are those of the nodes. */
  lemma ReachedIffFromNode(ps: Packages, root: Name, nodes: set<Name>, edges: set<Edge>, e: Edge)
    requires IsGraphOf(ps, root, nodes, edges) && Depends(ps, e)
    ensures Reached(ps, root, e) <==> e.from in nodes
  {
    if NormalEdges(ps, root) == [] {
      if Reaches(ps, root, e.from) {
        var p: seq<Name> :| DependencyPath(ps, p) && p[0] == root && p[|p| - 1] == e.from;
        ClosedHoldsPath(ps, {root}, p);
      }
    } else {
      assert NodeIffReached(ps, root, nodes, e.from);
    }
  }

  /** The graph holds every dependency of its nodes exactly when no package has a second dependant. */
  lemma CompleteIffOneDependant(ps: Packages, root: Name, nodes: set<Name>, edges: set<Edge>)
    requires IsGraphOf(ps, root, nodes, edges)
    ensures Complete(ps, nodes, edges) <==> OneDependant(ps, root)
  {
    forall e: Edge | Depends(ps, e) ensures Reached(ps, root, e) <==> e.from in nodes {
      ReachedIffFromNode(ps, root, nodes, edges, e);
    }
    if Complete(ps, nodes, edges) { CompleteHasOneDependant(ps, root, nodes, edges); }
    if OneDependant(ps, root) { OneDependantIsComplete(ps, root, nodes, edges); }
  }

  lemma CompleteHasOneDependant(ps: Packages, root: Name, nodes: set<Name>, edges: set<Edge>)
    requires IsGraphOf(ps, root, nodes, edges) && Complete(ps, nodes, edges)
    requires forall e: Edge | Depends(ps, e) :: Reached(ps, root, e) <==> e.from in nodes
    ensures OneDependant(ps, root)
  {
    forall e: Edge, f: Edge | Reached(ps, root, e) && Reached(ps, root, f) && e.to == f.to ensures e == f {
      assert NotTwice(edges, e, f);
    }
    forall e: Edge | Reached(ps, root, e) && e.to == root ensures e.from == root && RootFirst(ps, root) {
      assert Edge(e.from, root) in edges;
    }
  }

  lemma OneDependantIsComplete(ps: Packages, root: Name, nodes: set<Name>, edges: set<Edge>)
    requires IsGraphOf(ps, root, nodes, edges) && OneDependant(ps, root)
    requires forall e: Edge | Depends(ps, e) :: Reached(ps, root, e) <==> e.from in nodes
    ensures Complete(ps, nodes, edges)
  {
    forall e: Edge | e.from in nodes && Depends(ps, e) ensures e in edges {
      assert Reached(ps, root, e);
      if e.to != root {
        assert Entered(root, nodes, edges, e.to);
        var a :| Edge(a, e.to) in edges;
        assert Depends(ps, Edge(a, e.to)) && Reached(ps, root, Edge(a, e.to));
      }
    }
  }

  /** Two packages under one root that share a dependency. */
  function Diamond(root: Name, left: Name, right: Name, shared: Name): Packages {
    var on := (n: Name) => Dependency(n, Normal, None);
    map[root := [on(left), on(right)], left := [on(shared)], right := [on(shared)]]
  }

  lemma PathOfOne(ps: Packages, a: Name, b: Name)
    requires Depends(ps, Edge(a, b))
    ensures Reaches(ps, a, b)
  {
    var p := [a, b];
    assert DependencyPath(ps, p) && p[0] == a && p[|p| - 1] == b;
  }

  lemma DiamondEdges(root: Name, left: Name, right: Name, shared: Name)
    requires root != left && root != right && left != right
    ensures var ps := Diamond(root, left, right, shared);
      && Depends(ps, Edge(root, left)) && Depends(ps, Edge(root, right))
      && Depends(ps, Edge(left, shared)) && Depends(ps, Edge(right, shared))
  {
    var ps := Diamond(root, left, right, shared);
    var l, r, s := Dependency(left, Normal, None), Dependency(right, Normal, None), Dependency(shared, Normal, None);
    assert l in ps[root] && r in ps[root] && s in ps[left] && s in ps[right];
    NormalOfHolds(root, ps[root], Edge(root, left));
    NormalOfHolds(root, ps[root], Edge(root, right));
    NormalOfHolds(left, ps[left], Edge(left, shared));
    NormalOfHolds(right, ps[right], Edge(right, shared));
  }

  /** The graph of a diamond misses one of its two ways to the shared package. */
  lemma DiamondIsIncomplete(
    root: Name, left: Name, right: Name, shared: Name, nodes: set<Name>, edges: set<Edge>)
    requires root != left && root != right && left != right
    requires IsGraphOf(Diamond(root, left, right, shared), root, nodes, edges)
    ensures !Complete(Diamond(root, left, right, shared), nodes, edges)
    ensures shared in nodes && (Edge(left, shared) !in edges || Edge(right, shared) !in edges)
  {
    var ps := Diamond(root, left, right, shared);
    DiamondEdges(root, left, right, shared);
    PathOfOne(ps, root, left);
    PathOfOne(ps, root, right);
    assert NodeIffReached(ps, root, nodes, left);
    assert NotTwice(edges, Edge(left, shared), Edge(right, shared));
    assert NodeIffReached(ps, root, nodes, right);
  }

  /** A complete graph has every dependency path from the root as a walk, so a search of the graph finds
      each way to reach a package. */
  lemma CompleteHoldsPaths(ps: Packages, nodes: set<Name>, edges: set<Edge>, p: seq<Name>)
    requires Closed(ps, nodes) && Complete(ps, nodes, edges) && DependencyPath(ps, p) && p[0] in nodes
    ensures Walks(edges, p)
  {
    forall i | 0 <= i < |p| - 1 ensures Edge(p[i], p[i + 1]) in edges {
      PrefixPath(ps, p, i + 1);
      ClosedHoldsPath(ps, nodes, p[..i + 1]);
      assert Depends(ps, Edge(p[i], p[i + 1]));
    }
  }

  lemma PrefixPath(ps: Packages, p: seq<Name>, k: nat)
    requires DependencyPath(ps, p) && 0 < k <= |p|
    ensures DependencyPath(ps, p[..k])
  {
    var q := p[..k];
    forall i | 0 <= i < |q| - 1 ensures Depends(ps, Edge(q[i], q[i + 1])) {
      assert Depends(ps, Edge(p[i], p[i + 1]));
    }
  }
}
