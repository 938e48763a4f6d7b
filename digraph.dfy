/** The directed graph the knowledge-graph service keeps beside its node table
    and edge log: a re-model of the part of networkx's `DiGraph` it uses. A
    vertex has an ordered list of successors and of predecessors (the order in
    which the edges were first added) and each ordered pair carries at most one
    edge, whose attributes a later `add_edge` overwrites. Traversals treat the
    graph as undirected (`to_undirected`): the neighbours of a vertex are its
    successors and its predecessors. */
module DiGraphs {
  import opened GraphModels

  /** The attributes stored on a graph edge. */
  datatype EdgeData = EdgeData(relationship: RelationshipType, weight: real)

  predicate NoDup<T(==)>(s: seq<T>) {
    forall i, j :: 0 <= i < j < |s| ==> s[i] != s[j]
  }

  datatype DiGraph = DiGraph(
    succ: map<string, seq<string>>,
    pred: map<string, seq<string>>,
    data: map<(string, string), EdgeData>)
  {
    /** `n in graph`. */
    predicate HasNode(n: string) {
      n in succ
    }

    /** Successor and predecessor lists mirror each other, list each vertex
        once, and the pairs with data are exactly the edges. */
    ghost predicate Valid() {
      succ.Keys == pred.Keys && SuccMirrored() && PredMirrored() && DataOnEdges() && ListsDistinct()
    }

    ghost predicate SuccMirrored() {
      forall u, v | u in succ && v in succ[u] :: v in pred && u in pred[v] && (u, v) in data
    }

    ghost predicate PredMirrored() {
      forall u, v | v in pred && u in pred[v] :: u in succ && v in succ[u]
    }

    ghost predicate DataOnEdges() {
      forall e | e in data :: e.0 in succ && e.1 in succ[e.0]
    }

    ghost predicate ListsDistinct() {
      && (forall u | u in succ :: NoDup(succ[u]))
      && (forall v | v in pred :: NoDup(pred[v]))
    }

    /** `add_node(n)`: adds `n` when absent and changes nothing else. */
    function AddNode(n: string): (g: DiGraph)
      ensures g.succ.Keys == succ.Keys + {n} && g.pred.Keys == pred.Keys + {n}
      ensures g.data == data
    {
      DiGraph(if n in succ then succ else succ[n := []], if n in pred then pred else pred[n := []], data)
    }

    /** `add_edge(u, v, **d)`: adds the missing endpoints, appends `v` to the
        successors of `u` (and `u` to the predecessors of `v`) when the pair is
        new, and stores `d` on the pair, replacing what was there. */
    function AddEdge(u: string, v: string, d: EdgeData): DiGraph {
      var h := AddNode(u).AddNode(v);
      if v in h.succ[u] then h.(data := h.data[(u, v) := d])
      else DiGraph(h.succ[u := h.succ[u] + [v]], h.pred[v := h.pred[v] + [u]], h.data[(u, v) := d])
    }

    /** The neighbours of `u` in the undirected view. */
    function Neighbors(u: string): set<string>
      requires u in succ && u in pred
    {
      (set x | x in succ[u]) + (set x | x in pred[u])
    }

    /** Every neighbour of every vertex of `nodes`. */
    function NeighborsOfSet(nodes: set<string>): set<string> {
      set u, v | u in nodes && u in succ && u in pred && v in Neighbors(u) :: v
    }

    /** One round of the undirected breadth-first expansion. */
    function Expand(nodes: set<string>): set<string> {
      nodes + NeighborsOfSet(nodes)
    }

    /** The vertices reached from `s` after `k` rounds of expansion. */
    function Closure(s: string, k: nat): set<string> {
      if k == 0 then {s} else Expand(Closure(s, k - 1))
    }

    ghost predicate Adjacent(u: string, v: string) {
      u in succ && u in pred && v in Neighbors(u)
    }

    /** A walk in the undirected view: a non-empty sequence of vertices in
        which each consecutive pair is joined by an edge in some direction. */
    ghost predicate IsWalk(p: seq<string>) {
      && |p| >= 1
      && (forall i :: 0 <= i < |p| ==> p[i] in succ)
      && (forall i :: 0 <= i < |p| - 1 ==> Adjacent(p[i], p[i + 1]))
    }

    ghost predicate IsWalkBetween(p: seq<string>, s: string, t: string) {
      IsWalk(p) && p[0] == s && p[|p| - 1] == t
    }

    ghost predicate Reachable(s: string, t: string) {
      exists p :: IsWalkBetween(p, s, t)
    }

    /** `p` is a walk from `s` to `t` and no walk from `s` to `t` is shorter. */
    ghost predicate IsShortestPath(p: seq<string>, s: string, t: string) {
      IsWalkBetween(p, s, t) && forall q :: IsWalkBetween(q, s, t) ==> |p| <= |q|
    }

    /** Every sequence of `k` + 1 vertices that starts at `s` and moves along
        an edge (in either direction) at each step. */
    function Walks(s: string, k: nat): set<seq<string>> {
      if k == 0 then {[s]}
      else
        set w, v | w in Walks(s, k - 1) && |w| > 0 && w[|w| - 1] in succ && w[|w| - 1] in pred
                   && v in Neighbors(w[|w| - 1]) :: w + [v]
    }

    /** The walks of `k` steps from `s` that end at `t`. */
    function WalksTo(s: string, t: string, k: nat): set<seq<string>> {
      set p | p in Walks(s, k) && |p| > 0 && p[|p| - 1] == t
    }
  }

  /** `add_node` leaves the lists of the vertices already there alone and
      gives a new vertex empty lists. */
  lemma AddNodeLists(g: DiGraph, n: string)
    ensures forall x | x in g.succ :: g.AddNode(n).succ[x] == g.succ[x]
    ensures forall x | x in g.pred :: g.AddNode(n).pred[x] == g.pred[x]
    ensures n !in g.succ ==> g.AddNode(n).succ[n] == []
    ensures n !in g.pred ==> g.AddNode(n).pred[n] == []
  {
  }

  /** `add_edge` adds the missing endpoints and stores its data on the pair,
      replacing what was there. */
  lemma AddEdgeSpec(g: DiGraph, u: string, v: string, d: EdgeData)
    ensures g.AddEdge(u, v, d).succ.Keys == g.succ.Keys + {u, v}
    ensures g.AddEdge(u, v, d).pred.Keys == g.pred.Keys + {u, v}
    ensures g.AddEdge(u, v, d).data == g.data[(u, v) := d]
  {
  }

  /** A fresh `DiGraph()`. */
  function Empty(): (g: DiGraph)
    ensures g.Valid() && g.succ.Keys == {}
  {
    DiGraph(map[], map[], map[])
  }

  /** Every vertex has both adjacency lists and its neighbours are vertices:
      the part of `Valid` the traversals rely on. */
  ghost predicate Closed(g: DiGraph) {
    g.succ.Keys == g.pred.Keys && forall u {:trigger NeighborsInside(g, u)} | u in g.succ :: NeighborsInside(g, u)
  }

  ghost predicate NeighborsInside(g: DiGraph, u: string) {
    u in g.succ && u in g.pred && g.Neighbors(u) <= g.succ.Keys
  }

  lemma ValidClosed(g: DiGraph)
    requires g.Valid()
    ensures Closed(g)
  {
    forall u | u in g.succ ensures NeighborsInside(g, u) {
      MirroredNeighbors(g, u);
    }
  }

  lemma MirroredNeighbors(g: DiGraph, u: string)
    requires g.succ.Keys == g.pred.Keys && g.SuccMirrored() && g.PredMirrored() && u in g.succ
    ensures NeighborsInside(g, u)
  {
    forall x | x in g.Neighbors(u) ensures x in g.succ {
      if x !in g.succ[u] {
        assert x in g.pred[u];
      }
    }
  }

  lemma NeighborsAreVertices(g: DiGraph, u: string)
    requires Closed(g) && u in g.succ
    ensures g.Neighbors(u) <= g.succ.Keys
  {
    assert NeighborsInside(g, u);
  }

  /** Expanding no vertex adds nothing. */
  lemma NeighborsOfEmpty(g: DiGraph)
    ensures g.NeighborsOfSet({}) == {}
  {
  }

  /** The neighbours of one more vertex join the neighbours of a set. */
  lemma NeighborsOfInsert(g: DiGraph, nodes: set<string>, n: string)
    requires n in g.succ && n in g.pred
    ensures g.NeighborsOfSet(nodes + {n}) == g.NeighborsOfSet(nodes) + g.Neighbors(n)
  {
  }

  /** Expansion only adds vertices of the graph. */
  lemma {:induction false} ClosureInVertices(g: DiGraph, s: string, k: nat)
    requires Closed(g) && s in g.succ
    ensures g.Closure(s, k) <= g.succ.Keys
  {
    if k > 0 {
      ClosureInVertices(g, s, k - 1);
      forall v | v in g.NeighborsOfSet(g.Closure(s, k - 1))
        ensures v in g.succ
      {
        var u :| u in g.Closure(s, k - 1) && u in g.succ && u in g.pred && v in g.Neighbors(u);
        NeighborsAreVertices(g, u);
      }
    }
  }

  /** The rounds only add vertices: fewer rounds reach a subset. */
  lemma {:induction false} ClosureMonotone(g: DiGraph, s: string, j: nat, k: nat)
    requires j <= k
    ensures g.Closure(s, j) <= g.Closure(s, k)
  {
    if j < k {
      ClosureMonotone(g, s, j, k - 1);
    }
  }

  /** Dropping the last vertex of a walk leaves a walk. */
  lemma WalkPrefix(g: DiGraph, p: seq<string>)
    requires g.IsWalk(p) && |p| >= 2
    ensures g.IsWalk(p[..|p| - 1])
  {
    var q := p[..|p| - 1];
    forall i | 0 <= i < |q| - 1 ensures g.Adjacent(q[i], q[i + 1]) {
      assert g.Adjacent(p[i], p[i + 1]);
    }
  }

  /** A walk extended by a neighbour of its last vertex is a walk. */
  lemma WalkExtend(g: DiGraph, q: seq<string>, v: string)
    requires g.IsWalk(q) && v in g.succ && g.Adjacent(q[|q| - 1], v)
    ensures g.IsWalk(q + [v])
  {
    var p := q + [v];
    forall i | 0 <= i < |p| - 1 ensures g.Adjacent(p[i], p[i + 1]) {
      if i < |q| - 1 {
        assert p[i] == q[i] && p[i + 1] == q[i + 1];
        assert g.Adjacent(q[i], q[i + 1]);
      }
    }
  }

  /** Whatever a walk of at most `k` steps from `s` reaches lies in
      `Closure(s, k)`. */
  lemma {:induction false} WalkEndsInClosure(g: DiGraph, s: string, p: seq<string>, k: nat)
    requires g.IsWalk(p) && p[0] == s && |p| <= k + 1
    ensures p[|p| - 1] in g.Closure(s, k)
  {
    if |p| == 1 {
      ClosureMonotone(g, s, 0, k);
    } else {
      var q := p[..|p| - 1];
      WalkPrefix(g, p);
      WalkEndsInClosure(g, s, q, k - 1);
      assert g.Adjacent(p[|p| - 2], p[|p| - 1]);
      assert p[|p| - 1] in g.NeighborsOfSet(g.Closure(s, k - 1));
    }
  }

  /** Conversely, every vertex of `Closure(s, k)` is reached from `s` by a walk
      of at most `k` steps. */
  lemma {:induction false} ClosureHasWalk(g: DiGraph, s: string, v: string, k: nat) returns (p: seq<string>)
    requires Closed(g) && s in g.succ && v in g.Closure(s, k)
    ensures g.IsWalkBetween(p, s, v) && |p| <= k + 1
    decreases k
  {
    if k == 0 {
      p := [s];
    } else if v in g.Closure(s, k - 1) {
      p := ClosureHasWalk(g, s, v, k - 1);
    } else {
      var u :| u in g.Closure(s, k - 1) && u in g.succ && u in g.pred && v in g.Neighbors(u);
      var q := ClosureHasWalk(g, s, u, k - 1);
      NeighborsAreVertices(g, u);
      WalkExtend(g, q, v);
      p := q + [v];
    }
  }

  /** Once a round adds nothing, no later round does either. */
  lemma {:induction false} ClosureStable(g: DiGraph, s: string, k: nat, j: nat)
    requires g.Expand(g.Closure(s, k)) == g.Closure(s, k) && k <= j
    ensures g.Closure(s, j) == g.Closure(s, k)
  {
    if j > k {
      ClosureStable(g, s, k, j - 1);
    }
  }

  /** At a fixpoint of the expansion every walk from `s` stays inside it. */
  lemma WalksStayInFixpoint(g: DiGraph, s: string, k: nat, p: seq<string>)
    requires g.Expand(g.Closure(s, k)) == g.Closure(s, k)
    requires g.IsWalk(p) && p[0] == s
    ensures p[|p| - 1] in g.Closure(s, k)
  {
    var j := if |p| - 1 <= k then k else |p| - 1;
    WalkEndsInClosure(g, s, p, j);
    ClosureStable(g, s, k, j);
  }

  /** A member of `Walks(s, k)`, k > 0, is a shorter member extended by a
      neighbour of its last vertex. */
  lemma WalkParts(g: DiGraph, s: string, k: nat, p: seq<string>) returns (w: seq<string>, v: string)
    requires k > 0 && p in g.Walks(s, k)
    ensures w in g.Walks(s, k - 1) && |w| > 0 && w[|w| - 1] in g.succ && w[|w| - 1] in g.pred
    ensures v in g.Neighbors(w[|w| - 1]) && p == w + [v]
  {
    w, v :| w in g.Walks(s, k - 1) && |w| > 0 && w[|w| - 1] in g.succ && w[|w| - 1] in g.pred
            && v in g.Neighbors(w[|w| - 1]) && p == w + [v];
  }

  lemma WalkStepSound(g: DiGraph, w: seq<string>, v: string)
    requires Closed(g) && g.IsWalk(w)
    requires w[|w| - 1] in g.succ && w[|w| - 1] in g.pred && v in g.Neighbors(w[|w| - 1])
    ensures g.IsWalk(w + [v]) && (w + [v])[0] == w[0] && |w + [v]| == |w| + 1
  {
    NeighborsAreVertices(g, w[|w| - 1]);
    WalkExtend(g, w, v);
  }

  /** Every member of `Walks(s, k)` is a walk from `s` with `k` steps. */
  lemma {:induction false} WalksSound(g: DiGraph, s: string, k: nat, p: seq<string>)
    requires Closed(g) && s in g.succ && p in g.Walks(s, k)
    ensures g.IsWalk(p) && p[0] == s && |p| == k + 1
    decreases k
  {
    if k > 0 {
      var w, v := WalkParts(g, s, k, p);
      WalksSound(g, s, k - 1, w);
      WalkStepSound(g, w, v);
    }
  }

  /** Every walk from `s` with `k` steps is a member of `Walks(s, k)`. */
  lemma {:induction false} WalksComplete(g: DiGraph, s: string, k: nat, p: seq<string>)
    requires g.IsWalk(p) && p[0] == s && |p| == k + 1
    ensures p in g.Walks(s, k)
    decreases k
  {
    if k == 0 {
      assert p == [s];
    } else {
      var w := p[..k];
      WalkPrefix(g, p);
      WalksComplete(g, s, k - 1, w);
      assert g.Adjacent(p[k - 1], p[k]);
      assert w[|w| - 1] == p[k - 1];
      assert p == w + [p[k]];
    }
  }

  /** `Walks(s, k)` holds exactly the walks from `s` with `k` steps. */
  lemma WalksExact(g: DiGraph, s: string, k: nat, p: seq<string>)
    requires Closed(g) && s in g.succ
    ensures p in g.Walks(s, k) <==> (g.IsWalk(p) && p[0] == s && |p| == k + 1)
  {
    if p in g.Walks(s, k) {
      WalksSound(g, s, k, p);
    }
    if g.IsWalk(p) && p[0] == s && |p| == k + 1 {
      WalksComplete(g, s, k, p);
    }
  }

  /** `Closure(s, k)` is the ball of radius `k` around `s` in the undirected
      view: the vertices some walk of at most `k` steps from `s` ends at. */
  lemma ClosureIsBall(g: DiGraph, s: string, k: nat, v: string)
    requires Closed(g) && s in g.succ
    ensures v in g.Closure(s, k) <==> exists p :: g.IsWalkBetween(p, s, v) && |p| <= k + 1
  {
    if v in g.Closure(s, k) {
      var p := ClosureHasWalk(g, s, v, k);
    }
    if exists p :: g.IsWalkBetween(p, s, v) && |p| <= k + 1 {
      var p :| g.IsWalkBetween(p, s, v) && |p| <= k + 1;
      WalkEndsInClosure(g, s, p, k);
    }
  }

  /** A walk of `k` steps from `s` to `t`, where `t` is not reached within
      `k` - 1 rounds, is a shortest path. */
  lemma ShortestByRounds(g: DiGraph, s: string, t: string, k: nat, p: seq<string>)
    requires g.IsWalkBetween(p, s, t) && |p| == k + 1
    requires k == 0 || t !in g.Closure(s, k - 1)
    ensures g.IsShortestPath(p, s, t)
  {
    forall q | g.IsWalkBetween(q, s, t) ensures |p| <= |q| {
      if |q| < |p| {
        WalkEndsInClosure(g, s, q, k - 1);
      }
    }
  }

  /** Cutting out the loop between two visits of the same vertex leaves a
      walk with the same ends. */
  lemma WalkSplice(g: DiGraph, p: seq<string>, i: nat, j: nat)
    requires g.IsWalk(p) && i < j < |p| && p[i] == p[j]
    ensures g.IsWalk(p[..i] + p[j..])
    ensures (p[..i] + p[j..])[0] == p[0]
    ensures (p[..i] + p[j..])[|p| - (j - i) - 1] == p[|p| - 1]
    ensures |p[..i] + p[j..]| == |p| - (j - i)
  {
    var q := p[..i] + p[j..];
    assert forall m | i <= m < |q| :: q[m] == p[m + (j - i)];
    assert forall m | 0 <= m < i :: q[m] == p[m];
    forall m | 0 <= m < |q| - 1 ensures g.Adjacent(q[m], q[m + 1]) {
      if m < i - 1 {
        assert g.Adjacent(p[m], p[m + 1]);
      } else if m == i - 1 {
        assert g.Adjacent(p[i - 1], p[i]);
      } else {
        assert g.Adjacent(p[m + (j - i)], p[m + (j - i) + 1]);
      }
    }
  }

  /** The spliced walk joins the same ends in fewer steps. */
  lemma SpliceShorter(g: DiGraph, p: seq<string>, i: nat, j: nat)
    requires g.IsWalk(p) && i < j < |p| && p[i] == p[j]
    ensures g.IsWalkBetween(p[..i] + p[j..], p[0], p[|p| - 1])
    ensures |p[..i] + p[j..]| < |p|
  {
    WalkSplice(g, p, i, j);
  }

  /** A shortest path never visits a vertex twice. */
  lemma ShortestIsSimple(g: DiGraph, p: seq<string>, s: string, t: string)
    requires g.IsShortestPath(p, s, t)
    ensures NoDup(p)
  {
    if !NoDup(p) {
      var i, j :| 0 <= i < j < |p| && p[i] == p[j];
      SpliceShorter(g, p, i, j);
      assert false;
    }
  }

  /** Once the rounds first reach `t` at round `k`, the shortest paths from
      `s` to `t` in the undirected view are exactly the walks of `k` steps
      ending at `t`, and there is at least one. */
  lemma ShortestPathsExact(g: DiGraph, s: string, t: string, k: nat, p: seq<string>)
    requires Closed(g) && s in g.succ
    requires t in g.Closure(s, k) && (k == 0 || t !in g.Closure(s, k - 1))
    ensures p in g.WalksTo(s, t, k) <==> g.IsShortestPath(p, s, t)
  {
    if p in g.WalksTo(s, t, k) {
      WalksSound(g, s, k, p);
      ShortestByRounds(g, s, t, k, p);
    }
    if g.IsShortestPath(p, s, t) {
      ShortestTakesKSteps(g, s, t, k, p);
      WalksComplete(g, s, k, p);
    }
  }

  /** A shortest path to a vertex first reached at round `k` has `k` steps. */
  lemma ShortestTakesKSteps(g: DiGraph, s: string, t: string, k: nat, p: seq<string>)
    requires Closed(g) && s in g.succ
    requires t in g.Closure(s, k) && (k == 0 || t !in g.Closure(s, k - 1))
    requires g.IsShortestPath(p, s, t)
    ensures |p| == k + 1
  {
    var q := ClosureHasWalk(g, s, t, k);
    ShortestNoLonger(g, s, t, p, q);
    if |p| < k + 1 {
      WalkEndsInClosure(g, s, p, k - 1);
    }
  }

  lemma ShortestNoLonger(g: DiGraph, s: string, t: string, p: seq<string>, q: seq<string>)
    requires g.IsShortestPath(p, s, t) && g.IsWalkBetween(q, s, t)
    ensures |p| <= |q|
  {
  }

  lemma ShortestPathsExist(g: DiGraph, s: string, t: string, k: nat)
    requires Closed(g) && s in g.succ
    requires t in g.Closure(s, k) && (k == 0 || t !in g.Closure(s, k - 1))
    ensures g.WalksTo(s, t, k) != {}
  {
    var p := ClosureHasWalk(g, s, t, k);
    if |p| < k + 1 {
      WalkEndsInClosure(g, s, p, k - 1);
    }
    WalksComplete(g, s, k, p);
    assert p in g.WalksTo(s, t, k);
  }

  /** When the rounds stop growing without reaching `t`, no walk leads from
      `s` to `t`. */
  lemma UnreachableAtFixpoint(g: DiGraph, s: string, t: string, k: nat)
    requires g.Expand(g.Closure(s, k)) == g.Closure(s, k) && t !in g.Closure(s, k)
    ensures !g.Reachable(s, t)
  {
    if g.Reachable(s, t) {
      var p :| g.IsWalkBetween(p, s, t);
      WalksStayInFixpoint(g, s, k, p);
    }
  }
}
