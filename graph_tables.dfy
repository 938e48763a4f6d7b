/** The networkx graph the service keeps is a function of its two tables: the
    node dictionary and the append-only edge log. This module states that
    function and proves that the graph operations the service performs keep
    the graph equal to it. */
module GraphTables {
  import opened GraphModels
  import opened DiGraphs

  /** The attributes `add_edge` stores for an edge record. */
  function DataOf(e: GraphEdge): EdgeData {
    EdgeData(e.relationship, e.weight)
  }

  /** Some record of the log runs from `u` to `v`. */
  predicate HasEdge(edges: seq<GraphEdge>, u: string, v: string) {
    exists i | 0 <= i < |edges| :: edges[i].sourceId == u && edges[i].targetId == v
  }

  /** The targets of the records leaving `u`, each once, in the order of
      their first record: networkx's successor order. */
  function SuccessorList(edges: seq<GraphEdge>, u: string): seq<string> {
    if edges == [] then []
    else
      var e := edges[|edges| - 1];
      var t := SuccessorList(edges[..|edges| - 1], u);
      if e.sourceId == u && e.targetId !in t then t + [e.targetId] else t
  }

  /** The sources of the records entering `v`, each once, in the order of
      their first record: networkx's predecessor order. */
  function PredecessorList(edges: seq<GraphEdge>, v: string): seq<string> {
    if edges == [] then []
    else
      var e := edges[|edges| - 1];
      var s := PredecessorList(edges[..|edges| - 1], v);
      if e.targetId == v && e.sourceId !in s then s + [e.sourceId] else s
  }

  /** A record of `edges` runs from `u` to `v` exactly when one of the log
      without its last record does, or the last one does. */
  lemma HasEdgeSplit(edges: seq<GraphEdge>, u: string, v: string)
    requires edges != []
    ensures HasEdge(edges, u, v) <==>
      HasEdge(edges[..|edges| - 1], u, v) || (edges[|edges| - 1].sourceId == u && edges[|edges| - 1].targetId == v)
  {
    var init := edges[..|edges| - 1];
    if HasEdge(edges, u, v) {
      var i :| 0 <= i < |edges| && edges[i].sourceId == u && edges[i].targetId == v;
      if i < |edges| - 1 {
        assert init[i] == edges[i];
      }
    }
    if HasEdge(init, u, v) {
      var i :| 0 <= i < |init| && init[i].sourceId == u && init[i].targetId == v;
      assert edges[i] == init[i];
    }
  }

  /** The successor list holds each target of `u` in the log, and nothing
      else, exactly once. */
  lemma {:induction false} SuccessorListSpec(edges: seq<GraphEdge>, u: string)
    ensures NoDup(SuccessorList(edges, u))
    ensures forall v :: v in SuccessorList(edges, u) <==> HasEdge(edges, u, v)
  {
    if edges != [] {
      SuccessorListSpec(edges[..|edges| - 1], u);
      forall v ensures v in SuccessorList(edges, u) <==> HasEdge(edges, u, v) {
        HasEdgeSplit(edges, u, v);
      }
    }
  }

  /** The predecessor list holds each source of `v` in the log, and nothing
      else, exactly once. */
  lemma {:induction false} PredecessorListSpec(edges: seq<GraphEdge>, v: string)
    ensures NoDup(PredecessorList(edges, v))
    ensures forall u :: u in PredecessorList(edges, v) <==> HasEdge(edges, u, v)
  {
    if edges != [] {
      PredecessorListSpec(edges[..|edges| - 1], v);
      forall u ensures u in PredecessorList(edges, v) <==> HasEdge(edges, u, v) {
        HasEdgeSplit(edges, u, v);
      }
    }
  }

  /** The attributes networkx holds per ordered pair: those of the latest
      record for that pair, since `add_edge` overwrites them. */
  function LatestData(edges: seq<GraphEdge>): map<(string, string), EdgeData> {
    if edges == [] then map[]
    else
      var e := edges[|edges| - 1];
      LatestData(edges[..|edges| - 1])[(e.sourceId, e.targetId) := DataOf(e)]
  }

  /** The pairs with attributes are exactly the pairs some record joins. */
  lemma {:induction false} LatestDataKeys(edges: seq<GraphEdge>)
    ensures forall u, v :: (u, v) in LatestData(edges) <==> HasEdge(edges, u, v)
  {
    if edges != [] {
      LatestDataKeys(edges[..|edges| - 1]);
      forall u, v ensures (u, v) in LatestData(edges) <==> HasEdge(edges, u, v) {
        HasEdgeSplit(edges, u, v);
      }
    }
  }

  /** The latest record for a pair decides its attributes. */
  lemma LatestDataOfLast(edges: seq<GraphEdge>, e: GraphEdge)
    ensures LatestData(edges + [e])[(e.sourceId, e.targetId)] == DataOf(e)
  {
    assert (edges + [e])[..|edges|] == edges;
  }

  /** Later records for other pairs leave a pair's attributes alone. */
  lemma LatestDataOfOther(edges: seq<GraphEdge>, e: GraphEdge, u: string, v: string)
    requires (u, v) != (e.sourceId, e.targetId) && (u, v) in LatestData(edges)
    ensures LatestData(edges + [e])[(u, v)] == LatestData(edges)[(u, v)]
  {
    assert (edges + [e])[..|edges|] == edges;
  }

  /** The graph holds one edge per distinct pair, so never more than there are
      records. */
  lemma {:induction false} LatestDataSize(edges: seq<GraphEdge>)
    ensures |LatestData(edges).Keys| <= |edges|
  {
    if edges != [] {
      var e := edges[|edges| - 1];
      LatestDataSize(edges[..|edges| - 1]);
      var m := LatestData(edges[..|edges| - 1]);
      assert LatestData(edges).Keys == m.Keys + {(e.sourceId, e.targetId)};
    }
  }

  /** Every id that appears as a source or a target in the log. */
  function Endpoints(edges: seq<GraphEdge>): set<string> {
    (set e | e in edges :: e.sourceId) + (set e | e in edges :: e.targetId)
  }

  lemma EndpointsAppend(edges: seq<GraphEdge>, e: GraphEdge)
    ensures Endpoints(edges + [e]) == Endpoints(edges) + {e.sourceId, e.targetId}
  {
    assert forall x :: x in edges + [e] <==> x in edges || x == e;
  }

  /** The graph built from the vertex set `verts` and the log `edges`. */
  function GraphOf(verts: set<string>, edges: seq<GraphEdge>): DiGraph {
    DiGraph(map u | u in verts :: SuccessorList(edges, u),
            map v | v in verts :: PredecessorList(edges, v),
            LatestData(edges))
  }

  /** The vertex set holds both ends of every record. */
  predicate Covers(verts: set<string>, edges: seq<GraphEdge>) {
    forall i | 0 <= i < |edges| :: edges[i].sourceId in verts && edges[i].targetId in verts
  }

  lemma CoversEndpoints(verts: set<string>, edges: seq<GraphEdge>)
    requires Endpoints(edges) <= verts
    ensures Covers(verts, edges)
  {
    forall i | 0 <= i < |edges| ensures edges[i].sourceId in verts && edges[i].targetId in verts {
      assert edges[i] in edges;
    }
  }

  lemma GraphOfLists(verts: set<string>, edges: seq<GraphEdge>)
    requires Endpoints(edges) <= verts
    ensures GraphOf(verts, edges).ListsDistinct()
  {
    var g := GraphOf(verts, edges);
    forall u | u in verts ensures NoDup(g.succ[u]) && NoDup(g.pred[u]) {
      SuccessorListSpec(edges, u);
      PredecessorListSpec(edges, u);
    }
  }

  lemma GraphOfSuccPred(verts: set<string>, edges: seq<GraphEdge>)
    requires Endpoints(edges) <= verts
    ensures GraphOf(verts, edges).SuccMirrored()
  {
    CoversEndpoints(verts, edges);
    LatestDataKeys(edges);
    var g := GraphOf(verts, edges);
    forall u, v | u in g.succ && v in g.succ[u] ensures v in g.pred && u in g.pred[v] && (u, v) in g.data {
      SuccessorListSpec(edges, u);
      var i :| 0 <= i < |edges| && edges[i].sourceId == u && edges[i].targetId == v;
      PredecessorListSpec(edges, v);
    }
  }

  lemma GraphOfPredSucc(verts: set<string>, edges: seq<GraphEdge>)
    requires Endpoints(edges) <= verts
    ensures GraphOf(verts, edges).PredMirrored()
  {
    CoversEndpoints(verts, edges);
    var g := GraphOf(verts, edges);
    forall u, v | v in g.pred && u in g.pred[v] ensures u in g.succ && v in g.succ[u] {
      PredecessorListSpec(edges, v);
      var i :| 0 <= i < |edges| && edges[i].sourceId == u && edges[i].targetId == v;
      SuccessorListSpec(edges, u);
    }
  }

  lemma GraphOfData(verts: set<string>, edges: seq<GraphEdge>)
    requires Endpoints(edges) <= verts
    ensures GraphOf(verts, edges).DataOnEdges()
  {
    CoversEndpoints(verts, edges);
    LatestDataKeys(edges);
    var g := GraphOf(verts, edges);
    forall e | e in g.data ensures e.0 in g.succ && e.1 in g.succ[e.0] {
      var i :| 0 <= i < |edges| && edges[i].sourceId == e.0 && edges[i].targetId == e.1;
      SuccessorListSpec(edges, e.0);
    }
  }

  /** When the vertex set covers the log, the built graph is well formed:
      successor and predecessor lists mirror each other and the pairs with
      attributes are exactly its edges. */
  lemma GraphOfValid(verts: set<string>, edges: seq<GraphEdge>)
    requires Endpoints(edges) <= verts
    ensures GraphOf(verts, edges).Valid()
  {
    GraphOfLists(verts, edges);
    GraphOfSuccPred(verts, edges);
    GraphOfPredSucc(verts, edges);
    GraphOfData(verts, edges);
  }

  /** When `n` is no endpoint of the log, it has no edges. */
  lemma NoEdgesAtFreshVertex(edges: seq<GraphEdge>, n: string)
    requires n !in Endpoints(edges)
    ensures SuccessorList(edges, n) == [] && PredecessorList(edges, n) == []
  {
    SuccessorListSpec(edges, n);
    PredecessorListSpec(edges, n);
  }

  /** `add_node` on the built graph is the graph built with one more vertex. */
  lemma GraphOfAddNode(verts: set<string>, edges: seq<GraphEdge>, n: string)
    requires Endpoints(edges) <= verts
    ensures GraphOf(verts + {n}, edges) == GraphOf(verts, edges).AddNode(n)
  {
    if n !in verts {
      NoEdgesAtFreshVertex(edges, n);
    }
    var g := GraphOf(verts, edges).AddNode(n);
    var h := GraphOf(verts + {n}, edges);
    AddNodeLists(GraphOf(verts, edges), n);
    assert h.succ == g.succ;
    assert h.pred == g.pred;
  }

  /** One more record extends the successor list of its source when its
      target is new there, and changes no other successor list. */
  lemma SuccessorListAppend(edges: seq<GraphEdge>, e: GraphEdge, x: string)
    ensures SuccessorList(edges + [e], x)
         == if x == e.sourceId && e.targetId !in SuccessorList(edges, x) then SuccessorList(edges, x) + [e.targetId]
            else SuccessorList(edges, x)
  {
    assert (edges + [e])[..|edges|] == edges;
  }

  lemma PredecessorListAppend(edges: seq<GraphEdge>, e: GraphEdge, x: string)
    ensures PredecessorList(edges + [e], x)
         == if x == e.targetId && e.sourceId !in PredecessorList(edges, x) then PredecessorList(edges, x) + [e.sourceId]
            else PredecessorList(edges, x)
  {
    assert (edges + [e])[..|edges|] == edges;
  }

  lemma SuccAfterAppend(w: set<string>, edges: seq<GraphEdge>, e: GraphEdge, x: string)
    requires x in w
    ensures GraphOf(w, edges + [e]).succ[x]
         == if x == e.sourceId && e.targetId !in SuccessorList(edges, x) then SuccessorList(edges, x) + [e.targetId]
            else SuccessorList(edges, x)
  {
    SuccessorListAppend(edges, e, x);
  }

  lemma PredAfterAppend(w: set<string>, edges: seq<GraphEdge>, e: GraphEdge, x: string)
    requires x in w
    ensures GraphOf(w, edges + [e]).pred[x]
         == if x == e.targetId && e.sourceId !in PredecessorList(edges, x) then PredecessorList(edges, x) + [e.sourceId]
            else PredecessorList(edges, x)
  {
    PredecessorListAppend(edges, e, x);
  }

  lemma SuccMapAfterAppend(w: set<string>, edges: seq<GraphEdge>, e: GraphEdge)
    requires e.sourceId in w
    ensures GraphOf(w, edges + [e]).succ
         == if e.targetId !in SuccessorList(edges, e.sourceId)
            then GraphOf(w, edges).succ[e.sourceId := SuccessorList(edges, e.sourceId) + [e.targetId]]
            else GraphOf(w, edges).succ
  {
    forall x | x in w
      ensures GraphOf(w, edges + [e]).succ[x]
           == if x == e.sourceId && e.targetId !in SuccessorList(edges, x) then SuccessorList(edges, x) + [e.targetId]
              else SuccessorList(edges, x)
    {
      SuccAfterAppend(w, edges, e, x);
    }
  }

  lemma PredMapAfterAppend(w: set<string>, edges: seq<GraphEdge>, e: GraphEdge)
    requires e.targetId in w
    ensures GraphOf(w, edges + [e]).pred
         == if e.sourceId !in PredecessorList(edges, e.targetId)
            then GraphOf(w, edges).pred[e.targetId := PredecessorList(edges, e.targetId) + [e.sourceId]]
            else GraphOf(w, edges).pred
  {
    forall x | x in w
      ensures GraphOf(w, edges + [e]).pred[x]
           == if x == e.targetId && e.sourceId !in PredecessorList(edges, x) then PredecessorList(edges, x) + [e.sourceId]
              else PredecessorList(edges, x)
    {
      PredAfterAppend(w, edges, e, x);
    }
  }

  /** With both endpoints already vertices, one more record is one more
      `add_edge`. */
  lemma GraphOfAppend(w: set<string>, edges: seq<GraphEdge>, e: GraphEdge)
    requires e.sourceId in w && e.targetId in w
    ensures GraphOf(w, edges + [e]) == GraphOf(w, edges).AddEdge(e.sourceId, e.targetId, DataOf(e))
  {
    var u, v := e.sourceId, e.targetId;
    var h := GraphOf(w, edges);
    SuccMapAfterAppend(w, edges, e);
    PredMapAfterAppend(w, edges, e);
    assert (edges + [e])[..|edges|] == edges;
    assert h.AddNode(u).AddNode(v) == h;
    assert v in SuccessorList(edges, u) <==> u in PredecessorList(edges, v) by {
      SuccessorListSpec(edges, u);
      PredecessorListSpec(edges, v);
    }
  }

  /** `add_edge` on the built graph is the graph built from the log with one
      more record, its endpoints joining the vertex set. */
  lemma GraphOfAddEdge(verts: set<string>, edges: seq<GraphEdge>, e: GraphEdge)
    requires Endpoints(edges) <= verts
    ensures GraphOf(verts + {e.sourceId, e.targetId}, edges + [e])
         == GraphOf(verts, edges).AddEdge(e.sourceId, e.targetId, DataOf(e))
  {
    var u, v := e.sourceId, e.targetId;
    GraphOfAddNode(verts, edges, u);
    GraphOfAddNode(verts + {u}, edges, v);
    assert verts + {u} + {v} == verts + {u, v};
    GraphOfAppend(verts + {u, v}, edges, e);
  }

  /** Storing one more node id adds that vertex to the graph of a node
      table and a log. */
  lemma GraphOfLogAddNode(keys: set<string>, edges: seq<GraphEdge>, n: string)
    ensures GraphOf(keys + {n} + Endpoints(edges), edges) == GraphOf(keys + Endpoints(edges), edges).AddNode(n)
  {
    GraphOfAddNode(keys + Endpoints(edges), edges, n);
    assert keys + {n} + Endpoints(edges) == keys + Endpoints(edges) + {n};
  }

  /** Logging one more record is `add_edge` of that record. */
  lemma GraphOfLogAddEdge(keys: set<string>, edges: seq<GraphEdge>, e: GraphEdge)
    ensures GraphOf(keys + Endpoints(edges + [e]), edges + [e])
         == GraphOf(keys + Endpoints(edges), edges).AddEdge(e.sourceId, e.targetId, DataOf(e))
  {
    GraphOfAddEdge(keys + Endpoints(edges), edges, e);
    EndpointsAppend(edges, e);
    assert keys + Endpoints(edges + [e]) == keys + Endpoints(edges) + {e.sourceId, e.targetId};
  }
}
