/** What the read-only queries of the knowledge graph return, stated as
    functions of the node table, the edge log and the graph: the entries of a
    subgraph view, an article's links, the articles mentioning an entity and
    the graph context handed to the predictor. */
module GraphQueries {
  import opened Wrappers
  import opened GraphModels
  import opened DiGraphs
  import opened GraphTables

  function Elems<T>(s: seq<T>): set<T> {
    set x | x in s
  }

  lemma {:induction false} NoDupCard<T>(s: seq<T>)
    requires NoDup(s)
    ensures |Elems(s)| == |s|
  {
    if s != [] {
      var init := s[..|s| - 1];
      NoDupCard(init);
      assert Elems(s) == Elems(init) + {s[|s| - 1]};
      assert s[|s| - 1] !in Elems(init);
    }
  }

  lemma NoDupSnoc<T>(s: seq<T>, x: T)
    requires NoDup(s) && x !in Elems(s)
    ensures NoDup(s + [x]) && Elems(s + [x]) == Elems(s) + {x}
  {
  }

  lemma {:induction false} SubsetCard<T>(a: set<T>, b: set<T>)
    requires a < b
    ensures |a| < |b|
    decreases |a|
  {
    var x :| x in b && x !in a;
    if a != {} {
      var y :| y in a;
      assert x in b - {y} && x !in a - {y};
      SubsetCard(a - {y}, b - {y});
    }
  }

  // ----- get_subgraph -----

  /** The rounds of expansion `range(depth)` performs. */
  function Rounds(depth: int): nat {
    if depth < 0 then 0 else depth
  }

  /** The dictionary a subgraph view shows for node `n`; the focus node is
      drawn at twice its size. */
  function NodeEntry(n: GraphNode, isCenter: bool): Dict {
    map["id" := Str(n.id), "label" := Str(n.displayLabel), "node_type" := Str(n.nodeType.Value()),
        "size" := Num(if isCenter then n.size * 2.0 else n.size), "properties" := Props(n.properties)]
  }

  /** One round of `get_subgraph`'s expansion: every predecessor and
      successor of the vertices of `within` joins them. */
  method ExpandOnce(g: DiGraph, within: set<string>) returns (r: set<string>)
    requires Closed(g) && within <= g.succ.Keys
    ensures r == g.Expand(within)
  {
    var todo, found := within, {};
    assert within - todo == {};
    NeighborsOfEmpty(g);
    while todo != {}
      invariant todo <= within
      invariant found == g.NeighborsOfSet(within - todo)
      decreases |todo|
    {
      var n :| n in todo;
      assert n in g.pred;
      NeighborsOfInsert(g, within - todo, n);
      assert within - (todo - {n}) == (within - todo) + {n};
      found := found + (set x | x in g.pred[n]) + (set x | x in g.succ[n]);
      todo := todo - {n};
    }
    r := within + found;
  }

  /** The vertices `depth` rounds of expansion reach from `center`. */
  method ExpandRounds(g: DiGraph, center: string, depth: int) returns (reached: set<string>)
    requires Closed(g) && center in g.succ
    ensures reached == g.Closure(center, Rounds(depth))
  {
    reached := {center};
    var round := 0;
    while round < depth
      invariant 0 <= round <= Rounds(depth)
      invariant reached == g.Closure(center, round)
      invariant reached <= g.succ.Keys
    {
      reached := ExpandOnce(g, reached);
      round := round + 1;
      ClosureInVertices(g, center, round);
    }
  }

  /** A strictly growing subset of `all` leaves strictly less of it. */
  lemma GrowthShrinks<T>(all: set<T>, a: set<T>, b: set<T>)
    requires a <= b <= all && a != b
    ensures |all - b| < |all - a|
  {
    assert all - b < all - a;
    SubsetCard(all - b, all - a);
  }

  lemma RoundStep(g: DiGraph, s: string, t: string, k: nat, reached: set<string>, next: set<string>)
    requires Closed(g) && s in g.succ && reached == g.Closure(s, k) && reached <= g.succ.Keys
    requires next == g.Expand(reached) && next != reached && t !in reached
    ensures next == g.Closure(s, k + 1) && next <= g.succ.Keys && t !in g.Closure(s, k)
    ensures |g.succ.Keys - next| < |g.succ.Keys - reached|
  {
    ClosureInVertices(g, s, k + 1);
    GrowthShrinks(g.succ.Keys, reached, next);
  }

  /** The breadth-first rounds behind `find_connections_between`: expand
      from `id1` until `id2` is reached (`k` is then the first round that
      reaches it) or a round adds nothing. */
  method ReachRounds(g: DiGraph, id1: string, id2: string) returns (reached: set<string>, k: nat)
    requires Closed(g) && id1 in g.succ
    ensures reached == g.Closure(id1, k)
    ensures k == 0 || id2 !in g.Closure(id1, k - 1)
    ensures id2 !in reached ==> g.Expand(reached) == reached
  {
    reached, k := {id1}, 0;
    ghost var prev: set<string> := {};
    ClosureInVertices(g, id1, 0);
    while id2 !in reached
      invariant reached == g.Closure(id1, k) && reached <= g.succ.Keys
      invariant id2 !in prev
      invariant k > 0 ==> prev == g.Closure(id1, k - 1)
      decreases |g.succ.Keys - reached|
    {
      var next := ExpandOnce(g, reached);
      if next == reached {
        return;
      }
      RoundStep(g, id1, id2, k, reached, next);
      prev := reached;
      reached, k := next, k + 1;
    }
  }

  /** Up to three distinct members of `cands`, and all of them when there
      are fewer than three. */
  method PickUpTo3(cands: set<seq<string>>) returns (paths: seq<seq<string>>)
    ensures |paths| <= 3 && NoDup(paths) && Elems(paths) <= cands
    ensures |paths| < 3 ==> Elems(paths) == cands
    ensures paths == [] <==> cands == {}
  {
    paths := [];
    var rest := cands;
    while |paths| < 3 && rest != {}
      invariant |paths| <= 3 && NoDup(paths)
      invariant rest <= cands && Elems(paths) == cands - rest
      decreases |rest|
    {
      var p :| p in rest;
      NoDupSnoc(paths, p);
      paths := paths + [p];
      rest := rest - {p};
    }
    assert paths == [] ==> Elems(paths) == {};
    assert paths != [] ==> paths[0] in Elems(paths);
  }

  /** `find_connections_between`: up to three shortest paths between the
      two vertices in the undirected view (networkx's enumeration order is
      not modelled: any three of them). There is none exactly when no walk
      joins them; fewer than three means these are all of them. */
  method ConnectionsBetween(g: DiGraph, id1: string, id2: string) returns (paths: seq<seq<string>>)
    requires Closed(g)
    ensures paths == [] <==> !g.Reachable(id1, id2)
    ensures |paths| <= 3 && NoDup(paths)
    ensures forall p | p in paths :: g.IsShortestPath(p, id1, id2) && NoDup(p)
    ensures |paths| < 3 ==> forall p | g.IsShortestPath(p, id1, id2) :: p in paths
  {
    paths := [];
    if id1 !in g.succ || id2 !in g.succ {
      assert forall p | g.IsWalkBetween(p, id1, id2) :: p[0] in g.succ && p[|p| - 1] in g.succ;
      return;
    }
    var reached, k := ReachRounds(g, id1, id2);
    if id2 !in reached {
      UnreachableAtFixpoint(g, id1, id2, k);
      return;
    }
    ShortestPathsExist(g, id1, id2, k);
    paths := PickUpTo3(g.WalksTo(id1, id2, k));
    forall p | p in paths ensures g.IsShortestPath(p, id1, id2) && NoDup(p) {
      assert p in Elems(paths);
      ShortestPathsExact(g, id1, id2, k, p);
      ShortestIsSimple(g, p, id1, id2);
    }
    forall p | g.IsShortestPath(p, id1, id2) && |paths| < 3 ensures p in paths {
      ShortestPathsExact(g, id1, id2, k, p);
      assert p in Elems(paths);
    }
    assert g.IsShortestPath(paths[0], id1, id2);
  }

  /** The node entries for the stored nodes `ids`, in that order. */
  function NodeEntries(nodes: map<string, GraphNode>, ids: seq<string>, center: string): seq<Dict>
    requires Elems(ids) <= nodes.Keys
  {
    seq(|ids|, i requires 0 <= i < |ids| => NodeEntry(nodes[ids[i]], ids[i] == center))
  }

  /** Subgraph node entries carry their kind under "node_type", while the
      vis.js conversion reads "type": every converted node has no group,
      keeps the entry's id and takes the entry's size as its value. */
  lemma SubgraphNodesHaveNoGroup(nodes: map<string, GraphNode>, ids: seq<string>, center: string, v: GraphVisualization)
    requires Elems(ids) <= nodes.Keys && v.nodes == NodeEntries(nodes, ids, center)
    ensures |ToVisJsFormat(v).nodes| == |ids|
    ensures forall i :: 0 <= i < |ids| ==>
      && ToVisJsFormat(v).nodes[i].group == Null
      && ToVisJsFormat(v).nodes[i].id == Str(nodes[ids[i]].id)
      && ToVisJsFormat(v).nodes[i].value == v.nodes[i]["size"]
  {
    forall i | 0 <= i < |ids|
      ensures ToVisJsFormat(v).nodes[i].group == Null
    {
      assert "type" !in v.nodes[i];
    }
  }

  lemma NodeEntriesSnoc(nodes: map<string, GraphNode>, ids: seq<string>, id: string, center: string)
    requires Elems(ids) <= nodes.Keys && id in nodes
    ensures Elems(ids + [id]) <= nodes.Keys
    ensures NodeEntries(nodes, ids + [id], center) == NodeEntries(nodes, ids, center) + [NodeEntry(nodes[id], id == center)]
  {
  }

  /** The dictionary a subgraph view shows for the edge record `e`. */
  function EdgeEntry(e: GraphEdge): Dict {
    map["source" := Str(e.sourceId), "target" := Str(e.targetId),
        "relationship" := Str(e.relationship.Value()), "weight" := Num(e.weight)]
  }

  function EdgeEntries(es: seq<GraphEdge>): seq<Dict> {
    seq(|es|, i requires 0 <= i < |es| => EdgeEntry(es[i]))
  }

  lemma EdgeEntriesSnoc(es: seq<GraphEdge>, e: GraphEdge)
    ensures EdgeEntries(es + [e]) == EdgeEntries(es) + [EdgeEntry(e)]
  {
  }

  /** The edge records with both endpoints in `within`, in log order. */
  function InSubgraph(edges: seq<GraphEdge>, within: set<string>): seq<GraphEdge> {
    if edges == [] then []
    else
      var e := edges[|edges| - 1];
      InSubgraph(edges[..|edges| - 1], within) + (if e.sourceId in within && e.targetId in within then [e] else [])
  }

  /** A subgraph view shows each record with both endpoints inside as often
      as the log holds it, duplicates included, and no other record. */
  lemma {:induction false} InSubgraphCount(edges: seq<GraphEdge>, within: set<string>, e: GraphEdge)
    ensures multiset(InSubgraph(edges, within))[e]
         == if e.sourceId in within && e.targetId in within then multiset(edges)[e] else 0
  {
    if edges != [] {
      var init := edges[..|edges| - 1];
      InSubgraphCount(init, within, e);
      assert edges == init + [edges[|edges| - 1]];
    }
  }

  /** Records of edges between stored nodes show nodes the view has. */
  lemma {:induction false} InSubgraphEndpoints(edges: seq<GraphEdge>, within: set<string>, stored: set<string>)
    requires Endpoints(edges) <= stored
    ensures forall e | e in InSubgraph(edges, within) ::
      e.sourceId in within * stored && e.targetId in within * stored
  {
    if edges != [] {
      var init := edges[..|edges| - 1];
      assert Endpoints(init) <= Endpoints(edges) by {
        assert forall e | e in init :: e in edges;
      }
      InSubgraphEndpoints(init, within, stored);
    }
  }

  // ----- get_article_connections -----

  /** A link from an article to another article, with the relationship the
      graph stores on the pair. */
  datatype ArticleLink = ArticleLink(articleId: string, displayLabel: string, relationship: string)

  /** A link from an article to an entity. */
  datatype EntityLink = EntityLink(entityId: string, kind: NodeType, displayLabel: string)

  datatype Connections = Connections(connections: seq<ArticleLink>, entities: seq<EntityLink>)

  /** The relationship stored on the pair, "related_to" when it has none. */
  function RelationshipOf(g: DiGraph, a: string, s: string): string {
    if (a, s) in g.data then g.data[(a, s)].relationship.Value() else "related_to"
  }

  predicate IsStoredArticle(nodes: map<string, GraphNode>, id: string) {
    id in nodes && nodes[id].nodeType == NodeType.Article
  }

  predicate IsStoredEntity(nodes: map<string, GraphNode>, id: string) {
    id in nodes && nodes[id].nodeType != NodeType.Article
  }

  /** The article links of `a` for the successors `ss`, in order. */
  function ArticleLinks(g: DiGraph, nodes: map<string, GraphNode>, a: string, ss: seq<string>): seq<ArticleLink> {
    if ss == [] then []
    else
      var s := ss[|ss| - 1];
      ArticleLinks(g, nodes, a, ss[..|ss| - 1])
        + (if IsStoredArticle(nodes, s) then [ArticleLink(s, nodes[s].displayLabel, RelationshipOf(g, a, s))] else [])
  }

  /** The entity links for the successors `ss`, in order. */
  function EntityLinks(nodes: map<string, GraphNode>, ss: seq<string>): seq<EntityLink> {
    if ss == [] then []
    else
      var s := ss[|ss| - 1];
      EntityLinks(nodes, ss[..|ss| - 1])
        + (if IsStoredEntity(nodes, s) then [EntityLink(s, nodes[s].nodeType, nodes[s].displayLabel)] else [])
  }

  /** The successors that are stored nodes. */
  function Stored(nodes: map<string, GraphNode>, ss: seq<string>): seq<string> {
    if ss == [] then []
    else Stored(nodes, ss[..|ss| - 1]) + (if ss[|ss| - 1] in nodes then [ss[|ss| - 1]] else [])
  }

  /** An article link is made for exactly the successors that are stored
      articles, showing their label and the stored relationship. */
  lemma {:induction false} ArticleLinksExact(g: DiGraph, nodes: map<string, GraphNode>, a: string, ss: seq<string>, l: ArticleLink)
    ensures l in ArticleLinks(g, nodes, a, ss) <==>
      && l.articleId in ss && IsStoredArticle(nodes, l.articleId)
      && l == ArticleLink(l.articleId, nodes[l.articleId].displayLabel, RelationshipOf(g, a, l.articleId))
  {
    if ss != [] {
      var init := ss[..|ss| - 1];
      ArticleLinksExact(g, nodes, a, init, l);
      assert ss == init + [ss[|ss| - 1]];
    }
  }

  /** An entity link is made for exactly the successors that are stored
      entities, showing their type and label. */
  lemma {:induction false} EntityLinksExact(nodes: map<string, GraphNode>, ss: seq<string>, l: EntityLink)
    ensures l in EntityLinks(nodes, ss) <==>
      && l.entityId in ss && IsStoredEntity(nodes, l.entityId)
      && l == EntityLink(l.entityId, nodes[l.entityId].nodeType, nodes[l.entityId].displayLabel)
  {
    if ss != [] {
      var init := ss[..|ss| - 1];
      EntityLinksExact(nodes, init, l);
      assert ss == init + [ss[|ss| - 1]];
    }
  }

  /** Every stored successor gives exactly one link, an article link or an
      entity link. */
  lemma {:induction false} LinksPartition(g: DiGraph, nodes: map<string, GraphNode>, a: string, ss: seq<string>)
    ensures |ArticleLinks(g, nodes, a, ss)| + |EntityLinks(nodes, ss)| == |Stored(nodes, ss)|
    ensures Elems(ss) <= nodes.Keys ==> Stored(nodes, ss) == ss
  {
    if ss != [] {
      var init := ss[..|ss| - 1];
      LinksPartition(g, nodes, a, init);
      if Elems(ss) <= nodes.Keys {
        assert Elems(init) <= Elems(ss);
        assert ss == init + [ss[|ss| - 1]];
      }
    }
  }

  /** What `get_article_connections` returns for `a`: no links when `a` is
      not in the graph, otherwise one link per stored successor, in the
      graph's successor order. */
  function ArticleConnections(g: DiGraph, nodes: map<string, GraphNode>, a: string): Connections {
    if a in g.succ then Connections(ArticleLinks(g, nodes, a, g.succ[a]), EntityLinks(nodes, g.succ[a]))
    else Connections([], [])
  }

  // ----- _find_articles_mentioning -----

  /** The predecessors `ps` that are stored article nodes, in order. */
  function ArticlesAmong(nodes: map<string, GraphNode>, ps: seq<string>): seq<string> {
    if ps == [] then []
    else
      var p := ps[|ps| - 1];
      ArticlesAmong(nodes, ps[..|ps| - 1]) + (if IsStoredArticle(nodes, p) then [p] else [])
  }

  /** Exactly the stored articles among `ps`, each once when `ps` lists it
      once. */
  lemma {:induction false} ArticlesAmongExact(nodes: map<string, GraphNode>, ps: seq<string>)
    ensures forall x :: x in ArticlesAmong(nodes, ps) <==> x in ps && IsStoredArticle(nodes, x)
    ensures NoDup(ps) ==> NoDup(ArticlesAmong(nodes, ps))
    ensures |ArticlesAmong(nodes, ps)| <= |ps|
  {
    if ps != [] {
      var init := ps[..|ps| - 1];
      ArticlesAmongExact(nodes, init);
      assert ps == init + [ps[|ps| - 1]];
      if NoDup(ps) {
        assert NoDup(init) by {
          forall i, j | 0 <= i < j < |init| ensures init[i] != init[j] {
            assert init[i] == ps[i] && init[j] == ps[j];
          }
        }
        assert ps[|ps| - 1] !in init by {
          forall i | 0 <= i < |init| ensures init[i] != ps[|ps| - 1] {
            assert init[i] == ps[i];
          }
        }
      }
    }
  }

  /** The articles of the log that mention `id`: those with a record to it. */
  function Mentioning(g: DiGraph, nodes: map<string, GraphNode>, id: string): seq<string> {
    if id in g.succ && id in g.pred then ArticlesAmong(nodes, g.pred[id]) else []
  }

  // ----- get_prediction_context -----

  datatype CveContext = CveContext(cve: string, articleCount: nat, isTrending: bool)
  datatype ActorContext = ActorContext(actor: string, articleCount: nat, activeCampaigns: bool)
  datatype RelatedArticle = RelatedArticle(id: string, title: string, relationship: string)

  /** The graph context of an article: nothing when it is not in the graph. */
  datatype GraphContext =
    | NoGraphData
    | GraphData(
        connectionCount: nat,
        connectionDensity: real,
        relatedCves: seq<string>,
        relatedThreatActors: seq<string>,
        relatedArticles: seq<RelatedArticle>,
        threatActorHistory: seq<ActorContext>,
        cveSeverityContext: seq<CveContext>)

  /** `min(1.0, count / 10.0)`. */
  function Density(count: nat): real {
    if count as real / 10.0 < 1.0 then count as real / 10.0 else 1.0
  }

  /** The density lies in [0, 1], reaches 1 from ten connections on, and
      never falls as the count grows. */
  lemma DensityBounds(m: nat, n: nat)
    ensures 0.0 <= Density(n) <= 1.0
    ensures Density(n) == 1.0 <==> n >= 10
    ensures m <= n ==> Density(m) <= Density(n)
  {
  }

  /** The labels of the entity links of one node type, in order. */
  function LabelsOfKind(ents: seq<EntityLink>, kind: NodeType): (labels: seq<string>) {
    if ents == [] then []
    else
      var e := ents[|ents| - 1];
      LabelsOfKind(ents[..|ents| - 1], kind) + (if e.kind == kind then [e.displayLabel] else [])
  }

  /** One entry per vulnerability link: how many articles mention it, and
      whether that is more than two. */
  function CveContexts(g: DiGraph, nodes: map<string, GraphNode>, ents: seq<EntityLink>): seq<CveContext> {
    if ents == [] then []
    else
      var e := ents[|ents| - 1];
      var n := |Mentioning(g, nodes, e.entityId)|;
      CveContexts(g, nodes, ents[..|ents| - 1]) + (if e.kind == Vulnerability then [CveContext(e.displayLabel, n, n > 2)] else [])
  }

  /** One entry per threat-actor link: how many articles mention it, and
      whether that is more than one. */
  function ActorContexts(g: DiGraph, nodes: map<string, GraphNode>, ents: seq<EntityLink>): seq<ActorContext> {
    if ents == [] then []
    else
      var e := ents[|ents| - 1];
      var n := |Mentioning(g, nodes, e.entityId)|;
      ActorContexts(g, nodes, ents[..|ents| - 1]) + (if e.kind == ThreatActor then [ActorContext(e.displayLabel, n, n > 1)] else [])
  }

  function RelatedArticles(links: seq<ArticleLink>): seq<RelatedArticle> {
    seq(|links|, i requires 0 <= i < |links| => RelatedArticle(links[i].articleId, links[i].displayLabel, links[i].relationship))
  }

  lemma RelatedArticlesSnoc(links: seq<ArticleLink>, l: ArticleLink)
    ensures RelatedArticles(links + [l]) == RelatedArticles(links) + [RelatedArticle(l.articleId, l.displayLabel, l.relationship)]
  {
  }

  /** The related-article entries of `get_prediction_context`, one per
      article link. */
  method RelatedArticlesOf(links: seq<ArticleLink>) returns (related: seq<RelatedArticle>)
    ensures related == RelatedArticles(links)
  {
    related := [];
    var j := 0;
    while j < |links|
      invariant 0 <= j <= |links|
      invariant related == RelatedArticles(links[..j])
    {
      var l := links[j];
      assert links[..j + 1] == links[..j] + [l];
      RelatedArticlesSnoc(links[..j], l);
      related := related + [RelatedArticle(l.articleId, l.displayLabel, l.relationship)];
      j := j + 1;
    }
    assert links[..|links|] == links;
  }

  /** What `get_prediction_context` returns for `a`. */
  function PredictionContext(g: DiGraph, nodes: map<string, GraphNode>, a: string): GraphContext {
    if a !in g.succ then NoGraphData
    else
      var c := ArticleConnections(g, nodes, a);
      var total := |c.entities| + |c.connections|;
      GraphData(total, Density(total),
                LabelsOfKind(c.entities, Vulnerability), LabelsOfKind(c.entities, ThreatActor),
                RelatedArticles(c.connections),
                ActorContexts(g, nodes, c.entities), CveContexts(g, nodes, c.entities))
  }

  /** A CVE is trending exactly when more than two articles mention it, an
      actor has active campaigns exactly when more than one does, and there is
      one entry per related CVE and per related actor, in the same order. */
  lemma {:induction false} ContextFlags(g: DiGraph, nodes: map<string, GraphNode>, ents: seq<EntityLink>)
    ensures forall c | c in CveContexts(g, nodes, ents) :: c.isTrending <==> c.articleCount > 2
    ensures forall c | c in ActorContexts(g, nodes, ents) :: c.activeCampaigns <==> c.articleCount > 1
    ensures |CveContexts(g, nodes, ents)| == |LabelsOfKind(ents, Vulnerability)|
    ensures |ActorContexts(g, nodes, ents)| == |LabelsOfKind(ents, ThreatActor)|
    ensures forall i | 0 <= i < |CveContexts(g, nodes, ents)| ::
      CveContexts(g, nodes, ents)[i].cve == LabelsOfKind(ents, Vulnerability)[i]
    ensures forall i | 0 <= i < |ActorContexts(g, nodes, ents)| ::
      ActorContexts(g, nodes, ents)[i].actor == LabelsOfKind(ents, ThreatActor)[i]
  {
    if ents != [] {
      ContextFlags(g, nodes, ents[..|ents| - 1]);
    }
  }

  /** The context of an article in the graph counts one connection per
      stored successor, keeps the density in [0, 1] (1 from ten connections
      on), lists one related-article entry per article link, and pairs every
      related CVE and actor with its mention count and flag. */
  lemma PredictionContextSpec(g: DiGraph, nodes: map<string, GraphNode>, a: string)
    ensures PredictionContext(g, nodes, a) == NoGraphData <==> a !in g.succ
    ensures a in g.succ ==>
      var ctx, c := PredictionContext(g, nodes, a), ArticleConnections(g, nodes, a);
      && ctx.connectionCount == |Stored(nodes, g.succ[a])|
      && 0.0 <= ctx.connectionDensity <= 1.0
      && (ctx.connectionDensity == 1.0 <==> ctx.connectionCount >= 10)
      && |ctx.relatedArticles| == |c.connections|
      && (forall i | 0 <= i < |c.connections| :: ctx.relatedArticles[i].id == c.connections[i].articleId
                                                 && ctx.relatedArticles[i].title == c.connections[i].displayLabel)
      && |ctx.cveSeverityContext| == |ctx.relatedCves|
      && (forall i | 0 <= i < |ctx.relatedCves| :: ctx.cveSeverityContext[i].cve == ctx.relatedCves[i])
      && (forall x | x in ctx.cveSeverityContext :: x.isTrending <==> x.articleCount > 2)
      && |ctx.threatActorHistory| == |ctx.relatedThreatActors|
      && (forall i | 0 <= i < |ctx.relatedThreatActors| :: ctx.threatActorHistory[i].actor == ctx.relatedThreatActors[i])
      && (forall x | x in ctx.threatActorHistory :: x.activeCampaigns <==> x.articleCount > 1)
  {
    if a in g.succ {
      var c := ArticleConnections(g, nodes, a);
      LinksPartition(g, nodes, a, g.succ[a]);
      DensityBounds(0, |c.connections| + |c.entities|);
      ContextFlags(g, nodes, c.entities);
    }
  }
}
