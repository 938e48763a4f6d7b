/** The knowledge-graph service: an in-memory node table, an append-only edge
    log and a networkx directed graph kept in step with both, together with
    the queries the API, the prediction engine and the chat assistant run on
    them. Persisting to and loading from the database is modelled by what the
    repository hands back; the writes to it are fire-and-forget and left out. */
module GraphServices {
  import opened Wrappers
  import opened Text
  import Articles
  import opened GraphModels
  import opened DiGraphs
  import opened GraphTables
  import opened GraphQueries

  // ----- Entity and article nodes -----

  /** An entity name as it appears in a node id: lower-cased, spaces turned
      into hyphens. */
  function Slug(name: string): string {
    ReplaceChar(Lower(name), ' ', '-')
  }

  /** A slug is as long as the name and holds no space and no upper-case
      letter. */
  lemma SlugShape(name: string)
    ensures |Slug(name)| == |name|
    ensures forall i :: 0 <= i < |name| ==> Slug(name)[i] != ' ' && !('A' <= Slug(name)[i] <= 'Z')
  {
  }

  /** The id of the entity node for `name`: the node type's value, a hyphen
      and the slug. */
  function EntityId(t: NodeType, name: string): string {
    t.Value() + "-" + Slug(name)
  }

  /** An entity id is prefixed by its type's value and a hyphen. */
  lemma EntityIdShape(t: NodeType, name: string)
    ensures |EntityId(t, name)| == |t.Value()| + 1 + |name|
    ensures EntityId(t, name)[..|t.Value()|] == t.Value()
    ensures EntityId(t, name)[|t.Value()|] == '-'
  {
  }

  /** Entity ids of different node types never collide: the first two
      characters of the type values already differ. */
  lemma EntityIdDeterminesType(t1: NodeType, n1: string, t2: NodeType, n2: string)
    requires EntityId(t1, n1) == EntityId(t2, n2)
    ensures t1 == t2
  {
    var id := EntityId(t1, n1);
    assert id[0] == t1.Value()[0] && id[1] == t1.Value()[1];
    assert id[0] == t2.Value()[0] && id[1] == t2.Value()[1];
  }

  /** Within one type, two names share a node exactly when their slugs agree. */
  lemma EntityIdSameType(t: NodeType, n1: string, n2: string)
    ensures EntityId(t, n1) == EntityId(t, n2) <==> Slug(n1) == Slug(n2)
  {
    if EntityId(t, n1) == EntityId(t, n2) {
      var k := |t.Value()| + 1;
      assert Slug(n1) == EntityId(t, n1)[k..];
      assert Slug(n2) == EntityId(t, n2)[k..];
    }
  }

  /** Names differing only in case, or in a space against a hyphen, name the
      same entity node. */
  lemma EntityIdMergesSpellings(t: NodeType, n1: string, n2: string)
    requires |n1| == |n2| && forall i :: 0 <= i < |n1| ==> SlugChar(n1[i]) == SlugChar(n2[i])
    ensures EntityId(t, n1) == EntityId(t, n2)
  {
    assert Slug(n1) == Slug(n2);
  }

  /** What a name character becomes in a slug: lower-cased, with a space
      turned into a hyphen. */
  function SlugChar(c: char): char {
    if LowerChar(c) == ' ' then '-' else LowerChar(c)
  }

  /** The node created for a newly seen entity: its name as the label, the
      default size and no properties. */
  function EntityNode(t: NodeType, name: string): (n: GraphNode)
    ensures n.id == EntityId(t, name) && n.nodeType == t && n.displayLabel == name
    ensures n.size == 1.0 && n.properties == map[]
  {
    NewGraphNode(EntityId(t, name), t, name)
  }

  /** An article's node label: the title, cut to 50 characters followed by
      "..." when it is longer. */
  function ArticleLabel(title: string): (l: string)
    ensures |l| <= 53
    ensures |title| <= 50 ==> l == title
    ensures Take(l, 50) == Take(title, 50)
    ensures |title| > 50 ==> l[50..] == "..."
  {
    if |title| > 50 then title[..50] + "..." else title
  }

  /** The node for an article: its id, the article type, the shortened title,
      the url, publication time and categories as properties, and size 1.5. */
  function ArticleNode(a: Articles.Article): (n: GraphNode)
    ensures n.id == a.id && n.nodeType == NodeType.Article
    ensures n.displayLabel == ArticleLabel(a.title) && n.size == 1.5
    ensures n.properties.Keys == {"url", "published_at", "categories"}
    ensures n.properties["url"] == PStr(a.url) && n.properties["published_at"] == PTime(a.publishedAt)
    ensures n.properties["categories"] == PStrList(a.categories)
  {
    GraphNode(a.id, NodeType.Article, ArticleLabel(a.title),
              map["url" := PStr(a.url), "published_at" := PTime(a.publishedAt), "categories" := PStrList(a.categories)],
              1.5, None)
  }

  /** An entity an article mentions: its name and the type of its node. */
  datatype Mention = Mention(name: string, nodeType: NodeType)

  function MentionId(m: Mention): string {
    EntityId(m.nodeType, m.name)
  }

  /** Each name of `names`, tagged with node type `t`. */
  function Tagged(names: seq<string>, t: NodeType): (ms: seq<Mention>)
    ensures |ms| == |names|
    ensures forall i :: 0 <= i < |names| ==> ms[i] == Mention(names[i], t)
  {
    seq(|names|, i requires 0 <= i < |names| => Mention(names[i], t))
  }

  /** The entities an article node is linked to, in the order they are added:
      its vulnerabilities, then its threat actors, then its categories. */
  function MentionsOf(a: Articles.Article): seq<Mention> {
    Tagged(a.vulnerabilities, Vulnerability) + Tagged(a.threatActors, ThreatActor) + Tagged(a.categories, Entity)
  }

  /** The node table after one mention: the entity node is created when its id
      is new, and an existing node under that id is kept as it is. */
  function AddEntity(nodes: map<string, GraphNode>, m: Mention): map<string, GraphNode> {
    if MentionId(m) in nodes then nodes else nodes[MentionId(m) := EntityNode(m.nodeType, m.name)]
  }

  lemma AddEntitySpec(nodes: map<string, GraphNode>, m: Mention)
    ensures AddEntity(nodes, m).Keys == nodes.Keys + {MentionId(m)}
    ensures forall k | k in nodes :: AddEntity(nodes, m)[k] == nodes[k]
    ensures MentionId(m) !in nodes ==> AddEntity(nodes, m)[MentionId(m)] == EntityNode(m.nodeType, m.name)
  {
  }

  /** The ids of the entities of `ms`. */
  function MentionIds(ms: seq<Mention>): set<string> {
    set m | m in ms :: MentionId(m)
  }

  lemma MentionIdsSnoc(ms: seq<Mention>)
    requires ms != []
    ensures MentionIds(ms) == MentionIds(ms[..|ms| - 1]) + {MentionId(ms[|ms| - 1])}
  {
    assert ms == ms[..|ms| - 1] + [ms[|ms| - 1]];
    assert forall m :: m in ms <==> m in ms[..|ms| - 1] || m == ms[|ms| - 1];
  }

  /** The node table after a sequence of mentions: every mentioned entity has
      a node, and the nodes that were there are untouched. */
  function WithEntities(nodes: map<string, GraphNode>, ms: seq<Mention>): map<string, GraphNode> {
    if ms == [] then nodes
    else AddEntity(WithEntities(nodes, ms[..|ms| - 1]), ms[|ms| - 1])
  }

  lemma {:induction false} WithEntitiesSpec(nodes: map<string, GraphNode>, ms: seq<Mention>)
    ensures WithEntities(nodes, ms).Keys == nodes.Keys + MentionIds(ms)
    ensures forall k | k in nodes :: WithEntities(nodes, ms)[k] == nodes[k]
  {
    if ms != [] {
      var init := ms[..|ms| - 1];
      WithEntitiesSpec(nodes, init);
      MentionIdsSnoc(ms);
      AddEntitySpec(WithEntities(nodes, init), ms[|ms| - 1]);
    }
  }

  /** Mentions only add nodes. */
  lemma {:induction false} WithEntitiesGrows(nodes: map<string, GraphNode>, ms: seq<Mention>)
    ensures nodes.Keys <= WithEntities(nodes, ms).Keys
  {
    if ms != [] {
      WithEntitiesGrows(nodes, ms[..|ms| - 1]);
    }
  }

  /** A node the mentions add is the entity node of the first mention with
      its id: later spellings of the same entity do not relabel it. */
  lemma {:induction false} WithEntitiesNewNode(nodes: map<string, GraphNode>, ms: seq<Mention>, i: nat)
    requires i < |ms| && MentionId(ms[i]) !in nodes
    requires forall j | 0 <= j < i :: MentionId(ms[j]) != MentionId(ms[i])
    ensures MentionId(ms[i]) in WithEntities(nodes, ms)
    ensures WithEntities(nodes, ms)[MentionId(ms[i])] == EntityNode(ms[i].nodeType, ms[i].name)
  {
    var init, last := ms[..|ms| - 1], ms[|ms| - 1];
    AddEntitySpec(WithEntities(nodes, init), last);
    if i < |ms| - 1 {
      WithEntitiesNewNode(nodes, init, i);
    } else {
      WithEntitiesSpec(nodes, init);
      forall m | m in init
        ensures MentionId(m) != MentionId(ms[i])
      {
        var j :| 0 <= j < |init| && init[j] == m;
      }
      assert MentionId(ms[i]) !in WithEntities(nodes, init);
    }
  }

  lemma WithEntitiesSnoc(nodes: map<string, GraphNode>, init: seq<Mention>, last: Mention)
    ensures WithEntities(nodes, init + [last]) == AddEntity(WithEntities(nodes, init), last)
  {
    assert (init + [last])[..|init|] == init;
  }

  lemma {:induction false} WithEntitiesAppend(nodes: map<string, GraphNode>, ms1: seq<Mention>, ms2: seq<Mention>)
    ensures WithEntities(nodes, ms1 + ms2) == WithEntities(WithEntities(nodes, ms1), ms2)
    decreases |ms2|
  {
    if ms2 == [] {
      assert ms1 + ms2 == ms1;
    } else {
      var init2, last := ms2[..|ms2| - 1], ms2[|ms2| - 1];
      assert ms2 == init2 + [last];
      assert ms1 + ms2 == (ms1 + init2) + [last];
      WithEntitiesSnoc(nodes, ms1 + init2, last);
      WithEntitiesAppend(nodes, ms1, init2);
      WithEntitiesSnoc(WithEntities(nodes, ms1), init2, last);
    }
  }

  /** The "mentions" edges an article node gets, one per mention, in order. */
  function MentionEdges(articleId: string, ms: seq<Mention>): seq<GraphEdge> {
    if ms == [] then []
    else MentionEdges(articleId, ms[..|ms| - 1]) + [GraphEdge(articleId, MentionId(ms[|ms| - 1]), Mentions, DefaultWeight)]
  }

  lemma {:induction false} MentionEdgesSpec(articleId: string, ms: seq<Mention>)
    ensures |MentionEdges(articleId, ms)| == |ms|
    ensures forall i | 0 <= i < |ms| ::
      MentionEdges(articleId, ms)[i] == GraphEdge(articleId, MentionId(ms[i]), Mentions, DefaultWeight)
  {
    if ms != [] {
      var init := ms[..|ms| - 1];
      MentionEdgesSpec(articleId, init);
      assert MentionEdges(articleId, ms) == MentionEdges(articleId, init)
        + [GraphEdge(articleId, MentionId(ms[|ms| - 1]), Mentions, DefaultWeight)];
    }
  }

  lemma {:induction false} MentionEdgesAppend(articleId: string, ms1: seq<Mention>, ms2: seq<Mention>)
    ensures MentionEdges(articleId, ms1 + ms2) == MentionEdges(articleId, ms1) + MentionEdges(articleId, ms2)
    decreases |ms2|
  {
    if ms2 == [] {
      assert ms1 + ms2 == ms1;
    } else {
      var init2 := ms2[..|ms2| - 1];
      assert (ms1 + ms2)[..|ms1 + ms2| - 1] == ms1 + init2;
      MentionEdgesAppend(articleId, ms1, init2);
    }
  }

  /** One more mention: its node and its edge come after those of the
      mentions before it. */
  lemma MentionStep(nodes: map<string, GraphNode>, articleId: string, ms: seq<Mention>, i: nat)
    requires i < |ms|
    ensures WithEntities(nodes, ms[..i + 1]) == AddEntity(WithEntities(nodes, ms[..i]), ms[i])
    ensures MentionEdges(articleId, ms[..i + 1])
      == MentionEdges(articleId, ms[..i]) + [GraphEdge(articleId, MentionId(ms[i]), Mentions, DefaultWeight)]
  {
    assert ms[..i + 1][..i] == ms[..i];
  }

  lemma AppendAssoc<T>(s0: seq<T>, s1: seq<T>, s2: seq<T>)
    ensures s0 + s1 + s2 == s0 + (s1 + s2)
  {
  }

  lemma AppendFour<T>(s0: seq<T>, s1: seq<T>, s2: seq<T>, s3: seq<T>)
    ensures s0 + s1 + s2 + s3 == s0 + (s1 + s2 + s3)
  {
  }

  /** The nodes and edges of an article's mentions are those of its
      vulnerabilities, then its threat actors, then its categories. */
  lemma MentionsOfSplit(nodes: map<string, GraphNode>, a: Articles.Article)
    ensures
      var v, t, c := Tagged(a.vulnerabilities, Vulnerability), Tagged(a.threatActors, ThreatActor), Tagged(a.categories, Entity);
      && WithEntities(nodes, MentionsOf(a)) == WithEntities(WithEntities(WithEntities(nodes, v), t), c)
      && MentionEdges(a.id, MentionsOf(a)) == MentionEdges(a.id, v) + MentionEdges(a.id, t) + MentionEdges(a.id, c)
  {
    var v, t, c := Tagged(a.vulnerabilities, Vulnerability), Tagged(a.threatActors, ThreatActor), Tagged(a.categories, Entity);
    WithEntitiesAppend(nodes, v, t);
    WithEntitiesAppend(nodes, v + t, c);
    MentionEdgesAppend(a.id, v, t);
    MentionEdgesAppend(a.id, v + t, c);
  }

  // ----- Similar articles -----

  /** Adding the "related_to" edge to this similar article raises: both nodes
      exist, so the edge is built, and its weight is out of range. */
  predicate RejectsSimilar(nodes: map<string, GraphNode>, articleId: string, s: (Articles.Article, real)) {
    articleId in nodes && s.0.id in nodes && !ValidWeight(s.1)
  }

  /** How many similar articles are handled before the first one whose edge
      raises (all of them when none does). */
  function HandledCount(nodes: map<string, GraphNode>, articleId: string, similar: seq<(Articles.Article, real)>): (n: nat)
    ensures n <= |similar|
  {
    if similar == [] then 0
    else if RejectsSimilar(nodes, articleId, similar[0]) then 0
    else 1 + HandledCount(nodes, articleId, similar[1..])
  }

  /** The handled articles are those before the first one whose edge raises. */
  lemma {:induction false} HandledCountSpec(nodes: map<string, GraphNode>, articleId: string, similar: seq<(Articles.Article, real)>)
    ensures forall i | 0 <= i < HandledCount(nodes, articleId, similar) :: !RejectsSimilar(nodes, articleId, similar[i])
    ensures HandledCount(nodes, articleId, similar) < |similar| ==>
      RejectsSimilar(nodes, articleId, similar[HandledCount(nodes, articleId, similar)])
  {
    if similar != [] && !RejectsSimilar(nodes, articleId, similar[0]) {
      HandledCountSpec(nodes, articleId, similar[1..]);
    }
  }

  /** The "related_to" edges recorded for the handled similar articles: one
      per similar article whose node exists, weighted by the similarity. */
  function SimilarEdges(nodes: map<string, GraphNode>, articleId: string, similar: seq<(Articles.Article, real)>): seq<GraphEdge> {
    if similar == [] then []
    else
      var s := similar[|similar| - 1];
      SimilarEdges(nodes, articleId, similar[..|similar| - 1])
        + (if articleId in nodes && s.0.id in nodes then [GraphEdge(articleId, s.0.id, RelatedTo, s.1)] else [])
  }

  /** At most one edge per similar article, each from the article to a
      stored node; none at all when the article has no node. */
  lemma {:induction false} SimilarEdgesSpec(nodes: map<string, GraphNode>, articleId: string, similar: seq<(Articles.Article, real)>)
    ensures |SimilarEdges(nodes, articleId, similar)| <= |similar|
    ensures forall e | e in SimilarEdges(nodes, articleId, similar) ::
      e.sourceId == articleId && e.sourceId in nodes && e.targetId in nodes && e.relationship == RelatedTo
    ensures articleId !in nodes ==> SimilarEdges(nodes, articleId, similar) == []
  {
    if similar != [] {
      SimilarEdgesSpec(nodes, articleId, similar[..|similar| - 1]);
    }
  }

  /** The ids of the similar articles, in order. */
  function SimilarIds(similar: seq<(Articles.Article, real)>): (ids: seq<string>)
    ensures |ids| == |similar|
    ensures forall i :: 0 <= i < |similar| ==> ids[i] == similar[i].0.id
  {
    seq(|similar|, i requires 0 <= i < |similar| => similar[i].0.id)
  }

  /** One more similar article: its id and its edge come after those of the
      articles before it. */
  lemma SimilarStep(nodes: map<string, GraphNode>, articleId: string, similar: seq<(Articles.Article, real)>, i: nat)
    requires i < |similar|
    ensures SimilarIds(similar[..i + 1]) == SimilarIds(similar[..i]) + [similar[i].0.id]
    ensures SimilarEdges(nodes, articleId, similar[..i + 1]) == SimilarEdges(nodes, articleId, similar[..i])
      + (if articleId in nodes && similar[i].0.id in nodes then [GraphEdge(articleId, similar[i].0.id, RelatedTo, similar[i].1)] else [])
  {
    assert similar[..i + 1][..i] == similar[..i];
  }

  /** Every node is stored under its own id, and the graph is the one built
      from the node ids and the edge log (records referring to nodes that
      were never stored still put their endpoints into the graph). */
  ghost predicate Consistent(nodes: map<string, GraphNode>, edges: seq<GraphEdge>, graph: DiGraph) {
    && (forall id | id in nodes :: nodes[id].id == id)
    && graph == GraphOf(nodes.Keys + Endpoints(edges), edges)
  }

  lemma ConsistentPutNode(nodes: map<string, GraphNode>, edges: seq<GraphEdge>, graph: DiGraph, n: GraphNode)
    requires Consistent(nodes, edges, graph)
    ensures Consistent(nodes[n.id := n], edges, graph.AddNode(n.id))
  {
    GraphOfLogAddNode(nodes.Keys, edges, n.id);
    assert nodes[n.id := n].Keys == nodes.Keys + {n.id};
  }

  lemma ConsistentPutEdge(nodes: map<string, GraphNode>, edges: seq<GraphEdge>, graph: DiGraph, e: GraphEdge)
    requires Consistent(nodes, edges, graph)
    ensures Consistent(nodes, edges + [e], graph.AddEdge(e.sourceId, e.targetId, DataOf(e)))
  {
    GraphOfLogAddEdge(nodes.Keys, edges, e);
  }

  // ----- load_from_database -----

  /** Whether storing `n` makes `add_node` raise: its properties are passed
      as keyword arguments beside `node_type` and `label`, to a method whose
      own parameters are `self` and `node_for_adding`, and a property of any
      of those four names is a duplicate keyword. */
  predicate Clashes(n: GraphNode) {
    || "label" in n.properties || "node_type" in n.properties
    || "self" in n.properties || "node_for_adding" in n.properties
  }

  /** How many of the loaded nodes come before the first clashing one. */
  function CleanPrefix(ns: seq<GraphNode>): (j: nat)
    ensures j <= |ns|
    ensures forall i | 0 <= i < j :: !Clashes(ns[i])
    ensures j < |ns| ==> Clashes(ns[j])
  {
    if ns == [] || Clashes(ns[0]) then 0 else 1 + CleanPrefix(ns[1..])
  }

  /** The node table after storing `ns` in order over `m`. */
  function Table(m: map<string, GraphNode>, ns: seq<GraphNode>): map<string, GraphNode> {
    if ns == [] then m
    else
      var n := ns[|ns| - 1];
      Table(m, ns[..|ns| - 1])[n.id := n]
  }

  /** Storing `ns` adds exactly their ids. */
  lemma {:induction false} TableKeys(m: map<string, GraphNode>, ns: seq<GraphNode>)
    ensures Table(m, ns).Keys == m.Keys + (set n | n in ns :: n.id)
  {
    if ns != [] {
      var init := ns[..|ns| - 1];
      TableKeys(m, init);
      assert ns == init + [ns[|ns| - 1]];
      assert (set n | n in ns :: n.id) == (set n | n in init :: n.id) + {ns[|ns| - 1].id};
    }
  }

  /** Storing keeps every node under its own id. */
  lemma {:induction false} TableIds(m: map<string, GraphNode>, ns: seq<GraphNode>)
    requires forall id | id in m :: m[id].id == id
    ensures forall id | id in Table(m, ns) :: Table(m, ns)[id].id == id
  {
    if ns != [] {
      TableIds(m, ns[..|ns| - 1]);
    }
  }

  /** A node no later loaded node shares its id with is the one stored. */
  lemma {:induction false} TableLastWins(m: map<string, GraphNode>, ns: seq<GraphNode>, i: nat)
    requires i < |ns| && forall k | i < k < |ns| :: ns[k].id != ns[i].id
    ensures ns[i].id in Table(m, ns) && Table(m, ns)[ns[i].id] == ns[i]
  {
    if i < |ns| - 1 {
      var init := ns[..|ns| - 1];
      assert forall k | i < k < |init| :: init[k] == ns[k];
      TableLastWins(m, init, i);
    }
  }

  /** The counts `get_statistics` reports. */
  datatype Stats = Stats(totalNodes: nat, totalEdges: nat, articleNodes: nat, entityNodes: nat)

  function ArticleIds(nodes: map<string, GraphNode>): set<string> {
    set id | id in nodes && nodes[id].nodeType == NodeType.Article
  }

  function EntityIds(nodes: map<string, GraphNode>): set<string> {
    set id | id in nodes && nodes[id].nodeType != NodeType.Article
  }

  /** The outcome of `add_edge`: the recorded edge, `None` for a missing
      endpoint, or the validation error of an out-of-range weight. */
  datatype EdgeOutcome = Added(edge: GraphEdge) | MissingEndpoint | InvalidWeight

  class GraphService {
    /** The networkx graph. */
    var graph: DiGraph
    /** `_nodes`: node id to node. */
    var nodes: map<string, GraphNode>
    /** `_edges`: every edge record, in the order it was added. */
    var edges: seq<GraphEdge>

    ghost predicate Valid()
      reads this
    {
      Consistent(nodes, edges, graph)
    }

    /** Both ends of every edge record are stored nodes: true of everything the
        add operations build, though not of whatever a load brings in. */
    ghost predicate EdgesClosed()
      reads this
    {
      Endpoints(edges) <= nodes.Keys
    }

    /** The graph has the same vertices in both adjacency maps. */
    lemma VertexKeys()
      requires Valid()
      ensures graph.succ.Keys == graph.pred.Keys
    {
    }

    /** The graph's vertices, its well-formedness and the part of it the
        traversals rely on. */
    lemma GraphFacts()
      requires Valid()
      ensures graph.succ.Keys == graph.pred.Keys == nodes.Keys + Endpoints(edges)
      ensures graph.Valid() && Closed(graph)
      ensures EdgesClosed() ==> graph.succ.Keys == nodes.Keys
    {
      GraphOfValid(nodes.Keys + Endpoints(edges), edges);
      ValidClosed(graph);
    }

    constructor ()
      ensures Valid() && EdgesClosed()
      ensures nodes == map[] && edges == [] && graph == Empty()
    {
      graph := Empty();
      nodes := map[];
      edges := [];
      new;
      assert GraphOf({}, []) == Empty();
    }

    /** `get_statistics`: the graph's vertex and edge counts, and how many
        stored nodes are articles and how many are not. */
    function Statistics(): Stats
      reads this
    {
      Stats(|graph.succ.Keys|, |graph.data.Keys|, |ArticleIds(nodes)|, |EntityIds(nodes)|)
    }

    /** Every stored node is counted once, as an article or as an entity; the
        graph counts one edge per ordered pair of nodes some record joins, so
        no more than there are records; it has every stored node as a vertex,
        and no other when every record joins stored nodes. */
    lemma StatisticsSpec()
      requires Valid()
      ensures Statistics().articleNodes + Statistics().entityNodes == |nodes|
      ensures forall u, v :: (u, v) in graph.data <==> HasEdge(edges, u, v)
      ensures Statistics().totalEdges <= |edges|
      ensures |nodes| <= Statistics().totalNodes
      ensures EdgesClosed() ==> Statistics().totalNodes == |nodes|
    {
      assert ArticleIds(nodes) + EntityIds(nodes) == nodes.Keys;
      assert ArticleIds(nodes) * EntityIds(nodes) == {};
      LatestDataKeys(edges);
      LatestDataSize(edges);
      GraphFacts();
      if nodes.Keys != graph.succ.Keys {
        SubsetCard(nodes.Keys, graph.succ.Keys);
      }
    }

    /** Stores `n` in the node table (replacing a node with the same id) and
        adds it to the graph. */
    method PutNode(n: GraphNode)
      requires Valid()
      modifies this
      ensures Valid()
      ensures nodes == old(nodes)[n.id := n] && edges == old(edges)
      ensures old(EdgesClosed()) ==> EdgesClosed()
    {
      ConsistentPutNode(nodes, edges, graph, n);
      nodes := nodes[n.id := n];
      graph := graph.AddNode(n.id);
    }

    /** Appends the record `e` to the log and adds it to the graph. */
    method PutEdge(e: GraphEdge)
      requires Valid()
      modifies this
      ensures Valid()
      ensures edges == old(edges) + [e] && nodes == old(nodes)
      ensures old(EdgesClosed()) && e.sourceId in nodes && e.targetId in nodes ==> EdgesClosed()
    {
      ConsistentPutEdge(nodes, edges, graph, e);
      EndpointsAppend(edges, e);
      edges := edges + [e];
      graph := graph.AddEdge(e.sourceId, e.targetId, DataOf(e));
    }

    /** `add_edge`: nothing happens unless both endpoints are stored nodes;
        then the edge is built (which raises for a weight outside [0, 1]),
        logged and added to the graph. */
    method AddEdge(source: string, target: string, relationship: RelationshipType, weight: real)
      returns (r: EdgeOutcome)
      requires Valid()
      modifies this
      ensures Valid() && nodes == old(nodes)
      ensures r.MissingEndpoint? <==> source !in nodes || target !in nodes
      ensures r.InvalidWeight? <==> source in nodes && target in nodes && !ValidWeight(weight)
      ensures !r.Added? ==> edges == old(edges) && graph == old(graph)
      ensures r.Added? ==>
        && r.edge == GraphEdge(source, target, relationship, weight)
        && edges == old(edges) + [r.edge]
      ensures old(EdgesClosed()) ==> EdgesClosed()
    {
      if source !in nodes || target !in nodes {
        return MissingEndpoint;
      }
      var built := NewGraphEdge(source, target, relationship, weight);
      if built.Err? {
        return InvalidWeight;
      }
      PutEdge(built.value);
      r := Added(built.value);
    }

    /** `_add_entity_node`: creates the entity node when its id is new, then
        links the article to it. */
    method AddEntityNode(m: Mention, articleId: string, relationship: RelationshipType)
      returns (r: EdgeOutcome)
      requires Valid()
      modifies this
      ensures Valid()
      ensures nodes == AddEntity(old(nodes), m)
      ensures articleId in nodes ==>
        r == Added(GraphEdge(articleId, MentionId(m), relationship, DefaultWeight))
        && edges == old(edges) + [r.edge]
      ensures articleId !in nodes ==> r == MissingEndpoint && edges == old(edges)
      ensures old(EdgesClosed()) ==> EdgesClosed()
    {
      var id := EntityId(m.nodeType, m.name);
      if id !in nodes {
        PutNode(EntityNode(m.nodeType, m.name));
      }
      r := AddEdge(articleId, id, relationship, DefaultWeight);
      if articleId in nodes {
        assert id in nodes;
        assert ValidWeight(DefaultWeight);
        assert r.Added?;
      }
    }

    /** One of the three loops of `add_article_node`: an entity node and a
        "mentions" edge for each name. */
    method AddEntityNodes(names: seq<string>, t: NodeType, articleId: string)
      requires Valid() && articleId in nodes
      modifies this
      ensures Valid()
      ensures nodes == WithEntities(old(nodes), Tagged(names, t))
      ensures edges == old(edges) + MentionEdges(articleId, Tagged(names, t))
      ensures old(EdgesClosed()) ==> EdgesClosed()
    {
      var i := 0;
      while i < |names|
        invariant 0 <= i <= |names|
        invariant Valid() && articleId in nodes
        invariant nodes == WithEntities(old(nodes), Tagged(names, t)[..i])
        invariant edges == old(edges) + MentionEdges(articleId, Tagged(names, t)[..i])
        invariant old(EdgesClosed()) ==> EdgesClosed()
      {
        var m := Mention(names[i], t);
        var r := AddEntityNode(m, articleId, Mentions);
        MentionStep(old(nodes), articleId, Tagged(names, t), i);
        AppendAssoc(old(edges), MentionEdges(articleId, Tagged(names, t)[..i]), [r.edge]);
        i := i + 1;
      }
      assert Tagged(names, t)[..|names|] == Tagged(names, t);
    }

    /** `add_article_node`: stores the article's node (replacing an older one
        with the same id), then adds an entity node and a "mentions" edge for
        each vulnerability, threat actor and category. */
    method AddArticleNode(a: Articles.Article) returns (node: GraphNode)
      requires Valid()
      modifies this
      ensures Valid()
      ensures node == ArticleNode(a)
      ensures nodes == WithEntities(old(nodes)[a.id := node], MentionsOf(a))
      ensures edges == old(edges) + MentionEdges(a.id, MentionsOf(a))
      ensures old(EdgesClosed()) ==> EdgesClosed()
    {
      node := ArticleNode(a);
      PutNode(node);
      ghost var n0, e0 := nodes, edges;
      ghost var v, t, c := Tagged(a.vulnerabilities, Vulnerability), Tagged(a.threatActors, ThreatActor), Tagged(a.categories, Entity);
      AddEntityNodes(a.vulnerabilities, Vulnerability, a.id);
      WithEntitiesGrows(n0, v);
      ghost var n1 := nodes;
      AddEntityNodes(a.threatActors, ThreatActor, a.id);
      WithEntitiesGrows(n1, t);
      AddEntityNodes(a.categories, Entity, a.id);
      MentionsOfSplit(n0, a);
      AppendFour(e0, MentionEdges(a.id, v), MentionEdges(a.id, t), MentionEdges(a.id, c));
    }

    /** `connect_similar_articles`: a "related_to" edge weighted by the
        similarity to each similar article, whose id is appended to the
        article's related ids whether or not the edge was added. An
        out-of-range similarity raises and ends the loop before that id is
        appended; `raised` reports it. */
    method ConnectSimilarArticles(a: Articles.Article, similar: seq<(Articles.Article, real)>)
      returns (updated: Articles.Article, raised: bool)
      requires Valid()
      modifies this
      ensures Valid() && nodes == old(nodes)
      ensures var n := HandledCount(old(nodes), a.id, similar);
        && updated == a.(relatedArticleIds := a.relatedArticleIds + SimilarIds(similar[..n]))
        && (raised <==> n < |similar|)
        && edges == old(edges) + SimilarEdges(old(nodes), a.id, similar[..n])
      ensures old(EdgesClosed()) ==> EdgesClosed()
    {
      ghost var n := HandledCount(nodes, a.id, similar);
      HandledCountSpec(nodes, a.id, similar);
      updated := a;
      raised := false;
      var i := 0;
      while i < |similar|
        invariant 0 <= i <= n
        invariant Valid() && nodes == old(nodes)
        invariant updated == a.(relatedArticleIds := a.relatedArticleIds + SimilarIds(similar[..i]))
        invariant edges == old(edges) + SimilarEdges(old(nodes), a.id, similar[..i])
        invariant old(EdgesClosed()) ==> EdgesClosed()
      {
        var s := similar[i];
        var r := AddEdge(a.id, s.0.id, RelatedTo, s.1);
        if r.InvalidWeight? {
          assert RejectsSimilar(old(nodes), a.id, similar[i]);
          assert i == n;
          assert edges == old(edges) + SimilarEdges(old(nodes), a.id, similar[..n]);
          raised := true;
          return;
        }
        assert i < n;
        SimilarStep(old(nodes), a.id, similar, i);
        AppendAssoc(a.relatedArticleIds, SimilarIds(similar[..i]), [s.0.id]);
        AppendAssoc(old(edges), SimilarEdges(old(nodes), a.id, similar[..i]),
          if a.id in nodes && s.0.id in nodes then [GraphEdge(a.id, s.0.id, RelatedTo, s.1)] else []);
        updated := updated.(relatedArticleIds := updated.relatedArticleIds + [s.0.id]);
        i := i + 1;
      }
      assert i == n;
      assert edges == old(edges) + SimilarEdges(old(nodes), a.id, similar[..n]);
    }

    // ----- Queries -----

    /** The node entries of a subgraph view: one per stored node of
        `reached`, taken in no particular order (the ghost `order`). */
    method SubgraphNodes(reached: set<string>, center: string) returns (visNodes: seq<Dict>, ghost order: seq<string>)
      ensures NoDup(order) && Elems(order) == reached * nodes.Keys
      ensures visNodes == NodeEntries(nodes, order, center)
    {
      var todo := reached;
      visNodes, order := [], [];
      while todo != {}
        invariant todo <= reached
        invariant NoDup(order) && Elems(order) == (reached - todo) * nodes.Keys
        invariant visNodes == NodeEntries(nodes, order, center)
        decreases |todo|
      {
        var id :| id in todo;
        assert reached - (todo - {id}) == (reached - todo) + {id};
        if id in nodes {
          NoDupSnoc(order, id);
          NodeEntriesSnoc(nodes, order, id, center);
          visNodes := visNodes + [NodeEntry(nodes[id], id == center)];
          order := order + [id];
        }
        todo := todo - {id};
      }
    }

    /** The edge entries of a subgraph view: one per logged record with both
        ends in `reached`, in log order. */
    method SubgraphEdges(reached: set<string>) returns (visEdges: seq<Dict>)
      ensures visEdges == EdgeEntries(InSubgraph(edges, reached))
    {
      visEdges := [];
      var i := 0;
      while i < |edges|
        invariant 0 <= i <= |edges|
        invariant visEdges == EdgeEntries(InSubgraph(edges[..i], reached))
      {
        var e := edges[i];
        assert edges[..i + 1][..i] == edges[..i];
        if e.sourceId in reached && e.targetId in reached {
          EdgeEntriesSnoc(InSubgraph(edges[..i], reached), e);
          visEdges := visEdges + [EdgeEntry(e)];
        }
        i := i + 1;
      }
      assert edges[..|edges|] == edges;
    }

    /** `get_subgraph`: an unknown centre gives the default view focused on it;
        otherwise `depth` rounds of expansion over the undirected view, one
        entry per stored node reached (in no particular order, listed by the
        ghost `order`), the centre drawn at twice its size, and one entry per
        logged record with both ends reached. A depth outside [1, 5] makes
        building the view raise. */
    method GetSubgraph(center: string, depth: int) returns (r: Result<GraphVisualization>, ghost order: seq<string>)
      requires Valid()
      ensures center !in graph.succ ==> r == Ok(DefaultVisualization(Some(center)))
      ensures center in graph.succ ==> (r.Ok? <==> ValidDepth(depth))
      ensures center in graph.succ && r.Ok? ==>
        var reached := graph.Closure(center, Rounds(depth));
        && r.value.focusNode == Some(center) && r.value.depth == depth
        && NoDup(order) && Elems(order) == reached * nodes.Keys
        && r.value.nodes == NodeEntries(nodes, order, center)
        && r.value.edges == EdgeEntries(InSubgraph(edges, reached))
        && r.value.totalNodes == |r.value.nodes| && r.value.totalEdges == |r.value.edges|
    {
      order := [];
      if center !in graph.succ {
        return Ok(DefaultVisualization(Some(center))), order;
      }
      GraphFacts();
      var reached := ExpandRounds(graph, center, depth);
      var visNodes;
      visNodes, order := SubgraphNodes(reached, center);
      var visEdges := SubgraphEdges(reached);
      r := NewVisualization(visNodes, visEdges, Some(center), depth, |visNodes|, |visEdges|);
    }

    /** `find_connections_between` on the current graph. */
    method FindConnectionsBetween(id1: string, id2: string) returns (paths: seq<seq<string>>)
      requires Valid()
      ensures paths == [] <==> !graph.Reachable(id1, id2)
      ensures |paths| <= 3 && NoDup(paths)
      ensures forall p | p in paths :: graph.IsShortestPath(p, id1, id2) && NoDup(p)
      ensures |paths| < 3 ==> forall p | graph.IsShortestPath(p, id1, id2) :: p in paths
    {
      GraphFacts();
      paths := ConnectionsBetween(graph, id1, id2);
    }

    /** The graph's adjacency lists of a vertex are the log's. */
    lemma ListsOfLog(x: string)
      requires Valid() && x in graph.succ
      ensures graph.succ[x] == SuccessorList(edges, x) && graph.pred[x] == PredecessorList(edges, x)
      ensures graph.data == LatestData(edges)
    {
    }

    /** A vertex the graph lacks has no records to or from it. */
    lemma NoRecordsOutside(x: string, y: string)
      requires Valid() && x !in graph.succ
      ensures !HasEdge(edges, x, y) && !HasEdge(edges, y, x)
    {
      forall i | 0 <= i < |edges| ensures edges[i].sourceId != x && edges[i].targetId != x {
        assert edges[i] in edges;
      }
    }

    /** The articles said to mention `id` are exactly the stored articles
        with a record to `id`, each listed once. */
    lemma MentioningMeans(id: string)
      requires Valid()
      ensures forall x :: x in Mentioning(graph, nodes, id) <==> IsStoredArticle(nodes, x) && HasEdge(edges, x, id)
      ensures NoDup(Mentioning(graph, nodes, id))
    {
      if id in graph.succ {
        VertexKeys();
        ListsOfLog(id);
        PredecessorListSpec(edges, id);
        ArticlesAmongExact(nodes, graph.pred[id]);
      } else {
        forall x ensures !HasEdge(edges, x, id) {
          NoRecordsOutside(id, x);
        }
      }
    }

    /** The links of `a` are exactly its records to stored nodes: an article
        link per stored article, carrying the relationship of the latest
        record on the pair, and an entity link per stored entity. */
    lemma ConnectionsMean(a: string, l: ArticleLink, m: EntityLink)
      requires Valid()
      ensures l in ArticleConnections(graph, nodes, a).connections <==>
        && IsStoredArticle(nodes, l.articleId) && HasEdge(edges, a, l.articleId)
        && l.displayLabel == nodes[l.articleId].displayLabel
        && (a, l.articleId) in LatestData(edges)
        && l.relationship == LatestData(edges)[(a, l.articleId)].relationship.Value()
      ensures m in ArticleConnections(graph, nodes, a).entities <==>
        && IsStoredEntity(nodes, m.entityId) && HasEdge(edges, a, m.entityId)
        && m == EntityLink(m.entityId, nodes[m.entityId].nodeType, nodes[m.entityId].displayLabel)
    {
      LatestDataKeys(edges);
      if a in graph.succ {
        ListsOfLog(a);
        SuccessorListSpec(edges, a);
        ArticleLinksExact(graph, nodes, a, graph.succ[a], l);
        EntityLinksExact(nodes, graph.succ[a], m);
      } else {
        NoRecordsOutside(a, l.articleId);
        NoRecordsOutside(a, m.entityId);
      }
    }

    /** When every record joins stored nodes, `a` has one link per distinct
        node it has a record to. */
    lemma ConnectionCount(a: string)
      requires Valid() && EdgesClosed() && a in graph.succ
      ensures |ArticleConnections(graph, nodes, a).connections| + |ArticleConnections(graph, nodes, a).entities|
           == |set v | v in graph.succ[a]|
      ensures forall v :: v in graph.succ[a] <==> HasEdge(edges, a, v)
    {
      ListsOfLog(a);
      SuccessorListSpec(edges, a);
      LinksPartition(graph, nodes, a, graph.succ[a]);
      forall v | v in graph.succ[a] ensures v in nodes {
        var i :| 0 <= i < |edges| && edges[i].sourceId == a && edges[i].targetId == v;
        assert edges[i] in edges;
      }
      assert Elems(graph.succ[a]) <= nodes.Keys;
      NoDupCard(graph.succ[a]);
    }

    /** `get_article_connections`: for each successor of `a` in the graph
        that is a stored node, an article link (with the relationship on the
        pair) or an entity link. */
    method GetArticleConnections(a: string) returns (c: Connections)
      ensures c == ArticleConnections(graph, nodes, a)
    {
      if a !in graph.succ {
        return Connections([], []);
      }
      var ss := graph.succ[a];
      var conns, ents := [], [];
      var i := 0;
      while i < |ss|
        invariant 0 <= i <= |ss|
        invariant conns == ArticleLinks(graph, nodes, a, ss[..i])
        invariant ents == EntityLinks(nodes, ss[..i])
      {
        var s := ss[i];
        assert ss[..i + 1][..i] == ss[..i];
        if s in nodes {
          var node := nodes[s];
          var rel := if (a, s) in graph.data then graph.data[(a, s)].relationship.Value() else "related_to";
          if node.nodeType == NodeType.Article {
            conns := conns + [ArticleLink(s, node.displayLabel, rel)];
          } else {
            ents := ents + [EntityLink(s, node.nodeType, node.displayLabel)];
          }
        }
        i := i + 1;
      }
      assert ss[..|ss|] == ss;
      c := Connections(conns, ents);
    }

    /** `_find_articles_mentioning`: the predecessors of `id` that are stored
        articles, in the graph's predecessor order. */
    method FindArticlesMentioning(id: string) returns (articles: seq<string>)
      requires Valid()
      ensures articles == Mentioning(graph, nodes, id)
    {
      if id !in graph.succ {
        return [];
      }
      VertexKeys();
      var ps := graph.pred[id];
      articles := [];
      var i := 0;
      while i < |ps|
        invariant 0 <= i <= |ps|
        invariant articles == ArticlesAmong(nodes, ps[..i])
      {
        var p := ps[i];
        assert ps[..i + 1][..i] == ps[..i];
        if p in nodes && nodes[p].nodeType == NodeType.Article {
          articles := articles + [p];
        }
        i := i + 1;
      }
      assert ps[..|ps|] == ps;
    }

    /** The entity half of `get_prediction_context`: the labels of the
        vulnerability and threat-actor links and, for each, how many articles
        mention it. */
    method EntityContexts(ents: seq<EntityLink>)
      returns (cves: seq<string>, actors: seq<string>, actorCtx: seq<ActorContext>, cveCtx: seq<CveContext>)
      requires Valid()
      ensures cves == LabelsOfKind(ents, Vulnerability) && actors == LabelsOfKind(ents, ThreatActor)
      ensures cveCtx == CveContexts(graph, nodes, ents) && actorCtx == ActorContexts(graph, nodes, ents)
    {
      cves, actors, cveCtx, actorCtx := [], [], [], [];
      var i := 0;
      while i < |ents|
        invariant 0 <= i <= |ents|
        invariant cves == LabelsOfKind(ents[..i], Vulnerability) && actors == LabelsOfKind(ents[..i], ThreatActor)
        invariant cveCtx == CveContexts(graph, nodes, ents[..i]) && actorCtx == ActorContexts(graph, nodes, ents[..i])
      {
        var e := ents[i];
        assert ents[..i + 1][..i] == ents[..i];
        if e.kind == Vulnerability {
          cves := cves + [e.displayLabel];
          var arts := FindArticlesMentioning(e.entityId);
          cveCtx := cveCtx + [CveContext(e.displayLabel, |arts|, |arts| > 2)];
        } else if e.kind == ThreatActor {
          actors := actors + [e.displayLabel];
          var arts := FindArticlesMentioning(e.entityId);
          actorCtx := actorCtx + [ActorContext(e.displayLabel, |arts|, |arts| > 1)];
        }
        i := i + 1;
      }
      assert ents[..|ents|] == ents;
    }

    /** `get_prediction_context`: the CVEs and threat actors `a` links to,
        with how many articles mention each, the articles it links to, and the
        connection count and density. */
    method GetPredictionContext(a: string) returns (ctx: GraphContext)
      requires Valid()
      ensures ctx == PredictionContext(graph, nodes, a)
    {
      if a !in graph.succ {
        return NoGraphData;
      }
      var c := GetArticleConnections(a);
      var cves, actors, actorCtx, cveCtx := EntityContexts(c.entities);
      var related := RelatedArticlesOf(c.connections);
      var total := |c.entities| + |c.connections|;
      ctx := GraphData(total, Density(total), cves, actors, related, actorCtx, cveCtx);
    }

    /** `load_from_database`, given what the repository returns: stores each
        loaded node and adds it to the graph, then appends each loaded record
        and adds it to the graph (no endpoint check), and answers the number
        of loaded nodes. A node whose properties clash with `add_node`'s own
        keywords raises after it was stored in the node table and before the
        graph has it; the exception is caught and the load answers 0, leaving
        the earlier nodes loaded and no record appended. */
    method LoadFromDatabase(loadedNodes: seq<GraphNode>, loadedEdges: seq<GraphEdge>) returns (count: int)
      requires Valid()
      modifies this
      ensures CleanPrefix(loadedNodes) == |loadedNodes| ==>
        && Valid() && count == |loadedNodes|
        && nodes == Table(old(nodes), loadedNodes) && edges == old(edges) + loadedEdges
      ensures CleanPrefix(loadedNodes) < |loadedNodes| ==>
        && count == 0 && edges == old(edges)
        && nodes == Table(old(nodes), loadedNodes[..CleanPrefix(loadedNodes) + 1])
        && Consistent(Table(old(nodes), loadedNodes[..CleanPrefix(loadedNodes)]), edges, graph)
    {
      var ok := StoreNodes(loadedNodes);
      if !ok {
        return 0;
      }
      StoreEdges(loadedEdges);
      count := |loadedNodes|;
    }

    /** The node half of the load: stores the nodes in order until one
        clashes. */
    method StoreNodes(ns: seq<GraphNode>) returns (ok: bool)
      requires Valid()
      modifies this
      ensures ok <==> CleanPrefix(ns) == |ns|
      ensures edges == old(edges)
      ensures ok ==> Valid() && nodes == Table(old(nodes), ns)
      ensures !ok ==>
        && nodes == Table(old(nodes), ns[..CleanPrefix(ns) + 1])
        && Consistent(Table(old(nodes), ns[..CleanPrefix(ns)]), edges, graph)
    {
      var i := 0;
      while i < |ns|
        invariant 0 <= i <= CleanPrefix(ns)
        invariant Valid() && nodes == Table(old(nodes), ns[..i]) && edges == old(edges)
      {
        var n := ns[i];
        assert ns[..i + 1][..i] == ns[..i];
        if Clashes(n) {
          nodes := nodes[n.id := n];
          return false;
        }
        PutNode(n);
        i := i + 1;
      }
      assert ns[..|ns|] == ns;
      ok := true;
    }

    /** The record half of the load: appends every record in order. */
    method StoreEdges(es: seq<GraphEdge>)
      requires Valid()
      modifies this
      ensures Valid() && nodes == old(nodes) && edges == old(edges) + es
    {
      var k := 0;
      while k < |es|
        invariant 0 <= k <= |es|
        invariant Valid() && nodes == old(nodes) && edges == old(edges) + es[..k]
      {
        assert es[..k + 1] == es[..k] + [es[k]];
        PutEdge(es[k]);
        k := k + 1;
      }
      assert es[..|es|] == es;
    }

    /** `clear_and_rebuild`: empties the graph, the node table and the log,
        then loads. */
    method ClearAndRebuild(loadedNodes: seq<GraphNode>, loadedEdges: seq<GraphEdge>)
      modifies this
      ensures CleanPrefix(loadedNodes) == |loadedNodes| ==>
        Valid() && nodes == Table(map[], loadedNodes) && edges == loadedEdges
      ensures CleanPrefix(loadedNodes) < |loadedNodes| ==>
        && edges == [] && nodes == Table(map[], loadedNodes[..CleanPrefix(loadedNodes) + 1])
        && Consistent(Table(map[], loadedNodes[..CleanPrefix(loadedNodes)]), [], graph)
    {
      graph := Empty();
      nodes := map[];
      edges := [];
      assert GraphOf({}, []) == Empty();
      var _ := LoadFromDatabase(loadedNodes, loadedEdges);
    }
  }
}
