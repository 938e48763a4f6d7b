/** The knowledge-graph data model: node and relationship kinds, nodes, edges
    and the visualisation payload handed to the frontend. */
module GraphModels {
  import opened Wrappers

  /** The kinds of node in the knowledge graph. */
  datatype NodeType = Article | Entity | Vulnerability | ThreatActor | Product | Technique
  {
    /** The enum's string value, which also prefixes entity node ids. */
    function Value(): string {
      match this
      case Article => "article"
      case Entity => "entity"
      case Vulnerability => "vulnerability"
      case ThreatActor => "threat_actor"
      case Product => "product"
      case Technique => "technique"
    }
  }

  /** The kinds of directed relationship between two nodes. */
  datatype RelationshipType = Mentions | Exploits | RelatedTo | EvolvesFrom | Targets | Uses | AttributedTo
  {
    function Value(): string {
      match this
      case Mentions => "mentions"
      case Exploits => "exploits"
      case RelatedTo => "related_to"
      case EvolvesFrom => "evolves_from"
      case Targets => "targets"
      case Uses => "uses"
      case AttributedTo => "attributed_to"
    }
  }

  /** The values stored in a node's `properties` dictionary. */
  datatype PropValue = PStr(s: string) | PStrList(items: seq<string>) | PTime(t: int) | PNum(r: real)

  /** A node of the knowledge graph. */
  datatype GraphNode = GraphNode(
    id: string,
    nodeType: NodeType,
    displayLabel: string,
    properties: map<string, PropValue>,
    size: real,
    color: Option<string>)

  /** A node built with only the required fields: the defaults are a size of
      1.0, no properties and no colour override. */
  function NewGraphNode(id: string, nodeType: NodeType, displayLabel: string): (n: GraphNode)
    ensures n.id == id && n.nodeType == nodeType && n.displayLabel == displayLabel
    ensures n.size == 1.0 && n.properties == map[] && n.color == None
  {
    GraphNode(id, nodeType, displayLabel, map[], 1.0, None)
  }

  /** A directed edge of the knowledge graph (its creation time and its
      always-empty properties are not modelled). */
  datatype GraphEdge = GraphEdge(sourceId: string, targetId: string, relationship: RelationshipType, weight: real)

  /** The bound the edge model places on `weight`. */
  predicate ValidWeight(w: real) {
    0.0 <= w <= 1.0
  }

  /** The weight an edge gets when none is given. */
  const DefaultWeight: real := 1.0

  /** Building an edge validates its weight: outside [0, 1] it raises. */
  function NewGraphEdge(sourceId: string, targetId: string, relationship: RelationshipType, weight: real): (r: Result<GraphEdge>)
    ensures r.Ok? <==> ValidWeight(weight)
    ensures r.Ok? ==> r.value == GraphEdge(sourceId, targetId, relationship, weight)
  {
    if ValidWeight(weight) then Ok(GraphEdge(sourceId, targetId, relationship, weight))
    else Err("weight must lie in [0, 1]")
  }

  /** An edge built with the default weight always passes validation. */
  lemma DefaultWeightValid(sourceId: string, targetId: string, relationship: RelationshipType)
    ensures ValidWeight(DefaultWeight)
    ensures NewGraphEdge(sourceId, targetId, relationship, DefaultWeight)
         == Ok(GraphEdge(sourceId, targetId, relationship, DefaultWeight))
  {
  }

  /** The values found in the visualisation's node and edge dictionaries. */
  datatype Value = Str(s: string) | Num(r: real) | Props(props: map<string, PropValue>) | Null

  /** A JSON-like dictionary with string keys. */
  type Dict = map<string, Value>

  /** `d.get(key, default)`. */
  function Get(d: Dict, key: string, default: Value): Value {
    if key in d then d[key] else default
  }

  /** The payload of a subgraph query. */
  datatype GraphVisualization = GraphVisualization(
    nodes: seq<Dict>,
    edges: seq<Dict>,
    focusNode: Option<string>,
    depth: int,
    totalNodes: int,
    totalEdges: int)

  /** The bound the visualisation model places on `depth`. */
  predicate ValidDepth(depth: int) {
    1 <= depth <= 5
  }

  /** A visualisation with every field at its default except the focus node. */
  function DefaultVisualization(focus: Option<string>): (v: GraphVisualization)
    ensures v.nodes == [] && v.edges == [] && v.focusNode == focus
    ensures v.totalNodes == 0 && v.totalEdges == 0
    ensures v.depth == 2 && ValidDepth(v.depth)
  {
    GraphVisualization([], [], focus, 2, 0, 0)
  }

  /** Building a visualisation validates its depth: outside [1, 5] it raises. */
  function NewVisualization(nodes: seq<Dict>, edges: seq<Dict>, focus: Option<string>, depth: int,
                            totalNodes: int, totalEdges: int): (r: Result<GraphVisualization>)
    ensures r.Ok? <==> ValidDepth(depth)
    ensures r.Ok? ==> r.value == GraphVisualization(nodes, edges, focus, depth, totalNodes, totalEdges)
  {
    if ValidDepth(depth) then Ok(GraphVisualization(nodes, edges, focus, depth, totalNodes, totalEdges))
    else Err("depth must lie in [1, 5]")
  }

  /** One node and one edge entry of the vis.js network format. */
  datatype VisJsNode = VisJsNode(id: Value, displayLabel: Value, group: Value, value: Value, title: Value)
  datatype VisJsEdge = VisJsEdge(from: Value, to: Value, displayLabel: Value, value: Value)
  datatype VisJs = VisJs(nodes: seq<VisJsNode>, edges: seq<VisJsEdge>)

  function VisJsNodeOf(n: Dict): VisJsNode {
    VisJsNode(Get(n, "id", Null), Get(n, "label", Null), Get(n, "type", Null),
              Get(n, "size", Num(1.0)), Get(n, "tooltip", Get(n, "label", Null)))
  }

  function VisJsEdgeOf(e: Dict): VisJsEdge {
    VisJsEdge(Get(e, "source", Null), Get(e, "target", Null), Get(e, "label", Str("")), Get(e, "weight", Num(1.0)))
  }

  /** The vis.js form: one entry per node and one per edge, in the same order;
      a node's value is its size (1 when absent) and its title its tooltip or
      else its label; an edge runs "from" its source "to" its target and has
      the label "" when none is given. */
  function ToVisJsFormat(v: GraphVisualization): (r: VisJs)
    ensures |r.nodes| == |v.nodes| && |r.edges| == |v.edges|
    ensures forall i :: 0 <= i < |v.nodes| ==>
      && r.nodes[i].id == Get(v.nodes[i], "id", Null)
      && r.nodes[i].displayLabel == Get(v.nodes[i], "label", Null)
      && r.nodes[i].group == Get(v.nodes[i], "type", Null)
      && r.nodes[i].value == (if "size" in v.nodes[i] then v.nodes[i]["size"] else Num(1.0))
      && r.nodes[i].title == (if "tooltip" in v.nodes[i] then v.nodes[i]["tooltip"] else Get(v.nodes[i], "label", Null))
    ensures forall i :: 0 <= i < |v.edges| ==>
      && r.edges[i].from == Get(v.edges[i], "source", Null)
      && r.edges[i].to == Get(v.edges[i], "target", Null)
      && r.edges[i].displayLabel == (if "label" in v.edges[i] then v.edges[i]["label"] else Str(""))
      && r.edges[i].value == (if "weight" in v.edges[i] then v.edges[i]["weight"] else Num(1.0))
  {
    VisJs(seq(|v.nodes|, i requires 0 <= i < |v.nodes| => VisJsNodeOf(v.nodes[i])),
          seq(|v.edges|, i requires 0 <= i < |v.edges| => VisJsEdgeOf(v.edges[i])))
  }
}
