# Security-news knowledge graph: a verified model of its core

The backend turns scraped security articles into a knowledge graph and into
forecasts. This project models the deterministic core of that backend in
Dafny and proves what it promises.

The knowledge-graph service keeps three structures side by side:
- a directed graph: a re-model of the networkx `DiGraph` it uses, with ordered successor and predecessor lists and one attribute record per ordered pair;
- a node table from node id to node;
- an append-only log of every edge record.

Articles become article nodes. Every vulnerability, threat actor and category
an article lists becomes an entity node, with a MENTIONS edge from the article.
Over this graph the service answers these queries:
- bounded-depth subgraphs, with edges treated as undirected;
- up to three shortest connections between two nodes;
- an article's links;
- the articles mentioning an entity;
- the graph context handed to the predictor: connection count and density, related CVEs and actors, and trending and active-campaign flags.

Around it sit rule-based parts:
- **Prediction model:** the field bounds and the threshold classifiers (confidence level, demo-card urgency and timeframe text, DNA match strength, top match score, risk colour, forecast urgency).
- **Prediction service helpers:** the graph-driven confidence boost, the fallback prediction heuristics, the risk labels, the baseline risk curve, the 48-hour forecast grid, and threat-name extraction.
- **Chat service rules:** keyword intent and topic detection, the choice of the best-connected article, follow-up questions, timeline event classification and ordering, and the personalised system prompt.

Modules:
- `Wrappers`: Option and Result.
- `Text`: ASCII lower-casing, substrings, split, strip, join and decimal rendering.
- `Articles`: the article record the core reads.
- `GraphModels`: the node, edge and visualisation data model.
- `DiGraphs`: the directed graph, its undirected breadth-first rounds, walks and shortest paths.
- `GraphTables`: the graph as a function of the node ids and the edge log.
- `GraphServices`: the `GraphService` class and the functions that specify it.
- `GraphQueries`: the read-only queries as functions and small value-level methods.
- `PredictionModels`, `PredictionServices` and `ChatServices`.

The class keeps one invariant through every operation and through every load that completes:
- the graph equals `GraphOf(node ids + edge endpoints, edge log)`;
- a vertex's successors are the targets of its log records, in first-appearance order;
- the attributes of a pair come from its latest record.

A load that stops at a clashing node leaves that node in the table but not in the graph, so the invariant no longer holds after it. A second invariant, that every logged endpoint is a stored node, holds on the `add_*` path only: a load can break it.

## Model

| member | source | states |
|---|---|---|
| GraphModels.NewGraphNode | backend/app/models/graph.py:33-43 | a node built from its required fields has size 1.0, no properties and no colour override |
| GraphModels.NewGraphEdge | backend/app/models/graph.py:57-65 | building an edge succeeds exactly when the weight lies in [0, 1], and then records the given endpoints, relationship and weight |
| GraphModels.DefaultWeightValid | backend/app/models/graph.py:63 | for any endpoints and relationship, an edge built with the default weight 1.0 passes validation and carries the given fields |
| GraphModels.DefaultVisualization | backend/app/models/graph.py:78-100 | a default visualisation has no nodes or edges, totals 0 and depth 2, which is within bounds |
| GraphModels.NewVisualization | backend/app/models/graph.py:93-98 | building a visualisation succeeds exactly when the depth lies in [1, 5] |
| GraphModels.ToVisJsFormat | backend/app/models/graph.py:102-124 | one vis.js entry per node and per edge, in order; a node keeps its id and label, takes its group from "type", its value from the size (1 when absent) and its title from the tooltip, else the label; source maps to "from", target to "to", the edge label defaults to "" and the edge value is the weight (1 when absent) |
| GraphQueries.SubgraphNodesHaveNoGroup | backend/app/models/graph.py:104-114 | subgraph node entries converted to vis.js all have a null group, because the group is read from "type" while the entries carry "node_type"; each keeps its node's id and takes its size as value |
| DiGraphs.DiGraph.AddNode | backend/app/services/graph.py:45-50 | adding a vertex adds it to both adjacency maps and leaves the edge attributes alone |
| DiGraphs.AddNodeLists | backend/app/services/graph.py:45-50 | adding a vertex keeps existing adjacency lists and gives a new vertex empty ones |
| DiGraphs.AddEdgeSpec | backend/app/services/graph.py:137-142 | adding an edge adds both endpoints and overwrites the attributes stored on the ordered pair |
| DiGraphs.Empty | backend/app/services/graph.py:25 | a fresh graph is well formed and has no vertices |
| DiGraphs.ClosureInVertices | backend/app/services/graph.py:177-185 | expansion rounds reach only vertices of the graph |
| DiGraphs.ClosureMonotone | backend/app/services/graph.py:177-185 | the reached set only grows from round to round |
| DiGraphs.WalkEndsInClosure | backend/app/services/graph.py:177-185 | the end of a walk of at most k steps from the centre is reached within k rounds |
| DiGraphs.ClosureHasWalk | backend/app/services/graph.py:177-185 | every vertex reached in k rounds is the end of a walk of at most k steps from the centre |
| DiGraphs.ClosureIsBall | backend/app/services/graph.py:177-185 | a vertex is reached in k rounds if and only if some undirected walk of at most k steps leads to it |
| DiGraphs.ClosureStable | backend/app/services/graph.py:177-185 | once a round adds nothing, later rounds add nothing |
| DiGraphs.WalksSound | backend/app/services/graph.py:231-235 | every enumerated k-step walk is a walk of k + 1 vertices from the start |
| DiGraphs.WalksComplete | backend/app/services/graph.py:231-235 | every walk of k + 1 vertices from the start is enumerated |
| DiGraphs.WalksExact | backend/app/services/graph.py:231-235 | the enumeration holds exactly the k-step walks from the start |
| DiGraphs.ShortestByRounds | backend/app/services/graph.py:231-235 | a k-step walk to a target first reached in round k is a shortest path |
| DiGraphs.ShortestIsSimple | backend/app/services/graph.py:231-235 | a shortest path repeats no vertex |
| DiGraphs.ShortestTakesKSteps | backend/app/services/graph.py:231-235 | a shortest path to a target first reached in round k has exactly k steps |
| DiGraphs.ShortestPathsExact | backend/app/services/graph.py:231-235 | for a target first reached in round k, the k-step walks to it are exactly its shortest paths |
| DiGraphs.ShortestPathsExist | backend/app/services/graph.py:231-235 | a target first reached in round k has at least one k-step walk |
| DiGraphs.UnreachableAtFixpoint | backend/app/services/graph.py:240-241 | a target outside the reached set once the rounds stop growing has no path at all |
| GraphTables.SuccessorListSpec | backend/app/services/graph.py:137-142 | a vertex's successor list has no duplicates and holds exactly the targets of its logged records |
| GraphTables.PredecessorListSpec | backend/app/services/graph.py:137-142 | a vertex's predecessor list has no duplicates and holds exactly the sources of its logged records |
| GraphTables.LatestDataKeys | backend/app/services/graph.py:137-142 | an ordered pair has attributes exactly when some logged record joins it |
| GraphTables.LatestDataOfLast | backend/app/services/graph.py:137-142 | the newest record of a pair decides the pair's attributes |
| GraphTables.LatestDataOfOther | backend/app/services/graph.py:137-142 | a new record leaves the attributes of every other pair alone |
| GraphTables.LatestDataSize | backend/app/services/graph.py:283-284 | the graph has no more edges than the log has records |
| GraphTables.GraphOfValid | backend/app/services/graph.py:137-142 | the graph built from a log is well formed: mirrored lists, no duplicates, attributes exactly on edges |
| GraphTables.GraphOfAddNode | backend/app/services/graph.py:44-50 | adding a vertex to the graph of a log is the graph of the log with one more vertex |
| GraphTables.GraphOfAddEdge | backend/app/services/graph.py:136-142 | adding an edge to the graph of a log is the graph of the log with that record appended |
| GraphTables.GraphOfLogAddEdge | backend/app/services/graph.py:385-392 | the same holds for the vertex set "node ids plus log endpoints" that a load produces |
| GraphServices.SlugShape | backend/app/services/graph.py:93 | an entity slug is as long as the name and has no spaces or upper-case letters |
| GraphServices.EntityIdShape | backend/app/services/graph.py:93 | an entity id is the type's value, a hyphen, then the slug |
| GraphServices.EntityIdDeterminesType | backend/app/services/graph.py:93 | two equal entity ids have the same node type |
| GraphServices.EntityIdSameType | backend/app/services/graph.py:93 | for one type, two names give the same id exactly when their slugs agree |
| GraphServices.EntityIdMergesSpellings | backend/app/services/graph.py:93 | for every node type, two names of equal length that agree character by character up to case and space-versus-hyphen give the same entity id |
| GraphServices.EntityNode | backend/app/services/graph.py:96-101 | a new entity node carries the entity id, its type, the name as label, size 1.0 and no properties |
| GraphServices.ArticleLabel | backend/app/services/graph.py:35 | an article label is the title when at most 50 characters, else its first 50 characters and "..." |
| GraphServices.ArticleNode | backend/app/services/graph.py:32-42 | an article node has the article's id, the article type, the cut label, size 1.5 and exactly the url, published_at and categories properties |
| GraphServices.AddEntitySpec | backend/app/services/graph.py:95-102 | a mention adds its entity id and keeps every existing node unchanged, including one already stored under that id |
| GraphServices.WithEntitiesSpec | backend/app/services/graph.py:59-81 | after all mentions the table holds the old ids plus the mention ids, with old nodes unchanged |
| GraphServices.WithEntitiesNewNode | backend/app/services/graph.py:95-102 | the first mention of a new id creates its node, and later mentions keep that first label |
| GraphServices.MentionEdgesSpec | backend/app/services/graph.py:116 | one MENTIONS edge of weight 1.0 per mention, in order, from the article to the entity id |
| GraphServices.HandledCountSpec | backend/app/services/graph.py:158-165 | similar articles are handled in order up to the first whose field validation fails |
| GraphServices.SimilarEdgesSpec | backend/app/services/graph.py:158-164 | at most one RELATED_TO edge per similar article, each between stored nodes, and none when the article has no node |
| GraphServices.SimilarIds | backend/app/services/graph.py:165 | the related ids are the similar articles' ids, in order |
| GraphServices.CleanPrefix | backend/app/services/graph.py:374-381 | a load stores nodes up to the first whose properties hold a key named label, node_type, self or node_for_adding, each a duplicate keyword of `add_node` |
| GraphServices.TableKeys | backend/app/services/graph.py:374-375 | storing loaded nodes adds exactly their ids |
| GraphServices.TableLastWins | backend/app/services/graph.py:374-375 | the last loaded node with a given id is the one stored |
| GraphServices.GraphService.GraphFacts | backend/app/services/graph.py:21-27 | the graph's vertices are the stored ids plus logged endpoints, and equal the stored ids while every endpoint is stored |
| GraphServices.GraphService.constructor | backend/app/services/graph.py:24-27 | a new service has an empty graph, node table and edge log |
| GraphServices.GraphService.StatisticsSpec | backend/app/services/graph.py:280-291 | article plus entity node counts equal the table size; the edge count is at most the log length; total_nodes can exceed the table size, but not while every endpoint is stored |
| GraphServices.GraphService.AddEdge | backend/app/services/graph.py:118-150 | a missing endpoint returns None and changes nothing; a bad weight raises and changes nothing; otherwise exactly one record is appended and the graph follows |
| GraphServices.GraphService.AddEntityNode | backend/app/services/graph.py:85-116 | the entity node is created only if absent, and one edge from the article is appended when the article is stored |
| GraphServices.GraphService.AddEntityNodes | backend/app/services/graph.py:59-81 | one entity per name, and one MENTIONS edge per name appended in order |
| GraphServices.GraphService.AddArticleNode | backend/app/services/graph.py:30-83 | the article node is overwritten, then vulnerabilities, threat actors and categories add their entities and one MENTIONS edge each, in that order |
| GraphServices.GraphService.ConnectSimilarArticles | backend/app/services/graph.py:152-165 | the related ids and RELATED_TO edges of the handled similar articles are appended, and the call raises exactly when one fails validation |
| GraphServices.GraphService.SubgraphNodes | backend/app/services/graph.py:188-198 | one entry for each reached and stored node, each once, with the centre drawn at double size |
| GraphServices.GraphService.SubgraphEdges | backend/app/services/graph.py:200-208 | one entry per logged record with both endpoints reached, in log order |
| GraphQueries.InSubgraphCount | backend/app/services/graph.py:200-208 | a subgraph shows each inside record as often as the log holds it, duplicates included, and no other record |
| GraphQueries.InSubgraphEndpoints | backend/app/services/graph.py:200-208 | the endpoints of every shown record are reached and stored |
| GraphServices.GraphService.GetSubgraph | backend/app/services/graph.py:167-217 | an unknown centre gives the default view focused on it; otherwise the view holds the nodes reached in depth undirected rounds and their inside records, totals equal list lengths, and a depth outside [1, 5] raises |
| GraphQueries.ExpandOnce | backend/app/services/graph.py:180-185 | one round adds every predecessor and successor of the current set |
| GraphQueries.ExpandRounds | backend/app/services/graph.py:177-185 | depth rounds (none for a negative depth) reach the depth-round closure of the centre |
| GraphQueries.ReachRounds | backend/app/services/graph.py:231-235 | the search stops at the first round that reaches the target, or when the reached set stops growing |
| GraphQueries.PickUpTo3 | backend/app/services/graph.py:230-238 | at most three distinct candidates are taken, all of them when fewer than three exist, and none only when there are none |
| GraphQueries.ConnectionsBetween | backend/app/services/graph.py:225-241 | [] exactly when no undirected path exists; else up to 3 distinct shortest paths, all of them when fewer than 3 exist |
| GraphServices.GraphService.FindConnectionsBetween | backend/app/services/graph.py:219-241 | [] exactly when no undirected path exists; else up to 3 distinct shortest paths, each without repeated vertices, and every shortest path when fewer than 3 are returned |
| GraphServices.GraphService.ListsOfLog | backend/app/services/graph.py:254 | a vertex's successors and predecessors are those of the edge log, and the edge attributes are the latest records |
| GraphQueries.ArticleLinksExact | backend/app/services/graph.py:254-267 | an article link exists exactly for each stored article successor, with its label and the stored relationship |
| GraphQueries.EntityLinksExact | backend/app/services/graph.py:268-273 | an entity link exists exactly for each stored non-article successor, with its type and label |
| GraphQueries.LinksPartition | backend/app/services/graph.py:254-273 | every stored successor is counted once, as an article link or as an entity link |
| GraphServices.GraphService.ConnectionsMean | backend/app/services/graph.py:243-278 | an article's links are exactly its logged targets that are stored nodes, with the latest relationship |
| GraphServices.GraphService.ConnectionCount | backend/app/services/graph.py:350-351 | while every endpoint is stored, the connection count is the number of distinct logged targets |
| GraphServices.GraphService.GetArticleConnections | backend/app/services/graph.py:243-278 | the article and entity links of the article's successors, in successor order |
| GraphQueries.ArticlesAmongExact | backend/app/services/graph.py:361-367 | the mentioning articles are exactly the stored article predecessors, without duplicates |
| GraphServices.GraphService.MentioningMeans | backend/app/services/graph.py:356-367 | an article mentions an entity exactly when it is stored as an article and a logged record runs from it to the entity |
| GraphServices.GraphService.FindArticlesMentioning | backend/app/services/graph.py:356-367 | the stored article predecessors of the entity, in predecessor order; none for an absent id |
| GraphQueries.DensityBounds | backend/app/services/graph.py:352 | the density lies in [0, 1], is 1 from ten connections on, and never falls as the count grows |
| GraphQueries.RelatedArticlesOf | backend/app/services/graph.py:342-347 | one related-article entry per article link, in order |
| GraphQueries.ContextFlags | backend/app/services/graph.py:317-339 | a CVE is trending exactly when more than 2 articles mention it, an actor is active exactly when more than 1 does, with one entry per CVE and per actor in order |
| GraphServices.GraphService.EntityContexts | backend/app/services/graph.py:317-339 | the related CVE and actor labels and their contexts, in link order |
| GraphQueries.PredictionContextSpec | backend/app/services/graph.py:299-354 | no graph data exactly when the article is absent; otherwise the count is entity links plus article links, the density is min(1, count/10), and the flags and entries are as above |
| GraphServices.GraphService.GetPredictionContext | backend/app/services/graph.py:293-354 | the prediction context of the article, as specified above |
| GraphServices.GraphService.LoadFromDatabase | backend/app/services/graph.py:369-402 | without clearing first, loaded nodes are stored (the last one wins) and loaded records appended, with unknown endpoints added to the graph only; a clashing node stops the load with count 0: it and the earlier nodes stay in the table, no record is appended, and the graph holds the earlier nodes only |
| GraphServices.GraphService.StoreNodes | backend/app/services/graph.py:374-381 | nodes are stored in order; on the first clashing one (a label, node_type, self or node_for_adding property) it is put in the table but not in the graph, and storing stops |
| GraphServices.GraphService.StoreEdges | backend/app/services/graph.py:385-392 | every loaded record is appended and the graph follows |
| GraphServices.GraphService.ClearAndRebuild | backend/app/services/graph.py:404-409 | the graph, table and log are emptied, then the load runs |
| PredictionModels.NewThreatPrediction | backend/app/models/prediction.py:29-68 | a prediction is built exactly when description is at most 500 characters, confidence lies in [0, 1], the timeframe in [1, 365] days, and reasoning at most 1000 characters |
| PredictionModels.Truncate | backend/app/models/prediction.py:73 | `int()` truncates toward zero |
| PredictionModels.ConfidencePercentage | backend/app/models/prediction.py:70-73 | the percentage is the truncated confidence times 100, within [0, 100] |
| PredictionModels.ConfidenceLevelOf | backend/app/models/prediction.py:75-87 | the level thresholds 0.85, 0.70, 0.50 and 0.25, each in both directions |
| PredictionModels.ConfidenceLevelMonotone | backend/app/models/prediction.py:76-87 | a higher confidence never gets a lower level |
| PredictionModels.DisplayString | backend/app/models/prediction.py:89-94 | the display string contains the description |
| PredictionModels.DemoUrgency | backend/app/models/prediction.py:107-115 | the urgency is the first rule that holds: CRITICAL, HIGH, MODERATE, else LOW |
| PredictionModels.TimeframeDisplayDetermined | backend/app/models/prediction.py:117-129 | two timeframes get the same text exactly when they share a bracket, and also the day count in the brackets that print it |
| PredictionModels.NumberedTextInjective | backend/app/models/prediction.py:121 | different day counts print different texts |
| PredictionModels.ToDemoCard | backend/app/models/prediction.py:96-144 | the card's urgency is the demo urgency rule, its timeframe the bracket text, its confidence level and type the enum values; hence a CRITICAL card has high or very high confidence and a CRITICAL or HIGH card is never "this month"; reasoning, evidence and raw values are copied |
| PredictionModels.MatchStrength | backend/app/models/prediction.py:221-232 | the thresholds 0.85, 0.70 and 0.50 in both directions |
| PredictionModels.TopMatchScore | backend/app/models/prediction.py:273-279 | 0 with no matches, otherwise the maximum similarity |
| PredictionModels.HasStrongPrecedent | backend/app/models/prediction.py:281-285 | true exactly when some similarity is at least 0.75 |
| PredictionModels.StrongPrecedentIffTopScore | backend/app/models/prediction.py:275-285 | a strong precedent exists exactly when the top score is at least 0.75, and always when the top match is STRONG |
| PredictionModels.RiskColor | backend/app/models/prediction.py:312-324 | the colour bands 0.8, 0.6, 0.4 and 0.2 in both directions |
| PredictionModels.UrgencyLevel | backend/app/models/prediction.py:376-387 | CRITICAL for peak at least 0.8 within 12 hours, HIGH for at least 0.6 within 24, MODERATE for at least 0.4, else LOW |
| PredictionServices.DensityBoost | backend/app/services/prediction.py:369-374 | 0.10 above density 0.5, 0.05 above 0.2, else 0 |
| PredictionServices.ActorBoost | backend/app/services/prediction.py:376-381 | at most 0.15, reached from three active actors |
| PredictionServices.CveBoost | backend/app/services/prediction.py:383-388 | at most 0.14, reached from two trending CVEs |
| PredictionServices.MomentumBoost | backend/app/services/prediction.py:390-395 | 0.10 above 5 related articles, 0.05 above 2, else 0 |
| PredictionServices.AdjustedConfidence | backend/app/services/prediction.py:351-398 | without graph data the base is returned unchanged; with it the result lies between min(base, 0.95) and 0.95 |
| PredictionServices.AdjustedConfidenceMonotone | backend/app/services/prediction.py:351-398 | a higher base never gives a lower adjusted confidence |
| PredictionServices.AdjustConfidenceWithGraph | backend/app/services/prediction.py:351-398 | the accumulating loop computes the adjusted confidence |
| PredictionServices.SeverityConfidence | backend/app/services/prediction.py:411-425 | the heuristic confidence lies in [0.5, 1] |
| PredictionServices.FallbackTimeframe | backend/app/services/prediction.py:412-423 | 10 days when the content mentions a PoC, else 3 when actively exploited, else 7 when content or title says critical, else 14 |
| PredictionServices.FallbackConfidence | backend/app/services/prediction.py:427-432 | at least 0.5 and capped at 0.85, or 0.92 with graph data |
| PredictionServices.ExploitDescription | backend/app/services/prediction.py:467-478 | names the first graph CVE, else the first listed vulnerability |
| PredictionServices.SpreadDescription | backend/app/services/prediction.py:480-489 | names the first linked threat actor |
| PredictionServices.PatchDescription | backend/app/services/prediction.py:491-499 | names the first listed vulnerability |
| PredictionServices.EscalationDescription | backend/app/services/prediction.py:501-509 | mentions ransomware with linked actors, else the generic escalation text |
| PredictionServices.FallbackReasoning | backend/app/services/prediction.py:442-454 | the fixed sentence alone without graph data, or with graph data that relates neither actors nor CVEs; otherwise the sentence followed, each after "; ", by "linked to threat actors: " and the first two actors joined by ", " when there are actors, then "connected to CVEs: " and the first two CVEs when there are CVEs |
| PredictionServices.FallbackPrediction | backend/app/services/prediction.py:400-465 | builds the prediction from the fallback description, confidence, timeframe, reasoning and first three categories |
| PredictionServices.FallbackPredictionValid | backend/app/services/prediction.py:456-465 | the fallback is rejected only for an over-long description or reasoning; otherwise confidence is within the cap, the timeframe is 3, 7, 10 or 14, and evidence is at most the first three categories |
| PredictionServices.RiskLabel | backend/app/services/prediction.py:712-723 | labels at 0.8, 0.6, 0.4 and 0.2 in both directions, else SAFE |
| PredictionServices.RiskLabelMonotone | backend/app/services/prediction.py:712-723 | a higher risk never gets a lower label, and label and colour name the same band |
| PredictionServices.HourOfDay | backend/app/services/prediction.py:784 | the hour of a timestamp lies in [0, 24) |
| PredictionServices.BaselineRisk | backend/app/services/prediction.py:784-792 | the baseline risk is clamped to [0.1, 0.9] |
| PredictionServices.BaselineDefaultUnclamped | backend/app/services/prediction.py:782-792 | from the default base 0.3 the curve stays in [0.25, 0.6] and rises with the hour between working and off hours |
| PredictionServices.BaselineEntry | backend/app/services/prediction.py:794-802 | each baseline entry is valid, sits at its hour, and has the label of its risk and no event or factors |
| PredictionServices.BaselineEntries | backend/app/services/prediction.py:775-805 | 49 baseline entries, one per hour 0..48, in order |
| PredictionServices.ByHour | backend/app/services/prediction.py:736 | the hour map keys every given entry by its own hour |
| PredictionServices.ByHourLastWins | backend/app/services/prediction.py:736 | the last entry given for an hour is the one kept |
| PredictionServices.PrevHour | backend/app/services/prediction.py:745 | the greatest given hour below the hour, else 0 |
| PredictionServices.NextHour | backend/app/services/prediction.py:746 | the least given hour above the hour, else 48 |
| PredictionServices.InterpolatedRiskBounds | backend/app/services/prediction.py:748-760 | a filled risk lies in [0, 1] and between the neighbouring given risks |
| PredictionServices.GridEntrySpec | backend/app/services/prediction.py:740-771 | every grid entry sits at its hour and is valid; given hours keep their entry verbatim; filled hours have no event or factors |
| PredictionServices.Ensure48Entries | backend/app/services/prediction.py:725-773 | for entries that pass the model's hour and risk bounds, the result is 49 valid entries, entry h at hour h: the baseline from 0.3 for no entries, otherwise the grid entry of each hour |
| PredictionServices.FillHour | backend/app/services/prediction.py:744-771 | a missing hour gets the interpolated grid entry |
| PredictionServices.CutTitle | backend/app/services/prediction.py:706-709 | the cut title is a prefix of the title free of the separators; it is the whole title exactly when no separator occurs in it, and otherwise it ends where one of the separators occurs in the title |
| PredictionServices.CutAtSeparators | backend/app/services/prediction.py:706-709 | the loop cuts the title at ":", " - " and " \| " in turn |
| PredictionServices.TitleStemSpec | backend/app/services/prediction.py:705-710 | the title stem is a piece of the title of at most 40 characters, with no separator and no surrounding whitespace |
| PredictionServices.TitleStemTrimmed | backend/app/services/prediction.py:705-710 | the stem is the title's first m characters with only whitespace taken off either end, where m is the cut title's length capped at 40; for a title without separators m is the title's length capped at 40 |
| PredictionServices.ExtractThreatName | backend/app/services/prediction.py:699-710 | the first vulnerability, else the first threat actor, else the title stem |
| ChatServices.IntentOf | backend/app/services/chat.py:41-57 | the first keyword group found in the lower-cased message decides the intent, in the fixed order; SEARCH when none matches |
| ChatServices.FirstTopicFrom | backend/app/services/chat.py:127-131 | the first topic from the given position on that occurs in the message |
| ChatServices.ExtractTopic | backend/app/services/chat.py:102-131 | the first topic in list order that occurs in the lower-cased message, or none exactly when no topic occurs |
| ChatServices.ParseIntent | backend/app/services/chat.py:39-66 | the intent and topic as above, no entities, no time range and confidence 0.8 |
| ChatServices.Peak | backend/app/services/chat.py:77-88 | the largest count, 0 for none |
| ChatServices.BestIndexSpec | backend/app/services/chat.py:77-88 | the chosen index is the first with the strictly largest count, and 0 when every count is 0 |
| ChatServices.ScanStep | backend/app/services/chat.py:77-88 | one step of the best-so-far scan replaces the best only on a strictly greater count |
| ChatServices.SubgraphEdgeCount | backend/app/services/chat.py:83-84 | an article's count is the edge total of its depth-2 subgraph view, 0 when it is not in the graph |
| ChatServices.EdgeTotals | backend/app/services/chat.py:83-84 | each article's count is the number of edges in its depth-2 subgraph, 0 when absent |
| ChatServices.FindBestConnectedArticle | backend/app/services/chat.py:68-100 | none exactly for no articles; otherwise the article at the best index |
| ChatServices.FollowupsCut | backend/app/services/chat.py:411-433 | the follow-ups for each intent, cut to three |
| ChatServices.FollowupsSpec | backend/app/services/chat.py:411-433 | at most three follow-ups; a question is omitted exactly when it matches the intent; the vulnerability question appears, last, exactly when the article lists a vulnerability and a generic question was omitted |
| ChatServices.GenerateFollowups | backend/app/services/chat.py:411-433 | the appending method returns the first three candidates |
| ChatServices.QuestionsDistinct | backend/app/services/chat.py:419-431 | the fixed questions differ from each other and from the vulnerability question |
| ChatServices.EventTypeOf | backend/app/services/chat.py:234-244 | the precedence disclosure > patch > exploit > breach > update, each in both directions |
| ChatServices.SeverityOf | backend/app/services/chat.py:246-250 | critical when the content says "critical", else high when it says "high", else medium |
| ChatServices.EventOf | backend/app/services/chat.py:252-261 | an event has id "evt-" followed by the article id, keeps the article's id and time, takes the title's first 100 characters (all of a shorter title), and the classified type and severity |
| ChatServices.EventsOf | backend/app/services/chat.py:233-261 | one event per article, in order |
| ChatServices.InsertSorted | backend/app/services/chat.py:264 | inserting into sorted events keeps them sorted |
| ChatServices.InsertPermutes | backend/app/services/chat.py:264 | insertion adds exactly the one event |
| ChatServices.InsertStable | backend/app/services/chat.py:264 | insertion keeps equal timestamps in arrival order |
| ChatServices.SortByTimeSpec | backend/app/services/chat.py:264 | the sort is sorted, a permutation, and stable |
| ChatServices.BuildTimeline | backend/app/services/chat.py:225-283 | the events of the first ten related articles sorted by time; first_seen and last_updated are the first and last timestamps, or none without events |
| ChatServices.TimelineSpec | backend/app/services/chat.py:233-282 | at most ten events, sorted, a stable permutation, each between the first and last timestamps |
| ChatServices.StyleInstruction | backend/app/services/chat.py:313-350 | the non-technical and executive instructions, and the technical one for any other style |
| ChatServices.DetailInstruction | backend/app/services/chat.py:329-351 | the brief and comprehensive instructions, and the detailed one for any other level |
| ChatServices.SystemPrompt | backend/app/services/chat.py:285-353 | the prompt starts with the base prompt; without preferences it is the base prompt plus the default guidance |
| ChatServices.SystemPromptEnds | backend/app/services/chat.py:338-353 | with preferences the prompt ends with the style instruction and then the detail instruction |
| ChatServices.SystemPromptFallbacks | backend/app/services/chat.py:347-351 | an unknown style or detail level gives the same prompt as "technical" and "detailed" |
| Text.Lower | backend/app/services/chat.py:41 | lower-casing keeps the length and lowers each character |
| Text.ReplaceChar | backend/app/services/graph.py:93 | replacing a character keeps the length and changes exactly its occurrences |
| Text.SplitFirst | backend/app/services/prediction.py:708-709 | the first piece of a split is the whole string when the separator is absent, and otherwise the prefix ending exactly at the separator's first occurrence |
| Text.Strip | backend/app/services/prediction.py:710 | a stripped string is the original with only leading and trailing whitespace removed, and it neither starts nor ends with whitespace |
| Text.NatToStringInjective | backend/app/models/prediction.py:121 | different numbers render differently |

## Left out

- Persistence mirroring: the repository calls that mirror nodes and edges to the database are no-ops here, because the service ignores their failures. A load takes the repository's node and edge lists as parameters.
- networkx is re-modelled, not called. `all_shortest_paths` returns up to three shortest paths in an order the model leaves unspecified: the library's internal path order is not mirrored.
- Language-model calls (OpenAI, Gemini), prompt texts, JSON parsing of model output, prediction caching, the repository lookups and `get_predictions_for_article` are left out: they are foreign services or I/O. The predictions of a timeline are a parameter of `BuildTimeline`.
- Floating point: confidences, risks, weights and sizes are exact reals. `int()` truncation is modelled; the rounding of float arithmetic and of the interpolated values is not.
- Time: timestamps are integer seconds; the hour of day is taken in UTC; `published_at` is stored as a time value, not an ISO string. The current time, uuids and md5 ids are parameters.
- Asynchrony: every operation is atomic and sequential, as the code has no locking.
- Text handling is ASCII only: lower-casing and whitespace stripping do not cover other Unicode characters.
- Pydantic validation errors are modelled as `Result` errors on the bounds the core relies on; other field validation is not modelled.
- The edge timestamp and its always-empty properties, and the node colour override, carry no behaviour of the core and are dropped or kept minimal.
- ChatServices.BuildTimeline: the in-place `list.sort` is modelled as a functional stable insertion sort with the same result, not as an in-place sort.
- PredictionModels.DisplayString: only states that the display string contains the description, not its exact layout.
- PredictionModels.ToDemoCard: the headline (percentage and capitalised description) is computed but not stated.
- GraphServices.GraphService.LoadFromDatabase: after a load that stops at a clashing node, the model's operations no longer apply, because they all require the graph invariant that such a load breaks; the source goes on serving from that state, and the model says nothing about it. Only ClearAndRebuild can be called from there.
- GraphServices.GraphService.ConnectSimilarArticles: returns an updated article record instead of appending to the caller's article object in place, so aliasing of that object is not captured.
- PredictionServices.ExploitDescription: only states which name the sentence contains, not its exact wording.
- PredictionServices.SpreadDescription: only states which actor the sentence contains, not its exact wording; without linked actors nothing is stated.
- PredictionServices.PatchDescription: only states which vulnerability the sentence contains, not its exact wording.
- PredictionServices.EscalationDescription: with linked actors, only states that the text mentions ransomware.
- ChatServices.SystemPrompt: with preferences, states the base prefix and, through SystemPromptEnds, the style and detail suffix; the role, industry, seniority and interests sentences in between are not stated.
- The vis.js group of subgraph nodes is always null, because the two functions use different keys. This is stated as a lemma rather than changed, because the conversion is not called anywhere in the backend.
