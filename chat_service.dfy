/** The rule-based parts of the chat service: keyword intent and topic
    detection, the choice of the best-connected article, follow-up
    suggestions, the story timeline and the personalised system prompt. */
module ChatServices {
  import opened Wrappers
  import opened Text
  import opened Articles
  import opened GraphModels
  import opened DiGraphs
  import opened GraphQueries
  import opened GraphServices
  import PredictionModels

  // ----- parse_intent and _extract_topic -----

  datatype IntentType =
    | ShowLatest | ShowConnections | ShowEvolution | ShowPredictions | Search | Explain | Compare | Unknown
  {
    function Value(): string {
      match this
      case ShowLatest => "show_latest"
      case ShowConnections => "show_connections"
      case ShowEvolution => "show_evolution"
      case ShowPredictions => "show_predictions"
      case Search => "search"
      case Explain => "explain"
      case Compare => "compare"
      case Unknown => "unknown"
    }
  }

  datatype ParsedIntent = ParsedIntent(
    intentType: IntentType,
    topic: Option<string>,
    entities: seq<string>,
    timeRangeDays: Option<int>,
    confidence: real)

  const LatestWords: seq<string> := ["latest", "recent", "new", "show me"]
  const ConnectionWords: seq<string> := ["connect", "related", "link"]
  const EvolutionWords: seq<string> := ["evolve", "timeline", "history"]
  const PredictionWords: seq<string> := ["predict", "forecast", "expect"]
  const SearchWords: seq<string> := ["search", "find", "look for"]
  const ExplainWords: seq<string> := ["explain", "what is", "tell me about"]

  /** Some keyword of the group occurs in `s`. */
  predicate AnyIn(s: string, words: seq<string>) {
    exists i | 0 <= i < |words| :: Contains(s, words[i])
  }

  /** The intent of a message: the first keyword group, in a fixed order,
      that occurs in the lower-cased message; SEARCH when none does. */
  function IntentOf(message: string): (t: IntentType)
    ensures var m := Lower(message);
      && (t == ShowLatest <==> AnyIn(m, LatestWords))
      && (t == ShowConnections <==> !AnyIn(m, LatestWords) && AnyIn(m, ConnectionWords))
      && (t == ShowEvolution <==>
            !AnyIn(m, LatestWords) && !AnyIn(m, ConnectionWords) && AnyIn(m, EvolutionWords))
      && (t == ShowPredictions <==>
            !AnyIn(m, LatestWords) && !AnyIn(m, ConnectionWords) && !AnyIn(m, EvolutionWords)
            && AnyIn(m, PredictionWords))
      && (t == Explain <==>
            !AnyIn(m, LatestWords) && !AnyIn(m, ConnectionWords) && !AnyIn(m, EvolutionWords)
            && !AnyIn(m, PredictionWords) && !AnyIn(m, SearchWords) && AnyIn(m, ExplainWords))
      && t in {ShowLatest, ShowConnections, ShowEvolution, ShowPredictions, Search, Explain}
  {
    var m := Lower(message);
    if AnyIn(m, LatestWords) then ShowLatest
    else if AnyIn(m, ConnectionWords) then ShowConnections
    else if AnyIn(m, EvolutionWords) then ShowEvolution
    else if AnyIn(m, PredictionWords) then ShowPredictions
    else if AnyIn(m, SearchWords) then Search
    else if AnyIn(m, ExplainWords) then Explain
    else Search
  }

  /** The security topics a message is searched for, in order. */
  const Topics: seq<string> := [
    "ransomware", "vulnerability", "malware", "phishing", "breach", "zero-day", "apt", "ddos",
    "exploit", "backdoor", "trojan", "supply chain", "apache", "microsoft", "linux", "windows", "cloud"]

  /** The first of `topics[from..]` that occurs in `s`. */
  function FirstTopicFrom(s: string, topics: seq<string>, from: nat): (r: Option<nat>)
    requires from <= |topics|
    decreases |topics| - from
    ensures r.Some? ==> from <= r.value < |topics| && Contains(s, topics[r.value])
    ensures r.Some? ==> forall j | from <= j < r.value :: !Contains(s, topics[j])
    ensures r.None? ==> forall j | from <= j < |topics| :: !Contains(s, topics[j])
  {
    if from == |topics| then None
    else if Contains(s, topics[from]) then Some(from)
    else FirstTopicFrom(s, topics, from + 1)
  }

  /** `_extract_topic`: the first topic, in list order, that occurs in the
      lower-cased message, or none. */
  function ExtractTopic(message: string): (topic: Option<string>)
    ensures topic.Some? ==> exists i | 0 <= i < |Topics| ::
      && topic.value == Topics[i] && Contains(Lower(message), Topics[i])
      && forall j | 0 <= j < i :: !Contains(Lower(message), Topics[j])
    ensures topic.None? <==> forall j | 0 <= j < |Topics| :: !Contains(Lower(message), Topics[j])
  {
    match FirstTopicFrom(Lower(message), Topics, 0)
    case None => None
    case Some(i) => Some(Topics[i])
  }

  /** `parse_intent`. */
  function ParseIntent(message: string): (p: ParsedIntent)
    ensures p.intentType == IntentOf(message) && p.topic == ExtractTopic(message)
    ensures p.confidence == 0.8 && p.entities == [] && p.timeRangeDays.None?
  {
    ParsedIntent(IntentOf(message), ExtractTopic(message), [], None, 0.8)
  }

  // ----- _find_best_connected_article -----

  /** The edge total of the depth-2 subgraph view around `id`. */
  function SubgraphEdgeTotal(g: DiGraph, edges: seq<GraphEdge>, id: string): nat {
    if id in g.succ then |InSubgraph(edges, g.Closure(id, 2))| else 0
  }

  /** The index the best-so-far scan settles on: the first strictly
      greater count replaces the best, which starts at index 0 with count 0. */
  function BestIndex(counts: seq<nat>): (i: nat)
    requires counts != []
    ensures i < |counts|
  {
    if |counts| == 1 then 0
    else
      var j := BestIndex(counts[..|counts| - 1]);
      if counts[|counts| - 1] > Peak(counts[..|counts| - 1]) then |counts| - 1 else j
  }

  /** The best count the scan has seen: the largest, or 0. */
  function Peak(counts: seq<nat>): (m: nat)
    ensures forall k | 0 <= k < |counts| :: counts[k] <= m
    ensures m == 0 || exists k | 0 <= k < |counts| :: counts[k] == m
  {
    if counts == [] then 0
    else
      var m := Peak(counts[..|counts| - 1]);
      if counts[|counts| - 1] > m then counts[|counts| - 1] else m
  }

  /** The chosen index holds the largest count, and no earlier index holds
      it unless every count is 0, in which case the choice is index 0. */
  lemma {:induction false} BestIndexSpec(counts: seq<nat>)
    requires counts != []
    ensures Peak(counts) == 0 ==> BestIndex(counts) == 0
    ensures Peak(counts) > 0 ==> counts[BestIndex(counts)] == Peak(counts)
    ensures Peak(counts) > 0 ==> forall k | 0 <= k < BestIndex(counts) :: counts[k] < Peak(counts)
  {
    if |counts| > 1 {
      var init := counts[..|counts| - 1];
      BestIndexSpec(init);
      assert forall k | 0 <= k < |init| :: init[k] == counts[k];
    }
  }

  /** One step of the scan: a strictly greater count takes over. */
  lemma ScanStep(counts: seq<nat>, i: nat)
    requires i < |counts|
    ensures Peak(counts[..i + 1]) == if counts[i] > Peak(counts[..i]) then counts[i] else Peak(counts[..i])
    ensures BestIndex(counts[..i + 1]) ==
      if counts[i] > Peak(counts[..i]) then i else if i == 0 then 0 else BestIndex(counts[..i])
  {
    assert counts[..i + 1][..i] == counts[..i];
  }

  /** The edge totals of the articles' subgraph views. */
  function EdgeTotals(g: DiGraph, edges: seq<GraphEdge>, articles: seq<Article>): (counts: seq<nat>)
    ensures |counts| == |articles|
    ensures forall i | 0 <= i < |articles| :: counts[i] == SubgraphEdgeTotal(g, edges, articles[i].id)
  {
    seq(|articles|, i requires 0 <= i < |articles| => SubgraphEdgeTotal(g, edges, articles[i].id))
  }

  /** The edge total of the depth-2 subgraph view, read off `get_subgraph`. */
  method SubgraphEdgeCount(gs: GraphService, id: string) returns (count: nat)
    requires gs.Valid()
    ensures count == SubgraphEdgeTotal(gs.graph, gs.edges, id)
  {
    ghost var order;
    var r;
    r, order := gs.GetSubgraph(id, 2);
    count := r.value.totalEdges;
  }

  /** `_find_best_connected_article`: none for no articles; otherwise the
      article the best-so-far scan over the subgraph edge totals keeps. */
  method FindBestConnectedArticle(gs: GraphService, articles: seq<Article>) returns (best: Option<Article>)
    requires gs.Valid()
    ensures best.None? <==> articles == []
    ensures best.Some? ==> best.value == articles[BestIndex(EdgeTotals(gs.graph, gs.edges, articles))]
  {
    if articles == [] {
      return None;
    }
    ghost var counts := EdgeTotals(gs.graph, gs.edges, articles);
    var bestIndex := 0;
    var bestCount := 0;
    for i := 0 to |articles|
      invariant i == 0 ==> bestIndex == 0 && bestCount == 0
      invariant i > 0 ==> bestIndex == BestIndex(counts[..i]) && bestCount == Peak(counts[..i])
    {
      var count := SubgraphEdgeCount(gs, articles[i].id);
      assert count == counts[i];
      ScanStep(counts, i);
      if count > bestCount {
        bestCount := count;
        bestIndex := i;
      }
    }
    assert counts[..|articles|] == counts;
    best := Some(articles[bestIndex]);
  }

  // ----- _generate_followups -----

  const EvolvedQuestion := "How has this situation evolved?"
  const ExpectQuestion := "What should I expect next?"

  /** The connections question names the topic, or "story" when there is none. */
  function ConnectedQuestion(topic: Option<string>): (q: string)
    ensures "What's connected to this " <= q
  {
    "What's connected to this " + (if topic.Some? && topic.value != "" then topic.value else "story") + "?"
  }

  function VulnerabilityQuestion(cve: string): (q: string)
    ensures "Tell me more about " <= q
  {
    "Tell me more about " + cve
  }

  /** The suggestions before the cut to three: the connections, evolution
      and expectation questions unless the intent already asks them, then
      the question about the article's first vulnerability. */
  function FollowupCandidates(intent: ParsedIntent, article: Article): (qs: seq<string>)
    ensures |qs| <= 4
  {
    (if intent.intentType != ShowConnections then [ConnectedQuestion(intent.topic)] else [])
    + (if intent.intentType != ShowEvolution then [EvolvedQuestion] else [])
    + (if intent.intentType != ShowPredictions then [ExpectQuestion] else [])
    + (if article.vulnerabilities != [] then [VulnerabilityQuestion(article.vulnerabilities[0])] else [])
  }

  /** The intent is one that one of the three generic questions asks. */
  predicate AsksGeneric(t: IntentType) {
    t == ShowConnections || t == ShowEvolution || t == ShowPredictions
  }

  /** A suggestion that asks about a vulnerability. */
  predicate AboutVulnerability(q: string) {
    "Tell me more about " <= q
  }

  /** The suggestions after the cut, intent by intent. */
  lemma FollowupsCut(intent: ParsedIntent, article: Article)
    ensures var c, v := ConnectedQuestion(intent.topic),
                        if article.vulnerabilities != [] then [VulnerabilityQuestion(article.vulnerabilities[0])] else [];
      Take(FollowupCandidates(intent, article), 3) ==
        match intent.intentType
        case ShowConnections => [EvolvedQuestion, ExpectQuestion] + v
        case ShowEvolution => [c, ExpectQuestion] + v
        case ShowPredictions => [c, EvolvedQuestion] + v
        case _ => [c, EvolvedQuestion, ExpectQuestion]
  {
  }

  /** At most three suggestions; the question matching the current intent is
      left out, and the vulnerability question makes the cut exactly when the
      article lists a vulnerability and one of the three generic questions
      was left out, and then it comes last. */
  lemma FollowupsSpec(intent: ParsedIntent, article: Article)
    ensures var qs := Take(FollowupCandidates(intent, article), 3);
      && |qs| <= 3
      && (ConnectedQuestion(intent.topic) in qs <==> intent.intentType != ShowConnections)
      && (EvolvedQuestion in qs <==> intent.intentType != ShowEvolution)
      && (ExpectQuestion in qs <==> intent.intentType != ShowPredictions)
      && ((exists q | q in qs :: AboutVulnerability(q)) <==>
            article.vulnerabilities != [] && AsksGeneric(intent.intentType))
      && (article.vulnerabilities != [] && AsksGeneric(intent.intentType) ==>
            qs[|qs| - 1] == VulnerabilityQuestion(article.vulnerabilities[0]))
  {
    var qs := Take(FollowupCandidates(intent, article), 3);
    FollowupsCut(intent, article);
    QuestionsDistinct(intent.topic);
    if article.vulnerabilities != [] && AsksGeneric(intent.intentType) {
      assert AboutVulnerability(qs[|qs| - 1]);
    }
  }

  /** `_generate_followups`. */
  method GenerateFollowups(intent: ParsedIntent, article: Article) returns (followups: seq<string>)
    ensures followups == Take(FollowupCandidates(intent, article), 3)
  {
    followups := [];
    if intent.intentType != ShowConnections {
      followups := followups + [ConnectedQuestion(intent.topic)];
    }
    if intent.intentType != ShowEvolution {
      followups := followups + [EvolvedQuestion];
    }
    if intent.intentType != ShowPredictions {
      followups := followups + [ExpectQuestion];
    }
    if article.vulnerabilities != [] {
      followups := followups + [VulnerabilityQuestion(article.vulnerabilities[0])];
    }
    followups := Take(followups, 3);
  }

  /** The four kinds of question are told apart by their openings. */
  lemma QuestionsDistinct(topic: Option<string>)
    ensures !AboutVulnerability(ConnectedQuestion(topic))
    ensures !AboutVulnerability(EvolvedQuestion) && !AboutVulnerability(ExpectQuestion)
    ensures ConnectedQuestion(topic) != EvolvedQuestion && ConnectedQuestion(topic) != ExpectQuestion
    ensures EvolvedQuestion != ExpectQuestion
  {
    var c := ConnectedQuestion(topic);
    assert c[0] == 'W' && c[4] == '\'';
    assert EvolvedQuestion[0] == 'H' && ExpectQuestion[4] == ' ';
  }

  // ----- _build_timeline -----

  datatype EventType = Disclosure | Vulnerability | Exploit | Patch | Breach | Update | Advisory

  datatype TimelineEvent = TimelineEvent(
    eventId: string,
    articleId: string,
    title: string,
    eventType: EventType,
    timestamp: int,
    severity: string,
    description: Option<string>)

  datatype StoryTimeline = StoryTimeline(
    storyId: string,
    title: string,
    events: seq<TimelineEvent>,
    currentStatus: string,
    prediction: Option<PredictionModels.ThreatPrediction>,
    firstSeen: Option<int>,
    lastUpdated: Option<int>)

  /** The kind of event an article's lower-cased content reports, by
      precedence: disclosure, patch, exploit, breach, else an update. */
  function EventTypeOf(content: string): (t: EventType)
    ensures t == Disclosure <==> Contains(content, "disclosed") || Contains(content, "discovered")
    ensures t == Patch <==>
      !(Contains(content, "disclosed") || Contains(content, "discovered"))
      && (Contains(content, "patch") || Contains(content, "fix"))
    ensures t == Exploit <==>
      !(Contains(content, "disclosed") || Contains(content, "discovered"))
      && !(Contains(content, "patch") || Contains(content, "fix"))
      && (Contains(content, "exploit") || Contains(content, "attack"))
    ensures t == Breach <==>
      !(Contains(content, "disclosed") || Contains(content, "discovered"))
      && !(Contains(content, "patch") || Contains(content, "fix"))
      && !(Contains(content, "exploit") || Contains(content, "attack"))
      && Contains(content, "breach")
    ensures t == Update <==>
      !(Contains(content, "disclosed") || Contains(content, "discovered"))
      && !(Contains(content, "patch") || Contains(content, "fix"))
      && !(Contains(content, "exploit") || Contains(content, "attack"))
      && !Contains(content, "breach")
  {
    if Contains(content, "disclosed") || Contains(content, "discovered") then Disclosure
    else if Contains(content, "patch") || Contains(content, "fix") then Patch
    else if Contains(content, "exploit") || Contains(content, "attack") then Exploit
    else if Contains(content, "breach") then Breach
    else Update
  }

  /** The severity an article's lower-cased content suggests. */
  function SeverityOf(content: string): (s: string)
    ensures s == "critical" <==> Contains(content, "critical")
    ensures s == "high" <==> !Contains(content, "critical") && Contains(content, "high")
    ensures s in {"critical", "high", "medium"}
  {
    if Contains(content, "critical") then "critical"
    else if Contains(content, "high") then "high"
    else "medium"
  }

  /** The timeline event of one article; the title is cut to 100 characters. */
  function EventOf(a: Article): (e: TimelineEvent)
    ensures e.eventId == "evt-" + a.id && e.articleId == a.id && e.timestamp == a.publishedAt
    ensures e.title <= a.title && |e.title| == (if |a.title| <= 100 then |a.title| else 100)
    ensures e.eventType == EventTypeOf(Lower(a.content)) && e.severity == SeverityOf(Lower(a.content))
  {
    var content := Lower(a.content);
    TimelineEvent("evt-" + a.id, a.id, Take(a.title, 100), EventTypeOf(content), a.publishedAt,
                  SeverityOf(content), None)
  }

  function EventsOf(articles: seq<Article>): (events: seq<TimelineEvent>)
    ensures |events| == |articles|
    ensures forall i | 0 <= i < |articles| :: events[i] == EventOf(articles[i])
  {
    seq(|articles|, i requires 0 <= i < |articles| => EventOf(articles[i]))
  }

  /** Events in timestamp order. */
  predicate Sorted(events: seq<TimelineEvent>) {
    forall i, j | 0 <= i < j < |events| :: events[i].timestamp <= events[j].timestamp
  }

  /** The events with timestamp `t`, in order. */
  function AtTime(events: seq<TimelineEvent>, t: int): seq<TimelineEvent> {
    if events == [] then []
    else
      var e := events[|events| - 1];
      AtTime(events[..|events| - 1], t) + (if e.timestamp == t then [e] else [])
  }

  /** Inserting `e` into sorted events after every event not later than it. */
  function Insert(sorted: seq<TimelineEvent>, e: TimelineEvent): (r: seq<TimelineEvent>)
    ensures |r| == |sorted| + 1
    ensures forall x | x in r :: x in sorted || x == e
  {
    if sorted == [] then [e]
    else
      var last := sorted[|sorted| - 1];
      if last.timestamp <= e.timestamp then sorted + [e]
      else Insert(sorted[..|sorted| - 1], e) + [last]
  }

  /** `events.sort(key=timestamp)`, the stable library sort. */
  function SortByTime(events: seq<TimelineEvent>): (r: seq<TimelineEvent>)
    ensures |r| == |events|
  {
    if events == [] then []
    else Insert(SortByTime(events[..|events| - 1]), events[|events| - 1])
  }

  /** Inserting into sorted events keeps them sorted. */
  lemma {:induction false} InsertSorted(sorted: seq<TimelineEvent>, e: TimelineEvent)
    requires Sorted(sorted)
    ensures Sorted(Insert(sorted, e))
  {
    if sorted != [] {
      var last, init := sorted[|sorted| - 1], sorted[..|sorted| - 1];
      if last.timestamp > e.timestamp {
        InsertSorted(init, e);
        var ins := Insert(init, e);
        forall x | x in ins
          ensures x.timestamp <= last.timestamp
        {
        }
      }
    }
  }

  /** Inserting adds the one event and nothing else. */
  lemma {:induction false} InsertPermutes(sorted: seq<TimelineEvent>, e: TimelineEvent)
    ensures multiset(Insert(sorted, e)) == multiset(sorted) + multiset{e}
  {
    if sorted != [] {
      var last, init := sorted[|sorted| - 1], sorted[..|sorted| - 1];
      assert sorted == init + [last];
      if last.timestamp > e.timestamp {
        InsertPermutes(init, e);
      }
    }
  }

  /** Inserting puts the event after every event with its timestamp. */
  lemma {:induction false} InsertStable(sorted: seq<TimelineEvent>, e: TimelineEvent, t: int)
    requires Sorted(sorted)
    ensures AtTime(Insert(sorted, e), t) == AtTime(sorted, t) + (if e.timestamp == t then [e] else [])
  {
    if sorted == [] {
      assert [e][..0] == [];
    } else {
      var last, init := sorted[|sorted| - 1], sorted[..|sorted| - 1];
      if last.timestamp <= e.timestamp {
        assert (sorted + [e])[..|sorted|] == sorted;
      } else {
        InsertStable(init, e, t);
        var ins := Insert(init, e);
        assert (ins + [last])[..|ins|] == ins;
      }
    }
  }

  /** The library sort orders the events by timestamp, keeps every event
      exactly as often as given, and keeps events with equal timestamps in
      their given order. */
  lemma {:induction false} SortByTimeSpec(events: seq<TimelineEvent>)
    ensures Sorted(SortByTime(events))
    ensures multiset(SortByTime(events)) == multiset(events)
    ensures forall t :: AtTime(SortByTime(events), t) == AtTime(events, t)
  {
    if events != [] {
      var init, e := events[..|events| - 1], events[|events| - 1];
      assert events == init + [e];
      SortByTimeSpec(init);
      InsertSorted(SortByTime(init), e);
      InsertPermutes(SortByTime(init), e);
      forall t ensures AtTime(SortByTime(events), t) == AtTime(events, t) {
        InsertStable(SortByTime(init), e, t);
      }
    }
  }

  /** `_build_timeline`: the events of at most the first ten articles in
      timestamp order; `predictions` stands for what the prediction service
      returns for the primary article. */
  method BuildTimeline(primary: Article, related: seq<Article>,
                       predictions: seq<PredictionModels.ThreatPrediction>) returns (t: StoryTimeline)
    ensures t.events == SortByTime(EventsOf(Take(related, 10)))
    ensures t.storyId == "story-" + primary.id && t.title == primary.title && t.currentStatus == "active"
    ensures t.prediction == if predictions == [] then None else Some(predictions[0])
    ensures t.events == [] ==> t.firstSeen.None? && t.lastUpdated.None?
    ensures t.events != [] ==>
      t.firstSeen == Some(t.events[0].timestamp) && t.lastUpdated == Some(t.events[|t.events| - 1].timestamp)
  {
    var articles := Take(related, 10);
    var events := [];
    for i := 0 to |articles|
      invariant events == EventsOf(articles[..i])
    {
      events := events + [EventOf(articles[i])];
    }
    assert articles[..|articles|] == articles;
    events := SortByTime(events);
    var prediction := if predictions == [] then None else Some(predictions[0]);
    var firstSeen := if events == [] then None else Some(events[0].timestamp);
    var lastUpdated := if events == [] then None else Some(events[|events| - 1].timestamp);
    t := StoryTimeline("story-" + primary.id, primary.title, events, "active", prediction, firstSeen, lastUpdated);
  }

  /** A timeline holds one event per article among the first ten, in
      timestamp order with ties in article order; `first_seen` and
      `last_updated` bound every event's timestamp. */
  lemma TimelineSpec(related: seq<Article>)
    ensures var events := SortByTime(EventsOf(Take(related, 10)));
      && |events| == (if |related| < 10 then |related| else 10)
      && Sorted(events)
      && multiset(events) == multiset(EventsOf(Take(related, 10)))
      && (forall t :: AtTime(events, t) == AtTime(EventsOf(Take(related, 10)), t))
      && (forall e | e in events :: events[0].timestamp <= e.timestamp <= events[|events| - 1].timestamp)
  {
    var events := SortByTime(EventsOf(Take(related, 10)));
    SortByTimeSpec(EventsOf(Take(related, 10)));
    forall e | e in events
      ensures events[0].timestamp <= e.timestamp <= events[|events| - 1].timestamp
    {
    }
  }

  // ----- _build_system_prompt -----

  datatype UserPreferences = UserPreferences(
    role: string,
    industry: string,
    seniority: string,
    interests: seq<string>,
    summaryStyle: string,
    detailLevel: string)

  const BasePrompt := "You are a cybersecurity intelligence assistant."
  const NonTechnicalStyle :=
    "Use clear, jargon-free language. Focus on business impact and actionable takeaways. Avoid technical acronyms unless absolutely necessary, and explain them when used."
  const TechnicalStyle :=
    "Include technical details like CVEs, IOCs, attack vectors, and affected systems. Be precise with terminology. Security professionals will understand the implications."
  const ExecutiveStyle :=
    "Focus on business risk, strategic implications, and recommended actions. Quantify impact where possible. Be concise and decision-oriented."
  const BriefDetail := "Keep your response to 1-2 sentences. Hit the key points only."
  const DetailedDetail := "Provide a thorough 3-4 sentence analysis with context."
  const ComprehensiveDetail := "Give a complete analysis covering context, implications, and recommendations."

  /** The instructions for a summary style; an unknown style reads as "technical". */
  function StyleInstruction(style: string): (s: string)
    ensures style == "non-technical" ==> s == NonTechnicalStyle
    ensures style == "executive" ==> s == ExecutiveStyle
    ensures style != "non-technical" && style != "executive" ==> s == TechnicalStyle
  {
    if style == "non-technical" then NonTechnicalStyle
    else if style == "executive" then ExecutiveStyle
    else TechnicalStyle
  }

  /** The instructions for a detail level; an unknown level reads as "detailed". */
  function DetailInstruction(detail: string): (s: string)
    ensures detail == "brief" ==> s == BriefDetail
    ensures detail == "comprehensive" ==> s == ComprehensiveDetail
    ensures detail != "brief" && detail != "comprehensive" ==> s == DetailedDetail
  {
    if detail == "brief" then BriefDetail
    else if detail == "comprehensive" then ComprehensiveDetail
    else DetailedDetail
  }

  const DefaultGuidance :=
    " Provide a brief, professional summary of the security situation. Be concise (2-3 sentences). Focus on what security professionals need to know."

  /** Who the assistant speaks to, from the role, industry and seniority given. */
  function ContextParts(p: UserPreferences): seq<string> {
    (if p.role != "" && p.industry != "" then
       ["You are speaking to a " + p.role + " in the " + p.industry + " industry"]
     else if p.role != "" then ["You are speaking to a " + p.role]
     else if p.industry != "" then ["You are speaking to someone in the " + p.industry + " industry"]
     else [])
    + (if p.seniority != "" then ["at the " + p.seniority + " level"] else [])
  }

  /** The parts of the prompt before the style and detail instructions. */
  function LeadingParts(p: UserPreferences): seq<string> {
    var context := ContextParts(p);
    [BasePrompt]
      + (if context != [] then [Join(" ", context) + "."] else [])
      + (if p.interests != [] then
           ["They are particularly interested in: " + Join(", ", p.interests) + "."] else [])
  }

  /** The style instructions, an empty style reading as "technical". */
  function ChosenStyle(p: UserPreferences): string {
    StyleInstruction(if p.summaryStyle != "" then p.summaryStyle else "technical")
  }

  /** The detail instructions, an empty level reading as "detailed". */
  function ChosenDetail(p: UserPreferences): string {
    DetailInstruction(if p.detailLevel != "" then p.detailLevel else "detailed")
  }

  /** `_build_system_prompt`. */
  function SystemPrompt(prefs: Option<UserPreferences>): (prompt: string)
    ensures BasePrompt <= prompt
    ensures prefs.None? ==> prompt == BasePrompt + DefaultGuidance
  {
    if prefs.None? then
      BasePrompt + DefaultGuidance
    else
      var parts := LeadingParts(prefs.value) + [ChosenStyle(prefs.value), ChosenDetail(prefs.value)];
      JoinStartsWithFirst(" ", parts);
      Join(" ", parts)
  }

  /** An empty or unknown style or detail level gives the same prompt as the
      defaults "technical" and "detailed". */
  lemma SystemPromptFallbacks(p: UserPreferences, style: string, detail: string)
    requires style !in {"non-technical", "executive"} && detail !in {"brief", "comprehensive"}
    ensures SystemPrompt(Some(p.(summaryStyle := style, detailLevel := detail)))
         == SystemPrompt(Some(p.(summaryStyle := "technical", detailLevel := "detailed")))
  {
  }

  /** With preferences, the prompt ends with the style instructions and then
      the detail instructions. */
  lemma SystemPromptEnds(p: UserPreferences)
    ensures var tail := " " + ChosenStyle(p) + " " + ChosenDetail(p);
      var prompt := SystemPrompt(Some(p));
      |tail| <= |prompt| && prompt[|prompt| - |tail|..] == tail
  {
    var front, style, detail := LeadingParts(p), ChosenStyle(p), ChosenDetail(p);
    assert front + [style, detail] == (front + [style]) + [detail];
    JoinSnoc(" ", front, style);
    JoinSnoc(" ", front + [style], detail);
    assert SystemPrompt(Some(p)) == Join(" ", front + [style, detail]);
    EndsWith(Join(" ", front), " ", style, detail);
  }

  lemma EndsWith(head: string, sep: string, a: string, b: string)
    ensures var tail := sep + a + sep + b;
      |tail| <= |head + sep + a + sep + b| && (head + sep + a + sep + b)[|head + sep + a + sep + b| - |tail|..] == tail
  {
    var tail := sep + a + sep + b;
    assert head + sep + a + sep + b == head + tail;
  }
}
