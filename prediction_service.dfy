/** The deterministic helpers of the prediction service: the graph-driven
    confidence adjustment, the fallback prediction used when no language
    model answers, risk labels, the baseline risk curve, the completion of
    a 48-hour forecast grid and the threat-name extraction. Instants are
    seconds; `start` is the forecast's start instant. */
module PredictionServices {
  import opened Wrappers
  import opened Text
  import opened Articles
  import opened PredictionModels
  import GQ = GraphQueries

  function Min(a: real, b: real): (m: real)
    ensures m <= a && m <= b && (m == a || m == b)
  {
    if a <= b then a else b
  }

  function Max(a: real, b: real): (m: real)
    ensures m >= a && m >= b && (m == a || m == b)
  {
    if a >= b then a else b
  }

  // ----- _adjust_confidence_with_graph -----

  /** The context carries graph data: it is present and its article is in the graph. */
  predicate HasGraphData(ctx: Option<GQ.GraphContext>) {
    ctx.Some? && ctx.value.GraphData?
  }

  /** The number of threat actors with active campaigns. */
  function ActiveActors(history: seq<GQ.ActorContext>): (n: nat)
    ensures n <= |history|
  {
    if history == [] then 0
    else ActiveActors(history[..|history| - 1]) + (if history[|history| - 1].activeCampaigns then 1 else 0)
  }

  /** The number of trending CVEs. */
  function TrendingCves(cves: seq<GQ.CveContext>): (n: nat)
    ensures n <= |cves|
  {
    if cves == [] then 0
    else TrendingCves(cves[..|cves| - 1]) + (if cves[|cves| - 1].isTrending then 1 else 0)
  }

  /** Up to ten points for a dense neighbourhood. */
  function DensityBoost(density: real): (b: real)
    ensures b == 0.10 <==> density > 0.5
    ensures b == 0.05 <==> 0.2 < density <= 0.5
    ensures b == 0.0 <==> density <= 0.2
  {
    if density > 0.5 then 0.10 else if density > 0.2 then 0.05 else 0.0
  }

  /** Five points per active actor, at most fifteen. */
  function ActorBoost(active: nat): (b: real)
    ensures 0.0 <= b <= 0.15
    ensures b == 0.15 <==> active >= 3
  {
    Min(0.15, 0.05 * active as real)
  }

  /** Seven points per trending CVE, at most fourteen. */
  function CveBoost(trending: nat): (b: real)
    ensures 0.0 <= b <= 0.14
    ensures b == 0.14 <==> trending >= 2
  {
    Min(0.14, 0.07 * trending as real)
  }

  /** Story momentum: ten points beyond five related articles, five beyond two. */
  function MomentumBoost(related: nat): (b: real)
    ensures b == 0.10 <==> related > 5
    ensures b == 0.05 <==> 2 < related <= 5
    ensures b == 0.0 <==> related <= 2
  {
    if related > 5 then 0.10 else if related > 2 then 0.05 else 0.0
  }

  /** The adjusted confidence: the base plus every boost, capped at 0.95;
      the base itself when there is no graph data. */
  function AdjustedConfidence(base: real, ctx: Option<GQ.GraphContext>): (c: real)
    ensures !HasGraphData(ctx) ==> c == base
    ensures HasGraphData(ctx) ==> Min(base, 0.95) <= c <= 0.95
    ensures HasGraphData(ctx) ==> c <= base + 0.49
  {
    if !HasGraphData(ctx) then base
    else
      var g := ctx.value;
      Min(0.95, base + DensityBoost(g.connectionDensity)
                     + ActorBoost(ActiveActors(g.threatActorHistory))
                     + CveBoost(TrendingCves(g.cveSeverityContext))
                     + MomentumBoost(|g.relatedArticles|))
  }

  /** A higher base never yields a lower adjusted confidence. */
  lemma AdjustedConfidenceMonotone(b1: real, b2: real, ctx: Option<GQ.GraphContext>)
    requires b1 <= b2
    ensures AdjustedConfidence(b1, ctx) <= AdjustedConfidence(b2, ctx)
  {
  }

  /** `_adjust_confidence_with_graph`. */
  method AdjustConfidenceWithGraph(base: real, ctx: Option<GQ.GraphContext>) returns (c: real)
    ensures c == AdjustedConfidence(base, ctx)
  {
    if ctx.None? || ctx.value.NoGraphData? {
      return base;
    }
    var g := ctx.value;
    c := base;
    if g.connectionDensity > 0.5 {
      c := c + 0.10;
    } else if g.connectionDensity > 0.2 {
      c := c + 0.05;
    }
    var actorBoost := 0.0;
    for i := 0 to |g.threatActorHistory|
      invariant actorBoost == 0.05 * ActiveActors(g.threatActorHistory[..i]) as real
    {
      assert g.threatActorHistory[..i + 1][..i] == g.threatActorHistory[..i];
      if g.threatActorHistory[i].activeCampaigns {
        actorBoost := actorBoost + 0.05;
      }
    }
    assert g.threatActorHistory[..|g.threatActorHistory|] == g.threatActorHistory;
    c := c + Min(0.15, actorBoost);
    var cveBoost := 0.0;
    for i := 0 to |g.cveSeverityContext|
      invariant cveBoost == 0.07 * TrendingCves(g.cveSeverityContext[..i]) as real
    {
      assert g.cveSeverityContext[..i + 1][..i] == g.cveSeverityContext[..i];
      if g.cveSeverityContext[i].isTrending {
        cveBoost := cveBoost + 0.07;
      }
    }
    assert g.cveSeverityContext[..|g.cveSeverityContext|] == g.cveSeverityContext;
    c := c + Min(0.14, cveBoost);
    var related := |g.relatedArticles|;
    if related > 5 {
      c := c + 0.10;
    } else if related > 2 {
      c := c + 0.05;
    }
    c := Min(0.95, c);
  }

  // ----- _generate_fallback_prediction -----

  /** The confidence the content heuristics give before the graph adjustment. */
  function SeverityConfidence(a: Article): (c: real)
    ensures 0.5 <= c <= 1.0
  {
    var content, title := Lower(a.content), Lower(a.title);
    0.5
    + (if Contains(content, "critical") || Contains(title, "critical") then 0.15 else 0.0)
    + (if Contains(content, "actively exploited") then 0.2 else 0.0)
    + (if Contains(content, "poc") || Contains(content, "proof of concept") then 0.1 else 0.0)
    + (if a.vulnerabilities != [] then 0.05 else 0.0)
  }

  /** The timeframe of the fallback prediction: the last matching rule
      wins, so a proof of concept overrides active exploitation, which
      overrides criticality. */
  function FallbackTimeframe(a: Article): (days: int)
    ensures days in {3, 7, 10, 14}
    ensures days == 10 <==> Contains(Lower(a.content), "poc") || Contains(Lower(a.content), "proof of concept")
    ensures days == 3 <==>
      !(Contains(Lower(a.content), "poc") || Contains(Lower(a.content), "proof of concept"))
      && Contains(Lower(a.content), "actively exploited")
    ensures days == 7 <==>
      !(Contains(Lower(a.content), "poc") || Contains(Lower(a.content), "proof of concept"))
      && !Contains(Lower(a.content), "actively exploited")
      && (Contains(Lower(a.content), "critical") || Contains(Lower(a.title), "critical"))
  {
    var content, title := Lower(a.content), Lower(a.title);
    if Contains(content, "poc") || Contains(content, "proof of concept") then 10
    else if Contains(content, "actively exploited") then 3
    else if Contains(content, "critical") || Contains(title, "critical") then 7
    else 14
  }

  /** The confidence cap: higher when the graph supports the prediction. */
  function ConfidenceCap(ctx: Option<GQ.GraphContext>): real {
    if HasGraphData(ctx) then 0.92 else 0.85
  }

  /** The fallback confidence: the adjusted heuristic confidence under the cap. */
  function FallbackConfidence(a: Article, ctx: Option<GQ.GraphContext>): (c: real)
    ensures 0.5 <= c <= ConfidenceCap(ctx)
    ensures c <= 0.92 && (!HasGraphData(ctx) ==> c <= 0.85)
  {
    Min(ConfidenceCap(ctx), AdjustedConfidence(SeverityConfidence(a), ctx))
  }

  /** The first related CVEs or actors the graph lists, when it has data. */
  function GraphCves(ctx: Option<GQ.GraphContext>): seq<string> {
    if HasGraphData(ctx) then ctx.value.relatedCves else []
  }

  function GraphActors(ctx: Option<GQ.GraphContext>): seq<string> {
    if HasGraphData(ctx) then ctx.value.relatedThreatActors else []
  }

  /** `_get_exploit_description`: names the first CVE the graph relates
      to the article, else the article's first vulnerability. */
  function ExploitDescription(a: Article, ctx: Option<GQ.GraphContext>): (d: string)
    ensures GraphCves(ctx) != [] ==> Contains(d, GraphCves(ctx)[0])
    ensures GraphCves(ctx) == [] && a.vulnerabilities != [] ==> Contains(d, a.vulnerabilities[0])
  {
    var prefix := "active exploitation targeting ";
    if GraphCves(ctx) != [] then
      ContainsAt(prefix + GraphCves(ctx)[0], GraphCves(ctx)[0], |prefix|);
      prefix + GraphCves(ctx)[0]
    else if a.vulnerabilities != [] then
      ContainsAt(prefix + a.vulnerabilities[0], a.vulnerabilities[0], |prefix|);
      prefix + a.vulnerabilities[0]
    else "active exploitation attempts against this vulnerability"
  }

  /** `_get_spread_description`: names the first related threat actor, if any. */
  function SpreadDescription(ctx: Option<GQ.GraphContext>): (d: string)
    ensures GraphActors(ctx) != [] ==> Contains(d, GraphActors(ctx)[0])
  {
    if GraphActors(ctx) != [] then
      var prefix := "widespread targeting by ";
      var d := prefix + GraphActors(ctx)[0] + " across enterprise networks";
      assert d[|prefix|..|prefix| + |GraphActors(ctx)[0]|] == GraphActors(ctx)[0];
      ContainsAt(d, GraphActors(ctx)[0], |prefix|);
      d
    else "widespread targeting across multiple sectors"
  }

  /** `_get_patch_description`: names the article's first vulnerability, if any. */
  function PatchDescription(a: Article): (d: string)
    ensures a.vulnerabilities != [] ==> Contains(d, a.vulnerabilities[0])
  {
    if a.vulnerabilities != [] then
      var prefix := "vendor patch for ";
      var d := prefix + a.vulnerabilities[0] + " expected";
      assert d[|prefix|..|prefix| + |a.vulnerabilities[0]|] == a.vulnerabilities[0];
      ContainsAt(d, a.vulnerabilities[0], |prefix|);
      d
    else "vendor patches being released"
  }

  /** `_get_escalation_description`: with related threat actors the escalation is to ransomware. */
  function EscalationDescription(ctx: Option<GQ.GraphContext>): (d: string)
    ensures GraphActors(ctx) != [] ==> Contains(d, "ransomware")
    ensures GraphActors(ctx) == [] ==> d == "escalation to more sophisticated attacks"
  {
    if GraphActors(ctx) != [] then
      var d := "escalation to " + "ransomware" + " deployment or data exfiltration";
      assert d[14..24] == "ransomware";
      ContainsAt(d, "ransomware", 14);
      d
    else "escalation to more sophisticated attacks"
  }

  /** The description for the requested prediction type. */
  function FallbackDescription(t: PredictionType, a: Article, ctx: Option<GQ.GraphContext>): string {
    match t
    case ExploitLikelihood => ExploitDescription(a, ctx)
    case SpreadForecast => SpreadDescription(ctx)
    case PatchTimeline => PatchDescription(a)
    case AttackEscalation => EscalationDescription(ctx)
  }

  /** The fixed opening of the fallback reasoning, and the leads of its
      actor and CVE parts. */
  const ReasoningBase: string := "Based on severity indicators and historical patterns"
  const ActorsLead: string := "linked to threat actors: "
  const CvesLead: string := "connected to CVEs: "

  /** The actor part of the reasoning: its lead and the first two actors. */
  function ActorsPart(ctx: Option<GQ.GraphContext>): string {
    ActorsLead + Join(", ", Take(GraphActors(ctx), 2))
  }

  /** The CVE part of the reasoning: its lead and the first two CVEs. */
  function CvesPart(ctx: Option<GQ.GraphContext>): string {
    CvesLead + Join(", ", Take(GraphCves(ctx), 2))
  }

  /** The reasoning: the fixed sentence, followed, with graph data, by the
      actor part when the graph relates actors and the CVE part when it
      relates CVEs, each after "; ". */
  function FallbackReasoning(ctx: Option<GQ.GraphContext>): (r: string)
    ensures !HasGraphData(ctx) ==> r == ReasoningBase
    ensures HasGraphData(ctx) && GraphActors(ctx) == [] && GraphCves(ctx) == [] ==> r == ReasoningBase
    ensures HasGraphData(ctx) && GraphActors(ctx) != [] && GraphCves(ctx) == [] ==>
      r == ReasoningBase + "; " + ActorsPart(ctx)
    ensures HasGraphData(ctx) && GraphActors(ctx) == [] && GraphCves(ctx) != [] ==>
      r == ReasoningBase + "; " + CvesPart(ctx)
    ensures HasGraphData(ctx) && GraphActors(ctx) != [] && GraphCves(ctx) != [] ==>
      r == ReasoningBase + "; " + (ActorsPart(ctx) + "; " + CvesPart(ctx))
  {
    if !HasGraphData(ctx) then ReasoningBase
    else
      var actors := if GraphActors(ctx) != [] then [ActorsPart(ctx)] else [];
      var cves := if GraphCves(ctx) != [] then [CvesPart(ctx)] else [];
      var parts := [ReasoningBase] + actors + cves;
      JoinUpToThree("; ", parts);
      Join("; ", parts)
  }

  /** `_generate_fallback_prediction`; `predictionId` and `now` stand for the
      random id and the clock. The model rejects a description over 500 or
      reasoning over 1000 characters, which is the only way it fails. */
  method FallbackPrediction(a: Article, t: PredictionType, ctx: Option<GQ.GraphContext>,
                            predictionId: string, now: int) returns (r: Result<ThreatPrediction>)
    ensures r == NewThreatPrediction(predictionId, a.id, t, FallbackDescription(t, a, ctx),
                                     FallbackConfidence(a, ctx), FallbackTimeframe(a),
                                     FallbackReasoning(ctx), Take(a.categories, 3), now)
  {
    var content, title := Lower(a.content), Lower(a.title);
    var confidence := 0.5;
    var timeframe := 14;
    if Contains(content, "critical") || Contains(title, "critical") {
      confidence := confidence + 0.15;
      timeframe := 7;
    }
    if Contains(content, "actively exploited") {
      confidence := confidence + 0.2;
      timeframe := 3;
    }
    if Contains(content, "poc") || Contains(content, "proof of concept") {
      confidence := confidence + 0.1;
      timeframe := 10;
    }
    if a.vulnerabilities != [] {
      confidence := confidence + 0.05;
    }
    confidence := AdjustConfidenceWithGraph(confidence, ctx);
    var cap := if ctx.Some? && ctx.value.GraphData? then 0.92 else 0.85;
    confidence := Min(cap, confidence);
    r := NewThreatPrediction(predictionId, a.id, t, FallbackDescription(t, a, ctx), confidence,
                             timeframe, FallbackReasoning(ctx), Take(a.categories, 3), now);
  }

  /** The fallback prediction fails validation only on an over-long
      description or reasoning: its confidence and timeframe are always in
      range, and when it is built they are the heuristics' values. */
  lemma FallbackPredictionValid(a: Article, t: PredictionType, ctx: Option<GQ.GraphContext>,
                                predictionId: string, now: int)
    ensures var r := NewThreatPrediction(predictionId, a.id, t, FallbackDescription(t, a, ctx),
                                         FallbackConfidence(a, ctx), FallbackTimeframe(a),
                                         FallbackReasoning(ctx), Take(a.categories, 3), now);
      && (r.Ok? <==> |FallbackDescription(t, a, ctx)| <= 500 && |FallbackReasoning(ctx)| <= 1000)
      && (r.Ok? ==> 0.5 <= r.value.confidence <= ConfidenceCap(ctx) && r.value.timeframeDays in {3, 7, 10, 14})
      && (r.Ok? ==> |r.value.supportingEvidence| <= 3 && r.value.supportingEvidence <= a.categories)
  {
  }

  // ----- risk labels -----

  /** `_get_risk_label`. */
  function RiskLabel(risk: real): (l: string)
    ensures l == "CRITICAL" <==> risk >= 0.8
    ensures l == "HIGH" <==> 0.6 <= risk < 0.8
    ensures l == "MODERATE" <==> 0.4 <= risk < 0.6
    ensures l == "LOW" <==> 0.2 <= risk < 0.4
    ensures l == "SAFE" <==> risk < 0.2
  {
    if risk >= 0.8 then "CRITICAL"
    else if risk >= 0.6 then "HIGH"
    else if risk >= 0.4 then "MODERATE"
    else if risk >= 0.2 then "LOW"
    else "SAFE"
  }

  /** The position of a risk label on the scale, SAFE lowest. */
  function LabelRank(name: string): nat {
    if name == "CRITICAL" then 4
    else if name == "HIGH" then 3
    else if name == "MODERATE" then 2
    else if name == "LOW" then 1
    else 0
  }

  /** A higher risk never gets a lower label, and the label and the
      forecast entry's colour always name the same band. */
  lemma RiskLabelMonotone(r1: real, r2: real)
    requires r1 <= r2
    ensures LabelRank(RiskLabel(r1)) <= LabelRank(RiskLabel(r2))
    ensures RiskLabel(r1) == "CRITICAL" <==> RiskColor(r1) == "#ef4444"
    ensures RiskLabel(r1) == "SAFE" <==> RiskColor(r1) == "#3b82f6"
  {
  }

  // ----- _generate_baseline_entries -----

  /** The hour of the day of an instant, in seconds. */
  function HourOfDay(t: int): (h: int)
    ensures 0 <= h < 24
  {
    (t / 3600) % 24
  }

  /** The baseline risk at an hour offset: a business-hours bump (+0.1
      from 9 to 17 o'clock, -0.05 otherwise), a rise of up to 0.2 over the
      48 hours, and a clamp to [0.1, 0.9]. */
  function BaselineRisk(start: int, base: real, hour: nat): (risk: real)
    ensures 0.1 <= risk <= 0.9
  {
    var hod := HourOfDay(start + 3600 * hour);
    var risk := (if 9 <= hod <= 17 then base + 0.1 else base - 0.05) + (hour as real / 48.0) * 0.2;
    Min(0.9, Max(0.1, risk))
  }

  /** With the default base of 0.3 the clamp never bites: the curve stays
      within [0.25, 0.6] and rises with the hour at a fixed time of day. */
  lemma BaselineDefaultUnclamped(start: int, h1: nat, h2: nat)
    requires h1 <= h2 <= 48
    ensures 0.25 <= BaselineRisk(start, 0.3, h1) <= 0.6
    ensures (9 <= HourOfDay(start + 3600 * h1) <= 17) == (9 <= HourOfDay(start + 3600 * h2) <= 17)
      ==> BaselineRisk(start, 0.3, h1) <= BaselineRisk(start, 0.3, h2)
  {
  }

  /** One baseline entry. */
  function BaselineEntry(start: int, base: real, hour: nat): (e: HourlyForecastEntry)
    requires hour <= 48
    ensures ValidEntry(e) && e.hour == hour && e.riskLevel == BaselineRisk(start, base, hour)
    ensures e.riskLabel == RiskLabel(e.riskLevel)
    ensures e.eventDescription.None? && e.contributingFactors == []
  {
    var risk := BaselineRisk(start, base, hour);
    HourlyForecastEntry(hour, start + 3600 * hour, risk, RiskLabel(risk), None, [])
  }

  /** `_generate_baseline_entries`: 49 entries, one per hour offset 0..48. */
  method BaselineEntries(start: int, base: real) returns (entries: seq<HourlyForecastEntry>)
    ensures |entries| == 49
    ensures forall h | 0 <= h < 49 :: entries[h] == BaselineEntry(start, base, h)
  {
    entries := [];
    for hour := 0 to 49
      invariant |entries| == hour
      invariant forall h | 0 <= h < hour :: entries[h] == BaselineEntry(start, base, h)
    {
      var hod := HourOfDay(start + 3600 * hour);
      var risk;
      if 9 <= hod <= 17 {
        risk := base + 0.1;
      } else {
        risk := base - 0.05;
      }
      risk := risk + (hour as real / 48.0) * 0.2;
      risk := Min(0.9, Max(0.1, risk));
      entries := entries + [HourlyForecastEntry(hour, start + 3600 * hour, risk, RiskLabel(risk), None, [])];
    }
  }

  // ----- _ensure_48_entries -----

  /** `{e.hour: e for e in entries}`: the last entry of each hour wins. */
  function ByHour(entries: seq<HourlyForecastEntry>): (m: map<int, HourlyForecastEntry>)
    ensures forall h | h in m :: m[h].hour == h && m[h] in entries
    ensures forall e | e in entries :: e.hour in m
  {
    if entries == [] then map[]
    else
      var e := entries[|entries| - 1];
      ByHour(entries[..|entries| - 1])[e.hour := e]
  }

  /** The entry kept for an hour is the last one given for it. */
  lemma {:induction false} ByHourLastWins(entries: seq<HourlyForecastEntry>, i: nat)
    requires i < |entries|
    ensures (forall j | i < j < |entries| :: entries[j].hour != entries[i].hour)
      ==> ByHour(entries)[entries[i].hour] == entries[i]
  {
    if i < |entries| - 1 {
      ByHourLastWins(entries[..|entries| - 1], i);
    }
  }

  /** `max((h for h in keys if h < hour), default=0)`, for hours in [0, 48]. */
  function PrevHour(keys: set<int>, hour: int): (p: int)
    decreases hour
    ensures p == 0 || (p in keys && p < hour)
    ensures forall k | k in keys && 0 <= k < hour :: k <= p && p in keys
  {
    if hour <= 0 then 0
    else if hour - 1 in keys then hour - 1
    else PrevHour(keys, hour - 1)
  }

  /** `min((h for h in keys if h > hour), default=48)`, for hours in [0, 48]. */
  function NextHour(keys: set<int>, hour: int): (n: int)
    decreases 48 - hour
    ensures n == 48 || (n in keys && n > hour)
    ensures forall k | k in keys && hour < k <= 48 :: n <= k && n in keys
  {
    if hour >= 47 then 48
    else if hour + 1 in keys then hour + 1
    else NextHour(keys, hour + 1)
  }

  /** The risk given to a missing hour: linear interpolation between the
      nearest known hours, else the one known neighbour, else 0.3. */
  function InterpolatedRisk(existing: map<int, HourlyForecastEntry>, hour: int): real {
    var ph, nh := PrevHour(existing.Keys, hour), NextHour(existing.Keys, hour);
    if ph in existing && nh in existing && nh > ph then
      var p, n := existing[ph].riskLevel, existing[nh].riskLevel;
      p + ((hour - ph) as real / (nh - ph) as real) * (n - p)
    else if ph in existing then existing[ph].riskLevel
    else if nh in existing then existing[nh].riskLevel
    else 0.3
  }

  /** A point of a segment lies between its ends. */
  lemma Between(p: real, n: real, t: real)
    requires 0.0 <= t <= 1.0
    ensures Min(p, n) <= p + t * (n - p) <= Max(p, n)
  {
    var d := if p <= n then n - p else p - n;
    NonnegProduct(t, d);
    NonnegProduct(1.0 - t, d);
    assert t * d + (1.0 - t) * d == d;
  }

  lemma NonnegProduct(x: real, y: real)
    requires 0.0 <= x && 0.0 <= y
    ensures 0.0 <= x * y
  {
  }

  /** A part of a positive whole is a fraction in [0, 1]. */
  lemma FractionBounds(part: int, whole: int)
    requires 0 <= part <= whole && 0 < whole
    ensures 0.0 <= part as real / whole as real <= 1.0
  {
    var f := part as real / whole as real;
    assert f * whole as real == part as real;
  }

  /** An interpolated risk lies between the risks of the neighbours it was
      drawn from, so it is a valid risk level. */
  lemma InterpolatedRiskBounds(existing: map<int, HourlyForecastEntry>, hour: int)
    requires 0 <= hour <= 48 && hour !in existing
    requires forall h | h in existing :: ValidEntry(existing[h])
    ensures 0.0 <= InterpolatedRisk(existing, hour) <= 1.0
    ensures var ph, nh := PrevHour(existing.Keys, hour), NextHour(existing.Keys, hour);
      ph in existing && nh in existing ==>
        Min(existing[ph].riskLevel, existing[nh].riskLevel) <= InterpolatedRisk(existing, hour)
        <= Max(existing[ph].riskLevel, existing[nh].riskLevel)
  {
    var ph, nh := PrevHour(existing.Keys, hour), NextHour(existing.Keys, hour);
    var r := InterpolatedRisk(existing, hour);
    if ph in existing && nh in existing {
      var p, n := existing[ph].riskLevel, existing[nh].riskLevel;
      assert ph < hour < nh;
      var t := (hour - ph) as real / (nh - ph) as real;
      assert r == p + t * (n - p);
      FractionBounds(hour - ph, nh - ph);
      Between(p, n, t);
      assert ValidEntry(existing[ph]) && ValidEntry(existing[nh]);
    }
  }

  /** The entry the grid holds at an hour: the existing one, or a filled
      one with no event and no contributing factors. */
  function GridEntry(existing: map<int, HourlyForecastEntry>, start: int, hour: int): HourlyForecastEntry {
    if hour in existing then existing[hour]
    else
      var risk := InterpolatedRisk(existing, hour);
      HourlyForecastEntry(hour, start + 3600 * hour, risk, RiskLabel(risk), None, [])
  }

  /** Every grid entry sits at its own hour and is valid; the given hours
      keep their last given entry verbatim. */
  lemma GridEntrySpec(entries: seq<HourlyForecastEntry>, start: int, hour: int)
    requires forall e | e in entries :: ValidEntry(e)
    requires 0 <= hour <= 48
    ensures var e := GridEntry(ByHour(entries), start, hour);
      && e.hour == hour && ValidEntry(e)
      && (hour in ByHour(entries) ==> e in entries)
      && (hour !in ByHour(entries) ==>
            e.eventDescription.None? && e.contributingFactors == [] && e.riskLabel == RiskLabel(e.riskLevel)
            && (forall x | x in entries :: x.hour != hour))
  {
    var existing := ByHour(entries);
    if hour !in existing {
      InterpolatedRiskBounds(existing, hour);
    }
  }

  /** `_ensure_48_entries`: the baseline for no entries; otherwise 49
      entries, the given ones where an hour has one and interpolated ones
      elsewhere. */
  method Ensure48Entries(entries: seq<HourlyForecastEntry>, start: int) returns (result: seq<HourlyForecastEntry>)
    requires forall e | e in entries :: ValidEntry(e)
    ensures |result| == 49 && forall h | 0 <= h < 49 :: result[h].hour == h && ValidEntry(result[h])
    ensures entries == [] ==> result == seq(49, h requires 0 <= h < 49 => BaselineEntry(start, 0.3, h))
    ensures entries != [] ==> |result| == 49
    ensures entries != [] ==> forall h | 0 <= h < 49 :: result[h] == GridEntry(ByHour(entries), start, h)
  {
    if entries == [] {
      result := BaselineEntries(start, 0.3);
      return;
    }
    var existing := ByHour(entries);
    result := [];
    for hour := 0 to 49
      invariant |result| == hour
      invariant forall h | 0 <= h < hour :: result[h] == GridEntry(existing, start, h)
    {
      var e;
      if hour in existing {
        e := existing[hour];
      } else {
        e := FillHour(existing, start, hour);
      }
      result := result + [e];
    }
    forall h | 0 <= h < 49
      ensures result[h].hour == h && ValidEntry(result[h])
    {
      GridEntrySpec(entries, start, h);
    }
  }

  /** The entry `_ensure_48_entries` makes for an hour no entry was given for. */
  method FillHour(existing: map<int, HourlyForecastEntry>, start: int, hour: int) returns (e: HourlyForecastEntry)
    requires hour !in existing
    ensures e == GridEntry(existing, start, hour)
  {
    var prevHour := PrevHour(existing.Keys, hour);
    var nextHour := NextHour(existing.Keys, hour);
    var risk;
    if prevHour in existing && nextHour in existing && nextHour > prevHour {
      var ratio := (hour - prevHour) as real / (nextHour - prevHour) as real;
      risk := existing[prevHour].riskLevel + ratio * (existing[nextHour].riskLevel - existing[prevHour].riskLevel);
    } else if prevHour in existing {
      risk := existing[prevHour].riskLevel;
    } else if nextHour in existing {
      risk := existing[nextHour].riskLevel;
    } else {
      risk := 0.3;
    }
    e := HourlyForecastEntry(hour, start + 3600 * hour, risk, RiskLabel(risk), None, []);
  }

  // ----- _extract_threat_name -----

  /** The separators a title is cut at, in order. */
  const TitleSeparators: seq<string> := [":", " - ", " | "]

  /** The title after cutting at each of the first `n` separators in turn:
      the title itself when none of them occurs in it, otherwise a prefix
      free of them that ends where one of them occurs in the title. */
  function CutTitle(title: string, n: nat): (t: string)
    requires n <= |TitleSeparators|
    ensures t <= title
    ensures forall i | 0 <= i < n :: !Contains(t, TitleSeparators[i])
    ensures t == title <==> forall i | 0 <= i < n :: !Contains(title, TitleSeparators[i])
    ensures t != title ==> exists k | 0 <= k < n :: OccursAt(title, TitleSeparators[k], |t|)
  {
    if n == 0 then title
    else
      var prev := CutTitle(title, n - 1);
      var sep := TitleSeparators[n - 1];
      var t := SplitFirst(prev, sep);
      forall i | 0 <= i < n - 1
        ensures !Contains(t, TitleSeparators[i])
      {
        NotContainsPrefix(prev, |t|, TitleSeparators[i]);
      }
      if Contains(prev, sep) then
        CutEndsAtSeparator(title, prev, sep, |t|);
        t
      else if prev == title then t
      else
        var k :| 0 <= k < n - 1 && OccursAt(title, TitleSeparators[k], |prev|);
        ContainsAt(title, TitleSeparators[k], |prev|);
        t
  }

  /** A separator occurring in a prefix of the title occurs in the title at
      the same place, and the title contains it. */
  lemma CutEndsAtSeparator(title: string, prev: string, sep: string, at: nat)
    requires prev <= title && OccursAt(prev, sep, at)
    ensures OccursAt(title, sep, at) && Contains(title, sep)
  {
    assert title[at..at + |sep|] == prev[at..at + |sep|];
    ContainsAt(title, sep, at);
  }

  /** What is left of a title: cut at the separators, at most 40
      characters, stripped. */
  function TitleStem(title: string): string {
    Strip(Take(CutTitle(title, |TitleSeparators|), 40))
  }

  /** The stem of a title is a piece of it of at most 40 characters, free
      of the separators and of surrounding whitespace. */
  lemma TitleStemSpec(title: string)
    ensures var n := TitleStem(title);
      && |n| <= 40
      && Contains(title, n)
      && (forall i | 0 <= i < |TitleSeparators| :: !Contains(n, TitleSeparators[i]))
      && (n == [] || (!IsSpace(n[0]) && !IsSpace(n[|n| - 1])))
  {
    var cut := CutTitle(title, |TitleSeparators|);
    var taken := Take(cut, 40);
    var n := Strip(taken);
    assert |n| <= |taken| <= 40;
    assert title[..|taken|] == taken;
    PrefixContained(title, |taken|);
    ContainsTransitive(title, taken, n);
    forall i | 0 <= i < |TitleSeparators|
      ensures !Contains(n, TitleSeparators[i])
    {
      NotContainsPrefix(cut, |taken|, TitleSeparators[i]);
      if Contains(n, TitleSeparators[i]) {
        ContainsTransitive(taken, n, TitleSeparators[i]);
      }
    }
  }

  /** Only whitespace is taken off the title's first `m` characters to make
      its stem, where `m` is 40 or, when shorter, the length of the cut
      title; for a title without separators that is the title's own length. */
  lemma TitleStemTrimmed(title: string)
    ensures var cut := CutTitle(title, |TitleSeparators|);
      var m := if |cut| <= 40 then |cut| else 40;
      && m <= |title|
      && (exists i :: SpaceAround(title[..m], TitleStem(title), i))
      && ((forall i | 0 <= i < |TitleSeparators| :: !Contains(title, TitleSeparators[i]))
            ==> m == (if |title| <= 40 then |title| else 40))
  {
    var cut := CutTitle(title, |TitleSeparators|);
    var taken := Take(cut, 40);
    assert taken == title[..|taken|];
    var n := Strip(taken);
    assert n == TitleStem(title);
    var i :| SpaceAround(taken, n, i);
    assert SpaceAround(title[..|taken|], TitleStem(title), i);
  }

  /** The name of the threat an article is about: its first vulnerability,
      else its first threat actor, else the stem of its title. */
  function ThreatName(a: Article): string {
    if a.vulnerabilities != [] then a.vulnerabilities[0]
    else if a.threatActors != [] then a.threatActors[0]
    else TitleStem(a.title)
  }

  /** The separator loop of `_extract_threat_name`. */
  method CutAtSeparators(t: string) returns (title: string)
    ensures title == CutTitle(t, |TitleSeparators|)
  {
    title := t;
    for i := 0 to |TitleSeparators|
      invariant title == CutTitle(t, i)
    {
      var sep := TitleSeparators[i];
      ghost var next := SplitFirst(title, sep);
      assert next == CutTitle(t, i + 1);
      assert !Contains(title, sep) ==> next == title;
      if Contains(title, sep) {
        title := SplitFirst(title, sep);
      }
    }
  }

  /** `_extract_threat_name`. */
  method ExtractThreatName(a: Article) returns (name: string)
    ensures name == ThreatName(a)
  {
    if a.vulnerabilities != [] {
      return a.vulnerabilities[0];
    }
    if a.threatActors != [] {
      return a.threatActors[0];
    }
    var title := CutAtSeparators(a.title);
    name := Strip(Take(title, 40));
  }
}
