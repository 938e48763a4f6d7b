/** The prediction data models: threat predictions, historical pattern
    matches, the 48-hour forecast, their field bounds and the threshold
    classifiers computed from them. Scores, confidences and risk levels are
    `real`; instants (`generated_at`, `timestamp`, ...) are abstract seconds. */
module PredictionModels {
  import opened Wrappers
  import opened Text

  // ----- ThreatPrediction -----

  datatype PredictionType = ExploitLikelihood | SpreadForecast | PatchTimeline | AttackEscalation
  {
    function Value(): string {
      match this
      case ExploitLikelihood => "exploit_likelihood"
      case SpreadForecast => "spread_forecast"
      case PatchTimeline => "patch_timeline"
      case AttackEscalation => "attack_escalation"
    }
  }

  datatype ConfidenceLevel = VeryLow | Low | Moderate | High | VeryHigh
  {
    function Value(): string {
      match this
      case VeryHigh => "very_high"
      case High => "high"
      case Moderate => "moderate"
      case Low => "low"
      case VeryLow => "very_low"
    }

    /** The position of the level on the scale, VeryLow lowest. */
    function Rank(): nat {
      match this
      case VeryLow => 0
      case Low => 1
      case Moderate => 2
      case High => 3
      case VeryHigh => 4
    }
  }

  datatype ThreatPrediction = ThreatPrediction(
    predictionId: string,
    articleId: string,
    predictionType: PredictionType,
    description: string,
    confidence: real,
    timeframeDays: int,
    reasoning: string,
    supportingEvidence: seq<string>,
    generatedAt: int,
    expiresAt: Option<int>)

  /** The bounds the model validates: a description of at most 500
      characters, a confidence in [0, 1], a timeframe of 1 to 365 days and
      reasoning of at most 1000 characters. */
  predicate ValidPrediction(p: ThreatPrediction) {
    && |p.description| <= 500
    && 0.0 <= p.confidence <= 1.0
    && 1 <= p.timeframeDays <= 365
    && |p.reasoning| <= 1000
  }

  /** Constructing a prediction: the fields are validated in declaration
      order and the first violated bound is reported. */
  function NewThreatPrediction(
    predictionId: string, articleId: string, predictionType: PredictionType,
    description: string, confidence: real, timeframeDays: int,
    reasoning: string, supportingEvidence: seq<string>, generatedAt: int): (r: Result<ThreatPrediction>)
    ensures r.Ok? <==>
      (|description| <= 500 && 0.0 <= confidence <= 1.0 && 1 <= timeframeDays <= 365 && |reasoning| <= 1000)
    ensures r.Ok? ==> ValidPrediction(r.value) && r.value.expiresAt.None?
    ensures r.Ok? ==> r.value.description == description && r.value.confidence == confidence
    ensures r.Ok? ==> r.value.timeframeDays == timeframeDays && r.value.reasoning == reasoning
  {
    if |description| > 500 then Err("description: at most 500 characters")
    else if !(0.0 <= confidence <= 1.0) then Err("confidence: must lie in [0, 1]")
    else if !(1 <= timeframeDays <= 365) then Err("timeframe_days: must lie in [1, 365]")
    else if |reasoning| > 1000 then Err("reasoning: at most 1000 characters")
    else Ok(ThreatPrediction(predictionId, articleId, predictionType, description, confidence,
                             timeframeDays, reasoning, supportingEvidence, generatedAt, None))
  }

  /** Python's `int(x)`: truncation toward zero. */
  function Truncate(x: real): (n: int)
    ensures x >= 0.0 ==> n >= 0 && n as real <= x < n as real + 1.0
    ensures x < 0.0 ==> n <= 0 && n as real - 1.0 < x <= n as real
  {
    if x >= 0.0 then x.Floor else -((-x).Floor)
  }

  /** `confidence_percentage`: the confidence in whole percent, rounded down. */
  function ConfidencePercentage(confidence: real): (pct: int)
    ensures 0.0 <= confidence <= 1.0 ==> 0 <= pct <= 100
    ensures 0.0 <= confidence ==> pct as real <= confidence * 100.0 < pct as real + 1.0
  {
    Truncate(confidence * 100.0)
  }

  /** `confidence_level`: the tier whose interval holds the confidence. */
  function ConfidenceLevelOf(confidence: real): (l: ConfidenceLevel)
    ensures l == VeryHigh <==> confidence >= 0.85
    ensures l == High <==> 0.70 <= confidence < 0.85
    ensures l == Moderate <==> 0.50 <= confidence < 0.70
    ensures l == Low <==> 0.25 <= confidence < 0.50
    ensures l == VeryLow <==> confidence < 0.25
  {
    if confidence >= 0.85 then VeryHigh
    else if confidence >= 0.70 then High
    else if confidence >= 0.50 then Moderate
    else if confidence >= 0.25 then Low
    else VeryLow
  }

  /** A higher confidence never gets a lower tier. */
  lemma ConfidenceLevelMonotone(c1: real, c2: real)
    requires c1 <= c2
    ensures ConfidenceLevelOf(c1).Rank() <= ConfidenceLevelOf(c2).Rank()
  {
  }

  /** `to_display_string`. */
  function DisplayString(p: ThreatPrediction): (s: string)
    requires ValidPrediction(p)
    ensures Contains(s, p.description)
  {
    var head := NatToString(ConfidencePercentage(p.confidence)) + "% probability of ";
    var s := head + p.description + " within " + NatToString(p.timeframeDays) + " days";
    assert s[|head|..|head| + |p.description|] == p.description;
    ContainsAt(s, p.description, |head|);
    s
  }

  // ----- to_demo_card -----

  /** The urgency tier of a demo card. */
  datatype Urgency = UrgencyLow | UrgencyModerate | UrgencyHigh | UrgencyCritical
  {
    function Value(): string {
      match this
      case UrgencyCritical => "CRITICAL"
      case UrgencyHigh => "HIGH"
      case UrgencyModerate => "MODERATE"
      case UrgencyLow => "LOW"
    }
  }

  /** The urgency of a demo card: the first rule whose timeframe and
      confidence bounds both hold. */
  function DemoUrgency(timeframeDays: int, confidence: real): (u: Urgency)
    ensures u == UrgencyCritical <==> timeframeDays <= 5 && confidence >= 0.75
    ensures u == UrgencyHigh <==>
      !(timeframeDays <= 5 && confidence >= 0.75) && timeframeDays <= 10 && confidence >= 0.65
    ensures u == UrgencyModerate <==>
      !(timeframeDays <= 5 && confidence >= 0.75) && !(timeframeDays <= 10 && confidence >= 0.65)
      && timeframeDays <= 14 && confidence >= 0.50
    ensures u == UrgencyLow <==>
      !(timeframeDays <= 10 && confidence >= 0.65) && !(timeframeDays <= 14 && confidence >= 0.50)
  {
    if timeframeDays <= 5 && confidence >= 0.75 then UrgencyCritical
    else if timeframeDays <= 10 && confidence >= 0.65 then UrgencyHigh
    else if timeframeDays <= 14 && confidence >= 0.50 then UrgencyModerate
    else UrgencyLow
  }

  /** The bracket of a timeframe: 0 for one day, then up to 3, 7, 14, 30
      days, and 5 beyond a month. */
  function TimeframeBracket(days: int): (b: nat)
    ensures b <= 5
  {
    if days == 1 then 0
    else if days <= 3 then 1
    else if days <= 7 then 2
    else if days <= 14 then 3
    else if days <= 30 then 4
    else 5
  }

  /** The brackets whose text spells out the number of days. */
  predicate Numbered(b: nat) {
    b == 1 || b == 5
  }

  /** The human-readable timeframe of a demo card. */
  function TimeframeDisplay(days: nat): string {
    match TimeframeBracket(days)
    case 0 => "Expected within 24 hours"
    case 2 => "Expected this week"
    case 3 => "Expected within 2 weeks"
    case 4 => "Expected this month"
    case _ => "Expected within " + NatToString(days) + " days"
  }

  /** The timeframe text is a function of the bracket alone, except in the
      two brackets that print the number of days; and two timeframes get the
      same text exactly when they share the bracket (and, in those two, the
      number). */
  lemma TimeframeDisplayDetermined(d1: nat, d2: nat)
    requires d1 >= 1 && d2 >= 1
    ensures TimeframeDisplay(d1) == TimeframeDisplay(d2) <==>
      TimeframeBracket(d1) == TimeframeBracket(d2) && (Numbered(TimeframeBracket(d1)) ==> d1 == d2)
  {
    var b1, b2 := TimeframeBracket(d1), TimeframeBracket(d2);
    if Numbered(b1) && Numbered(b2) {
      NumberedTextInjective(d1, d2);
    } else if Numbered(b1) {
      NumberedTextIsNotFixed(d1, b2);
    } else if Numbered(b2) {
      NumberedTextIsNotFixed(d2, b1);
    } else {
      assert TimeframeDisplay(d1) == FixedText(b1) && TimeframeDisplay(d2) == FixedText(b2);
    }
  }

  /** "Expected within N days" determines N. */
  lemma NumberedTextInjective(d1: nat, d2: nat)
    ensures "Expected within " + NatToString(d1) + " days" == "Expected within " + NatToString(d2) + " days"
      ==> d1 == d2
  {
    var s1, s2 := NatToString(d1), NatToString(d2);
    var t1, t2 := "Expected within " + s1 + " days", "Expected within " + s2 + " days";
    if t1 == t2 {
      assert t1[16..16 + |s1|] == s1;
      assert t2[16..16 + |s2|] == s2;
      NatToStringInjective(d1, d2);
    }
  }

  /** The four fixed texts, by bracket; no two have the same length. */
  function FixedText(b: nat): (t: string)
    ensures |t| == match b case 0 => 24 case 2 => 18 case 3 => 23 case _ => 19
  {
    match b
    case 0 => "Expected within 24 hours"
    case 2 => "Expected this week"
    case 3 => "Expected within 2 weeks"
    case _ => "Expected this month"
  }

  /** No number of days is spelt like one of the fixed texts. */
  lemma NumberedTextIsNotFixed(d: nat, b: nat)
    requires b in {0, 2, 3, 4}
    ensures "Expected within " + NatToString(d) + " days" != FixedText(b)
  {
    var s := NatToString(d);
    var t := "Expected within " + s + " days";
    assert t[9] == 'w';
    assert t[|t| - 1] == 's' && t[|t| - 2] == 'y';
    if b == 0 {
      assert "Expected within 24 hours"[|"Expected within 24 hours"| - 2] == 'r';
    } else if b == 3 {
      assert "Expected within 2 weeks"[|"Expected within 2 weeks"| - 2] == 'k';
    } else {
      assert FixedText(b)[9] == 't';
    }
  }

  datatype DemoCard = DemoCard(
    headline: string,
    timeframe: string,
    urgency: string,
    reasoning: string,
    evidence: seq<string>,
    confidenceLevel: string,
    predictionType: string,
    rawConfidence: real,
    rawTimeframeDays: int)

  /** `to_demo_card`. */
  function ToDemoCard(p: ThreatPrediction): (card: DemoCard)
    requires ValidPrediction(p)
    ensures card.urgency == DemoUrgency(p.timeframeDays, p.confidence).Value()
    ensures card.timeframe == TimeframeDisplay(p.timeframeDays)
    ensures card.confidenceLevel == ConfidenceLevelOf(p.confidence).Value()
    ensures card.predictionType == p.predictionType.Value()
    ensures card.urgency == "CRITICAL" ==> card.confidenceLevel in {"high", "very_high"}
    ensures card.urgency in {"CRITICAL", "HIGH"} ==> card.timeframe != "Expected this month"
    ensures card.reasoning == p.reasoning && card.evidence == p.supportingEvidence
    ensures card.rawConfidence == p.confidence && card.rawTimeframeDays == p.timeframeDays
  {
    var pct := ConfidencePercentage(p.confidence);
    DemoCard(
      NatToString(pct) + "% - " + Capitalize(p.description),
      TimeframeDisplay(p.timeframeDays),
      DemoUrgency(p.timeframeDays, p.confidence).Value(),
      p.reasoning,
      p.supportingEvidence,
      ConfidenceLevelOf(p.confidence).Value(),
      p.predictionType.Value(),
      p.confidence,
      p.timeframeDays)
  }

  // ----- DNAMatch and ThreatDNA -----

  datatype DNAMatch = DNAMatch(
    matchId: string,
    historicalArticleId: string,
    historicalTitle: string,
    historicalDate: int,
    similarityScore: real,
    matchingAttributes: seq<string>,
    sharedThreatActors: seq<string>,
    sharedVulnerabilities: seq<string>,
    sharedTechniques: seq<string>,
    historicalOutcome: string,
    lessonsLearned: seq<string>)

  /** `match_strength`. */
  function MatchStrength(score: real): (s: string)
    ensures s == "STRONG" <==> score >= 0.85
    ensures s == "MODERATE" <==> 0.70 <= score < 0.85
    ensures s == "WEAK" <==> 0.50 <= score < 0.70
    ensures s == "PARTIAL" <==> score < 0.50
  {
    if score >= 0.85 then "STRONG"
    else if score >= 0.70 then "MODERATE"
    else if score >= 0.50 then "WEAK"
    else "PARTIAL"
  }

  /** `top_match_score`: 0.0 without matches, else the largest similarity. */
  function TopMatchScore(matches: seq<DNAMatch>): (top: real)
    ensures matches == [] ==> top == 0.0
    ensures matches != [] ==> exists i | 0 <= i < |matches| :: top == matches[i].similarityScore
    ensures forall i | 0 <= i < |matches| :: matches[i].similarityScore <= top
  {
    if |matches| == 0 then 0.0
    else if |matches| == 1 then matches[0].similarityScore
    else
      var rest := TopMatchScore(matches[..|matches| - 1]);
      var last := matches[|matches| - 1].similarityScore;
      if last > rest then last else rest
  }

  /** `has_strong_precedent`: some match scores at least 0.75. */
  function HasStrongPrecedent(matches: seq<DNAMatch>): (b: bool)
    ensures b <==> exists i | 0 <= i < |matches| :: matches[i].similarityScore >= 0.75
  {
    if matches == [] then false
    else matches[|matches| - 1].similarityScore >= 0.75 || HasStrongPrecedent(matches[..|matches| - 1])
  }

  /** A strong precedent exists exactly when the top score reaches 0.75;
      a STRONG top match is always one. */
  lemma StrongPrecedentIffTopScore(matches: seq<DNAMatch>)
    ensures HasStrongPrecedent(matches) <==> TopMatchScore(matches) >= 0.75
    ensures MatchStrength(TopMatchScore(matches)) == "STRONG" ==> HasStrongPrecedent(matches)
  {
    if TopMatchScore(matches) >= 0.75 {
      var i :| 0 <= i < |matches| && TopMatchScore(matches) == matches[i].similarityScore;
    }
  }

  // ----- the 48-hour forecast -----

  datatype HourlyForecastEntry = HourlyForecastEntry(
    hour: int,
    timestamp: int,
    riskLevel: real,
    riskLabel: string,
    eventDescription: Option<string>,
    contributingFactors: seq<string>)

  /** The bounds the model validates: an hour offset in [0, 48] and a risk
      level in [0, 1]. */
  predicate ValidEntry(e: HourlyForecastEntry) {
    0 <= e.hour <= 48 && 0.0 <= e.riskLevel <= 1.0
  }

  /** `risk_color`: red, orange, yellow, green or blue by risk band. */
  function RiskColor(risk: real): (color: string)
    ensures color == "#ef4444" <==> risk >= 0.8
    ensures color == "#f97316" <==> 0.6 <= risk < 0.8
    ensures color == "#eab308" <==> 0.4 <= risk < 0.6
    ensures color == "#22c55e" <==> 0.2 <= risk < 0.4
    ensures color == "#3b82f6" <==> risk < 0.2
  {
    if risk >= 0.8 then "#ef4444"
    else if risk >= 0.6 then "#f97316"
    else if risk >= 0.4 then "#eab308"
    else if risk >= 0.2 then "#22c55e"
    else "#3b82f6"
  }

  datatype ThreatForecast = ThreatForecast(
    forecastId: string,
    articleId: string,
    threatName: string,
    entries: seq<HourlyForecastEntry>,
    peakRiskHour: int,
    peakRiskLevel: real,
    summary: string,
    keyMilestones: seq<string>,
    recommendedActions: seq<string>,
    generatedAt: int,
    confidence: real)

  /** `urgency_level`: a high peak counts more the sooner it comes. */
  function UrgencyLevel(f: ThreatForecast): (u: string)
    ensures u == "CRITICAL" <==> f.peakRiskLevel >= 0.8 && f.peakRiskHour <= 12
    ensures u == "HIGH" <==>
      !(f.peakRiskLevel >= 0.8 && f.peakRiskHour <= 12) && f.peakRiskLevel >= 0.6 && f.peakRiskHour <= 24
    ensures u == "MODERATE" <==>
      !(f.peakRiskLevel >= 0.6 && f.peakRiskHour <= 24) && f.peakRiskLevel >= 0.4
    ensures u == "LOW" <==> f.peakRiskLevel < 0.4
  {
    if f.peakRiskLevel >= 0.8 && f.peakRiskHour <= 12 then "CRITICAL"
    else if f.peakRiskLevel >= 0.6 && f.peakRiskHour <= 24 then "HIGH"
    else if f.peakRiskLevel >= 0.4 then "MODERATE"
    else "LOW"
  }
}
