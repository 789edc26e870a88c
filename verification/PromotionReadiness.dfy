/** Promotion readiness of a finished experiment: evaluate_promotion_readiness in graph/planner_policy_experiment.py. */
module PromotionReadiness {
  import opened Numerics
  import opened Prelude
  import opened ExperimentMetrics
  import opened WinnerSelection
  import opened ExperimentEvaluation

  datatype Consistency = Supportive | Neutral | Mixed | Contradictory
  datatype Stability = Stable | Improving | TooFewRecords | Degrading
  datatype Status = BlockedByGuardrail | NeedsMoreData | Unstable | InconclusiveStatus | NoWinner | Ready

  /** The reason codes of a report, without their common prefix "promotion_". */
  datatype Reason =
    | ConfidenceInsufficient
    | ExperimentInconclusive
    | GuardrailViolation
    | MdeTooLarge
    | NoWinnerFound
    | PolicyRiskHigh
    | PromotionReady
    | SampleInsufficient
    | SecondaryMetricsContradictory
    | SecondaryMetricsMixed
    | TemporalInstability

  /** One secondary metric with both readings available, its direction and its effect threshold. */
  datatype SecondaryMetric = SecondaryMetric(control: Option<real>, winner: Option<real>, direction: Direction, threshold: real)

  /** Effects of the winner over the control in the early and the recent half of the records. */
  datatype Windows = NoRecords | Windows(control: nat, winner: nat, effects: Option<(real, real)>)

  /** What the winner's entry under comparison.comparisons says; an absent key reads like zero or false. */
  datatype Finding = Finding(
    improvement: Option<real>,
    minimumEffect: Option<real>,
    unsafe: bool,
    significant: bool,
    adjustedSignificant: bool,
    practical: bool,
    sampleSize: int)

  /** What its entry under statistical_summary.comparisons says. */
  datatype Statistics = Statistics(
    delta: Option<real>,
    minimumEffect: Option<real>,
    confidence: Option<real>,
    required: Option<real>,
    detectable: Option<real>,
    adjustedLower: Option<real>)

  const NOTHING_FOUND := Finding(None, None, false, false, false, false, 0)
  const NO_STATISTICS := Statistics(None, None, None, None, None, None)

  /** metricEffect is the table's threshold for the primary metric, which the temporal check uses. */
  datatype Request = Request(
    result: string,
    winner: Option<string>,
    comparisons: map<string, Finding>,
    statistics: map<string, Statistics>,
    metricEffect: real,
    minimumSampleSize: int,
    fallbackSample: int,
    summaryConfidence: Option<real>,
    secondary: seq<SecondaryMetric>,
    windows: Windows,
    minimumPerWindow: nat,
    baselineCurrent: bool,
    riskLevel: string,
    criticalSafety: bool,
    winnerConfidence: real,
    threshold: int)

  datatype Checks = Checks(
    winnerPresent: bool,
    sampleSufficient: bool,
    statisticalSignificance: bool,
    practicalSignificance: bool,
    guardrailsClear: bool,
    secondaryConsistent: bool,
    temporalOk: bool,
    baselineCurrent: bool)
  {
    predicate AllHold() {
      && winnerPresent && sampleSufficient && statisticalSignificance && practicalSignificance
      && guardrailsClear && secondaryConsistent && temporalOk && baselineCurrent
    }
  }

  datatype Report = Report(status: Status, score: int, checks: Checks, reasons: seq<Reason>)

  // ---------------------------------------------------------------- secondary metrics and stability

  function Classify(m: SecondaryMetric): Option<Consistency> {
    if m.control.None? || m.winner.None? then None
    else
      var improvement := Improvement(m.direction, m.control.value, m.winner.value);
      if improvement >= m.threshold then Some(Supportive)
      else if improvement <= -m.threshold then Some(Contradictory)
      else if improvement < 0.0 then Some(Mixed)
      else Some(Neutral)
  }

  predicate Occurs(metrics: seq<SecondaryMetric>, c: Consistency) {
    exists i :: 0 <= i < |metrics| && Classify(metrics[i]) == Some(c)
  }

  function Overall(metrics: seq<SecondaryMetric>): Consistency {
    if Occurs(metrics, Contradictory) then Contradictory
    else if Occurs(metrics, Mixed) then Mixed
    else if Occurs(metrics, Supportive) then Supportive
    else Neutral
  }

  /** The source counts each class in one pass; the worst class present decides. */
  method SecondaryConsistency(metrics: seq<SecondaryMetric>) returns (overall: Consistency)
    ensures overall == Overall(metrics)
  {
    var supportive, mixed, contradictory := 0, 0, 0;
    var i := 0;
    while i < |metrics|
      invariant 0 <= i <= |metrics|
      invariant supportive >= 0 && mixed >= 0 && contradictory >= 0
      invariant supportive > 0 <==> Occurs(metrics[..i], Supportive)
      invariant mixed > 0 <==> Occurs(metrics[..i], Mixed)
      invariant contradictory > 0 <==> Occurs(metrics[..i], Contradictory)
    {
      var found := Classify(metrics[i]);
      OccursExtended(metrics, i, Supportive);
      OccursExtended(metrics, i, Mixed);
      OccursExtended(metrics, i, Contradictory);
      if found == Some(Supportive) {
        supportive := supportive + 1;
      } else if found == Some(Contradictory) {
        contradictory := contradictory + 1;
      } else if found == Some(Mixed) {
        mixed := mixed + 1;
      }
      i := i + 1;
    }
    assert metrics[..|metrics|] == metrics;
    overall := if contradictory > 0 then Contradictory else if mixed > 0 then Mixed else if supportive > 0 then Supportive else Neutral;
  }

  lemma OccursExtended(metrics: seq<SecondaryMetric>, i: nat, c: Consistency)
    requires i < |metrics|
    ensures Occurs(metrics[..i + 1], c) <==> Occurs(metrics[..i], c) || Classify(metrics[i]) == Some(c)
  {
    if Occurs(metrics[..i], c) {
      var j :| 0 <= j < i && Classify(metrics[..i][j]) == Some(c);
      assert metrics[..i + 1][j] == metrics[..i][j];
    }
    if Classify(metrics[i]) == Some(c) {
      assert metrics[..i + 1][i] == metrics[i];
    }
  }

  function TemporalStability(w: Windows, minimumPerWindow: nat, threshold: real): Stability {
    if w.NoRecords? then TooFewRecords
    else if w.control < minimumPerWindow * 2 || w.winner < minimumPerWindow * 2 || w.effects.None? then TooFewRecords
    else
      var (early, recent) := w.effects.value;
      if recent <= -threshold then Degrading
      else if recent >= threshold && early >= threshold then (if recent > early then Improving else Stable)
      else if recent >= 0.0 then Stable
      else Degrading
  }

  // ---------------------------------------------------------------- the request read

  /** Python's `a or b` on numbers that may be missing. */
  function NonZero(x: Option<real>, default: real): real {
    if x.Some? && x.value != 0.0 then x.value else default
  }

  function Found(q: Request): Finding {
    if q.winner.Some? && q.winner.value in q.comparisons then q.comparisons[q.winner.value] else NOTHING_FOUND
  }

  function Stats(q: Request): Statistics {
    if q.winner.Some? && q.winner.value in q.statistics then q.statistics[q.winner.value] else NO_STATISTICS
  }

  function SampleSize(q: Request): int {
    if Found(q).sampleSize != 0 then Found(q).sampleSize else q.fallbackSample
  }

  function Confidence(q: Request): real {
    NonZero(q.summaryConfidence, NonZero(Stats(q).confidence, 0.0))
  }

  function Effect(q: Request): real {
    Abs(NonZero(Stats(q).delta, NonZero(Found(q).improvement, 0.0)))
  }

  function MinimumEffect(q: Request): real {
    NonZero(Stats(q).minimumEffect, NonZero(Found(q).minimumEffect, 0.03))
  }

  /** The effect is too small to have been detected at this sample. */
  predicate Undetectable(q: Request) {
    Stats(q).detectable.Some? && Effect(q) < Stats(q).detectable.value
  }

  predicate LowConfidence(q: Request) {
    Confidence(q) < q.winnerConfidence
  }

  function ChecksOf(q: Request): Checks {
    var required := Stats(q).required;
    Checks(
      true,
      SampleSize(q) >= q.minimumSampleSize && (required.None? || SampleSize(q) as real >= required.value),
      Found(q).significant && Found(q).adjustedSignificant,
      Found(q).practical,
      !Found(q).unsafe,
      Overall(q.secondary) != Contradictory,
      TemporalStability(q.windows, q.minimumPerWindow, q.metricEffect) != Degrading,
      q.baselineCurrent)
  }

  // ---------------------------------------------------------------- score

  function Dimensions(q: Request): seq<int> {
    var checks := ChecksOf(q);
    var minimum := MaxReal(MinimumEffect(q), 0.000000001);
    var lower := Stats(q).adjustedLower.GetOr(0.0);
    var base := if checks.statisticalSignificance then 70.0 + MinReal(30.0, Confidence(q) * 30.0) else 35.0;
    var strength := if checks.statisticalSignificance && lower > 0.0
      then MinReal(100.0, base + MinReal(10.0, lower / minimum * 5.0)) else base;
    var required := Stats(q).required;
    var sample := if required.Some? && required.value > 0.0
      then MinReal(100.0, MaxReal(20.0, SampleSize(q) as real / required.value * 80.0))
      else if checks.sampleSufficient then 55.0 else 35.0;
    [ RoundHalfEven(strength),
      RoundHalfEven(sample),
      RoundHalfEven(MinReal(100.0, Effect(q) / minimum * 35.0)),
      if !checks.guardrailsClear || q.criticalSafety then 0 else 100,
      match Overall(q.secondary) case Supportive => 95 case Neutral => 85 case Mixed => 60 case Contradictory => 20,
      match TemporalStability(q.windows, q.minimumPerWindow, q.metricEffect)
        case Stable => 95 case Improving => 100 case TooFewRecords => 70 case Degrading => 20,
      if q.riskLevel == "low" then 100 else if q.riskLevel == "medium" then 85 else if q.riskLevel == "high" then 65
      else if q.riskLevel == "critical" then 35 else 80 ]
  }

  function ClampScore(x: int): int {
    if x < 0 then 0 else if x > 100 then 100 else x
  }

  function SumClamped(s: seq<int>): (r: int)
    ensures 0 <= r <= 100 * |s|
  {
    if s == [] then 0 else ClampScore(s[0]) + SumClamped(s[1..])
  }

  function ScoreAverage(s: seq<int>): int {
    if s == [] then 0 else RoundHalfEven(SumClamped(s) as real / |s| as real)
  }

  lemma ScoreRange(s: seq<int>)
    ensures 0 <= ScoreAverage(s) <= 100
  {
    if s != [] {
      QuotientOrder(0.0, SumClamped(s) as real, |s| as real);
      QuotientOrder(SumClamped(s) as real, 100.0 * |s| as real, |s| as real);
      DivideUnique(100.0 * |s| as real, |s| as real, 100.0);
      RoundMonotone(0.0, SumClamped(s) as real / |s| as real);
      RoundMonotone(SumClamped(s) as real / |s| as real, 100.0);
    }
  }

  // ---------------------------------------------------------------- the decision

  /** Everything status and reason codes depend on. */
  datatype Facts = Facts(
    checks: Checks,
    undetectable: bool,
    lowConfidence: bool,
    secondary: Consistency,
    highRisk: bool,
    criticalSafety: bool,
    scoreReached: bool)
  {
    /** A guardrail or a critical safety flag stands against the winner. */
    predicate Blocked() {
      !checks.guardrailsClear || criticalSafety
    }

    predicate ConfidenceShort() {
      lowConfidence || !checks.statisticalSignificance
    }

    /** The evidence does not carry a decision yet. */
    predicate EvidenceShort() {
      !checks.sampleSufficient || undetectable || ConfidenceShort()
    }

    predicate Shaky() {
      !checks.secondaryConsistent || !checks.temporalOk
    }

    /** Every gate the status branches test before the score: practical significance is not among them. */
    predicate GatesOpen() {
      !Blocked() && !EvidenceShort() && !Shaky() && checks.baselineCurrent
    }

    /** Nothing else stands in the way, but the policy has moved since. */
    predicate Outdated() {
      !Blocked() && !EvidenceShort() && !Shaky() && !checks.baselineCurrent
    }

    /** When each code belongs to the report of a winner, whatever branch added it. */
    predicate Applies(code: Reason) {
      match code
      case SampleInsufficient => !checks.sampleSufficient || (GatesOpen() && !scoreReached)
      case MdeTooLarge => undetectable
      case ConfidenceInsufficient => ConfidenceShort()
      case ExperimentInconclusive => !checks.practicalSignificance || Outdated()
      case GuardrailViolation => Blocked()
      case SecondaryMetricsMixed => secondary == Mixed
      case SecondaryMetricsContradictory => secondary == Contradictory
      case TemporalInstability => !checks.temporalOk
      case PolicyRiskHigh => highRisk
      case PromotionReady => GatesOpen() && scoreReached
      case NoWinnerFound => false
    }
  }

  function FactsOf(q: Request): Facts {
    Facts(
      ChecksOf(q), Undetectable(q), LowConfidence(q), Overall(q.secondary), q.riskLevel in {"high", "critical"}, q.criticalSafety,
      ScoreAverage(Dimensions(q)) >= q.threshold)
  }

  predicate HasWinner(q: Request) {
    q.result == "variant_preferred" && q.winner.Some? && q.winner.value != ""
  }

  /** The condition under which the code answers "ready". */
  predicate IsReady(q: Request) {
    HasWinner(q) && FactsOf(q).GatesOpen() && FactsOf(q).scoreReached
  }

  function StatusWithoutWinner(result: string): (Status, Reason) {
    if result == "unsafe_variant" then (BlockedByGuardrail, GuardrailViolation)
    else if result == "insufficient_data" then (NeedsMoreData, SampleInsufficient)
    else if result == "control_preferred" then (NoWinner, NoWinnerFound)
    else (InconclusiveStatus, ExperimentInconclusive)
  }

  /** A winner's report has exactly the codes that apply, each once; every status is characterised by what stands in the way. */
  method EvaluatePromotionReadiness(q: Request) returns (r: Report)
    ensures r.status == Ready <==> IsReady(q)
    ensures HasWinner(q) ==> r.checks == ChecksOf(q) && r.score == ScoreAverage(Dimensions(q))
    ensures HasWinner(q) ==> StatusFits(FactsOf(q), r.status)
    ensures HasWinner(q) ==> forall code :: code in r.reasons <==> FactsOf(q).Applies(code)
    ensures !HasWinner(q) ==> r.status == StatusWithoutWinner(q.result).0 && r.reasons == [StatusWithoutWinner(q.result).1] && r.score == 0
    ensures Distinct(r.reasons)
  {
    if !HasWinner(q) {
      var (status, code) := StatusWithoutWinner(q.result);
      var present := q.winner.Some? && q.winner.value != "";
      return Report(status, 0, Checks(present, false, false, false, false, true, true, q.baselineCurrent), [code]);
    }
    var secondary := SecondaryConsistency(q.secondary);
    var score := ScoreAverage(Dimensions(q));
    var facts := Facts(
      ChecksOf(q), Undetectable(q), LowConfidence(q), secondary, q.riskLevel in {"high", "critical"}, q.criticalSafety, score >= q.threshold);
    var status, reasons := Decide(facts);
    r := Report(status, score, facts.checks, Dedupe(reasons));
  }

  /** Each status if and only if. */
  predicate StatusFits(f: Facts, status: Status) {
    && (status == BlockedByGuardrail <==> f.Blocked())
    && (status == NeedsMoreData <==> (!f.Blocked() && f.EvidenceShort()) || (f.GatesOpen() && !f.scoreReached))
    && (status == Unstable <==> !f.Blocked() && !f.EvidenceShort() && f.Shaky())
    && (status == InconclusiveStatus <==> f.Outdated())
    && (status == Ready <==> f.GatesOpen() && f.scoreReached)
    && status != NoWinner
  }

  method Decide(f: Facts) returns (status: Status, reasons: seq<Reason>)
    requires f.checks.secondaryConsistent <==> f.secondary != Contradictory
    ensures StatusFits(f, status)
    ensures forall code :: code in reasons <==> f.Applies(code)
  {
    reasons := CollectReasons(f);
    if !f.checks.guardrailsClear || f.criticalSafety {
      status := BlockedByGuardrail;
    } else if !f.checks.sampleSufficient || MdeTooLarge in reasons || ConfidenceInsufficient in reasons {
      status := NeedsMoreData;
    } else if !f.checks.secondaryConsistent || !f.checks.temporalOk {
      status := Unstable;
    } else if !f.checks.baselineCurrent {
      status := InconclusiveStatus;
      reasons := reasons + [ExperimentInconclusive];
    } else if f.scoreReached {
      status := Ready;
      reasons := reasons + [PromotionReady];
    } else {
      status := NeedsMoreData;
      reasons := reasons + [SampleInsufficient];
    }
  }

  /** The codes gathered before the status is chosen; two of them steer that choice. */
  predicate Gathered(f: Facts, code: Reason) {
    match code
    case SampleInsufficient => !f.checks.sampleSufficient
    case ExperimentInconclusive => !f.checks.practicalSignificance
    case PromotionReady => false
    case _ => f.Applies(code)
  }

  method CollectReasons(f: Facts) returns (reasons: seq<Reason>)
    ensures forall code :: code in reasons <==> Gathered(f, code)
  {
    reasons := GateReasons(f.checks, f.undetectable, f.lowConfidence);
    reasons := RiskReasons(reasons, f.secondary, f.checks.temporalOk, f.highRisk, f.criticalSafety);
  }

  method GateReasons(checks: Checks, undetectable: bool, lowConfidence: bool) returns (reasons: seq<Reason>)
    ensures forall code :: code in reasons <==>
      || (code == SampleInsufficient && !checks.sampleSufficient)
      || (code == MdeTooLarge && undetectable)
      || (code == ConfidenceInsufficient && (lowConfidence || !checks.statisticalSignificance))
      || (code == ExperimentInconclusive && !checks.practicalSignificance)
      || (code == GuardrailViolation && !checks.guardrailsClear)
  {
    reasons := [];
    if !checks.sampleSufficient { reasons := reasons + [SampleInsufficient]; }
    if undetectable { reasons := reasons + [MdeTooLarge]; }
    if lowConfidence { reasons := reasons + [ConfidenceInsufficient]; }
    if !checks.statisticalSignificance { reasons := reasons + [ConfidenceInsufficient]; }
    if !checks.practicalSignificance { reasons := reasons + [ExperimentInconclusive]; }
    if !checks.guardrailsClear { reasons := reasons + [GuardrailViolation]; }
  }

  method RiskReasons(before: seq<Reason>, secondary: Consistency, temporalOk: bool, highRisk: bool, criticalSafety: bool)
    returns (reasons: seq<Reason>)
    ensures forall code :: code in reasons <==>
      || code in before
      || (code == SecondaryMetricsMixed && secondary == Mixed)
      || (code == SecondaryMetricsContradictory && secondary == Contradictory)
      || (code == TemporalInstability && !temporalOk)
      || (code == PolicyRiskHigh && highRisk)
      || (code == GuardrailViolation && criticalSafety)
  {
    reasons := before;
    if secondary == Mixed {
      reasons := reasons + [SecondaryMetricsMixed];
    } else if secondary == Contradictory {
      reasons := reasons + [SecondaryMetricsContradictory];
    }
    if !temporalOk { reasons := reasons + [TemporalInstability]; }
    if highRisk { reasons := reasons + [PolicyRiskHigh]; }
    if criticalSafety { reasons := reasons + [GuardrailViolation]; }
  }

  // ---------------------------------------------------------------- readiness over the evaluation's own comparison

  function ResultName(o: Outcome): string {
    match o
    case InsufficientData => "insufficient_data"
    case MetricUnavailable => "inconclusive"
    case ControlPreferred => "control_preferred"
    case Inconclusive => "inconclusive"
    case UnsafeVariant => "unsafe_variant"
    case MultipleEquivalent => "multiple_variants_equivalent"
    case VariantPreferred(_) => "variant_preferred"
  }

  /** What the evaluation writes about a compared variant, in either dictionary. */
  function FindingOf(c: Comparison, minimumEffect: real): Finding {
    if c.NotAvailable? then NOTHING_FOUND
    else Finding(Some(c.improvement), Some(minimumEffect), !c.guardrailsOk, c.significant, c.adjustedSignificant, c.practical, c.sampleSize)
  }

  function StatisticsOf(c: Comparison, minimumEffect: real): Statistics {
    if c.NotAvailable? then NO_STATISTICS
    else
      Statistics(
        Some(c.improvement),
        Some(minimumEffect),
        Some(c.confidence),
        if c.requiredSample.Some? then Some(c.requiredSample.value as real) else None,
        c.detectableEffect,
        if c.adjusted.Some? then Some(c.adjusted.value.lower) else None)
  }

  /** The request carries what the evaluation produced for this experiment. */
  ghost predicate Carries(q: Request, e: Evaluation, minimumEffect: real) {
    && q.result == ResultName(e.outcome)
    && q.winner == (if e.outcome.VariantPreferred? then Some(e.outcome.winner) else None)
    && forall i :: 0 <= i < |e.comparisons| ==>
         var id := e.comparisons[i].id;
         && id in q.comparisons && q.comparisons[id] == FindingOf(e.comparisons[i].comparison, minimumEffect)
         && (if id in q.statistics then q.statistics[id] else NO_STATISTICS) == StatisticsOf(e.comparisons[i].comparison, minimumEffect)
  }

  /** Winner selection supplies the practical significance that the status branches never test. */
  lemma WinnerIsPractical(s: Settings, control: GroupMetrics, variants: seq<Variant>, q: Request, minimumEffect: real)
    requires s.Valid() && DistinctVariants(variants)
    requires Carries(q, Evaluate(s, control, variants), minimumEffect) && HasWinner(q)
    ensures ChecksOf(q).practicalSignificance && ChecksOf(q).statisticalSignificance && ChecksOf(q).guardrailsClear
  {
    var e := Evaluate(s, control, variants);
    assert e.outcome.VariantPreferred?;
    var entries := CompareAll(s, control, control.primary.value, variants);
    var i := PreferredEntry(s.WinnerCriteria(), entries, e.outcome.winner);
    assert e.comparisons == entries;
    assert e.comparisons[i].id == entries[i].id;
    assert q.comparisons[entries[i].id] == FindingOf(entries[i].comparison, minimumEffect);
  }

  /** "ready" on the evaluation's own comparison: all eight checks hold and the score reaches the threshold. */
  lemma ReadyMeansReady(s: Settings, control: GroupMetrics, variants: seq<Variant>, q: Request, minimumEffect: real)
    requires s.Valid() && DistinctVariants(variants)
    requires Carries(q, Evaluate(s, control, variants), minimumEffect)
    requires IsReady(q)
    ensures ChecksOf(q).AllHold() && ScoreAverage(Dimensions(q)) >= q.threshold
    ensures Evaluate(s, control, variants).outcome.VariantPreferred?
  {
    WinnerIsPractical(s, control, variants, q, minimumEffect);
  }

  /** Without that provenance "ready" leaves exactly one check open: whether the comparison was practically significant. */
  lemma ReadyUpToPractical(q: Request)
    requires IsReady(q)
    ensures ChecksOf(q).AllHold() <==> Found(q).practical
  {
  }

  /** A hand-made comparison that is significant but far too small is still answered "ready", whatever the statistics beside it. */
  lemma ReadyWithoutPracticalEffect()
    ensures exists q: Request :: IsReady(q) && !ChecksOf(q).practicalSignificance
  {
    var found := Finding(Some(0.001), None, false, true, true, false, 50);
    var q := Request("variant_preferred", Some("v"), map["v" := found], map[], 0.03, 20, 0, Some(1.0), [], NoRecords, 10, true, "low", false, 0.75, 0);
    assert Overall(q.secondary) == Neutral;
    ScoreRange(Dimensions(q));
    assert IsReady(q) && !ChecksOf(q).practicalSignificance;
  }
}
