/** Winner selection of a policy experiment: evaluate_experiment_result in graph/planner_policy_experiment.py. */
module ExperimentEvaluation {
  import opened Numerics
  import opened Prelude
  import opened ExperimentMetrics
  import opened WinnerSelection

  /** What one group reports: attributable sample, primary metric, guardrail metrics, primary statistics. */
  datatype GroupMetrics = GroupMetrics(sampleSize: int, primary: Option<real>, guardrails: map<string, real>, stats: MetricStats)

  datatype Variant = Variant(id: string, metrics: GroupMetrics)

  datatype Experiment = Experiment(
    lib: MathLibrary,
    primaryMetric: string,
    guardrails: map<string, Option<real>>,
    minimumSampleSize: int,
    safetyMinimum: int,
    confidence: real,
    winnerConfidence: real)

  datatype EvaluationError = InvalidConfidenceLevel | InvalidMetric

  /** The experiment once its settings have been checked; family is the number of variants compared. */
  datatype Settings = Settings(
    lib: MathLibrary,
    definition: MetricDefinition,
    guardrails: map<string, Option<real>>,
    minimumSample: int,
    confidence: real,
    winnerConfidence: real,
    family: nat)
  {
    predicate Valid() {
      definition.minimumEffect > 0.0 && 0.8 <= confidence < 1.0
    }

    function WinnerCriteria(): Criteria {
      Criteria(definition.minimumEffect, winnerConfidence)
    }
  }

  const DEFAULT_GUARDRAILS: map<string, Option<real>> :=
    map["planning_failure_rate" := Some(0.05), "risk_underestimated_rate" := Some(0.05)]

  function Configure(e: Experiment, family: nat): (r: Result<Settings, EvaluationError>)
    ensures r.Ok? ==> r.value.Valid() && r.value.family == family
  {
    if e.confidence < 0.8 || e.confidence >= 1.0 || e.winnerConfidence < 0.0 || e.winnerConfidence > 1.0 then Err(InvalidConfidenceLevel)
    else if e.primaryMetric !in METRIC_DEFINITIONS then Err(InvalidMetric)
    else
      MinimumEffectPositive(e.primaryMetric);
      var minimum := if e.safetyMinimum > e.minimumSampleSize then e.safetyMinimum else e.minimumSampleSize;
      Ok(Settings(e.lib, METRIC_DEFINITIONS[e.primaryMetric], DEFAULT_GUARDRAILS + e.guardrails, minimum,
        e.confidence, e.winnerConfidence, family))
  }

  // ---------------------------------------------------------------- one comparison

  function GuardrailValue(m: GroupMetrics, name: string): real {
    var key := CanonicalMetricName(name);
    if key in m.guardrails then m.guardrails[key] else 0.0
  }

  predicate Violates(s: Settings, control: GroupMetrics, variant: GroupMetrics) {
    exists g :: g in s.guardrails.Keys && s.guardrails[g].Some? &&
      GuardrailValue(variant, g) - GuardrailValue(control, g) > s.guardrails[g].value
  }

  function Improvement(direction: Direction, control: real, variant: real): real {
    if direction == LowerIsBetter then Round6(control - variant) else Round6(variant - control)
  }

  datatype Adequacy = Insufficient | MinimumMet | Adequate | Strong

  function SampleAdequacy(sampleSize: int, required: Option<int>, minimum: int): Adequacy {
    if sampleSize < minimum then Insufficient
    else if required.None? then MinimumMet
    else if sampleSize >= required.value * 2 then Strong
    else if sampleSize >= required.value then Adequate
    else MinimumMet
  }

  function SampleFactor(a: Adequacy): real {
    match a
    case Insufficient => 0.15
    case MinimumMet => 0.45
    case Adequate => 0.75
    case Strong => 0.95
  }

  function EffectFactor(improvement: real, minimumEffect: real): real {
    MinReal(Abs(improvement) / MaxReal(minimumEffect, 0.000000001), 2.0) / 2.0
  }

  function SeparationFactor(adjusted: Option<Bounds>, minimumEffect: real): real {
    if adjusted.Some? && adjusted.value.lower > 0.0
    then MinReal(adjusted.value.lower / MaxReal(minimumEffect, 0.000000001), 1.0)
    else 0.0
  }

  function DecisionConfidence(a: Adequacy, improvement: real, minimumEffect: real, adjusted: Option<Bounds>, guardrailsOk: bool): real {
    var guardrailFactor := if guardrailsOk then 1.0 else 0.0;
    var score := 0.30 * SampleFactor(a) + 0.25 * EffectFactor(improvement, minimumEffect)
      + 0.35 * SeparationFactor(adjusted, minimumEffect) + 0.10 * guardrailFactor;
    Round4(MaxReal(0.0, MinReal(1.0, score)))
  }

  function PlainInterval(s: Settings, control: GroupMetrics, variant: GroupMetrics): Option<Bounds> {
    DeltaInterval(s.lib, s.definition.kind, control.stats, variant.stats, s.confidence)
  }

  function AdjustedInterval(s: Settings, control: GroupMetrics, variant: GroupMetrics): Option<Bounds> {
    DeltaInterval(s.lib, s.definition.kind, control.stats, variant.stats, AdjustedConfidence(s.confidence, s.family))
  }

  /** The sample a comparison asks for, planned from the control. */
  function Required(s: Settings, control: GroupMetrics, controlValue: real): Option<int> {
    RequiredSampleSize(s.lib, s.definition.kind, controlValue, s.definition.minimumEffect, s.confidence, Square(control.stats.stddev))
  }

  function Compare(s: Settings, control: GroupMetrics, controlValue: real, variant: GroupMetrics): Comparison {
    if variant.primary.None? then NotAvailable
    else
      var d := s.definition;
      var improvement := Improvement(d.direction, controlValue, variant.primary.value);
      var guardrailsOk := !Violates(s, control, variant);
      var delta := PlainInterval(s, control, variant);
      var plain := ImprovementInterval(d.direction, delta);
      var adjusted := ImprovementInterval(d.direction, AdjustedInterval(s, control, variant));
      var required := Required(s, control, controlValue);
      var adequacy := SampleAdequacy(variant.sampleSize, required, s.minimumSample);
      Compared(
        improvement,
        guardrailsOk,
        Significant(plain),
        Abs(improvement) >= d.minimumEffect,
        Significant(adjusted),
        DecisionConfidence(adequacy, improvement, d.minimumEffect, adjusted, guardrailsOk),
        variant.sampleSize,
        required,
        if delta.Some? then Some(Round6((delta.value.upper - delta.value.lower) / 2.0)) else None,
        adjusted)
  }

  // ---------------------------------------------------------------- the whole evaluation

  function CompareAll(s: Settings, control: GroupMetrics, controlValue: real, variants: seq<Variant>): (r: seq<Entry>)
    ensures |r| == |variants|
    ensures forall i :: 0 <= i < |r| ==> r[i] == Entry(variants[i].id, Compare(s, control, controlValue, variants[i].metrics))
  {
    seq(|variants|, i requires 0 <= i < |variants| => Entry(variants[i].id, Compare(s, control, controlValue, variants[i].metrics)))
  }

  function Small(s: Settings): Variant -> bool {
    (v: Variant) => v.id != "control" && v.metrics.sampleSize < s.minimumSample
  }

  /** The sample under the key "control" of the merged dictionary: a variant of that name replaces the control. */
  function ControlSample(control: GroupMetrics, variants: seq<Variant>): int {
    if variants == [] then control.sampleSize
    else if variants[0].id == "control" then variants[0].metrics.sampleSize
    else ControlSample(control, variants[1..])
  }

  /** Groups under the minimum, the control first. */
  function InsufficientGroups(s: Settings, control: GroupMetrics, variants: seq<Variant>): seq<string> {
    var small := Filter(Small(s), variants);
    var names := seq(|small|, i requires 0 <= i < |small| => small[i].id);
    if ControlSample(control, variants) < s.minimumSample then ["control"] + names else names
  }

  function Evaluate(s: Settings, control: GroupMetrics, variants: seq<Variant>): Evaluation {
    var insufficient := InsufficientGroups(s, control, variants);
    if insufficient != [] then Evaluation(InsufficientData, insufficient, [], [], [], 0.0)
    else if control.primary.None? then Evaluation(MetricUnavailable, [], [], [], [], 0.0)
    else Judge(s.WinnerCriteria(), CompareAll(s, control, control.primary.value, variants))
  }

  /** The source's loop: one comparison per variant, the unsafe ones collected on the way. */
  method CompareVariants(s: Settings, control: GroupMetrics, controlValue: real, variants: seq<Variant>)
    returns (comparisons: seq<Entry>, unsafe: seq<Entry>)
    ensures comparisons == CompareAll(s, control, controlValue, variants)
    ensures unsafe == Filter(Unsafe, comparisons)
  {
    comparisons, unsafe := [], [];
    var i := 0;
    while i < |variants|
      invariant 0 <= i <= |variants|
      invariant comparisons == CompareAll(s, control, controlValue, variants[..i])
      invariant unsafe == Filter(Unsafe, comparisons)
    {
      var entry := Entry(variants[i].id, Compare(s, control, controlValue, variants[i].metrics));
      FilterAppend(Unsafe, comparisons, entry);
      if Unsafe(entry) {
        unsafe := unsafe + [entry];
      }
      comparisons := comparisons + [entry];
      i := i + 1;
    }
    assert variants[..|variants|] == variants;
  }

  method EvaluateExperimentResult(e: Experiment, control: GroupMetrics, variants: seq<Variant>)
    returns (r: Result<Evaluation, EvaluationError>)
    ensures
      var configured := Configure(e, |variants|);
      r == if configured.Err? then Err(configured.error) else Ok(Evaluate(configured.value, control, variants))
  {
    var configured := Configure(e, |variants|);
    if configured.Err? {
      return Err(configured.error);
    }
    var s := configured.value;
    var insufficient := InsufficientGroups(s, control, variants);
    if insufficient != [] {
      return Ok(Evaluation(InsufficientData, insufficient, [], [], [], 0.0));
    }
    if control.primary.None? {
      return Ok(Evaluation(MetricUnavailable, [], [], [], [], 0.0));
    }
    var comparisons, unsafe := CompareVariants(s, control, control.primary.value, variants);
    var evaluation := Select(s.WinnerCriteria(), comparisons, unsafe);
    return Ok(evaluation);
  }

  // ---------------------------------------------------------------- what the evaluation promises

  ghost predicate DistinctVariants(variants: seq<Variant>) {
    forall i, j :: 0 <= i < j < |variants| ==> variants[i].id != variants[j].id
  }

  ghost predicate EnoughData(s: Settings, control: GroupMetrics, variants: set<Variant>) {
    && (forall v :: v in variants ==> v.metrics.sampleSize >= s.minimumSample)
    && (control.sampleSize >= s.minimumSample || exists v :: v in variants && v.id == "control")
  }

  lemma {:induction false} ControlSampleMeaning(control: GroupMetrics, variants: seq<Variant>)
    requires DistinctVariants(variants)
    ensures (forall v :: v in variants ==> v.id != "control") ==> ControlSample(control, variants) == control.sampleSize
    ensures forall v :: v in variants && v.id == "control" ==> ControlSample(control, variants) == v.metrics.sampleSize
  {
    if variants != [] {
      ControlSampleMeaning(control, variants[1..]);
      assert forall v :: v in variants <==> v == variants[0] || v in variants[1..];
    }
  }

  lemma EnoughDataReported(s: Settings, control: GroupMetrics, variants: seq<Variant>)
    requires DistinctVariants(variants)
    ensures InsufficientGroups(s, control, variants) == [] <==> EnoughData(s, control, ToSet(variants))
  {
    ControlSampleMeaning(control, variants);
    FilterEmpty(Small(s), variants);
    var small := Filter(Small(s), variants);
    assert InsufficientGroups(s, control, variants) == []
      <==> small == [] && ControlSample(control, variants) >= s.minimumSample;
  }

  function EntrySet(s: Settings, control: GroupMetrics, controlValue: real, variants: set<Variant>): set<Entry> {
    set v | v in variants :: Entry(v.id, Compare(s, control, controlValue, v.metrics))
  }

  lemma EntriesOfVariants(s: Settings, control: GroupMetrics, controlValue: real, variants: seq<Variant>)
    ensures ToSet(CompareAll(s, control, controlValue, variants)) == EntrySet(s, control, controlValue, ToSet(variants))
  {
    var entries := CompareAll(s, control, controlValue, variants);
    forall v | v in variants ensures Entry(v.id, Compare(s, control, controlValue, v.metrics)) in entries {
      var i :| 0 <= i < |variants| && variants[i] == v;
      assert entries[i] in entries;
    }
    forall e | e in entries ensures e in EntrySet(s, control, controlValue, ToSet(variants)) {
      var i :| 0 <= i < |entries| && entries[i] == e;
      assert variants[i] in ToSet(variants);
    }
  }

  /** Result kind, winner and confidence are the same for every ordering of the variants. */
  lemma VariantOrderIrrelevant(s: Settings, control: GroupMetrics, a: seq<Variant>, b: seq<Variant>)
    requires s.Valid() && DistinctVariants(a) && DistinctVariants(b)
    requires ToSet(a) == ToSet(b)
    ensures Evaluate(s, control, a).outcome == Evaluate(s, control, b).outcome
    ensures Evaluate(s, control, a).decisionConfidence == Evaluate(s, control, b).decisionConfidence
  {
    EnoughDataReported(s, control, a);
    EnoughDataReported(s, control, b);
    if control.primary.Some? {
      EntriesOfVariants(s, control, control.primary.value, a);
      EntriesOfVariants(s, control, control.primary.value, b);
      OrderIndependent(s.WinnerCriteria(), CompareAll(s, control, control.primary.value, a), CompareAll(s, control, control.primary.value, b));
    }
  }

  /** A preferred variant: safe, significant both ways, above the threshold, and clear of every other qualifying variant. */
  lemma PreferredVariant(s: Settings, control: GroupMetrics, variants: seq<Variant>, w: string) returns (v: Variant)
    requires s.Valid() && DistinctVariants(variants)
    requires Evaluate(s, control, variants).outcome == VariantPreferred(w)
    ensures control.primary.Some? && v in variants && v.id == w
    ensures !Violates(s, control, v.metrics)
    ensures v.metrics.primary.Some?
    ensures Improvement(s.definition.direction, control.primary.value, v.metrics.primary.value) >= s.definition.minimumEffect
    ensures Significant(ImprovementInterval(s.definition.direction, PlainInterval(s, control, v.metrics)))
    ensures Significant(ImprovementInterval(s.definition.direction, AdjustedInterval(s, control, v.metrics)))
    ensures ClearlyBest(s.WinnerCriteria(), EntrySet(s, control, control.primary.value, ToSet(variants)),
              Entry(w, Compare(s, control, control.primary.value, v.metrics)))
  {
    var value := control.primary.value;
    var entries := CompareAll(s, control, value, variants);
    var i := PreferredEntry(s.WinnerCriteria(), entries, w);
    EntriesOfVariants(s, control, value, variants);
    v := variants[i];
    QualifyingComparison(s, control, value, v.metrics);
  }

  lemma QualifyingComparison(s: Settings, control: GroupMetrics, value: real, variant: GroupMetrics)
    requires Qualifies(s.WinnerCriteria(), Compare(s, control, value, variant))
    ensures !Violates(s, control, variant)
    ensures variant.primary.Some?
    ensures Improvement(s.definition.direction, value, variant.primary.value) >= s.definition.minimumEffect
    ensures Significant(ImprovementInterval(s.definition.direction, PlainInterval(s, control, variant)))
    ensures Significant(ImprovementInterval(s.definition.direction, AdjustedInterval(s, control, variant)))
  {
  }

  // ---------------------------------------------------------------- decision confidence

  lemma EffectFactorRange(improvement: real, minimumEffect: real)
    ensures 0.0 <= EffectFactor(improvement, minimumEffect) <= 1.0
  {
    QuotientNonNegative(Abs(improvement), MaxReal(minimumEffect, 0.000000001));
  }

  /** Without a positive adjusted lower bound the confidence stays well below the default winner threshold. */
  lemma UnseparatedScoresLow(a: Adequacy, improvement: real, minimumEffect: real, adjusted: Option<Bounds>, guardrailsOk: bool)
    requires !Significant(adjusted)
    ensures DecisionConfidence(a, improvement, minimumEffect, adjusted, guardrailsOk) <= 0.65
  {
    EffectFactorRange(improvement, minimumEffect);
    var score := 0.30 * SampleFactor(a) + 0.25 * EffectFactor(improvement, minimumEffect)
      + 0.35 * SeparationFactor(adjusted, minimumEffect) + 0.10 * (if guardrailsOk then 1.0 else 0.0);
    assert SeparationFactor(adjusted, minimumEffect) == 0.0;
    assert score <= 0.65;
    RoundMonotone(MaxReal(0.0, MinReal(1.0, score)) * 10000.0, 6500.0);
    RoundInteger(6500);
  }

  /** At the default winner threshold 0.75 the confidence test alone forces a positive adjusted lower bound. */
  lemma DefaultThresholdForcesSeparation(a: Adequacy, improvement: real, minimumEffect: real, adjusted: Option<Bounds>, guardrailsOk: bool)
    requires DecisionConfidence(a, improvement, minimumEffect, adjusted, guardrailsOk) >= 0.75
    ensures Significant(adjusted)
  {
    if !Significant(adjusted) {
      UnseparatedScoresLow(a, improvement, minimumEffect, adjusted, guardrailsOk);
    }
  }
}
