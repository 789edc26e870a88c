/** Metric definitions and the interval arithmetic of one comparison (graph/planner_policy_experiment.py). */
module ExperimentMetrics {
  import opened Numerics
  import opened Prelude

  datatype MetricKind = Rate | Mean
  datatype Direction = LowerIsBetter | HigherIsBetter
  datatype MetricDefinition = MetricDefinition(kind: MetricKind, direction: Direction, minimumEffect: real)

  const LOWER_RATE := MetricDefinition(Rate, LowerIsBetter, 0.03)
  const LOWER_MEAN := MetricDefinition(Mean, LowerIsBetter, 0.03)
  const SCORE_MEAN := MetricDefinition(Mean, HigherIsBetter, 5.0)

  const METRIC_DEFINITIONS: map<string, MetricDefinition> := map[
    "planning_failure_rate" := LOWER_RATE,
    "failure_rate" := LOWER_RATE,
    "successful_with_repair_rate" := LOWER_RATE,
    "repair_rate" := LOWER_RATE,
    "quality_gate_false_positive_rate" := LOWER_RATE,
    "quality_gate_false_negative_rate" := LOWER_RATE,
    "risk_underestimated_rate" := LOWER_RATE,
    "refinement_effectiveness_rate" := MetricDefinition(Rate, HigherIsBetter, 0.05),
    "confidence_absolute_error" := LOWER_MEAN,
    "average_confidence_absolute_error" := LOWER_MEAN,
    "average_quality_score" := SCORE_MEAN,
    "outcome_score" := SCORE_MEAN,
    "average_outcome_score" := SCORE_MEAN
  ]

  function CanonicalMetricName(metric: string): string {
    if metric == "planning_failure_rate" then "failure_rate"
    else if metric == "confidence_absolute_error" then "average_confidence_absolute_error"
    else if metric == "outcome_score" then "average_outcome_score"
    else if metric == "successful_with_repair_rate" then "repair_rate"
    else metric
  }

  /** Every definition asks for a positive effect, so two equal improvements are always within it. */
  lemma MinimumEffectPositive(metric: string)
    requires metric in METRIC_DEFINITIONS
    ensures METRIC_DEFINITIONS[metric].minimumEffect > 0.0
  {
  }

  /** The sufficient statistics of one group; a rate reads successes, a mean reads mean and stddev. */
  datatype MetricStats = MetricStats(sampleSize: int, successes: int, mean: real, stddev: real) {

    /** Counts of a rate lie between zero and the sample; math.sqrt raises outside this. */
    predicate Valid(kind: MetricKind) {
      kind == Rate ==> 0 <= successes <= sampleSize
    }
  }

  function GroupVariance(kind: MetricKind, s: MetricStats): real
    requires s.sampleSize > 0
  {
    var n := s.sampleSize as real;
    match kind
    case Rate => (var p := s.successes as real / n; p * (1.0 - p) / n)
    case Mean => s.stddev * s.stddev / n
  }

  function GroupEstimate(kind: MetricKind, s: MetricStats): real
    requires s.sampleSize > 0
  {
    match kind
    case Rate => s.successes as real / s.sampleSize as real
    case Mean => s.mean
  }

  datatype Bounds = Bounds(lower: real, upper: real)

  /** The difference give or take h, rounded. */
  function Spread(difference: real, h: real): Bounds {
    Bounds(Round6(difference - h), Round6(difference + h))
  }

  function StandardError(lib: MathLibrary, kind: MetricKind, control: MetricStats, candidate: MetricStats): real
    requires control.sampleSize > 0 && candidate.sampleSize > 0
  {
    lib.sqrt(GroupVariance(kind, control) + GroupVariance(kind, candidate))
  }

  /** The half-width of a delta interval before rounding. */
  function HalfWidth(lib: MathLibrary, kind: MetricKind, control: MetricStats, candidate: MetricStats, confidence: real): real
    requires control.sampleSize > 0 && candidate.sampleSize > 0
  {
    lib.ZScore(confidence) * StandardError(lib, kind, control, candidate)
  }

  /** Confidence interval of candidate minus control; None when either group is empty. */
  function DeltaInterval(lib: MathLibrary, kind: MetricKind, control: MetricStats, candidate: MetricStats, confidence: real): Option<Bounds> {
    if control.sampleSize <= 0 || candidate.sampleSize <= 0 then None
    else
      var delta := GroupEstimate(kind, candidate) - GroupEstimate(kind, control);
      Some(Spread(delta, HalfWidth(lib, kind, control, candidate, confidence)))
  }

  /** Turn the delta interval into an interval of improvement: mirrored when lower is better. */
  function ImprovementInterval(direction: Direction, delta: Option<Bounds>): Option<Bounds> {
    match (delta, direction)
    case (None, _) => None
    case (Some(b), LowerIsBetter) => Some(Bounds(Round6(-b.upper), Round6(-b.lower)))
    case (Some(b), HigherIsBetter) => Some(b)
  }

  function AdjustedConfidence(confidence: real, variants: nat): real {
    1.0 - (1.0 - confidence) / (if variants > 1 then variants else 1) as real
  }

  predicate Significant(improvement: Option<Bounds>) {
    improvement.Some? && improvement.value.lower > 0.0
  }

  ghost predicate Contains(outer: Option<Bounds>, inner: Option<Bounds>) {
    && outer.Some? == inner.Some?
    && (outer.Some? ==> outer.value.lower <= inner.value.lower && inner.value.upper <= outer.value.upper)
  }

  lemma VarianceNonNegative(kind: MetricKind, s: MetricStats)
    requires s.sampleSize > 0 && s.Valid(kind)
    ensures GroupVariance(kind, s) >= 0.0
  {
    var n := s.sampleSize as real;
    if kind == Rate {
      var p := s.successes as real / n;
      QuotientInUnit(p, s.successes as real, n);
      ProductNonNegative(p, 1.0 - p);
      QuotientNonNegative(p * (1.0 - p), n);
    } else {
      QuotientNonNegative(s.stddev * s.stddev, n);
    }
  }

  lemma QuotientInUnit(p: real, a: real, n: real)
    requires n > 0.0 && p == a / n && 0.0 <= a <= n
    ensures 0.0 <= p <= 1.0
  {
    assert n * p == a;
    ScaleOrder(0.0, p, n);
    ScaleOrder(p, 1.0, n);
  }

  lemma AdjustedAtLeast(confidence: real, variants: nat)
    requires 0.0 <= confidence < 1.0
    ensures confidence <= AdjustedConfidence(confidence, variants) < 1.0
  {
    var k := (if variants > 1 then variants else 1) as real;
    var gap := 1.0 - confidence;
    var q := gap / k;
    assert k * q == gap;
    ScaleOrder(q, 0.0, k);
    ScaleOrder(1.0, k, gap);
    assert k * gap == gap * k;
    ScaleOrder(q, gap, k);
  }

  /** A higher confidence level never narrows the delta interval, for rates and for means. */
  lemma DeltaNested(lib: MathLibrary, kind: MetricKind, control: MetricStats, candidate: MetricStats, c0: real, c1: real)
    requires lib.Lawful() && 0.0 <= c0 <= c1 < 1.0
    requires control.Valid(kind) && candidate.Valid(kind)
    ensures Contains(DeltaInterval(lib, kind, control, candidate, c1), DeltaInterval(lib, kind, control, candidate, c0))
  {
    if control.sampleSize > 0 && candidate.sampleSize > 0 {
      HalfWidthGrows(lib, kind, control, candidate, c0, c1);
      var delta := GroupEstimate(kind, candidate) - GroupEstimate(kind, control);
      WiderSpread(delta, HalfWidth(lib, kind, control, candidate, c0), HalfWidth(lib, kind, control, candidate, c1));
    }
  }

  lemma StandardErrorNonNegative(lib: MathLibrary, kind: MetricKind, control: MetricStats, candidate: MetricStats)
    requires lib.Lawful()
    requires control.sampleSize > 0 && candidate.sampleSize > 0
    requires control.Valid(kind) && candidate.Valid(kind)
    ensures StandardError(lib, kind, control, candidate) >= 0.0
  {
    VarianceNonNegative(kind, control);
    VarianceNonNegative(kind, candidate);
    SqrtNonNegative(lib, GroupVariance(kind, control) + GroupVariance(kind, candidate));
  }

  lemma HalfWidthGrows(lib: MathLibrary, kind: MetricKind, control: MetricStats, candidate: MetricStats, c0: real, c1: real)
    requires lib.Lawful() && 0.0 <= c0 <= c1 < 1.0 && control.sampleSize > 0 && candidate.sampleSize > 0
    requires control.Valid(kind) && candidate.Valid(kind)
    ensures HalfWidth(lib, kind, control, candidate, c0) <= HalfWidth(lib, kind, control, candidate, c1)
  {
    StandardErrorNonNegative(lib, kind, control, candidate);
    ZScoreMonotone(lib, c0, c1);
    ProductGrows(lib.ZScore(c0), lib.ZScore(c1), StandardError(lib, kind, control, candidate));
  }

  lemma ProductGrows(z0: real, z1: real, stderr: real)
    requires stderr >= 0.0 && z0 <= z1
    ensures z0 * stderr <= z1 * stderr
  {
    ProductNonNegative(z1 - z0, stderr);
    assert (z1 - z0) * stderr == z1 * stderr - z0 * stderr;
  }

  lemma WiderSpread(difference: real, h0: real, h1: real)
    requires h0 <= h1
    ensures Contains(Some(Spread(difference, h1)), Some(Spread(difference, h0)))
  {
    Round6Monotone(difference - h1, difference - h0);
    Round6Monotone(difference + h0, difference + h1);
  }

  lemma MirrorKeepsContainment(direction: Direction, outer: Option<Bounds>, inner: Option<Bounds>)
    requires Contains(outer, inner)
    ensures Contains(ImprovementInterval(direction, outer), ImprovementInterval(direction, inner))
  {
    if outer.Some? && direction == LowerIsBetter {
      Round6Monotone(-outer.value.upper, -inner.value.upper);
      Round6Monotone(-inner.value.lower, -outer.value.lower);
    }
  }

  /** The family-wise adjusted interval contains the plain one, so adjusted significance implies plain significance. */
  lemma AdjustedContainsPlain(lib: MathLibrary, definition: MetricDefinition, control: MetricStats, candidate: MetricStats,
                              confidence: real, variants: nat)
    requires lib.Lawful() && 0.0 <= confidence < 1.0
    requires control.Valid(definition.kind) && candidate.Valid(definition.kind)
    ensures
      var plain := ImprovementInterval(definition.direction, DeltaInterval(lib, definition.kind, control, candidate, confidence));
      var adjusted := ImprovementInterval(definition.direction,
        DeltaInterval(lib, definition.kind, control, candidate, AdjustedConfidence(confidence, variants)));
      Contains(adjusted, plain) && (Significant(adjusted) ==> Significant(plain))
  {
    var c1 := AdjustedConfidence(confidence, variants);
    AdjustedAtLeast(confidence, variants);
    DeltaNested(lib, definition.kind, control, candidate, confidence, c1);
    MirrorKeepsContainment(definition.direction,
      DeltaInterval(lib, definition.kind, control, candidate, c1),
      DeltaInterval(lib, definition.kind, control, candidate, confidence));
  }

  /** The second rounding of a mirrored interval loses nothing: the bounds come back negated and swapped. */
  lemma MirrorExact(x: real, y: real)
    ensures
      var delta := Some(Bounds(Round6(x), Round6(y)));
      ImprovementInterval(LowerIsBetter, delta) == Some(Bounds(-Round6(y), -Round6(x)))
  {
    FixedMirror(x);
    FixedMirror(y);
  }

  lemma FixedMirror(x: real)
    ensures Round6(-Round6(x)) == -Round6(x)
  {
    Round6Odd(Round6(x));
    Round6Fixed(x);
  }

  // ---------------------------------------------------------------- what an interval says, on the fields

  lemma RootOfSum(lib: MathLibrary, x: real)
    requires lib.Lawful() && x >= 0.0
    ensures lib.sqrt(x) >= 0.0 && lib.sqrt(x) * lib.sqrt(x) == x
  {
  }

  lemma ProductSquared(z: real, r: real)
    ensures (z * r) * (z * r) == (z * z) * (r * r)
  {
  }

  lemma IntervalCentre(lib: MathLibrary, kind: MetricKind, control: MetricStats, candidate: MetricStats, confidence: real)
    requires control.sampleSize > 0 && candidate.sampleSize > 0
    ensures DeltaInterval(lib, kind, control, candidate, confidence)
      == Some(Spread(GroupEstimate(kind, candidate) - GroupEstimate(kind, control), HalfWidth(lib, kind, control, candidate, confidence)))
  {
  }

  /** For two means the interval lies around the rounded difference, candidate minus control. */
  lemma MeanIntervalCentre(lib: MathLibrary, control: MetricStats, candidate: MetricStats, confidence: real)
    requires control.sampleSize > 0 && candidate.sampleSize > 0
    ensures DeltaInterval(lib, Mean, control, candidate, confidence)
      == Some(Spread(candidate.mean - control.mean, HalfWidth(lib, Mean, control, candidate, confidence)))
  {
    IntervalCentre(lib, Mean, control, candidate, confidence);
  }

  /** For two rates around that of their proportions. */
  lemma RateIntervalCentre(lib: MathLibrary, control: MetricStats, candidate: MetricStats, confidence: real)
    requires control.sampleSize > 0 && candidate.sampleSize > 0
    ensures
      var p, q := control.successes as real / control.sampleSize as real, candidate.successes as real / candidate.sampleSize as real;
      DeltaInterval(lib, Rate, control, candidate, confidence) == Some(Spread(q - p, HalfWidth(lib, Rate, control, candidate, confidence)))
  {
    IntervalCentre(lib, Rate, control, candidate, confidence);
  }

  lemma HalfWidthSquared(lib: MathLibrary, kind: MetricKind, control: MetricStats, candidate: MetricStats, confidence: real)
    requires lib.Lawful() && 0.0 <= confidence < 1.0 && control.sampleSize > 0 && candidate.sampleSize > 0
    requires control.Valid(kind) && candidate.Valid(kind)
    ensures HalfWidth(lib, kind, control, candidate, confidence) >= 0.0
    ensures
      var h, z := HalfWidth(lib, kind, control, candidate, confidence), lib.ZScore(confidence);
      h * h == (z * z) * (GroupVariance(kind, control) + GroupVariance(kind, candidate))
  {
    var z, root := lib.ZScore(confidence), StandardError(lib, kind, control, candidate);
    ZScoreMonotone(lib, confidence, confidence);
    VarianceNonNegative(kind, control);
    VarianceNonNegative(kind, candidate);
    RootOfSum(lib, GroupVariance(kind, control) + GroupVariance(kind, candidate));
    ProductNonNegative(z, root);
    ProductSquared(z, root);
  }

  lemma SameSquare(h: real, zz: real, x: real, y: real, u: real, v: real)
    requires h * h == zz * (x + y) && x == u && y == v
    ensures h * h == zz * (u + v)
  {
  }

  /** Its square is z squared times the sum of the two variances of the means. */
  lemma MeanHalfWidth(lib: MathLibrary, control: MetricStats, candidate: MetricStats, confidence: real)
    requires lib.Lawful() && 0.0 <= confidence < 1.0 && control.sampleSize > 0 && candidate.sampleSize > 0
    ensures HalfWidth(lib, Mean, control, candidate, confidence) >= 0.0
    ensures
      var h, z := HalfWidth(lib, Mean, control, candidate, confidence), lib.inverseNormal(0.5 + confidence / 2.0);
      h * h == (z * z) * (control.stddev * control.stddev / control.sampleSize as real
                          + candidate.stddev * candidate.stddev / candidate.sampleSize as real)
  {
    HalfWidthSquared(lib, Mean, control, candidate, confidence);
    var h, z := HalfWidth(lib, Mean, control, candidate, confidence), lib.ZScore(confidence);
    SameSquare(h, z * z, GroupVariance(Mean, control), GroupVariance(Mean, candidate),
      control.stddev * control.stddev / control.sampleSize as real, candidate.stddev * candidate.stddev / candidate.sampleSize as real);
  }

  /** For rates those of the proportions. */
  lemma RateHalfWidth(lib: MathLibrary, control: MetricStats, candidate: MetricStats, confidence: real)
    requires lib.Lawful() && 0.0 <= confidence < 1.0 && control.sampleSize > 0 && candidate.sampleSize > 0
    requires 0 <= control.successes <= control.sampleSize && 0 <= candidate.successes <= candidate.sampleSize
    ensures HalfWidth(lib, Rate, control, candidate, confidence) >= 0.0
    ensures
      var h, z := HalfWidth(lib, Rate, control, candidate, confidence), lib.inverseNormal(0.5 + confidence / 2.0);
      var p, q := control.successes as real / control.sampleSize as real, candidate.successes as real / candidate.sampleSize as real;
      h * h == (z * z) * (p * (1.0 - p) / control.sampleSize as real + q * (1.0 - q) / candidate.sampleSize as real)
  {
    HalfWidthSquared(lib, Rate, control, candidate, confidence);
  }

  /** On which side a difference lies, in the metric's direction. */
  predicate Better(direction: Direction, control: real, candidate: real) {
    match direction
    case HigherIsBetter => candidate > control
    case LowerIsBetter => candidate < control
  }

  lemma RoundedSign(x: real)
    ensures Round6(x) > 0.0 ==> x > 0.0
    ensures Round6(x) < 0.0 ==> x < 0.0
  {
    RoundInteger(0);
    if x <= 0.0 {
      Round6Monotone(x, 0.0);
    }
    if x >= 0.0 {
      Round6Monotone(0.0, x);
    }
  }

  lemma SignificantSide(direction: Direction, difference: real, h: real)
    requires h >= 0.0
    requires Significant(ImprovementInterval(direction, Some(Spread(difference, h))))
    ensures direction == HigherIsBetter ==> difference > h
    ensures direction == LowerIsBetter ==> difference < -h
  {
    if direction == HigherIsBetter {
      RoundedSign(difference - h);
    } else {
      MirrorExact(difference - h, difference + h);
      RoundedSign(difference + h);
    }
  }

  /** A significant mean is on the better side of the control's, by more than the half-width of the interval. */
  lemma SignificantMeanIsBetter(lib: MathLibrary, direction: Direction, control: MetricStats, candidate: MetricStats, confidence: real)
    requires lib.Lawful() && 0.0 <= confidence < 1.0
    requires Significant(ImprovementInterval(direction, DeltaInterval(lib, Mean, control, candidate, confidence)))
    ensures control.sampleSize > 0 && candidate.sampleSize > 0 && Better(direction, control.mean, candidate.mean)
  {
    MeanIntervalCentre(lib, control, candidate, confidence);
    MeanHalfWidth(lib, control, candidate, confidence);
    SignificantSide(direction, candidate.mean - control.mean, HalfWidth(lib, Mean, control, candidate, confidence));
  }

  /** And so is a significant rate. */
  lemma SignificantRateIsBetter(lib: MathLibrary, direction: Direction, control: MetricStats, candidate: MetricStats, confidence: real)
    requires lib.Lawful() && 0.0 <= confidence < 1.0
    requires 0 <= control.successes <= control.sampleSize && 0 <= candidate.successes <= candidate.sampleSize
    requires Significant(ImprovementInterval(direction, DeltaInterval(lib, Rate, control, candidate, confidence)))
    ensures control.sampleSize > 0 && candidate.sampleSize > 0
    ensures Better(direction, control.successes as real / control.sampleSize as real, candidate.successes as real / candidate.sampleSize as real)
  {
    RateIntervalCentre(lib, control, candidate, confidence);
    RateHalfWidth(lib, control, candidate, confidence);
    var p, q := control.successes as real / control.sampleSize as real, candidate.successes as real / candidate.sampleSize as real;
    SignificantSide(direction, q - p, HalfWidth(lib, Rate, control, candidate, confidence));
  }

  /** Bonferroni: the chances of missing that the adjusted level leaves to each of k comparisons add up to those of the family. */
  lemma FamilyWiseLevel(confidence: real, variants: nat)
    ensures variants >= 1 ==> variants as real * (1.0 - AdjustedConfidence(confidence, variants)) == 1.0 - confidence
    ensures variants == 0 ==> AdjustedConfidence(confidence, variants) == confidence
  {
    if variants >= 1 {
      var k, gap := variants as real, 1.0 - confidence;
      assert k * (gap / k) == gap;
    }
  }

  /** An alias stands for a metric of the same kind, direction and threshold, and is no alias itself. */
  lemma AliasesAgree(metric: string)
    requires metric in METRIC_DEFINITIONS
    ensures CanonicalMetricName(CanonicalMetricName(metric)) == CanonicalMetricName(metric)
    ensures CanonicalMetricName(metric) in METRIC_DEFINITIONS
    ensures METRIC_DEFINITIONS[CanonicalMetricName(metric)] == METRIC_DEFINITIONS[metric]
  {
  }

  /** Which metrics are scores, and which are means: the scores and the effectiveness rate alone are better when higher. */
  lemma MetricGroups(metric: string)
    requires metric in METRIC_DEFINITIONS
    ensures
      var d := METRIC_DEFINITIONS[metric];
      var score := metric in {"average_quality_score", "outcome_score", "average_outcome_score"};
      var effectiveness := metric == "refinement_effectiveness_rate";
      && (d.direction == HigherIsBetter <==> score || effectiveness)
      && (d.kind == Mean <==> score || metric in {"confidence_absolute_error", "average_confidence_absolute_error"})
      && d.minimumEffect == (if score then 5.0 else if effectiveness then 0.05 else 0.03)
  {
  }

  // ---------------------------------------------------------------- sample size planning

  function Clamp01(x: real): real {
    MinReal(MaxReal(x, 0.0), 1.0)
  }

  /** Twice z squared times the pooled variance: the numerator of the sample-size estimate. */
  function SampleNumerator(lib: MathLibrary, kind: MetricKind, baseline: real, effect: real, confidence: real, variance: real): real {
    var z := lib.ZScore(confidence);
    var p1, p2 := Clamp01(baseline), Clamp01(baseline + effect);
    var pooled := if kind == Rate then p1 * (1.0 - p1) + p2 * (1.0 - p2) else MaxReal(variance, 0.0);
    2.0 * (z * z) * pooled
  }

  function RequiredSampleSize(lib: MathLibrary, kind: MetricKind, baseline: real, effect: real, confidence: real, variance: real): Option<int> {
    if effect <= 0.0 then None
    else
      SquarePositive(effect);
      var needed := Ceil(SampleNumerator(lib, kind, baseline, effect, confidence, variance) / Square(effect));
      Some(if needed > 1 then needed else 1)
  }

  function Product(x: real, y: real): real {
    x * y
  }

  function Square(x: real): real {
    Product(x, x)
  }

  lemma ProductOfPositives(x: real, y: real)
    requires x > 0.0 && y > 0.0
    ensures Product(x, y) > 0.0
  {
  }

  lemma SquarePositive(x: real)
    requires x > 0.0
    ensures Square(x) > 0.0
  {
    ProductOfPositives(x, x);
  }

  /** The estimate is the least positive sample whose doubled interval variance fits under the squared effect. */
  lemma RequiredSampleIsLeast(lib: MathLibrary, kind: MetricKind, baseline: real, effect: real, confidence: real, variance: real, n: nat)
    requires effect > 0.0 && n >= 1
    ensures
      var required := RequiredSampleSize(lib, kind, baseline, effect, confidence, variance);
      && required.Some? && required.value >= 1
      && (n >= required.value <==> SampleNumerator(lib, kind, baseline, effect, confidence, variance) <= n as real * Square(effect))
  {
    SquarePositive(effect);
    CeilingOfQuotient(SampleNumerator(lib, kind, baseline, effect, confidence, variance), Square(effect), n);
  }

  lemma CeilingOfQuotient(a: real, k: real, n: nat)
    requires k > 0.0
    ensures Ceil(a / k) <= n <==> a <= n as real * k
  {
    var q := a / k;
    assert k * q == a;
    ScaleOrder(q, n as real, k);
  }

  /** n covers twice z squared times the variance, measured in squared effects. */
  predicate Covers(n: int, z: real, variance: real, effect: real) {
    2.0 * (z * z) * variance <= n as real * (effect * effect)
  }

  /** For means: the least n at which 2 z^2 times the variance fits under n times the squared effect. */
  lemma SampleForMean(lib: MathLibrary, baseline: real, effect: real, confidence: real, variance: real, n: nat)
    requires effect > 0.0 && variance >= 0.0 && n >= 1
    ensures
      var z := lib.inverseNormal(0.5 + confidence / 2.0);
      var required := RequiredSampleSize(lib, Mean, baseline, effect, confidence, variance);
      required.Some? && (n >= required.value <==> Covers(n, z, variance, effect))
  {
    RequiredSampleIsLeast(lib, Mean, baseline, effect, confidence, variance, n);
  }

  /** For rates the variance is that of the baseline and of the rate the effect would lead to. */
  lemma SampleForRate(lib: MathLibrary, baseline: real, effect: real, confidence: real, variance: real, pooled: real, n: nat)
    requires effect > 0.0 && 0.0 <= baseline && baseline + effect <= 1.0 && n >= 1
    requires pooled == baseline * (1.0 - baseline) + (baseline + effect) * (1.0 - (baseline + effect))
    ensures
      var z := lib.inverseNormal(0.5 + confidence / 2.0);
      var required := RequiredSampleSize(lib, Rate, baseline, effect, confidence, variance);
      required.Some? && (n >= required.value <==> Covers(n, z, pooled, effect))
  {
    RequiredSampleIsLeast(lib, Rate, baseline, effect, confidence, variance, n);
  }
}
