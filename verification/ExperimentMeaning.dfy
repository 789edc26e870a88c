/** What an evaluation says about the numbers the groups reported: every result kind, stated on the fields. */
module ExperimentMeaning {
  import opened Numerics
  import opened Prelude
  import opened ExperimentMetrics
  import opened WinnerSelection
  import opened ExperimentEvaluation

  // ---------------------------------------------------------------- settings

  /** Which settings are refused, and what the accepted ones are: given guardrails stand before the defaults. */
  lemma ConfigureMeans(e: Experiment, family: nat)
    ensures
      var r := Configure(e, family);
      && (r == Err(InvalidConfidenceLevel) <==> !(0.8 <= e.confidence < 1.0 && 0.0 <= e.winnerConfidence <= 1.0))
      && (r.Ok? <==> 0.8 <= e.confidence < 1.0 && 0.0 <= e.winnerConfidence <= 1.0 && e.primaryMetric in METRIC_DEFINITIONS)
      && (r.Ok? ==>
            var s := r.value;
            && s.definition == METRIC_DEFINITIONS[e.primaryMetric]
            && s.confidence == e.confidence && s.winnerConfidence == e.winnerConfidence && s.lib == e.lib
            && s.minimumSample in {e.minimumSampleSize, e.safetyMinimum}
            && s.minimumSample >= e.minimumSampleSize && s.minimumSample >= e.safetyMinimum
            && (forall g :: g in s.guardrails <==> g in e.guardrails || g in {"planning_failure_rate", "risk_underestimated_rate"})
            && (forall g :: g in s.guardrails && g in e.guardrails ==> s.guardrails[g] == e.guardrails[g])
            && (forall g :: g in s.guardrails && g !in e.guardrails ==> s.guardrails[g] == Some(0.05)))
  {
  }

  // ---------------------------------------------------------------- guardrails

  /** m reports x for the guardrail: under its canonical name, and a missing value reads as zero. */
  ghost predicate Reports(m: GroupMetrics, guardrail: string, x: real) {
    var key := CanonicalMetricName(guardrail);
    (key in m.guardrails && x == m.guardrails[key]) || (key !in m.guardrails && x == 0.0)
  }

  /** The variant exceeds the control by more than the limit of some guardrail that has one. */
  ghost predicate PastLimit(s: Settings, control: GroupMetrics, variant: GroupMetrics) {
    exists g, limit, x, y ::
      g in s.guardrails && s.guardrails[g] == Some(limit) && Reports(variant, g, x) && Reports(control, g, y) && x - y > limit
  }

  lemma GuardrailMeans(s: Settings, control: GroupMetrics, variant: GroupMetrics)
    ensures Violates(s, control, variant) <==> PastLimit(s, control, variant)
  {
    if Violates(s, control, variant) {
      var g :| g in s.guardrails.Keys && s.guardrails[g].Some?
        && GuardrailValue(variant, g) - GuardrailValue(control, g) > s.guardrails[g].value;
      assert Reports(variant, g, GuardrailValue(variant, g)) && Reports(control, g, GuardrailValue(control, g));
    }
    if PastLimit(s, control, variant) {
      var g, limit, x, y :|
        g in s.guardrails && s.guardrails[g] == Some(limit) && Reports(variant, g, x) && Reports(control, g, y) && x - y > limit;
      assert GuardrailValue(variant, g) - GuardrailValue(control, g) > limit;
    }
  }

  // ---------------------------------------------------------------- improvement and significance

  /** How far the candidate is on the better side of the control. */
  function Lead(direction: Direction, control: real, candidate: real): real {
    match direction
    case HigherIsBetter => candidate - control
    case LowerIsBetter => control - candidate
  }

  /** The improvement is the distance between two values to half a millionth, positive only on the better side. */
  lemma ImprovementMeans(direction: Direction, control: real, variant: real)
    ensures
      var improvement, distance := Improvement(direction, control, variant), Abs(variant - control);
      && (Better(direction, control, variant) ==> Abs(improvement - distance) <= 0.0000005)
      && (!Better(direction, control, variant) ==> Abs(improvement + distance) <= 0.0000005)
      && (improvement > 0.0 ==> Better(direction, control, variant))
  {
    RoundNearest((control - variant) * 1000000.0);
    RoundNearest((variant - control) * 1000000.0);
    RoundedSign(control - variant);
    RoundedSign(variant - control);
  }

  /** The candidate leads by more than h, to the last digit kept. */
  predicate LeadsBy(direction: Direction, control: real, candidate: real, h: real) {
    Round6(Lead(direction, control, candidate) - h) > 0.0
  }

  lemma SpreadLead(direction: Direction, delta: Option<Bounds>, control: real, candidate: real, h: real)
    requires delta == Some(Spread(candidate - control, h))
    ensures Significant(ImprovementInterval(direction, delta)) <==> LeadsBy(direction, control, candidate, h)
  {
    if direction == LowerIsBetter {
      MirrorExact(candidate - control - h, candidate - control + h);
      Round6Odd(candidate - control + h);
      assert -(candidate - control + h) == control - candidate - h;
    }
  }

  function Proportion(s: MetricStats): real
    requires s.sampleSize > 0
  {
    s.successes as real / s.sampleSize as real
  }

  /** A mean is significant if and only if it leads the control's by more than the half-width, to the last digit kept. */
  lemma SignificantMeanIff(lib: MathLibrary, direction: Direction, control: MetricStats, candidate: MetricStats, confidence: real)
    requires control.sampleSize > 0 && candidate.sampleSize > 0
    ensures Significant(ImprovementInterval(direction, DeltaInterval(lib, Mean, control, candidate, confidence)))
      <==> LeadsBy(direction, control.mean, candidate.mean, HalfWidth(lib, Mean, control, candidate, confidence))
  {
    MeanIntervalCentre(lib, control, candidate, confidence);
    SpreadLead(direction, DeltaInterval(lib, Mean, control, candidate, confidence), control.mean, candidate.mean,
      HalfWidth(lib, Mean, control, candidate, confidence));
  }

  /** And a rate by its proportion. */
  lemma SignificantRateIff(lib: MathLibrary, direction: Direction, control: MetricStats, candidate: MetricStats, confidence: real)
    requires control.sampleSize > 0 && candidate.sampleSize > 0
    ensures Significant(ImprovementInterval(direction, DeltaInterval(lib, Rate, control, candidate, confidence)))
      <==> LeadsBy(direction, Proportion(control), Proportion(candidate), HalfWidth(lib, Rate, control, candidate, confidence))
  {
    RateIntervalCentre(lib, control, candidate, confidence);
    SpreadLead(direction, DeltaInterval(lib, Rate, control, candidate, confidence), Proportion(control), Proportion(candidate),
      HalfWidth(lib, Rate, control, candidate, confidence));
  }

  /** No interval, and so no significance, for a group without a sample. */
  lemma EmptyGroupNeverSignificant(lib: MathLibrary, kind: MetricKind, direction: Direction, control: MetricStats,
                                   candidate: MetricStats, confidence: real)
    ensures DeltaInterval(lib, kind, control, candidate, confidence).Some? <==> control.sampleSize > 0 && candidate.sampleSize > 0
    ensures control.sampleSize <= 0 || candidate.sampleSize <= 0
      ==> !Significant(ImprovementInterval(direction, DeltaInterval(lib, kind, control, candidate, confidence)))
  {
  }

  // ---------------------------------------------------------------- sample adequacy and decision confidence

  /** The class of a sample: under the minimum, under the required sample, up to twice that, or from twice that on. */
  lemma AdequacyMeans(n: int, required: Option<int>, minimum: int)
    requires required.Some? ==> required.value >= 1
    ensures SampleAdequacy(n, required, minimum) == Insufficient <==> n < minimum
    ensures SampleAdequacy(n, required, minimum) == MinimumMet <==> n >= minimum && (required.Some? ==> n < required.value)
    ensures SampleAdequacy(n, required, minimum) == Strong <==> n >= minimum && required.Some? && n >= required.value + required.value
  {
  }

  lemma SeparationRange(adjusted: Option<Bounds>, minimumEffect: real)
    ensures 0.0 <= SeparationFactor(adjusted, minimumEffect) <= 1.0
    ensures SeparationFactor(adjusted, minimumEffect) > 0.0 ==> Significant(adjusted)
  {
    if adjusted.Some? && adjusted.value.lower > 0.0 {
      QuotientNonNegative(adjusted.value.lower, MaxReal(minimumEffect, 0.000000001));
    }
  }

  lemma RoundedQuarter(n: int, x: real)
    requires x * 10000.0 == n as real
    ensures Round4(x) == x
  {
    RoundInteger(n);
  }

  /** What each part of the confidence weighs: the sample alone, and then the effect, the separation and the guardrails. */
  lemma ConfidenceParts(minimumEffect: real)
    requires minimumEffect >= 0.000000001
    ensures
      var twice, separated := 2.0 * minimumEffect, Some(Bounds(minimumEffect, minimumEffect));
      && DecisionConfidence(Insufficient, 0.0, minimumEffect, None, false) == 0.045
      && DecisionConfidence(MinimumMet, 0.0, minimumEffect, None, false) == 0.135
      && DecisionConfidence(Adequate, 0.0, minimumEffect, None, false) == 0.225
      && DecisionConfidence(Strong, 0.0, minimumEffect, None, false) == 0.285
      && DecisionConfidence(Strong, minimumEffect, minimumEffect, None, false) == 0.41
      && DecisionConfidence(Strong, -twice, minimumEffect, None, false) == 0.535
      && DecisionConfidence(Strong, twice, minimumEffect, separated, false) == 0.885
      && DecisionConfidence(Strong, twice, minimumEffect, separated, true) == 0.985
  {
    DivideUnique(0.0, minimumEffect, 0.0);
    DivideUnique(minimumEffect, minimumEffect, 1.0);
    DivideUnique(2.0 * minimumEffect, minimumEffect, 2.0);
    RoundedQuarter(450, 0.045);
    RoundedQuarter(1350, 0.135);
    RoundedQuarter(2250, 0.225);
    RoundedQuarter(2850, 0.285);
    RoundedQuarter(4100, 0.41);
    RoundedQuarter(5350, 0.535);
    RoundedQuarter(8850, 0.885);
    RoundedQuarter(9850, 0.985);
  }

  // ---------------------------------------------------------------- the result kinds

  /** The variant meets every criterion of a winner, on the numbers the groups reported. */
  ghost predicate Proven(s: Settings, control: GroupMetrics, v: GroupMetrics) {
    && control.primary.Some? && v.primary.Some?
    && !PastLimit(s, control, v)
    && Round6(Lead(s.definition.direction, control.primary.value, v.primary.value)) >= s.definition.minimumEffect
    && Separated(s, control, v, s.confidence)
    && Separated(s, control, v, AdjustedConfidence(s.confidence, s.family))
    && ReportedConfidence(s, control, v) >= s.winnerConfidence
  }

  /** At this level the variant's statistics lie on the better side by more than the half-width. */
  ghost predicate Separated(s: Settings, control: GroupMetrics, v: GroupMetrics, level: real) {
    && control.stats.sampleSize > 0 && v.stats.sampleSize > 0
    && var h := HalfWidth(s.lib, s.definition.kind, control.stats, v.stats, level);
       match s.definition.kind
       case Mean => LeadsBy(s.definition.direction, control.stats.mean, v.stats.mean, h)
       case Rate => LeadsBy(s.definition.direction, Proportion(control.stats), Proportion(v.stats), h)
  }

  function ReportedConfidence(s: Settings, control: GroupMetrics, v: GroupMetrics): real
    requires control.primary.Some?
  {
    var c := Compare(s, control, control.primary.value, v);
    if c.Compared? then c.confidence else 0.0
  }

  lemma SeparatedMeans(s: Settings, control: GroupMetrics, v: GroupMetrics, level: real)
    ensures Significant(ImprovementInterval(s.definition.direction, DeltaInterval(s.lib, s.definition.kind, control.stats, v.stats, level)))
      <==> Separated(s, control, v, level)
  {
    EmptyGroupNeverSignificant(s.lib, s.definition.kind, s.definition.direction, control.stats, v.stats, level);
    if control.stats.sampleSize > 0 && v.stats.sampleSize > 0 {
      if s.definition.kind == Mean {
        SignificantMeanIff(s.lib, s.definition.direction, control.stats, v.stats, level);
      } else {
        SignificantRateIff(s.lib, s.definition.direction, control.stats, v.stats, level);
      }
    }
  }

  function Gain(s: Settings, control: GroupMetrics, v: GroupMetrics): real
    requires control.primary.Some? && v.primary.Some?
  {
    Round6(Lead(s.definition.direction, control.primary.value, v.primary.value))
  }

  /** A comparison qualifies exactly when the variant is proven on its numbers. */
  lemma QualifiesMeans(s: Settings, control: GroupMetrics, v: GroupMetrics)
    requires control.primary.Some? && s.definition.minimumEffect > 0.0
    ensures Qualifies(s.WinnerCriteria(), Compare(s, control, control.primary.value, v)) <==> Proven(s, control, v)
  {
    GuardrailMeans(s, control, v);
    SeparatedMeans(s, control, v, s.confidence);
    SeparatedMeans(s, control, v, AdjustedConfidence(s.confidence, s.family));
  }

  lemma ComparedFields(s: Settings, control: GroupMetrics, v: GroupMetrics)
    requires control.primary.Some?
    ensures
      var c := Compare(s, control, control.primary.value, v);
      && c.Compared? == v.primary.Some?
      && (c.Compared? ==> c.guardrailsOk == !PastLimit(s, control, v) && c.improvement == Gain(s, control, v))
  {
    GuardrailMeans(s, control, v);
  }

  /** The verdicts a comparison reports, each on the numbers of the two groups. */
  lemma ReportedVerdicts(s: Settings, control: GroupMetrics, v: GroupMetrics)
    requires control.primary.Some? && v.primary.Some?
    ensures
      var c := Compare(s, control, control.primary.value, v);
      && c.Compared? && c.sampleSize == v.sampleSize
      && (c.significant <==> Separated(s, control, v, s.confidence))
      && (c.adjustedSignificant <==> Separated(s, control, v, AdjustedConfidence(s.confidence, s.family)))
      && (c.practical <==> Gain(s, control, v) >= s.definition.minimumEffect || Gain(s, control, v) <= -s.definition.minimumEffect)
      && (c.detectableEffect.Some? <==> control.stats.sampleSize > 0 && v.stats.sampleSize > 0)
  {
    SeparatedMeans(s, control, v, s.confidence);
    SeparatedMeans(s, control, v, AdjustedConfidence(s.confidence, s.family));
  }

  lemma HalfOfSpread(difference: real, h: real)
    ensures
      var b := Spread(difference, h);
      Abs(Round6((b.upper - b.lower) / 2.0) - h) <= 0.000001
  {
    var x, y := (difference - h) * 1000000.0, (difference + h) * 1000000.0;
    RoundNearest(x);
    RoundNearest(y);
    var b := Spread(difference, h);
    assert Abs(b.lower - (difference - h)) <= 0.0000005 && Abs(b.upper - (difference + h)) <= 0.0000005;
    RoundNearest((b.upper - b.lower) / 2.0 * 1000000.0);
  }

  lemma DetectableReported(s: Settings, control: GroupMetrics, v: GroupMetrics, difference: real, h: real)
    requires control.primary.Some? && v.primary.Some? && PlainInterval(s, control, v) == Some(Spread(difference, h))
    ensures
      var c := Compare(s, control, control.primary.value, v);
      c.Compared? && c.detectableEffect.Some? && Abs(c.detectableEffect.value - h) <= 0.000001
  {
    HalfOfSpread(difference, h);
  }

  /** The detectable effect it reports is the half-width of the plain interval, to a millionth. */
  lemma DetectableIsHalfWidth(s: Settings, control: GroupMetrics, v: GroupMetrics)
    requires control.primary.Some? && v.primary.Some? && control.stats.sampleSize > 0 && v.stats.sampleSize > 0
    ensures
      var c := Compare(s, control, control.primary.value, v);
      && c.Compared? && c.detectableEffect.Some?
      && Abs(c.detectableEffect.value - HalfWidth(s.lib, s.definition.kind, control.stats, v.stats, s.confidence)) <= 0.000001
  {
    var h := HalfWidth(s.lib, s.definition.kind, control.stats, v.stats, s.confidence);
    if s.definition.kind == Mean {
      MeanIntervalCentre(s.lib, control.stats, v.stats, s.confidence);
      DetectableReported(s, control, v, v.stats.mean - control.stats.mean, h);
    } else {
      RateIntervalCentre(s.lib, control.stats, v.stats, s.confidence);
      DetectableReported(s, control, v, Proportion(v.stats) - Proportion(control.stats), h);
    }
  }

  lemma RequiredReported(s: Settings, control: GroupMetrics, v: GroupMetrics)
    requires control.primary.Some? && v.primary.Some?
    ensures
      var c := Compare(s, control, control.primary.value, v);
      c.Compared? && c.requiredSample == Required(s, control, control.primary.value)
  {
  }

  /** The sample asked for is planned from the control: for a mean from its deviation. */
  lemma RequiredForMean(s: Settings, control: GroupMetrics, baseline: real, variance: real, n: nat)
    requires s.Valid() && s.definition.kind == Mean && n >= 1
    requires variance == Square(control.stats.stddev)
    ensures
      var z, effect, required := s.lib.inverseNormal(0.5 + s.confidence / 2.0), s.definition.minimumEffect, Required(s, control, baseline);
      required.Some? && (n >= required.value <==> Covers(n, z, variance, effect))
  {
    SquareNonNegative(control.stats.stddev);
    SampleForMean(s.lib, baseline, s.definition.minimumEffect, s.confidence, variance, n);
  }

  /** For a rate from the rate it reports. */
  lemma RequiredForRate(s: Settings, control: GroupMetrics, baseline: real, raised: real, pooled: real, n: nat)
    requires s.Valid() && s.definition.kind == Rate && n >= 1
    requires 0.0 <= baseline && raised == baseline + s.definition.minimumEffect <= 1.0
    requires pooled == baseline * (1.0 - baseline) + raised * (1.0 - raised)
    ensures
      var z, effect, required := s.lib.inverseNormal(0.5 + s.confidence / 2.0), s.definition.minimumEffect, Required(s, control, baseline);
      required.Some? && (n >= required.value <==> Covers(n, z, pooled, effect))
  {
    SampleForRate(s.lib, baseline, s.definition.minimumEffect, s.confidence, Square(control.stats.stddev), pooled, n);
  }

  lemma SquareNonNegative(x: real)
    ensures x * x >= 0.0
  {
  }

  /** Proven, and ahead of every other proven variant by the minimum effect. */
  ghost predicate Wins(s: Settings, control: GroupMetrics, variants: seq<Variant>, v: Variant) {
    && v in variants && Proven(s, control, v.metrics)
    && forall o :: o in variants && o != v && Proven(s, control, o.metrics)
         ==> Gain(s, control, v.metrics) - Gain(s, control, o.metrics) >= s.definition.minimumEffect
  }

  ghost predicate NobodyProven(s: Settings, control: GroupMetrics, variants: seq<Variant>) {
    forall v :: v in variants ==> !Proven(s, control, v.metrics)
  }

  /** Every variant reports the metric and is past a limit. */
  ghost predicate AllPastLimits(s: Settings, control: GroupMetrics, variants: seq<Variant>) {
    variants != [] && forall v :: v in variants ==> v.metrics.primary.Some? && PastLimit(s, control, v.metrics)
  }

  /** The variant is within all limits and gains something. */
  ghost predicate SafeGain(s: Settings, control: GroupMetrics, v: GroupMetrics)
    requires control.primary.Some?
  {
    v.primary.Some? && !PastLimit(s, control, v) && Gain(s, control, v) > 0.0
  }

  ghost predicate SomeSafeGain(s: Settings, control: GroupMetrics, variants: seq<Variant>)
    requires control.primary.Some?
  {
    exists v :: v in variants && SafeGain(s, control, v.metrics)
  }

  ghost predicate ComparedInOrder(s: Settings, control: GroupMetrics, variants: seq<Variant>, entries: seq<Entry>) {
    && control.primary.Some? && s.definition.minimumEffect > 0.0
    && entries == CompareAll(s, control, control.primary.value, variants)
  }

  lemma NobodyProvenEntries(s: Settings, control: GroupMetrics, variants: seq<Variant>, entries: seq<Entry>)
    requires ComparedInOrder(s, control, variants, entries)
    ensures NobodyProven(s, control, variants) <==> forall e :: e in ToSet(entries) ==> !Qualifies(s.WinnerCriteria(), e.comparison)
  {
    forall i | 0 <= i < |variants|
      ensures Qualifies(s.WinnerCriteria(), entries[i].comparison) <==> Proven(s, control, variants[i].metrics)
    {
      QualifiesMeans(s, control, variants[i].metrics);
    }
    if NobodyProven(s, control, variants) {
      forall e | e in ToSet(entries) ensures !Qualifies(s.WinnerCriteria(), e.comparison) {
        var i :| 0 <= i < |entries| && entries[i] == e;
        assert variants[i] in variants;
      }
    } else {
      var v :| v in variants && Proven(s, control, v.metrics);
      var i :| 0 <= i < |variants| && variants[i] == v;
      assert entries[i] in ToSet(entries);
    }
  }

  lemma AllPastLimitsEntries(s: Settings, control: GroupMetrics, variants: seq<Variant>, entries: seq<Entry>)
    requires ComparedInOrder(s, control, variants, entries)
    ensures AllPastLimits(s, control, variants) <==> ToSet(entries) != {} && forall e :: e in ToSet(entries) ==> Unsafe(e)
  {
    forall i | 0 <= i < |variants|
      ensures entries[i] in ToSet(entries)
      ensures Unsafe(entries[i]) <==> variants[i].metrics.primary.Some? && PastLimit(s, control, variants[i].metrics)
    {
      ComparedFields(s, control, variants[i].metrics);
    }
    if AllPastLimits(s, control, variants) {
      assert entries[0] in ToSet(entries);
    } else if variants != [] {
      var v :| v in variants && !(v.metrics.primary.Some? && PastLimit(s, control, v.metrics));
      var i :| 0 <= i < |variants| && variants[i] == v;
      assert !Unsafe(entries[i]);
    }
  }

  lemma NoisyIff(s: Settings, control: GroupMetrics, variant: Variant)
    requires control.primary.Some?
    ensures NoisyPositive(Entry(variant.id, Compare(s, control, control.primary.value, variant.metrics)))
      <==> SafeGain(s, control, variant.metrics)
  {
    ComparedFields(s, control, variant.metrics);
  }

  lemma SomeSafeGainEntries(s: Settings, control: GroupMetrics, variants: seq<Variant>, entries: seq<Entry>)
    requires ComparedInOrder(s, control, variants, entries)
    ensures SomeSafeGain(s, control, variants) <==> exists e :: e in ToSet(entries) && NoisyPositive(e)
  {
    if v :| v in variants && SafeGain(s, control, v.metrics) {
      NoisyIff(s, control, v);
      var i :| 0 <= i < |variants| && variants[i] == v;
      assert entries[i] in ToSet(entries);
    }
    if e :| e in ToSet(entries) && NoisyPositive(e) {
      var i :| 0 <= i < |entries| && entries[i] == e;
      NoisyIff(s, control, variants[i]);
      assert variants[i] in variants;
    }
  }

  lemma WinsEntry(s: Settings, control: GroupMetrics, variants: seq<Variant>, entries: seq<Entry>, i: nat)
    requires ComparedInOrder(s, control, variants, entries) && DistinctVariants(variants) && i < |variants|
    ensures Wins(s, control, variants, variants[i]) <==> ClearlyBest(s.WinnerCriteria(), ToSet(entries), entries[i])
  {
    forall j | 0 <= j < |variants|
      ensures Qualifies(s.WinnerCriteria(), entries[j].comparison) <==> Proven(s, control, variants[j].metrics)
      ensures variants[j].metrics.primary.Some? ==> entries[j].comparison.Compared?
      ensures variants[j].metrics.primary.Some? ==> entries[j].comparison.improvement == Gain(s, control, variants[j].metrics)
      ensures entries[j] in ToSet(entries) && (entries[j] == entries[i] <==> j == i) && (variants[j] == variants[i] <==> j == i)
    {
      QualifiesMeans(s, control, variants[j].metrics);
      ComparedFields(s, control, variants[j].metrics);
    }
    if Wins(s, control, variants, variants[i]) {
      forall o | o in ToSet(entries) && o != entries[i] && Qualifies(s.WinnerCriteria(), o.comparison)
        ensures entries[i].comparison.improvement - o.comparison.improvement >= s.definition.minimumEffect
      {
        var j :| 0 <= j < |entries| && entries[j] == o;
        assert variants[j] in variants;
      }
    }
    if ClearlyBest(s.WinnerCriteria(), ToSet(entries), entries[i]) {
      forall o | o in variants && o != variants[i] && Proven(s, control, o.metrics)
        ensures Gain(s, control, variants[i].metrics) - Gain(s, control, o.metrics) >= s.definition.minimumEffect
      {
        var j :| 0 <= j < |variants| && variants[j] == o;
        assert entries[j] in ToSet(entries);
      }
    }
  }

  lemma WinsEntries(s: Settings, control: GroupMetrics, variants: seq<Variant>, entries: seq<Entry>, w: string)
    requires ComparedInOrder(s, control, variants, entries) && DistinctVariants(variants)
    ensures (exists v: Variant :: v.id == w && Wins(s, control, variants, v))
      <==> exists e: Entry :: e.id == w && ClearlyBest(s.WinnerCriteria(), ToSet(entries), e)
  {
    if v: Variant :| v.id == w && Wins(s, control, variants, v) {
      var i :| 0 <= i < |variants| && variants[i] == v;
      WinsEntry(s, control, variants, entries, i);
      assert entries[i].id == w;
    }
    if e: Entry :| e.id == w && ClearlyBest(s.WinnerCriteria(), ToSet(entries), e) {
      var i :| 0 <= i < |entries| && entries[i] == e;
      WinsEntry(s, control, variants, entries, i);
      assert variants[i].id == w;
    }
  }

  /** With enough data, when each result kind is given. */
  lemma ResultKinds(s: Settings, control: GroupMetrics, variants: seq<Variant>)
    requires s.Valid() && DistinctVariants(variants) && EnoughData(s, control, ToSet(variants)) && control.primary.Some?
    ensures
      var o := Evaluate(s, control, variants).outcome;
      && (o == UnsafeVariant <==> NobodyProven(s, control, variants) && AllPastLimits(s, control, variants))
      && (o == Inconclusive <==>
            NobodyProven(s, control, variants) && !AllPastLimits(s, control, variants) && SomeSafeGain(s, control, variants))
      && (o == ControlPreferred <==>
            NobodyProven(s, control, variants) && !AllPastLimits(s, control, variants) && !SomeSafeGain(s, control, variants))
      && (o == MultipleEquivalent || o.VariantPreferred? <==> !NobodyProven(s, control, variants))
  {
    var entries := CompareAll(s, control, control.primary.value, variants);
    EvaluateJudges(s, control, variants);
    JudgeMeetsReference(s.WinnerCriteria(), entries);
    NobodyProvenEntries(s, control, variants, entries);
    AllPastLimitsEntries(s, control, variants, entries);
    SomeSafeGainEntries(s, control, variants, entries);
  }

  lemma EvaluateJudges(s: Settings, control: GroupMetrics, variants: seq<Variant>)
    requires DistinctVariants(variants) && EnoughData(s, control, ToSet(variants)) && control.primary.Some?
    ensures Evaluate(s, control, variants) == Judge(s.WinnerCriteria(), CompareAll(s, control, control.primary.value, variants))
    ensures DistinctIds(CompareAll(s, control, control.primary.value, variants))
  {
    EnoughDataReported(s, control, variants);
  }

  lemma PreferredIff(k: Criteria, entries: seq<Entry>, w: string)
    requires DistinctIds(entries) && k.minimumEffect > 0.0
    ensures Judge(k, entries).outcome == VariantPreferred(w) <==> exists e: Entry :: e.id == w && ClearlyBest(k, ToSet(entries), e)
  {
    JudgeMeetsReference(k, entries);
    if e: Entry :| e.id == w && ClearlyBest(k, ToSet(entries), e) {
      assert Qualifies(k, e.comparison);
      ReferenceFunctional(k, ToSet(entries), Judge(k, entries).outcome, VariantPreferred(w));
    }
  }

  /** And which variant is preferred: the one that is proven and clear of every other proven one, if there is one. */
  lemma WinnerIff(s: Settings, control: GroupMetrics, variants: seq<Variant>, w: string)
    requires s.Valid() && DistinctVariants(variants) && EnoughData(s, control, ToSet(variants)) && control.primary.Some?
    ensures Evaluate(s, control, variants).outcome == VariantPreferred(w)
      <==> exists v: Variant :: v.id == w && Wins(s, control, variants, v)
  {
    var entries := CompareAll(s, control, control.primary.value, variants);
    EvaluateJudges(s, control, variants);
    PreferredIff(s.WinnerCriteria(), entries, w);
    WinsEntries(s, control, variants, entries, w);
  }

  /** Too little data, or no metric of the control, is said first. */
  lemma NoVerdictKinds(s: Settings, control: GroupMetrics, variants: seq<Variant>)
    requires s.Valid() && DistinctVariants(variants)
    ensures
      var o := Evaluate(s, control, variants).outcome;
      && (o == InsufficientData <==> !EnoughData(s, control, ToSet(variants)))
      && (o == MetricUnavailable <==> EnoughData(s, control, ToSet(variants)) && control.primary.None?)
  {
    EnoughDataReported(s, control, variants);
  }

  /** A preferred variant is on the better side of the control, by its reported value and by its statistics. */
  lemma WinnerIsBetter(s: Settings, control: GroupMetrics, variants: seq<Variant>, w: string) returns (v: Variant)
    requires s.Valid() && s.lib.Lawful() && DistinctVariants(variants)
    requires control.stats.Valid(s.definition.kind) && forall u :: u in variants ==> u.metrics.stats.Valid(s.definition.kind)
    requires Evaluate(s, control, variants).outcome == VariantPreferred(w)
    ensures v in variants && v.id == w
    ensures control.primary.Some? && v.metrics.primary.Some?
    ensures Better(s.definition.direction, control.primary.value, v.metrics.primary.value)
    ensures control.stats.sampleSize > 0 && v.metrics.stats.sampleSize > 0
    ensures s.definition.kind == Mean ==> Better(s.definition.direction, control.stats.mean, v.metrics.stats.mean)
    ensures s.definition.kind == Rate ==> Better(s.definition.direction, Proportion(control.stats), Proportion(v.metrics.stats))
  {
    v := PreferredVariant(s, control, variants, w);
    ImprovementMeans(s.definition.direction, control.primary.value, v.metrics.primary.value);
    if s.definition.kind == Mean {
      SignificantMeanIsBetter(s.lib, s.definition.direction, control.stats, v.metrics.stats, s.confidence);
    } else {
      SignificantRateIsBetter(s.lib, s.definition.direction, control.stats, v.metrics.stats, s.confidence);
    }
  }

  // ---------------------------------------------------------------- the lists it reports

  /** e qualifies, and no other qualifying entry leads it by the threshold. */
  ghost predicate Unled(k: Criteria, entries: seq<Entry>, e: Entry) {
    && e in entries && Qualifies(k, e.comparison)
    && forall o :: o in entries && Qualifies(k, o.comparison) ==> o.comparison.improvement - e.comparison.improvement < k.minimumEffect
  }

  lemma UnledIff(k: Criteria, entries: seq<Entry>, cs: seq<Candidate>, best: Candidate, e: Entry)
    requires cs == Candidates(k, entries) && best in cs && forall c :: c in cs ==> best.improvement >= c.improvement
    requires e in entries && Qualifies(k, e.comparison)
    ensures Unled(k, entries, e) <==> best.improvement - e.comparison.improvement < k.minimumEffect
  {
    var b :| b in entries && Qualifies(k, b.comparison) && best == Candidate(b.id, b.comparison.improvement);
    forall o | o in entries && Qualifies(k, o.comparison) ensures best.improvement >= o.comparison.improvement {
      assert Candidate(o.id, o.comparison.improvement) in cs;
    }
  }

  lemma MappedIds(cs: seq<Candidate>, id: string)
    ensures id in Map(CandidateId, cs) <==> exists c :: c in cs && c.id == id
  {
    if id in Map(CandidateId, cs) {
      var i :| 0 <= i < |cs| && Map(CandidateId, cs)[i] == id;
      assert cs[i] in cs;
    }
    if c :| c in cs && c.id == id {
      var i :| 0 <= i < |cs| && cs[i] == c;
      assert Map(CandidateId, cs)[i] == id;
    }
  }

  /** The best candidate and those behind it within the threshold. */
  function Close(cs: seq<Candidate>, threshold: real): seq<Candidate>
    requires cs != []
  {
    var sorted := SortByImprovement(cs);
    Filter(Within(sorted[0], threshold), sorted[1..])
  }

  lemma CloseMeans(cs: seq<Candidate>, threshold: real, c: Candidate)
    requires cs != [] && DistinctCandidates(cs) && threshold > 0.0
    ensures
      var best := SortByImprovement(cs)[0];
      c == best || c in Close(cs, threshold) <==> c in cs && best.improvement - c.improvement < threshold
  {
    SortedSplit(cs);
    var sorted := SortByImprovement(cs);
    BestOrClose(cs, sorted[0], sorted[1..], threshold, c);
  }

  lemma BestOrClose(cs: seq<Candidate>, best: Candidate, rest: seq<Candidate>, threshold: real, c: Candidate)
    requires best in cs && threshold > 0.0
    requires forall x :: x in rest <==> x in cs && x != best
    requires forall x :: x in cs ==> best.improvement >= x.improvement
    ensures c == best || c in Filter(Within(best, threshold), rest) <==> c in cs && best.improvement - c.improvement < threshold
  {
  }

  lemma EquivalentReported(k: Criteria, entries: seq<Entry>)
    requires Judge(k, entries).outcome == MultipleEquivalent
    ensures
      var cs := Candidates(k, entries);
      cs != [] && Judge(k, entries).equivalentVariants == [SortByImprovement(cs)[0].id] + Map(CandidateId, Close(cs, k.minimumEffect))
  {
  }

  /** c is a candidate the best one does not lead by the threshold. */
  ghost predicate NearBest(cs: seq<Candidate>, best: Candidate, threshold: real, c: Candidate) {
    c in cs && best.improvement - c.improvement < threshold
  }

  lemma ListedNearBest(cs: seq<Candidate>, threshold: real, id: string)
    requires cs != [] && DistinctCandidates(cs) && threshold > 0.0
    ensures
      var best := SortByImprovement(cs)[0];
      id in [best.id] + Map(CandidateId, Close(cs, threshold)) <==> exists c: Candidate :: c.id == id && NearBest(cs, best, threshold, c)
  {
    var best, close := SortByImprovement(cs)[0], Close(cs, threshold);
    MappedIds(close, id);
    if id in [best.id] + Map(CandidateId, close) {
      var c :| (c == best || c in close) && c.id == id;
      CloseMeans(cs, threshold, c);
    }
    if c: Candidate :| c.id == id && NearBest(cs, best, threshold, c) {
      CloseMeans(cs, threshold, c);
    }
  }

  /** The variants reported equivalent are the qualifying ones that no other qualifying one leads by the threshold. */
  lemma EquivalentsListed(k: Criteria, entries: seq<Entry>, id: string)
    requires DistinctIds(entries) && k.minimumEffect > 0.0
    requires Judge(k, entries).outcome == MultipleEquivalent
    ensures id in Judge(k, entries).equivalentVariants <==> exists e: Entry :: e.id == id && Unled(k, entries, e)
  {
    EquivalentReported(k, entries);
    CandidateIdsDistinct(k, entries);
    var cs := Candidates(k, entries);
    SortedSplit(cs);
    var best := SortByImprovement(cs)[0];
    ListedNearBest(cs, k.minimumEffect, id);
    if c: Candidate :| c.id == id && NearBest(cs, best, k.minimumEffect, c) {
      var e :| e in entries && Qualifies(k, e.comparison) && c == Candidate(e.id, e.comparison.improvement);
      UnledIff(k, entries, cs, best, e);
    }
    if e: Entry :| e.id == id && Unled(k, entries, e) {
      UnledIff(k, entries, cs, best, e);
      assert NearBest(cs, best, k.minimumEffect, Candidate(e.id, e.comparison.improvement));
    }
  }

  lemma MappedEntries(entries: seq<Entry>, id: string)
    ensures id in Map(EntryId, entries) <==> exists e :: e in entries && e.id == id
  {
    if id in Map(EntryId, entries) {
      var i :| 0 <= i < |entries| && Map(EntryId, entries)[i] == id;
      assert entries[i] in entries;
    }
    if e :| e in entries && e.id == id {
      var i :| 0 <= i < |entries| && entries[i] == e;
      assert Map(EntryId, entries)[i] == id;
    }
  }

  lemma UnsafeReported(k: Criteria, entries: seq<Entry>)
    ensures Judge(k, entries).unsafeVariants == Map(EntryId, Filter(Unsafe, entries))
  {
  }

  /** The variants reported unsafe are those past a limit, in every verdict on comparisons. */
  lemma UnsafeListed(k: Criteria, entries: seq<Entry>, id: string)
    ensures id in Judge(k, entries).unsafeVariants
      <==> exists e :: e in entries && e.id == id && e.comparison.Compared? && !e.comparison.guardrailsOk
  {
    UnsafeReported(k, entries);
    MappedEntries(Filter(Unsafe, entries), id);
  }
}
