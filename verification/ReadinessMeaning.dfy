/** What promotion readiness means on the fields of a request (evaluate_promotion_readiness in graph/planner_policy_experiment.py). */
module ReadinessMeaning {
  import opened Numerics
  import opened Prelude
  import opened ExperimentMetrics
  import opened ExperimentEvaluation
  import opened ExperimentMeaning
  import opened PromotionReadiness

  // ---------------------------------------------------------------- stability over time

  /** Both groups have two windows of records, and the metric could be read in all four. */
  predicate EnoughRecords(w: Windows, minimumPerWindow: nat) {
    w.Windows? && w.control >= minimumPerWindow + minimumPerWindow && w.winner >= minimumPerWindow + minimumPerWindow && w.effects.Some?
  }

  /** A winner degrades when it is behind in the recent half, however good the early one was; it improves only above the threshold in both. */
  lemma StabilityMeans(w: Windows, minimumPerWindow: nat, threshold: real)
    requires threshold > 0.0
    ensures
      var status := TemporalStability(w, minimumPerWindow, threshold);
      && (status == TooFewRecords <==> !EnoughRecords(w, minimumPerWindow))
      && (status == Degrading <==> EnoughRecords(w, minimumPerWindow) && w.effects.value.1 < 0.0)
      && (status == Improving <==>
            && EnoughRecords(w, minimumPerWindow)
            && w.effects.value.0 >= threshold && w.effects.value.1 > w.effects.value.0)
  {
  }

  // ---------------------------------------------------------------- secondary metrics

  /** A metric both groups report, by how far the winner improved on the control. */
  predicate Improves(m: SecondaryMetric, atLeast: real) {
    m.control.Some? && m.winner.Some? && Round6(Lead(m.direction, m.control.value, m.winner.value)) >= atLeast
  }

  predicate Worsens(m: SecondaryMetric, atLeast: real) {
    m.control.Some? && m.winner.Some? && Round6(Lead(m.direction, m.control.value, m.winner.value)) <= -atLeast
  }

  /** Below zero, but by less than the threshold. */
  predicate Slips(m: SecondaryMetric) {
    m.control.Some? && m.winner.Some? && -m.threshold < Round6(Lead(m.direction, m.control.value, m.winner.value)) < 0.0
  }

  lemma ClassMeans(m: SecondaryMetric)
    requires m.threshold > 0.0
    ensures Classify(m) == Some(Contradictory) <==> Worsens(m, m.threshold)
    ensures Classify(m) == Some(Supportive) <==> Improves(m, m.threshold)
    ensures Classify(m) == Some(Mixed) <==> Slips(m)
    ensures Classify(m).None? <==> m.control.None? || m.winner.None?
  {
  }

  /** The worst metric names the whole: one contradiction outweighs any support, and so does one slip. */
  lemma OverallMeans(metrics: seq<SecondaryMetric>)
    requires forall m :: m in metrics ==> m.threshold > 0.0
    ensures
      var worsens, slips := exists m :: m in metrics && Worsens(m, m.threshold), exists m :: m in metrics && Slips(m);
      && (Overall(metrics) == Contradictory <==> worsens)
      && (Overall(metrics) == Mixed <==> slips && !worsens)
      && (Overall(metrics) == Supportive <==> (exists m :: m in metrics && Improves(m, m.threshold)) && !slips && !worsens)
  {
    forall m | m in metrics
      ensures Classify(m) == Some(Contradictory) <==> Worsens(m, m.threshold)
      ensures Classify(m) == Some(Supportive) <==> Improves(m, m.threshold)
      ensures Classify(m) == Some(Mixed) <==> Slips(m)
    {
      ClassMeans(m);
    }
    OccursIn(metrics, Contradictory);
    OccursIn(metrics, Mixed);
    OccursIn(metrics, Supportive);
  }

  lemma OccursIn(metrics: seq<SecondaryMetric>, c: Consistency)
    ensures Occurs(metrics, c) <==> exists m :: m in metrics && Classify(m) == Some(c)
  {
    if m :| m in metrics && Classify(m) == Some(c) {
      var i :| 0 <= i < |metrics| && metrics[i] == m;
    }
  }

  // ---------------------------------------------------------------- numbers read from two dictionaries

  /** x is the first number of the list that is there and not zero, or the default. */
  predicate FirstNumber(x: real, a: Option<real>, b: Option<real>, default: real) {
    var hasA, hasB := a.Some? && a.value != 0.0, b.Some? && b.value != 0.0;
    if hasA then a == Some(x) else if hasB then b == Some(x) else x == default
  }

  /** Where each number comes from: the statistics before the comparison, the summary before both. */
  lemma NumbersRead(q: Request)
    ensures FirstNumber(Confidence(q), q.summaryConfidence, Stats(q).confidence, 0.0)
    ensures FirstNumber(MinimumEffect(q), Stats(q).minimumEffect, Found(q).minimumEffect, 0.03)
    ensures exists x: real :: FirstNumber(x, Stats(q).delta, Found(q).improvement, 0.0) && Effect(q) == Abs(x)
    ensures SampleSize(q) == Found(q).sampleSize || (Found(q).sampleSize == 0 && SampleSize(q) == q.fallbackSample)
  {
    assert FirstNumber(NonZero(Stats(q).delta, NonZero(Found(q).improvement, 0.0)), Stats(q).delta, Found(q).improvement, 0.0);
  }

  // ---------------------------------------------------------------- the verdicts

  predicate SampleShort(q: Request) {
    SampleSize(q) < q.minimumSampleSize || (Stats(q).required.Some? && SampleSize(q) as real < Stats(q).required.value)
  }

  predicate Unproven(q: Request) {
    !Found(q).significant || !Found(q).adjustedSignificant || Confidence(q) < q.winnerConfidence
  }

  /** The measured effect is smaller than the smallest one the sample could detect. */
  predicate TooSmallToSee(q: Request) {
    Stats(q).detectable.Some? && Effect(q) < Stats(q).detectable.value
  }

  predicate Contradicted(q: Request) {
    exists m :: m in q.secondary && Worsens(m, m.threshold)
  }

  predicate Fading(q: Request) {
    EnoughRecords(q.windows, q.minimumPerWindow) && q.windows.effects.value.1 < 0.0
  }

  predicate Endangers(q: Request) {
    Found(q).unsafe || q.criticalSafety
  }

  predicate Thresholds(q: Request) {
    q.metricEffect > 0.0 && forall m :: m in q.secondary ==> m.threshold > 0.0
  }

  function ScoreOf(q: Request): int {
    ScoreAverage(Dimensions(q))
  }

  /** Ready: a named winner that endangers nothing, is proven on a full sample, uncontradicted, not fading, current, and scores enough. */
  lemma ReadyIff(q: Request)
    requires Thresholds(q)
    ensures IsReady(q) <==>
      && q.result == "variant_preferred" && q.winner.Some? && q.winner.value != ""
      && !Endangers(q) && !SampleShort(q) && !Unproven(q) && !TooSmallToSee(q)
      && !Contradicted(q) && !Fading(q) && q.baselineCurrent && ScoreOf(q) >= q.threshold
  {
    StabilityMeans(q.windows, q.minimumPerWindow, q.metricEffect);
    OverallMeans(q.secondary);
  }

  /** What the winner does in the recent half alone can stop it: behind there, it is never ready. */
  lemma FadingNeverReady(q: Request)
    requires q.metricEffect > 0.0 && EnoughRecords(q.windows, q.minimumPerWindow) && q.windows.effects.value.1 < 0.0
    ensures !IsReady(q)
  {
    StabilityMeans(q.windows, q.minimumPerWindow, q.metricEffect);
  }

  predicate EvidenceMissing(q: Request) {
    SampleShort(q) || Unproven(q) || TooSmallToSee(q)
  }

  /** A status that fits the facts says what comes first: danger, missing evidence, contradiction or fading, an old baseline. */
  lemma StatusMeans(q: Request, status: Status)
    requires Thresholds(q) && StatusFits(FactsOf(q), status)
    ensures status == BlockedByGuardrail <==> Endangers(q)
    ensures status == Unstable <==> !Endangers(q) && !EvidenceMissing(q) && (Contradicted(q) || Fading(q))
    ensures status == InconclusiveStatus <==>
      !Endangers(q) && !EvidenceMissing(q) && !Contradicted(q) && !Fading(q) && !q.baselineCurrent
    ensures status == NeedsMoreData <==>
      !Endangers(q)
      && (EvidenceMissing(q) || (!Contradicted(q) && !Fading(q) && q.baselineCurrent && ScoreOf(q) < q.threshold))
  {
    StabilityMeans(q.windows, q.minimumPerWindow, q.metricEffect);
    OverallMeans(q.secondary);
  }

  /** Which codes a report gives, whatever its status. */
  lemma CodesMean(q: Request)
    ensures
      var f := FactsOf(q);
      && (f.Applies(GuardrailViolation) <==> Endangers(q))
      && (f.Applies(ConfidenceInsufficient) <==> Unproven(q))
      && (f.Applies(MdeTooLarge) <==> TooSmallToSee(q))
      && (f.Applies(PolicyRiskHigh) <==> q.riskLevel == "high" || q.riskLevel == "critical")
      && !f.Applies(NoWinnerFound)
  {
  }

  /** Those on the other metrics. */
  lemma ConsistencyCodesMean(q: Request)
    requires Thresholds(q)
    ensures
      var f := FactsOf(q);
      && (f.Applies(SecondaryMetricsContradictory) <==> Contradicted(q))
      && (f.Applies(SecondaryMetricsMixed) <==> !Contradicted(q) && exists m :: m in q.secondary && Slips(m))
  {
    OverallMeans(q.secondary);
  }

  /** And that on time. */
  lemma TemporalCodeMeans(q: Request)
    requires Thresholds(q)
    ensures FactsOf(q).Applies(TemporalInstability) <==> Fading(q)
  {
    StabilityMeans(q.windows, q.minimumPerWindow, q.metricEffect);
  }

  /** And the three that depend on the status as well. */
  lemma StatusCodesMean(q: Request, status: Status)
    requires StatusFits(FactsOf(q), status)
    ensures
      var f := FactsOf(q);
      && (f.Applies(PromotionReady) <==> status == Ready)
      && (f.Applies(ExperimentInconclusive) <==> !Found(q).practical || status == InconclusiveStatus)
      && (SampleShort(q) ==> f.Applies(SampleInsufficient))
      && (f.Applies(SampleInsufficient) ==> SampleShort(q) || (status == NeedsMoreData && ScoreOf(q) < q.threshold))
  {
  }

  /** A result without a winner is answered by its own status and code. */
  lemma WithoutWinner(result: string)
    ensures
      var (status, code) := StatusWithoutWinner(result);
      && (status == BlockedByGuardrail <==> result == "unsafe_variant") && (code == GuardrailViolation <==> result == "unsafe_variant")
      && (status == NeedsMoreData <==> result == "insufficient_data") && (code == SampleInsufficient <==> result == "insufficient_data")
      && (status == NoWinner <==> result == "control_preferred") && (code == NoWinnerFound <==> result == "control_preferred")
      && status in {BlockedByGuardrail, NeedsMoreData, NoWinner, InconclusiveStatus}
      && (status == InconclusiveStatus <==> code == ExperimentInconclusive)
  {
  }

  // ---------------------------------------------------------------- the score

  function Sum(s: seq<int>): int {
    if s == [] then 0 else s[0] + Sum(s[1..])
  }

  lemma {:induction false} ClampedSum(s: seq<int>)
    requires forall x :: x in s ==> 0 <= x <= 100
    ensures SumClamped(s) == Sum(s)
  {
    if s != [] {
      assert s[0] in s && forall x :: x in s[1..] ==> x in s;
      ClampedSum(s[1..]);
    }
  }

  lemma CastProduct(n: int, r: int)
    ensures (n * r) as real == n as real * r as real
  {
  }

  lemma ScaledGap(k: real, mean: real, r: real, gap: real, scaled: real, total: real)
    requires scaled == k * r && total == k * mean && gap == r - mean
    ensures scaled - total == k * gap
  {
    assert k * (r - mean) == k * r - k * mean;
  }

  lemma NearMean(k: real, gap: real, difference: real)
    requires k > 0.0 && -0.5 <= gap <= 0.5 && difference == k * gap
    ensures -k <= 2.0 * difference <= k
  {
    ProductNonNegative(k, 0.5 - gap);
    ProductNonNegative(k, gap + 0.5);
    assert k * (0.5 - gap) == 0.5 * k - difference && k * (gap + 0.5) == difference + 0.5 * k;
  }

  lemma RoundedMean(total: int, n: int, r: int)
    requires n > 0 && r == RoundHalfEven(total as real / n as real)
    ensures -n <= 2 * (n * r - total) <= n
  {
    var mean, scaled := total as real / n as real, n * r;
    RoundNearest(mean);
    CastProduct(n, r);
    ScaledGap(n as real, mean, r as real, r as real - mean, scaled as real, total as real);
    NearMean(n as real, r as real - mean, scaled as real - total as real);
  }

  /** The score is the mean of the dimensions, to half a point. */
  lemma ScoreIsMean(s: seq<int>)
    requires s != [] && forall x :: x in s ==> 0 <= x <= 100
    ensures -|s| <= 2 * (|s| * ScoreAverage(s) - Sum(s)) <= |s|
  {
    ClampedSum(s);
    RoundedMean(Sum(s), |s|, ScoreAverage(s));
  }

  /** The four dimensions that are read off: safety, the secondary metrics, stability and the policy's risk. */
  lemma ReadOffDimensions(q: Request)
    requires Thresholds(q)
    ensures
      var d := Dimensions(q);
      && |d| == 7
      && d[3] == (if Endangers(q) then 0 else 100)
      && (Contradicted(q) ==> d[4] == 20) && (!Contradicted(q) ==> d[4] >= 60)
      && (!Contradicted(q) && (exists m :: m in q.secondary && Slips(m)) <==> d[4] == 60)
      && (Fading(q) <==> d[5] == 20) && (!EnoughRecords(q.windows, q.minimumPerWindow) <==> d[5] == 70)
      && (d[6] == 100 <==> q.riskLevel == "low") && (d[6] == 85 <==> q.riskLevel == "medium")
      && (d[6] == 65 <==> q.riskLevel == "high") && (d[6] == 35 <==> q.riskLevel == "critical")
      && d[6] in {100, 85, 80, 65, 35}
  {
    StabilityMeans(q.windows, q.minimumPerWindow, q.metricEffect);
    OverallMeans(q.secondary);
  }

  lemma RoundedBetween(x: real, low: int, high: int)
    requires low as real <= x <= high as real
    ensures low <= RoundHalfEven(x) <= high
  {
    RoundMonotone(low as real, x);
    RoundMonotone(x, high as real);
    RoundInteger(low);
    RoundInteger(high);
  }

  /** Without significance 35; with it from 70 up with the confidence, 100 at full confidence. */
  lemma StrengthDimension(q: Request)
    requires 0.0 <= Confidence(q) <= 1.0
    ensures
      var d, proven := Dimensions(q)[0], Found(q).significant && Found(q).adjustedSignificant;
      && (!proven ==> d == 35)
      && (proven ==> 70 <= d <= 100)
      && (proven && Confidence(q) == 1.0 ==> d == 100)
      && (proven && (Stats(q).adjustedLower.None? || Stats(q).adjustedLower.value <= 0.0) ==>
            Abs(d as real - (70.0 + 30.0 * Confidence(q))) <= 0.5)
  {
    var lower, minimum := Stats(q).adjustedLower.GetOr(0.0), MaxReal(MinimumEffect(q), 0.000000001);
    var base := 70.0 + MinReal(30.0, Confidence(q) * 30.0);
    if lower > 0.0 {
      QuotientNonNegative(lower, minimum);
      RoundedBetween(MinReal(100.0, base + MinReal(10.0, lower / minimum * 5.0)), 70, 100);
      if Confidence(q) == 1.0 {
        RoundInteger(100);
      }
    }
    RoundedBetween(base, 70, 100);
    RoundNearest(base);
    RoundInteger(35);
    RoundInteger(100);
  }

  /** A planned sample scores 80 when it is reached, 100 from a quarter more on and never under 20; without a plan the minimum decides. */
  lemma SampleDimension(q: Request)
    ensures
      var d, required := Dimensions(q)[1], Stats(q).required;
      && (required.None? || required.value <= 0.0 ==> d == if SampleShort(q) then 35 else 55)
      && (required.Some? && required.value > 0.0 ==>
            && 20 <= d <= 100
            && (SampleSize(q) as real == required.value ==> d == 80)
            && (SampleSize(q) as real >= 1.25 * required.value ==> d == 100)
            && (SampleSize(q) as real <= 0.25 * required.value ==> d == 20))
  {
    RoundInteger(35);
    RoundInteger(55);
    var required := Stats(q).required;
    if required.Some? && required.value > 0.0 {
      var n, r := SampleSize(q) as real, required.value;
      SampleShare(n, r);
      RoundedBetween(MinReal(100.0, MaxReal(20.0, n / r * 80.0)), 20, 100);
      RoundInteger(80);
      RoundInteger(100);
      RoundInteger(20);
    }
  }

  lemma ShareAtLeast(n: real, r: real, share: real, c: real)
    requires r > 0.0 && r * share == n
    ensures share >= c <==> n >= r * c
    ensures share <= c <==> n <= r * c
  {
    ScaleOrder(c, share, r);
    ScaleOrder(share, c, r);
  }

  lemma SampleShare(n: real, r: real)
    requires r > 0.0
    ensures n == r ==> n / r == 1.0
    ensures n >= 1.25 * r ==> n / r >= 1.25
    ensures n <= 0.25 * r ==> n / r <= 0.25
  {
    var share := n / r;
    ShareAtLeast(n, r, share, 1.0);
    ShareAtLeast(n, r, share, 1.25);
    ShareAtLeast(n, r, share, 0.25);
  }

  /** An effect of the minimum size scores 35, twice that 70, and no effect nothing. */
  lemma EffectDimension(q: Request)
    requires MinimumEffect(q) >= 0.000000001
    ensures
      var d := Dimensions(q)[2];
      && 0 <= d <= 100
      && (Effect(q) == 0.0 ==> d == 0)
      && (Effect(q) == MinimumEffect(q) ==> d == 35)
      && (Effect(q) == 2.0 * MinimumEffect(q) ==> d == 70)
      && (Effect(q) >= 3.0 * MinimumEffect(q) ==> d == 100)
  {
    var e, m := Effect(q), MinimumEffect(q);
    EffectShare(e, m);
    RoundedBetween(MinReal(100.0, e / m * 35.0), 0, 100);
    RoundInteger(0);
    RoundInteger(35);
    RoundInteger(70);
    RoundInteger(100);
  }

  lemma EffectShare(e: real, m: real)
    requires e >= 0.0 && m > 0.0
    ensures e / m >= 0.0
    ensures e == 0.0 ==> e / m == 0.0
    ensures e == m ==> e / m == 1.0
    ensures e == 2.0 * m ==> e / m == 2.0
    ensures e >= 3.0 * m ==> e / m >= 3.0
  {
    var share := e / m;
    ShareAtLeast(e, m, share, 0.0);
    ShareAtLeast(e, m, share, 1.0);
    ShareAtLeast(e, m, share, 2.0);
    ShareAtLeast(e, m, share, 3.0);
  }
}
