/** The Wilson score interval of graph/planner_policy_experiment.py, over exact reals. */
module WilsonInterval {
  import opened Numerics

  /** The estimate and the two bounds before clamping and rounding. */
  datatype ScoreBounds = ScoreBounds(estimate: real, lower: real, upper: real)

  datatype Interval = Unavailable | Interval(estimate: real, ciLower: real, ciUpper: real)

  function Proportion(successes: nat, n: nat): real
    requires n > 0
  {
    successes as real / n as real
  }

  /** z squared over the sample size: the weight of the Wilson correction. */
  function Weight(n: nat, z: real): real
    requires n > 0
  {
    z * z / n as real
  }

  function Radicand(successes: nat, n: nat, z: real): real
    requires n > 0
  {
    var p := Proportion(successes, n);
    (p * (1.0 - p) + z * z / (4.0 * n as real)) / n as real
  }

  function RawBounds(lib: MathLibrary, successes: nat, n: nat, z: real): (b: ScoreBounds)
    requires n > 0
  {
    var p := Proportion(successes, n);
    WeightNonNegative(n, z);
    var denominator := 1.0 + z * z / n as real;
    var center := (p + z * z / (2.0 * n as real)) / denominator;
    var margin := z * lib.sqrt(Radicand(successes, n, z)) / denominator;
    ScoreBounds(p, center - margin, center + margin)
  }

  function WilsonInterval(lib: MathLibrary, successes: nat, n: int, confidence: real): Interval {
    if n <= 0 then Unavailable
    else
      var b := RawBounds(lib, successes, n, lib.ZScore(confidence));
      Interval(
        Round6(b.estimate),
        Round6(if b.lower > 0.0 then b.lower else 0.0),
        Round6(if b.upper < 1.0 then b.upper else 1.0))
  }

  lemma WeightNonNegative(n: nat, z: real)
    requires n > 0
    ensures Weight(n, z) >= 0.0
    ensures z * z / n as real == Weight(n, z)
  {
    assert z * z >= 0.0;
  }

  // ---------------------------------------------------------------- algebra of the quadratic

  /** The score-test polynomial: a proportion x is accepted at weight w exactly when this is not positive. */
  function Score(p: real, w: real, x: real): real {
    (x - p) * (x - p) - w * (x * (1.0 - x))
  }

  /** Half the distance between the roots of Score, times 1 + w. */
  ghost predicate IsSpread(p: real, w: real, m: real) {
    m >= 0.0 && m * m == w * (p * (1.0 - p)) + w * w / 4.0
  }

  /** Score as a quadratic in x with leading coefficient 1 + w. */
  lemma ScoreQuadratic(p: real, w: real, x: real)
    ensures Score(p, w, x) == (1.0 + w) * (x * x) - 2.0 * (x * (p + w / 2.0)) + p * p
  {
    var xx := x * x;
    assert (x - p) * (x - p) == xx - 2.0 * (x * p) + p * p;
    assert x * (1.0 - x) == x - xx;
    assert w * (x - xx) == w * x - w * xx;
    assert x * (p + w / 2.0) == x * p + w * x / 2.0;
    assert (1.0 + w) * xx == xx + w * xx;
  }

  lemma CentreSquared(p: real, w: real)
    ensures (p + w / 2.0) * (p + w / 2.0) == p * p + w * p + w * w / 4.0
  {
  }

  lemma SpreadGap(p: real, w: real, m: real)
    requires IsSpread(p, w, m)
    ensures (p + w / 2.0) * (p + w / 2.0) - m * m == (1.0 + w) * (p * p)
  {
    CentreSquared(p, w);
    var pp := p * p;
    assert p * (1.0 - p) == p - pp;
    assert w * (p - pp) == w * p - w * pp;
  }

  lemma ScaledQuadratic(k: real, x: real, c: real, pp: real)
    ensures k * (k * (x * x) - 2.0 * (x * c) + pp) == (k * x) * (k * x) - 2.0 * ((k * x) * c) + k * pp
  {
    var xx, xc := x * x, x * c;
    assert k * (k * xx - 2.0 * xc + pp) == k * (k * xx) - 2.0 * (k * xc) + k * pp;
    assert (k * x) * (k * x) == k * (k * xx);
    assert (k * x) * c == k * xc;
  }

  /** Completing the square: (1 + w) times Score is a square minus the spread squared. */
  lemma CompleteSquare(p: real, w: real, m: real, x: real)
    requires IsSpread(p, w, m)
    ensures
      var d := (1.0 + w) * x - (p + w / 2.0);
      (1.0 + w) * Score(p, w, x) == d * d - m * m
  {
    var k, c := 1.0 + w, p + w / 2.0;
    var u := k * x;
    ScoreQuadratic(p, w, x);
    ScaledQuadratic(k, x, c, p * p);
    SpreadGap(p, w, m);
    assert (u - c) * (u - c) == u * u - 2.0 * (u * c) + c * c;
  }

  // ---------------------------------------------------------------- the code's bounds

  lemma ProportionRange(successes: nat, n: nat)
    requires successes <= n && n > 0
    ensures 0.0 <= Proportion(successes, n) <= 1.0
  {
    QuotientOrder(0.0, successes as real, n as real);
    QuotientOrder(successes as real, n as real, n as real);
  }

  lemma WeightParts(n: nat, z: real)
    requires n > 0
    ensures z * z / (2.0 * n as real) == Weight(n, z) / 2.0
    ensures z * z / (4.0 * n as real) == Weight(n, z) / 4.0
  {
    var r, w := n as real, Weight(n, z);
    assert w * r == z * z;
    DivideUnique(z * z, 2.0 * r, w / 2.0);
    DivideUnique(z * z, 4.0 * r, w / 4.0);
  }

  /** z times the root in the code is the spread of the quadratic. */
  lemma MarginIsSpread(lib: MathLibrary, successes: nat, n: nat, z: real)
    requires lib.Lawful() && z >= 0.0
    requires successes <= n && n > 0
    ensures Radicand(successes, n, z) >= 0.0
    ensures IsSpread(Proportion(successes, n), Weight(n, z), z * lib.sqrt(Radicand(successes, n, z)))
  {
    var p, w, g := Proportion(successes, n), Weight(n, z), Radicand(successes, n, z);
    ProportionRange(successes, n);
    WeightNonNegative(n, z);
    WeightParts(n, z);
    var v := p * (1.0 - p);
    ProductNonNegative(p, 1.0 - p);
    QuotientOrder(0.0, v + w / 4.0, n as real);
    assert 0.0 / n as real == 0.0;
    var root := lib.sqrt(g);
    RadicandScaled(z * z, n as real, v + w / 4.0, w);
    assert (z * root) * (z * root) == (z * z) * (root * root);
    assert w * (v + w / 4.0) == w * v + w * w / 4.0;
    assert z * root >= 0.0;
  }

  lemma RadicandScaled(zz: real, n: real, h: real, w: real)
    requires n > 0.0 && w == zz / n
    ensures zz * (h / n) == w * h
  {
    var q := h / n;
    assert q * n == h && w * n == zz;
    assert (w * n) * q == w * (q * n);
  }

  /** Multiplied by 1 + w the bounds are the centre minus and plus the spread. */
  lemma ScaledBounds(lib: MathLibrary, successes: nat, n: nat, z: real)
    requires n > 0
    ensures
      var b, p, w := RawBounds(lib, successes, n, z), Proportion(successes, n), Weight(n, z);
      var m := z * lib.sqrt(Radicand(successes, n, z));
      && w >= 0.0
      && b.estimate == p
      && (1.0 + w) * b.lower == (p + w / 2.0) - m
      && (1.0 + w) * b.upper == (p + w / 2.0) + m
  {
    var p, w := Proportion(successes, n), Weight(n, z);
    WeightNonNegative(n, z);
    WeightParts(n, z);
    var m := z * lib.sqrt(Radicand(successes, n, z));
    var k, c := 1.0 + w, p + w / 2.0;
    assert c / k * k == c && m / k * k == m;
    assert k * (c / k - m / k) == k * (c / k) - k * (m / k);
    assert k * (c / k + m / k) == k * (c / k) + k * (m / k);
  }

  lemma BetweenRoots(k: real, c: real, m: real, lower: real, upper: real, score: real, x: real)
    requires k > 0.0 && m >= 0.0
    requires k * lower == c - m && k * upper == c + m
    requires k * score == (k * x - c) * (k * x - c) - m * m
    ensures lower <= x <= upper <==> score <= 0.0
  {
    ScaleOrder(lower, x, k);
    ScaleOrder(x, upper, k);
    ScaleOrder(score, 0.0, k);
    BetweenSquares(k * x - c, m);
  }

  /** The bounds are the roots of the quadratic, named so that later proofs need not look inside them. */
  lemma Roots(lib: MathLibrary, successes: nat, n: nat, z: real) returns (m: real)
    requires lib.Lawful() && z >= 0.0
    requires successes <= n && n > 0
    ensures
      var b, p, w := RawBounds(lib, successes, n, z), Proportion(successes, n), Weight(n, z);
      && w >= 0.0 && b.estimate == p && IsSpread(p, w, m)
      && (1.0 + w) * b.lower == (p + w / 2.0) - m
      && (1.0 + w) * b.upper == (p + w / 2.0) + m
  {
    m := z * lib.sqrt(Radicand(successes, n, z));
    MarginIsSpread(lib, successes, n, z);
    ScaledBounds(lib, successes, n, z);
  }

  lemma RootsInvert(p: real, w: real, m: real, lower: real, upper: real, score: real, x: real)
    requires w >= 0.0 && m >= 0.0
    requires (1.0 + w) * lower == (p + w / 2.0) - m && (1.0 + w) * upper == (p + w / 2.0) + m
    requires (1.0 + w) * score == ((1.0 + w) * x - (p + w / 2.0)) * ((1.0 + w) * x - (p + w / 2.0)) - m * m
    ensures lower <= x <= upper <==> score <= 0.0
  {
    BetweenRoots(1.0 + w, p + w / 2.0, m, lower, upper, score, x);
  }

  /** Inside the unrounded interval is exactly: not rejected by the score test at this z. */
  lemma InvertsScoreTest(lib: MathLibrary, successes: nat, n: nat, z: real, x: real)
    requires lib.Lawful() && z >= 0.0
    requires successes <= n && n > 0
    ensures
      var b := RawBounds(lib, successes, n, z);
      b.lower <= x <= b.upper <==> Score(Proportion(successes, n), Weight(n, z), x) <= 0.0
  {
    var m := Roots(lib, successes, n, z);
    var b := RawBounds(lib, successes, n, z);
    var p, w := Proportion(successes, n), Weight(n, z);
    CompleteSquare(p, w, m, x);
    RootsInvert(p, w, m, b.lower, b.upper, Score(p, w, x), x);
  }

  /** The score test as a statistician writes it: n (x - p)^2 <= z^2 x (1 - x). */
  lemma ScoreTestScaled(successes: nat, n: nat, z: real, x: real)
    requires n > 0
    ensures
      var p := Proportion(successes, n);
      Score(p, Weight(n, z), x) <= 0.0 <==> n as real * ((x - p) * (x - p)) <= z * z * (x * (1.0 - x))
  {
    WeightTimes(n, z);
    ScaledScore(Proportion(successes, n), Weight(n, z), z * z, n as real, x);
  }

  lemma ScaledScore(p: real, w: real, zz: real, r: real, x: real)
    requires r > 0.0 && w * r == zz
    ensures Score(p, w, x) <= 0.0 <==> r * ((x - p) * (x - p)) <= zz * (x * (1.0 - x))
  {
    RescaledTest((x - p) * (x - p), w, zz, x * (1.0 - x), r);
  }

  lemma WeightTimes(n: nat, z: real)
    requires n > 0
    ensures Weight(n, z) * n as real == z * z
  {
  }

  lemma RescaledTest(s: real, w: real, zz: real, v: real, r: real)
    requires r > 0.0 && w * r == zz
    ensures s - w * v <= 0.0 <==> r * s <= zz * v
  {
    ScaleOrder(s, w * v, r);
    Reassociated(r, w, v);
  }

  lemma Reassociated(r: real, w: real, v: real)
    ensures r * (w * v) == (w * r) * v
  {
  }

  lemma LowerRootNonNegative(p: real, w: real, m: real, lower: real)
    requires w >= 0.0 && 0.0 <= p && IsSpread(p, w, m)
    requires (1.0 + w) * lower == (p + w / 2.0) - m
    ensures lower >= 0.0
  {
    SpreadGap(p, w, m);
    ProductNonNegative(p, p);
    ProductNonNegative(1.0 + w, p * p);
    SquareOrder(m, p + w / 2.0);
    ScaleOrder(0.0, lower, 1.0 + w);
  }

  /** 0 <= lower <= estimate <= upper <= 1, so the clamps of the code never change a bound. */
  lemma BoundsOrdered(lib: MathLibrary, successes: nat, n: nat, z: real)
    requires lib.Lawful() && z >= 0.0
    requires successes <= n && n > 0
    ensures
      var b := RawBounds(lib, successes, n, z);
      0.0 <= b.lower <= b.estimate <= b.upper <= 1.0
  {
    var m := Roots(lib, successes, n, z);
    var b := RawBounds(lib, successes, n, z);
    ProportionRange(successes, n);
    RootsOrdered(Proportion(successes, n), Weight(n, z), m, b.lower, b.upper);
  }

  lemma RootsOrdered(p: real, w: real, m: real, lower: real, upper: real)
    requires 0.0 <= p <= 1.0 && w >= 0.0 && IsSpread(p, w, m)
    requires (1.0 + w) * lower == (p + w / 2.0) - m && (1.0 + w) * upper == (p + w / 2.0) + m
    ensures 0.0 <= lower <= p <= upper <= 1.0
  {
    EstimateInside(p, w, m, lower, upper);
    LowerRootNonNegative(p, w, m, lower);
    SpreadMirror(p, w, m);
    MirrorBound(p, w, m, upper);
    LowerRootNonNegative(1.0 - p, w, m, 1.0 - upper);
  }

  lemma EstimateInside(p: real, w: real, m: real, lower: real, upper: real)
    requires 0.0 <= p <= 1.0 && w >= 0.0 && IsSpread(p, w, m)
    requires (1.0 + w) * lower == (p + w / 2.0) - m && (1.0 + w) * upper == (p + w / 2.0) + m
    ensures lower <= p <= upper
  {
    CompleteSquare(p, w, m, p);
    EstimateAccepted(p, w);
    RootsInvert(p, w, m, lower, upper, Score(p, w, p), p);
  }

  lemma EstimateAccepted(p: real, w: real)
    requires 0.0 <= p <= 1.0 && w >= 0.0
    ensures Score(p, w, p) <= 0.0
  {
    ProductNonNegative(p, 1.0 - p);
    ProductNonNegative(w, p * (1.0 - p));
  }

  lemma MirrorBound(p: real, w: real, m: real, upper: real)
    requires (1.0 + w) * upper == (p + w / 2.0) + m
    ensures (1.0 + w) * (1.0 - upper) == (1.0 - p + w / 2.0) - m
  {
    assert (1.0 + w) * (1.0 - upper) == (1.0 + w) - (1.0 + w) * upper;
  }

  lemma SpreadMirror(p: real, w: real, m: real)
    requires IsSpread(p, w, m)
    ensures IsSpread(1.0 - p, w, m)
  {
    assert (1.0 - p) * (1.0 - (1.0 - p)) == p * (1.0 - p);
  }

  /** A larger z gives an interval that contains the smaller one. */
  lemma BoundsNested(lib: MathLibrary, successes: nat, n: nat, z0: real, z1: real)
    requires lib.Lawful() && 0.0 <= z0 <= z1
    requires successes <= n && n > 0
    ensures
      var inner, outer := RawBounds(lib, successes, n, z0), RawBounds(lib, successes, n, z1);
      outer.lower <= inner.lower && inner.upper <= outer.upper
  {
    var inner := RawBounds(lib, successes, n, z0);
    BoundsOrdered(lib, successes, n, z0);
    AcceptedStaysAccepted(lib, successes, n, z0, z1, inner.lower);
    AcceptedStaysAccepted(lib, successes, n, z0, z1, inner.upper);
  }

  lemma AcceptedStaysAccepted(lib: MathLibrary, successes: nat, n: nat, z0: real, z1: real, x: real)
    requires lib.Lawful() && 0.0 <= z0 <= z1
    requires successes <= n && n > 0
    requires 0.0 <= x <= 1.0
    requires RawBounds(lib, successes, n, z0).lower <= x <= RawBounds(lib, successes, n, z0).upper
    ensures RawBounds(lib, successes, n, z1).lower <= x <= RawBounds(lib, successes, n, z1).upper
  {
    InvertsScoreTest(lib, successes, n, z0, x);
    InvertsScoreTest(lib, successes, n, z1, x);
    WeightGrows(n, z0, z1);
    HeavierAccepts(Proportion(successes, n), Weight(n, z0), Weight(n, z1), x);
  }

  lemma WeightGrows(n: nat, z0: real, z1: real)
    requires n > 0 && 0.0 <= z0 <= z1
    ensures Weight(n, z0) <= Weight(n, z1)
  {
    SquareMonotone(z0, z1);
    QuotientOrder(z0 * z0, z1 * z1, n as real);
  }

  lemma HeavierAccepts(p: real, w0: real, w1: real, x: real)
    requires w0 <= w1 && 0.0 <= x <= 1.0
    ensures Score(p, w1, x) <= Score(p, w0, x)
  {
    var v := x * (1.0 - x);
    ProductNonNegative(x, 1.0 - x);
    ProductNonNegative(w1 - w0, v);
    assert (w1 - w0) * v == w1 * v - w0 * v;
  }

  /** The reported interval: the rounded bounds, in order around the rounded estimate and inside [0, 1]. */
  lemma IntervalReported(lib: MathLibrary, successes: nat, n: nat, confidence: real)
    requires lib.Lawful() && 0.0 <= confidence < 1.0
    requires successes <= n && n > 0
    ensures
      var b := RawBounds(lib, successes, n, lib.ZScore(confidence));
      var r := WilsonInterval(lib, successes, n, confidence);
      && r == Interval(Round6(b.estimate), Round6(b.lower), Round6(b.upper))
      && 0.0 <= r.ciLower <= r.estimate <= r.ciUpper <= 1.0
  {
    var z := lib.ZScore(confidence);
    ZScoreMonotone(lib, confidence, confidence);
    BoundsOrdered(lib, successes, n, z);
    var b := RawBounds(lib, successes, n, z);
    Round6Monotone(0.0, b.lower);
    Round6Monotone(b.lower, b.estimate);
    Round6Monotone(b.estimate, b.upper);
    Round6Monotone(b.upper, 1.0);
  }

  /** Raising the confidence level never shrinks the reported interval. */
  lemma IntervalNested(lib: MathLibrary, successes: nat, n: nat, c0: real, c1: real)
    requires lib.Lawful() && 0.0 <= c0 <= c1 < 1.0
    requires successes <= n && n > 0
    ensures
      var inner, outer := WilsonInterval(lib, successes, n, c0), WilsonInterval(lib, successes, n, c1);
      && inner.Interval? && outer.Interval?
      && outer.ciLower <= inner.ciLower && inner.ciUpper <= outer.ciUpper
  {
    ZScoreMonotone(lib, c0, c1);
    BoundsNested(lib, successes, n, lib.ZScore(c0), lib.ZScore(c1));
    IntervalReported(lib, successes, n, c0);
    IntervalReported(lib, successes, n, c1);
    var inner, outer := RawBounds(lib, successes, n, lib.ZScore(c0)), RawBounds(lib, successes, n, lib.ZScore(c1));
    Round6Monotone(outer.lower, inner.lower);
    Round6Monotone(inner.upper, outer.upper);
  }
}
