/** Real arithmetic shared by the experiment and readiness modules. */
module Numerics {

  /** The two library functions the experiment code takes from outside: math.sqrt and NormalDist().inv_cdf. */
  datatype MathLibrary = MathLibrary(sqrt: real -> real, inverseNormal: real -> real) {

    /** What those functions promise: a root on the non-negative reals, a monotone quantile that is 0 at one half. */
    ghost predicate Lawful() {
      && (forall x: real :: x >= 0.0 ==> sqrt(x) >= 0.0 && sqrt(x) * sqrt(x) == x)
      && (forall q: real, r: real :: 0.0 < q <= r < 1.0 ==> inverseNormal(q) <= inverseNormal(r))
      && inverseNormal(0.5) == 0.0
    }

    function ZScore(confidence: real): real {
      inverseNormal(0.5 + confidence / 2.0)
    }
  }

  lemma ZScoreMonotone(lib: MathLibrary, c0: real, c1: real)
    requires lib.Lawful()
    requires 0.0 <= c0 <= c1 < 1.0
    ensures 0.0 <= lib.ZScore(c0) <= lib.ZScore(c1)
  {
    assert lib.inverseNormal(0.5) <= lib.inverseNormal(0.5 + c0 / 2.0);
  }

  function Abs(x: real): real {
    if x < 0.0 then -x else x
  }

  function MinReal(a: real, b: real): real {
    if b < a then b else a
  }

  function MaxReal(a: real, b: real): real {
    if b > a then b else a
  }

  /** Round to the nearest integer, ties to the even neighbour, as Python's round. */
  function RoundHalfEven(x: real): int {
    var f := x.Floor;
    var d := x - f as real;
    if d < 0.5 then f
    else if d > 0.5 then f + 1
    else if f % 2 == 0 then f
    else f + 1
  }

  function Round6(x: real): real {
    RoundHalfEven(x * 1000000.0) as real / 1000000.0
  }

  function Round4(x: real): real {
    RoundHalfEven(x * 10000.0) as real / 10000.0
  }

  function Ceil(x: real): int {
    -(-x).Floor
  }

  lemma RoundNearest(x: real)
    ensures -0.5 <= x - RoundHalfEven(x) as real <= 0.5
    ensures Abs(x - RoundHalfEven(x) as real) == 0.5 ==> RoundHalfEven(x) % 2 == 0
  {
  }

  lemma RoundMonotone(x: real, y: real)
    requires x <= y
    ensures RoundHalfEven(x) <= RoundHalfEven(y)
  {
    RoundNearest(x);
    RoundNearest(y);
    if x < y {
      assert RoundHalfEven(x) as real - 0.5 < RoundHalfEven(y) as real + 0.5;
    }
  }

  lemma RoundOdd(x: real)
    ensures RoundHalfEven(-x) == -RoundHalfEven(x)
  {
    var f := x.Floor;
    if x == f as real {
      assert (-x).Floor == -f;
    } else {
      assert (-x).Floor == -f - 1;
    }
  }

  lemma RoundInteger(n: int)
    ensures RoundHalfEven(n as real) == n
  {
  }

  lemma Round6Monotone(x: real, y: real)
    requires x <= y
    ensures Round6(x) <= Round6(y)
  {
    RoundMonotone(x * 1000000.0, y * 1000000.0);
  }

  lemma Round6Odd(x: real)
    ensures Round6(-x) == -Round6(x)
  {
    RoundOdd(x * 1000000.0);
    assert (-x) * 1000000.0 == -(x * 1000000.0);
  }

  lemma Round6Fixed(x: real)
    ensures Round6(Round6(x)) == Round6(x)
  {
    var n := RoundHalfEven(x * 1000000.0);
    RoundInteger(n);
    assert Round6(x) * 1000000.0 == n as real;
  }

  // ---------------------------------------------------------------- order of products

  lemma SquareOrder(a: real, b: real)
    requires b >= 0.0
    requires a * a <= b * b
    ensures -b <= a <= b
  {
    if a > b {
      SquareGrows(b, a);
      assert false;
    } else if -a > b {
      SquareGrows(b, -a);
      assert false;
    }
  }

  lemma SquareGrows(b: real, a: real)
    requires a > b >= 0.0
    ensures a * a > b * b
  {
    ProductPositive(a - b, a + b);
    DifferenceOfSquares(a, b);
  }

  lemma ProductPositive(a: real, b: real)
    requires a > 0.0 && b > 0.0
    ensures a * b > 0.0
  {
  }

  lemma ProductNonNegative(a: real, b: real)
    requires a >= 0.0 && b >= 0.0
    ensures a * b >= 0.0
  {
  }

  lemma DifferenceOfSquares(a: real, b: real)
    ensures (a - b) * (a + b) == a * a - b * b
  {
  }

  lemma SquareMonotone(a: real, b: real)
    requires 0.0 <= a <= b
    ensures a * a <= b * b
  {
    if a < b { SquareGrows(a, b); }
  }

  lemma QuotientOrder(a: real, b: real, k: real)
    requires k > 0.0 && a <= b
    ensures a / k <= b / k
  {
    var x, y := a / k, b / k;
    assert k * x == a && k * y == b;
    ScaleOrder(x, y, k);
  }

  lemma ScaleStrict(a: real, b: real, k: real)
    requires a < b && k > 0.0
    ensures k * a < k * b
  {
    assert k * (b - a) > 0.0;
    assert k * (b - a) == k * b - k * a;
  }

  lemma ScaleOrder(a: real, b: real, k: real)
    requires k > 0.0
    ensures a <= b <==> k * a <= k * b
  {
    if a < b { ScaleStrict(a, b, k); }
    if b < a { ScaleStrict(b, a, k); }
  }

  lemma DivideUnique(a: real, k: real, q: real)
    requires k > 0.0 && q * k == a
    ensures a / k == q
  {
    assert a / k * k == a;
    ScaleOrder(a / k, q, k);
    ScaleOrder(q, a / k, k);
  }

  lemma BetweenSquares(d: real, m: real)
    requires m >= 0.0
    ensures -m <= d <= m <==> d * d <= m * m
  {
    if d * d <= m * m {
      SquareOrder(d, m);
    }
    if 0.0 <= d <= m {
      SquareMonotone(d, m);
    }
    if -m <= d <= 0.0 {
      SquareMonotone(-d, m);
      assert (-d) * (-d) == d * d;
    }
  }

  lemma QuotientNonNegative(a: real, n: real)
    requires a >= 0.0 && n > 0.0
    ensures a / n >= 0.0
  {
    var q := a / n;
    assert n * q == a;
    ScaleOrder(0.0, q, n);
  }

  lemma SqrtNonNegative(lib: MathLibrary, x: real)
    requires lib.Lawful() && x >= 0.0
    ensures lib.sqrt(x) >= 0.0
  {
  }
}
