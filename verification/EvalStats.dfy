/**
 * The intervals and comparisons of eval rates (src/lib/eval-stats.ts, and `rateStderr` of
 * src/lib/vlm-eval.ts) in exact arithmetic. A square root is a parameter: the non-negative number
 * whose square is the argument.
 */
module EvalStats {
  import opened Wrappers
  import opened Reals

  const Z95 := 1.96
  const Z2 := Z95 * Z95

  datatype Interval = Interval(low: real, high: real)

  function Min(a: real, b: real): real { if a <= b then a else b }
  function Max(a: real, b: real): real { if a >= b then a else b }
  function Clamp01(x: real): real { Min(1.0, Max(0.0, x)) }

  predicate IsRoot(root: real, x: real) { root >= 0.0 && Sq(root) == x }

  // ------------------------------------------------------------------------------------------
  // Wilson
  // ------------------------------------------------------------------------------------------

  function Centre(p: real, n: real): real
    requires n > 0.0
  {
    (p + Z2 / (2.0 * n)) / (1.0 + Z2 / n)
  }

  /** What `wilsonInterval` takes the square root of. */
  function Radicand(p: real, n: real): real
    requires n > 0.0
  {
    p * (1.0 - p) / n + Z2 / (4.0 * n * n)
  }

  function Half(root: real, n: real): real
    requires n > 0.0
  {
    Z95 / (1.0 + Z2 / n) * root
  }

  /** The bounds before they are clamped. */
  function Bounds(p: real, n: real, root: real): Interval
    requires n > 0.0
  {
    Interval(Centre(p, n) - Half(root, n), Centre(p, n) + Half(root, n))
  }

  predicate Within(q: real, i: Interval) { i.low <= q <= i.high }

  /** The score test at 95% does not reject the true rate `q`. */
  predicate NotRejected(p: real, n: real, q: real) { n * Sq(p - q) <= Z2 * (q * (1.0 - q)) }

  predicate UsableCount(hits: real, n: real) { n > 0.0 && 0.0 <= hits <= n }

  /** `wilsonInterval`; `root` is used only when the counts are usable. */
  function Wilson(hits: real, n: real, root: real): Option<Interval> {
    if !UsableCount(hits, n) then None
    else
      var b := Bounds(hits / n, n, root);
      Some(Interval(Clamp01(b.low), Clamp01(b.high)))
  }

  lemma TimesPositive(x: real, y: real, k: real)
    requires k > 0.0
    ensures x <= y <==> k * x <= k * y
  {
    if x <= y {
      assert k * (y - x) >= 0.0;
    } else {
      assert k * (x - y) > 0.0;
    }
  }

  lemma SquareIsNonNegative(x: real)
    ensures Sq(x) >= 0.0 && (x != 0.0 ==> Sq(x) > 0.0)
    decreases x < 0.0
  {
    if x > 0.0 {
      PositiveSquare(x);
    } else if x < 0.0 {
      SquareIsNonNegative(0.0 - x);
      SquareOfOpposite(x, 0.0 - x);
    }
  }

  lemma PositiveSquare(x: real)
    requires x > 0.0
    ensures Sq(x) > 0.0
  {
    PositiveProduct(x, x, Sq(x));
  }

  lemma SquareOfOpposite(x: real, y: real)
    requires x + y == 0.0
    ensures Sq(x) == Sq(y)
  {
    assert (x + y) * (x - y) == Sq(x) - Sq(y);
  }

  lemma SquareOrder(x: real, h: real)
    requires h >= 0.0
    ensures -h <= x <= h <==> Sq(x) <= Sq(h)
    decreases x < -h
  {
    if -h <= x <= h {
      NonNegativeProduct(h - x, h + x, Sq(h) - Sq(x));
    } else if x > h {
      PositiveProduct(x - h, x + h, Sq(x) - Sq(h));
    } else {
      SquareOrder(0.0 - x, h);
      SquareOfOpposite(x, 0.0 - x);
    }
  }

  function Scaled(x: real, e: real): real { x * (1.0 + e) }

  /** With e = z^2 / n and everything scaled by 1 + e: how far `q` is from the centre ... */
  function Offset(p: real, q: real, e: real): real { q * (1.0 + e) - (p + e / 2.0) }

  /** ... the square of the half width ... */
  function Spread(p: real, e: real): real { e * (p * (1.0 - p)) + Sq(e) / 4.0 }

  /** ... and how far the score test is from rejecting `q`. */
  function Gap(p: real, q: real, e: real): real { (1.0 + e) * (Sq(p - q) - e * (q * (1.0 - q))) }

  /** The identity behind the score interval. */
  lemma WilsonIdentity(p: real, q: real, e: real)
    ensures Sq(Offset(p, q, e)) - Spread(p, e) == Gap(p, q, e)
  {
    var d, m := q - p, q - 0.5;
    assert q * (1.0 + e) - (p + e / 2.0) == d + e * m;
    assert Sq(d + e * m) == Sq(d) + 2.0 * (d * (e * m)) + Sq(e * m);
    assert Sq(e * m) == Sq(e) * Sq(m);
    assert Sq(m) == Sq(q) - q + 0.25;
    assert d * m == Sq(q) - 0.5 * q - p * q + 0.5 * p;
    assert d * (e * m) == e * (d * m);
    assert Sq(p - q) == Sq(d) == Sq(p) - 2.0 * (p * q) + Sq(q);
    assert 2.0 * (d * m) - p * (1.0 - p) == Sq(d) + Sq(q) - q;
    var g := Sq(q) - q;
    assert q * (1.0 - q) == -g;
    assert e * (2.0 * (d * m) - p * (1.0 - p)) == e * (Sq(d) + g);
    assert Sq(e) * Sq(m) == Sq(e) * (g + 0.25);
    assert Sq(e) * (g + 0.25) == Sq(e) * g + Sq(e) / 4.0;
    assert (1.0 + e) * (Sq(d) + e * g) == Sq(d) + e * g + e * Sq(d) + e * (e * g);
    assert e * (e * g) == Sq(e) * g;
    assert e * (Sq(d) + g) == e * Sq(d) + e * g;
  }

  lemma ScaledRadicand(p: real, n: real, e: real)
    requires n > 0.0 && e == Z2 / n
    ensures Z2 * Radicand(p, n) == Spread(p, e)
  {
    var v := p * (1.0 - p);
    assert e * n == Z2;
    assert Z2 * (v / n) == e * v by {
      assert (v / n) * n == v;
      assert Z2 * (v / n) == (e * n) * (v / n) == e * ((v / n) * n);
    }
    var w := Z2 / (4.0 * n * n);
    assert w * (4.0 * n * n) == Z2;
    assert Z2 * w == Sq(e) / 4.0 by {
      assert Sq(e) / 4.0 * (4.0 * n * n) == Sq(e * n) by {
        assert Sq(e) / 4.0 * (4.0 * n * n) == Sq(e) * (n * n);
      }
      assert Z2 * w * (4.0 * n * n) == Z2 * Z2;
      assert (Z2 * w - Sq(e) / 4.0) * (4.0 * n * n) == 0.0;
      assert 4.0 * n * n > 0.0;
    }
  }

  lemma DividePositive(x: real, n: real)
    requires n > 0.0
    ensures x > 0.0 ==> x / n > 0.0
    ensures x >= 0.0 ==> x / n >= 0.0
  {
    QuotientTimes(x, n);
    if x / n < 0.0 {
      PositiveTimes(-(x / n), n);
    }
  }

  /** Scaling the distance from the centre and the half width by the same positive factor. */
  lemma ScaleSquares(x: real, h: real, d: real)
    requires d > 0.0
    ensures Sq(x) <= Sq(h) <==> Sq(x * d) <= Sq(h * d)
  {
    assert Sq(x * d) == Sq(d) * Sq(x) && Sq(h * d) == Sq(d) * Sq(h);
    SquareIsNonNegative(d);
    TimesPositive(Sq(x), Sq(h), Sq(d));
  }

  /** Before clamping, the bounds enclose exactly the rates the score test does not reject. */
  lemma Unclamped(p: real, n: real, root: real, q: real)
    requires n > 0.0 && IsRoot(root, Radicand(p, n))
    ensures Within(q, Bounds(p, n, root)) <==> NotRejected(p, n, q)
  {
    var e := Z2 / n;
    DividePositive(Z2, n);
    OffsetIsScaled(p, n, q, e);
    SpreadIsScaled(p, n, root, e);
    WilsonIdentity(p, q, e);
    WithinIffGap(q, Centre(p, n), Half(root, n), e, Offset(p, q, e), Spread(p, e), Gap(p, q, e));
    ScoreGap(p, q, n, e);
  }

  lemma OffsetIsScaled(p: real, n: real, q: real, e: real)
    requires n > 0.0 && e == Z2 / n
    ensures Offset(p, q, e) == Scaled(q - Centre(p, n), e)
  {
    CentreScaled(p, n, e);
    Expand(q, Centre(p, n), 1.0 + e);
  }

  lemma SpreadIsScaled(p: real, n: real, root: real, e: real)
    requires n > 0.0 && e == Z2 / n && IsRoot(root, Radicand(p, n))
    ensures Half(root, n) >= 0.0 && Sq(Scaled(Half(root, n), e)) == Spread(p, e)
  {
    HalfScaled(root, n, e);
    ScaledRadicand(p, n, e);
  }

  lemma WithinIffGap(q: real, c: real, h: real, e: real, x: real, r: real, g: real)
    requires e > 0.0 && h >= 0.0 && x == Scaled(q - c, e)
    requires Sq(Scaled(h, e)) == r && Sq(x) - r == g
    ensures c - h <= q <= c + h <==> g <= 0.0
  {
    SquareOrder(q - c, h);
    ScaleSquares(q - c, h, 1.0 + e);
  }

  lemma Expand(q: real, c: real, d: real)
    ensures (q - c) * d == q * d - c * d
  {
  }

  lemma HalfScaled(root: real, n: real, e: real)
    requires n > 0.0 && e == Z2 / n && root >= 0.0
    ensures Half(root, n) >= 0.0 && Sq(Half(root, n) * (1.0 + e)) == Z2 * Sq(root)
  {
    DividePositive(Z2, n);
    DividePositive(Z95, 1.0 + e);
    var f := Z95 / (1.0 + e);
    QuotientTimes(Z95, 1.0 + e);
    NonNegativeTimes(f, root);
    assert f * root * (1.0 + e) == f * (1.0 + e) * root;
    assert Sq(Z95 * root) == Z2 * Sq(root);
  }

  /** Clearing the denominators of the score test. */
  lemma ScoreGap(p: real, q: real, n: real, e: real)
    requires n > 0.0 && e == Z2 / n
    ensures Gap(p, q, e) <= 0.0 <==> NotRejected(p, n, q)
  {
    var v := q * (1.0 - q);
    var gap := Sq(p - q) - e * v;
    DividePositive(Z2, n);
    QuotientTimes(Z2, n);
    TimesPositive(gap, 0.0, 1.0 + e);
    TimesPositive(gap, 0.0, n);
    assert n * (e * v) == (e * n) * v;
    assert n * gap == n * Sq(p - q) - n * (e * v);
  }

  lemma CentreScaled(p: real, n: real, e: real)
    requires n > 0.0 && e == Z2 / n
    ensures Centre(p, n) * (1.0 + e) == p + e / 2.0
  {
    assert Z2 / (2.0 * n) == e / 2.0 by {
      var w := Z2 / (2.0 * n);
      assert w * (2.0 * n) == Z2 && e * n == Z2;
      assert (w - e / 2.0) * n == 0.0;
    }
    QuotientTimes(p + e / 2.0, 1.0 + e);
  }

  lemma OutsideRatesAreRejected(p: real, n: real, q: real)
    requires n > 0.0 && NotRejected(p, n, q)
    ensures 0.0 <= q <= 1.0
  {
    SquareIsNonNegative(p - q);
    NonNegativeTimes(n, Sq(p - q));
    VarianceSign(q);
  }

  lemma VarianceSign(q: real)
    ensures q * (1.0 - q) < 0.0 <==> q < 0.0 || q > 1.0
  {
    if q < 0.0 {
      PositiveTimes(-q, 1.0 - q);
      assert (-q) * (1.0 - q) == -(q * (1.0 - q));
    } else if q > 1.0 {
      PositiveTimes(q, q - 1.0);
      assert q * (q - 1.0) == -(q * (1.0 - q));
    } else {
      NonNegativeTimes(q, 1.0 - q);
    }
  }

  lemma RateInRange(hits: real, n: real)
    requires UsableCount(hits, n)
    ensures 0.0 <= hits / n <= 1.0
  {
    var p := hits / n;
    QuotientTimes(hits, n);
    if p < 0.0 {
      PositiveTimes(-p, n);
    } else if p > 1.0 {
      PositiveTimes(p - 1.0, n);
    }
  }

  lemma ObservedRateIsKept(p: real, n: real)
    requires n > 0.0 && 0.0 <= p <= 1.0
    ensures NotRejected(p, n, p)
  {
    assert Sq(p - p) == 0.0;
    NonNegativeTimes(p, 1.0 - p);
  }

  lemma BoundsEncloseTheRate(p: real, n: real, root: real)
    requires n > 0.0 && 0.0 <= p <= 1.0 && IsRoot(root, Radicand(p, n))
    ensures var b := Bounds(p, n, root); 0.0 <= b.low <= p <= b.high <= 1.0
  {
    var b := Bounds(p, n, root);
    ObservedRateIsKept(p, n);
    Unclamped(p, n, root, p);
    Unclamped(p, n, root, b.low);
    OutsideRatesAreRejected(p, n, b.low);
    Unclamped(p, n, root, b.high);
    OutsideRatesAreRejected(p, n, b.high);
  }

  /** `wilsonInterval` clamps nothing away, and its bounds enclose the observed rate. */
  lemma ClampsAreIdle(hits: real, n: real, root: real)
    requires UsableCount(hits, n) && IsRoot(root, Radicand(hits / n, n))
    ensures Wilson(hits, n, root) == Some(Bounds(hits / n, n, root))
    ensures var i := Wilson(hits, n, root).value; 0.0 <= i.low <= hits / n <= i.high <= 1.0
  {
    RateInRange(hits, n);
    BoundsEncloseTheRate(hits / n, n, root);
  }

  /** A rate lies in the interval if and only if the score test at 95% does not reject it. */
  lemma WilsonIsScoreInterval(hits: real, n: real, root: real, q: real)
    requires UsableCount(hits, n) && IsRoot(root, Radicand(hits / n, n))
    ensures Within(q, Wilson(hits, n, root).value) <==> NotRejected(hits / n, n, q)
  {
    ClampsAreIdle(hits, n, root);
    Unclamped(hits / n, n, root, q);
  }

  lemma ZeroProduct(x: real, y: real)
    requires y > 0.0 && x * y == 0.0
    ensures x == 0.0
  {
    if x > 0.0 {
      PositiveTimes(x, y);
    } else if x < 0.0 {
      PositiveTimes(-x, y);
    }
  }

  lemma CentreMirrors(p: real, n: real)
    requires n > 0.0
    ensures Centre(1.0 - p, n) == 1.0 - Centre(p, n)
  {
    var e := Z2 / n;
    DividePositive(Z2, n);
    CentreScaled(p, n, e);
    CentreScaled(1.0 - p, n, e);
    ZeroProduct(Centre(p, n) + Centre(1.0 - p, n) - 1.0, 1.0 + e);
  }

  /** The interval of the misses is the mirror image. */
  lemma WilsonMirrors(hits: real, n: real, root: real)
    requires UsableCount(hits, n) && IsRoot(root, Radicand(hits / n, n))
    ensures UsableCount(n - hits, n) && IsRoot(root, Radicand((n - hits) / n, n))
    ensures var i, m := Wilson(hits, n, root).value, Wilson(n - hits, n, root).value;
            m.low == 1.0 - i.high && m.high == 1.0 - i.low
  {
    RateMirrors(hits, n);
    CentreMirrors(hits / n, n);
    ClampsAreIdle(hits, n, root);
    ClampsAreIdle(n - hits, n, root);
  }

  lemma RateMirrors(hits: real, n: real)
    requires n > 0.0
    ensures (n - hits) / n == 1.0 - hits / n
    ensures Radicand((n - hits) / n, n) == Radicand(hits / n, n)
  {
    var p, p' := hits / n, (n - hits) / n;
    QuotientTimes(hits, n);
    QuotientTimes(n - hits, n);
    Expand(p + p', 1.0, n);
    assert (p + p') * n == p * n + p' * n;
    ZeroProduct(p + p' - 1.0, n);
    assert p' * (1.0 - p') == p * (1.0 - p);
  }

  /** However one-sided the sample, the interval has a width: it never claims certainty. */
  lemma WilsonIsNeverCertain(hits: real, n: real, root: real)
    requires UsableCount(hits, n) && IsRoot(root, Radicand(hits / n, n))
    ensures var i := Wilson(hits, n, root).value; i.low < i.high
  {
    var p := hits / n;
    ClampsAreIdle(hits, n, root);
    RateInRange(hits, n);
    PositiveTimes(n, n);
    assert Z2 / (4.0 * n * n) > 0.0;
    NonNegativeTimes(p, 1.0 - p);
    DividePositive(p * (1.0 - p), n);
    assert root > 0.0;
    assert Z2 / n > 0.0;
    PositiveTimes(Z95 / (1.0 + Z2 / n), root);
  }

  // ------------------------------------------------------------------------------------------
  // Standard errors
  // ------------------------------------------------------------------------------------------

  /** What `rateStderr` takes the square root of; the plain formula would give 0 at 0% and 100%. */
  function StderrSquared(hits: real, n: real): real {
    if n <= 0.0 then 0.0
    else
      var p := hits / n;
      if 0.0 < p < 1.0 then p * (1.0 - p) / n
      else
        var adj := (hits + 2.0) / (n + 4.0);
        adj * (1.0 - adj) / (n + 4.0)
  }

  lemma BetweenZeroAndOne(x: real, n: real)
    requires 0.0 < x < n
    ensures 0.0 < x / n < 1.0
  {
    QuotientTimes(x, n);
    DividePositive(x, n);
    TimesPositive(1.0, x / n, n);
  }

  /** A rate from a non-empty sample always has a positive error, also at 0% and at 100%. */
  lemma StderrIsPositive(hits: real, n: real)
    requires UsableCount(hits, n)
    ensures StderrSquared(hits, n) > 0.0
  {
    var p := hits / n;
    if 0.0 < p < 1.0 {
      VarianceIsPositive(p, n);
    } else {
      BetweenZeroAndOne(hits + 2.0, n + 4.0);
      VarianceIsPositive((hits + 2.0) / (n + 4.0), n + 4.0);
    }
  }

  /** The rate has the same error seen from the misses. */
  lemma StderrMirrors(hits: real, n: real)
    requires UsableCount(hits, n)
    ensures StderrSquared(n - hits, n) == StderrSquared(hits, n)
  {
    RateMirrors(hits, n);
    if !(0.0 < hits / n < 1.0) { RateMirrors(hits + 2.0, n + 4.0); }
  }

  /**
   * The squared error as a fraction of counts: of the hits and misses as they are, or of both with two more of each where
   * one of them is missing.
   */
  lemma StderrOfCounts(hits: real, n: real)
    requires UsableCount(hits, n)
    ensures 0.0 < hits < n ==> StderrSquared(hits, n) * (n * n * n) == hits * (n - hits)
    ensures hits == 0.0 || hits == n ==>
              StderrSquared(hits, n) * ((n + 4.0) * (n + 4.0) * (n + 4.0)) == (hits + 2.0) * (n - hits + 2.0)
  {
    if 0.0 < hits < n {
      BetweenZeroAndOne(hits, n);
      VarianceOfCounts(hits, n);
    } else {
      QuotientTimes(hits, n);
      if 0.0 < hits / n < 1.0 { TimesMonotone(hits / n, 1.0, n); TimesMonotone(0.0, hits / n, n); }
      VarianceOfCounts(hits + 2.0, n + 4.0);
    }
  }

  lemma VarianceOfCounts(x: real, n: real)
    requires n > 0.0
    ensures (x / n) * (1.0 - x / n) / n * (n * n * n) == x * (n - x)
  {
    var p := x / n;
    QuotientTimes(x, n);
    var v := p * (1.0 - p);
    QuotientTimes(v, n);
    CubeCancels(v / n, v, n);
    VarianceProduct(p, n, x);
  }

  lemma CubeCancels(q: real, v: real, n: real)
    requires q * n == v
    ensures q * (n * n * n) == v * (n * n)
  {
  }

  lemma VarianceProduct(p: real, n: real, x: real)
    requires p * n == x
    ensures p * (1.0 - p) * (n * n) == x * (n - x)
  {
    assert (1.0 - p) * n == n - x;
    assert p * (1.0 - p) * (n * n) == (p * n) * ((1.0 - p) * n);
  }

  lemma VarianceIsPositive(p: real, n: real)
    requires 0.0 < p < 1.0 && n > 0.0
    ensures p * (1.0 - p) / n > 0.0
  {
    PositiveTimes(p, 1.0 - p);
    DividePositive(p * (1.0 - p), n);
  }

  // ------------------------------------------------------------------------------------------
  // Score intervals and comparisons
  // ------------------------------------------------------------------------------------------

  /** `scoreInterval`. */
  function ScoreInterval(score: real, stderr: Option<real>): Option<Interval> {
    if stderr.None? || stderr.value <= 0.0 then None
    else Some(Interval(Clamp01(score - Z95 * stderr.value), Clamp01(score + Z95 * stderr.value)))
  }

  datatype Verdict = Better | Worse | Tie | Unknown

  datatype Comparison = Comparison(verdict: Verdict, delta: real)

  /** What `compareScores` takes the square root of. */
  function Combined(a: real, b: real): real { Sq(a) + Sq(b) }

  /** `compareScores`, with `root` the root of the squares' sum. */
  function Compare(score: real, baseline: real, stderr: Option<real>, baseErr: Option<real>, root: real): Comparison {
    var delta := score - baseline;
    if stderr.None? || baseErr.None? then Comparison(Unknown, delta)
    else if Abs(delta) <= Z95 * root then Comparison(Tie, delta)
    else Comparison(if delta > 0.0 then Better else Worse, delta)
  }

  function Flip(v: Verdict): Verdict {
    match v
    case Better => Worse
    case Worse => Better
    case _ => v
  }

  /** Swapping the two sides flips the verdict and the sign, and nothing else. */
  lemma CompareFlips(a: real, b: real, errA: Option<real>, errB: Option<real>, root: real)
    requires root >= 0.0
    ensures var c, d := Compare(a, b, errA, errB, root), Compare(b, a, errB, errA, root);
            d.verdict == Flip(c.verdict) && d.delta == -c.delta
  {
    assert Z95 * root >= 0.0;
  }

  /** A tie is a gap whose square is within z^2 times the sum of the two variances. */
  lemma TieIff(a: real, b: real, errA: real, errB: real, root: real)
    requires IsRoot(root, Combined(errA, errB))
    ensures Compare(a, b, Some(errA), Some(errB), root).verdict == Tie <==> Sq(a - b) <= Z2 * (Sq(errA) + Sq(errB))
  {
    assert Z95 * root >= 0.0;
    SquareOrder(a - b, Z95 * root);
    assert Sq(Z95 * root) == Z2 * Sq(root);
  }

  /** Which verdict: better or worse exactly by the side of a gap beyond its error, unknown exactly without both errors. */
  lemma VerdictIff(a: real, b: real, errA: Option<real>, errB: Option<real>, root: real)
    requires errA.Some? && errB.Some? ==> IsRoot(root, Combined(errA.value, errB.value))
    ensures var c := Compare(a, b, errA, errB, root);
            && c.delta == a - b
            && (c.verdict == Unknown <==> errA.None? || errB.None?)
            && (errA.Some? && errB.Some? ==>
                  var beyond := Sq(a - b) > Z2 * (Sq(errA.value) + Sq(errB.value));
                  && (c.verdict == Better <==> beyond && a > b)
                  && (c.verdict == Worse <==> beyond && a < b))
  {
    if errA.Some? && errB.Some? {
      TieIff(a, b, errA.value, errB.value, root);
      NoGapIsTie(a, b, errA.value, errB.value, root);
    }
  }

  lemma NoGapIsTie(a: real, b: real, errA: real, errB: real, root: real)
    requires IsRoot(root, Combined(errA, errB))
    ensures a == b ==> Compare(a, b, Some(errA), Some(errB), root).verdict == Tie
  {
    assert Z95 * root >= 0.0;
  }

  /** The interval around a rate holds the rate, and is missing exactly without a positive error. */
  lemma ScoreIntervalHoldsScore(score: real, stderr: Option<real>)
    requires 0.0 <= score <= 1.0
    ensures ScoreInterval(score, stderr).Some? <==> stderr.Some? && stderr.value > 0.0
    ensures ScoreInterval(score, stderr).Some? ==>
              var i := ScoreInterval(score, stderr).value; 0.0 <= i.low <= score <= i.high <= 1.0
  {
    if stderr.Some? && stderr.value > 0.0 {
      PositiveTimes(Z95, stderr.value);
    }
  }

  /** Of the rates it holds exactly those within 1.96 errors of the score. */
  lemma ScoreIntervalIff(score: real, stderr: real, q: real)
    requires 0.0 <= score <= 1.0 && stderr > 0.0
    ensures ScoreInterval(score, Some(stderr)).Some?
    ensures Within(q, ScoreInterval(score, Some(stderr)).value) <==> 0.0 <= q <= 1.0 && Abs(q - score) <= 1.96 * stderr
  {
    PositiveTimes(Z95, stderr);
  }
}
