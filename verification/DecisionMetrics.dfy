/**
 * The metrics of a decision-model eval (src/lib/decision-eval.ts): calibration bins, Brier score and the
 * largest share of decisions that can be automated at a given accuracy. Numbers are exact.
 */
module DecisionMetrics {
  import opened Wrappers
  import opened Reals

  datatype Point = Point(conf: real, correct: bool)

  const BINS := 10

  // ------------------------------------------------------------------------------------------
  // Sums over points
  // ------------------------------------------------------------------------------------------

  function One(p: Point): real { 1.0 }
  function ConfOf(p: Point): real { p.conf }
  function HitOf(p: Point): real { if p.correct then 1.0 else 0.0 }

  /** How far the outcome of one decision is from the confidence it was given with. */
  function Surprise(p: Point): real { HitOf(p) - p.conf }

  function Sum(points: seq<Point>, weight: Point -> real): real {
    if points == [] then 0.0 else weight(points[0]) + Sum(points[1..], weight)
  }

  lemma {:induction false} SumSnoc(points: seq<Point>, p: Point, weight: Point -> real)
    ensures Sum(points + [p], weight) == Sum(points, weight) + weight(p)
  {
    if points == [] {
      assert [p][1..] == [];
      assert points + [p] == [p];
    } else {
      assert (points + [p])[1..] == points[1..] + [p];
      SumSnoc(points[1..], p, weight);
    }
  }

  lemma {:induction false} SumOfOnes(points: seq<Point>)
    ensures Sum(points, One) == |points| as real
  {
    if points != [] { SumOfOnes(points[1..]); }
  }

  lemma {:induction false} SumOfSurprises(points: seq<Point>)
    ensures Sum(points, Surprise) == Sum(points, HitOf) - Sum(points, ConfOf)
  {
    if points != [] { SumOfSurprises(points[1..]); }
  }

  // ------------------------------------------------------------------------------------------
  // Calibration
  // ------------------------------------------------------------------------------------------

  /** The index `calibration` computes; -1 and below is outside the ten bins. */
  function BinOf(conf: real): int {
    var b := (conf * 10.0).Floor;
    if b < BINS - 1 then b else BINS - 1
  }

  function InBin(points: seq<Point>, b: int): seq<Point> {
    if points == [] then []
    else
      var rest := InBin(points[1..], b);
      if BinOf(points[0].conf) == b then [points[0]] + rest else rest
  }

  /** A weight summed over bins 0 to k-1, bin by bin. */
  function SumBins(points: seq<Point>, weight: Point -> real, k: nat): real {
    if k == 0 then 0.0 else SumBins(points, weight, k - 1) + Sum(InBin(points, k - 1), weight)
  }

  /** The distance between the hits and the confidence of each bin, summed over bins 0 to k-1. */
  function GapBins(points: seq<Point>, k: nat): real {
    if k == 0 then 0.0 else GapBins(points, k - 1) + Abs(Sum(InBin(points, k - 1), Surprise))
  }

  /** A bin holds the confidences between its bounds; the last one also those above its upper bound. */
  lemma BinBounds(conf: real, b: int)
    requires 0 <= b < BINS
    ensures BinOf(conf) == b <==> b as real / 10.0 <= conf && (b < BINS - 1 ==> conf < (b + 1) as real / 10.0)
  {
    var f := (conf * 10.0).Floor;
    assert f as real <= conf * 10.0 < (f + 1) as real;
    assert b as real <= conf * 10.0 <==> b <= f;
    assert conf * 10.0 < (b + 1) as real <==> f <= b;
  }

  predicate InUnit(points: seq<Point>) { forall p :: p in points ==> 0.0 <= p.conf <= 1.0 }

  predicate NoNegative(points: seq<Point>) { forall p :: p in points ==> p.conf >= 0.0 }

  lemma ConsBins(p: Point, points: seq<Point>, b: int)
    ensures InBin([p] + points, b) == if BinOf(p.conf) == b then [p] + InBin(points, b) else InBin(points, b)
  {
    assert ([p] + points)[1..] == points;
  }

  /** Adding a point adds its weight to the bins up to `k` exactly when its own bin is among them. */
  lemma {:induction false} SumBinsCons(p: Point, points: seq<Point>, weight: Point -> real, k: nat)
    ensures SumBins([p] + points, weight, k)
              == SumBins(points, weight, k) + (if 0 <= BinOf(p.conf) < k then weight(p) else 0.0)
  {
    if k > 0 {
      SumBinsCons(p, points, weight, k - 1);
      ConsBins(p, points, k - 1);
      assert ([p] + InBin(points, k - 1))[1..] == InBin(points, k - 1);
    }
  }

  /** The bins partition the points: whatever is summed over the bins is the sum over the points. */
  lemma {:induction false} BinsConserve(points: seq<Point>, weight: Point -> real)
    requires NoNegative(points)
    ensures SumBins(points, weight, BINS) == Sum(points, weight)
  {
    if points == [] {
      NoPointsNoSum(weight, BINS);
    } else {
      assert points == [points[0]] + points[1..];
      assert points[0] in points;
      BinsConserve(points[1..], weight);
      SumBinsCons(points[0], points[1..], weight, BINS);
      assert (points[0].conf * 10.0).Floor >= 0;
    }
  }

  lemma {:induction false} NoPointsNoSum(weight: Point -> real, k: nat)
    ensures SumBins([], weight, k) == 0.0
  {
    if k > 0 { NoPointsNoSum(weight, k - 1); }
  }

  /** The counts, the summed confidence and the hits of the bins add up to those of the points. */
  lemma BinsPartition(points: seq<Point>)
    requires NoNegative(points)
    ensures SumBins(points, One, BINS) == |points| as real
    ensures SumBins(points, ConfOf, BINS) == Sum(points, ConfOf)
    ensures SumBins(points, HitOf, BINS) == Sum(points, HitOf)
  {
    BinsConserve(points, One);
    BinsConserve(points, ConfOf);
    BinsConserve(points, HitOf);
    SumOfOnes(points);
  }

  lemma {:induction false} InBinKeeps(points: seq<Point>, b: int)
    ensures forall p :: p in InBin(points, b) ==> p in points
  {
    if points != [] { InBinKeeps(points[1..], b); }
  }

  /** For confidences in [0, 1] a decision is off by at most one. */
  lemma {:induction false} SurpriseIsAtMostOne(points: seq<Point>)
    requires InUnit(points)
    ensures Abs(Sum(points, Surprise)) <= Sum(points, One)
  {
    if points != [] {
      assert points[0] in points;
      assert Abs(Surprise(points[0])) <= 1.0;
      SurpriseIsAtMostOne(points[1..]);
    }
  }

  lemma {:induction false} GapBounds(points: seq<Point>, k: nat)
    ensures Abs(SumBins(points, Surprise, k)) <= GapBins(points, k)
    ensures InUnit(points) ==> GapBins(points, k) <= SumBins(points, One, k)
  {
    if k > 0 {
      GapBounds(points, k - 1);
      InBinKeeps(points, k - 1);
      if InUnit(points) { SurpriseIsAtMostOne(InBin(points, k - 1)); }
    }
  }

  function Mean(points: seq<Point>, weight: Point -> real): real {
    if points == [] then 0.0 else Sum(points, weight) / |points| as real
  }

  /** The expected calibration error: the share of the decisions that the gaps of the bins amount to. */
  function Ece(points: seq<Point>): real {
    if points == [] then 0.0 else GapBins(points, BINS) / |points| as real
  }

  /** The error is at least the overall gap between accuracy and confidence, and never above one. */
  lemma EceBounds(points: seq<Point>)
    requires InUnit(points)
    ensures Abs(Mean(points, HitOf) - Mean(points, ConfOf)) <= Ece(points) <= 1.0
  {
    if points != [] {
      var n := |points| as real;
      GapBounds(points, BINS);
      BinsConserve(points, Surprise);
      BinsPartition(points);
      SumOfSurprises(points);
      DivideKeepsOrder(Abs(Sum(points, Surprise)), GapBins(points, BINS), n);
      DivideKeepsOrder(GapBins(points, BINS), n, n);
      DivideDistributes(Sum(points, HitOf), Sum(points, ConfOf), n);
      DivideAbs(Sum(points, Surprise), n);
    }
  }

  lemma DivideKeepsOrder(x: real, y: real, n: real)
    requires n > 0.0 && x <= y
    ensures x / n <= y / n
  {
    DivideDistributes(y, x, n);
    DivideSign(y - x, n);
  }

  lemma DivideSign(x: real, n: real)
    requires n > 0.0
    ensures x >= 0.0 ==> x / n >= 0.0
    ensures x <= 0.0 ==> x / n <= 0.0
  {
    var q := x / n;
    assert q * n == x;
    if q < 0.0 { PositiveTimes(-q, n); }
    if q > 0.0 { PositiveTimes(q, n); }
  }

  lemma DivideDistributes(x: real, y: real, n: real)
    requires n > 0.0
    ensures (x - y) / n == x / n - y / n
  {
  }

  lemma DivideAbs(x: real, n: real)
    requires n > 0.0
    ensures Abs(x / n) == Abs(x) / n
  {
    DivideSign(x, n);
    DivideDistributes(0.0, x, n);
  }

  datatype Bin = Bin(n: nat, conf: real, hit: nat)
  datatype ReliabilityBin = ReliabilityBin(lo: real, hi: real, count: nat, confidence: real, accuracy: real)

  /** A running bin holds the count, the summed confidence and the hits of its points. */
  predicate Holds(bin: Bin, points: seq<Point>) {
    bin.n == |points| && bin.conf == Sum(points, ConfOf) && bin.hit as real == Sum(points, HitOf)
  }

  /** A reported bin gives the bounds, the count and the two means of its points. */
  predicate Reports(out: ReliabilityBin, b: nat, points: seq<Point>) {
    && out.lo == b as real / 10.0 && out.hi == (b + 1) as real / 10.0
    && out.count == |points|
    && out.confidence == Mean(points, ConfOf)
    && out.accuracy == Mean(points, HitOf)
  }

  lemma {:induction false} InBinSnoc(points: seq<Point>, p: Point, b: int)
    ensures InBin(points + [p], b) == if BinOf(p.conf) == b then InBin(points, b) + [p] else InBin(points, b)
  {
    if points == [] {
      assert [p][1..] == [];
      assert points + [p] == [p];
    } else {
      assert (points + [p])[1..] == points[1..] + [p];
      InBinSnoc(points[1..], p, b);
    }
  }

  /** What adding one point does to a bin. */
  lemma BinTakes(bin: Bin, points: seq<Point>, p: Point)
    requires Holds(bin, points)
    ensures Holds(Bin(bin.n + 1, bin.conf + p.conf, bin.hit + if p.correct then 1 else 0), points + [p])
  {
    SumSnoc(points, p, ConfOf);
    SumSnoc(points, p, HitOf);
  }

  /** The term one bin adds to the error. */
  lemma BinTerm(points: seq<Point>, total: nat)
    requires 0 < |points| <= total
    ensures |points| as real / total as real * Abs(Mean(points, HitOf) - Mean(points, ConfOf))
              == Abs(Sum(points, Surprise)) / total as real
  {
    var n, t := |points| as real, total as real;
    SumOfSurprises(points);
    DivideDistributes(Sum(points, HitOf), Sum(points, ConfOf), n);
    DivideAbs(Sum(points, Surprise), n);
    CancelCount(Abs(Sum(points, Surprise)), n, t);
  }

  lemma CancelCount(x: real, n: real, t: real)
    requires n > 0.0 && t > 0.0
    ensures n / t * (x / n) == x / t
  {
    assert x / n * n == x;
    assert n / t * (x / n) * t == n * (x / n);
  }

  predicate AllHold(bins: seq<Bin>, points: seq<Point>) {
    |bins| == BINS && forall b :: 0 <= b < BINS ==> Holds(bins[b], InBin(points, b))
  }

  function Grown(bin: Bin, p: Point): Bin {
    Bin(bin.n + 1, bin.conf + p.conf, bin.hit + if p.correct then 1 else 0)
  }

  lemma GrownHolds(bins: seq<Bin>, points: seq<Point>, p: Point)
    requires AllHold(bins, points) && 0 <= BinOf(p.conf)
    ensures AllHold(bins[BinOf(p.conf) := Grown(bins[BinOf(p.conf)], p)], points + [p])
  {
    var c := BinOf(p.conf);
    var after := bins[c := Grown(bins[c], p)];
    forall b | 0 <= b < BINS
      ensures Holds(after[b], InBin(points + [p], b))
    {
      InBinSnoc(points, p, b);
      assert Holds(bins[b], InBin(points, b));
      if b == c { BinTakes(bins[b], InBin(points, b), p); }
    }
  }

  lemma NegativeHasNoBin(conf: real)
    ensures BinOf(conf) < 0 <==> conf < 0.0
  {
    var f := (conf * 10.0).Floor;
    assert f as real <= conf * 10.0 < (f + 1) as real;
  }

  /** The first loop of `calibration`. A negative confidence indexes a bin that does not exist, which throws. */
  method FillBins(points: seq<Point>) returns (r: Option<seq<Bin>>)
    ensures r.None? <==> !NoNegative(points)
    ensures r.Some? ==> AllHold(r.value, points)
  {
    var bins: seq<Bin> := seq(BINS, b => Bin(0, 0.0, 0));
    for i := 0 to |points|
      invariant NoNegative(points[..i])
      invariant AllHold(bins, points[..i])
    {
      var p := points[i];
      assert points[..i + 1] == points[..i] + [p];
      var b := BinOf(p.conf);
      NegativeHasNoBin(p.conf);
      if b < 0 {
        assert p in points;
        return None;
      }
      GrownHolds(bins, points[..i], p);
      bins := bins[b := Grown(bins[b], p)];
    }
    assert points[..|points|] == points;
    r := Some(bins);
  }

  function Rate(sum: real, n: nat): real {
    if n > 0 then sum / n as real else 0.0
  }

  /** What one running bin is reported as. */
  function Reported(bin: Bin, b: nat): ReliabilityBin {
    ReliabilityBin(b as real / 10.0, (b + 1) as real / 10.0, bin.n, Rate(bin.conf, bin.n), Rate(bin.hit as real, bin.n))
  }

  /** What one reported bin adds to the error of `total` points. */
  function Share(out: ReliabilityBin, total: nat): real {
    if total > 0 && out.count > 0
    then out.count as real / total as real * Abs(out.accuracy - out.confidence)
    else 0.0
  }

  lemma ReportedReports(bin: Bin, b: nat, points: seq<Point>)
    requires Holds(bin, points)
    ensures Reports(Reported(bin, b), b, points)
  {
  }

  /** The error after bins 0 to b-1. */
  function EceSoFar(points: seq<Point>, b: nat): real {
    if points == [] then 0.0 else GapBins(points, b) / |points| as real
  }

  lemma EceStep(points: seq<Point>, b: nat, out: ReliabilityBin)
    requires Reports(out, b, InBin(points, b))
    ensures EceSoFar(points, b + 1) == EceSoFar(points, b) + Share(out, |points|)
  {
    var mine := InBin(points, b);
    BinIsSmall(points, b);
    if points != [] {
      AddShares(GapBins(points, b), Abs(Sum(mine, Surprise)), |points| as real);
      if mine != [] { BinTerm(mine, |points|); }
    }
  }

  lemma NoShares(points: seq<Point>)
    ensures EceSoFar(points, 0) == 0.0
  {
  }

  /** `calibration`. */
  method Calibration(points: seq<Point>) returns (r: Option<(real, seq<ReliabilityBin>)>)
    ensures r.None? <==> !NoNegative(points)
    ensures r.Some? ==> r.value.0 == Ece(points)
    ensures r.Some? && points == [] ==> r.value.0 == 0.0
    ensures r.Some? ==> |r.value.1| == 10 && forall b :: 0 <= b < BINS ==> Reports(r.value.1[b], b, InBin(points, b))
  {
    var filled := FillBins(points);
    if filled.None? { return None; }
    var bins := filled.value;
    var ece := 0.0;
    var out: seq<ReliabilityBin> := [];
    NoShares(points);
    for b := 0 to BINS
      invariant |out| == b
      invariant forall k :: 0 <= k < b ==> Reports(out[k], k, InBin(points, k))
      invariant ece == EceSoFar(points, b)
    {
      var one := Reported(bins[b], b);
      ReportedReports(bins[b], b, InBin(points, b));
      EceStep(points, b, one);
      ece := ece + Share(one, |points|);
      out := out + [one];
    }
    r := Some((ece, out));
  }

  lemma {:induction false} BinIsSmall(points: seq<Point>, b: int)
    ensures |InBin(points, b)| <= |points|
  {
    if points != [] { BinIsSmall(points[1..], b); }
  }

  lemma AddShares(x: real, y: real, t: real)
    requires t > 0.0
    ensures (x + y) / t == x / t + y / t
    ensures y == 0.0 ==> y / t == 0.0
  {
  }
}
