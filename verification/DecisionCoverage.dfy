/**
 * How many decisions can be automated (src/lib/decision-eval.ts): `coverageAtAccuracy` finds the largest
 * share that keeps a target accuracy, and the automation curve is read off at fixed thresholds.
 */
module DecisionCoverage {
  import opened Wrappers
  import opened Reals
  import opened DecisionMetrics

  // ------------------------------------------------------------------------------------------
  // What a threshold keeps
  // ------------------------------------------------------------------------------------------

  /** The decisions at or above a confidence. */
  function Kept(points: seq<Point>, t: real): nat {
    if points == [] then 0 else (if points[0].conf >= t then 1 else 0) + Kept(points[1..], t)
  }

  /** Those of them that are right. */
  function KeptHits(points: seq<Point>, t: real): nat {
    if points == [] then 0
    else (if points[0].conf >= t && points[0].correct then 1 else 0) + KeptHits(points[1..], t)
  }

  function Hits(points: seq<Point>): nat {
    if points == [] then 0 else (if points[0].correct then 1 else 0) + Hits(points[1..])
  }

  /** Some decisions are kept, and enough of them are right. */
  predicate Qualifies(points: seq<Point>, target: real, t: real) {
    Kept(points, t) > 0 && KeptHits(points, t) as real / Kept(points, t) as real >= target
  }

  function Coverage(points: seq<Point>, t: real): real {
    if points == [] then 0.0 else Kept(points, t) as real / |points| as real
  }

  /** `best` is the largest coverage over every threshold that qualifies, and missing when none does. */
  ghost predicate IsBestCoverage(points: seq<Point>, target: real, best: Option<real>) {
    && (best.None? ==> forall t :: !Qualifies(points, target, t))
    && (best.Some? ==>
          && (exists t :: Qualifies(points, target, t) && best.value == Coverage(points, t))
          && forall t :: Qualifies(points, target, t) ==> Coverage(points, t) <= best.value)
  }

  // ------------------------------------------------------------------------------------------
  // The sort
  // ------------------------------------------------------------------------------------------

  predicate Descending(s: seq<Point>) { forall i, j :: 0 <= i < j < |s| ==> s[i].conf >= s[j].conf }

  function Insert(p: Point, s: seq<Point>): seq<Point> {
    if s == [] || p.conf >= s[0].conf then [p] + s else [s[0]] + Insert(p, s[1..])
  }

  /** The stable sort by falling confidence. */
  function SortDescending(points: seq<Point>): seq<Point> {
    if points == [] then [] else Insert(points[0], SortDescending(points[1..]))
  }

  lemma {:induction false} InsertKeeps(p: Point, s: seq<Point>)
    ensures multiset(Insert(p, s)) == multiset{p} + multiset(s)
  {
    if s != [] && p.conf < s[0].conf {
      InsertKeeps(p, s[1..]);
      assert s == [s[0]] + s[1..];
    }
  }

  /** No point is above a confidence. */
  predicate AtMost(s: seq<Point>, c: real) { forall i :: 0 <= i < |s| ==> s[i].conf <= c }

  lemma {:induction false} InsertBelow(p: Point, s: seq<Point>, c: real)
    requires AtMost(s, c) && p.conf <= c
    ensures AtMost(Insert(p, s), c)
  {
    if s != [] && p.conf < s[0].conf { InsertBelow(p, s[1..], c); }
  }

  lemma {:induction false} InsertDescends(p: Point, s: seq<Point>)
    requires Descending(s)
    ensures Descending(Insert(p, s))
  {
    if s != [] && p.conf < s[0].conf {
      InsertDescends(p, s[1..]);
      InsertBelow(p, s[1..], s[0].conf);
    }
  }

  lemma {:induction false} SortSorts(points: seq<Point>)
    ensures Descending(SortDescending(points))
    ensures multiset(SortDescending(points)) == multiset(points)
    ensures |SortDescending(points)| == |points|
  {
    assert |SortDescending(points)| == |multiset(SortDescending(points))| && |points| == |multiset(points)|;
    if points != [] {
      SortSorts(points[1..]);
      InsertKeeps(points[0], SortDescending(points[1..]));
      InsertDescends(points[0], SortDescending(points[1..]));
      assert points == [points[0]] + points[1..];
    }
  }

  lemma {:induction false} KeptAppend(a: seq<Point>, b: seq<Point>, t: real)
    ensures Kept(a + b, t) == Kept(a, t) + Kept(b, t)
    ensures KeptHits(a + b, t) == KeptHits(a, t) + KeptHits(b, t)
    ensures Hits(a + b) == Hits(a) + Hits(b)
  {
    if a == [] {
      assert a + b == b;
    } else {
      assert (a + b)[1..] == a[1..] + b;
      KeptAppend(a[1..], b, t);
    }
  }

  lemma WithoutFirst(a: seq<Point>)
    requires a != []
    ensures multiset(a[1..]) == multiset(a) - multiset{a[0]}
  {
    assert a == [a[0]] + a[1..];
  }

  lemma WithoutMiddle(left: seq<Point>, p: Point, right: seq<Point>)
    ensures multiset(left + right) == multiset(left + ([p] + right)) - multiset{p}
  {
    assert multiset(left + ([p] + right)) == multiset(left) + (multiset{p} + multiset(right));
  }

  lemma KeptSnoc(points: seq<Point>, p: Point, t: real)
    ensures Kept(points + [p], t) == Kept(points, t) + if p.conf >= t then 1 else 0
    ensures KeptHits(points + [p], t) == KeptHits(points, t) + if p.conf >= t && p.correct then 1 else 0
    ensures Hits(points + [p]) == Hits(points) + if p.correct then 1 else 0
  {
    KeptAppend(points, [p], t);
    assert [p][1..] == [];
  }

  /** What a threshold keeps does not depend on the order of the points. */
  lemma {:induction false} KeptIgnoresOrder(a: seq<Point>, b: seq<Point>, t: real)
    requires multiset(a) == multiset(b)
    ensures |a| == |b| && Kept(a, t) == Kept(b, t) && KeptHits(a, t) == KeptHits(b, t)
  {
    assert |a| == |multiset(a)| && |b| == |multiset(b)|;
    if a != [] {
      var p := a[0];
      assert p in multiset(b);
      var i :| 0 <= i < |b| && b[i] == p;
      var left, right := b[..i], b[i + 1..];
      assert b == left + ([p] + right);
      WithoutFirst(a);
      WithoutMiddle(left, p, right);
      KeptIgnoresOrder(a[1..], left + right, t);
      KeptAppend(left, [p] + right, t);
      KeptAppend([p], right, t);
      KeptAppend(left, right, t);
      assert [p][1..] == [];
    }
  }

  // ------------------------------------------------------------------------------------------
  // The scan
  // ------------------------------------------------------------------------------------------

  /** The scan may cut after `k`: the next point does not tie with it. */
  predicate Boundary(sorted: seq<Point>, k: nat)
    requires k < |sorted|
  {
    k == |sorted| - 1 || sorted[k + 1].conf != sorted[k].conf
  }

  predicate Good(sorted: seq<Point>, target: real, k: nat)
    requires k < |sorted|
  {
    Boundary(sorted, k) && Hits(sorted[..k + 1]) as real / (k + 1) as real >= target
  }

  lemma {:induction false} AllKept(s: seq<Point>, t: real)
    requires forall p :: p in s ==> p.conf >= t
    ensures Kept(s, t) == |s| && KeptHits(s, t) == Hits(s)
  {
    if s != [] { AllKept(s[1..], t); }
  }

  lemma {:induction false} NoneKept(s: seq<Point>, t: real)
    requires forall p :: p in s ==> p.conf < t
    ensures Kept(s, t) == 0 && KeptHits(s, t) == 0
  {
    if s != [] { NoneKept(s[1..], t); }
  }

  /** A threshold keeps a prefix of the sorted points. */
  lemma KeptIsPrefix(sorted: seq<Point>, t: real, m: nat)
    requires m <= |sorted|
    requires forall i :: 0 <= i < m ==> sorted[i].conf >= t
    requires forall i :: m <= i < |sorted| ==> sorted[i].conf < t
    ensures Kept(sorted, t) == m && KeptHits(sorted, t) == Hits(sorted[..m])
  {
    assert sorted == sorted[..m] + sorted[m..];
    AllKept(sorted[..m], t);
    NoneKept(sorted[m..], t);
    KeptAppend(sorted[..m], sorted[m..], t);
  }

  /** The prefix a threshold keeps. */
  lemma {:induction false} FindCut(sorted: seq<Point>, t: real, n: nat) returns (m: nat)
    requires Descending(sorted) && n <= |sorted|
    requires forall i :: n <= i < |sorted| ==> sorted[i].conf < t
    ensures m <= n
    ensures forall i :: 0 <= i < m ==> sorted[i].conf >= t
    ensures forall i :: m <= i < |sorted| ==> sorted[i].conf < t
  {
    if n > 0 && sorted[n - 1].conf < t {
      m := FindCut(sorted, t, n - 1);
    } else {
      m := n;
    }
  }

  /** Cutting at a boundary is cutting at the confidence found there. */
  lemma BoundaryIsThreshold(sorted: seq<Point>, k: nat)
    requires Descending(sorted) && k < |sorted| && Boundary(sorted, k)
    ensures Kept(sorted, sorted[k].conf) == k + 1
    ensures KeptHits(sorted, sorted[k].conf) == Hits(sorted[..k + 1])
  {
    KeptIsPrefix(sorted, sorted[k].conf, k + 1);
  }

  /** A qualifying threshold is a good cut of the scan, with the same coverage. */
  lemma ThresholdIsBoundary(sorted: seq<Point>, target: real, t: real)
    requires Descending(sorted) && Qualifies(sorted, target, t)
    ensures Kept(sorted, t) <= |sorted| && Good(sorted, target, Kept(sorted, t) - 1)
  {
    var m := FindCut(sorted, t, |sorted|);
    KeptIsPrefix(sorted, t, m);
  }

  /** The last good cut so far; -1 for none. */
  predicate LastGood(sorted: seq<Point>, target: real, k: nat, at: int)
    requires k <= |sorted|
  {
    && -1 <= at < k
    && (at >= 0 ==> Good(sorted, target, at))
    && forall j :: at < j < k ==> !Good(sorted, target, j)
  }

  lemma LastGoodStep(sorted: seq<Point>, target: real, k: nat, at: int)
    requires k < |sorted| && LastGood(sorted, target, k, at)
    ensures LastGood(sorted, target, k + 1, if Good(sorted, target, k) then k else at)
  {
  }

  lemma HitsStep(sorted: seq<Point>, k: nat)
    requires k < |sorted|
    ensures Hits(sorted[..k + 1]) == Hits(sorted[..k]) + if sorted[k].correct then 1 else 0
  {
    KeptSnoc(sorted[..k], sorted[k], 0.0);
    assert sorted[..k + 1] == sorted[..k] + [sorted[k]];
  }

  lemma LastGoodIsBest(points: seq<Point>, sorted: seq<Point>, target: real, at: int)
    requires Descending(sorted) && multiset(sorted) == multiset(points) && |sorted| == |points|
    requires LastGood(sorted, target, |sorted|, at)
    ensures IsBestCoverage(points, target, if at < 0 then None else Some((at + 1) as real / |points| as real))
  {
    forall t | Qualifies(points, target, t)
      ensures 0 < Kept(points, t) <= at + 1
    {
      KeptIgnoresOrder(points, sorted, t);
      ThresholdIsBoundary(sorted, target, t);
    }
    if at >= 0 {
      var t := sorted[at].conf;
      BoundaryIsThreshold(sorted, at);
      KeptIgnoresOrder(points, sorted, t);
      assert Qualifies(points, target, t);
      forall u | Qualifies(points, target, u)
        ensures Coverage(points, u) <= (at + 1) as real / |points| as real
      {
        DivideKeepsOrder(Kept(points, u) as real, (at + 1) as real, |points| as real);
      }
    }
  }

  /** `coverageAtAccuracy`. */
  method CoverageAtAccuracy(points: seq<Point>, target: real) returns (best: Option<real>)
    ensures IsBestCoverage(points, target, best)
  {
    var sorted := SortDescending(points);
    SortSorts(points);
    var hits := 0;
    best := None;
    ghost var at := -1;
    for k := 0 to |sorted|
      invariant hits == Hits(sorted[..k])
      invariant LastGood(sorted, target, k, at)
      invariant best == if at < 0 then None else Some((at + 1) as real / |points| as real)
    {
      HitsStep(sorted, k);
      LastGoodStep(sorted, target, k, at);
      hits := hits + if sorted[k].correct then 1 else 0;
      var boundary := k == |sorted| - 1 || sorted[k + 1].conf != sorted[k].conf;
      if boundary && hits as real / (k + 1) as real >= target {
        best := Some((k + 1) as real / |sorted| as real);
        at := k;
      }
    }
    LastGoodIsBest(points, sorted, target, at);
  }

  // ------------------------------------------------------------------------------------------
  // What follows
  // ------------------------------------------------------------------------------------------

  lemma QualifiesIgnoresOrder(a: seq<Point>, b: seq<Point>, target: real, t: real)
    requires multiset(a) == multiset(b)
    ensures Qualifies(a, target, t) <==> Qualifies(b, target, t)
    ensures Coverage(a, t) == Coverage(b, t)
  {
    KeptIgnoresOrder(a, b, t);
  }

  /** The result depends on neither the order of the decisions nor how ties are broken. */
  lemma OrderDoesNotMatter(a: seq<Point>, b: seq<Point>, target: real, bestA: Option<real>, bestB: Option<real>)
    requires multiset(a) == multiset(b)
    requires IsBestCoverage(a, target, bestA) && IsBestCoverage(b, target, bestB)
    ensures bestA == bestB
  {
    forall t ensures Qualifies(a, target, t) <==> Qualifies(b, target, t) { QualifiesIgnoresOrder(a, b, target, t); }
    forall t ensures Coverage(a, t) == Coverage(b, t) { QualifiesIgnoresOrder(a, b, target, t); }
  }

  /** A stricter target never automates more. */
  lemma StricterCoversLess(points: seq<Point>, low: real, high: real, bestLow: Option<real>, bestHigh: Option<real>)
    requires low <= high
    requires IsBestCoverage(points, low, bestLow) && IsBestCoverage(points, high, bestHigh)
    ensures bestHigh.Some? ==> bestLow.Some? && bestHigh.value <= bestLow.value
  {
    if bestHigh.Some? {
      var t :| Qualifies(points, high, t) && bestHigh.value == Coverage(points, t);
      assert Qualifies(points, low, t);
    }
  }

  datatype AutomationPoint = AutomationPoint(threshold: real, coverage: real, accuracy: real, count: nat)

  /** One point of the automation curve of `buildDecisionReport`. */
  method Automate(points: seq<Point>, threshold: real) returns (a: AutomationPoint)
    ensures a.threshold == threshold && a.count == Kept(points, threshold)
    ensures a.coverage * |points| as real == a.count as real && (points == [] ==> a.coverage == 0.0)
    ensures a.coverage == Coverage(points, threshold)
    ensures a.accuracy * a.count as real == KeptHits(points, threshold) as real
    ensures a.count == 0 ==> a.accuracy == 0.0
  {
    var count, hits := 0, 0;
    for i := 0 to |points|
      invariant count == Kept(points[..i], threshold) && hits == KeptHits(points[..i], threshold)
    {
      assert points[..i + 1] == points[..i] + [points[i]];
      KeptSnoc(points[..i], points[i], threshold);
      if points[i].conf >= threshold {
        count := count + 1;
        hits := hits + if points[i].correct then 1 else 0;
      }
    }
    assert points[..|points|] == points;
    a := AutomationPoint(threshold,
                         if |points| > 0 then count as real / |points| as real else 0.0,
                         Rate(hits as real, count),
                         count);
    CurveFalls(points, threshold, threshold);
  }

  /** No point of the curve that keeps the target accuracy covers more than the reported best. */
  lemma CurveStaysBelowBest(points: seq<Point>, target: real, best: Option<real>, a: AutomationPoint)
    requires IsBestCoverage(points, target, best)
    requires a.count == Kept(points, a.threshold) && a.coverage == Coverage(points, a.threshold)
    requires a.accuracy * a.count as real == KeptHits(points, a.threshold) as real
    requires a.count > 0 && a.accuracy >= target
    ensures best.Some? && a.coverage <= best.value
  {
    Quotient(KeptHits(points, a.threshold) as real, a.count as real, a.accuracy);
    assert Qualifies(points, target, a.threshold);
  }

  /** Raising the threshold never keeps more decisions. */
  lemma {:induction false} CurveFalls(points: seq<Point>, t: real, u: real)
    requires t <= u
    ensures Kept(points, u) <= Kept(points, t) <= |points|
    ensures KeptHits(points, u) <= KeptHits(points, t) <= Kept(points, t)
  {
    if points != [] { CurveFalls(points[1..], t, u); }
  }
}
