/**
 * The report of a classification eval (`buildClassificationReport` in src/lib/classification-eval.ts):
 * confusion matrix, precision, recall and F1. Numbers are exact.
 */
module Classification {
  import opened Wrappers
  import opened Reals

  datatype ClassCase = ClassCase(expected: string, predicted: string)

  /** The index a label has in the map built from the list: the last one, if it is listed twice. */
  function IndexOf(labels: seq<string>, name: string): (o: Option<nat>)
    ensures o.Some? ==> o.value < |labels| && labels[o.value] == name
    ensures o.None? <==> name !in labels
  {
    if labels == [] then None
    else
      var last := |labels| - 1;
      assert labels == labels[..last] + [labels[last]];
      if labels[last] == name then Some(last) else IndexOf(labels[..last], name)
  }

  predicate DistinctLabels(labels: seq<string>) { forall a, b :: 0 <= a < b < |labels| ==> labels[a] != labels[b] }

  /** With distinct labels, the index of a name is the one place where it stands. */
  lemma {:induction false} IndexOfListed(labels: seq<string>, i: nat)
    requires i < |labels| && DistinctLabels(labels)
    ensures IndexOf(labels, labels[i]) == Some(i)
  {
    if i < |labels| - 1 { IndexOfListed(labels[..|labels| - 1], i); }
  }

  // ------------------------------------------------------------------------------------------
  // Counts
  // ------------------------------------------------------------------------------------------

  predicate IsTrue(labels: seq<string>, c: ClassCase, i: nat) { IndexOf(labels, c.expected) == Some(i) }

  predicate InCell(labels: seq<string>, c: ClassCase, i: nat, j: nat) {
    IsTrue(labels, c, i) && IndexOf(labels, c.predicted) == Some(j)
  }

  predicate IsMiss(labels: seq<string>, c: ClassCase, i: nat) {
    IsTrue(labels, c, i) && IndexOf(labels, c.predicted).None?
  }

  predicate InSet(labels: seq<string>, c: ClassCase) { IndexOf(labels, c.expected).Some? }

  function Count(cases: seq<ClassCase>, p: ClassCase -> bool): nat {
    if cases == [] then 0 else Count(cases[..|cases| - 1], p) + if p(cases[|cases| - 1]) then 1 else 0
  }

  /** Cases of true class `i` predicted as class `j`. */
  function Cell(cases: seq<ClassCase>, labels: seq<string>, i: nat, j: nat): nat {
    Count(cases, c => InCell(labels, c, i, j))
  }

  function Support(cases: seq<ClassCase>, labels: seq<string>, i: nat): nat {
    Count(cases, c => IsTrue(labels, c, i))
  }

  /** Cases of true class `i` for which no label of the set was predicted. */
  function Misses(cases: seq<ClassCase>, labels: seq<string>, i: nat): nat {
    Count(cases, c => IsMiss(labels, c, i))
  }

  function Unknown(cases: seq<ClassCase>, labels: seq<string>): nat {
    Count(cases, c => InSet(labels, c) && IndexOf(labels, c.predicted).None?)
  }

  function Rated(cases: seq<ClassCase>, labels: seq<string>): nat { Count(cases, c => InSet(labels, c)) }

  function RowSum(cases: seq<ClassCase>, labels: seq<string>, i: nat, k: nat): nat {
    if k == 0 then 0 else RowSum(cases, labels, i, k - 1) + Cell(cases, labels, i, k - 1)
  }

  function ColSum(cases: seq<ClassCase>, labels: seq<string>, j: nat, k: nat): nat {
    if k == 0 then 0 else ColSum(cases, labels, j, k - 1) + Cell(cases, labels, k - 1, j)
  }

  function Diagonal(cases: seq<ClassCase>, labels: seq<string>, k: nat): nat {
    if k == 0 then 0 else Diagonal(cases, labels, k - 1) + Cell(cases, labels, k - 1, k - 1)
  }

  function SupportSum(cases: seq<ClassCase>, labels: seq<string>, k: nat): nat {
    if k == 0 then 0 else SupportSum(cases, labels, k - 1) + Support(cases, labels, k - 1)
  }

  function MissSum(cases: seq<ClassCase>, labels: seq<string>, k: nat): nat {
    if k == 0 then 0 else MissSum(cases, labels, k - 1) + Misses(cases, labels, k - 1)
  }

  function CellSum(cases: seq<ClassCase>, labels: seq<string>, k: nat): nat {
    if k == 0 then 0 else CellSum(cases, labels, k - 1) + RowSum(cases, labels, k - 1, |labels|)
  }

  // ------------------------------------------------------------------------------------------
  // Filling the matrix
  // ------------------------------------------------------------------------------------------

  /** The first loop of `buildClassificationReport`. */
  method Tabulate(cases: seq<ClassCase>, labels: seq<string>)
    returns (confusion: array2<nat>, support: array<nat>, unknown: nat)
    ensures fresh(confusion) && fresh(support)
    ensures confusion.Length0 == confusion.Length1 == support.Length == |labels|
    ensures forall i, j :: 0 <= i < |labels| && 0 <= j < |labels| ==> confusion[i, j] == Cell(cases, labels, i, j)
    ensures forall i :: 0 <= i < |labels| ==> support[i] == Support(cases, labels, i)
    ensures unknown == Unknown(cases, labels)
  {
    var n := |labels|;
    confusion := new nat[n, n]((i, j) => 0);
    support := new nat[n](i => 0);
    unknown := 0;
    for k := 0 to |cases|
      invariant forall i, j :: 0 <= i < n && 0 <= j < n ==> confusion[i, j] == Cell(cases[..k], labels, i, j)
      invariant forall i :: 0 <= i < n ==> support[i] == Support(cases[..k], labels, i)
      invariant unknown == Unknown(cases[..k], labels)
    {
      assert cases[..k + 1][..k] == cases[..k];
      var t, p := IndexOf(labels, cases[k].expected), IndexOf(labels, cases[k].predicted);
      if t.None? { continue; }
      support[t.value] := support[t.value] + 1;
      if p.None? {
        unknown := unknown + 1;
        continue;
      }
      confusion[t.value, p.value] := confusion[t.value, p.value] + 1;
    }
    assert cases[..|cases|] == cases;
  }

  // ------------------------------------------------------------------------------------------
  // The counts add up
  // ------------------------------------------------------------------------------------------

  lemma {:induction false} RowSumSnoc(cases: seq<ClassCase>, labels: seq<string>, i: nat, k: nat)
    requires cases != []
    ensures var c := cases[|cases| - 1];
            RowSum(cases, labels, i, k) == RowSum(cases[..|cases| - 1], labels, i, k)
              + if IsTrue(labels, c, i) && IndexOf(labels, c.predicted).Some? && IndexOf(labels, c.predicted).value < k then 1 else 0
  {
    if k > 0 { RowSumSnoc(cases, labels, i, k - 1); }
  }

  /** A row of the matrix and the misses of its class are the support of the class. */
  lemma {:induction false} RowIsSupport(cases: seq<ClassCase>, labels: seq<string>, i: nat)
    ensures RowSum(cases, labels, i, |labels|) + Misses(cases, labels, i) == Support(cases, labels, i)
  {
    if cases == [] {
      EmptyRow(labels, i, |labels|);
    } else {
      RowIsSupport(cases[..|cases| - 1], labels, i);
      RowSumSnoc(cases, labels, i, |labels|);
    }
  }

  lemma {:induction false} EmptyRow(labels: seq<string>, i: nat, k: nat)
    ensures RowSum([], labels, i, k) == 0
  {
    if k > 0 { EmptyRow(labels, i, k - 1); }
  }

  lemma {:induction false} SupportSumSnoc(cases: seq<ClassCase>, labels: seq<string>, k: nat)
    requires cases != []
    ensures var c := cases[|cases| - 1];
            SupportSum(cases, labels, k) == SupportSum(cases[..|cases| - 1], labels, k)
              + if InSet(labels, c) && IndexOf(labels, c.expected).value < k then 1 else 0
  {
    if k > 0 { SupportSumSnoc(cases, labels, k - 1); }
  }

  lemma {:induction false} MissSumSnoc(cases: seq<ClassCase>, labels: seq<string>, k: nat)
    requires cases != []
    ensures var c := cases[|cases| - 1];
            MissSum(cases, labels, k) == MissSum(cases[..|cases| - 1], labels, k)
              + if InSet(labels, c) && IndexOf(labels, c.predicted).None? && IndexOf(labels, c.expected).value < k then 1 else 0
  {
    if k > 0 { MissSumSnoc(cases, labels, k - 1); }
  }

  lemma {:induction false} EmptySums(labels: seq<string>, k: nat)
    ensures SupportSum([], labels, k) == 0 && MissSum([], labels, k) == 0
  {
    if k > 0 { EmptySums(labels, k - 1); }
  }

  /** Every rated case is in exactly one class; every unknown is a miss of exactly one class. */
  lemma {:induction false} ClassesPartition(cases: seq<ClassCase>, labels: seq<string>)
    ensures SupportSum(cases, labels, |labels|) == Rated(cases, labels)
    ensures MissSum(cases, labels, |labels|) == Unknown(cases, labels)
  {
    if cases == [] {
      EmptySums(labels, |labels|);
    } else {
      ClassesPartition(cases[..|cases| - 1], labels);
      SupportSumSnoc(cases, labels, |labels|);
      MissSumSnoc(cases, labels, |labels|);
    }
  }

  lemma {:induction false} RowsAreSupports(cases: seq<ClassCase>, labels: seq<string>, k: nat)
    ensures CellSum(cases, labels, k) + MissSum(cases, labels, k) == SupportSum(cases, labels, k)
  {
    if k > 0 {
      RowsAreSupports(cases, labels, k - 1);
      RowIsSupport(cases, labels, k - 1);
    }
  }

  /** The matrix and the unknowns account for every case with a label of the set, once. */
  lemma MatrixAccounts(cases: seq<ClassCase>, labels: seq<string>)
    ensures CellSum(cases, labels, |labels|) + Unknown(cases, labels) == Rated(cases, labels)
  {
    RowsAreSupports(cases, labels, |labels|);
    ClassesPartition(cases, labels);
  }

  lemma {:induction false} CellInRow(cases: seq<ClassCase>, labels: seq<string>, i: nat, j: nat, k: nat)
    requires j < k
    ensures Cell(cases, labels, i, j) <= RowSum(cases, labels, i, k)
  {
    if j < k - 1 { CellInRow(cases, labels, i, j, k - 1); }
  }

  lemma {:induction false} CellInColumn(cases: seq<ClassCase>, labels: seq<string>, i: nat, j: nat, k: nat)
    requires i < k
    ensures Cell(cases, labels, i, j) <= ColSum(cases, labels, j, k)
  {
    if i < k - 1 { CellInColumn(cases, labels, i, j, k - 1); }
  }

  /** The hits of a class are within its column and within its support: neither error count is negative. */
  lemma HitsFit(cases: seq<ClassCase>, labels: seq<string>, i: nat)
    requires i < |labels|
    ensures Cell(cases, labels, i, i) <= ColSum(cases, labels, i, |labels|)
    ensures Cell(cases, labels, i, i) <= Support(cases, labels, i)
  {
    CellInColumn(cases, labels, i, i, |labels|);
    CellInRow(cases, labels, i, i, |labels|);
    RowIsSupport(cases, labels, i);
  }

  lemma {:induction false} CountAtMost(cases: seq<ClassCase>, p: ClassCase -> bool)
    ensures Count(cases, p) <= |cases|
    ensures (forall i :: 0 <= i < |cases| ==> p(cases[i])) ==> Count(cases, p) == |cases|
  {
    if cases != [] { CountAtMost(cases[..|cases| - 1], p); }
  }

  // ------------------------------------------------------------------------------------------
  // The counts by label
  // ------------------------------------------------------------------------------------------

  lemma {:induction false} CountSame(cases: seq<ClassCase>, p: ClassCase -> bool, q: ClassCase -> bool)
    requires forall c :: p(c) <==> q(c)
    ensures Count(cases, p) == Count(cases, q)
  {
    if cases != [] { CountSame(cases[..|cases| - 1], p, q); }
  }

  lemma IndexIs(labels: seq<string>, name: string, i: nat)
    requires i < |labels| && DistinctLabels(labels)
    ensures IndexOf(labels, name) == Some(i) <==> name == labels[i]
  {
    IndexOfListed(labels, i);
  }

  /** With distinct labels, what the cells and supports count said in labels instead of indices. */
  lemma CountsByLabel(cases: seq<ClassCase>, labels: seq<string>, i: nat, j: nat)
    requires DistinctLabels(labels) && i < |labels| && j < |labels|
    ensures Cell(cases, labels, i, j) == Count(cases, (c: ClassCase) => c.expected == labels[i] && c.predicted == labels[j])
    ensures Support(cases, labels, i) == Count(cases, (c: ClassCase) => c.expected == labels[i])
    ensures Misses(cases, labels, i) == Count(cases, (c: ClassCase) => c.expected == labels[i] && c.predicted !in labels)
  {
    forall c: ClassCase
      ensures IsTrue(labels, c, i) <==> c.expected == labels[i]
      ensures InCell(labels, c, i, j) <==> c.expected == labels[i] && c.predicted == labels[j]
    {
      IndexIs(labels, c.expected, i);
      IndexIs(labels, c.predicted, j);
    }
    CountSame(cases, c => InCell(labels, c, i, j), (c: ClassCase) => c.expected == labels[i] && c.predicted == labels[j]);
    CountSame(cases, c => IsTrue(labels, c, i), (c: ClassCase) => c.expected == labels[i]);
    CountSame(cases, c => IsMiss(labels, c, i), (c: ClassCase) => c.expected == labels[i] && c.predicted !in labels);
  }

  /** A case whose label is in the set and was predicted. */
  predicate IsHit(labels: seq<string>, c: ClassCase) { c.expected in labels && c.predicted == c.expected }

  lemma {:induction false} DiagonalSnoc(cases: seq<ClassCase>, labels: seq<string>, k: nat)
    requires cases != []
    ensures var c := cases[|cases| - 1];
            Diagonal(cases, labels, k) == Diagonal(cases[..|cases| - 1], labels, k)
              + if IsHit(labels, c) && IndexOf(labels, c.expected).value < k then 1 else 0
  {
    if k > 0 { DiagonalSnoc(cases, labels, k - 1); }
  }

  lemma {:induction false} EmptyDiagonal(labels: seq<string>, k: nat)
    ensures Diagonal([], labels, k) == 0
  {
    if k > 0 { EmptyDiagonal(labels, k - 1); }
  }

  /** The diagonal adds up to the cases of the set whose label was predicted: the hits behind the accuracy. */
  lemma {:induction false} DiagonalIsHits(cases: seq<ClassCase>, labels: seq<string>)
    ensures Diagonal(cases, labels, |labels|) == Count(cases, c => IsHit(labels, c))
  {
    if cases == [] {
      EmptyDiagonal(labels, |labels|);
    } else {
      DiagonalIsHits(cases[..|cases| - 1], labels);
      DiagonalSnoc(cases, labels, |labels|);
    }
  }

  // ------------------------------------------------------------------------------------------
  // Precision, recall, F1
  // ------------------------------------------------------------------------------------------

  datatype ClassStats = ClassStats(precision: real, recall: real, f1: real, support: nat)

  function Ratio(part: real, whole: real): real { if whole != 0.0 then part / whole else 0.0 }

  /** What the report computes from the hits, the false positives and the false negatives of a class. */
  function Stats(tp: nat, fp: nat, fn: nat): ClassStats {
    var precision, recall := Ratio(tp as real, (tp + fp) as real), Ratio(tp as real, (tp + fn) as real);
    ClassStats(precision, recall, Ratio(2.0 * precision * recall, precision + recall), tp + fn)
  }

  /** A larger whole makes the same part a smaller share. */
  lemma LargerWhole(part: real, a: real, b: real)
    requires part >= 0.0 && 0.0 < a <= b
    ensures 0.0 <= part / b <= part / a
  {
    QuotientTimes(part, a);
    QuotientTimes(part, b);
    var q := part / b;
    LessProduct(0.0, q, b);
    ScaleLess(q, a, b);
    LessProduct(q, part / a, a);
  }

  lemma ScaleLess(q: real, a: real, b: real)
    requires q >= 0.0 && a <= b
    ensures q * a <= q * b
  {
    if q > 0.0 && a < b { PositiveTimes(q, b - a); }
  }

  lemma ShareInUnit(part: real, whole: real)
    requires 0.0 <= part <= whole
    ensures 0.0 <= Ratio(part, whole) <= 1.0
  {
    if whole > 0.0 {
      QuotientTimes(part, whole);
      LessProduct(0.0, part / whole, whole);
      LessProduct(part / whole, 1.0, whole);
    }
  }

  /** With hits, F1 is the hits' share of half of both wholes taken together. */
  lemma F1OfHits(tp: real, a: real, b: real)
    requires tp > 0.0 && tp <= a && tp <= b
    ensures tp / a > 0.0 && tp / b > 0.0
    ensures 2.0 * (tp / a) * (tp / b) / (tp / a + tp / b) == 2.0 * tp / (a + b)
  {
    var p, r, f := tp / a, tp / b, 2.0 * tp / (a + b);
    QuotientTimes(tp, a);
    QuotientTimes(tp, b);
    QuotientTimes(2.0 * tp, a + b);
    PositiveShare(tp, a);
    PositiveShare(tp, b);
    HarmonicTimes(p, r, f, tp, a, b);
    Quotient(2.0 * p * r, p + r, f);
  }

  lemma PositiveShare(x: real, d: real)
    requires x > 0.0 && d > 0.0
    ensures x / d > 0.0
  {
    QuotientTimes(x, d);
    if x / d <= 0.0 { ScaleLess(d, x / d, 0.0); }
  }

  lemma HarmonicTimes(p: real, r: real, f: real, tp: real, a: real, b: real)
    requires a > 0.0 && b > 0.0 && p * a == tp && r * b == tp && f * (a + b) == 2.0 * tp
    ensures f * (p + r) == 2.0 * p * r
  {
    var ab := a * b;
    PositiveTimes(a, b);
    assert (p + r) * ab == tp * (a + b) by {
      assert p * ab == p * a * b == tp * b;
      assert r * ab == r * b * a == tp * a;
      assert (p + r) * ab == p * ab + r * ab;
    }
    assert f * (p + r) * ab == f * (a + b) * tp by {
      assert f * (p + r) * ab == f * ((p + r) * ab);
      assert f * (tp * (a + b)) == f * (a + b) * tp;
    }
    assert 2.0 * p * r * ab == 2.0 * (p * a) * (r * b);
    SameProduct(f * (p + r), 2.0 * p * r, ab);
  }

  /** Halving both wholes: their mean lies between them, so the shares do. */
  lemma BetweenShares(tp: real, a: real, b: real)
    requires tp >= 0.0 && 0.0 < a <= b
    ensures tp / b <= 2.0 * tp / (a + b) <= tp / a
  {
    var mid := (a + b) / 2.0;
    QuotientTimes(tp, mid);
    Quotient(2.0 * tp, a + b, tp / mid);
    LargerWhole(tp, a, mid);
    LargerWhole(tp, mid, b);
  }

  /**
   * All three lie in [0, 1]; F1 is 2tp / (2tp + fp + fn), and lies between precision and recall. Without
   * hits all three are 0.
   */
  lemma StatsBounds(tp: nat, fp: nat, fn: nat)
    ensures var s := Stats(tp, fp, fn);
            && 0.0 <= s.precision <= 1.0 && 0.0 <= s.recall <= 1.0 && 0.0 <= s.f1 <= 1.0
            && s.f1 == Ratio(2.0 * tp as real, (2 * tp + fp + fn) as real)
            && (s.precision <= s.f1 <= s.recall || s.recall <= s.f1 <= s.precision)
  {
    if tp == 0 {
      NoHits(fp, fn);
    } else {
      WithHits(tp, fp, fn);
      ShareInUnit(tp as real, (tp + fp) as real);
      ShareInUnit(tp as real, (tp + fn) as real);
    }
  }

  lemma NothingOf(whole: real)
    requires whole >= 0.0
    ensures Ratio(0.0, whole) == 0.0
  {
    if whole > 0.0 { Quotient(0.0, whole, 0.0); }
  }

  lemma NoHits(fp: nat, fn: nat)
    ensures var s := Stats(0, fp, fn); s.precision == s.recall == s.f1 == 0.0
    ensures Ratio(0.0, (fp + fn) as real) == 0.0
  {
    NothingOf(fp as real);
    NothingOf(fn as real);
    NothingOf((fp + fn) as real);
  }

  lemma WithHits(tp: nat, fp: nat, fn: nat)
    requires tp > 0
    ensures var s := Stats(tp, fp, fn);
            && s.f1 == Ratio(2.0 * tp as real, (2 * tp + fp + fn) as real)
            && (s.precision <= s.f1 <= s.recall || s.recall <= s.f1 <= s.precision)
  {
    var t, a, b := tp as real, (tp + fp) as real, (tp + fn) as real;
    F1OfHits(t, a, b);
    if a <= b { BetweenShares(t, a, b); } else { BetweenShares(t, b, a); }
  }

  // ------------------------------------------------------------------------------------------
  // The report
  // ------------------------------------------------------------------------------------------

  /** The statistics of class `i`. */
  function StatsOf(cases: seq<ClassCase>, labels: seq<string>, i: nat): ClassStats
    requires i < |labels|
  {
    HitsFit(cases, labels, i);
    var tp := Cell(cases, labels, i, i);
    Stats(tp, ColSum(cases, labels, i, |labels|) - tp, Support(cases, labels, i) - tp)
  }

  function PrecisionOf(s: ClassStats): real { s.precision }
  function RecallOf(s: ClassStats): real { s.recall }
  function F1Of(s: ClassStats): real { s.f1 }
  function WeightedF1Of(s: ClassStats): real { s.f1 * s.support as real }

  function SumOf(stats: seq<ClassStats>, part: ClassStats -> real): real {
    if stats == [] then 0.0 else SumOf(stats[..|stats| - 1], part) + part(stats[|stats| - 1])
  }

  datatype Report = Report(total: nat, accuracy: real, macroF1: real, macroPrecision: real, macroRecall: real,
                           weightedF1: real, unknownCount: nat, perClass: seq<ClassStats>)

  predicate IsReport(cases: seq<ClassCase>, labels: seq<string>, r: Report) {
    var n := |labels| as real;
    && r.total == |cases| && r.unknownCount == Unknown(cases, labels)
    && r.accuracy == Ratio(Diagonal(cases, labels, |labels|) as real, |cases| as real)
    && |r.perClass| == |labels| && AreStats(cases, labels, r.perClass)
    && r.macroF1 == Ratio(SumOf(r.perClass, F1Of), n)
    && r.macroPrecision == Ratio(SumOf(r.perClass, PrecisionOf), n)
    && r.macroRecall == Ratio(SumOf(r.perClass, RecallOf), n)
    && r.weightedF1 == Ratio(SumOf(r.perClass, WeightedF1Of), SupportSum(cases, labels, |labels|) as real)
  }

  /** The sum of one column of the matrix. */
  method SumColumn(cases: seq<ClassCase>, labels: seq<string>, confusion: array2<nat>, j: nat) returns (sum: nat)
    requires confusion.Length0 == confusion.Length1 == |labels| && j < |labels|
    requires forall i, k :: 0 <= i < |labels| && 0 <= k < |labels| ==> confusion[i, k] == Cell(cases, labels, i, k)
    ensures sum == ColSum(cases, labels, j, |labels|)
  {
    sum := 0;
    for r := 0 to |labels|
      invariant sum == ColSum(cases, labels, j, r)
    {
      sum := sum + confusion[r, j];
    }
  }

  /** The sum of the diagonal. */
  method SumDiagonal(cases: seq<ClassCase>, labels: seq<string>, confusion: array2<nat>) returns (correct: nat)
    requires confusion.Length0 == confusion.Length1 == |labels|
    requires forall i, k :: 0 <= i < |labels| && 0 <= k < |labels| ==> confusion[i, k] == Cell(cases, labels, i, k)
    ensures correct == Diagonal(cases, labels, |labels|)
  {
    correct := 0;
    for i := 0 to |labels|
      invariant correct == Diagonal(cases, labels, i)
    {
      correct := correct + confusion[i, i];
    }
  }

  /** The statistics of one class. */
  method OneClass(cases: seq<ClassCase>, labels: seq<string>, confusion: array2<nat>, support: array<nat>, i: nat)
    returns (s: ClassStats)
    requires confusion.Length0 == confusion.Length1 == support.Length == |labels| && i < |labels|
    requires forall r, k :: 0 <= r < |labels| && 0 <= k < |labels| ==> confusion[r, k] == Cell(cases, labels, r, k)
    requires support[i] == Support(cases, labels, i)
    ensures s == StatsOf(cases, labels, i) && s.support == support[i]
  {
    var colSum := SumColumn(cases, labels, confusion, i);
    HitsFit(cases, labels, i);
    var tp := confusion[i, i];
    s := Stats(tp, colSum - tp, support[i] - tp);
  }

  /** The running sums over the classes. */
  datatype Sums = Sums(f1: real, precision: real, recall: real, weighted: real)

  function SumsOf(stats: seq<ClassStats>): Sums {
    Sums(SumOf(stats, F1Of), SumOf(stats, PrecisionOf), SumOf(stats, RecallOf), SumOf(stats, WeightedF1Of))
  }

  function Add(sums: Sums, s: ClassStats): Sums {
    Sums(sums.f1 + F1Of(s), sums.precision + PrecisionOf(s), sums.recall + RecallOf(s), sums.weighted + WeightedF1Of(s))
  }

  lemma SumsSnoc(stats: seq<ClassStats>, s: ClassStats)
    ensures SumsOf(stats + [s]) == Add(SumsOf(stats), s)
  {
    assert (stats + [s])[..|stats|] == stats;
  }

  predicate AreStats(cases: seq<ClassCase>, labels: seq<string>, stats: seq<ClassStats>) {
    |stats| <= |labels| && forall i :: 0 <= i < |stats| ==> stats[i] == StatsOf(cases, labels, i)
  }

  /** `buildClassificationReport`. */
  method BuildClassificationReport(cases: seq<ClassCase>, labels: seq<string>) returns (r: Report)
    ensures IsReport(cases, labels, r)
  {
    var confusion, support, unknown := Tabulate(cases, labels);
    var correct := SumDiagonal(cases, labels, confusion);
    var perClass, sums, supportSum := ClassLoop(cases, labels, confusion, support);
    var n := |labels| as real;
    r := Report(|cases|, Ratio(correct as real, |cases| as real), Ratio(sums.f1, n), Ratio(sums.precision, n),
                Ratio(sums.recall, n), Ratio(sums.weighted, supportSum as real), unknown, perClass);
  }

  /** The loop over the classes. */
  method ClassLoop(cases: seq<ClassCase>, labels: seq<string>, confusion: array2<nat>, support: array<nat>)
    returns (perClass: seq<ClassStats>, sums: Sums, supportSum: nat)
    requires confusion.Length0 == confusion.Length1 == support.Length == |labels|
    requires forall r, k :: 0 <= r < |labels| && 0 <= k < |labels| ==> confusion[r, k] == Cell(cases, labels, r, k)
    requires forall i :: 0 <= i < |labels| ==> support[i] == Support(cases, labels, i)
    ensures |perClass| == |labels| && AreStats(cases, labels, perClass)
    ensures sums == SumsOf(perClass) && supportSum == SupportSum(cases, labels, |labels|)
  {
    perClass, sums, supportSum := [], Sums(0.0, 0.0, 0.0, 0.0), 0;
    for i := 0 to |labels|
      invariant |perClass| == i && SummedUp(cases, labels, perClass, sums, supportSum)
    {
      var s := OneClass(cases, labels, confusion, support, i);
      SummedUpStep(cases, labels, perClass, sums, supportSum);
      perClass, sums := perClass + [s], Add(sums, s);
      supportSum := supportSum + support[i];
    }
  }

  /** The statistics of the first classes, and the running sums over them. */
  predicate SummedUp(cases: seq<ClassCase>, labels: seq<string>, stats: seq<ClassStats>, sums: Sums, supportSum: nat) {
    AreStats(cases, labels, stats) && sums == SumsOf(stats) && supportSum == SupportSum(cases, labels, |stats|)
  }

  lemma SummedUpStep(cases: seq<ClassCase>, labels: seq<string>, stats: seq<ClassStats>, sums: Sums, supportSum: nat)
    requires SummedUp(cases, labels, stats, sums, supportSum) && |stats| < |labels|
    ensures var s := StatsOf(cases, labels, |stats|);
            SummedUp(cases, labels, stats + [s], Add(sums, s), supportSum + Support(cases, labels, |stats|))
  {
    SumsSnoc(stats, StatsOf(cases, labels, |stats|));
  }

  // ------------------------------------------------------------------------------------------
  // Accuracy
  // ------------------------------------------------------------------------------------------

  function WeightedRecallOf(s: ClassStats): real { s.recall * s.support as real }

  lemma RecallOfClass(cases: seq<ClassCase>, labels: seq<string>, i: nat)
    requires i < |labels|
    ensures WeightedRecallOf(StatsOf(cases, labels, i)) == Cell(cases, labels, i, i) as real
  {
    HitsFit(cases, labels, i);
    var tp := Cell(cases, labels, i, i);
    RecallTimesSupport(tp, ColSum(cases, labels, i, |labels|) - tp, Support(cases, labels, i) - tp);
  }

  /** Recall times support, summed over the classes, is the sum of the diagonal. */
  lemma {:induction false} WeightedRecallIsDiagonal(cases: seq<ClassCase>, labels: seq<string>, stats: seq<ClassStats>)
    requires AreStats(cases, labels, stats)
    ensures SumOf(stats, WeightedRecallOf) == Diagonal(cases, labels, |stats|) as real
    decreases |stats|
  {
    if stats != [] {
      WeightedRecallIsDiagonal(cases, labels, stats[..|stats| - 1]);
      RecallOfClass(cases, labels, |stats| - 1);
    }
  }

  lemma RecallTimesSupport(tp: nat, fp: nat, fn: nat)
    ensures WeightedRecallOf(Stats(tp, fp, fn)) == tp as real
  {
    if tp + fn > 0 { QuotientTimes(tp as real, (tp + fn) as real); }
  }

  /** When every case has a label of the set, accuracy is the recall weighted by support. */
  lemma AccuracyIsWeightedRecall(cases: seq<ClassCase>, labels: seq<string>, r: Report)
    requires IsReport(cases, labels, r)
    requires forall i :: 0 <= i < |cases| ==> cases[i].expected in labels
    ensures r.accuracy == Ratio(SumOf(r.perClass, WeightedRecallOf), SupportSum(cases, labels, |labels|) as real)
  {
    WeightedRecallIsDiagonal(cases, labels, r.perClass);
    ClassesPartition(cases, labels);
    CountAtMost(cases, c => InSet(labels, c));
  }

  // ------------------------------------------------------------------------------------------
  // Precision and recall by label
  // ------------------------------------------------------------------------------------------

  lemma {:induction false} ColSumSnoc(cases: seq<ClassCase>, labels: seq<string>, j: nat, k: nat)
    requires cases != []
    ensures var c := cases[|cases| - 1];
            ColSum(cases, labels, j, k) == ColSum(cases[..|cases| - 1], labels, j, k)
              + if InSet(labels, c) && IndexOf(labels, c.expected).value < k && IndexOf(labels, c.predicted) == Some(j) then 1 else 0
  {
    if k > 0 { ColSumSnoc(cases, labels, j, k - 1); }
  }

  lemma {:induction false} EmptyColumn(labels: seq<string>, j: nat, k: nat)
    ensures ColSum([], labels, j, k) == 0
  {
    if k > 0 { EmptyColumn(labels, j, k - 1); }
  }

  /** A column adds up to the rated cases for which its label was predicted. */
  lemma {:induction false} ColumnIsPredicted(cases: seq<ClassCase>, labels: seq<string>, j: nat)
    ensures ColSum(cases, labels, j, |labels|) == Count(cases, c => InSet(labels, c) && IndexOf(labels, c.predicted) == Some(j))
  {
    if cases == [] {
      EmptyColumn(labels, j, |labels|);
    } else {
      ColumnIsPredicted(cases[..|cases| - 1], labels, j);
      ColSumSnoc(cases, labels, j, |labels|);
    }
  }

  /** The cases of a label that are predicted right, the rated cases it is predicted for, and its cases. */
  function Hits(cases: seq<ClassCase>, name: string): nat {
    Count(cases, (c: ClassCase) => c.expected == name && c.predicted == name)
  }

  function Said(cases: seq<ClassCase>, labels: seq<string>, name: string): nat {
    Count(cases, (c: ClassCase) => c.expected in labels && c.predicted == name)
  }

  function Owed(cases: seq<ClassCase>, name: string): nat { Count(cases, (c: ClassCase) => c.expected == name) }

  lemma CellsByLabel(cases: seq<ClassCase>, labels: seq<string>, i: nat)
    requires DistinctLabels(labels) && i < |labels|
    ensures Cell(cases, labels, i, i) == Hits(cases, labels[i])
    ensures Support(cases, labels, i) == Owed(cases, labels[i])
  {
    forall c: ClassCase
      ensures IsTrue(labels, c, i) <==> c.expected == labels[i]
      ensures InCell(labels, c, i, i) <==> c.expected == labels[i] && c.predicted == labels[i]
    {
      IndexIs(labels, c.expected, i);
      IndexIs(labels, c.predicted, i);
    }
    CountSame(cases, c => InCell(labels, c, i, i), (c: ClassCase) => c.expected == labels[i] && c.predicted == labels[i]);
    CountSame(cases, c => IsTrue(labels, c, i), (c: ClassCase) => c.expected == labels[i]);
  }

  lemma ColumnByLabel(cases: seq<ClassCase>, labels: seq<string>, j: nat)
    requires DistinctLabels(labels) && j < |labels|
    ensures ColSum(cases, labels, j, |labels|) == Said(cases, labels, labels[j])
  {
    ColumnIsPredicted(cases, labels, j);
    forall c: ClassCase
      ensures InSet(labels, c) && IndexOf(labels, c.predicted) == Some(j) <==> c.expected in labels && c.predicted == labels[j]
    {
      IndexIs(labels, c.predicted, j);
    }
    CountSame(cases, c => InSet(labels, c) && IndexOf(labels, c.predicted) == Some(j),
              (c: ClassCase) => c.expected in labels && c.predicted == labels[j]);
  }

  /** The statistics are those of so many hits among so many predicted and so many owed. */
  predicate SharesIn(s: ClassStats, hits: nat, said: nat, owed: nat) {
    && s.precision * said as real == hits as real && s.recall * owed as real == hits as real && s.support == owed
    && (said == 0 ==> s.precision == 0.0) && (owed == 0 ==> s.recall == 0.0)
  }

  lemma SharesOf(hits: nat, said: nat, owed: nat)
    requires hits <= said && hits <= owed
    ensures SharesIn(Stats(hits, said - hits, owed - hits), hits, said, owed)
  {
    if said > 0 { QuotientTimes(hits as real, said as real); }
    if owed > 0 { QuotientTimes(hits as real, owed as real); }
  }

  /**
   * What the statistics of a label say: of the rated cases it was predicted for, the share it was right for; of the cases
   * it is right for, the share it was predicted for; and how many these are.
   */
  lemma StatsByLabel(cases: seq<ClassCase>, labels: seq<string>, i: nat)
    requires DistinctLabels(labels) && i < |labels|
    ensures SharesIn(StatsOf(cases, labels, i), Hits(cases, labels[i]), Said(cases, labels, labels[i]), Owed(cases, labels[i]))
  {
    HitsFit(cases, labels, i);
    CellsByLabel(cases, labels, i);
    ColumnByLabel(cases, labels, i);
    SharesOf(Cell(cases, labels, i, i), ColSum(cases, labels, i, |labels|), Support(cases, labels, i));
  }
}
