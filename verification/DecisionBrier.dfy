/**
 * The multi-class Brier score of a decision-model eval (`brierOf` in src/lib/decision-eval.ts).
 */
module DecisionBrier {
  import opened Entries
  import opened Reals

  /** The probability record of a prediction, and the true label. */
  datatype Judged = Judged(probs: seq<Entry>, gold: string)

  function Total(probs: seq<Entry>): real {
    if probs == [] then 0.0 else probs[0].value + Total(probs[1..])
  }

  /** A probability of every option, none negative, summing to one. */
  predicate Distribution(probs: seq<Entry>) {
    && Distinct(probs)
    && (forall i :: 0 <= i < |probs| ==> probs[i].value >= 0.0)
    && Total(probs) == 1.0
  }

  function Truth(key: string, gold: string): real { if key == gold then 1.0 else 0.0 }

  /** The squared distance from the one-hot truth, over the options that have a probability. */
  function Distance(probs: seq<Entry>, gold: string): real {
    if probs == [] then 0.0 else Sq(probs[0].value - Truth(probs[0].key, gold)) + Distance(probs[1..], gold)
  }

  /** A gold label without a probability counts as one that was given zero. */
  function BrierOne(d: Judged): real {
    Distance(d.probs, d.gold) + if HasKey(d.probs, d.gold) then 0.0 else 1.0
  }

  function BrierTotal(ds: seq<Judged>): real {
    if ds == [] then 0.0 else BrierOne(ds[0]) + BrierTotal(ds[1..])
  }

  function Brier(ds: seq<Judged>): real {
    if ds == [] then 0.0 else BrierTotal(ds) / |ds| as real
  }

  // ------------------------------------------------------------------------------------------
  // The method
  // ------------------------------------------------------------------------------------------

  lemma {:induction false} DistanceSnoc(probs: seq<Entry>, e: Entry, gold: string)
    ensures Distance(probs + [e], gold) == Distance(probs, gold) + Sq(e.value - Truth(e.key, gold))
  {
    if probs == [] {
      assert probs + [e] == [e] && [e][1..] == [];
    } else {
      assert (probs + [e])[1..] == probs[1..] + [e];
      DistanceSnoc(probs[1..], e, gold);
    }
  }

  lemma {:induction false} TotalSnoc(ds: seq<Judged>, d: Judged)
    ensures BrierTotal(ds + [d]) == BrierTotal(ds) + BrierOne(d)
  {
    if ds == [] {
      assert ds + [d] == [d] && [d][1..] == [];
    } else {
      assert (ds + [d])[1..] == ds[1..] + [d];
      TotalSnoc(ds[1..], d);
    }
  }

  method Score(d: Judged) returns (s: real)
    ensures s == BrierOne(d)
  {
    s := 0.0;
    var seen := false;
    for i := 0 to |d.probs|
      invariant s == Distance(d.probs[..i], d.gold)
      invariant seen <==> HasKey(d.probs[..i], d.gold)
    {
      assert d.probs[..i + 1] == d.probs[..i] + [d.probs[i]];
      DistanceSnoc(d.probs[..i], d.probs[i], d.gold);
      s := s + Sq(d.probs[i].value - Truth(d.probs[i].key, d.gold));
      if d.probs[i].key == d.gold {
        assert d.probs[..i + 1][i].key == d.gold;
        seen := true;
      } else {
        assert HasKey(d.probs[..i], d.gold) ==> HasKey(d.probs[..i + 1], d.gold) by {
          if j :| 0 <= j < i && d.probs[..i][j].key == d.gold { assert d.probs[..i + 1][j].key == d.gold; }
        }
      }
    }
    assert d.probs[..|d.probs|] == d.probs;
    if !seen { s := s + 1.0; }
  }

  /** `brierOf`. */
  method BrierOf(ds: seq<Judged>) returns (b: real)
    ensures b == Brier(ds)
    ensures ds == [] ==> b == 0.0
  {
    var sum := 0.0;
    for i := 0 to |ds|
      invariant sum == BrierTotal(ds[..i])
    {
      assert ds[..i + 1] == ds[..i] + [ds[i]];
      TotalSnoc(ds[..i], ds[i]);
      var s := Score(ds[i]);
      sum := sum + s;
    }
    assert ds[..|ds|] == ds;
    b := if |ds| > 0 then sum / |ds| as real else 0.0;
  }

  // ------------------------------------------------------------------------------------------
  // Bounds
  // ------------------------------------------------------------------------------------------

  predicate Shares(probs: seq<Entry>) { forall i :: 0 <= i < |probs| ==> probs[i].value >= 0.0 }

  lemma {:induction false} NothingNegative(probs: seq<Entry>)
    requires Shares(probs)
    ensures Total(probs) >= 0.0
  {
    if probs != [] { NothingNegative(probs[1..]); }
  }

  lemma SquareBelow(x: real)
    requires 0.0 <= x <= 1.0
    ensures Sq(x) <= x
  {
    NonNegativeProduct(x, 1.0 - x, x - Sq(x));
  }

  lemma SquareSign(x: real)
    ensures Sq(x) >= 0.0
  {
    assert x * x >= 0.0;
    assert Sq(x) == x * x;
  }

  lemma FirstIsOnly(probs: seq<Entry>)
    requires probs != [] && Distinct(probs)
    ensures !HasKey(probs[1..], probs[0].key)
  {
  }

  lemma Below(x: real, gold: bool)
    requires 0.0 <= x <= 1.0
    ensures Sq(x - if gold then 1.0 else 0.0) <= x + if gold then 1.0 - 2.0 * x else 0.0
  {
    SquareBelow(x);
    SquareBelow(1.0 - x);
  }

  /** The distance is at most what the mass would give if it all sat on one option. */
  lemma {:induction false} DistanceBelow(probs: seq<Entry>, gold: string)
    requires Shares(probs) && Distinct(probs) && Total(probs) <= 1.0
    ensures Distance(probs, gold)
              <= Total(probs) + (if HasKey(probs, gold) then 1.0 else 0.0) - 2.0 * ValueOf(probs, gold)
  {
    if probs != [] {
      var e := probs[0];
      NothingNegative(probs[1..]);
      Below(e.value, e.key == gold);
      DistanceBelow(probs[1..], gold);
      if e.key == gold {
        FirstIsOnly(probs);
        MissingKey(probs[1..], gold);
        assert HasKey(probs, gold);
      } else {
        TailMisses(probs, gold);
      }
    }
  }

  lemma {:induction false} DistanceAbove(probs: seq<Entry>, gold: string)
    ensures Distance(probs, gold) >= 0.0
    ensures HasKey(probs, gold) ==> Distance(probs, gold) >= Sq(1.0 - ValueOf(probs, gold))
  {
    if probs != [] {
      var e := probs[0];
      DistanceAbove(probs[1..], gold);
      SquareSign(e.value - Truth(e.key, gold));
      if e.key == gold {
        assert Sq(e.value - 1.0) == Sq(1.0 - e.value);
      } else {
        TailMisses(probs, gold);
      }
    }
  }

  /**
   * For a distribution the score lies between the square of the probability the truth was denied and twice
   * that probability: so within [0, 2], and 0 exactly when the truth got all of it.
   */
  lemma BrierBounds(d: Judged)
    requires Distribution(d.probs)
    ensures var denied := 1.0 - ValueOf(d.probs, d.gold);
            0.0 <= Sq(denied) <= BrierOne(d) <= 2.0 * denied <= 2.0
    ensures BrierOne(d) == 0.0 <==> ValueOf(d.probs, d.gold) == 1.0
  {
    var p := ValueOf(d.probs, d.gold);
    assert Shares(d.probs);
    DistanceBelow(d.probs, d.gold);
    DistanceAbove(d.probs, d.gold);
    SquareSign(1.0 - p);
    ShareOfTotal(d.probs, d.gold);
    if !HasKey(d.probs, d.gold) { MissingKey(d.probs, d.gold); }
    if BrierOne(d) == 0.0 { RootOfZero(1.0 - p); }
  }

  lemma RootOfZero(x: real)
    requires Sq(x) <= 0.0
    ensures x == 0.0
  {
    if x < 0.0 {
      PositiveProduct(-x, -x, Sq(x));
    } else if x > 0.0 {
      PositiveProduct(x, x, Sq(x));
    }
  }

  lemma {:induction false} ShareOfTotal(probs: seq<Entry>, key: string)
    requires Shares(probs)
    ensures 0.0 <= ValueOf(probs, key) <= Total(probs)
  {
    if probs != [] {
      NothingNegative(probs[1..]);
      ShareOfTotal(probs[1..], key);
    }
  }

  predicate AllDistributions(ds: seq<Judged>) { forall i :: 0 <= i < |ds| ==> Distribution(ds[i].probs) }

  lemma {:induction false} TotalBounds(ds: seq<Judged>)
    requires AllDistributions(ds)
    ensures 0.0 <= BrierTotal(ds) <= 2.0 * |ds| as real
  {
    if ds != [] {
      BrierBounds(ds[0]);
      TotalBounds(ds[1..]);
    }
  }

  /** The mean is within [0, 2] too. */
  lemma BrierRange(ds: seq<Judged>)
    requires AllDistributions(ds)
    ensures 0.0 <= Brier(ds) <= 2.0
  {
    TotalBounds(ds);
    if ds != [] { MeanRange(BrierTotal(ds), |ds| as real); }
  }

  lemma MeanRange(total: real, n: real)
    requires n > 0.0 && 0.0 <= total <= 2.0 * n
    ensures 0.0 <= total / n <= 2.0
  {
    var q := total / n;
    assert q * n == total;
    if q < 0.0 { PositiveTimes(-q, n); }
    if q > 2.0 { PositiveTimes(q - 2.0, n); }
  }

}
