/**
 * The confusion matrix of a question's report (`questionReport` in src/lib/decision-eval.ts): a record of records, read and
 * written by label. A label that is the name of a member of `Object.prototype` finds that member instead of nothing.
 */
module DecisionConfusion {
  import opened Wrappers
  import opened DecisionSchema

  /** A decision: the true label and the predicted one. */
  datatype Point = Point(gold: string, pred: string)

  /** A cell of a row. Adding one to an inherited value makes a text of it: then there is no number. */
  datatype Cell = Cell(pred: string, n: Option<nat>)

  datatype Row = Row(gold: string, cells: seq<Cell>)

  function Plus(a: Option<nat>, b: Option<nat>): Option<nat> {
    if a.None? || b.None? then None else Some(a.value + b.value)
  }

  function Bumped(cells: seq<Cell>, pred: string): seq<Cell> {
    if cells == [] then [Cell(pred, if pred in INHERITED then None else Some(1))]
    else if cells[0].pred == pred then [Cell(pred, if pred in INHERITED then None else Plus(cells[0].n, Some(1)))] + cells[1..]
    else [cells[0]] + Bumped(cells[1..], pred)
  }

  /** `row[pred] = (row[pred] ?? 0) + 1`; a text assigned to `__proto__` sets nothing. */
  function AddOne(cells: seq<Cell>, pred: string): seq<Cell> {
    if pred == "__proto__" then cells else Bumped(cells, pred)
  }

  function Placed(m: seq<Row>, p: Point): seq<Row> {
    if m == [] then [Row(p.gold, AddOne([], p.pred))]
    else if m[0].gold == p.gold then [Row(p.gold, AddOne(m[0].cells, p.pred))] + m[1..]
    else [m[0]] + Placed(m[1..], p)
  }

  /**
   * `confusion[gold] ??= {}`, then the cell: the row of an inherited name is the inherited member, not one of the
   * record.
   */
  function AddPoint(m: seq<Row>, p: Point): seq<Row> { if p.gold in INHERITED then m else Placed(m, p) }

  /** The matrix of the points. */
  function Confusion(points: seq<Point>): seq<Row> {
    if points == [] then [] else AddPoint(Confusion(points[..|points| - 1]), points[|points| - 1])
  }

  /** The loop that fills it. */
  method BuildConfusion(points: seq<Point>) returns (m: seq<Row>)
    ensures m == Confusion(points)
  {
    m := [];
    for i := 0 to |points|
      invariant m == Confusion(points[..i])
    {
      assert points[..i + 1][..i] == points[..i];
      m := AddPoint(m, points[i]);
    }
    assert points[..|points|] == points;
  }

  // ------------------------------------------------------------------------------------------
  // What is read from it
  // ------------------------------------------------------------------------------------------

  function CellsOf(m: seq<Row>, gold: string): seq<Cell> {
    if m == [] then [] else if m[0].gold == gold then m[0].cells else CellsOf(m[1..], gold)
  }

  /** `r[l] ?? 0` for a name that is not inherited. */
  function NumberIn(cells: seq<Cell>, name: string): Option<nat> {
    if cells == [] then Some(0) else if cells[0].pred == name then cells[0].n else NumberIn(cells[1..], name)
  }

  function CellSum(cells: seq<Cell>): Option<nat> {
    if cells == [] then Some(0) else Plus(cells[0].n, CellSum(cells[1..]))
  }

  function Hits(m: seq<Row>, name: string): Option<nat> { NumberIn(CellsOf(m, name), name) }

  /** The sum over a row. */
  function Support(m: seq<Row>, name: string): Option<nat> { CellSum(CellsOf(m, name)) }

  /** The sum over a column. */
  function Predicted(m: seq<Row>, name: string): Option<nat> {
    if m == [] then Some(0) else Plus(NumberIn(m[0].cells, name), Predicted(m[1..], name))
  }

  /** All of the matrix. */
  function Total(m: seq<Row>): Option<nat> {
    if m == [] then Some(0) else Plus(CellSum(m[0].cells), Total(m[1..]))
  }

  function Count(points: seq<Point>, p: Point -> bool): nat {
    if points == [] then 0 else Count(points[..|points| - 1], p) + if p(points[|points| - 1]) then 1 else 0
  }

  // ------------------------------------------------------------------------------------------
  // One more point
  // ------------------------------------------------------------------------------------------

  lemma {:induction false} NumberOfOneMore(cells: seq<Cell>, pred: string, name: string)
    requires name !in INHERITED
    ensures NumberIn(AddOne(cells, pred), name)
              == if pred == name then Plus(NumberIn(cells, name), Some(1)) else NumberIn(cells, name)
  {
    if cells != [] && pred != "__proto__" && cells[0].pred != pred {
      NumberOfOneMore(cells[1..], pred, name);
      assert ([cells[0]] + Bumped(cells[1..], pred))[1..] == Bumped(cells[1..], pred);
    }
  }

  /** A row's sum after one more prediction: a text once one is inherited. */
  lemma {:induction false} SumOfOneMore(cells: seq<Cell>, pred: string)
    ensures CellSum(Bumped(cells, pred)) == if pred in INHERITED then None else Plus(CellSum(cells), Some(1))
  {
    if cells == [] {
      assert Bumped(cells, pred)[1..] == [];
    } else if cells[0].pred == pred {
      assert Bumped(cells, pred)[1..] == cells[1..];
    } else {
      SumOfOneMore(cells[1..], pred);
      assert ([cells[0]] + Bumped(cells[1..], pred))[1..] == Bumped(cells[1..], pred);
    }
  }

  lemma {:induction false} CellsOfOneMore(m: seq<Row>, p: Point, gold: string)
    ensures CellsOf(Placed(m, p), gold)
              == if gold == p.gold then AddOne(CellsOf(m, gold), p.pred) else CellsOf(m, gold)
  {
    if m != [] && m[0].gold != p.gold {
      CellsOfOneMore(m[1..], p, gold);
      assert ([m[0]] + Placed(m[1..], p))[1..] == Placed(m[1..], p);
    }
  }

  lemma {:induction false} PredictedOfOneMore(m: seq<Row>, p: Point, name: string)
    requires name !in INHERITED
    ensures Predicted(Placed(m, p), name)
              == if p.pred == name then Plus(Predicted(m, name), Some(1)) else Predicted(m, name)
  {
    if m == [] {
      NumberOfOneMore([], p.pred, name);
      assert Placed(m, p)[1..] == [];
    } else if m[0].gold == p.gold {
      NumberOfOneMore(m[0].cells, p.pred, name);
      assert Placed(m, p)[1..] == m[1..];
    } else {
      PredictedOfOneMore(m[1..], p, name);
      assert ([m[0]] + Placed(m[1..], p))[1..] == Placed(m[1..], p);
    }
  }

  /** What one more prediction does to the sum it is part of. */
  function Grown(sum: Option<nat>, pred: string): Option<nat> {
    if pred == "__proto__" then sum else if pred in INHERITED then None else Plus(sum, Some(1))
  }

  lemma {:induction false} TotalOfOneMore(m: seq<Row>, p: Point)
    ensures Total(Placed(m, p)) == Grown(Total(m), p.pred)
  {
    if m == [] {
      SumOfOneMore([], p.pred);
      assert Placed(m, p)[1..] == [];
    } else if m[0].gold == p.gold {
      SumOfOneMore(m[0].cells, p.pred);
      assert Placed(m, p)[1..] == m[1..];
    } else {
      TotalOfOneMore(m[1..], p);
      assert ([m[0]] + Placed(m[1..], p))[1..] == Placed(m[1..], p);
    }
  }

  // ------------------------------------------------------------------------------------------
  // What the matrix counts
  // ------------------------------------------------------------------------------------------

  /** The hits of a label that is not inherited are always right. */
  lemma {:induction false} HitsAreRight(points: seq<Point>, name: string)
    requires name !in INHERITED
    ensures Hits(Confusion(points), name) == Some(Count(points, (p: Point) => p.gold == name && p.pred == name))
  {
    if points != [] {
      var before, p := points[..|points| - 1], points[|points| - 1];
      HitsAreRight(before, name);
      if p.gold !in INHERITED {
        CellsOfOneMore(Confusion(before), p, name);
        NumberOfOneMore(CellsOf(Confusion(before), name), p.pred, name);
      }
    }
  }

  /** Some point of the label has an inherited prediction that makes its row a text. */
  predicate IsSpoilt(points: seq<Point>, name: string) {
    exists i :: 0 <= i < |points| && points[i].gold == name && points[i].pred in INHERITED && points[i].pred != "__proto__"
  }

  lemma SpoiltStep(points: seq<Point>, name: string)
    requires points != []
    ensures var before, p := points[..|points| - 1], points[|points| - 1];
            IsSpoilt(points, name)
            <==> IsSpoilt(before, name) || (p.gold == name && p.pred in INHERITED && p.pred != "__proto__")
  {
    var before := points[..|points| - 1];
    assert forall i :: 0 <= i < |before| ==> before[i] == points[i];
  }

  lemma {:induction false} SupportCounts(points: seq<Point>, name: string)
    requires name !in INHERITED
    ensures Support(Confusion(points), name)
              == if IsSpoilt(points, name) then None
                 else Some(Count(points, (p: Point) => p.gold == name && p.pred !in INHERITED))
  {
    if points != [] {
      var before, p := points[..|points| - 1], points[|points| - 1];
      SupportCounts(before, name);
      SpoiltStep(points, name);
      if p.gold !in INHERITED {
        CellsOfOneMore(Confusion(before), p, name);
        SumOfOneMore(CellsOf(Confusion(before), name), p.pred);
      }
    }
  }

  lemma {:induction false} CountLess(points: seq<Point>, p: Point -> bool, q: Point -> bool)
    requires forall x :: p(x) ==> q(x)
    ensures Count(points, p) <= Count(points, q)
    ensures Count(points, p) == Count(points, q) <==> forall i :: 0 <= i < |points| && q(points[i]) ==> p(points[i])
  {
    if points != [] {
      var before := points[..|points| - 1];
      CountLess(before, p, q);
      assert points == before + [points[|points| - 1]];
    }
  }

  /** A label's support is its number of points if and only if none of them was predicted as an inherited name. */
  lemma SupportIsRightIff(points: seq<Point>, name: string)
    requires name !in INHERITED
    ensures Support(Confusion(points), name) == Some(Count(points, (p: Point) => p.gold == name))
            <==> forall i :: 0 <= i < |points| && points[i].gold == name ==> points[i].pred !in INHERITED
  {
    SupportCounts(points, name);
    CountLess(points, (p: Point) => p.gold == name && p.pred !in INHERITED, (p: Point) => p.gold == name);
  }

  lemma {:induction false} PredictedCounts(points: seq<Point>, name: string)
    requires name !in INHERITED
    ensures Predicted(Confusion(points), name)
              == Some(Count(points, (p: Point) => p.pred == name && p.gold !in INHERITED))
  {
    if points != [] {
      var before, p := points[..|points| - 1], points[|points| - 1];
      PredictedCounts(before, name);
      if p.gold !in INHERITED { PredictedOfOneMore(Confusion(before), p, name); }
    }
  }

  /** It is predicted as often as the report says if and only if no point of an inherited label was predicted so. */
  lemma PredictedIsRightIff(points: seq<Point>, name: string)
    requires name !in INHERITED
    ensures Predicted(Confusion(points), name) == Some(Count(points, (p: Point) => p.pred == name))
            <==> forall i :: 0 <= i < |points| && points[i].pred == name ==> points[i].gold !in INHERITED
  {
    PredictedCounts(points, name);
    CountLess(points, (p: Point) => p.pred == name && p.gold !in INHERITED, (p: Point) => p.pred == name);
  }

  /** A point the matrix counts. */
  predicate IsCounted(p: Point) { p.gold !in INHERITED && p.pred !in INHERITED }

  lemma {:induction false} TotalCounts(points: seq<Point>)
    ensures Total(Confusion(points)).Some? ==> Total(Confusion(points)).value == Count(points, IsCounted)
    ensures (forall i :: 0 <= i < |points| ==> IsCounted(points[i])) ==> Total(Confusion(points)).Some?
  {
    if points != [] {
      var before, p := points[..|points| - 1], points[|points| - 1];
      TotalCounts(before);
      assert forall i :: 0 <= i < |before| ==> before[i] == points[i];
      if p.gold !in INHERITED { TotalOfOneMore(Confusion(before), p); }
    }
  }

  lemma {:induction false} CountIsAll(points: seq<Point>)
    ensures Count(points, IsCounted) == |points| <==> forall i :: 0 <= i < |points| ==> IsCounted(points[i])
    ensures Count(points, IsCounted) <= |points|
  {
    if points != [] {
      var before := points[..|points| - 1];
      CountIsAll(before);
      assert points == before + [points[|points| - 1]];
    }
  }

  /** The matrix holds every decision if and only if none of them has an inherited name as its true or predicted label. */
  lemma MatrixHoldsAllIff(points: seq<Point>)
    ensures Total(Confusion(points)) == Some(|points|) <==> forall i :: 0 <= i < |points| ==> IsCounted(points[i])
  {
    TotalCounts(points);
    CountIsAll(points);
  }
}
