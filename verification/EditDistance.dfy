/**
 * The edit distance behind the character error rate and ANLS (src/lib/vlm-eval.ts): a two-row table
 * that keeps the shorter text on the inner loop. Texts are sequences of code points.
 */
module EditDistance {

  // ------------------------------------------------------------------------------------------
  // Edit scripts
  // ------------------------------------------------------------------------------------------

  datatype Edit = Keep | Insert | Delete | Substitute

  type Script = seq<Edit>

  function Last<T>(s: seq<T>): T
    requires s != []
  {
    s[|s| - 1]
  }

  function Init<T>(s: seq<T>): seq<T>
    requires s != []
  {
    s[..|s| - 1]
  }

  /** The script, read left to right, turns `a` into `b`. */
  predicate Turns<T(==)>(e: Script, a: seq<T>, b: seq<T>) {
    if e == [] then a == [] && b == []
    else
      match Last(e)
      case Keep => a != [] && b != [] && Last(a) == Last(b) && Turns(Init(e), Init(a), Init(b))
      case Substitute => a != [] && b != [] && Turns(Init(e), Init(a), Init(b))
      case Insert => b != [] && Turns(Init(e), a, Init(b))
      case Delete => a != [] && Turns(Init(e), Init(a), b)
  }

  function CostOf(e: Edit): nat { if e == Keep then 0 else 1 }

  /** How many characters the script inserts, deletes or substitutes. */
  function Cost(e: Script): nat {
    if e == [] then 0 else Cost(Init(e)) + CostOf(Last(e))
  }

  // ------------------------------------------------------------------------------------------
  // The distance
  // ------------------------------------------------------------------------------------------

  function Min(x: nat, y: nat): nat { if x <= y then x else y }
  function Max(x: nat, y: nat): nat { if x >= y then x else y }

  /** The recurrence the table fills in. */
  function Dist<T(==)>(a: seq<T>, b: seq<T>): nat
    decreases |a| + |b|
  {
    if a == [] then |b|
    else if b == [] then |a|
    else
      Min(Min(Dist(Init(a), b) + 1, Dist(a, Init(b)) + 1),
          Dist(Init(a), Init(b)) + (if Last(a) == Last(b) then 0 else 1))
  }

  lemma {:induction false} InsertAll<T>(b: seq<T>) returns (e: Script)
    ensures Turns(e, [], b) && Cost(e) == |b|
  {
    if b == [] {
      e := [];
    } else {
      var f := InsertAll(Init(b));
      e := f + [Insert];
      assert Init(e) == f;
    }
  }

  lemma {:induction false} DeleteAll<T>(a: seq<T>) returns (e: Script)
    ensures Turns(e, a, []) && Cost(e) == |a|
  {
    if a == [] {
      e := [];
    } else {
      var f := DeleteAll(Init(a));
      e := f + [Delete];
      assert Init(e) == f;
    }
  }

  /** Some script costs exactly the distance. */
  lemma {:induction false} BestScript<T>(a: seq<T>, b: seq<T>) returns (e: Script)
    ensures Turns(e, a, b) && Cost(e) == Dist(a, b)
    decreases |a| + |b|
  {
    if a == [] {
      e := InsertAll(b);
    } else if b == [] {
      e := DeleteAll(a);
    } else {
      var f: Script, op: Edit;
      if Dist(a, b) == Dist(Init(a), b) + 1 {
        f := BestScript(Init(a), b);
        op := Delete;
      } else if Dist(a, b) == Dist(a, Init(b)) + 1 {
        f := BestScript(a, Init(b));
        op := Insert;
      } else {
        f := BestScript(Init(a), Init(b));
        op := if Last(a) == Last(b) then Keep else Substitute;
      }
      e := f + [op];
      assert Init(e) == f && Last(e) == op;
    }
  }

  /** No script costs less. */
  lemma {:induction false} NoCheaperScript<T>(e: Script, a: seq<T>, b: seq<T>)
    requires Turns(e, a, b)
    ensures Dist(a, b) <= Cost(e)
    decreases |e|
  {
    if e != [] {
      match Last(e) {
        case Keep => NoCheaperScript(Init(e), Init(a), Init(b));
        case Substitute => NoCheaperScript(Init(e), Init(a), Init(b));
        case Insert =>
          NoCheaperScript(Init(e), a, Init(b));
          if a != [] { assert Dist(a, b) <= Dist(a, Init(b)) + 1; }
        case Delete =>
          NoCheaperScript(Init(e), Init(a), b);
          if b != [] { assert Dist(a, b) <= Dist(Init(a), b) + 1; }
      }
    }
  }

  /** The distance is the least cost over all edit scripts. */
  lemma DistIsLeastCost<T>(a: seq<T>, b: seq<T>)
    ensures exists e :: Turns(e, a, b) && Cost(e) == Dist(a, b)
    ensures forall e :: Turns(e, a, b) ==> Dist(a, b) <= Cost(e)
  {
    var e := BestScript(a, b);
    forall f | Turns(f, a, b)
      ensures Dist(a, b) <= Cost(f)
    {
      NoCheaperScript(f, a, b);
    }
  }

  // ------------------------------------------------------------------------------------------
  // A metric
  // ------------------------------------------------------------------------------------------

  lemma {:induction false} DistBounds<T>(a: seq<T>, b: seq<T>)
    ensures Dist(a, b) <= Max(|a|, |b|)
    ensures |a| <= Dist(a, b) + |b| && |b| <= Dist(a, b) + |a|
    decreases |a| + |b|
  {
    if a != [] && b != [] {
      DistBounds(Init(a), b);
      DistBounds(a, Init(b));
      DistBounds(Init(a), Init(b));
    }
  }

  lemma {:induction false} DistZeroIffEqual<T>(a: seq<T>, b: seq<T>)
    ensures Dist(a, b) == 0 <==> a == b
    decreases |a| + |b|
  {
    if a != [] && b != [] {
      DistZeroIffEqual(Init(a), Init(b));
      assert a == Init(a) + [Last(a)] && b == Init(b) + [Last(b)];
    }
  }

  lemma {:induction false} DistSymmetric<T>(a: seq<T>, b: seq<T>)
    ensures Dist(a, b) == Dist(b, a)
    decreases |a| + |b|
  {
    if a != [] && b != [] {
      DistSymmetric(Init(a), b);
      DistSymmetric(a, Init(b));
      DistSymmetric(Init(a), Init(b));
    }
  }

  /** What the last edits of two scripts come to when both use the middle text's last character. */
  function Fuse(x: Edit, y: Edit, same: bool): Script
    requires x != Delete && y != Insert
  {
    if x == Insert then (if y == Delete then [] else [Insert])
    else if y == Delete then [Delete]
    else if same then [Keep] else [Substitute]
  }

  /** Two scripts in a row make one that costs no more. */
  lemma {:induction false} Compose<T>(e: Script, f: Script, a: seq<T>, b: seq<T>, c: seq<T>) returns (g: Script)
    requires Turns(e, a, b) && Turns(f, b, c)
    ensures Turns(g, a, c) && Cost(g) <= Cost(e) + Cost(f)
    decreases |e| + |f|
  {
    if e == [] {
      g := f;
    } else if f == [] {
      g := e;
    } else if Last(e) == Delete {
      var h := Compose(Init(e), f, Init(a), b, c);
      g := h + [Delete];
      assert Init(g) == h;
    } else if Last(f) == Insert {
      var h := Compose(e, Init(f), a, b, Init(c));
      g := h + [Insert];
      assert Init(g) == h;
    } else {
      var a' := if Last(e) == Insert then a else Init(a);
      var c' := if Last(f) == Delete then c else Init(c);
      var h := Compose(Init(e), Init(f), a', Init(b), c');
      var both := Last(e) != Insert && Last(f) != Delete;
      g := h + Fuse(Last(e), Last(f), both && Last(a) == Last(c));
      assert if Last(e) == Insert && Last(f) == Delete then g == h else Init(g) == h;
    }
  }

  lemma DistTriangle<T>(a: seq<T>, b: seq<T>, c: seq<T>)
    ensures Dist(a, c) <= Dist(a, b) + Dist(b, c)
  {
    var e := BestScript(a, b);
    var f := BestScript(b, c);
    var g := Compose(e, f, a, b, c);
    NoCheaperScript(g, a, c);
  }

  // ------------------------------------------------------------------------------------------
  // The two rows
  // ------------------------------------------------------------------------------------------

  /** One row of the table: the distances of the prefixes of `s` to `t`. */
  ghost predicate Row<T>(row: seq<nat>, s: seq<T>, t: seq<T>) {
    |row| == |s| + 1 && forall i :: 0 <= i <= |s| ==> row[i] == Dist(s[..i], t)
  }

  ghost function RowOf<T>(s: seq<T>, t: seq<T>): (row: seq<nat>)
    ensures Row(row, s, t)
  {
    seq(|s| + 1, i requires 0 <= i <= |s| => Dist(s[..i], t))
  }

  function Mismatch<T(==)>(s: seq<T>, t: seq<T>, i: nat, j: nat): nat
    requires 0 < i <= |s| && 0 < j <= |t|
  {
    if s[i - 1] == t[j - 1] then 0 else 1
  }

  /** Each row follows from the one before it. */
  lemma RowFollows<T>(s: seq<T>, t: seq<T>, j: nat)
    requires 0 < j <= |t|
    ensures var prev, cur := RowOf(s, t[..j - 1]), RowOf(s, t[..j]);
            && cur[0] == j
            && forall i :: 0 < i <= |s| ==> cur[i] == Min(Min(prev[i] + 1, cur[i - 1] + 1), prev[i - 1] + Mismatch(s, t, i, j))
  {
    var prev, cur := RowOf(s, t[..j - 1]), RowOf(s, t[..j]);
    InitOfPrefix(t, j);
    forall i | 0 < i <= |s|
      ensures cur[i] == Min(Min(prev[i] + 1, cur[i - 1] + 1), prev[i - 1] + Mismatch(s, t, i, j))
    {
      InitOfPrefix(s, i);
      DistStep(s[..i], t[..j], cur[i - 1], prev[i], prev[i - 1]);
    }
  }

  lemma InitOfPrefix<T>(s: seq<T>, i: nat)
    requires 0 < i <= |s|
    ensures Init(s[..i]) == s[..i - 1] && Last(s[..i]) == s[i - 1]
  {
  }

  lemma DistStep<T>(a: seq<T>, b: seq<T>, up: nat, left: nat, both: nat)
    requires a != [] && b != []
    requires up == Dist(Init(a), b) && left == Dist(a, Init(b)) && both == Dist(Init(a), Init(b))
    ensures Dist(a, b) == Min(Min(left + 1, up + 1), both + (if Last(a) == Last(b) then 0 else 1))
  {
  }

  /** The inner loop: fills `cur` with the row after `prev`. */
  method NextRow<T(==)>(prev: array<nat>, cur: array<nat>, s: seq<T>, t: seq<T>, j: nat)
    requires prev.Length == cur.Length == |s| + 1 && prev != cur && 0 < j <= |t|
    requires prev[..] == RowOf(s, t[..j - 1])
    modifies cur
    ensures cur[..] == RowOf(s, t[..j])
  {
    ghost var before, after := prev[..], RowOf(s, t[..j]);
    RowFollows(s, t, j);
    cur[0] := j;
    for i := 1 to |s| + 1
      invariant prev[..] == before
      invariant forall k :: 0 <= k < i ==> cur[k] == after[k]
    {
      assert prev[i] == before[i] && prev[i - 1] == before[i - 1];
      cur[i] := Min(Min(prev[i] + 1, cur[i - 1] + 1), prev[i - 1] + Mismatch(s, t, i, j));
    }
  }

  /** `levenshtein`, once the texts are ordered: `s` is on the inner loop. */
  method TwoRows<T(==)>(s: seq<T>, t: seq<T>) returns (d: nat)
    ensures d == Dist(s, t)
  {
    var prev := new nat[|s| + 1](i => i);
    var cur := new nat[|s| + 1](_ => 0);
    assert prev[..] == RowOf(s, t[..0]);
    for j := 1 to |t| + 1
      invariant prev.Length == cur.Length == |s| + 1 && prev != cur
      invariant fresh(prev) && fresh(cur)
      invariant prev[..] == RowOf(s, t[..j - 1])
    {
      NextRow(prev, cur, s, t, j);
      prev, cur := cur, prev;
    }
    assert s[..|s|] == s && t[..|t|] == t;
    d := prev[|s|];
    assert d == prev[..][|s|];
  }

  /** `levenshtein`. */
  method Levenshtein<T(==)>(a: seq<T>, b: seq<T>) returns (d: nat)
    ensures d == Dist(a, b)
  {
    if a == b {
      DistZeroIffEqual(a, b);
      return 0;
    }
    if |a| == 0 {
      return |b|;
    }
    if |b| == 0 {
      return |a|;
    }
    if |a| <= |b| {
      d := TwoRows(a, b);
    } else {
      DistSymmetric(a, b);
      d := TwoRows(b, a);
    }
  }
}
