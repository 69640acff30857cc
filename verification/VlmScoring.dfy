/**
 * Scoring an image-and-text eval (src/lib/vlm-eval.ts): one answer against its key under each mode,
 * the roll-up of a run by category, and the comparison of two runs row by row. The normalisers are
 * parameters: what they do to a text is not part of this model, only what is made of their results.
 */
module VlmScoring {
  import opened Wrappers
  import opened Reals
  import opened EditDistance

  // ------------------------------------------------------------------------------------------
  // One answer
  // ------------------------------------------------------------------------------------------

  datatype Mode = Exact | Latex | Numeric | Anls | Choice

  /** `normalizeExact`, `normalizeLatex`, `parseNumber` and `extractChoice`. */
  datatype Readers = Readers(exact: string -> string, latex: string -> string,
                             number: string -> Option<real>, choice: string -> Option<char>)

  datatype Score = Score(correct: bool, score: real, cer: Option<real>)

  function Hit(correct: bool, cer: Option<real>): Score { Score(correct, if correct then 1.0 else 0.0, cer) }

  function Similarity(p: string, g: string): real {
    var longest := Max(|p|, |g|);
    var nl := if longest == 0 then 0.0 else Dist(p, g) as real / longest as real;
    if nl < 0.5 then 1.0 - nl else 0.0
  }

  /** `scoreVlm`. */
  function ScoreVlm(r: Readers, mode: Mode, pred: string, gold: string): Score {
    match mode
    case Exact => Hit(r.exact(pred) == r.exact(gold), None)
    case Latex =>
      var p, g := r.latex(pred), r.latex(gold);
      Hit(p == g, Some(Dist(p, g) as real / Max(1, |g|) as real))
    case Numeric =>
      var p, g := r.number(pred), r.number(gold);
      if p.Some? && g.Some?
      then Hit(if g.value == 0.0 then p.value == 0.0
               else Abs(p.value - g.value) <= 0.05 * Abs(g.value) + 0.000000000001, None)
      else Hit(r.exact(pred) == r.exact(gold), None)
    case Anls =>
      var score := Similarity(r.exact(pred), r.exact(gold));
      Score(score > 0.0, score, None)
    case Choice =>
      var g := r.choice(gold);
      if g.None? then Hit(r.exact(pred) == r.exact(gold), None)
      else Hit(r.choice(pred) == g, None)
  }

  lemma QuotientBelow(x: real, n: real, bound: real)
    requires n > 0.0
    ensures x / n < bound <==> x < bound * n
  {
    var q := x / n;
    assert q * n == x;
    TimesMonotone(q, bound, n);
  }

  /** A quotient of counts is zero only for zero, and below one half only below half. */
  lemma DivideBounds(x: nat, n: nat)
    requires n > 0
    ensures x as real / n as real == 0.0 <==> x == 0
    ensures x as real / n as real >= 0.0
    ensures 2 * x < n <==> x as real / n as real < 0.5
  {
    QuotientBelow(x as real, n as real, 0.5);
    QuotientBelow(x as real, n as real, 0.0);
    if x > 0 {
      assert x as real / n as real * n as real == x as real;
    }
  }

  /** A formula is right exactly when its character error rate is zero. */
  lemma LatexRightIffNoErrors(r: Readers, pred: string, gold: string)
    ensures var s := ScoreVlm(r, Latex, pred, gold);
            s.cer.Some? && s.cer.value >= 0.0 && (s.correct <==> s.cer.value == 0.0)
  {
    var p, g := r.latex(pred), r.latex(gold);
    DistZeroIffEqual(p, g);
    DivideBounds(Dist(p, g), Max(1, |g|));
  }

  /** An ANLS score is 0 or above one half and at most 1, and 1 only for equal normalised texts. */
  lemma AnlsRange(r: Readers, pred: string, gold: string)
    ensures var s := ScoreVlm(r, Anls, pred, gold);
            && (s.score == 0.0 || 0.5 < s.score <= 1.0)
            && (s.score == 1.0 <==> r.exact(pred) == r.exact(gold))
            && (s.correct <==> 2 * Dist(r.exact(pred), r.exact(gold)) < Max(1, Max(|r.exact(pred)|, |r.exact(gold)|)))
  {
    var p, g := r.exact(pred), r.exact(gold);
    DistZeroIffEqual(p, g);
    DistBounds(p, g);
    if Max(|p|, |g|) > 0 {
      DivideBounds(Dist(p, g), Max(|p|, |g|));
    }
  }

  /** Within 5% of the key, on either side of zero; only zero counts for a key of zero. */
  predicate Near(p: real, g: real) {
    if g > 0.0 then 0.95 * g - 0.000000000001 <= p <= 1.05 * g + 0.000000000001
    else if g < 0.0 then 1.05 * g - 0.000000000001 <= p <= 0.95 * g + 0.000000000001
    else p == 0.0
  }

  /**
   * When an answer is right: by its normal form, by its number where both texts have one, or by its letter where the key
   * has one.
   */
  lemma RightIff(r: Readers, mode: Mode, pred: string, gold: string)
    ensures var right, same := ScoreVlm(r, mode, pred, gold).correct, r.exact(pred) == r.exact(gold);
            match mode
            case Exact => right <==> same
            case Latex => right <==> r.latex(pred) == r.latex(gold)
            case Numeric =>
              if r.number(pred).Some? && r.number(gold).Some? then right <==> Near(r.number(pred).value, r.number(gold).value)
              else right <==> same
            case Anls => right <==> 2 * Dist(r.exact(pred), r.exact(gold)) < Max(1, Max(|r.exact(pred)|, |r.exact(gold)|))
            case Choice =>
              if r.choice(gold).Some? then right <==> r.choice(pred).Some? && r.choice(pred).value == r.choice(gold).value
              else right <==> same
  {
    AnlsRange(r, pred, gold);
  }

  /** `value` of `n`, as a product, is `x`. */
  predicate IsShare(value: real, n: nat, x: real) { value * n as real == x }

  lemma ShareOf(x: nat, n: nat)
    requires n > 0
    ensures IsShare(x as real / n as real, n, x as real)
    ensures IsShare(1.0 - x as real / n as real, n, n as real - x as real)
  {
    var q := x as real / n as real;
    assert q * n as real == x as real;
    assert (1.0 - q) * n as real == n as real - q * n as real;
  }

  /** A right ANLS answer scores the share of the longer text that needs no edit. */
  lemma AnlsIsShare(r: Readers, pred: string, gold: string)
    ensures var s, p, g := ScoreVlm(r, Anls, pred, gold), r.exact(pred), r.exact(gold);
            s.correct && Max(|p|, |g|) > 0 ==> IsShare(s.score, Max(|p|, |g|), Max(|p|, |g|) as real - Dist(p, g) as real)
  {
    var p, g := r.exact(pred), r.exact(gold);
    if Max(|p|, |g|) > 0 {
      ShareOf(Dist(p, g), Max(|p|, |g|));
    }
  }

  /** The character error rate of a formula is the edits per character of the key. */
  lemma RateIsShare(r: Readers, pred: string, gold: string)
    ensures var s, p, g := ScoreVlm(r, Latex, pred, gold), r.latex(pred), r.latex(gold);
            s.cer.Some? && IsShare(s.cer.value, Max(1, |g|), Dist(p, g) as real)
  {
    ShareOf(Dist(r.latex(pred), r.latex(gold)), Max(1, |r.latex(gold)|));
  }

  /** So outside ANLS and numeric, answers with the same normal form and the same letter score alike. */
  lemma SameFormScoresAlike(r: Readers, mode: Mode, pred: string, other: string, gold: string)
    requires mode == Exact || mode == Latex || mode == Choice
    requires mode == Latex ==> r.latex(pred) == r.latex(other)
    requires mode != Latex ==> r.exact(pred) == r.exact(other)
    requires mode == Choice ==> r.choice(pred) == r.choice(other)
    ensures ScoreVlm(r, mode, pred, gold).correct == ScoreVlm(r, mode, other, gold).correct
    ensures ScoreVlm(r, mode, pred, gold).score == ScoreVlm(r, mode, other, gold).score
  {
    RightIff(r, mode, pred, gold);
    RightIff(r, mode, other, gold);
    ScoreRange(r, mode, pred, gold);
    ScoreRange(r, mode, other, gold);
  }

  /**
   * In every mode the score is in 0..1, it is positive exactly when the answer is right, and only ANLS has values
   * between.
   */
  lemma ScoreRange(r: Readers, mode: Mode, pred: string, gold: string)
    ensures var s := ScoreVlm(r, mode, pred, gold);
            && 0.0 <= s.score <= 1.0 && (s.correct <==> s.score > 0.0)
            && (mode != Anls ==> s.score == 0.0 || s.score == 1.0)
  {
    AnlsRange(r, pred, gold);
  }

  /** In every mode the key itself gets full marks. */
  lemma KeyScoresItself(r: Readers, mode: Mode, gold: string)
    ensures var s := ScoreVlm(r, mode, gold, gold); s.correct && s.score == 1.0 && (s.cer.Some? ==> s.cer.value == 0.0)
  {
    AnlsRange(r, gold, gold);
    LatexRightIffNoErrors(r, gold, gold);
  }

  // ------------------------------------------------------------------------------------------
  // The roll-up by category
  // ------------------------------------------------------------------------------------------

  /** A scored row, as far as the counts of a report use it. */
  datatype Case = Case(id: int, correct: bool, error: Option<string>, category: string)

  /** `!c.error`: an empty error text counts as none. */
  predicate IsScored(c: Case) { c.error.None? || c.error.value == "" }

  function Scored(cases: seq<Case>): seq<Case> {
    if cases == [] then []
    else (if IsScored(cases[0]) then [cases[0]] else []) + Scored(cases[1..])
  }

  /** `c.category || "(none)"`. */
  function KeyOf(c: Case): string { if c.category == "" then "(none)" else c.category }

  /** The group of a name holds the rows of that category, and the group "(none)" those without one, too. */
  lemma KeyIs(c: Case, name: string)
    requires name != ""
    ensures KeyOf(c) == name <==> c.category == name || (c.category == "" && name == "(none)")
    ensures KeyOf(c) != ""
  {
  }

  datatype Group = Group(key: string, rows: seq<Case>)

  function InCategory(cases: seq<Case>, key: string): seq<Case> {
    if cases == [] then []
    else InCategory(cases[..|cases| - 1], key) + (if KeyOf(cases[|cases| - 1]) == key then [cases[|cases| - 1]] else [])
  }

  function Right(cases: seq<Case>): nat {
    if cases == [] then 0
    else Right(cases[..|cases| - 1]) + (if cases[|cases| - 1].correct then 1 else 0)
  }

  ghost predicate HasKey(groups: seq<Group>, key: string) {
    exists i :: 0 <= i < |groups| && groups[i].key == key
  }

  /** The groups are the categories that occur, each once, with their rows in order. */
  ghost predicate GroupsOf(groups: seq<Group>, cases: seq<Case>) {
    && (forall i, j :: 0 <= i < j < |groups| ==> groups[i].key != groups[j].key)
    && (forall i :: 0 <= i < |groups| ==> groups[i].rows == InCategory(cases, groups[i].key))
    && (forall k :: 0 <= k < |cases| ==> HasKey(groups, KeyOf(cases[k])))
  }

  /** `groups.set(key, [...(groups.get(key) ?? []), c])`, with `at` where the key is, or the end. */
  function Added(groups: seq<Group>, at: nat, c: Case): seq<Group>
    requires at <= |groups|
  {
    if at < |groups| then groups[at := Group(KeyOf(c), groups[at].rows + [c])]
    else groups + [Group(KeyOf(c), [c])]
  }

  predicate IsPlaceOf(groups: seq<Group>, at: nat, key: string) {
    && at <= |groups| && (at < |groups| ==> groups[at].key == key)
    && forall j :: 0 <= j < at ==> groups[j].key != key
  }

  lemma AddedRows(groups: seq<Group>, cases: seq<Case>, at: nat, c: Case, i: nat)
    requires GroupsOf(groups, cases) && IsPlaceOf(groups, at, KeyOf(c)) && i < |Added(groups, at, c)|
    ensures Added(groups, at, c)[i].rows == InCategory(cases + [c], Added(groups, at, c)[i].key)
  {
    assert (cases + [c])[..|cases|] == cases;
    if at == |groups| && i == at {
      NewCategory(groups, cases, KeyOf(c));
    }
  }

  lemma AddedKeys(groups: seq<Group>, at: nat, c: Case, key: string)
    requires IsPlaceOf(groups, at, KeyOf(c)) && (HasKey(groups, key) || key == KeyOf(c))
    ensures HasKey(Added(groups, at, c), key)
  {
    var more := Added(groups, at, c);
    if key == KeyOf(c) {
      assert more[at].key == key;
    } else {
      var i :| 0 <= i < |groups| && groups[i].key == key;
      assert more[i].key == key;
    }
  }

  lemma AddedGroups(groups: seq<Group>, cases: seq<Case>, at: nat, c: Case)
    requires GroupsOf(groups, cases) && IsPlaceOf(groups, at, KeyOf(c))
    ensures GroupsOf(Added(groups, at, c), cases + [c])
  {
    var more := Added(groups, at, c);
    forall i | 0 <= i < |more|
      ensures more[i].rows == InCategory(cases + [c], more[i].key)
    {
      AddedRows(groups, cases, at, c, i);
    }
    forall k | 0 <= k < |cases + [c]|
      ensures HasKey(more, KeyOf((cases + [c])[k]))
    {
      if k < |cases| { assert HasKey(groups, KeyOf(cases[k])); }
      AddedKeys(groups, at, c, KeyOf((cases + [c])[k]));
    }
  }

  /** Where the group of a category is, or would be added. */
  method FindGroup(groups: seq<Group>, key: string) returns (at: nat)
    ensures IsPlaceOf(groups, at, key)
  {
    at := 0;
    while at < |groups| && groups[at].key != key
      invariant at <= |groups|
      invariant forall j :: 0 <= j < at ==> groups[j].key != key
    {
      at := at + 1;
    }
  }

  /** `scored.some((c) => c.category)`. */
  predicate SomeCategory(cases: seq<Case>) { exists k :: 0 <= k < |cases| && cases[k].category != "" }

  /** The loop over the scored cases. */
  method GroupAll(cases: seq<Case>) returns (groups: seq<Group>)
    ensures GroupsOf(groups, cases)
  {
    groups := [];
    for n := 0 to |cases|
      invariant GroupsOf(groups, cases[..n])
    {
      var at := FindGroup(groups, KeyOf(cases[n]));
      AddedGroups(groups, cases[..n], at, cases[n]);
      OneMoreCase(cases, n);
      groups := Added(groups, at, cases[n]);
    }
    assert cases[..|cases|] == cases;
  }

  lemma OneMoreCase(cases: seq<Case>, n: nat)
    requires n < |cases|
    ensures cases[..n] + [cases[n]] == cases[..n + 1]
  {
  }

  /** The categories of `buildVlmReport`, over the scored cases: none unless some case has one. */
  method GroupByCategory(cases: seq<Case>) returns (groups: seq<Group>)
    ensures if SomeCategory(cases) then GroupsOf(groups, cases) else groups == []
  {
    groups := [];
    if SomeCategory(cases) { groups := GroupAll(cases); }
  }

  lemma NewCategory(groups: seq<Group>, cases: seq<Case>, key: string)
    requires GroupsOf(groups, cases) && forall i :: 0 <= i < |groups| ==> groups[i].key != key
    ensures InCategory(cases, key) == []
  {
    NoneInCategory(cases, key);
  }

  lemma {:induction false} NoneInCategory(cases: seq<Case>, key: string)
    requires forall k :: 0 <= k < |cases| ==> KeyOf(cases[k]) != key
    ensures InCategory(cases, key) == []
  {
    if cases != [] {
      NoneInCategory(cases[..|cases| - 1], key);
    }
  }

  function TotalRows(groups: seq<Group>): nat {
    if groups == [] then 0 else |groups[0].rows| + TotalRows(groups[1..])
  }

  function TotalRight(groups: seq<Group>): nat {
    if groups == [] then 0 else Right(groups[0].rows) + TotalRight(groups[1..])
  }

  /** The groups `keys` make of `cases`. */
  ghost function Split(keys: seq<string>, cases: seq<Case>): seq<Group> {
    seq(|keys|, i requires 0 <= i < |keys| => Group(keys[i], InCategory(cases, keys[i])))
  }

  lemma OneMoreInCategory(cases: seq<Case>, c: Case, key: string)
    ensures InCategory(cases + [c], key) == InCategory(cases, key) + if KeyOf(c) == key then [c] else []
    ensures Right(InCategory(cases + [c], key))
              == Right(InCategory(cases, key)) + if KeyOf(c) == key && c.correct then 1 else 0
  {
    assert (cases + [c])[..|cases|] == cases;
    var rows := InCategory(cases, key);
    assert (rows + [c])[..|rows|] == rows;
    assert rows + [] == rows;
  }

  lemma SplitTail(keys: seq<string>, cases: seq<Case>)
    requires keys != []
    ensures Split(keys, cases)[1..] == Split(keys[1..], cases)
    ensures Split(keys, cases)[0] == Group(keys[0], InCategory(cases, keys[0]))
  {
  }

  lemma {:induction false} TotalsOfOneMore(keys: seq<string>, cases: seq<Case>, c: Case)
    requires forall i, j :: 0 <= i < j < |keys| ==> keys[i] != keys[j]
    ensures var more := cases + [c];
            && TotalRows(Split(keys, more)) == TotalRows(Split(keys, cases)) + (if KeyOf(c) in keys then 1 else 0)
            && TotalRight(Split(keys, more))
                 == TotalRight(Split(keys, cases)) + if KeyOf(c) in keys && c.correct then 1 else 0
  {
    if keys != [] {
      TotalsOfOneMore(keys[1..], cases, c);
      SplitTail(keys, cases + [c]);
      SplitTail(keys, cases);
      OneMoreInCategory(cases, c, keys[0]);
      assert keys == [keys[0]] + keys[1..];
    }
  }

  lemma {:induction false} TotalsOfSplit(keys: seq<string>, cases: seq<Case>)
    requires forall i, j :: 0 <= i < j < |keys| ==> keys[i] != keys[j]
    requires forall k :: 0 <= k < |cases| ==> KeyOf(cases[k]) in keys
    ensures TotalRows(Split(keys, cases)) == |cases| && TotalRight(Split(keys, cases)) == Right(cases)
    decreases |cases|
  {
    if cases == [] {
      EmptyTotals(keys);
    } else {
      var rest, c := cases[..|cases| - 1], cases[|cases| - 1];
      TotalsOfSplit(keys, rest);
      assert cases == rest + [c];
      assert KeyOf(c) in keys;
      TotalsOfOneMore(keys, rest, c);
    }
  }

  lemma {:induction false} EmptyTotals(keys: seq<string>)
    ensures TotalRows(Split(keys, [])) == 0 && TotalRight(Split(keys, [])) == 0
  {
    if keys != [] {
      EmptyTotals(keys[1..]);
      assert Split(keys, [])[1..] == Split(keys[1..], []);
    }
  }

  /** The categories of a report add up to it: every scored row and every right one is in exactly one. */
  lemma CategoriesAddUp(groups: seq<Group>, cases: seq<Case>)
    requires GroupsOf(groups, cases)
    ensures TotalRows(groups) == |cases| && TotalRight(groups) == Right(cases)
  {
    var keys := seq(|groups|, i requires 0 <= i < |groups| => groups[i].key);
    assert Split(keys, cases) == groups;
    forall k | 0 <= k < |cases|
      ensures KeyOf(cases[k]) in keys
    {
      assert HasKey(groups, KeyOf(cases[k]));
      var i :| 0 <= i < |groups| && groups[i].key == KeyOf(cases[k]);
      assert keys[i] == KeyOf(cases[k]);
    }
    TotalsOfSplit(keys, cases);
  }

  // ------------------------------------------------------------------------------------------
  // The counts of a report
  // ------------------------------------------------------------------------------------------

  datatype Counts = Counts(rows: nat, scored: nat, errors: int, correct: nat)

  /** The counts of `buildVlmReport`. */
  function CountsOf(cases: seq<Case>): Counts {
    Counts(|cases|, |Scored(cases)|, |cases| - |Scored(cases)|, Right(Scored(cases)))
  }

  lemma {:induction false} RightInFront(c: Case, cases: seq<Case>)
    ensures Right([c] + cases) == (if c.correct then 1 else 0) + Right(cases)
  {
    var all := [c] + cases;
    if cases == [] {
      assert all[..|all| - 1] == [];
    } else {
      assert all[..|all| - 1] == [c] + cases[..|cases| - 1];
      RightInFront(c, cases[..|cases| - 1]);
    }
  }

  // ------------------------------------------------------------------------------------------
  // Two runs
  // ------------------------------------------------------------------------------------------

  datatype Pair = Pair(a: Case, b: Case)

  /** `inB.get(id)`: a Map built from pairs keeps the last one of a key. */
  function Lookup(b: seq<Case>, id: int): Option<Case> {
    if b == [] then None
    else if b[|b| - 1].id == id then Some(b[|b| - 1])
    else Lookup(b[..|b| - 1], id)
  }

  function Pairs(a: seq<Case>, b: seq<Case>): seq<Pair> {
    if a == [] then []
    else
      var other := Lookup(b, a[0].id);
      (if other.Some? then [Pair(a[0], other.value)] else []) + Pairs(a[1..], b)
  }

  function HitsA(ps: seq<Pair>): nat {
    if ps == [] then 0 else (if ps[0].a.correct then 1 else 0) + HitsA(ps[1..])
  }

  function HitsB(ps: seq<Pair>): nat {
    if ps == [] then 0 else (if ps[0].b.correct then 1 else 0) + HitsB(ps[1..])
  }

  function Improved(ps: seq<Pair>): seq<int> {
    if ps == [] then [] else (if !ps[0].a.correct && ps[0].b.correct then [ps[0].a.id] else []) + Improved(ps[1..])
  }

  function Regressed(ps: seq<Pair>): seq<int> {
    if ps == [] then [] else (if ps[0].a.correct && !ps[0].b.correct then [ps[0].a.id] else []) + Regressed(ps[1..])
  }

  /** Run A, the baseline, against run B on the rows both scored: the pairs `compareVlmCases` counts. */
  function Compared(a: seq<Case>, b: seq<Case>): seq<Pair> { Pairs(Scored(a), Scored(b)) }

  /** The difference of the two hit counts is exactly what improved less what regressed. */
  lemma {:induction false} DeltaIsImprovedLessRegressed(ps: seq<Pair>)
    ensures HitsB(ps) - HitsA(ps) == |Improved(ps)| - |Regressed(ps)|
  {
    if ps != [] {
      DeltaIsImprovedLessRegressed(ps[1..]);
    }
  }

  lemma {:induction false} LookupFinds(b: seq<Case>, id: int)
    ensures match Lookup(b, id)
            case Some(c) => c in b && c.id == id
            case None => forall c :: c in b ==> c.id != id
  {
    if b != [] {
      LookupFinds(b[..|b| - 1], id);
      assert b == b[..|b| - 1] + [b[|b| - 1]];
    }
  }

  lemma {:induction false} ScoredIsFilter(cases: seq<Case>)
    ensures forall c :: c in Scored(cases) <==> c in cases && IsScored(c)
  {
    if cases != [] {
      ScoredIsFilter(cases[1..]);
    }
  }

  lemma {:induction false} PairsAreMatches(a: seq<Case>, b: seq<Case>)
    ensures forall p :: p in Pairs(a, b) ==> p.a in a && p.b in b && p.a.id == p.b.id
    ensures forall x :: x in a && (exists y :: y in b && y.id == x.id) ==> exists p :: p in Pairs(a, b) && p.a == x
  {
    if a != [] {
      PairsAreMatches(a[1..], b);
      LookupFinds(b, a[0].id);
      var other := Lookup(b, a[0].id);
      if other.Some? {
        assert Pairs(a, b)[0] == Pair(a[0], other.value);
      }
      forall x | x in a && exists y :: y in b && y.id == x.id
        ensures exists p :: p in Pairs(a, b) && p.a == x
      {
        if x == a[0] {
          assert Pair(a[0], other.value) in Pairs(a, b);
        } else {
          assert x in a[1..];
          var p :| p in Pairs(a[1..], b) && p.a == x;
          assert p in Pairs(a, b);
        }
      }
    }
  }

  /** The comparison is like for like: exactly the rows scored in both runs, each against itself. */
  lemma ComparedIsLikeForLike(a: seq<Case>, b: seq<Case>)
    ensures forall p :: p in Compared(a, b) ==>
              p.a in a && p.b in b && IsScored(p.a) && IsScored(p.b) && p.a.id == p.b.id
    ensures forall x, y :: x in a && y in b && IsScored(x) && IsScored(y) && x.id == y.id ==>
              exists p :: p in Compared(a, b) && p.a == x
  {
    ScoredIsFilter(a);
    ScoredIsFilter(b);
    PairsAreMatches(Scored(a), Scored(b));
  }
}
