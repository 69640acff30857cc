/**
 * Decision datasets as JSONL text (src/lib/decision-schema.ts): what an upload stores, what it reports,
 * and whether the report says the dataset can be trained on.
 */
module DecisionStore {
  import opened Wrappers
  import opened Lines
  import opened JsonValues
  import Reals
  import opened DecisionSchema

  /** The row a line holds, normalised; none when the line is not JSON. */
  function RowOf(js: JsHost, line: string): Option<Json> {
    var v := js.parse(line);
    if v.None? then None else Some(Normalize(js, v.value))
  }

  predicate Trains(js: JsHost, line: string) { RowOf(js, line).Some? && ValidRow(js, RowOf(js, line).value) }

  /** The rows that will train, in order. */
  function ValidRows(js: JsHost, lines: seq<string>): seq<Json> {
    if lines == [] then []
    else (if Trains(js, lines[0]) then [RowOf(js, lines[0]).value] else []) + ValidRows(js, lines[1..])
  }

  function Printed(js: JsHost, rows: seq<Json>): seq<string> {
    if rows == [] then [] else [js.stringify(rows[0])] + Printed(js, rows[1..])
  }

  lemma {:induction false} ValidRowsAppend(js: JsHost, a: seq<string>, b: seq<string>)
    ensures ValidRows(js, a + b) == ValidRows(js, a) + ValidRows(js, b)
  {
    if a == [] {
      assert a + b == b;
    } else {
      assert (a + b)[1..] == a[1..] + b;
      ValidRowsAppend(js, a[1..], b);
      InFront(if Trains(js, a[0]) then [RowOf(js, a[0]).value] else [], ValidRows(js, a[1..]), ValidRows(js, b));
    }
  }

  lemma InFront(a: seq<Json>, b: seq<Json>, c: seq<Json>)
    ensures a + (b + c) == (a + b) + c
  {
  }

  lemma {:induction false} PrintedAppend(js: JsHost, a: seq<Json>, b: seq<Json>)
    ensures Printed(js, a + b) == Printed(js, a) + Printed(js, b)
  {
    if a == [] {
      assert a + b == b;
    } else {
      assert (a + b)[1..] == a[1..] + b;
      PrintedAppend(js, a[1..], b);
    }
  }

  lemma OneMoreLine(js: JsHost, lines: seq<string>, i: nat)
    requires i < |lines|
    ensures NonBlank(lines[..i + 1]) == NonBlank(lines[..i]) + LineRead(lines[i])
    ensures ValidRows(js, NonBlank(lines[..i + 1]))
              == ValidRows(js, NonBlank(lines[..i])) + ValidRows(js, LineRead(lines[i]))
  {
    NonBlankStep(lines, i);
    ValidRowsAppend(js, NonBlank(lines[..i]), LineRead(lines[i]));
  }

  lemma OneRow(js: JsHost, raw: string)
    ensures ValidRows(js, LineRead(raw))
              == if Trim(raw) != "" && Trains(js, Trim(raw)) then [RowOf(js, Trim(raw)).value] else []
  {
    if Trim(raw) != "" {
      assert [Trim(raw)][1..] == [];
    }
  }

  /** What one more line of the text adds to the valid rows. */
  lemma RowsStep(js: JsHost, lines: seq<string>, i: nat)
    requires i < |lines|
    ensures var rows, line := ValidRows(js, NonBlank(lines[..i])), Trim(lines[i]);
            ValidRows(js, NonBlank(lines[..i + 1]))
              == if line != "" && Trains(js, line) then rows + [RowOf(js, line).value] else rows
  {
    OneMoreLine(js, lines, i);
    OneRow(js, lines[i]);
  }

  /** One line as the loops over a dataset read it: its row when it is JSON, and the problems of the row. */
  method JudgeLine(js: JsHost, line: string) returns (row: Option<Json>, problems: seq<RowProblem>)
    ensures row == RowOf(js, line)
    ensures Trains(js, line) <==> row.Some? && problems == []
  {
    row, problems := RowOf(js, line), [];
    if row.Some? { problems := ValidateDecisionRow(js, row.value); }
  }

  lemma PrintedSnoc(js: JsHost, rows: seq<Json>, row: Json)
    ensures Printed(js, rows + [row]) == Printed(js, rows) + [js.stringify(row)]
  {
    PrintedAppend(js, rows, [row]);
    assert [row][1..] == [];
  }

  /** `validDecisionJsonl`: the valid rows, normalised, one to a line. */
  method ValidDecisionJsonl(js: JsHost, text: string) returns (stored: string)
    ensures stored == Join(Printed(js, ValidRows(js, Read(text))))
  {
    var lines := SplitLines(text);
    var kept: seq<string> := [];
    for i := 0 to |lines|
      invariant kept == Printed(js, ValidRows(js, NonBlank(lines[..i])))
    {
      RowsStep(js, lines, i);
      var line := Trim(lines[i]);
      if line == "" { continue; }
      var row, problems := JudgeLine(js, line);
      if row.Some? && problems == [] {
        PrintedSnoc(js, ValidRows(js, NonBlank(lines[..i])), row.value);
        kept := kept + [js.stringify(row.value)];
      }
    }
    assert lines[..|lines|] == lines;
    stored := Join(kept);
  }

  // ------------------------------------------------------------------------------------------
  // The label table
  // ------------------------------------------------------------------------------------------

  datatype Count = Count(key: string, n: nat)
  datatype Summary = Summary(name: string, kind: string, rows: nat, labels: seq<Count>)

  /** The key with the highest probability; the first of equals. */
  function BestKey(js: JsHost, probabilities: seq<Member>, best: Member): string {
    if probabilities == [] then best.name
    else
      var mine, top := ToNumber(js, probabilities[0].value), ToNumber(js, best.value);
      BestKey(js, probabilities[1..], if mine.Finite? && top.Finite? && mine.n > top.n then probabilities[0] else best)
  }

  /** One of the members has that name, a number as high as any other, and higher than all before it. */
  predicate IsFirstBest(js: JsHost, members: seq<Member>, key: string) {
    exists i :: 0 <= i < |members| && members[i].name == key && IsTop(js, members, i)
  }

  predicate IsTop(js: JsHost, members: seq<Member>, i: nat)
    requires i < |members|
  {
    var top := ToNumber(js, members[i].value);
    && top.Finite?
    && forall j :: 0 <= j < |members| ==>
         var n := ToNumber(js, members[j].value); n.Finite? && n.n <= top.n && (j < i ==> n.n < top.n)
  }

  predicate AllNumbers(js: JsHost, members: seq<Member>) {
    forall i :: 0 <= i < |members| ==> ToNumber(js, members[i].value).Finite?
  }

  /** Of probabilities that are all numbers, the first of the highest is taken. */
  lemma {:induction false} BestKeyIsBest(js: JsHost, probabilities: seq<Member>, best: Member)
    requires AllNumbers(js, [best] + probabilities)
    ensures IsFirstBest(js, [best] + probabilities, BestKey(js, probabilities, best))
    decreases |probabilities|
  {
    var all := [best] + probabilities;
    assert all[0] == best;
    if probabilities == [] {
      assert IsTop(js, all, 0);
    } else {
      var mine := probabilities[0];
      assert all[1] == mine;
      var next := if ToNumber(js, mine.value).n > ToNumber(js, best.value).n then mine else best;
      var tail := [next] + probabilities[1..];
      assert forall j :: 1 <= j < |tail| ==> tail[j] == all[j + 1];
      BestKeyIsBest(js, probabilities[1..], next);
      var i :| 0 <= i < |tail| && tail[i].name == BestKey(js, probabilities, best) && IsTop(js, tail, i);
      TopOfMore(js, all, tail, i, if i > 0 then i + 1 else if next == best then 0 else 1);
    }
  }

  lemma TopOfMore(js: JsHost, all: seq<Member>, tail: seq<Member>, i: nat, k: nat)
    requires AllNumbers(js, all) && |all| == |tail| + 1 && |tail| > 0 && i < |tail| && IsTop(js, tail, i)
    requires tail[0] == if ToNumber(js, all[1].value).n > ToNumber(js, all[0].value).n then all[1] else all[0]
    requires forall j :: 1 <= j < |tail| ==> tail[j] == all[j + 1]
    requires k == if i > 0 then i + 1 else if tail[0] == all[0] then 0 else 1
    ensures IsTop(js, all, k) && all[k] == tail[i]
  {
    var top := ToNumber(js, tail[i].value).n;
    assert ToNumber(js, tail[0].value).n <= top && (i > 0 ==> ToNumber(js, tail[0].value).n < top);
    forall j | 0 <= j < |all|
      ensures ToNumber(js, all[j].value).n <= top && (j < k ==> ToNumber(js, all[j].value).n < top)
    {
      if j > 1 { assert all[j] == tail[j - 1]; }
    }
  }

  /** The label a gold value is counted under. */
  function LabelKey(js: JsHost, gold: Json): string {
    var key := if gold.Obj? then Field(gold, "label") else Some(gold);
    if !Absent(key) then js.text(key.value)
    else
      var probabilities := Field(gold, "probabilities");
      if IsObj(probabilities) && probabilities.value.members != []
      then BestKey(js, probabilities.value.members[1..], probabilities.value.members[0])
      else if key.Some? then "null"
      else "undefined"
  }

  function CountUp(labels: seq<Count>, key: string): seq<Count> {
    if labels == [] then [Count(key, 1)]
    else if labels[0].key == key then [Count(key, labels[0].n + 1)] + labels[1..]
    else [labels[0]] + CountUp(labels[1..], key)
  }

  /** A question's summary, made the first time its name is seen, with one more label. */
  function Tally(table: seq<Summary>, name: string, kind: string, key: Option<string>): seq<Summary> {
    if table == [] then
      [if key.None? then Summary(name, kind, 0, []) else Summary(name, kind, 1, [Count(key.value, 1)])]
    else if table[0].name == name then
      (if key.None? then table
       else [table[0].(rows := table[0].rows + 1, labels := CountUp(table[0].labels, key.value))] + table[1..])
    else [table[0]] + Tally(table[1..], name, kind, key)
  }

  /** What the label of a question is counted under; a name every object inherits looks labelled in every row. */
  function KeyIn(js: JsHost, gold: seq<Member>, name: string): Option<string> {
    var g := Get(gold, name);
    if g.Some? then Some(LabelKey(js, g.value))
    else if name == "__proto__" then Some("undefined")
    else if name in INHERITED then Some(js.inherited(name))
    else None
  }

  /** A question counts as labelled in a row exactly if its gold names it or every object inherits its name. */
  lemma KeyInIff(js: JsHost, gold: seq<Member>, name: string)
    ensures KeyIn(js, gold, name).None? <==> !Has(gold, name) && name !in INHERITED
    ensures !Has(gold, name) && name == "__proto__" ==> KeyIn(js, gold, name) == Some("undefined")
    ensures !Has(gold, name) && name in INHERITED && name != "__proto__" ==> KeyIn(js, gold, name) == Some(js.inherited(name))
    ensures Has(gold, name) ==> KeyIn(js, gold, name) == Some(LabelKey(js, Get(gold, name).value))
  {
    assert "__proto__" in INHERITED;
  }

  /** What a row's gold counts a question under, as a language reads it. */
  type Keying = (seq<Member>, string) -> Option<string>

  function JsKeys(js: JsHost): Keying { (gold: seq<Member>, name: string) => KeyIn(js, gold, name) }

  function TallyQuestions(keys: Keying, table: seq<Summary>, questions: seq<Member>, gold: seq<Member>): seq<Summary>
    decreases |questions|
  {
    if questions == [] then table
    else
      var key := keys(gold, questions[0].name);
      TallyQuestions(keys, Tally(table, questions[0].name, KindOf(questions[0].value), key), questions[1..], gold)
  }

  function TallyRow(keys: Keying, table: seq<Summary>, row: Json): seq<Summary> {
    var questions, gold := Field(row, "questions"), GoldField(row);
    if IsObj(questions) && IsObj(gold) then TallyQuestions(keys, table, questions.value.members, gold.value.members)
    else table
  }

  /** The table of a dataset depends on its valid rows only. */
  function Table(keys: Keying, rows: seq<Json>): seq<Summary> {
    if rows == [] then [] else TallyRow(keys, Table(keys, rows[..|rows| - 1]), rows[|rows| - 1])
  }

  function CountTotal(labels: seq<Count>): nat {
    if labels == [] then 0 else labels[0].n + CountTotal(labels[1..])
  }

  /** Every labelled row of a question is counted under one label. */
  predicate Balanced(table: seq<Summary>) {
    forall i :: 0 <= i < |table| ==> CountTotal(table[i].labels) == table[i].rows
  }

  predicate OncePerName(table: seq<Summary>) {
    forall i, j :: 0 <= i < j < |table| ==> table[i].name != table[j].name
  }

  lemma {:induction false} CountUpTotal(labels: seq<Count>, key: string)
    ensures CountTotal(CountUp(labels, key)) == CountTotal(labels) + 1
  {
    if labels == [] {
      assert [Count(key, 1)][1..] == [];
    } else if labels[0].key == key {
      assert ([Count(key, labels[0].n + 1)] + labels[1..])[1..] == labels[1..];
    } else {
      CountUpTotal(labels[1..], key);
      assert ([labels[0]] + CountUp(labels[1..], key))[1..] == CountUp(labels[1..], key);
    }
  }

  lemma {:induction false} TallyBalanced(table: seq<Summary>, name: string, kind: string, key: Option<string>)
    requires Balanced(table)
    ensures Balanced(Tally(table, name, kind, key))
  {
    if table == [] {
      if key.Some? { assert [Count(key.value, 1)][1..] == []; }
    } else if table[0].name == name {
      if key.Some? { CountUpTotal(table[0].labels, key.value); }
    } else {
      TallyBalanced(table[1..], name, kind, key);
    }
  }

  /** How often a label was counted. */
  function CountFor(labels: seq<Count>, key: string): nat {
    if labels == [] then 0 else if labels[0].key == key then labels[0].n else CountFor(labels[1..], key)
  }

  /** The counts of a question; none without a summary. */
  function LabelsFor(table: seq<Summary>, name: string): seq<Count> {
    if table == [] then [] else if table[0].name == name then table[0].labels else LabelsFor(table[1..], name)
  }

  lemma {:induction false} CountUpCounts(labels: seq<Count>, key: string, other: string)
    ensures CountFor(CountUp(labels, key), other) == CountFor(labels, other) + if key == other then 1 else 0
  {
    if labels == [] {
      assert [Count(key, 1)][1..] == [];
    } else if labels[0].key != key {
      CountUpCounts(labels[1..], key, other);
      assert ([labels[0]] + CountUp(labels[1..], key))[1..] == CountUp(labels[1..], key);
    } else {
      assert ([Count(key, labels[0].n + 1)] + labels[1..])[1..] == labels[1..];
    }
  }

  lemma {:induction false} TallyCounts(table: seq<Summary>, name: string, kind: string, key: Option<string>, question: string, mark: string)
    ensures CountFor(LabelsFor(Tally(table, name, kind, key), question), mark)
              == CountFor(LabelsFor(table, question), mark) + if name == question && key == Some(mark) then 1 else 0
  {
    if table == [] {
      var one := if key.None? then Summary(name, kind, 0, []) else Summary(name, kind, 1, [Count(key.value, 1)]);
      assert [one][1..] == [];
      if key.Some? { assert [Count(key.value, 1)][1..] == []; }
    } else if table[0].name == name {
      if key.Some? {
        CountUpCounts(table[0].labels, key.value, mark);
        var first := table[0].(rows := table[0].rows + 1, labels := CountUp(table[0].labels, key.value));
        assert ([first] + table[1..])[1..] == table[1..];
      }
    } else {
      TallyCounts(table[1..], name, kind, key, question, mark);
      assert ([table[0]] + Tally(table[1..], name, kind, key))[1..] == Tally(table[1..], name, kind, key);
    }
  }

  /** How often a row asks the question and its gold counts under the label. */
  function LabelledIn(keys: Keying, questions: seq<Member>, gold: seq<Member>, question: string, mark: string): nat {
    if questions == [] then 0
    else
      (if questions[0].name == question && keys(gold, question) == Some(mark) then 1 else 0)
      + LabelledIn(keys, questions[1..], gold, question, mark)
  }

  function LabelledBy(keys: Keying, row: Json, question: string, mark: string): nat {
    var questions, gold := Field(row, "questions"), GoldField(row);
    if IsObj(questions) && IsObj(gold) then LabelledIn(keys, questions.value.members, gold.value.members, question, mark) else 0
  }

  function Labelled(keys: Keying, rows: seq<Json>, question: string, mark: string): nat {
    if rows == [] then 0 else Labelled(keys, rows[..|rows| - 1], question, mark) + LabelledBy(keys, rows[|rows| - 1], question, mark)
  }

  lemma {:induction false} QuestionsCount(keys: Keying, table: seq<Summary>, questions: seq<Member>, gold: seq<Member>, question: string, mark: string)
    ensures CountFor(LabelsFor(TallyQuestions(keys, table, questions, gold), question), mark)
              == CountFor(LabelsFor(table, question), mark) + LabelledIn(keys, questions, gold, question, mark)
    decreases |questions|
  {
    if questions != [] {
      var q := questions[0];
      var key := keys(gold, q.name);
      TallyCounts(table, q.name, KindOf(q.value), key, question, mark);
      QuestionsCount(keys, Tally(table, q.name, KindOf(q.value), key), questions[1..], gold, question, mark);
    }
  }

  /** The table counts every label of every question as often as the rows give it. */
  lemma {:induction false} TableCountsLabels(keys: Keying, rows: seq<Json>, question: string, mark: string)
    ensures CountFor(LabelsFor(Table(keys, rows), question), mark) == Labelled(keys, rows, question, mark)
    decreases |rows|
  {
    if rows != [] {
      var before, last := rows[..|rows| - 1], rows[|rows| - 1];
      TableCountsLabels(keys, before, question, mark);
      var questions, gold := Field(last, "questions"), GoldField(last);
      if IsObj(questions) && IsObj(gold) {
        QuestionsCount(keys, Table(keys, before), questions.value.members, gold.value.members, question, mark);
      }
    }
  }

  lemma {:induction false} TallyNames(table: seq<Summary>, name: string, kind: string, key: Option<string>)
    requires OncePerName(table)
    ensures OncePerName(Tally(table, name, kind, key))
    ensures forall i :: 0 <= i < |Tally(table, name, kind, key)| ==>
              Tally(table, name, kind, key)[i].name == name
              || exists j :: 0 <= j < |table| && table[j].name == Tally(table, name, kind, key)[i].name
  {
    if table != [] && table[0].name != name {
      TallyNames(table[1..], name, kind, key);
      var more := Tally(table[1..], name, kind, key);
      forall i | 0 <= i < |more|
        ensures more[i].name != table[0].name
        ensures more[i].name == name || exists j :: 0 <= j < |table| && table[j].name == more[i].name
      {
        if more[i].name != name {
          var j :| 0 <= j < |table[1..]| && table[1..][j].name == more[i].name;
          assert table[j + 1].name == more[i].name;
        }
      }
    }
  }

  lemma {:induction false} QuestionsBalanced(keys: Keying, table: seq<Summary>, questions: seq<Member>, gold: seq<Member>)
    requires Balanced(table) && OncePerName(table)
    ensures Balanced(TallyQuestions(keys, table, questions, gold))
    ensures OncePerName(TallyQuestions(keys, table, questions, gold))
    decreases |questions|
  {
    if questions != [] {
      var key := keys(gold, questions[0].name);
      TallyBalanced(table, questions[0].name, KindOf(questions[0].value), key);
      TallyNames(table, questions[0].name, KindOf(questions[0].value), key);
      QuestionsBalanced(keys, Tally(table, questions[0].name, KindOf(questions[0].value), key), questions[1..], gold);
    }
  }

  /** One summary to a name, and its label counts add up to the rows that label it. */
  lemma {:induction false} TableBalanced(keys: Keying, rows: seq<Json>)
    ensures Balanced(Table(keys, rows)) && OncePerName(Table(keys, rows))
    decreases |rows|
  {
    if rows != [] {
      var before, last := rows[..|rows| - 1], rows[|rows| - 1];
      TableBalanced(keys, before);
      var questions, gold := Field(last, "questions"), GoldField(last);
      if IsObj(questions) && IsObj(gold) {
        QuestionsBalanced(keys, Table(keys, before), questions.value.members, gold.value.members);
      }
    }
  }

  // ------------------------------------------------------------------------------------------
  // The most common labels
  // ------------------------------------------------------------------------------------------

  const SHOWN := 12

  /** Behind all counts at least as high. */
  function Insert(labels: seq<Count>, c: Count): seq<Count> {
    if labels == [] then [c]
    else
      var last := labels[|labels| - 1];
      if last.n >= c.n then labels + [c] else Insert(labels[..|labels| - 1], c) + [last]
  }

  /** `sort((a, b) => b[1] - a[1])`, which keeps the order of equal counts. */
  function ByCount(labels: seq<Count>): seq<Count> {
    if labels == [] then [] else Insert(ByCount(labels[..|labels| - 1]), labels[|labels| - 1])
  }

  predicate Falls(labels: seq<Count>) { forall i, j :: 0 <= i < j < |labels| ==> labels[i].n >= labels[j].n }

  function WithCount(labels: seq<Count>, n: nat): seq<Count> {
    if labels == [] then []
    else WithCount(labels[..|labels| - 1], n) + if labels[|labels| - 1].n == n then [labels[|labels| - 1]] else []
  }

  lemma {:induction false} InsertFalls(labels: seq<Count>, c: Count)
    requires Falls(labels)
    ensures Falls(Insert(labels, c)) && |Insert(labels, c)| == |labels| + 1
    ensures forall i :: 0 <= i < |Insert(labels, c)| ==> Insert(labels, c)[i] == c || Insert(labels, c)[i] in labels
  {
    if labels != [] && labels[|labels| - 1].n < c.n {
      var init, last := labels[..|labels| - 1], labels[|labels| - 1];
      InsertFalls(init, c);
      forall i | 0 <= i < |Insert(init, c)|
        ensures Insert(init, c)[i].n >= last.n
      {
        if Insert(init, c)[i] != c {
          var k :| 0 <= k < |init| && init[k] == Insert(init, c)[i];
          assert labels[k].n >= labels[|labels| - 1].n;
        }
      }
    }
  }

  /** Inserting adds the count behind those equal to it, and leaves every other count where it was. */
  lemma {:induction false} InsertStable(labels: seq<Count>, c: Count, n: nat)
    requires Falls(labels)
    ensures WithCount(Insert(labels, c), n) == WithCount(labels, n) + if c.n == n then [c] else []
  {
    if labels == [] {
      assert [c][..0] == [];
    } else {
      var init, last := labels[..|labels| - 1], labels[|labels| - 1];
      if last.n >= c.n {
        assert (labels + [c])[..|labels|] == labels;
      } else {
        InsertStable(init, c, n);
        var more := Insert(init, c) + [last];
        assert more[..|more| - 1] == Insert(init, c);
      }
    }
  }

  /** The sorted labels: the counts fall, and each count has exactly its labels, in the order they were first seen. */
  lemma {:induction false} ByCountSorts(labels: seq<Count>)
    ensures Falls(ByCount(labels)) && |ByCount(labels)| == |labels|
    ensures forall n :: WithCount(ByCount(labels), n) == WithCount(labels, n)
  {
    if labels != [] {
      var init, last := labels[..|labels| - 1], labels[|labels| - 1];
      ByCountSorts(init);
      InsertFalls(ByCount(init), last);
      forall n: nat
        ensures WithCount(ByCount(labels), n) == WithCount(labels, n)
      {
        InsertStable(ByCount(init), last, n);
      }
    }
  }

  /**
   * What a report shows of the labels. As the keys of a record they come in JavaScript's own order, those that are
   * integers first; the order here is the one they are chosen in.
   */
  function MostCommon(labels: seq<Count>): seq<Count> {
    var sorted := ByCount(labels);
    if |sorted| <= SHOWN then sorted else sorted[..SHOWN]
  }

  lemma {:induction false} InsertTotal(labels: seq<Count>, c: Count)
    ensures CountTotal(Insert(labels, c)) == CountTotal(labels) + c.n
  {
    if labels == [] {
      assert [c][1..] == [];
    } else {
      var init, last := labels[..|labels| - 1], labels[|labels| - 1];
      assert labels == init + [last];
      if last.n >= c.n {
        TotalSnoc(labels, c);
      } else {
        InsertTotal(init, c);
        TotalSnoc(init, last);
        TotalSnoc(Insert(init, c), last);
      }
    }
  }

  lemma {:induction false} TotalSnoc(labels: seq<Count>, c: Count)
    ensures CountTotal(labels + [c]) == CountTotal(labels) + c.n
  {
    if labels == [] {
      assert labels + [c] == [c] && [c][1..] == [];
    } else {
      assert (labels + [c])[1..] == labels[1..] + [c];
      TotalSnoc(labels[1..], c);
    }
  }

  lemma {:induction false} ByCountTotal(labels: seq<Count>)
    ensures CountTotal(ByCount(labels)) == CountTotal(labels)
  {
    if labels != [] {
      var init, last := labels[..|labels| - 1], labels[|labels| - 1];
      ByCountTotal(init);
      InsertTotal(ByCount(init), last);
      assert labels == init + [last];
      TotalSnoc(init, last);
    }
  }

  /**
   * At most twelve labels are shown, none is less common than one that is not, and together they count at most all rows.
   */
  lemma MostCommonAreShown(labels: seq<Count>)
    ensures var shown, sorted := MostCommon(labels), ByCount(labels);
            && |shown| == (if |labels| < 12 then |labels| else 12)
            && sorted == shown + sorted[|shown|..]
            && (forall i, j :: 0 <= i < |shown| && |shown| <= j < |sorted| ==> shown[i].n >= sorted[j].n)
            && CountTotal(shown) + CountTotal(sorted[|shown|..]) == CountTotal(labels)
  {
    ByCountSorts(labels);
    ByCountTotal(labels);
    var shown, sorted := MostCommon(labels), ByCount(labels);
    assert sorted == shown + sorted[|shown|..];
    TotalAppend(shown, sorted[|shown|..]);
  }

  lemma {:induction false} TotalAppend(a: seq<Count>, b: seq<Count>)
    ensures CountTotal(a + b) == CountTotal(a) + CountTotal(b)
  {
    if a == [] {
      assert a + b == b;
    } else {
      assert (a + b)[1..] == a[1..] + b;
      TotalAppend(a[1..], b);
    }
  }

  /** The table as it is reported: a question named `__proto__` sets no key. */
  function Shown(table: seq<Summary>): seq<Summary> {
    if table == [] then []
    else
      (if table[0].name == "__proto__" then [] else [table[0].(labels := MostCommon(table[0].labels))]) + Shown(table[1..])
  }

  /** The report shows the summaries of all names but one, each with its most common labels. */
  lemma {:induction false} ShownIff(table: seq<Summary>, s: Summary)
    ensures s in Shown(table) <==>
              s.name != "__proto__" && exists t: Summary :: t in table && s == t.(labels := MostCommon(t.labels))
  {
    if table != [] {
      ShownIff(table[1..], s);
      assert table == [table[0]] + table[1..];
    }
  }

  // ------------------------------------------------------------------------------------------
  // The report
  // ------------------------------------------------------------------------------------------

  /** A described row: its line number, and why it fails (no problems listed: it is not JSON). */
  datatype Described = Described(row: nat, problems: seq<RowProblem>)

  datatype Report = Report(total: nat, valid: nat, invalid: nat, errors: seq<Described>, questions: seq<Summary>)

  /** The line holds something, and it does not train. */
  predicate BadAt(js: JsHost, lines: seq<string>, k: int) {
    0 <= k < |lines| && Trim(lines[k]) != "" && !Trains(js, Trim(lines[k]))
  }

  predicate IsDescribed(errors: seq<Described>, row: int) { exists i :: 0 <= i < |errors| && errors[i].row == row }

  /** Every bad one of the first `n` lines is described. */
  predicate NoneMissing(js: JsHost, lines: seq<string>, n: int, errors: seq<Described>) {
    forall k :: 0 <= k < n && BadAt(js, lines, k) ==> IsDescribed(errors, k + 1)
  }

  predicate AllBad(js: JsHost, lines: seq<string>, errors: seq<Described>) {
    forall i :: 0 <= i < |errors| ==> BadAt(js, lines, errors[i].row - 1)
  }

  predicate InOrder(errors: seq<Described>) { forall i, j :: 0 <= i < j < |errors| ==> errors[i].row < errors[j].row }

  /** Bad lines are described, in their order, and none before the last of them is left out. */
  predicate Describes(js: JsHost, lines: seq<string>, errors: seq<Described>) {
    && AllBad(js, lines, errors) && InOrder(errors)
    && (errors != [] ==> NoneMissing(js, lines, errors[|errors| - 1].row, errors))
  }

  predicate IsReport(js: JsHost, text: string, maxReport: nat, r: Report) {
    var rows := ValidRows(js, Read(text));
    && r.total == |Read(text)| && r.valid == |rows| && r.invalid == r.total - r.valid
    && |r.errors| == (if r.invalid < maxReport then r.invalid else maxReport)
    && Describes(js, SplitLines(text), r.errors)
    && (|r.errors| < maxReport ==> NoneMissing(js, SplitLines(text), |SplitLines(text)|, r.errors))
    && r.questions == Shown(Table(JsKeys(js), rows))
  }

  lemma MoreAreDescribed(errors: seq<Described>, more: Described, row: int)
    requires IsDescribed(errors, row) || more.row == row
    ensures IsDescribed(errors + [more], row)
  {
    var all := errors + [more];
    if more.row == row {
      assert all[|errors|].row == row;
    } else {
      var j :| 0 <= j < |errors| && errors[j].row == row;
      assert all[j].row == row;
    }
  }

  lemma NoneMissingStep(js: JsHost, lines: seq<string>, errors: seq<Described>, more: Described, i: nat)
    requires NoneMissing(js, lines, i, errors) && more.row == i + 1
    ensures NoneMissing(js, lines, i + 1, errors + [more])
  {
    forall k | 0 <= k < i + 1 && BadAt(js, lines, k)
      ensures IsDescribed(errors + [more], k + 1)
    {
      MoreAreDescribed(errors, more, k + 1);
    }
  }

  /** The next bad line is described too. */
  lemma OneMoreDescribed(js: JsHost, lines: seq<string>, errors: seq<Described>, more: Described, i: nat)
    requires i < |lines| && Describes(js, lines, errors) && NoneMissing(js, lines, i, errors)
    requires forall k :: 0 <= k < |errors| ==> errors[k].row <= i
    requires more.row == i + 1 && BadAt(js, lines, i)
    ensures Describes(js, lines, errors + [more]) && NoneMissing(js, lines, i + 1, errors + [more])
  {
    NoneMissingStep(js, lines, errors, more, i);
    AllBadStep(js, lines, errors, more);
    InOrderStep(errors, more);
    assert (errors + [more])[|errors|] == more;
  }

  lemma AllBadStep(js: JsHost, lines: seq<string>, errors: seq<Described>, more: Described)
    requires AllBad(js, lines, errors) && BadAt(js, lines, more.row - 1)
    ensures AllBad(js, lines, errors + [more])
  {
    var all := errors + [more];
    forall i | 0 <= i < |all|
      ensures BadAt(js, lines, all[i].row - 1)
    {
      if i < |errors| {
        assert all[i] == errors[i];
      } else {
        assert all[i] == more;
      }
    }
  }

  lemma InOrderStep(errors: seq<Described>, more: Described)
    requires InOrder(errors) && forall k :: 0 <= k < |errors| ==> errors[k].row < more.row
    ensures InOrder(errors + [more])
  {
  }

  lemma TableSnoc(keys: Keying, rows: seq<Json>, row: Json)
    ensures Table(keys, rows + [row]) == TallyRow(keys, Table(keys, rows), row)
  {
    assert (rows + [row])[..|rows|] == rows;
  }

  predicate Counts(js: JsHost, read: seq<string>, r: Report) {
    && r.total == |read| == r.valid + r.invalid
    && r.valid == |ValidRows(js, read)|
    && r.questions == Table(JsKeys(js), ValidRows(js, read))
  }

  predicate Lists(js: JsHost, lines: seq<string>, i: nat, maxReport: nat, r: Report) {
    && |r.errors| == (if r.invalid < maxReport then r.invalid else maxReport)
    && Describes(js, lines, r.errors)
    && (forall k :: 0 <= k < |r.errors| ==> r.errors[k].row <= i)
    && (|r.errors| < maxReport ==> NoneMissing(js, lines, i, r.errors))
  }

  lemma CountBlank(js: JsHost, lines: seq<string>, i: nat, r: Report)
    requires i < |lines| && Counts(js, NonBlank(lines[..i]), r) && Trim(lines[i]) == ""
    ensures Counts(js, NonBlank(lines[..i + 1]), r)
  {
    NonBlankStep(lines, i);
    assert NonBlank(lines[..i + 1]) == NonBlank(lines[..i]);
  }

  /** One more line that does not train. */
  lemma CountBad(js: JsHost, lines: seq<string>, i: nat, r: Report)
    requires i < |lines| && Counts(js, NonBlank(lines[..i]), r)
    requires Trim(lines[i]) != "" && !Trains(js, Trim(lines[i]))
    ensures Counts(js, NonBlank(lines[..i + 1]), r.(total := r.total + 1, invalid := r.invalid + 1))
  {
    OneMoreLine(js, lines, i);
    RowsStep(js, lines, i);
  }

  /** One more line that trains. */
  lemma CountGood(js: JsHost, lines: seq<string>, i: nat, r: Report)
    requires i < |lines| && Counts(js, NonBlank(lines[..i]), r)
    requires Trim(lines[i]) != "" && Trains(js, Trim(lines[i]))
    ensures var row := RowOf(js, Trim(lines[i])).value;
            Counts(js, NonBlank(lines[..i + 1]),
                   r.(total := r.total + 1, valid := r.valid + 1, questions := TallyRow(JsKeys(js), r.questions, row)))
  {
    OneMoreLine(js, lines, i);
    RowsStep(js, lines, i);
    TableSnoc(JsKeys(js), ValidRows(js, NonBlank(lines[..i])), RowOf(js, Trim(lines[i])).value);
  }

  /** What `validateDecisionJsonl` does with one line of the file. */
  method TakeLine(js: JsHost, lines: seq<string>, i: nat, maxReport: nat, r: Report) returns (next: Report)
    requires i < |lines| && Counts(js, NonBlank(lines[..i]), r) && Lists(js, lines, i, maxReport, r)
    ensures Counts(js, NonBlank(lines[..i + 1]), next) && Lists(js, lines, i + 1, maxReport, next)
  {
    var line := Trim(lines[i]);
    if line == "" {
      CountBlank(js, lines, i, r);
      return r;
    }
    var row, problems := JudgeLine(js, line);
    if row.None? || problems != [] {
      CountBad(js, lines, i, r);
      next := r.(total := r.total + 1, invalid := r.invalid + 1);
      if |r.errors| < maxReport {
        OneMoreDescribed(js, lines, r.errors, Described(i + 1, problems), i);
        next := next.(errors := r.errors + [Described(i + 1, problems)]);
      }
    } else {
      CountGood(js, lines, i, r);
      next := r.(total := r.total + 1, valid := r.valid + 1, questions := TallyRow(JsKeys(js), r.questions, row.value));
    }
  }

  /** `validateDecisionJsonl`. */
  method ValidateDecisionJsonl(js: JsHost, text: string, maxReport: nat) returns (r: Report)
    ensures IsReport(js, text, maxReport, r)
  {
    var lines := SplitLines(text);
    r := Report(0, 0, 0, [], []);
    for i := 0 to |lines|
      invariant Counts(js, NonBlank(lines[..i]), r) && Lists(js, lines, i, maxReport, r)
    {
      r := TakeLine(js, lines, i, maxReport, r);
    }
    assert lines[..|lines|] == lines;
    r := r.(questions := Shown(r.questions));
  }

  // ------------------------------------------------------------------------------------------
  // What is stored is valid
  // ------------------------------------------------------------------------------------------

  /** A line of text holds the object. */
  ghost predicate IsRead(js: JsHost, v: Json) { v.Obj? && exists line :: RowOf(js, line) == Some(v) }

  /** The text of an object that was read: one line without white space around it, and parsing it gives the object back. */
  ghost predicate RoundTrips(js: JsHost) {
    forall line :: RowOf(js, line).Some? && RowOf(js, line).value.Obj? ==>
      var v := RowOf(js, line).value;
      js.parse(js.stringify(v)) == Some(v) && Clean(js.stringify(v))
  }

  ghost predicate AllValid(js: JsHost, rows: seq<Json>) {
    forall i :: 0 <= i < |rows| ==>
      IsRead(js, rows[i]) && ValidRow(js, rows[i]) && Normalize(js, rows[i]) == rows[i]
  }

  lemma {:induction false} ValidRowsAreValid(js: JsHost, lines: seq<string>)
    ensures AllValid(js, ValidRows(js, lines))
  {
    if lines != [] {
      ValidRowsAreValid(js, lines[1..]);
      if Trains(js, lines[0]) {
        ValidIsNormal(js, js.parse(lines[0]).value);
        assert RowOf(js, lines[0]) == Some(ValidRows(js, lines)[0]);
      }
    }
  }

  lemma {:induction false} PrintedIsClean(js: JsHost, rows: seq<Json>)
    requires RoundTrips(js) && AllValid(js, rows)
    ensures AllClean(Printed(js, rows))
  {
    if rows != [] {
      assert IsRead(js, rows[0]);
      PrintedIsClean(js, rows[1..]);
    }
  }

  lemma {:induction false} ReadPrinted(js: JsHost, rows: seq<Json>)
    requires RoundTrips(js) && AllValid(js, rows)
    ensures ValidRows(js, Printed(js, rows)) == rows
  {
    if rows != [] {
      ReadPrinted(js, rows[1..]);
      assert IsRead(js, rows[0]);
      assert RowOf(js, js.stringify(rows[0])) == Some(rows[0]);
      assert Printed(js, rows)[1..] == Printed(js, rows[1..]);
    }
  }

  lemma {:induction false} PrintedLength(js: JsHost, rows: seq<Json>)
    ensures |Printed(js, rows)| == |rows|
  {
    if rows != [] { PrintedLength(js, rows[1..]); }
  }

  /** What an upload stores: the text `validDecisionJsonl` returns. */
  function Stored(js: JsHost, text: string): string { Join(Printed(js, ValidRows(js, Read(text)))) }

  lemma StoredRows(js: JsHost, text: string)
    requires RoundTrips(js)
    ensures Read(Stored(js, text)) == Printed(js, ValidRows(js, Read(text)))
    ensures ValidRows(js, Read(Stored(js, text))) == ValidRows(js, Read(text))
  {
    var rows := ValidRows(js, Read(text));
    ValidRowsAreValid(js, Read(text));
    PrintedIsClean(js, rows);
    ReadOfJoin(Printed(js, rows));
    ReadPrinted(js, rows);
  }

  /**
   * The stored text has exactly the rows the upload reported as valid: validating it again finds no invalid
   * row and the same label table, and storing it again changes nothing.
   */
  lemma StoredIsValid(js: JsHost, text: string, maxReport: nat, before: Report, after: Report)
    requires RoundTrips(js)
    requires IsReport(js, text, maxReport, before) && IsReport(js, Stored(js, text), maxReport, after)
    ensures after.total == after.valid == before.valid
    ensures after.invalid == 0 && after.errors == []
    ensures after.questions == before.questions
    ensures Stored(js, Stored(js, text)) == Stored(js, text)
  {
    StoredRows(js, text);
    PrintedLength(js, ValidRows(js, Read(text)));
  }

  // ------------------------------------------------------------------------------------------
  // Usable or not
  // ------------------------------------------------------------------------------------------

  const MAX_INVALID_FRACTION := 0.02
  const MIN_DECISION_ROWS := 20

  datatype DatasetProblem = EmptyFile | TooFewRows | TooManyInvalid

  /** `decisionDatasetProblem`. */
  function DatasetProblemOf(r: Report, minRows: nat): Option<DatasetProblem> {
    if r.total == 0 then Some(EmptyFile)
    else if r.valid < minRows then Some(TooFewRows)
    else if r.invalid as real / r.total as real > MAX_INVALID_FRACTION then Some(TooManyInvalid)
    else None
  }

  /** More than 2% in whole numbers. */
  lemma OverFiftieth(total: nat, invalid: nat)
    requires total > 0
    ensures invalid as real / total as real > MAX_INVALID_FRACTION <==> 50 * invalid > total
  {
    Reals.QuotientTimes(invalid as real, total as real);
    Reals.TimesMonotone(0.02, invalid as real / total as real, total as real);
  }

  /** A report has no problem exactly with some row, enough valid ones, and at most one invalid row in fifty. */
  lemma NoProblemIff(r: Report, minRows: nat)
    ensures DatasetProblemOf(r, minRows).None? <==> r.total > 0 && r.valid >= minRows && 50 * r.invalid <= r.total
    ensures DatasetProblemOf(r, minRows) == Some(TooManyInvalid) <==> r.total > 0 && r.valid >= minRows && 50 * r.invalid > r.total
    ensures DatasetProblemOf(r, minRows) == Some(EmptyFile) <==> r.total == 0
  {
    if r.total > 0 { OverFiftieth(r.total, r.invalid); }
  }

  /** A dataset that was usable when uploaded is usable as stored; one that was not may become so. */
  lemma StoredStaysUsable(js: JsHost, text: string, maxReport: nat, minRows: nat, before: Report, after: Report)
    requires RoundTrips(js)
    requires IsReport(js, text, maxReport, before) && IsReport(js, Stored(js, text), maxReport, after)
    ensures DatasetProblemOf(after, minRows).None? <==> before.valid > 0 && before.valid >= minRows
    ensures DatasetProblemOf(before, minRows).None? ==> DatasetProblemOf(after, minRows).None?
  {
    StoredIsValid(js, text, maxReport, before, after);
    AllValidIsUsable(after, minRows);
    if DatasetProblemOf(before, minRows).None? { UsableHasRows(before, minRows); }
  }

  lemma AllValidIsUsable(r: Report, minRows: nat)
    requires r.invalid == 0 && r.total == r.valid
    ensures DatasetProblemOf(r, minRows).None? <==> r.valid > 0 && r.valid >= minRows
  {
  }

  lemma UsableHasRows(r: Report, minRows: nat)
    requires r.total == r.valid + r.invalid && DatasetProblemOf(r, minRows).None?
    ensures r.valid > 0 && r.valid >= minRows
  {
    if r.valid == 0 { OverItself(r.total as real); }
  }

  lemma OverItself(n: real)
    requires n > 0.0
    ensures n / n == 1.0
  {
  }
}
