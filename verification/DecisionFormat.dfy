/**
 * The documented row format of a decision dataset (src/lib/decision-schema.ts, lines 9-19), and that the checks accept
 * exactly it, part by part.
 */
module DecisionFormat {
  import opened Wrappers
  import opened Digits
  import opened Lines
  import opened Entries
  import opened JsonValues
  import opened DecisionSchema
  import opened DecisionEval
  import opened DecisionSchemaTwin
  import TwinText

  // ------------------------------------------------------------------------------------------
  // Questions
  // ------------------------------------------------------------------------------------------

  /** `["a", "b"]`: 2 to 255 different texts. */
  predicate ListedOptions(criteria: Json) {
    && criteria.Arr? && AllStrings(criteria.items) && 2 <= |criteria.items| <= 255
    && forall i, j :: 0 <= i < j < |criteria.items| ==> criteria.items[i] != criteria.items[j]
  }

  /** `{id: description}`: 2 to 255 different ids. */
  predicate DescribedOptions(criteria: Json) {
    criteria.Obj? && 2 <= |criteria.members| <= 255 && DistinctNames(criteria.members)
  }

  /** `["lowest", ..., "highest"]`: 2 to 10 levels. */
  predicate Levels(criteria: Json) { criteria.Arr? && 2 <= |criteria.items| <= 10 }

  /** Nothing, or a text for yes, for no, or for both. */
  predicate YesNoTexts(criteria: Option<Json>) {
    || criteria.None? || criteria.value.Null?
    || (criteria.value.Obj? && forall m: Member :: m in criteria.value.members ==> m.name == "true" || m.name == "false")
  }

  lemma KindsDiffer()
    ensures "noul" != "choice" && "noul" != "score" && "choice" != "score"
  {
    assert |"noul"| == 4 && |"choice"| == 6 && |"score"| == 5;
  }

  lemma TextsDiffer(items: seq<Json>)
    requires AllStrings(items)
    ensures NoRepeats(Texts(items)) <==> forall i, j :: 0 <= i < j < |items| ==> items[i] != items[j]
  {
  }

  /** A question passes exactly in one of the documented forms. */
  lemma QuestionFormatIff(kind: Option<Json>, criteria: Option<Json>)
    ensures QuestionProblem(kind, criteria).None? <==>
              || (kind == Some(Str("noul")) && YesNoTexts(criteria))
              || (kind == Some(Str("choice")) && criteria.Some? && (ListedOptions(criteria.value) || DescribedOptions(criteria.value)))
              || (kind == Some(Str("score")) && criteria.Some? && Levels(criteria.value))
  {
    KindsDiffer();
    if kind == Some(Str("noul")) && criteria.Some? && criteria.value.Obj? {
      assert forall i :: 0 <= i < |criteria.value.members| ==> criteria.value.members[i] in criteria.value.members;
    }
    if kind == Some(Str("choice")) && criteria.Some? && criteria.value.Arr? && AllStrings(criteria.value.items) {
      TextsDiffer(criteria.value.items);
    }
  }

  /** Its options are the texts, the ids, or the levels counted from zero. */
  lemma OptionsAreThese(kind: string, criteria: Json)
    ensures kind == "choice" && ListedOptions(criteria) ==>
              OptionsOf(kind, Some(criteria)).Some? && |OptionsOf(kind, Some(criteria)).value| == |criteria.items|
              && forall i :: 0 <= i < |criteria.items| ==> Str(OptionsOf(kind, Some(criteria)).value[i]) == criteria.items[i]
    ensures kind == "choice" && DescribedOptions(criteria) ==>
              OptionsOf(kind, Some(criteria)).Some? && |OptionsOf(kind, Some(criteria)).value| == |criteria.members|
              && forall i :: 0 <= i < |criteria.members| ==> OptionsOf(kind, Some(criteria)).value[i] == criteria.members[i].name
    ensures kind == "score" && Levels(criteria) ==> OptionsOf(kind, Some(criteria)) == Some(Indices(|criteria.items|))
  {
    KindsDiffer();
  }

  // ------------------------------------------------------------------------------------------
  // Labels
  // ------------------------------------------------------------------------------------------

  lemma PlainGold(v: Json)
    requires !v.Obj?
    ensures Get(GoldMembers(v), "label") == Some(v)
    ensures Get(GoldMembers(v), "probabilities").None? && Get(GoldMembers(v), "noul").None?
  {
    assert |"label"| == 5 && |"probabilities"| == 13 && |"noul"| == 4;
  }

  lemma LevelIff(k: nat, n: int)
    ensures LevelText(n) in Indices(k) <==> 0 <= n < k
    ensures 0 <= n ==> LevelText(n) == Decimal(n)
  {
    if n >= 0 {
      DecimalIsDigits(n);
      forall i | 0 <= i < k && Indices(k)[i] == Decimal(n)
        ensures i == n
      {
        DecimalIsDigits(i);
      }
      if n < k { assert Indices(k)[n] == Decimal(n); }
    } else {
      forall i | 0 <= i < k
        ensures Indices(k)[i] != LevelText(n)
      {
        DecimalIsDigits(i);
        assert LevelText(n)[0] == '-';
      }
    }
  }

  /** The label of a score is the number of one of its levels. */
  lemma ScoreLevelIff(js: JsHost, k: nat, i: int)
    ensures var problem := GoldProblemOf(js, "score", Indices(k), Num(i as real));
            && (problem.None? <==> 0 <= i < k)
            && (!(0 <= i < k) ==> problem == Some(NotAnOption))
  {
    KindsDiffer();
    PlainGold(Num(i as real));
    assert (i as real).Floor == i;
    LevelIff(k, i);
  }

  /** And that level is the label the eval finds. */
  lemma ScoreLevelIsFound(js: JsHost, k: nat, i: nat)
    requires i < k
    ensures GoldLabelOf(js, "score", Indices(k), Num(i as real)) == Some(Decimal(i))
  {
    KindsDiffer();
    PlainGold(Num(i as real));
    assert (i as real).Floor == i;
    LevelIff(k, i);
    assert GivenLabel(js, "score", Indices(k), Num(i as real)) == Some(Decimal(i));
  }

  /** Any other number is refused. */
  lemma ScoreFraction(js: JsHost, k: nat, n: real)
    requires n.Floor as real < n
    ensures GoldProblemOf(js, "score", Indices(k), Num(n)) == Some(NotWhole)
  {
    KindsDiffer();
    PlainGold(Num(n));
  }

  /** Text in its place is refused unless it reads as such a number. */
  lemma ScoreTextIff(js: JsHost, k: nat, s: string)
    ensures js.number(s).NotANumber? ==> GoldProblemOf(js, "score", Indices(k), Str(s)) == Some(BadLevel)
    ensures js.number(s).NotFinite? ==> GoldProblemOf(js, "score", Indices(k), Str(s)) == Some(NotWhole)
    ensures js.number(s).Finite? ==> GoldProblemOf(js, "score", Indices(k), Str(s)) == GoldProblemOf(js, "score", Indices(k), Num(js.number(s).n))
  {
    KindsDiffer();
    PlainGold(Str(s));
    if js.number(s).Finite? { PlainGold(Num(js.number(s).n)); }
  }

  /** The label of a choice is one of its options, and it is the label the eval finds. */
  lemma ChoiceLabelIff(js: JsHost, options: seq<string>, s: string)
    requires js.text(Str(s)) == s
    ensures GoldProblemOf(js, "choice", options, Str(s)).None? <==> s in options
    ensures s !in options ==> GoldProblemOf(js, "choice", options, Str(s)) == Some(NotAnOption)
    ensures s in options ==> GoldLabelOf(js, "choice", options, Str(s)) == Some(s)
  {
    KindsDiffer();
    PlainGold(Str(s));
  }

  /** The label of a yes/no question is a boolean, and it is the label the eval finds. */
  lemma YesNoLabel(js: JsHost, b: bool)
    requires js.text(Bool(b)) == YesNo(b)
    ensures GoldProblemOf(js, "noul", ["false", "true"], Bool(b)).None?
    ensures GoldLabelOf(js, "noul", ["false", "true"], Bool(b)) == Some(YesNo(b))
  {
    PlainGold(Bool(b));
    TrimmedWord(b);
    assert ["false", "true"][0] == "false" && ["false", "true"][1] == "true";
    KindsDiffer();
  }

  lemma TrimmedWord(b: bool)
    ensures Lower(Trim(YesNo(b))) == YesNo(b)
  {
    assert Trim(YesNo(b)) == YesNo(b);
    if b {
      assert "true"[1..] == "rue" && "rue"[1..] == "ue" && "ue"[1..] == "e" && "e"[1..] == "";
      assert Lower("true") == "true";
    } else {
      assert "false"[1..] == "alse" && "alse"[1..] == "lse" && "lse"[1..] == "se" && "se"[1..] == "e" && "e"[1..] == "";
      assert Lower("false") == "false";
    }
  }

  // ------------------------------------------------------------------------------------------
  // Probabilities
  // ------------------------------------------------------------------------------------------

  function GivingProbabilities(members: seq<Member>): Json { Obj([Member("probabilities", Obj(members))]) }

  /** Numbers under different names, none of them one every object inherits. */
  predicate PlainNumbers(members: seq<Member>) {
    && DistinctNames(members)
    && forall i :: 0 <= i < |members| ==> members[i].value.Num? && members[i].name !in INHERITED
  }

  function PlainEntries(members: seq<Member>): seq<Entry>
    requires PlainNumbers(members)
  {
    if members == [] then [] else [Entry(members[0].name, members[0].value.n)] + PlainEntries(members[1..])
  }

  lemma {:induction false} PlainAreRead(js: JsHost, members: seq<Member>)
    requires PlainNumbers(members)
    ensures ReadEntries(js, members) == Ok(PlainEntries(members))
  {
    if members != [] {
      PlainAreRead(js, members[1..]);
      assert "__proto__" in INHERITED;
    }
  }

  lemma {:induction false} PlainValue(members: seq<Member>, name: string)
    requires PlainNumbers(members)
    ensures ValueOf(PlainEntries(members), name) == (if Has(members, name) then GetNumber(members, name) else 0.0)
  {
    if members != [] {
      PlainValue(members[1..], name);
      if members[0].name != name { TailHas(members, name); }
    }
  }

  function GetNumber(members: seq<Member>, name: string): real
    requires Has(members, name)
  {
    if Get(members, name).value.Num? then Get(members, name).value.n else 0.0
  }

  lemma {:induction false} WeightIff(options: seq<string>, values: seq<Entry>)
    requires forall i :: 0 <= i < |options| ==> options[i] !in INHERITED
    ensures Weight(options, values).Some? && Weight(options, values).value >= 0.0
    ensures Weight(options, values).value > 0.0 <==> exists i :: 0 <= i < |options| && ValueOf(values, options[i]) > 0.0
  {
    if options != [] {
      WeightIff(options[1..], values);
      if i :| 0 <= i < |options| && ValueOf(values, options[i]) > 0.0 {
        if i > 0 { assert options[1..][i - 1] == options[i]; }
      }
      if Weight(options, values).value > 0.0 && !(ValueOf(values, options[0]) > 0.0) {
        var i :| 0 <= i < |options[1..]| && ValueOf(values, options[1..][i]) > 0.0;
        assert options[i + 1] == options[1..][i];
      }
    }
  }

  /** Probabilities alone are accepted exactly if one of the options has a positive one. */
  lemma ProbabilitiesIff(js: JsHost, kind: string, options: seq<string>, members: seq<Member>)
    requires kind != "noul" && PlainNumbers(members)
    requires forall i :: 0 <= i < |options| ==> options[i] !in INHERITED
    ensures GoldProblemOf(js, kind, options, GivingProbabilities(members)).None?
            <==> exists i :: 0 <= i < |options| && Has(members, options[i]) && GetNumber(members, options[i]) > 0.0
  {
    var gold := GivingProbabilities(members).members;
    assert |"label"| == 5 && |"probabilities"| == 13;
    assert Get(gold, "label").None? && Get(gold, "probabilities") == Some(Obj(members));
    PlainAreRead(js, members);
    WeightIff(options, PlainEntries(members));
    forall i | 0 <= i < |options|
      ensures ValueOf(PlainEntries(members), options[i]) > 0.0 <==> Has(members, options[i]) && GetNumber(members, options[i]) > 0.0
    {
      PlainValue(members, options[i]);
    }
  }

  /** A number for one side of a yes/no question is accepted whatever it is: one of the two sides is then positive. */
  lemma AnyYesNoNumberPasses(js: JsHost, p: real)
    ensures GoldProblemOf(js, "noul", ["false", "true"], Obj(AsNoul(p))).None?
    ensures GoldProblemOf(js, "noul", ["false", "true"], Obj(AsTrue(p))).None?
  {
    assert |"noul"| == 4 && |"probabilities"| == 13 && |"true"| == 4 && |"__proto__"| == 9;
    var probs := [Member("true", Num(p))];
    assert probs[1..] == [];
    assert Probabilities("noul", AsNoul(p)) == Some(probs) == Probabilities("noul", AsTrue(p));
    assert Noted("true", p) + [] == [Entry("true", p)];
    assert ReadEntries(js, probs) == Ok([Entry("true", p)]);
    OneSideGiven(p);
  }

  // ------------------------------------------------------------------------------------------
  // Rows
  // ------------------------------------------------------------------------------------------

  /** JSON text of a list or an object. */
  predicate IsJsonText(s: string) { s != "" && (s[0] == '{' || s[0] == '[') }

  /** A row that carries its questions and its gold as they are, or as JSON text, among other columns. */
  predicate Carries(row: Json, state: Json, questions: Json, gold: Json) {
    && row.Obj? && Field(row, "state") == Some(state) && Field(row, "questions") == Some(questions) && GoldField(row) == Some(gold)
  }

  lemma JsonTextIsRead(js: JsHost, s: string, v: Json)
    requires IsJsonText(s) && js.parse(s) == Some(v)
    ensures JsonField(js, Some(Str(s))) == Some(v)
  {
    assert !IsSpace(s[0]);
    assert TrimStart(s) == s;
  }

  lemma PyJsonTextIsRead(py: PyHost, s: string, v: Json)
    requires IsJsonText(s) && py.parse(s) == Some(v)
    ensures PyJsonField(py, Some(Str(s))) == Some(v)
  {
    StripKeepsFirst(s);
  }

  lemma {:induction false} StripKeepsFirst(s: string)
    requires IsJsonText(s)
    ensures TwinText.PyStrip(s) != "" && TwinText.PyStrip(s)[0] == s[0]
  {
    assert !TwinText.PyIsSpace(s[0]);
    assert TwinText.PyStripStart(s) == s;
    StripEndKeepsFirst(s);
  }

  lemma {:induction false} StripEndKeepsFirst(s: string)
    requires s != "" && !TwinText.PyIsSpace(s[0])
    ensures TwinText.PyStripEnd(s) != "" && TwinText.PyStripEnd(s)[0] == s[0]
  {
    if TwinText.PyIsSpace(s[|s| - 1]) { StripEndKeepsFirst(s[..|s| - 1]); }
  }

  /**
   * Questions and gold stored as JSON text are read back by both sides, under either name of the gold, and every other
   * column is dropped.
   */
  lemma StringifiedIsRead(js: JsHost, py: PyHost, row: Json, state: Json, q: string, g: string, questions: Json, gold: Json)
    requires Carries(row, state, Str(q), Str(g)) && IsJsonText(q) && IsJsonText(g)
    requires js.parse(q) == py.parse(q) == Some(questions) && js.parse(g) == py.parse(g) == Some(gold)
    ensures Normalize(js, row) == PyNormalize(py, row)
            == Obj([Member("state", state), Member("questions", questions), Member("gold", gold)])
  {
    JsonTextIsRead(js, q, questions);
    JsonTextIsRead(js, g, gold);
    PyJsonTextIsRead(py, q, questions);
    PyJsonTextIsRead(py, g, gold);
  }

  /** Questions and gold that are objects stay as they are. */
  lemma PlainIsKept(js: JsHost, py: PyHost, row: Json, state: Json, questions: Json, gold: Json)
    requires Carries(row, state, questions, gold) && questions.Obj? && gold.Obj?
    ensures Normalize(js, row) == PyNormalize(py, row)
            == Obj([Member("state", state), Member("questions", questions), Member("gold", gold)])
  {
  }

  /** The two names of the gold: `answers` counts only where `gold` is missing or null. */
  lemma AnswersIsAnAlias(state: Json, questions: Json, gold: Json, answers: Json)
    ensures Carries(Obj([Member("state", state), Member("questions", questions), Member("answers", answers)]), state, questions, answers)
    ensures !gold.Null? ==>
              Carries(Obj([Member("state", state), Member("questions", questions), Member("answers", answers), Member("gold", gold)]),
                      state, questions, gold)
  {
    assert |"state"| == 5 && |"questions"| == 9 && |"answers"| == 7 && |"gold"| == 4;
    var s, q, a, g := Member("state", state), Member("questions", questions), Member("answers", answers), Member("gold", gold);
    FieldsAre(s, q, a, []);
    FieldsAre(s, q, a, [g]);
    assert [s, q, a] + [] == [s, q, a] && [s, q, a] + [g] == [s, q, a, g];
    assert Get([g], "gold") == Some(gold) && Get([], "gold") == None;
  }

  lemma FieldsAre(s: Member, q: Member, a: Member, rest: seq<Member>)
    requires s.name == "state" && q.name == "questions" && a.name == "answers"
    ensures var row := [s, q, a] + rest;
            && Get(row, "state") == Some(s.value) && Get(row, "questions") == Some(q.value) && Get(row, "answers") == Some(a.value)
            && Get(row, "gold") == Get(rest, "gold")
  {
    assert |"state"| == 5 && |"questions"| == 9 && |"answers"| == 7 && |"gold"| == 4;
    assert [s, q, a] + rest == [s] + ([q] + ([a] + rest));
    GetFirst(a, rest);
    GetFirst(q, [a] + rest);
    GetFirst(s, [q] + ([a] + rest));
    GetPast(s, [q] + ([a] + rest), "questions");
    GetPast(q, [a] + rest, "answers");
    GetPast(s, [q] + ([a] + rest), "answers");
    GetPast(a, rest, "gold");
    GetPast(q, [a] + rest, "gold");
    GetPast(s, [q] + ([a] + rest), "gold");
  }

  /** The question is in one of the documented forms. */
  predicate Documented(q: Json) {
    var kind, criteria := Field(q, "type"), Field(q, "criteria");
    || (kind == Some(Str("noul")) && YesNoTexts(criteria))
    || (kind == Some(Str("choice")) && criteria.Some? && (ListedOptions(criteria.value) || DescribedOptions(criteria.value)))
    || (kind == Some(Str("score")) && criteria.Some? && Levels(criteria.value))
  }

  /**
   * A row passes exactly with a state, 1 to 64 documented questions, and a gold that labels some of them, and only them,
   * well.
   */
  lemma RowFormatIff(js: JsHost, row: Json)
    ensures ValidRow(js, row) <==>
              && row.Obj? && !StateIsEmpty(Field(row, "state")) && IsObj(Field(row, "questions")) && IsObj(GoldField(row))
              && var questions, gold := Field(row, "questions").value.members, GoldField(row).value.members;
                 && 1 <= |questions| <= 64 && |gold| >= 1
                 && (forall i :: 0 <= i < |questions| ==> questions[i].value.Obj? && Documented(questions[i].value))
                 && (forall i :: 0 <= i < |gold| ==> Has(questions, gold[i].name))
                 && (forall i :: 0 <= i < |questions| && Has(gold, questions[i].name) ==>
                       GoldProblemOf(js, KindOf(questions[i].value), OptionsOfQuestion(questions[i].value),
                                     Get(gold, questions[i].name).value).None?)
  {
    if row.Obj? && IsObj(Field(row, "questions")) && IsObj(GoldField(row)) {
      var questions, gold := Field(row, "questions").value.members, GoldField(row).value.members;
      forall i | 0 <= i < |questions|
        ensures QuestionOk(js, questions[i], gold) <==>
                  && questions[i].value.Obj? && Documented(questions[i].value)
                  && (Has(gold, questions[i].name) ==>
                        GoldProblemOf(js, KindOf(questions[i].value), OptionsOfQuestion(questions[i].value),
                                      Get(gold, questions[i].name).value).None?)
      {
        QuestionFormatIff(Field(questions[i].value, "type"), Field(questions[i].value, "criteria"));
      }
    }
  }

  /** A state is missing if it is null, blank text, or an empty list or object; numbers and booleans are states. */
  lemma StateIsMissingIff(state: Option<Json>)
    ensures StateIsEmpty(state) <==>
              || state.None? || state.value.Null? || state.value == Arr([]) || state.value == Obj([])
              || (state.value.Str? && forall i :: 0 <= i < |state.value.s| ==> IsSpace(state.value.s[i]))
  {
    if state.Some? && state.value.Str? { TwinText.TrimIsEmpty(state.value.s); }
  }
}
