/**
 * The row check of the training job (trainers/unsloth-decision-train/decision_schema.py), written against
 * Python's own primitives, and exactly when it gives the same answer as the check at upload time.
 */
module DecisionSchemaTwin {
  import opened Wrappers
  import opened Lines
  import opened Entries
  import opened JsonValues
  import opened DecisionSchema
  import opened DecisionStore
  import opened TwinText

  /** Python: `str` of a value, `float` of a string (no number when it raises), and `json.loads`. */
  datatype PyHost = PyHost(text: Json -> string, number: string -> Reading, parse: string -> Option<Json>)

  // ------------------------------------------------------------------------------------------
  // The checks
  // ------------------------------------------------------------------------------------------

  /** `_json_field`. */
  function PyJsonField(py: PyHost, field: Option<Json>): Option<Json> {
    if field.Some? && field.value.Str?
    then
      var t := PyStrip(field.value.s);
      if t != "" && (t[0] == '{' || t[0] == '[') && py.parse(field.value.s).Some? then py.parse(field.value.s) else field
    else field
  }

  function OrNull(field: Option<Json>): Json { if field.None? then Null else field.value }

  /** `normalize_row`; a missing column becomes None. */
  function PyNormalize(py: PyHost, row: Json): Json {
    if !row.Obj? then row
    else Obj([Member("state", OrNull(Field(row, "state"))),
              Member("questions", OrNull(PyJsonField(py, Field(row, "questions")))),
              Member("gold", OrNull(PyJsonField(py, GoldField(row))))])
  }

  /** `_question_error`. */
  function PyQuestionProblem(kind: Option<Json>, criteria: Option<Json>): Option<QuestionIssue> {
    if kind != Some(Str("noul")) && kind != Some(Str("choice")) && kind != Some(Str("score")) then Some(BadType)
    else if kind == Some(Str("noul")) then
      if Absent(criteria) then None
      else if !criteria.value.Obj?
           || exists i :: 0 <= i < |criteria.value.members| && criteria.value.members[i].name !in {"true", "false"}
      then Some(BadCriteria)
      else None
    else
      var options := OptionsOf(kind.value.s, criteria);
      if options.None? then Some(NoOptions)
      else if kind == Some(Str("choice")) then
        if exists i, j :: 0 <= i < j < |options.value| && options.value[i] == options.value[j] then Some(RepeatedOptions)
        else if MIN_CHOICES <= |options.value| <= MAX_CHOICES then None
        else Some(OptionCount)
      else if MIN_LEVELS <= |options.value| <= MAX_LEVELS then None
      else Some(OptionCount)
  }

  /** `float(v)`; a bool counts as no number wherever the schema reads one. */
  function PyNumber(py: PyHost, v: Json): Reading {
    match v
    case Num(n) => Finite(n)
    case Str(s) => py.number(s)
    case _ => NotANumber
  }

  predicate AllRead(py: PyHost, members: seq<Member>) {
    forall i :: 0 <= i < |members| ==> !PyNumber(py, members[i].value).NotANumber?
  }

  predicate AllFinite(py: PyHost, members: seq<Member>) {
    forall i :: 0 <= i < |members| ==> PyNumber(py, members[i].value).Finite?
  }

  function PyEntries(py: PyHost, members: seq<Member>): seq<Entry>
    requires AllFinite(py, members)
  {
    if members == [] then []
    else [Entry(members[0].name, PyNumber(py, members[0].value).n)] + PyEntries(py, members[1..])
  }

  function PyWeight(options: seq<string>, values: seq<Entry>): real {
    if options == [] then 0.0 else Positive(ValueOf(values, options[0])) + PyWeight(options[1..], values)
  }

  function PyLabelProblem(py: PyHost, kind: string, options: seq<string>, raw: Option<Json>): Option<GoldProblem> {
    if Absent(raw) then Some(NoTarget)
    else if kind == "score" then
      match PyNumber(py, raw.value)
      case NotANumber => Some(BadLevel)
      case NotFinite => Some(NotWhole)
      case Finite(n) =>
        if !IsWhole(n) then Some(NotWhole) else if LevelText(n.Floor) in options then None else Some(NotAnOption)
    else
      var text := if kind == "noul" then Lower(PyStrip(py.text(raw.value))) else py.text(raw.value);
      if text in options then None else Some(NotAnOption)
  }

  /** `_gold_error`. */
  function PyGoldProblem(py: PyHost, kind: string, options: seq<string>, goldIn: Json): Option<GoldProblem> {
    var gold := GoldMembers(goldIn);
    var probabilities := Probabilities(kind, gold);
    var raw := Get(gold, "label");
    if probabilities.None? then PyLabelProblem(py, kind, options, raw)
    else if !AllRead(py, probabilities.value) then Some(NotNumbers)
    else if !AllFinite(py, probabilities.value) then Some(NotFiniteNumbers)
    else if PyWeight(options, Completed(kind, PyEntries(py, probabilities.value))) > 0.0 then None
    else PyLabelProblem(py, kind, options, raw)
  }

  predicate PyStateIsEmpty(state: Option<Json>) {
    || Absent(state)
    || (state.value.Str? && PyStrip(state.value.s) == "")
    || state.value == Obj([]) || state.value == Arr([])
  }

  predicate PyQuestionOk(py: PyHost, question: Member, gold: seq<Member>) {
    && question.value.Obj?
    && PyQuestionProblem(Field(question.value, "type"), Field(question.value, "criteria")).None?
    && (Has(gold, question.name) ==>
          PyGoldProblem(py, KindOf(question.value), OptionsOfQuestion(question.value),
                        Get(gold, question.name).value).None?)
  }

  predicate PyQuestionsOk(py: PyHost, questions: seq<Member>, gold: seq<Member>) {
    forall i :: 0 <= i < |questions| ==> PyQuestionOk(py, questions[i], gold)
  }

  predicate PyValidRow(py: PyHost, row: Json) {
    && row.Obj?
    && !PyStateIsEmpty(Field(row, "state"))
    && IsObj(Field(row, "questions")) && IsObj(GoldField(row))
    && var questions, gold := Field(row, "questions").value.members, GoldField(row).value.members;
       && 0 < |questions| <= MAX_QUESTIONS && gold != []
       && PyQuestionsOk(py, questions, gold)
       && GoldNamesQuestions(questions, gold)
  }

  lemma AddPyQuestion(py: PyHost, questions: seq<Member>, question: Member, gold: seq<Member>)
    ensures PyQuestionsOk(py, questions + [question], gold)
            <==> PyQuestionsOk(py, questions, gold) && PyQuestionOk(py, question, gold)
  {
    var more := questions + [question];
    assert more[|questions|] == question;
    assert forall i :: 0 <= i < |questions| ==> more[i] == questions[i];
  }

  /** What is wrong with one question, or with the gold label it has. */
  predicate PyIsProblemOf(py: PyHost, question: Member, gold: seq<Member>, problem: RowProblem) {
    var q := question.value;
    match problem
    case QuestionNotObject(name) => name == question.name && !q.Obj?
    case BadQuestion(name, issue) =>
      name == question.name && q.Obj? && PyQuestionProblem(Field(q, "type"), Field(q, "criteria")) == Some(issue)
    case BadGold(name, why) =>
      && name == question.name && q.Obj? && PyQuestionProblem(Field(q, "type"), Field(q, "criteria")).None? && Has(gold, name)
      && PyGoldProblem(py, KindOf(q), OptionsOfQuestion(q), Get(gold, name).value) == Some(why)
    case _ => false
  }

  /** The problems are those of the questions, and no others. */
  ghost predicate PyLists(py: PyHost, questions: seq<Member>, gold: seq<Member>, errors: seq<RowProblem>) {
    && (forall e :: e in errors ==> exists i :: 0 <= i < |questions| && PyIsProblemOf(py, questions[i], gold, e))
    && (forall i, e :: 0 <= i < |questions| && PyIsProblemOf(py, questions[i], gold, e) ==> e in errors)
  }

  lemma PyListsOneMore(py: PyHost, questions: seq<Member>, question: Member, gold: seq<Member>, errors: seq<RowProblem>, more: seq<RowProblem>)
    requires PyLists(py, questions, gold, errors) && errors <= more
    requires forall e :: e in more ==> e in errors || PyIsProblemOf(py, question, gold, e)
    requires forall e :: PyIsProblemOf(py, question, gold, e) ==> e in more
    ensures PyLists(py, questions + [question], gold, more)
  {
    var all := questions + [question];
    assert all[|questions|] == question && forall i :: 0 <= i < |questions| ==> all[i] == questions[i];
    assert forall e :: e in errors ==> e in more;
    forall e | e in more
      ensures exists i :: 0 <= i < |all| && PyIsProblemOf(py, all[i], gold, e)
    {
      if e in errors {
        var i :| 0 <= i < |questions| && PyIsProblemOf(py, questions[i], gold, e);
        assert PyIsProblemOf(py, all[i], gold, e);
      } else {
        assert PyIsProblemOf(py, all[|questions|], gold, e);
      }
    }
  }

  /** The problems tell of every question that has one, and of no other, and of labels without a question. */
  ghost predicate PyTellsAll(py: PyHost, questions: seq<Member>, gold: seq<Member>, errors: seq<RowProblem>) {
    && (ExtraGold in errors <==> !GoldNamesQuestions(questions, gold))
    && (forall i, e :: 0 <= i < |questions| && PyIsProblemOf(py, questions[i], gold, e) ==> e in errors)
    && (forall e :: e in errors && (e.QuestionNotObject? || e.BadQuestion? || e.BadGold?) ==>
          exists i :: 0 <= i < |questions| && PyIsProblemOf(py, questions[i], gold, e))
  }

  lemma PyAllTold(py: PyHost, questions: seq<Member>, gold: seq<Member>, before: seq<RowProblem>, found: seq<RowProblem>,
                errors: seq<RowProblem>)
    requires PyLists(py, questions, gold, found) && forall e :: e in before ==> OfTheRow(e)
    requires errors == if GoldNamesQuestions(questions, gold) then before + found else before + found + [ExtraGold]
    ensures PyTellsAll(py, questions, gold, errors)
    ensures forall e :: e in errors ==> e in before || e in found || e == ExtraGold
    ensures forall e :: OfTheRow(e) ==> (e in errors <==> e in before)
    ensures NoQuestions !in errors && NoGold !in errors && NotAnObject !in errors && NothingLabelled !in errors
    ensures errors == [] <==> before == [] && found == [] && GoldNamesQuestions(questions, gold)
  {
    assert forall e :: e in errors <==> e in before || e in found || (e == ExtraGold && !GoldNamesQuestions(questions, gold));
    assert forall i, e :: 0 <= i < |questions| && PyIsProblemOf(py, questions[i], gold, e) ==> e in found;
    forall e | e in found
      ensures e.QuestionNotObject? || e.BadQuestion? || e.BadGold?
    {
      var i :| 0 <= i < |questions| && PyIsProblemOf(py, questions[i], gold, e);
    }
  }

  /** One turn of the loop over the questions: its problem, and whether the question counts as labelled. */
  method PyCheckQuestion(py: PyHost, question: Member, gold: seq<Member>)
    returns (problem: Option<RowProblem>, counts: bool)
    ensures problem.None? <==> PyQuestionOk(py, question, gold)
    ensures problem.None? ==> (counts <==> Has(gold, question.name))
    ensures forall e :: PyIsProblemOf(py, question, gold, e) <==> problem == Some(e)
    ensures problem != Some(NothingLabelled)
  {
    if !question.value.Obj? { return Some(QuestionNotObject(question.name)), false; }
    var issue := PyQuestionProblem(Field(question.value, "type"), Field(question.value, "criteria"));
    if issue.Some? { return Some(BadQuestion(question.name, issue.value)), false; }
    if !Has(gold, question.name) { return None, false; }
    var found := PyGoldProblem(py, KindOf(question.value), OptionsOfQuestion(question.value), Get(gold, question.name).value);
    counts := true;
    problem := if found.Some? then Some(BadGold(question.name, found.value)) else None;
  }

  /** The loop over the questions: their problems, and how many of them are labelled. */
  method PyCheckQuestions(py: PyHost, questions: seq<Member>, gold: seq<Member>)
    returns (errors: seq<RowProblem>, labelled: nat)
    ensures errors == [] <==> PyQuestionsOk(py, questions, gold)
    ensures PyLists(py, questions, gold, errors)
    ensures NothingLabelled !in errors
    ensures errors == [] ==> (labelled == 0 <==> NoneLabelled(questions, gold))
  {
    errors, labelled := [], 0;
    for i := 0 to |questions|
      invariant errors == [] <==> PyQuestionsOk(py, questions[..i], gold)
      invariant PyLists(py, questions[..i], gold, errors)
      invariant NothingLabelled !in errors
      invariant errors == [] ==> (labelled == 0 <==> NoneLabelled(questions[..i], gold))
    {
      assert questions[..i + 1] == questions[..i] + [questions[i]];
      AddPyQuestion(py, questions[..i], questions[i], gold);
      AddLabelled(questions[..i], questions[i], gold);
      var problem, counts := PyCheckQuestion(py, questions[i], gold);
      if counts { labelled := labelled + 1; }
      ghost var before := errors;
      if problem.Some? { errors := errors + [problem.value]; }
      PyListsOneMore(py, questions[..i], questions[i], gold, before, errors);
    }
    assert questions[..|questions|] == questions;
  }

  /** What the check adds once the questions and the gold are there. */
  method PyCheckLabels(py: PyHost, questions: seq<Member>, gold: seq<Member>, before: seq<RowProblem>) returns (errors: seq<RowProblem>)
    requires gold != [] && forall e :: e in before ==> OfTheRow(e)
    ensures errors == [] <==> before == [] && PyQuestionsOk(py, questions, gold) && GoldNamesQuestions(questions, gold)
    ensures PyTellsAll(py, questions, gold, errors)
    ensures forall e :: OfTheRow(e) ==> (e in errors <==> e in before)
    ensures NoQuestions !in errors && NoGold !in errors && NotAnObject !in errors && NothingLabelled !in errors
  {
    var found, labelled := PyCheckQuestions(py, questions, gold);
    errors := before + found;
    if !GoldNamesQuestions(questions, gold) { errors := errors + [ExtraGold]; }
    PyAllTold(py, questions, gold, before, found, errors);
    if errors == [] { SomeLabelled(questions, gold); }
    if labelled == 0 && errors == [] { errors := errors + [NothingLabelled]; }
  }

  /** `validate_row`. */
  method ValidateRow(py: PyHost, row: Json) returns (errors: seq<RowProblem>)
    ensures errors == [] <==> PyValidRow(py, row)
    ensures NotAnObject in errors <==> !row.Obj?
    ensures row.Obj? ==>
              && (EmptyState in errors <==> PyStateIsEmpty(Field(row, "state")))
              && (NoQuestions in errors <==> !HasQuestions(row))
              && (TooManyQuestions in errors <==> HasQuestions(row) && |Field(row, "questions").value.members| > 64)
              && (NoGold in errors <==> HasQuestions(row) && !HasGold(row))
    ensures row.Obj? && HasQuestions(row) && HasGold(row) ==>
              PyTellsAll(py, Field(row, "questions").value.members, GoldField(row).value.members, errors)
    ensures NothingLabelled !in errors
  {
    if !row.Obj? { return [NotAnObject]; }
    errors := [];
    if PyStateIsEmpty(Field(row, "state")) { errors := errors + [EmptyState]; }
    var questionsField := Field(row, "questions");
    if !IsObj(questionsField) || questionsField.value.members == [] {
      errors := errors + [NoQuestions];
      return;
    }
    var questions := questionsField.value.members;
    if |questions| > MAX_QUESTIONS { errors := errors + [TooManyQuestions]; }
    var goldField := GoldField(row);
    if !IsObj(goldField) || goldField.value.members == [] {
      errors := errors + [NoGold];
      return;
    }
    var gold := goldField.value.members;
    errors := PyCheckLabels(py, questions, gold, errors);
  }

  // ------------------------------------------------------------------------------------------
  // Where the twins agree: the state
  // ------------------------------------------------------------------------------------------

  /** Not a text that is blank for one language only. */
  predicate StateMeets(state: Option<Json>) {
    state.Some? && state.value.Str? ==>
      var s := state.value.s;
      !(OnlySpaces(s) && HasMark(s)) && !(OnlyPySpaces(s) && HasSeparator(s))
  }

  /** The state is judged alike exactly when it is not a text that is blank for one language only. */
  lemma StatesAgreeIff(state: Option<Json>)
    ensures (StateIsEmpty(state) <==> PyStateIsEmpty(state)) <==> StateMeets(state)
  {
    if state.Some? && state.value.Str? {
      TrimIsEmpty(state.value.s);
      PyStripIsEmpty(state.value.s);
      SpacesDiffer(state.value.s);
    }
  }

  // ------------------------------------------------------------------------------------------
  // Where the twins agree: one gold value
  // ------------------------------------------------------------------------------------------

  /**
   * How the two languages write strings and booleans out; and a number or an object is written as neither yes nor
   * no, nor a list in Python (`['true']`), but in JavaScript a list may be (`["true"]` is written as `true`).
   */
  ghost predicate HostsWrite(js: JsHost, py: PyHost) {
    && (forall s: string :: js.text(Str(s)) == s && py.text(Str(s)) == s)
    && js.text(Bool(true)) == "true" && js.text(Bool(false)) == "false"
    && py.text(Bool(true)) == "True" && py.text(Bool(false)) == "False"
    && (forall v: Json :: v.Num? || v.Obj? ==> !IsYesNo(Trim(js.text(v))))
    && (forall v: Json :: v.Num? || v.Obj? || v.Arr? ==> !IsYesNo(PyStrip(py.text(v))))
  }

  /** A string both languages read as a finite number is the same number to both. */
  ghost predicate HostsRead(js: JsHost, py: PyHost) {
    forall s: string :: js.number(s).Finite? && py.number(s).Finite? ==> js.number(s) == py.number(s)
  }

  /** The label names an option to JavaScript. */
  predicate JsNames(js: JsHost, kind: string, options: seq<string>, raw: Option<Json>) {
    && !Absent(raw)
    && LabelText(js, kind, raw.value).Ok? && LabelText(js, kind, raw.value).value in options
  }

  /** The label names an option to Python. */
  predicate PyNames(py: PyHost, kind: string, options: seq<string>, raw: Option<Json>) {
    && !Absent(raw)
    && if kind == "score"
       then
         var level := PyNumber(py, raw.value);
         level.Finite? && IsWhole(level.n) && LevelText(level.n.Floor) in options
       else (if kind == "noul" then Lower(PyStrip(py.text(raw.value))) else py.text(raw.value)) in options
  }

  predicate NamesLevel(options: seq<string>, level: Reading) {
    level.Finite? && IsWhole(level.n) && LevelText(level.n.Floor) in options
  }

  /**
   * A yes/no label: a string must not be yes or no with white space around it of which one language knows all
   * and the other does not; and a list must not be written as yes or no.
   */
  predicate YesNoMeets(js: JsHost, raw: Json) {
    match raw
    case Str(s) => !(YesNoInBlanks(s) && HasMark(s) != HasSeparator(s))
    case Arr(_) => !IsYesNo(Trim(js.text(raw)))
    case _ => true
  }

  /** A choice label: strings always; a boolean is "true" to one language and "True" to the other. */
  predicate ChoiceMeets(js: JsHost, py: PyHost, options: seq<string>, raw: Json) {
    match raw
    case Str(_) => true
    case Bool(b) => if b then "true" in options <==> "True" in options else "false" in options <==> "False" in options
    case _ => js.text(raw) in options <==> py.text(raw) in options
  }

  /** A score label: a string must be a number to both languages, or name a level to neither. */
  predicate ScoreMeets(js: JsHost, py: PyHost, options: seq<string>, raw: Json) {
    raw.Str? ==>
      || (js.number(raw.s).Finite? && py.number(raw.s).Finite?)
      || (!NamesLevel(options, js.number(raw.s)) && !NamesLevel(options, py.number(raw.s)))
  }

  /** What a label must be like for the two languages to find an option in it alike. */
  predicate LabelMeets(js: JsHost, py: PyHost, kind: string, options: seq<string>, raw: Option<Json>) {
    || Absent(raw)
    || if kind == "noul" then YesNoMeets(js, raw.value)
       else if kind == "score" then ScoreMeets(js, py, options, raw.value)
       else ChoiceMeets(js, py, options, raw.value)
  }

  predicate JsAllFinite(js: JsHost, members: seq<Member>) {
    forall i :: 0 <= i < |members| ==> ToNumber(js, members[i].value).Finite?
  }

  /** An option with an inherited name that JavaScript finds no number for: its weight is NaN. */
  predicate InheritedGap(options: seq<string>, members: seq<Member>) {
    exists i :: 0 <= i < |options| && options[i] in INHERITED && (options[i] == "__proto__" || !Has(members, options[i]))
  }

  predicate PyUsable(py: PyHost, kind: string, options: seq<string>, members: seq<Member>)
    requires AllFinite(py, members)
  {
    PyWeight(options, Completed(kind, PyEntries(py, members))) > 0.0
  }

  predicate JsUsable(js: JsHost, kind: string, options: seq<string>, members: seq<Member>) {
    ReadEntries(js, members).Ok? && Usable(kind, options, ReadEntries(js, members).value)
  }

  /** What a gold value must be like for the two checks to give one answer, by what each reads of its numbers. */
  predicate GoldMeets(js: JsHost, py: PyHost, kind: string, options: seq<string>, goldIn: Json) {
    var gold := GoldMembers(goldIn);
    var probabilities, raw := Probabilities(kind, gold), Get(gold, "label");
    if probabilities.None? then LabelMeets(js, py, kind, options, raw)
    else
      var numbers := probabilities.value;
      if JsAllFinite(js, numbers) && AllFinite(py, numbers) then
        if PyUsable(py, kind, options, numbers)
        then !InheritedGap(options, numbers) || JsNames(js, kind, options, raw)
        else LabelMeets(js, py, kind, options, raw)
      else if JsAllFinite(js, numbers) then
        !JsUsable(js, kind, options, numbers) && !JsNames(js, kind, options, raw)
      else if AllFinite(py, numbers) then
        !PyUsable(py, kind, options, numbers) && !PyNames(py, kind, options, raw)
      else true
  }

  lemma {:induction false} JsReadsAll(js: JsHost, members: seq<Member>)
    ensures ReadEntries(js, members).Ok? <==> JsAllFinite(js, members)
  {
    if members != [] {
      JsReadsAll(js, members[1..]);
      assert members == [members[0]] + members[1..];
    }
  }

  /** Numbers both read are the same entries to both. */
  lemma {:induction false} EntriesAgree(js: JsHost, py: PyHost, members: seq<Member>)
    requires HostsRead(js, py) && JsAllFinite(js, members) && AllFinite(py, members)
    ensures ReadEntries(js, members) == Ok(Settable(PyEntries(py, members)))
  {
    if members != [] {
      var m := members[0];
      SameReading(js, py, m.value);
      EntriesAgree(js, py, members[1..]);
      var e := Entry(m.name, PyNumber(py, m.value).n);
      assert ([e] + PyEntries(py, members[1..]))[1..] == PyEntries(py, members[1..]);
    }
  }

  lemma SameReading(js: JsHost, py: PyHost, v: Json)
    requires HostsRead(js, py) && ToNumber(js, v).Finite? && PyNumber(py, v).Finite?
    ensures ToNumber(js, v) == PyNumber(py, v)
  {
  }

  lemma {:induction false} PyEntriesKeys(py: PyHost, members: seq<Member>, key: string)
    requires AllFinite(py, members)
    ensures HasKey(PyEntries(py, members), key) <==> Has(members, key)
  {
    if members != [] {
      var entries := PyEntries(py, members);
      PyEntriesKeys(py, members[1..], key);
      assert entries[1..] == PyEntries(py, members[1..]);
      KeyStep(entries, key);
      if members[0].name != key { TailHas(members, key); }
    }
  }

  /** The entries JavaScript can set as keys. */
  function Settable(values: seq<Entry>): seq<Entry> {
    if values == [] then [] else Noted(values[0].key, values[0].value) + Settable(values[1..])
  }

  lemma {:induction false} SettableKeeps(values: seq<Entry>, key: string)
    requires key != "__proto__"
    ensures HasKey(Settable(values), key) <==> HasKey(values, key)
    ensures ValueOf(Settable(values), key) == ValueOf(values, key)
  {
    if values != [] {
      var e := values[0];
      SettableKeeps(values[1..], key);
      KeyStep(values, key);
      if e.key != "__proto__" {
        var kept := Settable(values);
        assert kept == [e] + Settable(values[1..]);
        assert kept[1..] == Settable(values[1..]);
        KeyStep(kept, key);
      } else {
        assert Settable(values) == [] + Settable(values[1..]) == Settable(values[1..]);
      }
    }
  }

  lemma KeyStep(values: seq<Entry>, key: string)
    requires values != []
    ensures HasKey(values, key) <==> values[0].key == key || HasKey(values[1..], key)
  {
    if values[0].key != key { TailMisses(values, key); }
  }

  lemma {:induction false} ValueOfAppend(a: seq<Entry>, e: Entry, key: string)
    ensures ValueOf(a + [e], key) == if HasKey(a, key) then ValueOf(a, key) else if e.key == key then e.value else 0.0
  {
    if a == [] {
      assert a + [e] == [e] && [e][1..] == [];
    } else {
      assert (a + [e])[1..] == a[1..] + [e];
      KeyStep(a, key);
      ValueOfAppend(a[1..], e, key);
    }
  }

  predicate OneSided(kind: string, values: seq<Entry>) {
    kind == "noul" && HasKey(values, "true") != HasKey(values, "false")
  }

  function OtherSide(values: seq<Entry>): Entry {
    if HasKey(values, "true") then Entry("false", 1.0 - ValueOf(values, "true"))
    else Entry("true", 1.0 - ValueOf(values, "false"))
  }

  lemma CompletedIs(kind: string, values: seq<Entry>)
    ensures Completed(kind, values) == if OneSided(kind, values) then values + [OtherSide(values)] else values
  {
  }

  lemma SidesKept(kind: string, values: seq<Entry>)
    ensures OneSided(kind, Settable(values)) <==> OneSided(kind, values)
    ensures OtherSide(Settable(values)) == OtherSide(values)
  {
    SettableKeeps(values, "true");
    SettableKeeps(values, "false");
  }

  /** Completing the entries of a yes/no question keeps the agreement. */
  lemma CompletedAgrees(kind: string, values: seq<Entry>, key: string)
    requires key != "__proto__"
    ensures ValueOf(Completed(kind, Settable(values)), key) == ValueOf(Completed(kind, values), key)
  {
    CompletedIs(kind, values);
    CompletedIs(kind, Settable(values));
    SidesKept(kind, values);
    SettableKeeps(values, key);
    AddedAgrees(Settable(values), values, OtherSide(values), key);
  }

  lemma AddedAgrees(kept: seq<Entry>, values: seq<Entry>, e: Entry, key: string)
    requires HasKey(kept, key) <==> HasKey(values, key)
    requires ValueOf(kept, key) == ValueOf(values, key)
    ensures ValueOf(kept + [e], key) == ValueOf(values + [e], key)
  {
    ValueOfAppend(kept, e, key);
    ValueOfAppend(values, e, key);
  }

  lemma {:induction false} NeverSet(values: seq<Entry>)
    ensures !HasKey(Settable(values), "__proto__")
  {
    if values != [] {
      NeverSet(values[1..]);
      if values[0].key != "__proto__" {
        assert Settable(values)[1..] == Settable(values[1..]);
        KeyStep(Settable(values), "__proto__");
      } else {
        assert Settable(values) == [] + Settable(values[1..]) == Settable(values[1..]);
      }
    }
  }

  /** Completing a yes/no question gives no inherited name a number. */
  lemma CompletedKeys(kind: string, values: seq<Entry>, key: string)
    requires key != "true" && key != "false"
    ensures HasKey(Completed(kind, values), key) <==> HasKey(values, key)
  {
    var more := Completed(kind, values);
    assert more[..|values|] == values;
    if i :| 0 <= i < |values| && values[i].key == key { assert more[i].key == key; }
  }

  /** The options JavaScript has no number for and reads an inherited value for. */
  predicate Gap(options: seq<string>, values: seq<Entry>) {
    exists i :: 0 <= i < |options| && options[i] in INHERITED && !HasKey(values, options[i])
  }

  lemma GapStep(options: seq<string>, values: seq<Entry>)
    requires options != []
    ensures Gap(options, values) <==> (options[0] in INHERITED && !HasKey(values, options[0])) || Gap(options[1..], values)
  {
    assert options == [options[0]] + options[1..];
    if i :| 0 <= i < |options[1..]| && options[1..][i] in INHERITED && !HasKey(values, options[1..][i]) {
      assert options[i + 1] in INHERITED && !HasKey(values, options[i + 1]);
    }
    if j :| 0 <= j < |options| && options[j] in INHERITED && !HasKey(values, options[j]) && j > 0 {
      assert options[1..][j - 1] in INHERITED && !HasKey(values, options[1..][j - 1]);
    }
  }

  /** The weight is no number exactly with a gap, and Python's weight otherwise. */
  lemma {:induction false} WeightsAgree(kind: string, options: seq<string>, values: seq<Entry>)
    ensures var kept := Completed(kind, Settable(values));
            Weight(options, kept) == if Gap(options, kept) then None else Some(PyWeight(options, Completed(kind, values)))
  {
    if options != [] {
      GapStep(options, Completed(kind, Settable(values)));
      WeightsAgree(kind, options[1..], values);
      if options[0] != "__proto__" { CompletedAgrees(kind, values, options[0]); } else { ProtoIsGap(kind, values); }
    }
  }

  lemma ProtoIsGap(kind: string, values: seq<Entry>)
    ensures !HasKey(Completed(kind, Settable(values)), "__proto__")
  {
    NeverSet(values);
    assert "__proto__"[0] != "true"[0] && "__proto__"[0] != "false"[0];
    CompletedKeys(kind, Settable(values), "__proto__");
  }

  /** An inherited name is none of the two sides of a yes/no question. */
  lemma NotInherited()
    ensures "true" !in INHERITED && "false" !in INHERITED
  {
    var t, f := "true", "false";
    assert |t| == 4 && |f| == 5;
    forall name | name in INHERITED ensures |name| > 5 {
    }
  }

  lemma GapIsInherited(py: PyHost, kind: string, options: seq<string>, members: seq<Member>)
    requires AllFinite(py, members)
    ensures Gap(options, Completed(kind, Settable(PyEntries(py, members)))) <==> InheritedGap(options, members)
  {
    var values := PyEntries(py, members);
    forall i | 0 <= i < |options| && options[i] in INHERITED
      ensures HasKey(Completed(kind, Settable(values)), options[i])
              <==> options[i] != "__proto__" && Has(members, options[i])
    {
      NotInherited();
      if options[i] == "__proto__" {
        ProtoIsGap(kind, values);
      } else {
        CompletedKeys(kind, Settable(values), options[i]);
        SettableKeeps(values, options[i]);
        PyEntriesKeys(py, members, options[i]);
      }
    }
  }

  /** With the same numbers, JavaScript finds them usable exactly when Python does and no option is a gap. */
  lemma UsableAgrees(js: JsHost, py: PyHost, kind: string, options: seq<string>, members: seq<Member>)
    requires HostsRead(js, py) && JsAllFinite(js, members) && AllFinite(py, members)
    ensures JsUsable(js, kind, options, members)
            <==> PyUsable(py, kind, options, members) && !InheritedGap(options, members)
  {
    EntriesAgree(js, py, members);
    WeightsAgree(kind, options, PyEntries(py, members));
    GapIsInherited(py, kind, options, members);
  }

  /** What each check accepts, in the terms of `GoldMeets`. */
  lemma JsAccepts(js: JsHost, kind: string, options: seq<string>, goldIn: Json)
    ensures var gold := GoldMembers(goldIn);
            var probabilities, named := Probabilities(kind, gold), JsNames(js, kind, options, Get(gold, "label"));
            GoldProblemOf(js, kind, options, goldIn).None?
            <==> if probabilities.None? then named
                 else JsAllFinite(js, probabilities.value) && (JsUsable(js, kind, options, probabilities.value) || named)
  {
    var probabilities := Probabilities(kind, GoldMembers(goldIn));
    if probabilities.Some? { JsReadsAll(js, probabilities.value); }
  }

  lemma PyAccepts(py: PyHost, kind: string, options: seq<string>, goldIn: Json)
    ensures var gold := GoldMembers(goldIn);
            var probabilities, named := Probabilities(kind, gold), PyNames(py, kind, options, Get(gold, "label"));
            PyGoldProblem(py, kind, options, goldIn).None?
            <==> if probabilities.None? then named
                 else AllFinite(py, probabilities.value) && (PyUsable(py, kind, options, probabilities.value) || named)
  {
    var probabilities := Probabilities(kind, GoldMembers(goldIn));
    if probabilities.Some? && AllFinite(py, probabilities.value) {
      assert AllRead(py, probabilities.value);
    }
  }

  lemma BoolsAreYesNo(yes: bool)
    ensures IsYesNo(Trim(if yes then "true" else "false")) && IsYesNo(PyStrip(if yes then "True" else "False"))
  {
    LowerShape("true");
    LowerShape("True");
    LowerShape("false");
    LowerShape("False");
    assert Trim("true") == "true" && PyStrip("True") == "True";
    assert Trim("false") == "false" && PyStrip("False") == "False";
    assert Lower("true") == "true" && Lower("True") == "true";
    assert Lower("false") == "false" && Lower("False") == "false";
  }

  /** A yes/no string is read alike exactly when mark and separator do not stand around the word one without the other. */
  lemma YesNoStringsMeetIff(js: JsHost, py: PyHost, s: string)
    requires HostsWrite(js, py)
    ensures (JsNames(js, "noul", ["false", "true"], Some(Str(s))) <==> PyNames(py, "noul", ["false", "true"], Some(Str(s))))
            <==> !(YesNoInBlanks(s) && HasMark(s) != HasSeparator(s))
  {
    JsYesNoIff(s);
    PyYesNoIff(s);
  }

  lemma YesNoLabelsMeetIff(js: JsHost, py: PyHost, raw: Json)
    requires HostsWrite(js, py) && !raw.Null?
    ensures (JsNames(js, "noul", ["false", "true"], Some(raw)) <==> PyNames(py, "noul", ["false", "true"], Some(raw)))
            <==> YesNoMeets(js, raw)
  {
    match raw
    case Str(s) => YesNoStringsMeetIff(js, py, s);
    case Bool(b) =>
      BoolsAreYesNo(b);
      assert raw == Bool(true) || raw == Bool(false);
    case Null =>
    case Num(_) =>
    case Arr(_) =>
    case Obj(_) =>
  }

  lemma ChoiceLabelsMeetIff(js: JsHost, py: PyHost, kind: string, options: seq<string>, raw: Json)
    requires HostsWrite(js, py) && !raw.Null? && kind != "noul" && kind != "score"
    ensures (JsNames(js, kind, options, Some(raw)) <==> PyNames(py, kind, options, Some(raw)))
            <==> ChoiceMeets(js, py, options, raw)
  {
    if raw.Bool? { assert raw == Bool(true) || raw == Bool(false); }
  }

  lemma ScoreLabelsMeetIff(js: JsHost, py: PyHost, options: seq<string>, raw: Json)
    requires HostsRead(js, py) && !raw.Null?
    ensures (JsNames(js, "score", options, Some(raw)) <==> PyNames(py, "score", options, Some(raw)))
            <==> ScoreMeets(js, py, options, raw)
  {
  }

  /** Both languages find an option in a label, or neither does, exactly when it meets. */
  lemma LabelsMeetIff(js: JsHost, py: PyHost, kind: string, options: seq<string>, raw: Option<Json>)
    requires HostsWrite(js, py) && HostsRead(js, py) && (kind == "noul" ==> options == ["false", "true"])
    ensures (JsNames(js, kind, options, raw) <==> PyNames(py, kind, options, raw))
            <==> LabelMeets(js, py, kind, options, raw)
  {
    if Absent(raw) {
    } else if kind == "noul" {
      YesNoLabelsMeetIff(js, py, raw.value);
    } else if kind == "score" {
      ScoreLabelsMeetIff(js, py, options, raw.value);
    } else {
      ChoiceLabelsMeetIff(js, py, kind, options, raw.value);
    }
  }

  /** One gold value, of any kind: the two checks give one answer exactly when it meets. */
  lemma GoldsAgreeIff(js: JsHost, py: PyHost, kind: string, options: seq<string>, goldIn: Json)
    requires HostsWrite(js, py) && HostsRead(js, py) && (kind == "noul" ==> options == ["false", "true"])
    ensures (GoldProblemOf(js, kind, options, goldIn).None? <==> PyGoldProblem(py, kind, options, goldIn).None?)
            <==> GoldMeets(js, py, kind, options, goldIn)
  {
    JsAccepts(js, kind, options, goldIn);
    PyAccepts(py, kind, options, goldIn);
    LabelsMeetIff(js, py, kind, options, Get(GoldMembers(goldIn), "label"));
    var probabilities := Probabilities(kind, GoldMembers(goldIn));
    if probabilities.Some? && JsAllFinite(js, probabilities.value) && AllFinite(py, probabilities.value) {
      UsableAgrees(js, py, kind, options, probabilities.value);
    }
  }

  // ------------------------------------------------------------------------------------------
  // Where the twins agree: a row
  // ------------------------------------------------------------------------------------------

  lemma QuestionProblemsAgree(kind: Option<Json>, criteria: Option<Json>)
    ensures PyQuestionProblem(kind, criteria) == QuestionProblem(kind, criteria)
  {
  }

  /** A well-formed question's gold value, if it has one, meets. */
  predicate QuestionMeets(js: JsHost, py: PyHost, question: Member, gold: seq<Member>) {
    && question.value.Obj?
    && QuestionProblem(Field(question.value, "type"), Field(question.value, "criteria")).None?
    && Has(gold, question.name)
    ==> GoldMeets(js, py, KindOf(question.value), OptionsOfQuestion(question.value), Get(gold, question.name).value)
  }

  lemma QuestionsAgreeIff(js: JsHost, py: PyHost, question: Member, gold: seq<Member>)
    requires HostsWrite(js, py) && HostsRead(js, py)
    ensures (QuestionOk(js, question, gold) <==> PyQuestionOk(py, question, gold)) <==> QuestionMeets(js, py, question, gold)
  {
    QuestionProblemsAgree(Field(question.value, "type"), Field(question.value, "criteria"));
    if Has(gold, question.name) {
      GoldsAgreeIff(js, py, KindOf(question.value), OptionsOfQuestion(question.value), Get(gold, question.name).value);
    }
  }

  /** The state meets, and so does every question. */
  predicate PartsMeet(js: JsHost, py: PyHost, row: Json) {
    var questions, gold := Field(row, "questions"), GoldField(row);
    && StateMeets(Field(row, "state"))
    && (IsObj(questions) && IsObj(gold) ==>
          forall i :: 0 <= i < |questions.value.members| ==>
            QuestionMeets(js, py, questions.value.members[i], gold.value.members))
  }

  /**
   * A row that one of the checks accepts is accepted by the other if and only if all its parts meet; so on rows
   * whose parts meet they agree.
   */
  lemma TwinsAgreeIff(js: JsHost, py: PyHost, row: Json)
    requires HostsWrite(js, py) && HostsRead(js, py)
    ensures ValidRow(js, row) || PyValidRow(py, row) ==>
              ((ValidRow(js, row) && PyValidRow(py, row)) <==> PartsMeet(js, py, row))
    ensures PartsMeet(js, py, row) ==> (ValidRow(js, row) <==> PyValidRow(py, row))
  {
    StatesAgreeIff(Field(row, "state"));
    var questions, gold := Field(row, "questions"), GoldField(row);
    if IsObj(questions) && IsObj(gold) {
      QuestionsOfRow(js, py, questions.value.members, gold.value.members);
    }
  }

  lemma QuestionsOfRow(js: JsHost, py: PyHost, questions: seq<Member>, gold: seq<Member>)
    requires HostsWrite(js, py) && HostsRead(js, py)
    ensures var meet := forall i :: 0 <= i < |questions| ==> QuestionMeets(js, py, questions[i], gold);
            && (QuestionsOk(js, questions, gold) || PyQuestionsOk(py, questions, gold) ==>
                  ((QuestionsOk(js, questions, gold) && PyQuestionsOk(py, questions, gold)) <==> meet))
            && (meet ==> (QuestionsOk(js, questions, gold) <==> PyQuestionsOk(py, questions, gold)))
  {
    forall i | 0 <= i < |questions|
      ensures (QuestionOk(js, questions[i], gold) <==> PyQuestionOk(py, questions[i], gold))
              <==> QuestionMeets(js, py, questions[i], gold)
    {
      QuestionsAgreeIff(js, py, questions[i], gold);
    }
  }

  // ------------------------------------------------------------------------------------------
  // Where they do not
  // ------------------------------------------------------------------------------------------

  /**
   * Each way to disagree happens: a boolean names the option "true" for JavaScript and "True" for Python; a
   * state can be blank for either language only.
   */
  lemma TwinsDisagree(js: JsHost, py: PyHost)
    requires HostsWrite(js, py)
    ensures GoldProblemOf(js, "choice", ["true", "maybe"], Bool(true)) == None
    ensures PyGoldProblem(py, "choice", ["true", "maybe"], Bool(true)) == Some(NotAnOption)
    ensures !StateIsEmpty(Some(Str(['\U{1C}']))) && PyStateIsEmpty(Some(Str(['\U{1C}'])))
    ensures StateIsEmpty(Some(Str(['\U{FEFF}']))) && !PyStateIsEmpty(Some(Str(['\U{FEFF}'])))
  {
    var gold := GoldMembers(Bool(true));
    assert gold[1..] == [];
    assert Get(gold, "label") == Some(Bool(true)) && Get(gold, "probabilities") == None && Get(gold, "noul") == None;
    var options := ["true", "maybe"];
    assert options[0] == "true";
    assert "True"[0] != "true"[0] && "True"[0] != "maybe"[0];
    var separator, mark := ['\U{1C}'], ['\U{FEFF}'];
    assert separator[1..] == [] && mark[1..] == [];
    assert Trim(separator) == separator && PyStrip(mark) == mark;
  }

  /** Gold that only has probabilities. */
  function OnlyProbabilities(probabilities: seq<Member>): Json { Obj([Member("probabilities", Obj(probabilities))]) }

  lemma OnlyProbabilitiesFields(probabilities: seq<Member>)
    ensures var gold := GoldMembers(OnlyProbabilities(probabilities));
            Get(gold, "probabilities") == Some(Obj(probabilities)) && Get(gold, "label") == None
  {
    var gold := GoldMembers(OnlyProbabilities(probabilities));
    assert gold[1..] == [];
    assert "label" != "probabilities" by { assert |"label"| != |"probabilities"|; }
  }

  /** An option named "constructor" without a number spoils the weight for JavaScript only. */
  lemma InheritedOptionDisagrees(js: JsHost, py: PyHost)
    ensures var options, gold := ["constructor", "b"], OnlyProbabilities([Member("b", Num(1.0))]);
            && GoldProblemOf(js, "choice", options, gold) == Some(NoTarget)
            && PyGoldProblem(py, "choice", options, gold) == None
  {
    var options, members := ["constructor", "b"], [Member("b", Num(1.0))];
    OnlyProbabilitiesFields(members);
    assert members[1..] == [] && options[1..] == ["b"] && options[1..][1..] == [];
    var entries := [Entry("b", 1.0)];
    assert PyEntries(py, members) == entries && "b"[0] != "_"[0];
    assert ReadEntries(js, members) == Ok(Noted("b", 1.0) + []) && Noted("b", 1.0) + [] == entries;
    assert !HasKey(entries, "constructor") by { assert |"constructor"| != |"b"|; }
    assert Weight(options, entries).None?;
    assert PyWeight(["b"], entries) == 1.0;
  }

  /** So does a string that is a number to one language only, like "1_0" to Python. */
  lemma StringNumberDisagrees(js: JsHost, py: PyHost, s: string)
    requires js.number(s).NotANumber? && py.number(s) == Finite(10.0)
    ensures var options, gold := ["a", "b"], OnlyProbabilities([Member("a", Str(s))]);
            && GoldProblemOf(js, "choice", options, gold) == Some(NotNumbers)
            && PyGoldProblem(py, "choice", options, gold) == None
  {
    var options, members := ["a", "b"], [Member("a", Str(s))];
    OnlyProbabilitiesFields(members);
    assert members[1..] == [] && options[1..] == ["b"] && options[1..][1..] == [];
    assert PyEntries(py, members) == [Entry("a", 10.0)];
    assert PyWeight(options, [Entry("a", 10.0)]) == 10.0 + PyWeight(["b"], [Entry("a", 10.0)]);
    assert PyWeight(["b"], [Entry("a", 10.0)]) >= 0.0;
  }
}
