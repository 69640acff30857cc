/**
 * The row format of a decision dataset as the upload checks it (src/lib/decision-schema.ts). JSON text,
 * `String(v)` and `Number(s)` are what a `JsHost` says they are; numbers are exact and finite.
 */
module DecisionSchema {
  import opened Wrappers
  import opened Lines
  import opened Digits
  import opened Entries
  import opened JsonValues

  const MAX_QUESTIONS := 64
  const MIN_CHOICES := 2
  const MAX_CHOICES := 255
  const MIN_LEVELS := 2
  const MAX_LEVELS := 10

  /** What reading a number gives: no number, one that is not finite, or a finite one. */
  datatype Reading = NotANumber | NotFinite | Finite(n: real)

  /**
   * JavaScript: `String` of a value, `Number` of a string that matches the NUMERIC pattern (no number
   * otherwise), `Number` of any string, `JSON.parse` (none when it throws), `JSON.stringify`, and `String` of
   * what an object without a field of its own under an inherited name reads there.
   */
  datatype JsHost = JsHost(
    text: Json -> string,
    number: string -> Reading,
    anyNumber: string -> Reading,
    parse: string -> Option<Json>,
    stringify: Json -> string,
    inherited: string -> string)

  // ------------------------------------------------------------------------------------------
  // Normalising
  // ------------------------------------------------------------------------------------------

  /** `/^\s*[{[]/`. */
  predicate LooksLikeJson(s: string) {
    var t := TrimStart(s);
    t != "" && (t[0] == '{' || t[0] == '[')
  }

  /** `jsonField`: a field that holds JSON as a string is parsed, when it parses. */
  function JsonField(js: JsHost, field: Option<Json>): Option<Json> {
    if field.Some? && field.value.Str? && LooksLikeJson(field.value.s) && js.parse(field.value.s).Some?
    then js.parse(field.value.s)
    else field
  }

  function Put(name: string, field: Option<Json>): seq<Member> {
    if field.None? then [] else [Member(name, field.value)]
  }

  /** `row.gold ?? row.answers`. */
  function GoldField(row: Json): Option<Json> {
    if Absent(Field(row, "gold")) then Field(row, "answers") else Field(row, "gold")
  }

  /** `normalizeDecisionRow`. */
  function Normalize(js: JsHost, row: Json): Json {
    if !row.Obj? then row
    else Obj(Put("state", Field(row, "state"))
             + Put("questions", JsonField(js, Field(row, "questions")))
             + Put("gold", JsonField(js, GoldField(row))))
  }

  // ------------------------------------------------------------------------------------------
  // Questions
  // ------------------------------------------------------------------------------------------

  predicate AllStrings(items: seq<Json>) { forall i :: 0 <= i < |items| ==> items[i].Str? }

  function Texts(items: seq<Json>): (texts: seq<string>)
    requires AllStrings(items)
    ensures |texts| == |items| && forall i :: 0 <= i < |texts| ==> texts[i] == items[i].s
  {
    if items == [] then [] else [items[0].s] + Texts(items[1..])
  }

  function Indices(n: nat): (indices: seq<string>)
    ensures |indices| == n && forall i :: 0 <= i < n ==> indices[i] == Decimal(i)
  {
    if n == 0 then [] else Indices(n - 1) + [Decimal(n - 1)]
  }

  /** `optionsOf`. */
  function OptionsOf(kind: string, criteria: Option<Json>): Option<seq<string>> {
    if kind == "noul" then Some(["false", "true"])
    else if kind == "choice" then
      if criteria.Some? && criteria.value.Arr? && criteria.value.items != [] && AllStrings(criteria.value.items)
      then Some(Texts(criteria.value.items))
      else if criteria.Some? && criteria.value.Obj? && criteria.value.members != []
      then Some(Names(criteria.value.members))
      else None
    else if kind == "score" then
      if criteria.Some? && criteria.value.Arr? && criteria.value.items != []
      then Some(Indices(|criteria.value.items|))
      else None
    else None
  }

  predicate NoRepeats(options: seq<string>) { forall i, j :: 0 <= i < j < |options| ==> options[i] != options[j] }

  datatype QuestionIssue = BadType | BadCriteria | NoOptions | RepeatedOptions | OptionCount

  predicate IsKind(kind: Option<Json>) {
    kind.Some? && kind.value.Str? && (kind.value.s == "noul" || kind.value.s == "choice" || kind.value.s == "score")
  }

  predicate NoulCriteria(criteria: Option<Json>) {
    || Absent(criteria)
    || (criteria.value.Obj?
        && forall i :: 0 <= i < |criteria.value.members| ==>
             criteria.value.members[i].name == "true" || criteria.value.members[i].name == "false")
  }

  /** `questionError`. */
  function QuestionProblem(kind: Option<Json>, criteria: Option<Json>): Option<QuestionIssue> {
    if !IsKind(kind) then Some(BadType)
    else if kind.value.s == "noul" then
      if NoulCriteria(criteria) then None else Some(BadCriteria)
    else
      var options := OptionsOf(kind.value.s, criteria);
      if options.None? then Some(NoOptions)
      else if kind.value.s == "choice" && !NoRepeats(options.value) then Some(RepeatedOptions)
      else if kind.value.s == "choice" && !(MIN_CHOICES <= |options.value| <= MAX_CHOICES) then Some(OptionCount)
      else if kind.value.s == "score" && !(MIN_LEVELS <= |options.value| <= MAX_LEVELS) then Some(OptionCount)
      else None
  }

  // ------------------------------------------------------------------------------------------
  // Gold labels
  // ------------------------------------------------------------------------------------------

  datatype GoldProblem = NotNumbers | NotFiniteNumbers | NoTarget | BadLevel | NotWhole | NotAnOption

  /** The names every JavaScript object inherits: reading one that is not set gives a function or an object. */
  const INHERITED: set<string> := {
    "constructor", "toString", "toLocaleString", "valueOf", "hasOwnProperty", "isPrototypeOf",
    "propertyIsEnumerable", "__proto__", "__defineGetter__", "__defineSetter__", "__lookupGetter__",
    "__lookupSetter__"
  }

  /** `toNumber`. */
  function ToNumber(js: JsHost, v: Json): Reading {
    match v
    case Num(n) => Finite(n)
    case Str(s) => js.number(s)
    case _ => NotANumber
  }

  /** Assigning to `__proto__` sets no key. */
  function Noted(name: string, n: real): seq<Entry> {
    if name == "__proto__" then [] else [Entry(name, n)]
  }

  /** The probabilities as numbers, or the first problem. */
  function ReadEntries(js: JsHost, members: seq<Member>): Result<seq<Entry>, GoldProblem> {
    if members == [] then Ok([])
    else
      match ToNumber(js, members[0].value)
      case NotANumber => Err(NotNumbers)
      case NotFinite => Err(NotFiniteNumbers)
      case Finite(n) =>
        match ReadEntries(js, members[1..])
        case Ok(rest) => Ok(Noted(members[0].name, n) + rest)
        case Err(e) => Err(e)
  }

  /** A yes/no probability given for one side only gives the other side too. */
  function Completed(kind: string, values: seq<Entry>): seq<Entry> {
    if kind != "noul" || HasKey(values, "true") == HasKey(values, "false") then values
    else if HasKey(values, "true") then values + [Entry("false", 1.0 - ValueOf(values, "true"))]
    else values + [Entry("true", 1.0 - ValueOf(values, "false"))]
  }

  function Positive(x: real): real { if x > 0.0 then x else 0.0 }

  /** The positive weight on the options; none when an inherited name makes it NaN. */
  function Weight(options: seq<string>, values: seq<Entry>): Option<real> {
    if options == [] then Some(0.0)
    else
      var rest := Weight(options[1..], values);
      if rest.None? || (!HasKey(values, options[0]) && options[0] in INHERITED) then None
      else Some(Positive(ValueOf(values, options[0])) + rest.value)
  }

  predicate Usable(kind: string, options: seq<string>, values: seq<Entry>) {
    var w := Weight(options, Completed(kind, values));
    w.Some? && w.value > 0.0
  }

  function GoldMembers(gold: Json): seq<Member> {
    if gold.Obj? then gold.members else [Member("label", gold)]
  }

  /** The probabilities a gold value carries; for a yes/no question a plain `noul` number will do. */
  function Probabilities(kind: string, gold: seq<Member>): Option<seq<Member>> {
    var p := Get(gold, "probabilities");
    if IsObj(p) then Some(p.value.members)
    else
      var noul := Get(gold, "noul");
      if kind == "noul" && noul.Some? && noul.value.Num? then Some([Member("true", noul.value)]) else None
  }

  function LevelText(n: int): string { if n < 0 then "-" + Decimal(-n) else Decimal(n) }

  predicate IsWhole(n: real) { n.Floor as real == n }

  /** The option a label names. */
  function LabelText(js: JsHost, kind: string, raw: Json): Result<string, GoldProblem> {
    if kind == "score" then
      match ToNumber(js, raw)
      case NotANumber => Err(BadLevel)
      case NotFinite => Err(NotWhole)
      case Finite(n) => if IsWhole(n) then Ok(LevelText(n.Floor)) else Err(NotWhole)
    else if kind == "noul" then Ok(Lower(Trim(js.text(raw))))
    else Ok(js.text(raw))
  }

  function LabelProblem(js: JsHost, kind: string, options: seq<string>, raw: Option<Json>): Option<GoldProblem> {
    if Absent(raw) then Some(NoTarget)
    else
      match LabelText(js, kind, raw.value)
      case Err(e) => Some(e)
      case Ok(text) => if text in options then None else Some(NotAnOption)
  }

  /** What `goldError` answers: usable probabilities come first, then the label. */
  function GoldProblemOf(js: JsHost, kind: string, options: seq<string>, goldIn: Json): Option<GoldProblem> {
    var gold := GoldMembers(goldIn);
    var probabilities := Probabilities(kind, gold);
    if probabilities.None? then LabelProblem(js, kind, options, Get(gold, "label"))
    else
      match ReadEntries(js, probabilities.value)
      case Err(e) => Some(e)
      case Ok(values) =>
        if Usable(kind, options, values) then None else LabelProblem(js, kind, options, Get(gold, "label"))
  }

  function Extend(values: seq<Entry>, rest: Result<seq<Entry>, GoldProblem>): Result<seq<Entry>, GoldProblem> {
    match rest
    case Ok(more) => Ok(values + more)
    case Err(e) => Err(e)
  }

  /** `goldError`. */
  method GoldError(js: JsHost, kind: string, options: seq<string>, goldIn: Json) returns (problem: Option<GoldProblem>)
    ensures problem == GoldProblemOf(js, kind, options, goldIn)
  {
    var gold := GoldMembers(goldIn);
    var probabilities := Probabilities(kind, gold);
    if probabilities.Some? {
      var members := probabilities.value;
      var values: seq<Entry> := [];
      assert members[0..] == members && forall more :: values + more == more;
      for i := 0 to |members|
        invariant ReadEntries(js, members) == Extend(values, ReadEntries(js, members[i..]))
      {
        var n := ToNumber(js, members[i].value);
        assert members[i..][1..] == members[i + 1..];
        if n.NotANumber? { return Some(NotNumbers); }
        if n.NotFinite? { return Some(NotFiniteNumbers); }
        ghost var before := values;
        values := values + Noted(members[i].name, n.n);
        assert forall more :: before + (Noted(members[i].name, n.n) + more) == values + more;
      }
      assert values + [] == values;
      if Usable(kind, options, values) { return None; }
    }
    problem := LabelProblem(js, kind, options, Get(gold, "label"));
  }

  // ------------------------------------------------------------------------------------------
  // Rows
  // ------------------------------------------------------------------------------------------

  datatype RowProblem =
    | NotAnObject
    | EmptyState
    | NoQuestions
    | TooManyQuestions
    | NoGold
    | QuestionNotObject(name: string)
    | BadQuestion(name: string, issue: QuestionIssue)
    | BadGold(name: string, problem: GoldProblem)
    | ExtraGold
    | NothingLabelled

  predicate StateIsEmpty(state: Option<Json>) {
    || Absent(state)
    || (state.value.Str? && Trim(state.value.s) == "")
    || (state.value.Arr? && state.value.items == [])
    || (state.value.Obj? && state.value.members == [])
  }

  function KindOf(q: Json): string {
    var kind := Field(q, "type");
    if kind.Some? && kind.value.Str? then kind.value.s else ""
  }

  function OptionsOfQuestion(q: Json): seq<string> {
    var options := OptionsOf(KindOf(q), Field(q, "criteria"));
    if options.None? then [] else options.value
  }

  predicate QuestionOk(js: JsHost, question: Member, gold: seq<Member>) {
    && question.value.Obj?
    && QuestionProblem(Field(question.value, "type"), Field(question.value, "criteria")).None?
    && (Has(gold, question.name) ==>
          GoldProblemOf(js, KindOf(question.value), OptionsOfQuestion(question.value),
                        Get(gold, question.name).value).None?)
  }

  predicate QuestionsOk(js: JsHost, questions: seq<Member>, gold: seq<Member>) {
    forall i :: 0 <= i < |questions| ==> QuestionOk(js, questions[i], gold)
  }

  /** Every gold label answers a question of the row. */
  predicate GoldNamesQuestions(questions: seq<Member>, gold: seq<Member>) {
    forall i :: 0 <= i < |gold| ==> Has(questions, gold[i].name)
  }

  predicate HasQuestions(row: Json) { IsObj(Field(row, "questions")) && Field(row, "questions").value.members != [] }

  predicate HasGold(row: Json) { IsObj(GoldField(row)) && GoldField(row).value.members != [] }

  /** The rule for a row, without the order in which it is checked. */
  predicate ValidRow(js: JsHost, row: Json) {
    && row.Obj?
    && !StateIsEmpty(Field(row, "state"))
    && IsObj(Field(row, "questions")) && IsObj(GoldField(row))
    && var questions, gold := Field(row, "questions").value.members, GoldField(row).value.members;
       && 0 < |questions| <= MAX_QUESTIONS && gold != []
       && QuestionsOk(js, questions, gold)
       && GoldNamesQuestions(questions, gold)
  }

  /** What is wrong with one question, or with the gold label it has. */
  predicate IsProblemOf(js: JsHost, question: Member, gold: seq<Member>, problem: RowProblem) {
    var q := question.value;
    match problem
    case QuestionNotObject(name) => name == question.name && !q.Obj?
    case BadQuestion(name, issue) =>
      name == question.name && q.Obj? && QuestionProblem(Field(q, "type"), Field(q, "criteria")) == Some(issue)
    case BadGold(name, why) =>
      && name == question.name && q.Obj? && QuestionProblem(Field(q, "type"), Field(q, "criteria")).None? && Has(gold, name)
      && GoldProblemOf(js, KindOf(q), OptionsOfQuestion(q), Get(gold, name).value) == Some(why)
    case _ => false
  }

  /** The problems are those of the questions, and no others. */
  ghost predicate Lists(js: JsHost, questions: seq<Member>, gold: seq<Member>, errors: seq<RowProblem>) {
    && (forall e :: e in errors ==> exists i :: 0 <= i < |questions| && IsProblemOf(js, questions[i], gold, e))
    && (forall i, e :: 0 <= i < |questions| && IsProblemOf(js, questions[i], gold, e) ==> e in errors)
  }

  lemma ListsOneMore(js: JsHost, questions: seq<Member>, question: Member, gold: seq<Member>, errors: seq<RowProblem>, more: seq<RowProblem>)
    requires Lists(js, questions, gold, errors) && errors <= more
    requires forall e :: e in more ==> e in errors || IsProblemOf(js, question, gold, e)
    requires forall e :: IsProblemOf(js, question, gold, e) ==> e in more
    ensures Lists(js, questions + [question], gold, more)
  {
    var all := questions + [question];
    assert all[|questions|] == question && forall i :: 0 <= i < |questions| ==> all[i] == questions[i];
    assert forall e :: e in errors ==> e in more;
    forall e | e in more
      ensures exists i :: 0 <= i < |all| && IsProblemOf(js, all[i], gold, e)
    {
      if e in errors {
        var i :| 0 <= i < |questions| && IsProblemOf(js, questions[i], gold, e);
        assert IsProblemOf(js, all[i], gold, e);
      } else {
        assert IsProblemOf(js, all[|questions|], gold, e);
      }
    }
  }

  /** The problems tell of every question that has one, and of no other, and of labels without a question. */
  ghost predicate TellsAll(js: JsHost, questions: seq<Member>, gold: seq<Member>, errors: seq<RowProblem>) {
    && (ExtraGold in errors <==> !GoldNamesQuestions(questions, gold))
    && (forall i, e :: 0 <= i < |questions| && IsProblemOf(js, questions[i], gold, e) ==> e in errors)
    && (forall e :: e in errors && (e.QuestionNotObject? || e.BadQuestion? || e.BadGold?) ==>
          exists i :: 0 <= i < |questions| && IsProblemOf(js, questions[i], gold, e))
  }

  predicate OfTheRow(problem: RowProblem) { problem.EmptyState? || problem.TooManyQuestions? }

  lemma AllTold(js: JsHost, questions: seq<Member>, gold: seq<Member>, before: seq<RowProblem>, found: seq<RowProblem>,
                errors: seq<RowProblem>)
    requires Lists(js, questions, gold, found) && forall e :: e in before ==> OfTheRow(e)
    requires errors == if GoldNamesQuestions(questions, gold) then before + found else before + found + [ExtraGold]
    ensures TellsAll(js, questions, gold, errors)
    ensures forall e :: e in errors ==> e in before || e in found || e == ExtraGold
    ensures forall e :: OfTheRow(e) ==> (e in errors <==> e in before)
    ensures NoQuestions !in errors && NoGold !in errors && NotAnObject !in errors && NothingLabelled !in errors
    ensures errors == [] <==> before == [] && found == [] && GoldNamesQuestions(questions, gold)
  {
    assert forall e :: e in errors <==> e in before || e in found || (e == ExtraGold && !GoldNamesQuestions(questions, gold));
    assert forall i, e :: 0 <= i < |questions| && IsProblemOf(js, questions[i], gold, e) ==> e in found;
    forall e | e in found
      ensures e.QuestionNotObject? || e.BadQuestion? || e.BadGold?
    {
      var i :| 0 <= i < |questions| && IsProblemOf(js, questions[i], gold, e);
    }
  }

  /** One turn of the loop over the questions: its problem, and whether the question counts as labelled. */
  method CheckQuestion(js: JsHost, question: Member, gold: seq<Member>)
    returns (problem: Option<RowProblem>, counts: bool)
    ensures problem.None? <==> QuestionOk(js, question, gold)
    ensures problem.None? ==> (counts <==> Has(gold, question.name))
    ensures forall e :: IsProblemOf(js, question, gold, e) <==> problem == Some(e)
    ensures problem != Some(NothingLabelled)
  {
    if !question.value.Obj? { return Some(QuestionNotObject(question.name)), false; }
    var issue := QuestionProblem(Field(question.value, "type"), Field(question.value, "criteria"));
    if issue.Some? { return Some(BadQuestion(question.name, issue.value)), false; }
    if !Has(gold, question.name) { return None, false; }
    var found := GoldError(js, KindOf(question.value), OptionsOfQuestion(question.value), Get(gold, question.name).value);
    counts := true;
    problem := if found.Some? then Some(BadGold(question.name, found.value)) else None;
  }

  /** The loop over the questions: their problems, and how many of them are labelled. */
  method CheckQuestions(js: JsHost, questions: seq<Member>, gold: seq<Member>)
    returns (errors: seq<RowProblem>, labelled: nat)
    ensures errors == [] <==> QuestionsOk(js, questions, gold)
    ensures Lists(js, questions, gold, errors)
    ensures NothingLabelled !in errors
    ensures errors == [] ==> (labelled == 0 <==> NoneLabelled(questions, gold))
  {
    errors, labelled := [], 0;
    for i := 0 to |questions|
      invariant errors == [] <==> QuestionsOk(js, questions[..i], gold)
      invariant Lists(js, questions[..i], gold, errors)
      invariant NothingLabelled !in errors
      invariant errors == [] ==> (labelled == 0 <==> NoneLabelled(questions[..i], gold))
    {
      assert questions[..i + 1] == questions[..i] + [questions[i]];
      AddQuestion(js, questions[..i], questions[i], gold);
      AddLabelled(questions[..i], questions[i], gold);
      var problem, counts := CheckQuestion(js, questions[i], gold);
      if counts { labelled := labelled + 1; }
      ghost var before := errors;
      if problem.Some? { errors := errors + [problem.value]; }
      ListsOneMore(js, questions[..i], questions[i], gold, before, errors);
    }
    assert questions[..|questions|] == questions;
  }

  /** What the check adds once the questions and the gold are there. */
  method CheckLabels(js: JsHost, questions: seq<Member>, gold: seq<Member>, before: seq<RowProblem>) returns (errors: seq<RowProblem>)
    requires gold != [] && forall e :: e in before ==> OfTheRow(e)
    ensures errors == [] <==> before == [] && QuestionsOk(js, questions, gold) && GoldNamesQuestions(questions, gold)
    ensures TellsAll(js, questions, gold, errors)
    ensures forall e :: OfTheRow(e) ==> (e in errors <==> e in before)
    ensures NoQuestions !in errors && NoGold !in errors && NotAnObject !in errors && NothingLabelled !in errors
  {
    var found, labelled := CheckQuestions(js, questions, gold);
    errors := before + found;
    if !GoldNamesQuestions(questions, gold) { errors := errors + [ExtraGold]; }
    AllTold(js, questions, gold, before, found, errors);
    if errors == [] { SomeLabelled(questions, gold); }
    if labelled == 0 && errors == [] { errors := errors + [NothingLabelled]; }
  }

  /** `validateDecisionRow`: no problem exactly when the rule holds; the check for no label at all never fires. */
  method ValidateDecisionRow(js: JsHost, row: Json) returns (errors: seq<RowProblem>)
    ensures errors == [] <==> ValidRow(js, row)
    ensures NotAnObject in errors <==> !row.Obj?
    ensures row.Obj? ==>
              && (EmptyState in errors <==> StateIsEmpty(Field(row, "state")))
              && (NoQuestions in errors <==> !HasQuestions(row))
              && (TooManyQuestions in errors <==> HasQuestions(row) && |Field(row, "questions").value.members| > 64)
              && (NoGold in errors <==> HasQuestions(row) && !HasGold(row))
    ensures row.Obj? && HasQuestions(row) && HasGold(row) ==>
              TellsAll(js, Field(row, "questions").value.members, GoldField(row).value.members, errors)
    ensures NothingLabelled !in errors
  {
    if !row.Obj? { return [NotAnObject]; }
    errors := [];
    if StateIsEmpty(Field(row, "state")) { errors := errors + [EmptyState]; }
    var questionsField := Field(row, "questions");
    if !IsObj(questionsField) || questionsField.value.members == [] {
      errors := errors + [NoQuestions];
      return;
    }
    var questions := questionsField.value.members;
    if |questions| > MAX_QUESTIONS { errors := errors + [TooManyQuestions]; }
    var goldField := GoldField(row);
    if !IsObj(goldField) || goldField.value.members == [] {
      errors := errors + [NoGold];
      return;
    }
    var gold := goldField.value.members;
    errors := CheckLabels(js, questions, gold, errors);
  }

  /** No question has a gold label. */
  predicate NoneLabelled(questions: seq<Member>, gold: seq<Member>) {
    forall i :: 0 <= i < |questions| ==> !Has(gold, questions[i].name)
  }

  lemma AddQuestion(js: JsHost, questions: seq<Member>, question: Member, gold: seq<Member>)
    ensures QuestionsOk(js, questions + [question], gold)
            <==> QuestionsOk(js, questions, gold) && QuestionOk(js, question, gold)
  {
    var more := questions + [question];
    assert more[|questions|] == question;
    assert forall i :: 0 <= i < |questions| ==> more[i] == questions[i];
  }

  lemma AddLabelled(questions: seq<Member>, question: Member, gold: seq<Member>)
    ensures NoneLabelled(questions + [question], gold) <==> NoneLabelled(questions, gold) && !Has(gold, question.name)
  {
    var more := questions + [question];
    assert more[|questions|] == question;
    assert forall i :: 0 <= i < |questions| ==> more[i] == questions[i];
  }

  /** A gold label that answers a question labels it. */
  lemma SomeLabelled(questions: seq<Member>, gold: seq<Member>)
    requires gold != [] && GoldNamesQuestions(questions, gold)
    ensures !NoneLabelled(questions, gold)
  {
    var name := gold[0].name;
    var i :| 0 <= i < |questions| && questions[i].name == name;
    assert Has(gold, questions[i].name);
  }

  // ------------------------------------------------------------------------------------------
  // Normalising again
  // ------------------------------------------------------------------------------------------

  lemma GetPut(name: string, field: Option<Json>, rest: seq<Member>, other: string)
    ensures Get(Put(name, field) + rest, other) == if name == other && field.Some? then field else Get(rest, other)
  {
    if field.Some? {
      assert (Put(name, field) + rest)[1..] == rest;
    } else {
      assert Put(name, field) + rest == rest;
    }
  }

  /** The three fields of a normalised row. */
  lemma NormalizedFields(js: JsHost, row: Json)
    requires row.Obj?
    ensures Field(Normalize(js, row), "state") == Field(row, "state")
    ensures Field(Normalize(js, row), "questions") == JsonField(js, Field(row, "questions"))
    ensures Field(Normalize(js, row), "gold") == JsonField(js, GoldField(row))
    ensures Field(Normalize(js, row), "answers") == None
  {
    var state, questions, gold := Field(row, "state"), JsonField(js, Field(row, "questions")), JsonField(js, GoldField(row));
    var last := Put("gold", gold) + [];
    var middle := Put("questions", questions) + last;
    assert Normalize(js, row).members == Put("state", state) + middle;
    FieldsOf(state, questions, gold, "state");
    FieldsOf(state, questions, gold, "questions");
    FieldsOf(state, questions, gold, "gold");
    FieldsOf(state, questions, gold, "answers");
  }

  lemma FieldsOf(state: Option<Json>, questions: Option<Json>, gold: Option<Json>, name: string)
    ensures var members := Put("state", state) + (Put("questions", questions) + (Put("gold", gold) + []));
            Get(members, name)
              == if name == "state" then state else if name == "questions" then questions
                 else if name == "gold" then gold else None
  {
    GetPut("gold", gold, [], name);
    GetPut("questions", questions, Put("gold", gold) + [], name);
    GetPut("state", state, Put("questions", questions) + (Put("gold", gold) + []), name);
  }

  /** A row that passes after normalising is stored as it is: normalising it again changes nothing. */
  lemma ValidIsNormal(js: JsHost, row: Json)
    requires ValidRow(js, Normalize(js, row))
    ensures Normalize(js, Normalize(js, row)) == Normalize(js, row)
  {
    NormalizedFields(js, row);
  }

  // ------------------------------------------------------------------------------------------
  // A small row
  // ------------------------------------------------------------------------------------------

  /** A row with one yes/no question and its label. */
  function SmallRow(name: string, gold: Json): Json {
    Obj([Member("state", Str("x")),
         Member("questions", Obj([Member(name, Obj([Member("type", Str("noul"))]))])),
         Member("gold", Obj([Member(name, gold)]))])
  }

  lemma SmallRowFields(name: string, gold: Json)
    ensures var row := SmallRow(name, gold);
            && Field(row, "state") == Some(Str("x"))
            && Field(row, "questions") == Some(Obj([Member(name, Obj([Member("type", Str("noul"))]))]))
            && Field(row, "gold") == Some(Obj([Member(name, gold)])) && GoldField(row) == Field(row, "gold")
  {
    var members := SmallRow(name, gold).members;
    assert |"state"| == 5 && |"questions"| == 9 && |"gold"| == 4;
    assert members[1..] == [members[1], members[2]] && members[1..][1..] == [members[2]];
    assert Get(members, "questions") == Get(members[1..], "questions");
    assert Get(members, "gold") == Get(members[1..], "gold") == Get(members[1..][1..], "gold");
  }

  lemma SmallQuestionIsOk(js: JsHost, name: string, gold: Json)
    requires GoldProblemOf(js, "noul", ["false", "true"], gold).None?
    ensures QuestionOk(js, Member(name, Obj([Member("type", Str("noul"))])), [Member(name, gold)])
  {
    var fields := [Member("type", Str("noul"))];
    assert fields[1..] == [] && |"criteria"| == 8 && |"type"| == 4;
    assert Get(fields, "criteria") == None;
  }

  /** It is valid once its label is accepted. */
  lemma SmallRowIsValid(js: JsHost, name: string, gold: Json)
    requires GoldProblemOf(js, "noul", ["false", "true"], gold).None?
    ensures ValidRow(js, SmallRow(name, gold))
  {
    SmallRowFields(name, gold);
    SmallQuestionIsOk(js, name, gold);
    assert Trim("x") == "x";
    OneQuestionRow(js, SmallRow(name, gold), Member(name, Obj([Member("type", Str("noul"))])), Member(name, gold));
  }

  /** A row with one question and its label is valid. */
  lemma OneQuestionRow(js: JsHost, row: Json, question: Member, g: Member)
    requires row.Obj? && !StateIsEmpty(Field(row, "state"))
    requires Field(row, "questions") == Some(Obj([question])) && GoldField(row) == Some(Obj([g]))
    requires question.name == g.name && QuestionOk(js, question, [g])
    ensures ValidRow(js, row)
  {
    assert Has([question], [g][0].name) by { assert [question][0].name == g.name; }
  }
}
