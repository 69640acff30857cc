/**
 * Rows as people write them: on these the upload's check and the trainer's check agree
 * (src/lib/decision-schema.ts, trainers/unsloth-decision-train/decision_schema.py). Whether a row is one of them can be
 * seen without running either check.
 */
module TwinUsual {
  import opened Wrappers
  import opened Digits
  import opened JsonValues
  import opened DecisionSchema
  import opened TwinText
  import opened DecisionSchemaTwin

  const MAX_DECIMAL := 300

  function Unsigned(s: string): string { if s != "" && (s[0] == '-' || s[0] == '+') then s[1..] else s }

  /** Digits, with at most one point: at `k`, or none when that is the end. */
  predicate PointAt(s: string, k: int) {
    && 0 <= k <= |s| && AllDigits(s[..k])
    && if k == |s| then k > 0 else s[k] == '.' && AllDigits(s[k + 1..]) && |s| > 1
  }

  /** A plain decimal of at most 300 ASCII characters, like "2", "-0.3" or ".5": too short to overflow. */
  predicate IsDecimal(s: string) {
    |s| <= MAX_DECIMAL && exists k :: 0 <= k <= |Unsigned(s)| && PointAt(Unsigned(s), k)
  }

  /** Both languages read a plain decimal, as the same finite number. */
  ghost predicate HostsReadDecimals(js: JsHost, py: PyHost) {
    forall s: string :: IsDecimal(s) ==> js.number(s).Finite? && py.number(s) == js.number(s)
  }

  /** A number, or a plain decimal written as text. */
  predicate IsUsualNumber(v: Json) { v.Num? || (v.Str? && IsDecimal(v.s)) }

  /** No label, a string for a choice, a boolean or a string for yes/no, a number for a score. */
  predicate IsUsualLabel(kind: string, raw: Option<Json>) {
    || Absent(raw)
    || if kind == "noul" then raw.value.Bool? || (raw.value.Str? && !HasMark(raw.value.s) && !HasSeparator(raw.value.s))
       else if kind == "score" then IsUsualNumber(raw.value)
       else raw.value.Str?
  }

  predicate AreUsualNumbers(members: seq<Member>) { forall i :: 0 <= i < |members| ==> IsUsualNumber(members[i].value) }

  /** A usual label, usual probabilities if there are any, and among these one for every option with an inherited name. */
  predicate IsUsualGold(kind: string, options: seq<string>, goldIn: Json) {
    var gold := GoldMembers(goldIn);
    var probabilities := Probabilities(kind, gold);
    && IsUsualLabel(kind, Get(gold, "label"))
    && (probabilities.Some? ==> AreUsualNumbers(probabilities.value) && !InheritedGap(options, probabilities.value))
  }

  predicate IsUsualQuestion(question: Member, gold: seq<Member>) {
    Has(gold, question.name) ==>
      IsUsualGold(KindOf(question.value), OptionsOfQuestion(question.value), Get(gold, question.name).value)
  }

  /** A text state without mark and separator, or another state, and usual gold values. */
  predicate IsUsualRow(row: Json) {
    var state, questions, gold := Field(row, "state"), Field(row, "questions"), GoldField(row);
    && (state.Some? && state.value.Str? ==> !HasMark(state.value.s) && !HasSeparator(state.value.s))
    && (IsObj(questions) && IsObj(gold) ==>
          forall i :: 0 <= i < |questions.value.members| ==>
            IsUsualQuestion(questions.value.members[i], gold.value.members))
  }

  lemma UsualNumberIsRead(js: JsHost, py: PyHost, v: Json)
    requires HostsReadDecimals(js, py) && IsUsualNumber(v)
    ensures ToNumber(js, v).Finite? && PyNumber(py, v) == ToNumber(js, v)
  {
  }

  lemma UsualNumbersAreRead(js: JsHost, py: PyHost, members: seq<Member>)
    requires HostsReadDecimals(js, py) && AreUsualNumbers(members)
    ensures JsAllFinite(js, members) && AllFinite(py, members)
  {
    forall i | 0 <= i < |members|
      ensures ToNumber(js, members[i].value).Finite? && PyNumber(py, members[i].value).Finite?
    {
      UsualNumberIsRead(js, py, members[i].value);
    }
  }

  lemma UsualLabelMeets(js: JsHost, py: PyHost, kind: string, options: seq<string>, raw: Option<Json>)
    requires HostsReadDecimals(js, py) && IsUsualLabel(kind, raw)
    ensures LabelMeets(js, py, kind, options, raw)
  {
    if !Absent(raw) && kind == "score" { UsualNumberIsRead(js, py, raw.value); }
  }

  /** A usual gold value is judged alike. */
  lemma UsualGoldMeets(js: JsHost, py: PyHost, kind: string, options: seq<string>, goldIn: Json)
    requires HostsReadDecimals(js, py) && IsUsualGold(kind, options, goldIn)
    ensures GoldMeets(js, py, kind, options, goldIn)
  {
    var gold := GoldMembers(goldIn);
    UsualLabelMeets(js, py, kind, options, Get(gold, "label"));
    var probabilities := Probabilities(kind, gold);
    if probabilities.Some? { UsualNumbersAreRead(js, py, probabilities.value); }
  }

  /** A usual row meets in all its parts. */
  lemma UsualRowMeets(js: JsHost, py: PyHost, row: Json)
    requires HostsReadDecimals(js, py) && IsUsualRow(row)
    ensures PartsMeet(js, py, row)
  {
    var questions, gold := Field(row, "questions"), GoldField(row);
    if IsObj(questions) && IsObj(gold) {
      forall i | 0 <= i < |questions.value.members|
        ensures QuestionMeets(js, py, questions.value.members[i], gold.value.members)
      {
        var question := questions.value.members[i];
        assert IsUsualQuestion(question, gold.value.members);
        if Has(gold.value.members, question.name) {
          UsualGoldMeets(js, py, KindOf(question.value), OptionsOfQuestion(question.value),
                         Get(gold.value.members, question.name).value);
        }
      }
    }
  }

  /** So a usual row is accepted by both checks or by neither. */
  lemma TwinsAgreeOnUsualRows(js: JsHost, py: PyHost, row: Json)
    requires HostsWrite(js, py) && HostsRead(js, py) && HostsReadDecimals(js, py) && IsUsualRow(row)
    ensures ValidRow(js, row) <==> PyValidRow(py, row)
  {
    UsualRowMeets(js, py, row);
    TwinsAgreeIff(js, py, row);
  }
}
