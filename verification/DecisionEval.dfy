/**
 * Scoring decision-model answers against a labelled test set (src/lib/decision-eval.ts): reading the set,
 * the gold label of a question, the model's answer, and one row's result.
 */
module DecisionEval {
  import opened Wrappers
  import opened Lines
  import opened Entries
  import opened JsonValues
  import opened DecisionSchema
  import opened DecisionStore

  // ------------------------------------------------------------------------------------------
  // Gold labels
  // ------------------------------------------------------------------------------------------

  /** `Number(v)` of any value. */
  function AnyNumber(js: JsHost, v: Json): Reading {
    match v
    case Null => Finite(0.0)
    case Bool(b) => Finite(if b then 1.0 else 0.0)
    case Num(n) => Finite(n)
    case Str(s) => js.anyNumber(s)
    case _ => js.anyNumber(js.text(v))
  }

  /** `Math.trunc`. */
  function Trunc(n: real): int { if n >= 0.0 then n.Floor else -((0.0 - n).Floor) }

  function YesNo(yes: bool): string { if yes then "true" else "false" }

  /** The number in a field, when it is a JSON number. */
  function NumberField(members: seq<Member>, name: string): Option<real> {
    var v := Get(members, name);
    if v.Some? && v.value.Num? then Some(v.value.n) else None
  }

  function ProbabilityMembers(gold: seq<Member>): seq<Member> {
    var p := Get(gold, "probabilities");
    if IsObj(p) then p.value.members else []
  }

  function NoulLabel(gold: seq<Member>): Option<string> {
    var raw, probs := Get(gold, "label"), ProbabilityMembers(gold);
    if raw.Some? && raw.value.Bool? then Some(YesNo(raw.value.b))
    else if raw.Some? && raw.value.Str? && Lower(Trim(raw.value.s)) in ["true", "false"] then Some(Lower(Trim(raw.value.s)))
    else if NumberField(gold, "noul").Some? then Some(YesNo(NumberField(gold, "noul").value >= 0.5))
    else if NumberField(probs, "true").Some? then Some(YesNo(NumberField(probs, "true").value >= 0.5))
    else if NumberField(probs, "false").Some? then Some(YesNo(!(NumberField(probs, "false").value >= 0.5)))
    else None
  }

  /** The gold says yes or no outright. */
  predicate SaysYesNo(gold: seq<Member>) {
    var raw := Get(gold, "label");
    raw.Some? && (raw.value.Bool? || (raw.value.Str? && Lower(Trim(raw.value.s)) in ["true", "false"]))
  }

  /**
   * Which side a yes/no gold is on: what it says outright, else whether the first number it gives - the probability
   * of yes, or that of no when there is nothing else - is at least one half.
   */
  lemma NoulLabelIff(gold: seq<Member>)
    ensures var l, raw := NoulLabel(gold), Get(gold, "label");
            var noul, yes, no := NumberField(gold, "noul"), NumberField(ProbabilityMembers(gold), "true"), NumberField(ProbabilityMembers(gold), "false");
            if SaysYesNo(gold) then
              (l == Some("true") <==> raw.value == Bool(true) || (raw.value.Str? && Lower(Trim(raw.value.s)) == "true"))
              && (l == Some("false") <==> raw.value == Bool(false) || (raw.value.Str? && Lower(Trim(raw.value.s)) == "false"))
            else
              && (l == Some("true") <==> if noul.Some? then noul.value >= 0.5 else if yes.Some? then yes.value >= 0.5 else no.Some? && no.value < 0.5)
              && (l == Some("false") <==> if noul.Some? then noul.value < 0.5 else if yes.Some? then yes.value < 0.5 else no.Some? && no.value >= 0.5)
  {
    assert "true" != "false" by { assert "true"[0] != "false"[0]; }
  }

  /** A probability of yes, in each of the three forms. */
  function AsNoul(p: real): seq<Member> { [Member("noul", Num(p))] }
  function AsTrue(p: real): seq<Member> { [Member("probabilities", Obj([Member("true", Num(p))]))] }
  function AsFalse(p: real): seq<Member> { [Member("probabilities", Obj([Member("false", Num(1.0 - p))]))] }

  lemma FormsRead(p: real)
    ensures NumberField(AsNoul(p), "noul") == Some(p) && !SaysYesNo(AsNoul(p))
    ensures NumberField(AsTrue(p), "noul").None? && !SaysYesNo(AsTrue(p))
            && NumberField(ProbabilityMembers(AsTrue(p)), "true") == Some(p)
    ensures NumberField(AsFalse(p), "noul").None? && !SaysYesNo(AsFalse(p))
            && NumberField(ProbabilityMembers(AsFalse(p)), "true").None?
            && NumberField(ProbabilityMembers(AsFalse(p)), "false") == Some(1.0 - p)
  {
    assert |"noul"| == 4 && |"label"| == 5 && |"probabilities"| == 13 && |"true"| == 4 && |"false"| == 5;
  }

  /**
   * The same probability gets the same label in every form if and only if it is not one half: then the last form says
   * no.
   */
  lemma FormsAgreeIff(p: real)
    ensures NoulLabel(AsNoul(p)) == NoulLabel(AsTrue(p)) == Some(if p >= 0.5 then "true" else "false")
    ensures NoulLabel(AsFalse(p)) == NoulLabel(AsTrue(p)) <==> p != 0.5
  {
    FormsRead(p);
    NoulLabelIff(AsNoul(p));
    NoulLabelIff(AsTrue(p));
    NoulLabelIff(AsFalse(p));
    assert "true" != "false" by { assert "true"[0] != "false"[0]; }
  }

  /** The label of a choice or score question, when one is given and usable. */
  function GivenLabel(js: JsHost, kind: string, options: seq<string>, raw: Json): Option<string> {
    var key := if kind == "score" && raw.Num? then LevelText(Trunc(raw.n)) else js.text(raw);
    if key in options then Some(key)
    else if kind == "score" && AnyNumber(js, raw).Finite? then Some(LevelText(Trunc(AnyNumber(js, raw).n)))
    else None
  }

  /** The probability of an option, when it reads as a finite number. */
  function OptionNumber(js: JsHost, probs: seq<Member>, option: string): Option<real> {
    var v := Get(probs, option);
    if v.Some? && AnyNumber(js, v.value).Finite? then Some(AnyNumber(js, v.value).n) else None
  }

  /** The first option with the highest probability so far; none before any has one. */
  predicate IsBest(js: JsHost, options: seq<string>, probs: seq<Member>, best: Option<string>) {
    && (best.None? ==> forall i :: 0 <= i < |options| ==> OptionNumber(js, probs, options[i]).None?)
    && (best.Some? ==>
          && best.value in options && OptionNumber(js, probs, best.value).Some?
          && forall i :: 0 <= i < |options| && OptionNumber(js, probs, options[i]).Some? ==>
               OptionNumber(js, probs, options[i]).value <= OptionNumber(js, probs, best.value).value)
  }

  /** No option before it is as good. */
  predicate IsFirst(js: JsHost, options: seq<string>, probs: seq<Member>, best: string) {
    exists i :: 0 <= i < |options| && options[i] == best && NoneBefore(js, options, probs, i)
  }

  predicate NoneBefore(js: JsHost, options: seq<string>, probs: seq<Member>, i: nat)
    requires i < |options|
  {
    var top := OptionNumber(js, probs, options[i]);
    top.Some? && forall j :: 0 <= j < i && OptionNumber(js, probs, options[j]).Some? ==> OptionNumber(js, probs, options[j]).value < top.value
  }

  function Better(js: JsHost, probs: seq<Member>, best: Option<string>, option: string): Option<string> {
    var n := OptionNumber(js, probs, option);
    if n.None? then best
    else if best.None? || OptionNumber(js, probs, best.value).None? || n.value > OptionNumber(js, probs, best.value).value
    then Some(option)
    else best
  }

  function BestOption(js: JsHost, options: seq<string>, probs: seq<Member>): Option<string> {
    if options == [] then None
    else Better(js, probs, BestOption(js, options[..|options| - 1], probs), options[|options| - 1])
  }

  /** Of equals it is the first. */
  lemma {:induction false} BestIsFirst(js: JsHost, options: seq<string>, probs: seq<Member>)
    ensures BestOption(js, options, probs).Some? ==> IsFirst(js, options, probs, BestOption(js, options, probs).value)
    decreases |options|
  {
    if options != [] {
      var before, last := options[..|options| - 1], options[|options| - 1];
      BestIsFirst(js, before, probs);
      BestIsBest(js, before, probs);
      var was, best := BestOption(js, before, probs), BestOption(js, options, probs);
      if best.Some? {
        if was.Some? && best == was {
          var i :| 0 <= i < |before| && before[i] == was.value && NoneBefore(js, before, probs, i);
          assert options[i] == before[i] && NoneBefore(js, options, probs, i);
        } else {
          assert best == Some(last) && NoneBefore(js, options, probs, |options| - 1);
        }
      }
    }
  }

  lemma {:induction false} BestIsBest(js: JsHost, options: seq<string>, probs: seq<Member>)
    ensures IsBest(js, options, probs, BestOption(js, options, probs))
    decreases |options|
  {
    if options != [] {
      var before, last := options[..|options| - 1], options[|options| - 1];
      BestIsBest(js, before, probs);
      assert options == before + [last];
    }
  }

  /** What `goldLabel` answers. */
  function GoldLabelOf(js: JsHost, kind: string, options: seq<string>, goldIn: Json): Option<string> {
    var gold := GoldMembers(goldIn);
    if kind == "noul" then NoulLabel(gold)
    else
      var raw := Get(gold, "label");
      if !Absent(raw) && GivenLabel(js, kind, options, raw.value).Some? then GivenLabel(js, kind, options, raw.value)
      else BestOption(js, options, ProbabilityMembers(gold))
  }

  /** `goldLabel`, with its loop over the options. */
  method GoldLabel(js: JsHost, kind: string, options: seq<string>, goldIn: Json) returns (r: Option<string>)
    ensures r == GoldLabelOf(js, kind, options, goldIn)
  {
    var gold := GoldMembers(goldIn);
    if kind == "noul" { return NoulLabel(gold); }
    var raw := Get(gold, "label");
    if !Absent(raw) {
      var given := GivenLabel(js, kind, options, raw.value);
      if given.Some? { return given; }
    }
    var probs := ProbabilityMembers(gold);
    var best: Option<string>, top := None, 0.0;
    for i := 0 to |options|
      invariant best == BestOption(js, options[..i], probs)
      invariant best.Some? ==> OptionNumber(js, probs, best.value) == Some(top)
    {
      assert options[..i + 1][..i] == options[..i];
      BestIsBest(js, options[..i], probs);
      var n := OptionNumber(js, probs, options[i]);
      if n.Some? && (best.None? || n.value > top) { best, top := Some(options[i]), n.value; }
    }
    assert options[..|options|] == options;
    r := best;
  }

  // ------------------------------------------------------------------------------------------
  // Every accepted label is found again
  // ------------------------------------------------------------------------------------------

  /**
   * A yes/no gold value in a form `goldLabel` reads: a boolean, "true" or "false", or a probability that is a JSON
   * number.
   */
  predicate NoulReadable(goldIn: Json) {
    var gold := GoldMembers(goldIn);
    var raw, probs := Get(gold, "label"), ProbabilityMembers(gold);
    || (raw.Some? && raw.value.Bool?)
    || (raw.Some? && raw.value.Str? && Lower(Trim(raw.value.s)) in ["true", "false"])
    || NumberField(gold, "noul").Some?
    || NumberField(probs, "true").Some? || NumberField(probs, "false").Some?
  }

  /** A string that matches the NUMERIC pattern reads as the same number wherever it is converted. */
  ghost predicate HostReads(js: JsHost) {
    forall s: string :: js.number(s).Finite? ==> js.anyNumber(s) == js.number(s)
  }

  lemma {:induction false} PositiveWeight(options: seq<string>, values: seq<Entry>)
    requires Weight(options, values).Some? && Weight(options, values).value > 0.0
    ensures exists i :: 0 <= i < |options| && HasKey(values, options[i])
  {
    if options != [] {
      if HasKey(values, options[0]) {
        assert HasKey(values, options[0]);
      } else {
        MissingKey(values, options[0]);
        PositiveWeight(options[1..], values);
        var i :| 0 <= i < |options[1..]| && HasKey(values, options[1..][i]);
        assert HasKey(values, options[i + 1]);
      }
    }
  }

  lemma {:induction false} EntriesAreMembers(js: JsHost, members: seq<Member>, key: string)
    requires ReadEntries(js, members).Ok? && HasKey(ReadEntries(js, members).value, key)
    ensures Has(members, key)
  {
    if members != [] {
      var n := ToNumber(js, members[0].value).n;
      var rest := ReadEntries(js, members[1..]).value;
      var all := Noted(members[0].name, n) + rest;
      if members[0].name != key {
        var i :| 0 <= i < |all| && all[i].key == key;
        assert rest[i - |Noted(members[0].name, n)|].key == key;
        EntriesAreMembers(js, members[1..], key);
        TailHas(members, key);
      }
    }
  }

  /** A weighted option is one the gold value gives a number for. */
  lemma UsableHasOption(js: JsHost, options: seq<string>, members: seq<Member>)
    requires ReadEntries(js, members).Ok?
    requires Usable("choice", options, ReadEntries(js, members).value)
    ensures exists i :: 0 <= i < |options| && Has(members, options[i])
  {
    var values := ReadEntries(js, members).value;
    PositiveWeight(options, values);
    var i :| 0 <= i < |options| && HasKey(values, options[i]);
    EntriesAreMembers(js, members, options[i]);
  }

  /** What the validator read as a number is read as one again. */
  lemma {:induction false} NumberIsThere(js: JsHost, probs: seq<Member>, option: string)
    requires HostReads(js) && ReadEntries(js, probs).Ok? && Has(probs, option)
    ensures OptionNumber(js, probs, option).Some?
  {
    if probs[0].name != option {
      TailHas(probs, option);
      NumberIsThere(js, probs[1..], option);
    }
  }

  predicate Covers(all: seq<string>, options: seq<string>) { forall i :: 0 <= i < |options| ==> options[i] in all }

  /** The best option is there once one of them has a number. */
  lemma BestIsThere(js: JsHost, all: seq<string>, options: seq<string>, probs: seq<Member>, i: nat)
    requires Covers(all, options) && i < |options| && Has(probs, options[i])
    requires HostReads(js) && ReadEntries(js, probs).Ok?
    ensures BestOption(js, all, probs).Some?
  {
    BestIsBest(js, all, probs);
    NumberIsThere(js, probs, options[i]);
    var k :| 0 <= k < |all| && all[k] == options[i];
    assert OptionNumber(js, probs, all[k]).Some?;
  }

  /** A number is cut towards zero. */
  lemma TruncIsTowardsZero(n: real)
    ensures n >= 0.0 ==> 0 <= Trunc(n) && Trunc(n) as real <= n < Trunc(n) as real + 1.0
    ensures n <= 0.0 ==> Trunc(n) <= 0 && Trunc(n) as real - 1.0 < n <= Trunc(n) as real
  {
  }

  lemma TruncOfWhole(n: real)
    requires IsWhole(n)
    ensures Trunc(n) == n.Floor
  {
    if n < 0.0 {
      assert 0.0 - n == (-n.Floor) as real;
    }
  }

  lemma GivenIsThere(js: JsHost, kind: string, options: seq<string>, all: seq<string>, raw: Option<Json>)
    requires HostReads(js) && (kind == "choice" || kind == "score") && Covers(all, options)
    requires LabelProblem(js, kind, options, raw).None?
    ensures !Absent(raw) && GivenLabel(js, kind, all, raw.value).Some?
  {
    if kind == "score" && raw.value.Num? {
      TruncOfWhole(raw.value.n);
    }
  }

  /** A choice or score gold value the validator accepts has a label, whatever other options the test set adds. */
  lemma AcceptedIsLabelled(js: JsHost, kind: string, options: seq<string>, all: seq<string>, goldIn: Json)
    requires HostReads(js) && (kind == "choice" || kind == "score") && Covers(all, options)
    requires GoldProblemOf(js, kind, options, goldIn).None?
    ensures GoldLabelOf(js, kind, all, goldIn).Some?
  {
    var gold := GoldMembers(goldIn);
    var raw := Get(gold, "label");
    if LabelProblem(js, kind, options, raw).None? {
      GivenIsThere(js, kind, options, all, raw);
    } else {
      var probs := ProbabilityMembers(gold);
      OnlyNoulCompletes(kind, ReadEntries(js, probs).value);
      UsableHasOption(js, options, probs);
      var i :| 0 <= i < |options| && Has(probs, options[i]);
      BestIsThere(js, all, options, probs, i);
    }
  }

  /**
   * When a gold value the validator accepts has a label: always for a choice or a score, and for a yes/no
   * question exactly in the forms `goldLabel` reads.
   */
  lemma AcceptedHasLabelIff(js: JsHost, kind: string, options: seq<string>, all: seq<string>, goldIn: Json)
    requires HostReads(js) && Covers(all, options)
    requires kind == "noul" || kind == "choice" || kind == "score"
    requires GoldProblemOf(js, kind, options, goldIn).None?
    ensures GoldLabelOf(js, kind, all, goldIn).Some? <==> (kind == "noul" ==> NoulReadable(goldIn))
  {
    if kind != "noul" { AcceptedIsLabelled(js, kind, options, all, goldIn); }
  }

  /** A yes/no gold value whose probability is written as text is accepted and has no label. */
  lemma TextProbabilityHasNoLabel(js: JsHost, text: string)
    requires js.number(text) == Finite(0.75)
    ensures var gold := Obj([Member("probabilities", Obj([Member("true", Str(text))]))]);
            GoldProblemOf(js, "noul", ["false", "true"], gold).None? && !NoulReadable(gold)
  {
    var probs := [Member("true", Str(text))];
    var gold := [Member("probabilities", Obj(probs))];
    assert gold[1..] == [] && probs[1..] == [];
    assert |"label"| == 5 && |"noul"| == 4 && |"probabilities"| == 13 && |"true"| == 4 && |"false"| == 5;
    assert Get(gold, "label") == None && Get(gold, "noul") == None && Get(probs, "false") == None;
    assert ReadEntries(js, probs) == Ok(Noted("true", 0.75) + []);
    OneSideGiven(0.75);
    assert Noted("true", 0.75) + [] == [Entry("true", 0.75)];
  }

  /** With a number for yes alone, the question is usable: if it is not positive, the rest to one is. */
  lemma OneSideGiven(p: real)
    ensures Usable("noul", ["false", "true"], [Entry("true", p)])
  {
    var values := [Entry("true", p)];
    var both := values + [Entry("false", 1.0 - p)];
    assert |"true"| == 4 && |"false"| == 5 && |"noul"| == 4;
    assert values[0].key == "true" && HasKey(values, "true") && !HasKey(values, "false");
    assert ValueOf(values, "true") == p && Completed("noul", values) == both;
    assert both[0].key == "true" && both[1].key == "false";
    assert HasKey(both, "true") && HasKey(both, "false");
    assert both[1..][1..] == [];
    assert ["false", "true"][1..] == ["true"] && ["true"][1..] == [];
    assert Weight([], both) == Some(0.0);
    assert Weight(["true"], both) == Some(Positive(p) + 0.0);
    assert ValueOf(both, "false") == 1.0 - p;
    assert Weight(["false", "true"], both) == Some(Positive(1.0 - p) + (Positive(p) + 0.0));
  }

  lemma OnlyNoulCompletes(kind: string, values: seq<Entry>)
    requires kind != "noul"
    ensures Completed(kind, values) == Completed("choice", values)
  {
  }

  // ------------------------------------------------------------------------------------------
  // What the test set knows about each question
  // ------------------------------------------------------------------------------------------

  datatype Meta = Meta(name: string, kind: string, options: seq<string>)

  function FindMeta(metas: seq<Meta>, name: string): Option<Meta> {
    if metas == [] then None else if metas[0].name == name then Some(metas[0]) else FindMeta(metas[1..], name)
  }

  function AddOptions(options: seq<string>, more: seq<string>): seq<string>
    decreases |more|
  {
    if more == [] then options
    else AddOptions(if more[0] in options then options else options + [more[0]], more[1..])
  }

  /** One question of one row: its type counts the first time, its options whenever the type is the same. */
  function AddMeta(metas: seq<Meta>, name: string, kind: string, options: seq<string>): seq<Meta> {
    if metas == [] then [Meta(name, kind, AddOptions([], options))]
    else if metas[0].name == name then
      (if metas[0].kind == kind then [metas[0].(options := AddOptions(metas[0].options, options))] + metas[1..] else metas)
    else [metas[0]] + AddMeta(metas[1..], name, kind, options)
  }

  /** A name every JavaScript object inherits looks taken, with no type: nothing is noted for it. */
  function NoteQuestion(metas: seq<Meta>, question: Member): seq<Meta> {
    if question.name in INHERITED then metas
    else AddMeta(metas, question.name, KindOf(question.value), OptionsOfQuestion(question.value))
  }

  function NoteQuestions(metas: seq<Meta>, questions: seq<Member>): seq<Meta>
    decreases |questions|
  {
    if questions == [] then metas else NoteQuestions(NoteQuestion(metas, questions[0]), questions[1..])
  }

  function QuestionsOf(row: Json): seq<Member> {
    var questions := Field(row, "questions");
    if IsObj(questions) then questions.value.members else []
  }

  function NoteRows(metas: seq<Meta>, rows: seq<Json>): seq<Meta>
    decreases |rows|
  {
    if rows == [] then metas else NoteRows(NoteQuestions(metas, QuestionsOf(rows[0])), rows[1..])
  }

  /** What was known stays known: types are kept, options only grow. */
  ghost predicate Grows(before: seq<Meta>, after: seq<Meta>) {
    forall name :: FindMeta(before, name).Some? ==>
      && FindMeta(after, name).Some?
      && FindMeta(after, name).value.kind == FindMeta(before, name).value.kind
      && Covers(FindMeta(after, name).value.options, FindMeta(before, name).value.options)
  }

  lemma {:induction false} AddOptionsCovers(options: seq<string>, more: seq<string>)
    ensures Covers(AddOptions(options, more), options) && Covers(AddOptions(options, more), more)
    decreases |more|
  {
    if more != [] {
      var next := if more[0] in options then options else options + [more[0]];
      AddOptionsCovers(next, more[1..]);
      assert more[0] in next;
      var k :| 0 <= k < |next| && next[k] == more[0];
      assert next[k] in AddOptions(options, more);
      forall i | 0 <= i < |options|
        ensures options[i] in AddOptions(options, more)
      {
        assert next[i] == options[i];
      }
      forall i | 0 <= i < |more|
        ensures more[i] in AddOptions(options, more)
      {
        if i > 0 { assert more[i] == more[1..][i - 1]; }
      }
    }
  }

  /** What noting a question does to the entry of any name. */
  lemma {:induction false} AddMetaFinds(metas: seq<Meta>, name: string, kind: string, options: seq<string>, other: string)
    ensures var m, after := FindMeta(metas, name), FindMeta(AddMeta(metas, name, kind, options), other);
            after == if other != name then FindMeta(metas, other)
                     else if m.None? then Some(Meta(name, kind, AddOptions([], options)))
                     else if m.value.kind == kind then Some(m.value.(options := AddOptions(m.value.options, options)))
                     else m
  {
    if metas != [] && metas[0].name != name {
      AddMetaFinds(metas[1..], name, kind, options, other);
      assert ([metas[0]] + AddMeta(metas[1..], name, kind, options))[1..] == AddMeta(metas[1..], name, kind, options);
    }
  }

  /** The question is known afterwards, with all of its options if its type is the first one seen. */
  predicate Knows(metas: seq<Meta>, question: Member) {
    var m := FindMeta(metas, question.name);
    m.Some? && (m.value.kind == KindOf(question.value) ==> Covers(m.value.options, OptionsOfQuestion(question.value)))
  }

  lemma NoteGrows(metas: seq<Meta>, question: Member)
    ensures Grows(metas, NoteQuestion(metas, question))
    ensures question.name !in INHERITED ==> Knows(NoteQuestion(metas, question), question)
  {
    var name, kind, options := question.name, KindOf(question.value), OptionsOfQuestion(question.value);
    var m := FindMeta(metas, name);
    AddOptionsCovers(if m.Some? then m.value.options else [], options);
    forall other
      ensures var after := FindMeta(AddMeta(metas, name, kind, options), other);
              after == if other != name then FindMeta(metas, other)
                       else if m.None? then Some(Meta(name, kind, AddOptions([], options)))
                       else if m.value.kind == kind then Some(m.value.(options := AddOptions(m.value.options, options)))
                       else m
    {
      AddMetaFinds(metas, name, kind, options, other);
    }
  }

  lemma CoversThrough(a: seq<string>, b: seq<string>, c: seq<string>)
    requires Covers(a, b) && Covers(b, c)
    ensures Covers(a, c)
  {
    forall i | 0 <= i < |c|
      ensures c[i] in a
    {
      var k :| 0 <= k < |b| && b[k] == c[i];
    }
  }

  lemma GrowsThrough(a: seq<Meta>, b: seq<Meta>, c: seq<Meta>)
    requires Grows(a, b) && Grows(b, c)
    ensures Grows(a, c)
  {
    forall name | FindMeta(a, name).Some?
      ensures Covers(FindMeta(c, name).value.options, FindMeta(a, name).value.options)
    {
      CoversThrough(FindMeta(c, name).value.options, FindMeta(b, name).value.options, FindMeta(a, name).value.options);
    }
  }

  lemma KnowsStill(before: seq<Meta>, after: seq<Meta>, question: Member)
    requires Grows(before, after) && Knows(before, question)
    ensures Knows(after, question)
  {
    var b, a := FindMeta(before, question.name).value, FindMeta(after, question.name).value;
    if a.kind == KindOf(question.value) {
      CoversThrough(a.options, b.options, OptionsOfQuestion(question.value));
    }
  }

  lemma {:induction false} NoteAllGrows(metas: seq<Meta>, questions: seq<Member>)
    ensures Grows(metas, NoteQuestions(metas, questions))
    ensures forall i :: 0 <= i < |questions| && questions[i].name !in INHERITED ==>
              Knows(NoteQuestions(metas, questions), questions[i])
    decreases |questions|
  {
    if questions == [] {
      assert forall name :: FindMeta(metas, name).Some? ==>
          Covers(FindMeta(metas, name).value.options, FindMeta(metas, name).value.options);
    } else {
      var next := NoteQuestion(metas, questions[0]);
      NoteGrows(metas, questions[0]);
      NoteAllGrows(next, questions[1..]);
      GrowsThrough(metas, next, NoteQuestions(metas, questions));
      forall i | 0 <= i < |questions| && questions[i].name !in INHERITED
        ensures Knows(NoteQuestions(metas, questions), questions[i])
      {
        if i == 0 {
          KnowsStill(next, NoteQuestions(metas, questions), questions[0]);
        } else {
          assert questions[i] == questions[1..][i - 1];
        }
      }
    }
  }

  /** Every question of every row is known at the end. */
  lemma {:induction false} RowsAreKnown(metas: seq<Meta>, rows: seq<Json>)
    ensures Grows(metas, NoteRows(metas, rows))
    ensures forall r, i :: 0 <= r < |rows| && 0 <= i < |QuestionsOf(rows[r])| && QuestionsOf(rows[r])[i].name !in INHERITED ==>
              Knows(NoteRows(metas, rows), QuestionsOf(rows[r])[i])
    decreases |rows|
  {
    if rows == [] {
      NoteAllGrows(metas, []);
    } else {
      var next := NoteQuestions(metas, QuestionsOf(rows[0]));
      NoteAllGrows(metas, QuestionsOf(rows[0]));
      RowsAreKnown(next, rows[1..]);
      var all := NoteRows(metas, rows);
      GrowsThrough(metas, next, all);
      forall r, i | 0 <= r < |rows| && 0 <= i < |QuestionsOf(rows[r])| && QuestionsOf(rows[r])[i].name !in INHERITED
        ensures Knows(all, QuestionsOf(rows[r])[i])
      {
        if r == 0 {
          KnowsStill(next, all, QuestionsOf(rows[0])[i]);
        } else {
          assert rows[r] == rows[1..][r - 1];
        }
      }
    }
  }

  datatype ParsedSet = ParsedSet(rows: seq<Json>, invalid: nat, described: nat, metas: seq<Meta>)

  lemma NoteRowsSnoc(metas: seq<Meta>, rows: seq<Json>, row: Json)
    ensures NoteRows(metas, rows + [row]) == NoteQuestions(NoteRows(metas, rows), QuestionsOf(row))
    decreases |rows|
  {
    if rows == [] {
      assert rows + [row] == [row] && [row][1..] == [];
    } else {
      assert (rows + [row])[1..] == rows[1..] + [row];
      NoteRowsSnoc(NoteQuestions(metas, QuestionsOf(rows[0])), rows[1..], row);
    }
  }

  /** `parseDecisionEvalSet`: the rows the trainer would keep, and what they say about each question. */
  method ParseDecisionEvalSet(js: JsHost, jsonl: string) returns (r: ParsedSet)
    ensures r.rows == ValidRows(js, Read(jsonl))
    ensures r.invalid == |Read(jsonl)| - |r.rows|
    ensures r.described == if r.invalid < 3 then r.invalid else 3
    ensures r.metas == NoteRows([], r.rows)
  {
    var lines := SplitLines(jsonl);
    var rows: seq<Json>, invalid, described, metas: seq<Meta> := [], 0, 0, [];
    for i := 0 to |lines|
      invariant rows == ValidRows(js, NonBlank(lines[..i]))
      invariant |rows| + invalid == |NonBlank(lines[..i])|
      invariant described == if invalid < 3 then invalid else 3
      invariant metas == NoteRows([], rows)
    {
      OneMoreLine(js, lines, i);
      RowsStep(js, lines, i);
      var line := Trim(lines[i]);
      if line == "" { continue; }
      var row, problems := JudgeLine(js, line);
      if row.None? || problems != [] {
        invalid := invalid + 1;
        if described < 3 { described := described + 1; }
        continue;
      }
      var questions := QuestionsOf(row.value);
      ghost var known := metas;
      for k := 0 to |questions|
        invariant NoteQuestions(known, questions) == NoteQuestions(metas, questions[k..])
      {
        assert questions[k..][1..] == questions[k + 1..];
        metas := NoteQuestion(metas, questions[k]);
      }
      NoteRowsSnoc([], rows, row.value);
      rows := rows + [row.value];
    }
    assert lines[..|lines|] == lines;
    r := ParsedSet(rows, invalid, described, metas);
  }
}
