/**
 * The model's answers in a decision eval (src/lib/decision-eval.ts): reading one answer, and scoring a row.
 */
module DecisionAnswers {
  import opened Wrappers
  import opened Lines
  import opened Entries
  import opened JsonValues
  import opened DecisionSchema
  import opened DecisionStore
  import opened DecisionEval
  import DecisionBrier
  import DecisionMetrics

  // ------------------------------------------------------------------------------------------
  // One answer
  // ------------------------------------------------------------------------------------------

  datatype Prediction = Prediction(key: string, probs: seq<Entry>, score: Option<real>)

  function Clamp(p: real): real { if p < 0.0 then 0.0 else if p > 1.0 then 1.0 else p }

  /** What a probability adds to the record: nothing when it is no number, or cannot be set as a key. */
  function NumberEntry(m: Member): seq<Entry> { if m.value.Num? then Noted(m.name, m.value.n) else [] }

  /** The entries that are numbers, in order. */
  function NumberEntries(members: seq<Member>): seq<Entry> {
    if members == [] then [] else NumberEntry(members[0]) + NumberEntries(members[1..])
  }

  /** `key in probs`: also for the names every object inherits. */
  predicate IsIn(entries: seq<Entry>, key: string) { HasKey(entries, key) || key in INHERITED }

  /** `probs[key] ?? 0`; none when that reads an inherited value, which is no number. */
  function NumberAt(entries: seq<Entry>, key: string): Option<real> {
    if !HasKey(entries, key) && key in INHERITED then None else Some(ValueOf(entries, key))
  }

  /** The first entry with the highest number. */
  function Top(entries: seq<Entry>, best: Entry): Entry
    decreases |entries|
  {
    if entries == [] then best else Top(entries[1..], if entries[0].value > best.value then entries[0] else best)
  }

  /** Options without a probability get zero, but for those with an inherited name. */
  function Filled(entries: seq<Entry>, options: seq<string>): seq<Entry>
    decreases |options|
  {
    if options == [] then entries
    else Filled(if IsIn(entries, options[0]) then entries else entries + [Entry(options[0], 0.0)], options[1..])
  }

  /** The label the answer itself names: `choice` or `answer`. */
  function Named(kind: string, answer: Json): Option<Json> {
    if kind == "choice" && !Absent(Field(answer, "choice")) then Field(answer, "choice") else Field(answer, "answer")
  }

  function NoulAnswer(answer: seq<Member>): Option<real> {
    if NumberField(answer, "noul").Some? then NumberField(answer, "noul")
    else NumberField(ProbabilityMembers(answer), "true")
  }

  /** What `extractPrediction` answers. */
  function PredictionOf(js: JsHost, kind: string, options: seq<string>, answer: Option<Json>): Option<Prediction> {
    if !IsObj(answer) then None
    else if kind == "noul" then
      var p := NoulAnswer(answer.value.members);
      if p.None? then None
      else
        var yes := Clamp(p.value);
        Some(Prediction(YesNo(yes >= 0.5), [Entry("true", yes), Entry("false", 1.0 - yes)], None))
    else
      var probs := NumberEntries(ProbabilityMembers(answer.value.members));
      if probs == [] then None
      else
        var named := Named(kind, answer.value);
        var key := if Absent(named) || !IsIn(probs, js.text(named.value)) then Top(probs[1..], probs[0]).key
                   else js.text(named.value);
        Some(Prediction(key, Filled(probs, options), if kind == "score" then NumberField(answer.value.members, "score") else None))
  }

  lemma {:induction false} NumberEntriesSnoc(members: seq<Member>, m: Member)
    ensures NumberEntries(members + [m])
              == NumberEntries(members) + NumberEntry(m)
  {
    if members == [] {
      assert members + [m] == [m] && [m][1..] == [];
    } else {
      assert (members + [m])[1..] == members[1..] + [m];
      NumberEntriesSnoc(members[1..], m);
    }
  }

  /** `extractPrediction`, with its loops over the probabilities and the options. */
  method ExtractPrediction(js: JsHost, kind: string, options: seq<string>, answer: Option<Json>)
    returns (r: Option<Prediction>)
    ensures r == PredictionOf(js, kind, options, answer)
  {
    if !IsObj(answer) { return None; }
    if kind == "noul" {
      var p := NoulAnswer(answer.value.members);
      if p.None? { return None; }
      var yes := Clamp(p.value);
      return Some(Prediction(YesNo(yes >= 0.5), [Entry("true", yes), Entry("false", 1.0 - yes)], None));
    }
    var members := ProbabilityMembers(answer.value.members);
    var probs: seq<Entry> := [];
    for i := 0 to |members|
      invariant probs == NumberEntries(members[..i])
    {
      assert members[..i + 1] == members[..i] + [members[i]];
      NumberEntriesSnoc(members[..i], members[i]);
      if members[i].value.Num? { probs := probs + Noted(members[i].name, members[i].value.n); }
    }
    assert members[..|members|] == members;
    if probs == [] { return None; }
    var named := Named(kind, answer.value);
    var key: string;
    if Absent(named) || !IsIn(probs, js.text(named.value)) {
      var best := probs[0];
      for i := 1 to |probs|
        invariant Top(probs[1..], probs[0]) == Top(probs[i..], best)
      {
        assert probs[i..][1..] == probs[i + 1..];
        if probs[i].value > best.value { best := probs[i]; }
      }
      key := best.key;
    } else {
      key := js.text(named.value);
    }
    ghost var read := probs;
    for i := 0 to |options|
      invariant Filled(read, options) == Filled(probs, options[i..])
    {
      assert options[i..][1..] == options[i + 1..];
      if !IsIn(probs, options[i]) { probs := probs + [Entry(options[i], 0.0)]; }
    }
    r := Some(Prediction(key, probs, if kind == "score" then NumberField(answer.value.members, "score") else None));
  }

  lemma {:induction false} TopIsTop(entries: seq<Entry>, best: Entry)
    ensures Top(entries, best) == best || Top(entries, best) in entries
    ensures Top(entries, best).value >= best.value
    ensures forall i :: 0 <= i < |entries| ==> Top(entries, best).value >= entries[i].value
    decreases |entries|
  {
    if entries != [] {
      TopIsTop(entries[1..], if entries[0].value > best.value then entries[0] else best);
      forall i | 0 <= i < |entries|
        ensures Top(entries, best).value >= entries[i].value
      {
        if i > 0 { assert entries[i] == entries[1..][i - 1]; }
      }
    }
  }

  /** Whether the answer names its label, and that label is among the probabilities. */
  predicate NamesLabel(js: JsHost, kind: string, answer: Json)
    requires answer.Obj?
  {
    var named := Named(kind, answer);
    !Absent(named) && IsIn(Given(answer), js.text(named.value))
  }

  /** The first of the highest. */
  predicate IsFirstHighest(entries: seq<Entry>, key: string) {
    exists i :: 0 <= i < |entries| && entries[i].key == key
                && (forall j :: 0 <= j < |entries| ==> entries[j].value <= entries[i].value)
                && (forall j :: 0 <= j < i ==> entries[j].value < entries[i].value)
  }

  lemma {:induction false} TopIsFirst(entries: seq<Entry>, best: Entry)
    ensures IsFirstHighest([best] + entries, Top(entries, best).key)
    decreases |entries|
  {
    var all := [best] + entries;
    if entries == [] {
      assert all[0] == best;
    } else {
      var next := if entries[0].value > best.value then entries[0] else best;
      TopIsFirst(entries[1..], next);
      var tail := [next] + entries[1..];
      var i :| 0 <= i < |tail| && tail[i].key == Top(entries, best).key
               && (forall j :: 0 <= j < |tail| ==> tail[j].value <= tail[i].value)
               && (forall j :: 0 <= j < i ==> tail[j].value < tail[i].value);
      var k := if i > 0 then i + 1 else if next == best then 0 else 1;
      FirstOfMore(entries, best, next, i, k);
    }
  }

  lemma FirstOfMore(entries: seq<Entry>, best: Entry, next: Entry, i: nat, k: nat)
    requires entries != [] && next == (if entries[0].value > best.value then entries[0] else best)
    requires var tail := [next] + entries[1..];
             && i < |tail| && (forall j :: 0 <= j < |tail| ==> tail[j].value <= tail[i].value)
             && (forall j :: 0 <= j < i ==> tail[j].value < tail[i].value)
    requires k == if i > 0 then i + 1 else if next == best then 0 else 1
    ensures IsFirstHighest([best] + entries, ([next] + entries[1..])[i].key)
  {
    var all, tail := [best] + entries, [next] + entries[1..];
    assert all[k] == tail[i];
    forall j | 0 <= j < |all|
      ensures all[j].value <= all[k].value && (j < k ==> all[j].value < all[k].value)
    {
      assert tail[0] == next && next.value <= tail[i].value && (i > 0 ==> next.value < tail[i].value);
      if j > 1 { assert all[j] == tail[j - 1]; }
    }
  }

  lemma {:induction false} NumbersAreMembers(members: seq<Member>, e: Entry)
    ensures e in NumberEntries(members) <==> e.key != "__proto__" && Member(e.key, Num(e.value)) in members
  {
    if members != [] {
      NumbersAreMembers(members[1..], e);
      assert members == [members[0]] + members[1..];
    }
  }

  lemma {:induction false} FilledKeeps(entries: seq<Entry>, options: seq<string>, key: string)
    ensures entries <= Filled(entries, options) && ValueOf(Filled(entries, options), key) == ValueOf(entries, key)
    decreases |options|
  {
    if options != [] {
      var next := if IsIn(entries, options[0]) then entries else entries + [Entry(options[0], 0.0)];
      FilledKeeps(next, options[1..], key);
      ZeroAppend(entries, options[0], key);
    }
  }

  lemma {:induction false} ZeroAppend(entries: seq<Entry>, name: string, key: string)
    ensures ValueOf(entries + [Entry(name, 0.0)], key) == ValueOf(entries, key)
  {
    if entries == [] {
      assert [Entry(name, 0.0)][1..] == [];
    } else {
      assert (entries + [Entry(name, 0.0)])[1..] == entries[1..] + [Entry(name, 0.0)];
      ZeroAppend(entries[1..], name, key);
    }
  }

  /**
   * What is read from an answer to a choice or score question: nothing if it gives no number, and otherwise all its
   * numbers as they are, with zero for every other option. The label is the one the answer names, if that is among
   * the probabilities, and else the first of the likeliest.
   */
  lemma AnswerIsRead(js: JsHost, kind: string, options: seq<string>, answer: Json)
    requires answer.Obj? && kind != "noul"
    ensures var r := PredictionOf(js, kind, options, Some(answer));
            && (r.None? <==> forall m: Member :: m in ProbabilityMembers(answer.members) && m.value.Num? ==> m.name == "__proto__")
            && (r.Some? ==>
                  && Given(answer) <= r.value.probs
                  && (forall key :: ValueOf(r.value.probs, key) == ValueOf(Given(answer), key))
                  && (forall e: Entry :: e in Given(answer) <==>
                        e.key != "__proto__" && Member(e.key, Num(e.value)) in ProbabilityMembers(answer.members))
                  && (if NamesLabel(js, kind, answer) then Named(kind, answer) != None && r.value.key == js.text(Named(kind, answer).value)
                      else IsFirstHighest(Given(answer), r.value.key)))
  {
    NumbersAreRead(answer);
    if Given(answer) != [] {
      RecordIsRead(js, kind, options, answer);
      LabelIsRead(js, kind, options, answer);
    }
  }

  lemma NumbersAreRead(answer: Json)
    requires answer.Obj?
    ensures forall e: Entry :: e in Given(answer) <==>
              e.key != "__proto__" && Member(e.key, Num(e.value)) in ProbabilityMembers(answer.members)
    ensures Given(answer) == [] <==>
              forall m: Member :: m in ProbabilityMembers(answer.members) && m.value.Num? ==> m.name == "__proto__"
  {
    var members, probs := ProbabilityMembers(answer.members), Given(answer);
    forall e: Entry
      ensures e in probs <==> e.key != "__proto__" && Member(e.key, Num(e.value)) in members
    {
      NumbersAreMembers(members, e);
    }
    forall m: Member | m in members && m.value.Num? && m.name != "__proto__"
      ensures Entry(m.name, m.value.n) in probs
    {
      assert Member(m.name, Num(m.value.n)) == m;
    }
    if probs != [] {
      assert probs[0] in probs;
    }
  }

  lemma RecordIsRead(js: JsHost, kind: string, options: seq<string>, answer: Json)
    requires answer.Obj? && kind != "noul" && Given(answer) != []
    ensures var r := PredictionOf(js, kind, options, Some(answer));
            r.Some? && Given(answer) <= r.value.probs && forall key :: ValueOf(r.value.probs, key) == ValueOf(Given(answer), key)
  {
    FilledKeepsAll(Given(answer), options);
    assert PredictionOf(js, kind, options, Some(answer)).value.probs == Filled(Given(answer), options);
  }

  lemma FilledKeepsAll(entries: seq<Entry>, options: seq<string>)
    ensures entries <= Filled(entries, options) && forall key :: ValueOf(Filled(entries, options), key) == ValueOf(entries, key)
  {
    FilledKeeps(entries, options, "");
    forall key
      ensures entries <= Filled(entries, options) && ValueOf(Filled(entries, options), key) == ValueOf(entries, key)
    {
      FilledKeeps(entries, options, key);
    }
  }

  lemma LabelIsRead(js: JsHost, kind: string, options: seq<string>, answer: Json)
    requires answer.Obj? && kind != "noul" && Given(answer) != []
    ensures var r := PredictionOf(js, kind, options, Some(answer));
            r.Some? && if NamesLabel(js, kind, answer) then Named(kind, answer) != None && r.value.key == js.text(Named(kind, answer).value)
                       else IsFirstHighest(Given(answer), r.value.key)
  {
    HighestIsTop(Given(answer));
    LabelIsPicked(js, kind, options, answer);
  }

  lemma HighestIsTop(probs: seq<Entry>)
    requires probs != []
    ensures IsFirstHighest(probs, Top(probs[1..], probs[0]).key)
  {
    TopIsFirst(probs[1..], probs[0]);
    assert [probs[0]] + probs[1..] == probs;
  }

  lemma LabelIsPicked(js: JsHost, kind: string, options: seq<string>, answer: Json)
    requires answer.Obj? && kind != "noul" && Given(answer) != []
    ensures var r, probs := PredictionOf(js, kind, options, Some(answer)), Given(answer);
            r.Some? && if NamesLabel(js, kind, answer) then Named(kind, answer) != None && r.value.key == js.text(Named(kind, answer).value)
                       else r.value.key == Top(probs[1..], probs[0]).key
  {
  }

  /**
   * What is read from an answer to a yes/no question: nothing without a number, and otherwise that number cut to the
   * unit interval as the probability of yes. The label is yes from one half on.
   */
  lemma YesNoIsRead(js: JsHost, options: seq<string>, answer: Json)
    requires answer.Obj?
    ensures var noul, yes := Field(answer, "noul"), Get(ProbabilityMembers(answer.members), "true");
            var p := if noul.Some? && noul.value.Num? then Some(noul.value.n)
                     else if yes.Some? && yes.value.Num? then Some(yes.value.n) else None;
            var r := PredictionOf(js, "noul", options, Some(answer));
            && (r.Some? <==> p.Some?)
            && (p.Some? ==>
                  && (r.value.key == "true" <==> p.value >= 0.5) && (r.value.key == "false" <==> p.value < 0.5)
                  && ValueOf(r.value.probs, "true") == (if p.value > 1.0 then 1.0 else if p.value < 0.0 then 0.0 else p.value)
                  && ValueOf(r.value.probs, "false") == (if p.value > 1.0 then 0.0 else if p.value < 0.0 then 1.0 else 1.0 - p.value))
  {
    assert "true" != "false" by { assert "true"[0] != "false"[0]; }
    var r := PredictionOf(js, "noul", options, Some(answer));
    if r.Some? {
      assert r.value.probs[1..][0] == r.value.probs[1];
    }
  }

  /** An answer names its label under `answer`, and to a choice first of all under `choice`; a null counts as missing. */
  lemma NamedIs(kind: string, answer: Json)
    ensures kind == "choice" && Field(answer, "choice").Some? && Field(answer, "choice").value != Null ==>
              Named(kind, answer) == Field(answer, "choice")
    ensures kind != "choice" || Field(answer, "choice").None? || Field(answer, "choice").value == Null ==>
              Named(kind, answer) == Field(answer, "answer")
  {
  }

  /**
   * The number a record reads under a key: the one it has, else zero, and none where an inherited value is read instead.
   */
  lemma {:induction false} NumberAtIs(entries: seq<Entry>, key: string)
    ensures HasKey(entries, key) ==> NumberAt(entries, key).Some? && Entry(key, NumberAt(entries, key).value) in entries
    ensures !HasKey(entries, key) ==> NumberAt(entries, key) == if key in INHERITED then None else Some(0.0)
  {
    if HasKey(entries, key) { HeldValue(entries, key); } else { MissingKey(entries, key); }
  }

  lemma {:induction false} HeldValue(entries: seq<Entry>, key: string)
    requires HasKey(entries, key)
    ensures Entry(key, ValueOf(entries, key)) in entries
  {
    if entries[0].key != key {
      TailMisses(entries, key);
      HeldValue(entries[1..], key);
    }
  }

  /** Only a score has a score, the number of that field. */
  lemma ScoreIsRead(js: JsHost, kind: string, options: seq<string>, answer: Json)
    requires answer.Obj? && PredictionOf(js, kind, options, Some(answer)).Some?
    ensures var score := Field(answer, "score");
            PredictionOf(js, kind, options, Some(answer)).value.score ==
              if kind == "score" && score.Some? && score.value.Num? then Some(score.value.n) else None
  {
    assert |"noul"| == 4 && |"score"| == 5;
  }

  lemma HasKeyAppend(entries: seq<Entry>, e: Entry, key: string)
    ensures HasKey(entries + [e], key) <==> HasKey(entries, key) || e.key == key
  {
    var more := entries + [e];
    assert more[|entries|] == e;
    if i :| 0 <= i < |entries| && entries[i].key == key { assert more[i].key == key; }
  }

  /** Filling up adds exactly the options whose name is not inherited. */
  lemma {:induction false} FilledHasIff(entries: seq<Entry>, options: seq<string>, key: string)
    ensures HasKey(Filled(entries, options), key)
            <==> HasKey(entries, key) || (key in options && key !in INHERITED)
    decreases |options|
  {
    if options != [] {
      var next := if IsIn(entries, options[0]) then entries else entries + [Entry(options[0], 0.0)];
      HasKeyAppend(entries, Entry(options[0], 0.0), key);
      FilledHasIff(next, options[1..], key);
      assert options == [options[0]] + options[1..];
    }
  }

  /** The numbers an answer to a choice or score question gives. */
  function Given(answer: Json): seq<Entry>
    requires answer.Obj?
  {
    NumberEntries(ProbabilityMembers(answer.members))
  }

  /**
   * For a choice or score, the chosen label and every option have a probability if and only if the answer gives
   * one or the name is not inherited; for yes/no the label always has one.
   */
  lemma PredictionHasItsLabelIff(js: JsHost, kind: string, options: seq<string>, answer: Option<Json>)
    requires PredictionOf(js, kind, options, answer).Some?
    ensures var p := PredictionOf(js, kind, options, answer).value;
            if kind == "noul" then HasKey(p.probs, p.key)
            else
              && (HasKey(p.probs, p.key) <==> HasKey(Given(answer.value), p.key) || p.key !in INHERITED)
              && forall i :: 0 <= i < |options| ==>
                   (HasKey(p.probs, options[i]) <==> HasKey(Given(answer.value), options[i]) || options[i] !in INHERITED)
  {
    var p := PredictionOf(js, kind, options, answer).value;
    if kind == "noul" {
      assert p.probs[0].key == "true" && p.probs[1].key == "false";
    } else {
      var probs := Given(answer.value);
      TopIsTop(probs[1..], probs[0]);
      var top := Top(probs[1..], probs[0]);
      var i :| 0 <= i < |probs| && probs[i] == top;
      assert probs[i].key == top.key;
      FilledHasIff(probs, options, p.key);
      forall k | 0 <= k < |options|
        ensures HasKey(p.probs, options[k]) <==> HasKey(probs, options[k]) || options[k] !in INHERITED
      {
        FilledHasIff(probs, options, options[k]);
      }
    }
  }

  /** A yes/no answer is always a distribution, and the label is the likelier side. */
  lemma NoulIsDistribution(js: JsHost, options: seq<string>, answer: Option<Json>)
    requires PredictionOf(js, "noul", options, answer).Some?
    ensures var p := PredictionOf(js, "noul", options, answer).value;
            && DecisionBrier.Distribution(p.probs)
            && 0.5 <= ValueOf(p.probs, p.key) <= 1.0
  {
    var p := PredictionOf(js, "noul", options, answer).value;
    var yes := p.probs[0].value;
    assert p.probs[1..] == [Entry("false", 1.0 - yes)];
    assert p.probs[1..][1..] == [];
    assert DecisionBrier.Total(p.probs[1..]) == 1.0 - yes + DecisionBrier.Total(p.probs[1..][1..]);
    assert "true" != "false" by { assert "true"[0] != "false"[0]; }
  }

  /** An answer that names an inherited member as its choice. */
  const STRANGE_ANSWER :=
    Obj([Member("choice", Str("constructor")), Member("probabilities", Obj([Member("a", Num(1.0))]))])

  lemma StrangeEntries()
    ensures Field(STRANGE_ANSWER, "choice") == Some(Str("constructor"))
    ensures Given(STRANGE_ANSWER) == [Entry("a", 1.0)]
  {
    var members, probs := STRANGE_ANSWER.members, [Member("a", Num(1.0))];
    assert |"choice"| == 6 && |"probabilities"| == 13 && |"a"| == 1 && |"__proto__"| == 9;
    assert members[0].name == "choice" && members[1..][0] == members[1] && probs[1..] == [];
    assert NumberEntry(probs[0]) == [Entry("a", 1.0)];
    assert NumberEntries(probs) == [Entry("a", 1.0)] + [];
  }

  /** It is taken at its word: the label is no option, and its confidence no number. */
  lemma InheritedAnswerHasNoConfidence(js: JsHost)
    requires js.text(Str("constructor")) == "constructor"
    ensures var p := PredictionOf(js, "choice", ["a", "b"], Some(STRANGE_ANSWER));
            p.Some? && p.value.key == "constructor" && NumberAt(p.value.probs, p.value.key).None?
  {
    StrangeEntries();
    assert |"choice"| == 6 && |"noul"| == 4 && |"constructor"| == 11 && |"a"| == 1 && |"b"| == 1;
    var probs := [Entry("a", 1.0)];
    FilledHasIff(probs, ["a", "b"], "constructor");
  }

  /** An answer to a choice question that names an option of negative probability. */
  const NEGATIVE_ANSWER :=
    Obj([Member("choice", Str("a")), Member("probabilities", Obj([Member("a", Num(-0.2)), Member("b", Num(1.2))]))])

  lemma NegativeEntries()
    ensures ProbabilityMembers(NEGATIVE_ANSWER.members) == [Member("a", Num(-0.2)), Member("b", Num(1.2))]
    ensures NumberEntries([Member("a", Num(-0.2)), Member("b", Num(1.2))]) == [Entry("a", -0.2), Entry("b", 1.2)]
  {
    var members, probs := NEGATIVE_ANSWER.members, [Member("a", Num(-0.2)), Member("b", Num(1.2))];
    assert |"choice"| == 6 && |"probabilities"| == 13;
    assert members[1..][0] == members[1];
    assert probs[1..] == [probs[1]] && probs[1..][1..] == [];
    assert |"__proto__"| == 9 && |"a"| == 1 && |"b"| == 1;
    assert NumberEntry(probs[0]) == [Entry("a", -0.2)] && NumberEntry(probs[1]) == [Entry("b", 1.2)];
    assert NumberEntries([probs[1]]) == [Entry("b", 1.2)] + [];
  }

  /** It is read with a negative confidence, on which `calibration` throws. */
  lemma NegativeConfidence(js: JsHost, points: seq<DecisionMetrics.Point>)
    requires js.text(Str("a")) == "a"
    ensures var p := PredictionOf(js, "choice", ["a", "b"], Some(NEGATIVE_ANSWER));
            && p.Some? && p.value.key == "a" && NumberAt(p.value.probs, "a") == Some(-0.2)
            && (forall hit :: DecisionMetrics.Point(-0.2, hit) in points ==> !DecisionMetrics.NoNegative(points))
  {
    NegativeEntries();
    var probs := [Entry("a", -0.2), Entry("b", 1.2)];
    assert NEGATIVE_ANSWER.members[0].name == "choice";
    assert Field(NEGATIVE_ANSWER, "choice") == Some(Str("a"));
    assert probs[0].key == "a" && probs[1].key == "b";
    assert HasKey(probs, "a") && HasKey(probs, "b");
    assert ["a", "b"][1..] == ["b"] && ["b"][1..] == [];
    assert Filled(probs, ["a", "b"]) == probs;
    assert |"choice"| == 6 && |"noul"| == 4;
  }

  // ------------------------------------------------------------------------------------------
  // One row
  // ------------------------------------------------------------------------------------------

  /** Without a number, the confidence or the probability of the truth is an inherited value. */
  datatype CaseResult =
    CaseResult(name: string, gold: string, pred: string, conf: Option<real>, pGold: Option<real>, probs: seq<Entry>,
               correct: bool)

  datatype Scored = Skipped | Unanswered | Answered(result: CaseResult)

  /** What one gold label adds to the row's score. */
  function ScoreOne(js: JsHost, questions: seq<Member>, metas: seq<Meta>, answers: seq<Member>, gold: Member): Scored {
    var q, m := Get(questions, gold.name), FindMeta(metas, gold.name);
    if q.None? || m.None? || KindOf(q.value) != m.value.kind then Skipped
    else
      var truth := GoldLabelOf(js, m.value.kind, m.value.options, gold.value);
      var p := PredictionOf(js, m.value.kind, m.value.options, Get(answers, gold.name));
      if truth.None? then Skipped
      else if p.None? then Unanswered
      else Answered(CaseResult(gold.name, truth.value, p.value.key, NumberAt(p.value.probs, p.value.key),
                               NumberAt(p.value.probs, truth.value), p.value.probs, p.value.key == truth.value))
  }

  function ResultOf(one: Scored): seq<CaseResult> { if one.Answered? then [one.result] else [] }

  function Results(js: JsHost, questions: seq<Member>, metas: seq<Meta>, answers: seq<Member>, gold: seq<Member>): seq<CaseResult> {
    if gold == [] then []
    else ResultOf(ScoreOne(js, questions, metas, answers, gold[0])) + Results(js, questions, metas, answers, gold[1..])
  }

  function Unscored(js: JsHost, questions: seq<Member>, metas: seq<Meta>, answers: seq<Member>, gold: seq<Member>, how: Scored): nat {
    if gold == [] then 0
    else
      (if ScoreOne(js, questions, metas, answers, gold[0]) == how then 1 else 0)
      + Unscored(js, questions, metas, answers, gold[1..], how)
  }

  lemma {:induction false} ResultsSnoc(js: JsHost, questions: seq<Member>, metas: seq<Meta>, answers: seq<Member>,
                                       gold: seq<Member>, g: Member)
    ensures Results(js, questions, metas, answers, gold + [g])
              == Results(js, questions, metas, answers, gold) + ResultOf(ScoreOne(js, questions, metas, answers, g))
  {
    if gold == [] {
      assert gold + [g] == [g] && [g][1..] == [];
    } else {
      assert (gold + [g])[1..] == gold[1..] + [g];
      ResultsSnoc(js, questions, metas, answers, gold[1..], g);
      InFront(ResultOf(ScoreOne(js, questions, metas, answers, gold[0])),
              Results(js, questions, metas, answers, gold[1..]), ResultOf(ScoreOne(js, questions, metas, answers, g)));
    }
  }

  lemma InFront(a: seq<CaseResult>, b: seq<CaseResult>, c: seq<CaseResult>)
    ensures a + (b + c) == (a + b) + c
  {
  }

  lemma {:induction false} UnscoredSnoc(js: JsHost, questions: seq<Member>, metas: seq<Meta>, answers: seq<Member>,
                                        gold: seq<Member>, g: Member, how: Scored)
    ensures Unscored(js, questions, metas, answers, gold + [g], how)
              == Unscored(js, questions, metas, answers, gold, how)
                 + if ScoreOne(js, questions, metas, answers, g) == how then 1 else 0
  {
    if gold == [] {
      assert gold + [g] == [g] && [g][1..] == [];
    } else {
      assert (gold + [g])[1..] == gold[1..] + [g];
      UnscoredSnoc(js, questions, metas, answers, gold[1..], g, how);
    }
  }

  function GoldOf(row: Json): seq<Member> {
    var gold := Field(row, "gold");
    if IsObj(gold) then gold.value.members else []
  }

  /** The label's question is in the row, and known under the type it has there. */
  predicate Asked(questions: seq<Member>, metas: seq<Meta>, g: Member) {
    var q, m := Get(questions, g.name), FindMeta(metas, g.name);
    q.Some? && m.Some? && KindOf(q.value) == m.value.kind
  }

  /** What the label says, and what the model answers to its question. */
  function TruthOf(js: JsHost, metas: seq<Meta>, g: Member): Option<string>
    requires FindMeta(metas, g.name).Some?
  {
    var m := FindMeta(metas, g.name).value;
    GoldLabelOf(js, m.kind, m.options, g.value)
  }

  function ReplyTo(js: JsHost, metas: seq<Meta>, answers: seq<Member>, g: Member): Option<Prediction>
    requires FindMeta(metas, g.name).Some?
  {
    var m := FindMeta(metas, g.name).value;
    PredictionOf(js, m.kind, m.options, Get(answers, g.name))
  }

  predicate HasResult(js: JsHost, questions: seq<Member>, metas: seq<Meta>, answers: seq<Member>, g: Member) {
    Asked(questions, metas, g) && TruthOf(js, metas, g).Some? && ReplyTo(js, metas, answers, g).Some?
  }

  predicate GoesUnanswered(js: JsHost, questions: seq<Member>, metas: seq<Meta>, answers: seq<Member>, g: Member) {
    Asked(questions, metas, g) && TruthOf(js, metas, g).Some? && ReplyTo(js, metas, answers, g).None?
  }

  /** The result sets what the model answers to the question of `g` against what `g` says. */
  predicate Fits(js: JsHost, questions: seq<Member>, metas: seq<Meta>, answers: seq<Member>, g: Member, r: CaseResult) {
    && HasResult(js, questions, metas, answers, g)
    && r.name == g.name && TruthOf(js, metas, g) == Some(r.gold)
    && r.pred == ReplyTo(js, metas, answers, g).value.key && r.probs == ReplyTo(js, metas, answers, g).value.probs
    && (r.correct <==> r.pred == r.gold)
    && r.conf == NumberAt(r.probs, r.pred) && r.pGold == NumberAt(r.probs, r.gold)
  }

  /** The results fit the members at `places`, in the order of the members, and no other member has one. */
  ghost predicate MatchInOrder(has: Member -> bool, fits: (Member, CaseResult) -> bool, members: seq<Member>,
                               results: seq<CaseResult>, places: seq<nat>) {
    && |places| == |results|
    && (forall j, k :: 0 <= j < k < |places| ==> places[j] < places[k])
    && (forall k :: 0 <= k < |places| ==> places[k] < |members| && fits(members[places[k]], results[k]))
    && (forall i :: 0 <= i < |members| ==> (has(members[i]) <==> i in places))
  }

  ghost function ScoresIt(js: JsHost, questions: seq<Member>, metas: seq<Meta>, answers: seq<Member>): Member -> bool {
    g => HasResult(js, questions, metas, answers, g)
  }

  ghost function FitsIt(js: JsHost, questions: seq<Member>, metas: seq<Meta>, answers: seq<Member>): (Member, CaseResult) -> bool {
    (g, r) => Fits(js, questions, metas, answers, g, r)
  }

  /** Each result fits its label, the results come in the order of the labels, and no other label has a result. */
  ghost predicate FitInOrder(js: JsHost, questions: seq<Member>, metas: seq<Meta>, answers: seq<Member>, gold: seq<Member>,
                             results: seq<CaseResult>, places: seq<nat>) {
    MatchInOrder(ScoresIt(js, questions, metas, answers), FitsIt(js, questions, metas, answers), gold, results, places)
  }

  lemma MatchSnoc(has: Member -> bool, fits: (Member, CaseResult) -> bool, members: seq<Member>, m: Member,
                  was: seq<CaseResult>, now: seq<CaseResult>, at: seq<nat>, places: seq<nat>)
    requires MatchInOrder(has, fits, members, was, at)
    requires places == if has(m) then at + [|members|] else at
    requires if has(m) then |now| == |was| + 1 && now[..|was|] == was && fits(m, now[|was|]) else now == was
    ensures MatchInOrder(has, fits, members + [m], now, places)
  {
    var more := members + [m];
    forall k | 0 <= k < |places|
      ensures places[k] < |more| && fits(more[places[k]], now[k])
    {
      if k < |at| {
        assert places[k] == at[k] && more[at[k]] == members[at[k]];
        assert now[k] == now[..|was|][k] == was[k];
      }
    }
    PlacesOfMore(has, members, m, at, places);
  }

  lemma PlacesOfMore(has: Member -> bool, members: seq<Member>, m: Member, at: seq<nat>, places: seq<nat>)
    requires forall k :: 0 <= k < |at| ==> at[k] < |members|
    requires forall i :: 0 <= i < |members| ==> (has(members[i]) <==> i in at)
    requires places == if has(m) then at + [|members|] else at
    ensures forall i :: 0 <= i < |members + [m]| ==> (has((members + [m])[i]) <==> i in places)
  {
    var more := members + [m];
    forall i | 0 <= i < |more|
      ensures has(more[i]) <==> i in places
    {
      if i < |members| {
        assert more[i] == members[i];
        assert i in places <==> i in at;
      } else {
        assert i !in at;
      }
    }
  }

  lemma ScoreFits(js: JsHost, questions: seq<Member>, metas: seq<Meta>, answers: seq<Member>, g: Member)
    ensures var one := ScoreOne(js, questions, metas, answers, g);
            && (one.Answered? <==> HasResult(js, questions, metas, answers, g))
            && (one == Unanswered <==> GoesUnanswered(js, questions, metas, answers, g))
            && (one.Answered? ==> Fits(js, questions, metas, answers, g, one.result))
  {
  }

  lemma OneMoreFits(js: JsHost, questions: seq<Member>, metas: seq<Meta>, answers: seq<Member>, before: seq<Member>, g: Member,
                    at: seq<nat>) returns (places: seq<nat>)
    requires FitInOrder(js, questions, metas, answers, before, Results(js, questions, metas, answers, before), at)
    ensures FitInOrder(js, questions, metas, answers, before + [g], Results(js, questions, metas, answers, before + [g]), places)
  {
    ResultsSnoc(js, questions, metas, answers, before, g);
    ScoreFits(js, questions, metas, answers, g);
    var has, fits := ScoresIt(js, questions, metas, answers), FitsIt(js, questions, metas, answers);
    places := if has(g) then at + [|before|] else at;
    var was, one := Results(js, questions, metas, answers, before), ScoreOne(js, questions, metas, answers, g);
    var now := was + ResultOf(one);
    assert now[..|was|] == was;
    MatchSnoc(has, fits, before, g, was, now, at, places);
  }

  lemma {:induction false} ResultsFit(js: JsHost, questions: seq<Member>, metas: seq<Meta>, answers: seq<Member>, gold: seq<Member>)
    returns (places: seq<nat>)
    ensures FitInOrder(js, questions, metas, answers, gold, Results(js, questions, metas, answers, gold), places)
    decreases |gold|
  {
    if gold == [] {
      places := [];
    } else {
      var n := |gold| - 1;
      var at := ResultsFit(js, questions, metas, answers, gold[..n]);
      places := OneMoreFits(js, questions, metas, answers, gold[..n], gold[n], at);
      assert gold[..n] + [gold[n]] == gold;
    }
  }

  /** Where in the list the members with a property are. */
  ghost function PlacesWhere(p: Member -> bool, members: seq<Member>): set<int> {
    set i | 0 <= i < |members| && p(members[i])
  }

  lemma PlacesSnoc(p: Member -> bool, members: seq<Member>, m: Member)
    ensures |PlacesWhere(p, members + [m])| == |PlacesWhere(p, members)| + if p(m) then 1 else 0
  {
    var n, more := |members|, members + [m];
    var was, now := PlacesWhere(p, members), PlacesWhere(p, more);
    assert forall i :: 0 <= i < n ==> more[i] == members[i];
    assert more[n] == m && n !in was;
    if p(m) {
      assert now == was + {n};
    } else {
      assert now == was;
    }
  }

  ghost function IsUnanswered(js: JsHost, questions: seq<Member>, metas: seq<Meta>, answers: seq<Member>): Member -> bool {
    g => GoesUnanswered(js, questions, metas, answers, g)
  }

  ghost function UnansweredAt(js: JsHost, questions: seq<Member>, metas: seq<Meta>, answers: seq<Member>, gold: seq<Member>): set<int> {
    PlacesWhere(IsUnanswered(js, questions, metas, answers), gold)
  }

  lemma {:induction false} UnansweredIsCounted(js: JsHost, questions: seq<Member>, metas: seq<Meta>, answers: seq<Member>, gold: seq<Member>)
    ensures Unscored(js, questions, metas, answers, gold, Unanswered) == |UnansweredAt(js, questions, metas, answers, gold)|
    decreases |gold|
  {
    if gold != [] {
      var n := |gold| - 1;
      var before, g := gold[..n], gold[n];
      UnansweredIsCounted(js, questions, metas, answers, before);
      assert gold == before + [g];
      UnscoredSnoc(js, questions, metas, answers, before, g, Unanswered);
      ScoreFits(js, questions, metas, answers, g);
      PlacesSnoc(IsUnanswered(js, questions, metas, answers), before, g);
    } else {
      assert PlacesWhere(IsUnanswered(js, questions, metas, answers), gold) == {};
    }
  }

  /** `scoreDecisionCase`. */
  method ScoreDecisionCase(js: JsHost, row: Json, answers: seq<Member>, metas: seq<Meta>)
    returns (results: seq<CaseResult>, unanswered: nat)
    ensures results == Results(js, QuestionsOf(row), metas, answers, GoldOf(row))
    ensures unanswered == Unscored(js, QuestionsOf(row), metas, answers, GoldOf(row), Unanswered)
    ensures exists places: seq<nat> :: FitInOrder(js, QuestionsOf(row), metas, answers, GoldOf(row), results, places)
    ensures unanswered == |UnansweredAt(js, QuestionsOf(row), metas, answers, GoldOf(row))|
  {
    var questions, gold := QuestionsOf(row), GoldOf(row);
    results, unanswered := [], 0;
    for i := 0 to |gold|
      invariant results == Results(js, questions, metas, answers, gold[..i])
      invariant unanswered == Unscored(js, questions, metas, answers, gold[..i], Unanswered)
    {
      assert gold[..i + 1] == gold[..i] + [gold[i]];
      ResultsSnoc(js, questions, metas, answers, gold[..i], gold[i]);
      UnscoredSnoc(js, questions, metas, answers, gold[..i], gold[i], Unanswered);
      var name := gold[i].name;
      var q, m := Get(questions, name), FindMeta(metas, name);
      if q.None? || m.None? || KindOf(q.value) != m.value.kind { continue; }
      var truth := GoldLabel(js, m.value.kind, m.value.options, gold[i].value);
      var pred := ExtractPrediction(js, m.value.kind, m.value.options, Get(answers, name));
      if truth.None? { continue; }
      if pred.None? {
        unanswered := unanswered + 1;
        continue;
      }
      var probs, key := pred.value.probs, pred.value.key;
      results := results + [CaseResult(name, truth.value, key, NumberAt(probs, key), NumberAt(probs, truth.value),
                                       probs, key == truth.value)];
    }
    assert gold[..|gold|] == gold;
    UnansweredIsCounted(js, questions, metas, answers, gold);
    ghost var places := ResultsFit(js, questions, metas, answers, gold);
  }

  // ------------------------------------------------------------------------------------------
  // No label vanishes
  // ------------------------------------------------------------------------------------------

  lemma {:induction false} EveryLabelGoesSomewhere(js: JsHost, questions: seq<Member>, metas: seq<Meta>,
                                                   answers: seq<Member>, gold: seq<Member>)
    ensures |Results(js, questions, metas, answers, gold)|
              + Unscored(js, questions, metas, answers, gold, Unanswered)
              + Unscored(js, questions, metas, answers, gold, Skipped) == |gold|
  {
    if gold != [] { EveryLabelGoesSomewhere(js, questions, metas, answers, gold[1..]); }
  }

  lemma {:induction false} NoneSkipped(js: JsHost, questions: seq<Member>, metas: seq<Meta>, answers: seq<Member>, gold: seq<Member>)
    ensures Unscored(js, questions, metas, answers, gold, Skipped) == 0
            <==> forall i :: 0 <= i < |gold| ==> !ScoreOne(js, questions, metas, answers, gold[i]).Skipped?
  {
    if gold != [] {
      NoneSkipped(js, questions, metas, answers, gold[1..]);
      assert gold == [gold[0]] + gold[1..];
    }
  }

  /** The question is asked under the type its name had first. */
  predicate FirstType(metas: seq<Meta>, questions: seq<Member>, name: string) {
    var m, q := FindMeta(metas, name), Get(questions, name);
    m.Some? && q.Some? ==> m.value.kind == KindOf(q.value)
  }

  /**
   * What it takes for a gold label not to be passed over: its name is not inherited, its question is asked
   * under its first type, and a yes/no label has a form the eval reads.
   */
  predicate Found(metas: seq<Meta>, questions: seq<Member>, g: Member) {
    && g.name !in INHERITED
    && FirstType(metas, questions, g.name)
    && (Get(questions, g.name).Some? && KindOf(Get(questions, g.name).value) == "noul" ==> NoulReadable(g.value))
  }

  lemma KindAndOptions(js: JsHost, question: Member, gold: seq<Member>)
    requires QuestionOk(js, question, gold)
    ensures var kind := KindOf(question.value);
            && (kind == "noul" || kind == "choice" || kind == "score")
            && (kind == "noul" ==> OptionsOfQuestion(question.value) == ["false", "true"])
  {
  }

  /** A gold label of a valid row answers one of its questions, and is accepted for it. */
  lemma QuestionOfLabel(js: JsHost, row: Json, i: nat) returns (k: nat)
    requires row.Obj? && ValidRow(js, row) && Normalize(js, row) == row
    requires DistinctNames(QuestionsOf(row)) && DistinctNames(GoldOf(row)) && i < |GoldOf(row)|
    ensures k < |QuestionsOf(row)| && QuestionsOf(row)[k].name == GoldOf(row)[i].name
    ensures Get(QuestionsOf(row), GoldOf(row)[i].name) == Some(QuestionsOf(row)[k].value)
    ensures QuestionOk(js, QuestionsOf(row)[k], GoldOf(row))
    ensures Get(GoldOf(row), GoldOf(row)[i].name) == Some(GoldOf(row)[i].value)
  {
    NormalizedFields(js, row);
    assert GoldField(row) == Field(row, "gold");
    var questions, gold := QuestionsOf(row), GoldOf(row);
    assert Has(questions, gold[i].name);
    k :| 0 <= k < |questions| && questions[k].name == gold[i].name;
    GetAt(questions, k);
    GetAt(gold, i);
  }

  /** Once its question is known, an accepted label is passed over exactly when it is not found. */
  lemma KnownIsScoredIff(js: JsHost, questions: seq<Member>, metas: seq<Meta>, answers: seq<Member>, gold: seq<Member>,
                         question: Member, g: Member)
    requires HostReads(js) && QuestionOk(js, question, gold) && question.name == g.name
    requires Get(questions, g.name) == Some(question.value) && Get(gold, g.name) == Some(g.value)
    requires g.name !in INHERITED && Knows(metas, question)
    ensures !ScoreOne(js, questions, metas, answers, g).Skipped? <==> Found(metas, questions, g)
  {
    KindAndOptions(js, question, gold);
    if FirstType(metas, questions, g.name) {
      AcceptedHasLabelIff(js, KindOf(question.value), OptionsOfQuestion(question.value),
                          FindMeta(metas, g.name).value.options, g.value);
    }
  }

  lemma LabelIsScoredIff(js: JsHost, rows: seq<Json>, r: nat, answers: seq<Member>, i: nat)
    requires HostReads(js) && AllValid(js, rows) && r < |rows|
    requires DistinctNames(QuestionsOf(rows[r])) && DistinctNames(GoldOf(rows[r])) && i < |GoldOf(rows[r])|
    ensures var questions, metas, g := QuestionsOf(rows[r]), NoteRows([], rows), GoldOf(rows[r])[i];
            !ScoreOne(js, questions, metas, answers, g).Skipped? <==> Found(metas, questions, g)
  {
    var questions, metas, g := QuestionsOf(rows[r]), NoteRows([], rows), GoldOf(rows[r])[i];
    if g.name in INHERITED {
      NeverNotedInRows([], rows, g.name);
    } else {
      var k := QuestionOfLabel(js, rows[r], i);
      RowsAreKnown([], rows);
      KnownIsScoredIff(js, questions, metas, answers, GoldOf(rows[r]), questions[k], g);
    }
  }

  /**
   * For every row of a parsed test set, whatever the model answers: its labels are all scored or counted as
   * unanswered if and only if each of them is found.
   */
  lemma NoLabelVanishesIff(js: JsHost, jsonl: string, r: nat, answers: seq<Member>)
    requires HostReads(js) && r < |ValidRows(js, Read(jsonl))|
    requires var row := ValidRows(js, Read(jsonl))[r]; DistinctNames(QuestionsOf(row)) && DistinctNames(GoldOf(row))
    ensures var rows := ValidRows(js, Read(jsonl));
            var row, metas := rows[r], NoteRows([], rows);
            |Results(js, QuestionsOf(row), metas, answers, GoldOf(row))|
            + Unscored(js, QuestionsOf(row), metas, answers, GoldOf(row), Unanswered) == |GoldOf(row)|
            <==> forall i :: 0 <= i < |GoldOf(row)| ==> Found(metas, QuestionsOf(row), GoldOf(row)[i])
  {
    var rows := ValidRows(js, Read(jsonl));
    var row, metas := rows[r], NoteRows([], rows);
    ValidRowsAreValid(js, Read(jsonl));
    forall i | 0 <= i < |GoldOf(row)|
      ensures !ScoreOne(js, QuestionsOf(row), metas, answers, GoldOf(row)[i]).Skipped?
              <==> Found(metas, QuestionsOf(row), GoldOf(row)[i])
    {
      LabelIsScoredIff(js, rows, r, answers, i);
    }
    EveryLabelGoesSomewhere(js, QuestionsOf(row), metas, answers, GoldOf(row));
    NoneSkipped(js, QuestionsOf(row), metas, answers, GoldOf(row));
  }

  lemma {:induction false} NeverNoted(metas: seq<Meta>, questions: seq<Member>, name: string)
    requires name in INHERITED && FindMeta(metas, name).None?
    ensures FindMeta(NoteQuestions(metas, questions), name).None?
    decreases |questions|
  {
    if questions != [] {
      var q := questions[0];
      if q.name !in INHERITED {
        AddMetaFinds(metas, q.name, KindOf(q.value), OptionsOfQuestion(q.value), name);
      }
      NeverNoted(NoteQuestion(metas, q), questions[1..], name);
    }
  }

  lemma {:induction false} NeverNotedInRows(metas: seq<Meta>, rows: seq<Json>, name: string)
    requires name in INHERITED && FindMeta(metas, name).None?
    ensures FindMeta(NoteRows(metas, rows), name).None?
    decreases |rows|
  {
    if rows != [] {
      NeverNoted(metas, QuestionsOf(rows[0]), name);
      NeverNotedInRows(NoteQuestions(metas, QuestionsOf(rows[0])), rows[1..], name);
    }
  }

  /** A valid row whose question is named "constructor". */
  const CONSTRUCTOR_GOLD := Obj([Member("noul", Num(1.0))])
  const CONSTRUCTOR_ROW := SmallRow("constructor", CONSTRUCTOR_GOLD)

  lemma ConstructorGoldIsAccepted(js: JsHost)
    ensures GoldProblemOf(js, "noul", ["false", "true"], CONSTRUCTOR_GOLD).None?
  {
    var gold, probs := GoldMembers(CONSTRUCTOR_GOLD), [Member("true", Num(1.0))];
    assert gold[1..] == [] && probs[1..] == [];
    assert |"probabilities"| == 13 && |"noul"| == 4;
    assert Get(gold, "probabilities") == None && Probabilities("noul", gold) == Some(probs);
    assert |"__proto__"| == 9 && |"true"| == 4;
    assert Noted("true", 1.0) + [] == [Entry("true", 1.0)];
    assert ReadEntries(js, probs) == Ok([Entry("true", 1.0)]);
    OneSideGiven(1.0);
  }

  /**
   * Its label is accepted by the validator, and vanishes: whatever the test set and the answer, the row has no
   * result and nothing unanswered.
   */
  lemma InheritedNameVanishes(js: JsHost, rows: seq<Json>, answers: seq<Member>)
    ensures ValidRow(js, CONSTRUCTOR_ROW) && |GoldOf(CONSTRUCTOR_ROW)| == 1
    ensures var metas := NoteRows([], rows);
            && Results(js, QuestionsOf(CONSTRUCTOR_ROW), metas, answers, GoldOf(CONSTRUCTOR_ROW)) == []
            && Unscored(js, QuestionsOf(CONSTRUCTOR_ROW), metas, answers, GoldOf(CONSTRUCTOR_ROW), Unanswered) == 0
  {
    ConstructorGoldIsAccepted(js);
    SmallRowIsValid(js, "constructor", CONSTRUCTOR_GOLD);
    SmallRowFields("constructor", CONSTRUCTOR_GOLD);
    var gold, metas := GoldOf(CONSTRUCTOR_ROW), NoteRows([], rows);
    assert gold == [Member("constructor", CONSTRUCTOR_GOLD)] && gold[1..] == [];
    NeverNotedInRows([], rows, "constructor");
    assert ScoreOne(js, QuestionsOf(CONSTRUCTOR_ROW), metas, answers, gold[0]).Skipped?;
  }
}
