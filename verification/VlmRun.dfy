/**
 * A whole image-and-text run (src/lib/vlm-eval-runner.ts): the cases the workers collected, and what the report
 * (src/lib/vlm-eval.ts) makes of the rows whose request failed.
 */
module VlmRun {
  import opened Wrappers
  import opened EvalPool
  import opened EvalRecord
  import opened VlmScoring

  /** What a case keeps of its row. */
  datatype Row = Row(id: int, category: string)

  const MESSAGE_CHARS := 500

  function Clip(s: string, max: nat): string { if |s| > max then s[..max] else s }

  /** The case of a row, from how its request ended. */
  function CaseOf<A>(row: Row, o: Outcome<A>): Case {
    match o
    case Answered(_, correct) => Case(row.id, correct, None, row.category)
    case Failed(message) => Case(row.id, false, Some(Clip(message, MESSAGE_CHARS)), row.category)
  }

  /** A failed row keeps the start of its message, up to 500 characters, and is not right. */
  lemma MessageIsCut<A>(row: Row, message: string)
    ensures var c := CaseOf<A>(row, Failed(message));
            && c.error.Some? && c.error.value <= message && |c.error.value| == (if |message| < 500 then |message| else 500)
            && !c.correct && c.id == row.id && c.category == row.category
  {
  }

  /** The array the report is built from. */
  function CasesOf<A>(rows: seq<Row>, outcomes: seq<Outcome<A>>): seq<Case>
    requires |rows| == |outcomes|
  {
    if rows == [] then [] else [CaseOf(rows[0], outcomes[0])] + CasesOf(rows[1..], outcomes[1..])
  }

  /** The request failed and its error said nothing. */
  predicate IsSilent<A>(o: Outcome<A>) { o.Failed? && o.message == "" }

  function Silent<A>(outcomes: seq<Outcome<A>>): nat {
    if outcomes == [] then 0 else (if IsSilent(outcomes[0]) then 1 else 0) + Silent(outcomes[1..])
  }

  lemma {:induction false} SilentIsNone<A>(outcomes: seq<Outcome<A>>)
    ensures Silent(outcomes) == 0 <==> forall i :: 0 <= i < |outcomes| ==> !IsSilent(outcomes[i])
  {
    if outcomes != [] {
      SilentIsNone(outcomes[1..]);
      assert outcomes == [outcomes[0]] + outcomes[1..];
    }
  }

  lemma ScoredCase<A>(row: Row, o: Outcome<A>)
    ensures IsScored(CaseOf(row, o)) <==> !o.Failed? || IsSilent(o)
    ensures CaseOf(row, o).correct <==> o.Answered? && o.correct
  {
  }

  /**
   * Every row has its case, in its place: its own id and category, an error if its request failed, and right if it was
   * answered right.
   */
  lemma {:induction false} CasesKeepRows<A>(rows: seq<Row>, outcomes: seq<Outcome<A>>, i: nat)
    requires |rows| == |outcomes| && i < |rows|
    ensures var cases := CasesOf(rows, outcomes);
            && |cases| == |rows| && cases[i].id == rows[i].id && cases[i].category == rows[i].category
            && (cases[i].error.Some? <==> outcomes[i].Failed?)
            && (cases[i].correct <==> outcomes[i].Answered? && outcomes[i].correct)
    decreases i
  {
    if i > 0 { CasesKeepRows(rows[1..], outcomes[1..], i - 1); } else { CasesLength(rows, outcomes); }
  }

  lemma {:induction false} CasesLength<A>(rows: seq<Row>, outcomes: seq<Outcome<A>>)
    requires |rows| == |outcomes|
    ensures |CasesOf(rows, outcomes)| == |rows|
  {
    if rows != [] { CasesLength(rows[1..], outcomes[1..]); }
  }

  /** The report scores the answered rows and the silent failures, and counts the right answers the pool counted. */
  lemma {:induction false} ScoredRows<A>(rows: seq<Row>, outcomes: seq<Outcome<A>>)
    requires |rows| == |outcomes|
    ensures var cases := CasesOf(rows, outcomes);
            && |cases| == |outcomes|
            && |Scored(cases)| + CountOf(Sequential(outcomes), IsFailed) == |outcomes| + Silent(outcomes)
            && Right(Scored(cases)) == CountOf(Sequential(outcomes), IsRight)
  {
    if rows != [] {
      var rest := CasesOf(rows[1..], outcomes[1..]);
      var c := CaseOf(rows[0], outcomes[0]);
      ScoredRows(rows[1..], outcomes[1..]);
      assert ([c] + rest)[1..] == rest;
      assert Sequential(outcomes)[1..] == Sequential(outcomes[1..]);
      ScoredCase(rows[0], outcomes[0]);
      RightInFront(c, Scored(rest));
      assert [] + Scored(rest) == Scored(rest);
    }
  }

  lemma {:induction false} NoneScoredIff<A>(rows: seq<Row>, outcomes: seq<Outcome<A>>)
    requires |rows| == |outcomes|
    ensures Scored(CasesOf(rows, outcomes)) == []
            <==> forall i :: 0 <= i < |outcomes| ==> outcomes[i].Failed? && !IsSilent(outcomes[i])
  {
    if rows != [] {
      NoneScoredIff(rows[1..], outcomes[1..]);
      assert outcomes == [outcomes[0]] + outcomes[1..];
      var c, rest := CaseOf(rows[0], outcomes[0]), CasesOf(rows[1..], outcomes[1..]);
      assert ([c] + rest)[1..] == rest;
      ScoredCase(rows[0], outcomes[0]);
    }
  }

  /**
   * After any schedule, the report agrees with the progress counters on the right answers. It reports as many
   * errors as the workers counted if and only if no request failed with an empty message: such a row is scored
   * as a wrong answer, and a run of nothing else is not recognised as one in which nothing was scored.
   */
  lemma ReportErrorsIff<A>(rows: seq<Row>, outcomes: seq<Outcome<A>>, width: nat, file: Rec, run: seq<Step>)
    requires |rows| == |outcomes| && width > 0 && Possible(Start(outcomes, width, file), run)
    requires !After(Start(outcomes, width, file), run).caller.Joining?
    ensures var h, report := After(Start(outcomes, width, file), run).shared, CountsOf(CasesOf(rows, outcomes));
            && h.cases == Sequential(outcomes)
            && report.rows == h.completed && report.correct == h.correct
            && report.errors + Silent(outcomes) == h.errors
            && (report.errors == h.errors <==> forall i :: 0 <= i < |outcomes| ==> !IsSilent(outcomes[i]))
            && (report.scored == 0 <==> forall i :: 0 <= i < |outcomes| ==> outcomes[i].Failed? && !IsSilent(outcomes[i]))
  {
    PoolAgreesWithSequential(outcomes, width, file, run);
    ScoredRows(rows, outcomes);
    SilentIsNone(outcomes);
    NoneScoredIff(rows, outcomes);
  }

  /**
   * So, when the report is built and the first write of the caller works, the rows alone decide how the run ends: done
   * if some request was answered or failed without a message, and in error if every request failed with one.
   */
  lemma RunIsDoneIff<A>(rows: seq<Row>, outcomes: seq<Outcome<A>>, width: nat, file: Rec, run: seq<Step>)
    requires |rows| == |outcomes| && width > 0 && Possible(Start(outcomes, width, file), run)
    requires Enabled(After(Start(outcomes, width, file), run), CallerRename(true)) && CallerRename(false) !in run
    requires Join(false, CountsOf(CasesOf(rows, outcomes)).scored == 0) in run
    ensures var stored := Do(After(Start(outcomes, width, file), run), CallerRename(true)).file;
            && stored.Some?
            && (stored.value.status == Done <==> exists i :: 0 <= i < |outcomes| && (outcomes[i].Answered? || IsSilent(outcomes[i])))
            && (stored.value.status == Error <==> forall i :: 0 <= i < |outcomes| ==> outcomes[i].Failed? && outcomes[i].message != "")
  {
    StoredStatusIff(outcomes, width, file, run);
    CallerAlwaysFits(Start(outcomes, width, file), run);
    var join := Join(false, CountsOf(CasesOf(rows, outcomes)).scored == 0);
    if Join(false, false) in run {
      JoinsOnce(outcomes, width, file, run, join, Join(false, false));
    }
    ReportErrorsIff(rows, outcomes, width, file, run);
    if exists i :: 0 <= i < |outcomes| && (outcomes[i].Answered? || IsSilent(outcomes[i])) {
      var i :| 0 <= i < |outcomes| && (outcomes[i].Answered? || IsSilent(outcomes[i]));
      assert !(outcomes[i].Failed? && !IsSilent(outcomes[i]));
    }
  }

  /** A request that failed without a message ends as one scored row and no error. */
  lemma SilentFailureIsScored(row: Row)
    ensures CountsOf(CasesOf<bool>([row], [Failed("")])) == Counts(1, 1, 0, 0)
  {
    var outcomes: seq<Outcome<bool>> := [Failed("")];
    assert [row][1..] == [] && outcomes[1..] == [];
    var c := CaseOf(row, outcomes[0]);
    assert CasesOf([row], outcomes) == [c];
    assert [c][1..] == [] && Scored([c]) == [c] + [];
    RightInFront(c, []);
    assert [c] + [] == [c];
  }
}
