/** What a run leaves in its record (src/lib/decision-eval-runner.ts, src/lib/vlm-eval-runner.ts), told from its steps. */
module EvalRecord {
  import opened Wrappers
  import opened EvalPool

  // ------------------------------------------------------------------------------------------
  // Runs, step by step
  // ------------------------------------------------------------------------------------------

  lemma {:induction false} PrefixIsPossible<A>(s: State<A>, run: seq<Step>, k: nat)
    requires Possible(s, run) && k <= |run|
    ensures Possible(s, run[..k])
    decreases |run|
  {
    if k > 0 {
      PrefixIsPossible(Do(s, run[0]), run[1..], k - 1);
      assert run[..k][1..] == run[1..][..k - 1];
    }
  }

  lemma {:induction false} LastStep<A>(s: State<A>, run: seq<Step>)
    requires Possible(s, run) && run != []
    ensures var before, a := run[..|run| - 1], run[|run| - 1];
            Possible(s, before) && Enabled(After(s, before), a) && After(s, run) == Do(After(s, before), a)
    decreases |run|
  {
    var before := run[..|run| - 1];
    if |run| > 1 {
      LastStep(Do(s, run[0]), run[1..]);
      assert before[1..] == run[1..][..|run| - 2];
    } else {
      assert run[1..] == [];
    }
  }

  // ------------------------------------------------------------------------------------------
  // The message
  // ------------------------------------------------------------------------------------------

  /** The message of the first request of the run that ends with a failure. */
  ghost function FirstError<A>(s: State<A>, run: seq<Step>): Option<string>
    requires Possible(s, run)
    decreases |run|
  {
    if run == [] then None
    else if run[0].Settle? && s.workers[run[0].w].row < |s.rows| && s.rows[s.workers[run[0].w].row].Failed?
    then Some(s.rows[s.workers[run[0].w].row].message)
    else FirstError(Do(s, run[0]), run[1..])
  }

  lemma SampleStep<A>(s: State<A>, a: Step)
    requires Inv(s) && Enabled(s, a)
    ensures Do(s, a).shared.sample ==
              (if s.shared.sample.None? && a.Settle? && s.workers[a.w].row < |s.rows| && s.rows[s.workers[a.w].row].Failed?
               then Some(s.rows[s.workers[a.w].row].message) else s.shared.sample)
  {
    if a.Settle? {
      assert s.workers[a.w].row < |s.claims|;
    }
  }

  /** The message a run shows is that of the request that failed first, however the others end. */
  lemma {:induction false} SampleIsFirstError<A>(s: State<A>, run: seq<Step>)
    requires Inv(s) && Possible(s, run)
    ensures After(s, run).shared.sample == if s.shared.sample.Some? then s.shared.sample else FirstError(s, run)
    decreases |run|
  {
    if run != [] {
      StepInv(s, run[0]);
      SampleStep(s, run[0]);
      SampleIsFirstError(Do(s, run[0]), run[1..]);
    }
  }

  // ------------------------------------------------------------------------------------------
  // The final status
  // ------------------------------------------------------------------------------------------

  /** How often a write of the caller failed. */
  function FailedWrites(run: seq<Step>): nat {
    if run == [] then 0
    else FailedWrites(run[..|run| - 1]) + (if run[|run| - 1] == CallerRename(false) then 1 else 0)
  }

  lemma {:induction false} NoneFailedIff(run: seq<Step>)
    ensures FailedWrites(run) == 0 <==> CallerRename(false) !in run
  {
    if run != [] {
      NoneFailedIff(run[..|run| - 1]);
      assert run == run[..|run| - 1] + [run[|run| - 1]];
    }
  }

  /** The report was built and something was scored. */
  predicate SomethingScored(run: seq<Step>) { Join(false, false) in run }

  predicate ReportThrew(run: seq<Step>) { Join(true, false) in run || Join(true, true) in run }

  predicate NoJoin(run: seq<Step>) { forall k :: 0 <= k < |run| ==> !run[k].Join? }

  predicate OneJoin(run: seq<Step>) { forall j, k :: 0 <= j < k < |run| ==> !(run[j].Join? && run[k].Join?) }

  /** What the place of the caller says about the steps so far. */
  ghost predicate CallerFits<A>(s: State<A>, run: seq<Step>) {
    var fails := FailedWrites(run);
    match s.caller
    case Joining => NoJoin(run) && fails == 0
    case Closing(rec, last) => RecFits(rec, last, run)
    case Replacing(rec, last) => RecFits(rec, last, run)
    case Over =>
      || CallerRename(true) in run || CallerAccess(false) in run
      || (OneJoin(run) && fails == if ReportThrew(run) then 1 else 2)
  }

  ghost predicate RecFits(rec: Rec, last: bool, run: seq<Step>) {
    && OneJoin(run) && FailedWrites(run) <= 1 && !(SomethingScored(run) && ReportThrew(run))
    && (ReportThrew(run) ==> FailedWrites(run) == 0)
    && rec.status == (if SomethingScored(run) && FailedWrites(run) == 0 then Done else Error)
    && (last <==> ReportThrew(run) || FailedWrites(run) > 0)
  }

  lemma OtherStepFits<A>(s: State<A>, run: seq<Step>, a: Step)
    requires CallerFits(s, run) && Enabled(s, a) && !a.Join? && a != CallerRename(false)
    ensures CallerFits(Do(s, a), run + [a])
  {
    OneMore(run, a);
    assert FailedWrites(run + [a]) == FailedWrites(run);
    assert SomethingScored(run + [a]) == SomethingScored(run) && ReportThrew(run + [a]) == ReportThrew(run);
    assert a in run + [a];
  }

  lemma OneMore(run: seq<Step>, a: Step)
    ensures (run + [a])[..|run + [a]| - 1] == run && (run + [a])[|run + [a]| - 1] == a
    ensures forall b :: b in run + [a] <==> b in run || b == a
    ensures !a.Join? ==> (NoJoin(run) ==> NoJoin(run + [a])) && (OneJoin(run) ==> OneJoin(run + [a]))
    ensures NoJoin(run) ==> OneJoin(run + [a])
  {
  }

  lemma JoinFits<A>(s: State<A>, run: seq<Step>, a: Step)
    requires CallerFits(s, run) && Enabled(s, a) && a.Join?
    ensures CallerFits(Do(s, a), run + [a])
  {
    OneMore(run, a);
    assert FailedWrites(run + [a]) == 0;
    assert forall b: Step :: b.Join? ==> b !in run;
  }

  lemma FailureFits<A>(s: State<A>, run: seq<Step>)
    requires CallerFits(s, run) && Enabled(s, CallerRename(false))
    ensures CallerFits(Do(s, CallerRename(false)), run + [CallerRename(false)])
  {
    var a := CallerRename(false);
    OneMore(run, a);
    assert FailedWrites(run + [a]) == FailedWrites(run) + 1;
    assert SomethingScored(run + [a]) == SomethingScored(run) && ReportThrew(run + [a]) == ReportThrew(run);
  }

  lemma {:induction false} CallerAlwaysFits<A>(s: State<A>, run: seq<Step>)
    requires s.caller.Joining? && Possible(s, run)
    ensures CallerFits(After(s, run), run)
    decreases |run|
  {
    if run != [] {
      var before, a := run[..|run| - 1], run[|run| - 1];
      LastStep(s, run);
      CallerAlwaysFits(s, before);
      assert run == before + [a];
      var s1 := After(s, before);
      if a.Join? {
        JoinFits(s1, before, a);
      } else if a == CallerRename(false) {
        FailureFits(s1, before);
      } else {
        OtherStepFits(s1, before, a);
      }
    }
  }

  /**
   * The stored record, once a write of the caller has gone through: it is done if and only if the report was built,
   * something was scored and no write of the caller had failed, and it is an error otherwise. Its counters are those of
   * all rows, and it shows the message of the request that failed first, if any did.
   */
  lemma StoredStatusIff<A>(rows: seq<Outcome<A>>, width: nat, file: Rec, run: seq<Step>)
    requires width > 0 && Possible(Start(rows, width, file), run)
    requires Enabled(After(Start(rows, width, file), run), CallerRename(true))
    ensures var stored := Do(After(Start(rows, width, file), run), CallerRename(true)).file;
            && stored.Some?
            && (stored.value.status == Done <==> Join(false, false) in run && CallerRename(false) !in run)
            && (stored.value.status == Error <==> !(Join(false, false) in run && CallerRename(false) !in run))
            && stored.value.completed == |rows|
            && stored.value.errors == CountOf(Sequential(rows), IsFailed)
            && stored.value.correct == CountOf(Sequential(rows), IsRight)
            && stored.value.sample == FirstError(Start(rows, width, file), run)
            && (stored.value.sample.Some? <==> exists i :: 0 <= i < |rows| && rows[i].Failed?)
  {
    var s := Start(rows, width, file);
    CallerAlwaysFits(s, run);
    NoneFailedIff(run);
    StartInv(rows, width, file);
    RunKeepsInv(s, run);
    SampleIsFirstError(s, run);
    PoolAgreesWithSequential(rows, width, file, run);
  }

  /**
   * A run ends without a final record of its own only if its record was deleted, or if the writes failed: the one write
   * after a report that threw, or else two.
   */
  lemma NoFinalRecordOnlyIf<A>(rows: seq<Outcome<A>>, width: nat, file: Rec, run: seq<Step>)
    requires Possible(Start(rows, width, file), run) && After(Start(rows, width, file), run).caller.Over?
    requires CallerRename(true) !in run
    ensures CallerAccess(false) in run || FailedWrites(run) == if ReportThrew(run) then 1 else 2
  {
    CallerAlwaysFits(Start(rows, width, file), run);
  }

  /** A record nobody deletes stays. */
  lemma {:induction false} RecordStays<A>(s: State<A>, run: seq<Step>)
    requires s.file.Some? && !s.removed && Possible(s, run) && Remove !in run
    ensures After(s, run).file.Some? && !After(s, run).removed
    decreases |run|
  {
    if run != [] {
      assert run[0] in run && forall a: Step :: a in run[1..] ==> a in run;
      RecordStays(Do(s, run[0]), run[1..]);
    }
  }

  /** So a run that starts has its record until somebody deletes it. */
  lemma StartedHasRecord<A>(rows: seq<Outcome<A>>, width: nat, file: Rec, run: seq<Step>)
    requires Possible(Start(rows, width, file), run)
    ensures After(Start(rows, width, file), run).file.None? ==> Remove in run
  {
    if Remove !in run { RecordStays(Start(rows, width, file), run); }
  }

  /** The join happens once. */
  lemma JoinsOnce<A>(rows: seq<Outcome<A>>, width: nat, file: Rec, run: seq<Step>, a: Step, b: Step)
    requires Possible(Start(rows, width, file), run) && a.Join? && b.Join? && a in run && b in run
    requires After(Start(rows, width, file), run).caller.Replacing?
    ensures a == b
  {
    CallerAlwaysFits(Start(rows, width, file), run);
  }

  // ------------------------------------------------------------------------------------------
  // Progress
  // ------------------------------------------------------------------------------------------

  /** The record counts exactly the cases there are. */
  ghost predicate CountsCases<A>(rec: Rec, cases: seq<Option<Outcome<A>>>) {
    && rec.completed == CountOf(cases, IsDone) && rec.errors == CountOf(cases, IsFailed)
    && rec.correct == CountOf(cases, IsRight)
  }

  /** What a worker goes on to save counts every case there is by then, its own row's among them. */
  lemma SavesOwnRow<A>(s: State<A>, w: nat)
    requires Inv(s) && Enabled(s, Settle(w))
    ensures var s', row := Do(s, Settle(w)), s.workers[w].row;
            && row < |s.rows| == |s'.shared.cases| && s'.shared.cases[row] == Some(s.rows[row])
            && s'.workers[w].Checking? && s'.workers[w].rec.status == Running
            && CountsCases(s'.workers[w].rec, s'.shared.cases) && s'.workers[w].rec.sample == s'.shared.sample
  {
    StepInv(s, Settle(w));
    assert s.workers[w].row < |s.claims|;
  }

  /** The record was true at some moment of the run. */
  ghost predicate TrueOnce<A>(s: State<A>, run: seq<Step>, rec: Rec)
    requires Possible(s, run)
  {
    exists k: nat :: k <= |run| && TrueAt(s, run, rec, k)
  }

  ghost predicate TrueAt<A>(s: State<A>, run: seq<Step>, rec: Rec, k: nat)
    requires Possible(s, run) && k <= |run|
  {
    PrefixIsPossible(s, run, k);
    CountsCases(rec, After(s, run[..k]).shared.cases)
  }

  /** Every record on its way to the store, or there already, was true once. */
  ghost predicate RecordsInv<A>(s: State<A>, run: seq<Step>, file: Rec)
    requires Possible(s, run)
  {
    var s' := After(s, run);
    && (forall w :: 0 <= w < |s'.workers| && s'.workers[w].Checking? ==> TrueOnce(s, run, s'.workers[w].rec))
    && (forall w :: 0 <= w < |s'.workers| && s'.workers[w].Writing? ==> TrueOnce(s, run, s'.workers[w].rec))
    && (s'.caller.Closing? || s'.caller.Replacing? ==> TrueOnce(s, run, s'.caller.rec))
    && (s'.file.Some? && s'.file.value != file ==> TrueOnce(s, run, s'.file.value))
  }

  lemma TrueLater<A>(s: State<A>, run: seq<Step>, rec: Rec)
    requires Possible(s, run) && run != [] && Possible(s, run[..|run| - 1]) && TrueOnce(s, run[..|run| - 1], rec)
    ensures TrueOnce(s, run, rec)
  {
    var before := run[..|run| - 1];
    var k: nat :| k <= |before| && TrueAt(s, before, rec, k);
    assert before[..k] == run[..k];
    assert TrueAt(s, run, rec, k);
  }

  lemma TrueNow<A>(s: State<A>, run: seq<Step>, rec: Rec)
    requires Possible(s, run) && CountsCases(rec, After(s, run).shared.cases)
    ensures TrueOnce(s, run, rec)
  {
    assert run[..|run|] == run;
    assert TrueAt(s, run, rec, |run|);
  }

  /** After a step a worker has the record it had, or one that counts the cases there are now. */
  ghost predicate WorkersGoOn<A>(s: State<A>, s': State<A>) {
    |s'.workers| == |s.workers| &&
    forall w :: 0 <= w < |s'.workers| && (s'.workers[w].Checking? || s'.workers[w].Writing?) ==>
      || ((s.workers[w].Checking? || s.workers[w].Writing?) && s'.workers[w].rec == s.workers[w].rec)
      || CountsCases(s'.workers[w].rec, s'.shared.cases)
  }

  /** The caller has a record that counts the cases, and the file is as it was or holds the record of whoever wrote it. */
  ghost predicate FileGoesOn<A>(s: State<A>, s': State<A>) {
    && (s'.caller.Closing? || s'.caller.Replacing? ==> CountsCases(s'.caller.rec, s'.shared.cases))
    && (s'.file.Some? ==>
          || s'.file == s.file || (s.caller.Replacing? && s'.file.value == s.caller.rec)
          || exists w :: 0 <= w < |s.workers| && s.workers[w] == Writing(s'.file.value))
  }

  lemma WorkersStep<A>(s: State<A>, a: Step)
    requires Inv(s) && Enabled(s, a)
    ensures WorkersGoOn(s, Do(s, a))
  {
    if a.Settle? {
      SavesOwnRow(s, a.w);
      OthersSave(s, a.w);
    } else {
      SaversMove(s, a);
    }
  }

  lemma OthersSave<A>(s: State<A>, w: nat)
    requires Enabled(s, Settle(w))
    ensures var s' := Do(s, Settle(w));
            |s'.workers| == |s.workers| && forall v :: 0 <= v < |s.workers| && v != w ==> s'.workers[v] == s.workers[v]
  {
  }

  lemma SaversMove<A>(s: State<A>, a: Step)
    requires Enabled(s, a) && !a.Settle?
    ensures WorkersGoOn(s, Do(s, a))
  {
  }

  lemma FileStep<A>(s: State<A>, a: Step)
    requires Inv(s) && Enabled(s, a) && Inv(Do(s, a))
    ensures FileGoesOn(s, Do(s, a))
  {
    if a.Rename? {
      assert s.workers[a.w] == Writing(s.workers[a.w].rec);
    }
  }

  /** Whatever a stored record says, it was true at some moment of the run; only the first one may say anything. */
  lemma {:induction false} StoredWasTrue<A>(rows: seq<Outcome<A>>, width: nat, file: Rec, run: seq<Step>)
    requires width > 0 && Possible(Start(rows, width, file), run)
    ensures RecordsInv(Start(rows, width, file), run, file)
    decreases |run|
  {
    var s := Start(rows, width, file);
    if run != [] {
      var before, a := run[..|run| - 1], run[|run| - 1];
      LastStep(s, run);
      StoredWasTrue(rows, width, file, before);
      StartInv(rows, width, file);
      RunKeepsInv(s, before);
      StepInv(After(s, before), a);
      WorkersStep(After(s, before), a);
      FileStep(After(s, before), a);
      RecordsGoOn(s, run, file);
    }
  }

  lemma RecordsGoOn<A>(s: State<A>, run: seq<Step>, file: Rec)
    requires Possible(s, run) && run != [] && Possible(s, run[..|run| - 1])
    requires RecordsInv(s, run[..|run| - 1], file)
    requires WorkersGoOn(After(s, run[..|run| - 1]), After(s, run)) && FileGoesOn(After(s, run[..|run| - 1]), After(s, run))
    ensures RecordsInv(s, run, file)
  {
    var before := run[..|run| - 1];
    var s1, s' := After(s, before), After(s, run);
    forall rec | TrueOnce(s, before, rec) || CountsCases(rec, s'.shared.cases)
      ensures TrueOnce(s, run, rec)
    {
      if TrueOnce(s, before, rec) { TrueLater(s, run, rec); } else { TrueNow(s, run, rec); }
    }
  }

  // ------------------------------------------------------------------------------------------
  // Steps that lead somewhere
  // ------------------------------------------------------------------------------------------

  lemma OneStep<A>(s: State<A>, a: Step, rest: seq<Step>)
    requires Enabled(s, a) && Possible(Do(s, a), rest)
    ensures Possible(s, [a] + rest) && After(s, [a] + rest) == After(Do(s, a), rest)
  {
    assert ([a] + rest)[1..] == rest;
  }

  /** A worker whose save finds the record and can write replaces it, and is ready for its next row. */
  lemma SaveGoesThrough<A>(s: State<A>, w: nat)
    requires w < |s.workers| && s.workers[w].Checking? && s.file.Some?
    ensures var run := [Access(w, true)] + ([Rename(w, true)] + []);
            && Possible(s, run)
            && After(s, run) == s.(workers := s.workers[w := Ready], file := Some(s.workers[w].rec))
  {
    var s1 := Do(s, Access(w, true));
    OneStep(s1, Rename(w, true), []);
    OneStep(s, Access(w, true), [Rename(w, true)] + []);
    assert s.workers[w := Writing(s.workers[w].rec)][w := Ready] == s.workers[w := Ready];
  }

  /** One that does not find it, or cannot write, leaves everything as it is, and goes on with its next row. */
  lemma FailedSaveIsHarmless<A>(s: State<A>, w: nat)
    requires w < |s.workers| && s.workers[w].Checking?
    ensures Do(s, Access(w, false)) == s.(workers := s.workers[w := Ready])
    ensures s.file.Some? ==>
              var run := [Access(w, true)] + ([Rename(w, false)] + []);
              Possible(s, run) && After(s, run) == s.(workers := s.workers[w := Ready])
  {
    if s.file.Some? {
      var s1 := Do(s, Access(w, true));
      OneStep(s1, Rename(w, false), []);
      OneStep(s, Access(w, true), [Rename(w, false)] + []);
      assert s.workers[w := Writing(s.workers[w].rec)][w := Ready] == s.workers[w := Ready];
    }
  }

  /** A worker that is ready takes the next row, if there is one, and settles it with that row's own outcome. */
  lemma RowIsSettled<A>(s: State<A>, w: nat)
    requires Inv(s) && w < |s.workers| && s.workers[w].Ready? && s.shared.next < |s.rows|
    ensures var run, i := [Claim(w)] + ([Settle(w)] + []), s.shared.next;
            && Possible(s, run)
            && var s' := After(s, run);
               && s'.shared.next == i + 1 && s'.shared.cases == s.shared.cases[i := Some(s.rows[i])]
               && |s'.workers| == |s.workers| && s'.workers[w].Checking?
               && CountsCases(s'.workers[w].rec, s'.shared.cases) && s'.file == s.file
  {
    StepInv(s, Claim(w));
    var s1 := Do(s, Claim(w));
    SavesOwnRow(s1, w);
    OneStep(s1, Settle(w), []);
    OneStep(s, Claim(w), [Settle(w)] + []);
  }

  /** Once the workers are done, the record is there and writes work, the run is stored as done or in error, as it ended. */
  lemma RunIsStored<A>(s: State<A>, reportFails: bool, nothingScored: bool)
    requires s.caller.Joining? && AllFinished(s.workers) && s.file.Some?
    ensures var run := [Join(reportFails, nothingScored)] + ([CallerAccess(true)] + ([CallerRename(true)] + []));
            && Possible(s, run)
            && var s' := After(s, run);
               && s'.caller.Over? && s'.file.Some?
               && (s'.file.value.status == Done <==> !reportFails && !nothingScored)
               && (s'.file.value.status == Error <==> reportFails || nothingScored)
  {
    var s1 := Do(s, Join(reportFails, nothingScored));
    var s2 := Do(s1, CallerAccess(true));
    OneStep(s2, CallerRename(true), []);
    OneStep(s1, CallerAccess(true), [CallerRename(true)] + []);
    OneStep(s, Join(reportFails, nothingScored), [CallerAccess(true)] + ([CallerRename(true)] + []));
  }
}
