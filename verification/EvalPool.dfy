/**
 * The eval runners (src/lib/decision-eval-runner.ts, src/lib/vlm-eval-runner.ts): a few async workers
 * share a cursor, counters and a result array, and save their progress into a one-file record
 * (src/lib/json-dir-store.ts). Every `await` is a scheduling point: a step below is what runs between
 * two of them, and a schedule is any sequence of steps. What a request answers is nondeterministic.
 */
module EvalPool {
  import opened Wrappers

  // ------------------------------------------------------------------------------------------
  // Entities
  // ------------------------------------------------------------------------------------------

  /** What becomes of one row: an answer and whether it is right, or a failed request. */
  datatype Outcome<A> = Answered(answer: A, correct: bool) | Failed(message: string)

  datatype Status = Running | Done | Error

  /** The parts of a stored run the runner updates. */
  datatype Rec = Rec(status: Status, completed: nat, errors: nat, correct: nat, sample: Option<string>)

  /** The variables the workers share. */
  datatype Shared<A> = Shared(
    next: nat, completed: nat, errors: nat, correct: nat, sample: Option<string>, cases: seq<Option<Outcome<A>>>)

  datatype Worker =
    | Ready                     // about to take the next row
    | Predicting(row: nat)
    | Checking(rec: Rec)        // its save asks whether the record still exists
    | Writing(rec: Rec)         // its save is writing the temporary file, the rename is next
    | Finished

  /** The caller of the workers. `last` marks the save of the outer handler, whose failure is swallowed. */
  datatype Caller = Joining | Closing(rec: Rec, last: bool) | Replacing(rec: Rec, last: bool) | Over

  /**
   * `rows` holds what each row's request will give. `file` is the stored record; `removed` and
   * `claims` are auxiliary: has anyone deleted the record, and which rows were taken, in order.
   */
  datatype State<A> = State(
    rows: seq<Outcome<A>>, shared: Shared<A>, workers: seq<Worker>, caller: Caller,
    file: Option<Rec>, removed: bool, claims: seq<nat>)

  datatype Step =
    | Claim(w: nat)
    | Settle(w: nat)
    | Access(w: nat, found: bool)
    | Rename(w: nat, ok: bool)
    | Join(reportFails: bool, nothingScored: bool)
    | CallerAccess(found: bool)
    | CallerRename(ok: bool)
    | Remove                    // a user deletes the run

  // ------------------------------------------------------------------------------------------
  // Steps
  // ------------------------------------------------------------------------------------------

  /** `const i = next++`. */
  function Advance<A>(s: Shared<A>): Shared<A> { s.(next := s.next + 1) }

  /** The code between a request's end and the save: the case, the counters, the first error. */
  function Count<A>(s: Shared<A>, i: nat, o: Outcome<A>): Shared<A>
    requires i < |s.cases|
  {
    s.(cases := s.cases[i := Some(o)],
       completed := s.completed + 1,
       errors := s.errors + (if o.Failed? then 1 else 0),
       correct := s.correct + (if o.Answered? && o.correct then 1 else 0),
       sample := if s.sample.None? && o.Failed? then Some(o.message) else s.sample)
  }

  function Snapshot<A>(s: Shared<A>, status: Status): Rec { Rec(status, s.completed, s.errors, s.correct, s.sample) }

  predicate AllFinished(ws: seq<Worker>) { forall w :: 0 <= w < |ws| ==> ws[w].Finished? }

  predicate Enabled<A>(s: State<A>, a: Step) {
    match a
    case Claim(w) => w < |s.workers| && s.workers[w].Ready?
    case Settle(w) => w < |s.workers| && s.workers[w].Predicting?
    case Access(w, found) => w < |s.workers| && s.workers[w].Checking? && (found ==> s.file.Some?)
    case Rename(w, _) => w < |s.workers| && s.workers[w].Writing?
    case Join(_, _) => s.caller.Joining? && AllFinished(s.workers)
    case CallerAccess(found) => s.caller.Closing? && (found ==> s.file.Some?)
    case CallerRename(_) => s.caller.Replacing?
    case Remove => true
  }

  function Goto<A>(s: State<A>, w: nat, pc: Worker): State<A> {
    if w < |s.workers| then s.(workers := s.workers[w := pc]) else s
  }

  function Do<A>(s: State<A>, a: Step): State<A>
    requires Enabled(s, a)
  {
    match a
    case Claim(w) =>
      var i := s.shared.next;
      if i >= |s.rows| then Goto(s.(shared := Advance(s.shared)), w, Finished)
      else Goto(s.(shared := Advance(s.shared), claims := s.claims + [i]), w, Predicting(i))
    case Settle(w) =>
      var i := s.workers[w].row;
      if i < |s.rows| && i < |s.shared.cases|
      then
        var shared := Count(s.shared, i, s.rows[i]);
        Goto(s.(shared := shared), w, Checking(Snapshot(shared, Running)))
      else s
    case Access(w, found) => Goto(s, w, if found then Writing(s.workers[w].rec) else Ready)
    case Rename(w, ok) => Goto(if ok then s.(file := Some(s.workers[w].rec)) else s, w, Ready)
    case Join(reportFails, nothingScored) =>
      var status := if reportFails || nothingScored then Error else Done;
      s.(caller := Closing(Snapshot(s.shared, status), reportFails))
    case CallerAccess(found) =>
      s.(caller := if found then Replacing(s.caller.rec, s.caller.last) else Over)
    case CallerRename(ok) =>
      if ok then s.(file := Some(s.caller.rec), caller := Over)
      else s.(caller := if s.caller.last then Over else Closing(s.caller.rec.(status := Error), true))
    case Remove => s.(file := None, removed := true)
  }

  /** A run as it starts: `width` is the runner's concurrency, and the record was just created. */
  function Start<A>(rows: seq<Outcome<A>>, width: nat, file: Rec): State<A> {
    State(rows, Shared(0, 0, 0, 0, None, seq(|rows|, _ => None)),
          seq(if width < |rows| then width else |rows|, _ => Ready), Joining, Some(file), false, [])
  }

  // ------------------------------------------------------------------------------------------
  // Counting
  // ------------------------------------------------------------------------------------------

  predicate IsDone<A>(c: Option<Outcome<A>>) { c.Some? }
  predicate IsFailed<A>(c: Option<Outcome<A>>) { c.Some? && c.value.Failed? }
  predicate IsRight<A>(c: Option<Outcome<A>>) { c.Some? && c.value.Answered? && c.value.correct }

  ghost function CountOf<A>(cs: seq<Option<Outcome<A>>>, p: Option<Outcome<A>> -> bool): nat {
    if cs == [] then 0 else CountOf(cs[1..], p) + (if p(cs[0]) then 1 else 0)
  }

  lemma {:induction false} CountUpdate<A>(cs: seq<Option<Outcome<A>>>, i: nat, c: Option<Outcome<A>>, p: Option<Outcome<A>> -> bool)
    requires i < |cs|
    ensures CountOf(cs[i := c], p) == CountOf(cs, p) + (if p(c) then 1 else 0) - (if p(cs[i]) then 1 else 0)
  {
    if i > 0 {
      CountUpdate(cs[1..], i - 1, c, p);
      assert cs[i := c][1..] == cs[1..][i - 1 := c];
    } else {
      assert cs[i := c][1..] == cs[1..];
    }
  }

  lemma {:induction false} CountNone<A>(cs: seq<Option<Outcome<A>>>, p: Option<Outcome<A>> -> bool)
    requires forall i :: 0 <= i < |cs| ==> !p(cs[i])
    ensures CountOf(cs, p) == 0
  {
    if cs != [] {
      CountNone(cs[1..], p);
    }
  }

  lemma {:induction false} CountAll<A>(cs: seq<Option<Outcome<A>>>, p: Option<Outcome<A>> -> bool)
    requires forall i :: 0 <= i < |cs| ==> p(cs[i])
    ensures CountOf(cs, p) == |cs|
  {
    if cs != [] {
      CountAll(cs[1..], p);
    }
  }

  // ------------------------------------------------------------------------------------------
  // The invariant
  // ------------------------------------------------------------------------------------------

  /** The rows are taken in order, each once. */
  ghost predicate ClaimInv<A>(s: State<A>) {
    && |s.claims| == (if s.shared.next < |s.rows| then s.shared.next else |s.rows|)
    && (forall k :: 0 <= k < |s.claims| ==> s.claims[k] == k)
    && (forall w :: 0 <= w < |s.workers| && s.workers[w].Predicting? ==> s.workers[w].row < |s.claims|)
    && (forall v, w :: 0 <= v < w < |s.workers| && s.workers[v].Predicting? && s.workers[w].Predicting? ==>
          s.workers[v].row != s.workers[w].row)
    && (forall w :: 0 <= w < |s.workers| && s.workers[w].Finished? ==> s.shared.next >= |s.rows|)
  }

  ghost predicate InFlight<A>(s: State<A>, i: nat) {
    exists w :: 0 <= w < |s.workers| && s.workers[w] == Predicting(i)
  }

  /** A row has its case exactly when it was taken and its request is over, and the case is its own. */
  ghost predicate CaseInv<A>(s: State<A>) {
    && |s.shared.cases| == |s.rows|
    && forall i :: 0 <= i < |s.rows| ==>
         && (s.shared.cases[i].Some? <==> i < |s.claims| && !InFlight(s, i))
         && (s.shared.cases[i].Some? ==> s.shared.cases[i].value == s.rows[i])
  }

  ghost predicate CounterInv<A>(h: Shared<A>) {
    && h.completed == CountOf(h.cases, IsDone)
    && h.errors == CountOf(h.cases, IsFailed)
    && h.correct == CountOf(h.cases, IsRight)
  }

  ghost predicate SampleInv<A>(h: Shared<A>) {
    && (h.sample.Some? <==> h.errors > 0)
    && (h.sample.Some? ==> exists i :: 0 <= i < |h.cases| && h.cases[i] == Some(Failed(h.sample.value)))
  }

  /** Progress is saved as running; a worker only writes, and only finishes, before the caller goes on. */
  ghost predicate SaveInv<A>(s: State<A>) {
    && (forall w :: 0 <= w < |s.workers| && s.workers[w].Checking? ==> s.workers[w].rec.status == Running)
    && (forall w :: 0 <= w < |s.workers| && s.workers[w].Writing? ==> s.workers[w].rec.status == Running)
    && (s.caller.Joining? || AllFinished(s.workers))
    && ((s.caller.Closing? || s.caller.Replacing?) ==> FinalRec(s, s.caller.rec))
    && (!s.removed ==> s.file.Some?)
  }

  ghost predicate FinalRec<A>(s: State<A>, rec: Rec) {
    rec.status != Running && rec == Snapshot(s.shared, rec.status)
  }

  ghost predicate Inv<A>(s: State<A>) {
    && ClaimInv(s) && CaseInv(s) && CounterInv(s.shared) && SampleInv(s.shared) && SaveInv(s)
    && (|s.workers| == 0 ==> |s.rows| == 0)
  }

  lemma StartInv<A>(rows: seq<Outcome<A>>, width: nat, file: Rec)
    requires width > 0
    ensures Inv(Start(rows, width, file))
  {
    var s := Start(rows, width, file);
    CountNone(s.shared.cases, IsDone);
    CountNone(s.shared.cases, IsFailed);
    CountNone(s.shared.cases, IsRight);
  }

  // ------------------------------------------------------------------------------------------
  // Every step keeps it
  // ------------------------------------------------------------------------------------------

  lemma ClaimStep<A>(s: State<A>, w: nat)
    requires Inv(s) && Enabled(s, Claim(w))
    ensures Inv(Do(s, Claim(w)))
  {
    if s.shared.next >= |s.rows| { WorkerStops(s, w); } else { WorkerTakes(s, w); }
  }

  lemma WorkerStops<A>(s: State<A>, w: nat)
    requires Inv(s) && Enabled(s, Claim(w)) && s.shared.next >= |s.rows|
    ensures Inv(Do(s, Claim(w)))
  {
    SameFlight(s, Do(s, Claim(w)), w);
  }

  lemma WorkerTakes<A>(s: State<A>, w: nat)
    requires Inv(s) && Enabled(s, Claim(w)) && s.shared.next < |s.rows|
    ensures Inv(Do(s, Claim(w)))
  {
    var s' := Do(s, Claim(w));
    forall i | 0 <= i < |s.rows|
      ensures InFlight(s', i) <==> InFlight(s, i) || i == s.shared.next
    {
      if InFlight(s, i) {
        var v :| 0 <= v < |s.workers| && s.workers[v] == Predicting(i);
        assert s'.workers[v] == Predicting(i);
      }
      if i == s.shared.next {
        assert s'.workers[w] == Predicting(i);
      }
    }
  }

  /** A worker that is at no row before and after changes nothing about the rows in flight. */
  lemma SameFlight<A>(s: State<A>, s': State<A>, w: nat)
    requires w < |s.workers| && !s.workers[w].Predicting?
    requires |s'.workers| == |s.workers| && !s'.workers[w].Predicting?
    requires forall v :: 0 <= v < |s.workers| && v != w ==> s'.workers[v] == s.workers[v]
    ensures forall i :: InFlight(s', i) <==> InFlight(s, i)
  {
    forall i
      ensures InFlight(s', i) <==> InFlight(s, i)
    {
      if InFlight(s, i) {
        var v :| 0 <= v < |s.workers| && s.workers[v] == Predicting(i);
        assert s'.workers[v] == Predicting(i);
      }
      if InFlight(s', i) {
        var v :| 0 <= v < |s'.workers| && s'.workers[v] == Predicting(i);
        assert s.workers[v] == Predicting(i);
      }
    }
  }

  lemma CountStep<A>(h: Shared<A>, i: nat, o: Outcome<A>)
    requires CounterInv(h) && SampleInv(h) && i < |h.cases| && h.cases[i].None?
    ensures CounterInv(Count(h, i, o)) && SampleInv(Count(h, i, o))
  {
    CountUpdate(h.cases, i, Some(o), IsDone);
    CountUpdate(h.cases, i, Some(o), IsFailed);
    CountUpdate(h.cases, i, Some(o), IsRight);
    var h' := Count(h, i, o);
    if h.sample.Some? {
      var k :| 0 <= k < |h.cases| && h.cases[k] == Some(Failed(h.sample.value));
      assert h'.cases[k] == Some(Failed(h'.sample.value));
    } else if o.Failed? {
      assert h'.cases[i] == Some(Failed(h'.sample.value));
    }
  }

  lemma SettleStep<A>(s: State<A>, w: nat)
    requires Inv(s) && Enabled(s, Settle(w))
    ensures Inv(Do(s, Settle(w)))
  {
    var row := s.workers[w].row;
    assert InFlight(s, row);
    CountStep(s.shared, row, s.rows[row]);
    var s' := Do(s, Settle(w));
    forall i | 0 <= i < |s.rows|
      ensures s'.shared.cases[i].Some? <==> i < |s'.claims| && !InFlight(s', i)
    {
      SettledFlight(s, s', w, i);
    }
  }

  /** A worker that has settled its row leaves all other rows in flight. */
  lemma SettledFlight<A>(s: State<A>, s': State<A>, w: nat, i: nat)
    requires ClaimInv(s) && w < |s.workers| && s.workers[w].Predicting?
    requires |s'.workers| == |s.workers| && !s'.workers[w].Predicting?
    requires forall v :: 0 <= v < |s.workers| && v != w ==> s'.workers[v] == s.workers[v]
    ensures InFlight(s', i) <==> InFlight(s, i) && i != s.workers[w].row
  {
    if InFlight(s', i) {
      var v :| 0 <= v < |s'.workers| && s'.workers[v] == Predicting(i);
      assert s.workers[v] == Predicting(i);
    }
    if InFlight(s, i) && i != s.workers[w].row {
      var v :| 0 <= v < |s.workers| && s.workers[v] == Predicting(i);
      assert s'.workers[v] == Predicting(i);
    }
  }

  /** A worker's save moves on; the file may change, but never disappears. */
  lemma SaverMoves<A>(s: State<A>, w: nat, pc: Worker, file: Option<Rec>)
    requires Inv(s) && w < |s.workers| && (s.workers[w].Checking? || s.workers[w].Writing?)
    requires pc.Ready? || (pc.Writing? && pc.rec.status == Running)
    requires !s.removed ==> file.Some?
    ensures Inv(Goto(s.(file := file), w, pc))
  {
    SameFlight(s, Goto(s.(file := file), w, pc), w);
  }

  lemma SaveStep<A>(s: State<A>, a: Step)
    requires Inv(s) && Enabled(s, a) && (a.Access? || a.Rename?)
    ensures Inv(Do(s, a))
  {
    var rec := s.workers[a.w].rec;
    if a.Access? {
      SaverMoves(s, a.w, if a.found then Writing(rec) else Ready, s.file);
    } else {
      SaverMoves(s, a.w, Ready, if a.ok then Some(rec) else s.file);
    }
  }

  lemma CallerStep<A>(s: State<A>, a: Step)
    requires Inv(s) && Enabled(s, a) && (a.Join? || a.CallerAccess? || a.CallerRename? || a.Remove?)
    ensures Inv(Do(s, a))
  {
    var s' := Do(s, a);
    assert s'.workers == s.workers && s'.shared == s.shared && s'.claims == s.claims;
    assert forall i :: InFlight(s', i) <==> InFlight(s, i);
  }

  lemma StepInv<A>(s: State<A>, a: Step)
    requires Inv(s) && Enabled(s, a)
    ensures Inv(Do(s, a))
  {
    match a {
      case Claim(w) => ClaimStep(s, w);
      case Settle(w) => SettleStep(s, w);
      case Access(_, _) => SaveStep(s, a);
      case Rename(_, _) => SaveStep(s, a);
      case _ => CallerStep(s, a);
    }
  }

  // ------------------------------------------------------------------------------------------
  // Schedules
  // ------------------------------------------------------------------------------------------

  ghost predicate Possible<A>(s: State<A>, run: seq<Step>)
    decreases |run|
  {
    run != [] ==> Enabled(s, run[0]) && Possible(Do(s, run[0]), run[1..])
  }

  ghost function After<A>(s: State<A>, run: seq<Step>): State<A>
    requires Possible(s, run)
    decreases |run|
  {
    if run == [] then s else After(Do(s, run[0]), run[1..])
  }

  lemma {:induction false} RunKeepsInv<A>(s: State<A>, run: seq<Step>)
    requires Inv(s) && Possible(s, run)
    ensures Inv(After(s, run)) && After(s, run).rows == s.rows && |After(s, run).workers| == |s.workers|
    decreases |run|
  {
    if run != [] {
      StepInv(s, run[0]);
      StepKeepsShape(s, run[0]);
      RunKeepsInv(Do(s, run[0]), run[1..]);
    }
  }

  lemma StepKeepsShape<A>(s: State<A>, a: Step)
    requires Enabled(s, a)
    ensures Do(s, a).rows == s.rows && |Do(s, a).workers| == |s.workers|
  {
  }

  // ------------------------------------------------------------------------------------------
  // What every schedule gives
  // ------------------------------------------------------------------------------------------

  /** What a runner that took the rows one by one would have collected. */
  function Sequential<A>(rows: seq<Outcome<A>>): seq<Option<Outcome<A>>> {
    seq(|rows|, i requires 0 <= i < |rows| => Some(rows[i]))
  }

  /** No row is taken twice, and the requests in flight are of distinct rows, at most one per worker. */
  lemma RowsAreTakenOnce<A>(rows: seq<Outcome<A>>, width: nat, file: Rec, run: seq<Step>)
    requires width > 0 && Possible(Start(rows, width, file), run)
    ensures var s := After(Start(rows, width, file), run);
            && (forall j, k :: 0 <= j < k < |s.claims| ==> s.claims[j] != s.claims[k])
            && |s.workers| == (if width < |rows| then width else |rows|)
            && (forall v, w :: 0 <= v < w < |s.workers| && s.workers[v].Predicting? && s.workers[w].Predicting? ==>
                  s.workers[v].row != s.workers[w].row)
            && (!s.caller.Joining? ==> forall i :: 0 <= i < |rows| ==> i in s.claims)
  {
    StartInv(rows, width, file);
    RunKeepsInv(Start(rows, width, file), run);
    var s := After(Start(rows, width, file), run);
    if !s.caller.Joining? {
      forall i | 0 <= i < |rows|
        ensures i in s.claims
      {
        assert s.workers[0].Finished?;
        assert s.claims[i] == i;
      }
    }
  }

  /** However the workers interleave, the caller sees what a sequential run would have made. */
  lemma PoolAgreesWithSequential<A>(rows: seq<Outcome<A>>, width: nat, file: Rec, run: seq<Step>)
    requires width > 0 && Possible(Start(rows, width, file), run)
    requires !After(Start(rows, width, file), run).caller.Joining?
    ensures var h := After(Start(rows, width, file), run).shared;
            && h.cases == Sequential(rows)
            && h.completed == |rows|
            && h.errors == CountOf(Sequential(rows), IsFailed)
            && h.correct == CountOf(Sequential(rows), IsRight)
            && (h.sample.Some? <==> exists i :: 0 <= i < |rows| && rows[i].Failed?)
  {
    StartInv(rows, width, file);
    RunKeepsInv(Start(rows, width, file), run);
    var s := After(Start(rows, width, file), run);
    forall i | 0 <= i < |rows|
      ensures s.shared.cases[i] == Some(rows[i])
    {
      assert s.workers[0].Finished?;
      assert !InFlight(s, i);
    }
    assert s.shared.cases == Sequential(rows);
    CountAll(s.shared.cases, IsDone);
    if exists i :: 0 <= i < |rows| && rows[i].Failed? {
      var i :| 0 <= i < |rows| && rows[i].Failed?;
      CountUpdate(s.shared.cases, i, s.shared.cases[i], IsFailed);
      CountUpdate(s.shared.cases, i, None, IsFailed);
    }
    if s.shared.sample.Some? {
      var i :| 0 <= i < |s.shared.cases| && s.shared.cases[i] == Some(Failed(s.shared.sample.value));
      assert rows[i].Failed?;
    }
  }

  /** A write the caller makes is the last one: no worker has a save left to finish. */
  lemma ProgressWritesComeFirst<A>(s: State<A>, run: seq<Step>)
    requires Inv(s) && Possible(s, run) && !After(s, run).caller.Joining?
    ensures forall w, ok :: !Enabled(After(s, run), Rename(w, ok))
  {
    RunKeepsInv(s, run);
  }

  lemma OverIsLast<A>(s: State<A>, a: Step)
    requires Inv(s) && s.caller.Over? && Enabled(s, a)
    ensures a == Remove && Do(s, a) == s.(file := None, removed := true)
  {
  }

  lemma {:induction false} OverForever<A>(s: State<A>, run: seq<Step>)
    requires Inv(s) && s.caller.Over? && Possible(s, run)
    ensures var s' := After(s, run);
            (s'.file == s.file && s'.removed == s.removed) || (s'.file == None && s'.removed)
    decreases |run|
  {
    if run != [] {
      OverIsLast(s, run[0]);
      StepInv(s, run[0]);
      OverForever(Do(s, run[0]), run[1..]);
    }
  }

  /**
   * Once the caller's write went through, the stored record is that final one, with the counters of
   * all rows, in every later state; only a user deleting the run can change it.
   */
  lemma StoredStatusEndsTerminal<A>(s: State<A>, run: seq<Step>)
    requires Inv(s) && Enabled(s, CallerRename(true)) && Possible(Do(s, CallerRename(true)), run)
    ensures var s' := After(Do(s, CallerRename(true)), run);
            && s.caller.rec.status != Running && s.caller.rec.completed == |s.rows|
            && (s'.file == Some(s.caller.rec) || (s'.file == None && s'.removed))
  {
    StepInv(s, CallerRename(true));
    OverForever(Do(s, CallerRename(true)), run);
    forall i | 0 <= i < |s.rows|
      ensures IsDone(s.shared.cases[i])
    {
      assert s.workers[0].Finished?;
      assert !InFlight(s, i);
    }
    CountAll(s.shared.cases, IsDone);
  }

  // ------------------------------------------------------------------------------------------
  // A deleted run
  // ------------------------------------------------------------------------------------------

  /** No save has passed its existence check without having renamed yet. */
  ghost predicate NobodyWrites<A>(s: State<A>) {
    (forall w :: 0 <= w < |s.workers| ==> !s.workers[w].Writing?) && !s.caller.Replacing?
  }

  /** A record deleted while no save is past its check never reappears, whatever the run still does. */
  lemma {:induction false} DeletedStaysDeleted<A>(s: State<A>, run: seq<Step>)
    requires s.file == None && NobodyWrites(s) && Possible(s, run)
    ensures After(s, run).file == None
    decreases |run|
  {
    if run != [] {
      var s' := Do(s, run[0]);
      assert s'.file == None && NobodyWrites(s');
      DeletedStaysDeleted(s', run[1..]);
    }
  }

  /** A save that is past its check when the record is deleted can bring it back. */
  lemma PendingSaveRecreates<A>(s: State<A>) returns (run: seq<Step>)
    requires !NobodyWrites(s)
    ensures Possible(s, run) && After(s, run).file.Some?
  {
    var a := CallerRename(true);
    if !s.caller.Replacing? {
      var w :| 0 <= w < |s.workers| && s.workers[w].Writing?;
      a := Rename(w, true);
    }
    run := [a];
    assert run[1..] == [];
  }

  /** So a deleted record is gone for good, whatever happens, if and only if no save is past its check. */
  lemma DeletedForGoodIff<A>(s: State<A>)
    requires s.file == None
    ensures NobodyWrites(s) <==> forall run :: Possible(s, run) ==> After(s, run).file == None
  {
    if NobodyWrites(s) {
      forall run | Possible(s, run)
        ensures After(s, run).file == None
      {
        DeletedStaysDeleted(s, run);
      }
    } else {
      var run := PendingSaveRecreates(s);
    }
  }

  // ------------------------------------------------------------------------------------------
  // Every schedule ends
  // ------------------------------------------------------------------------------------------

  function WorkerWeight(pc: Worker): nat {
    match pc
    case Finished => 0
    case Ready => 1
    case Writing(_) => 2
    case Checking(_) => 3
    case Predicting(_) => 4
  }

  ghost function WorkersWeight(ws: seq<Worker>): nat {
    if ws == [] then 0 else WorkerWeight(ws[0]) + WorkersWeight(ws[1..])
  }

  function CallerWeight(c: Caller): nat {
    match c
    case Over => 0
    case Replacing(_, last) => if last then 1 else 3
    case Closing(_, last) => if last then 2 else 4
    case Joining => 5
  }

  /** How much work is left. */
  ghost function Weight<A>(s: State<A>): nat {
    (if s.shared.next < |s.rows| then 4 * (|s.rows| - s.shared.next) else 0)
    + WorkersWeight(s.workers) + CallerWeight(s.caller)
  }

  lemma {:induction false} WeightUpdate(ws: seq<Worker>, w: nat, pc: Worker)
    requires w < |ws|
    ensures WorkersWeight(ws[w := pc]) == WorkersWeight(ws) - WorkerWeight(ws[w]) + WorkerWeight(pc)
  {
    if w > 0 {
      WeightUpdate(ws[1..], w - 1, pc);
      assert ws[w := pc][1..] == ws[1..][w - 1 := pc];
    } else {
      assert ws[w := pc][1..] == ws[1..];
    }
  }

  lemma StepMakesProgress<A>(s: State<A>, a: Step)
    requires Inv(s) && Enabled(s, a) && a != Remove
    ensures Weight(Do(s, a)) < Weight(s)
  {
    if a.Claim? || a.Settle? || a.Access? || a.Rename? {
      WorkerMakesProgress(s, a);
    }
  }

  lemma WorkerMakesProgress<A>(s: State<A>, a: Step)
    requires Inv(s) && Enabled(s, a) && (a.Claim? || a.Settle? || a.Access? || a.Rename?)
    ensures Weight(Do(s, a)) < Weight(s)
  {
    var pc := Do(s, a).workers[a.w];
    WorkerAdvances(s, a);
    WeightUpdate(s.workers, a.w, pc);
  }

  /** A worker's step replaces its own entry by a lighter one, or takes a row off the rest. */
  lemma WorkerAdvances<A>(s: State<A>, a: Step)
    requires Inv(s) && Enabled(s, a) && (a.Claim? || a.Settle? || a.Access? || a.Rename?)
    ensures var s' := Do(s, a);
            && |s'.workers| == |s.workers| && s'.workers == s.workers[a.w := s'.workers[a.w]] && s'.rows == s.rows
            && s'.caller == s.caller
            && (if s'.shared.next == s.shared.next || s.shared.next >= |s.rows|
                then s'.shared.next >= s.shared.next && WorkerWeight(s'.workers[a.w]) < WorkerWeight(s.workers[a.w])
                else s'.shared.next == s.shared.next + 1 && WorkerWeight(s'.workers[a.w]) <= WorkerWeight(s.workers[a.w]) + 3)
  {
  }

  /** No schedule is longer than the work there is, so every run reaches its end. */
  lemma {:induction false} ScheduleIsBounded<A>(s: State<A>, run: seq<Step>)
    requires Inv(s) && Possible(s, run) && Remove !in run
    ensures |run| + Weight(After(s, run)) <= Weight(s)
    decreases |run|
  {
    if run != [] {
      assert run[0] != Remove;
      StepInv(s, run[0]);
      StepMakesProgress(s, run[0]);
      ScheduleIsBounded(Do(s, run[0]), run[1..]);
    }
  }

  /** And until the end there is always a next step. */
  lemma NeverStuck<A>(s: State<A>)
    requires Inv(s) && !s.caller.Over?
    ensures exists a :: a != Remove && Enabled(s, a)
  {
    if AllFinished(s.workers) {
      var a := match s.caller
        case Joining => Join(false, false)
        case Closing(_, _) => CallerAccess(false)
        case Replacing(_, _) => CallerRename(true);
      assert Enabled(s, a);
    } else {
      var w :| 0 <= w < |s.workers| && !s.workers[w].Finished?;
      var a := match s.workers[w]
        case Ready => Claim(w)
        case Predicting(_) => Settle(w)
        case Checking(_) => Access(w, false)
        case Writing(_) => Rename(w, true);
      assert Enabled(s, a);
    }
  }

  // ------------------------------------------------------------------------------------------
  // The shared variables as an object
  // ------------------------------------------------------------------------------------------

  /** What the workers share, updated in place by the two stretches of code between their awaits. */
  class Board<A> {
    const cases: array<Option<Outcome<A>>>
    var next: nat
    var completed: nat
    var errors: nat
    var correct: nat
    var sample: Option<string>

    constructor (rows: nat)
      ensures View() == Shared(0, 0, 0, 0, None, seq(rows, _ => None)) && fresh(cases)
    {
      cases := new Option<Outcome<A>>[rows](_ => None);
      next, completed, errors, correct, sample := 0, 0, 0, 0, None;
    }

    ghost function View(): Shared<A>
      reads this, cases
    {
      Shared(next, completed, errors, correct, sample, cases[..])
    }

    method Take() returns (i: nat)
      modifies this`next
      ensures i == old(next) && View() == Advance(old(View()))
    {
      i := next;
      next := next + 1;
    }

    method Record(i: nat, o: Outcome<A>)
      requires i < cases.Length
      modifies cases, this`completed, this`errors, this`correct, this`sample
      ensures View() == Count(old(View()), i, o)
    {
      cases[i] := Some(o);
      match o {
        case Answered(_, right) =>
          if right {
            correct := correct + 1;
          }
        case Failed(message) =>
          errors := errors + 1;
          if sample.None? {
            sample := Some(message);
          }
      }
      completed := completed + 1;
    }
  }
}
