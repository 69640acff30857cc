/**
 * From an accepted upload to the training job: the job re-checks what was stored
 * (trainers/unsloth-decision-train/decision_schema.py `validate_rows`, train.py `_checked_rows`).
 */
module DecisionTraining {
  import opened Wrappers
  import opened Lines
  import opened JsonValues
  import opened DecisionSchema
  import opened DecisionStore
  import opened DecisionSchemaTwin
  import opened TwinUsual

  const MIN_ROWS := 20

  /** A line that is not JSON stays in as a value that is no object. */
  function PyRow(py: PyHost, line: string): Json {
    var v := py.parse(line);
    if v.None? then Str(line) else v.value
  }

  function PyRows(py: PyHost, lines: seq<string>): seq<Json> {
    if lines == [] then [] else [PyRow(py, lines[0])] + PyRows(py, lines[1..])
  }

  /** What a row adds to the valid ones. */
  function PyKept(py: PyHost, row: Json): seq<Json> {
    if PyValidRow(py, PyNormalize(py, row)) then [PyNormalize(py, row)] else []
  }

  function Gather(rows: seq<Json>, kept: Json -> seq<Json>): seq<Json> {
    if rows == [] then [] else kept(rows[0]) + Gather(rows[1..], kept)
  }

  function PyValidRows(py: PyHost, rows: seq<Json>): seq<Json> { Gather(rows, row => PyKept(py, row)) }

  lemma {:induction false} GatherSnoc(rows: seq<Json>, row: Json, kept: Json -> seq<Json>)
    ensures Gather(rows + [row], kept) == Gather(rows, kept) + kept(row)
  {
    if rows == [] {
      assert rows + [row] == [row] && [row][1..] == [];
    } else {
      assert (rows + [row])[1..] == rows[1..] + [row];
      GatherSnoc(rows[1..], row, kept);
    }
  }

  lemma PyValidSnoc(py: PyHost, rows: seq<Json>, row: Json)
    ensures PyValidRows(py, rows + [row]) == PyValidRows(py, rows) + PyKept(py, row)
  {
    GatherSnoc(rows, row, r => PyKept(py, r));
  }

  // ------------------------------------------------------------------------------------------
  // The report of the job
  // ------------------------------------------------------------------------------------------

  /** The first key with the highest number: `max(probs, key=...)`. */
  function PyBestKey(py: PyHost, probabilities: seq<Member>, best: Member): string {
    if probabilities == [] then best.name
    else
      var mine, top := PyNumber(py, probabilities[0].value), PyNumber(py, best.value);
      PyBestKey(py, probabilities[1..], if mine.Finite? && top.Finite? && mine.n > top.n then probabilities[0] else best)
  }

  /** Both sides take the same key of probabilities that are plain numbers. */
  lemma {:induction false} BestKeysAgree(js: JsHost, py: PyHost, probabilities: seq<Member>, best: Member)
    requires best.value.Num? && forall i :: 0 <= i < |probabilities| ==> probabilities[i].value.Num?
    ensures PyBestKey(py, probabilities, best) == BestKey(js, probabilities, best)
    decreases |probabilities|
  {
    if probabilities != [] {
      var next := if probabilities[0].value.n > best.value.n then probabilities[0] else best;
      BestKeysAgree(js, py, probabilities[1..], next);
    }
  }

  /** What `str` makes of the label a gold value is counted under. */
  function PyLabelKey(py: PyHost, gold: Json): string {
    var named := if gold.Obj? then Field(gold, "label") else Some(gold);
    var probabilities := Field(gold, "probabilities");
    if !Absent(named) then py.text(named.value)
    else if IsObj(probabilities) && probabilities.value.members != []
    then PyBestKey(py, probabilities.value.members[1..], probabilities.value.members[0])
    else "None"
  }

  function PyKeys(py: PyHost): Keying {
    (gold: seq<Member>, name: string) =>
      var g := Get(gold, name);
      if g.None? then None else Some(PyLabelKey(py, g.value))
  }

  /** The summary for the job's log; `most_common` orders as the upload does, and `__proto__` is a key like any other. */
  function PyShown(table: seq<Summary>): seq<Summary> {
    if table == [] then [] else [table[0].(labels := MostCommon(table[0].labels))] + PyShown(table[1..])
  }

  /** The numbers of the invalid rows. */
  function PyBadRows(py: PyHost, rows: seq<Json>): seq<nat> {
    if rows == [] then []
    else PyBadRows(py, rows[..|rows| - 1]) + if PyKept(py, rows[|rows| - 1]) == [] then [|rows|] else []
  }

  function UpTo(rows: seq<nat>, max: nat): seq<nat> { if |rows| <= max then rows else rows[..max] }

  lemma UpToSnoc(rows: seq<nat>, row: nat, max: nat)
    ensures UpTo(rows + [row], max) == if |UpTo(rows, max)| < max then UpTo(rows, max) + [row] else UpTo(rows, max)
  {
    if |rows| >= max { assert (rows + [row])[..max] == rows[..max]; }
  }

  /** What one more row adds. */
  lemma RowStep(py: PyHost, rows: seq<Json>, i: nat)
    requires i < |rows|
    ensures var valid, bad, kept := PyValidRows(py, rows[..i]), PyBadRows(py, rows[..i]), PyKept(py, rows[i]);
            && PyValidRows(py, rows[..i + 1]) == (if kept == [] then valid else valid + kept)
            && PyBadRows(py, rows[..i + 1]) == (if kept == [] then bad + [i + 1] else bad)
  {
    assert rows[..i + 1] == rows[..i] + [rows[i]] && rows[..i + 1][..i] == rows[..i];
    PyValidSnoc(py, rows[..i], rows[i]);
    NothingMore(PyValidRows(py, rows[..i]), PyBadRows(py, rows[..i]));
  }

  lemma NothingMore(valid: seq<Json>, bad: seq<nat>)
    ensures valid + [] == valid && bad + [] == bad
  {
  }

  /** One row, normalised, and whether the job keeps it. */
  method JudgeRow(py: PyHost, raw: Json) returns (row: Json, keeps: bool)
    ensures PyKept(py, raw) == if keeps then [row] else []
  {
    row := PyNormalize(py, raw);
    var problems := ValidateRow(py, row);
    keeps := problems == [];
  }

  /**
   * What `validate_rows` has after some rows: the valid ones, how many are not, the numbers of the first, and the table.
   */
  datatype Judged = Judged(valid: seq<Json>, invalid: nat, described: seq<nat>, table: seq<Summary>)

  predicate IsJudged(py: PyHost, rows: seq<Json>, maxReport: nat, j: Judged) {
    && j.valid == PyValidRows(py, rows) && |j.valid| + j.invalid == |rows|
    && j.described == UpTo(PyBadRows(py, rows), maxReport) && j.invalid == |PyBadRows(py, rows)|
    && j.table == Table(PyKeys(py), j.valid)
  }

  /** One more row of the loop. */
  method TakeRow(py: PyHost, rows: seq<Json>, i: nat, maxReport: nat, j: Judged) returns (next: Judged)
    requires i < |rows| && IsJudged(py, rows[..i], maxReport, j)
    ensures IsJudged(py, rows[..i + 1], maxReport, next)
  {
    var row, keeps := JudgeRow(py, rows[i]);
    if keeps {
      JudgedMore(py, rows, i, maxReport, j, row);
      return j.(valid := j.valid + [row], table := TallyRow(PyKeys(py), j.table, row));
    }
    JudgedBad(py, rows, i, maxReport, j);
    next := j.(invalid := j.invalid + 1);
    if |j.described| < maxReport { next := next.(described := j.described + [i + 1]); }
  }

  lemma JudgedMore(py: PyHost, rows: seq<Json>, i: nat, maxReport: nat, j: Judged, row: Json)
    requires i < |rows| && IsJudged(py, rows[..i], maxReport, j) && PyKept(py, rows[i]) == [row]
    ensures IsJudged(py, rows[..i + 1], maxReport,
                     j.(valid := j.valid + [row], table := TallyRow(PyKeys(py), j.table, row)))
  {
    RowStep(py, rows, i);
    TableSnoc(PyKeys(py), j.valid, row);
  }

  lemma JudgedBad(py: PyHost, rows: seq<Json>, i: nat, maxReport: nat, j: Judged)
    requires i < |rows| && IsJudged(py, rows[..i], maxReport, j) && PyKept(py, rows[i]) == []
    ensures IsJudged(py, rows[..i + 1], maxReport,
                     j.(invalid := j.invalid + 1,
                        described := if |j.described| < maxReport then j.described + [i + 1] else j.described))
  {
    RowStep(py, rows, i);
    UpToSnoc(PyBadRows(py, rows[..i]), i + 1, maxReport);
  }

  /** `validate_rows`: the valid rows, how many are not, the numbers of the first of these, and the summary. */
  method ValidateRows(py: PyHost, rows: seq<Json>, maxReport: nat)
    returns (valid: seq<Json>, invalid: nat, described: seq<nat>, questions: seq<Summary>)
    ensures valid == PyValidRows(py, rows) && |valid| + invalid == |rows|
    ensures described == UpTo(PyBadRows(py, rows), maxReport) && invalid == |PyBadRows(py, rows)|
    ensures questions == PyShown(Table(PyKeys(py), valid))
  {
    var j := Judged([], 0, [], []);
    for i := 0 to |rows|
      invariant IsJudged(py, rows[..i], maxReport, j)
    {
      j := TakeRow(py, rows, i, maxReport, j);
    }
    assert rows[..|rows|] == rows;
    valid, invalid, described, questions := j.valid, j.invalid, j.described, PyShown(j.table);
  }

  /** More than 2% of the rows are invalid. */
  predicate TooMany(total: nat, invalid: int) {
    total > 0 && invalid as real / total as real > DecisionStore.MAX_INVALID_FRACTION
  }

  lemma TooManyIff(total: nat, invalid: nat)
    ensures TooMany(total, invalid) <==> total > 0 && 50 * invalid > total
  {
    if total > 0 { OverFiftieth(total, invalid); }
  }

  /** The job goes on: at most one row in fifty is invalid, and at least twenty are valid. */
  predicate JobGoesOn(py: PyHost, rows: seq<Json>) {
    var valid := |PyValidRows(py, rows)|;
    50 * (|rows| - valid) <= |rows| && valid >= 20
  }

  /** The rows the job trains on; none when it fails. */
  function JobRows(py: PyHost, rows: seq<Json>): Option<seq<Json>> {
    if JobGoesOn(py, rows) then Some(PyValidRows(py, rows)) else None
  }

  /** `_checked_rows`, and the floor the job applies to what it returns; none when the job fails. */
  method CheckedRows(py: PyHost, rows: seq<Json>) returns (r: Option<seq<Json>>)
    ensures r.Some? <==> JobGoesOn(py, rows)
    ensures r.Some? ==> r.value == PyValidRows(py, rows)
  {
    var valid, invalid, described, questions := ValidateRows(py, rows, 10);
    TooManyIff(|rows|, invalid);
    if TooMany(|rows|, invalid) || |valid| < MIN_ROWS { return None; }
    r := Some(valid);
  }

  /** Python reads the stored text of an object that was read as that object. */
  ghost predicate PyReads(js: JsHost, py: PyHost) {
    forall line :: RowOf(js, line).Some? && RowOf(js, line).value.Obj? ==>
      py.parse(js.stringify(RowOf(js, line).value)) == Some(RowOf(js, line).value)
  }

  /** The rows on which the two checks agree. */
  function Meeting(js: JsHost, py: PyHost, rows: seq<Json>): seq<Json> {
    Gather(rows, row => if PartsMeet(js, py, row) then [row] else [])
  }

  predicate AllMeet(js: JsHost, py: PyHost, rows: seq<Json>) {
    forall i :: 0 <= i < |rows| ==> PartsMeet(js, py, rows[i])
  }

  /** The job normalises a stored row to itself. */
  lemma PyKeepsStored(js: JsHost, py: PyHost, row: Json)
    requires ValidRow(js, row) && Normalize(js, row) == row
    ensures PyNormalize(py, row) == row
  {
    NormalizedFields(js, row);
    var state, questions, gold := Field(row, "state"), Field(row, "questions"), Field(row, "gold");
    assert Put("state", state) + Put("questions", questions) + Put("gold", gold)
           == [Member("state", state.value), Member("questions", questions.value), Member("gold", gold.value)];
  }

  /** The job keeps a stored row exactly when its parts meet. */
  lemma JobKeepsRowIff(js: JsHost, py: PyHost, row: Json)
    requires HostsWrite(js, py) && HostsRead(js, py) && ValidRow(js, row) && Normalize(js, row) == row
    ensures PyKept(py, row) == if PartsMeet(js, py, row) then [row] else []
  {
    PyKeepsStored(js, py, row);
    TwinsAgreeIff(js, py, row);
  }

  lemma {:induction false} GatherSame(rows: seq<Json>, a: Json -> seq<Json>, b: Json -> seq<Json>)
    requires forall i :: 0 <= i < |rows| ==> a(rows[i]) == b(rows[i])
    ensures Gather(rows, a) == Gather(rows, b)
  {
    if rows != [] { GatherSame(rows[1..], a, b); }
  }

  /** Filtering keeps everything exactly when every row passes. */
  lemma {:induction false} MeetingAll(js: JsHost, py: PyHost, rows: seq<Json>)
    ensures |Meeting(js, py, rows)| <= |rows|
    ensures Meeting(js, py, rows) == rows <==> AllMeet(js, py, rows)
  {
    if rows != [] {
      MeetingAll(js, py, rows[1..]);
      assert rows == [rows[0]] + rows[1..];
      if PartsMeet(js, py, rows[0]) {
        assert ([rows[0]] + Meeting(js, py, rows[1..]))[1..] == Meeting(js, py, rows[1..]);
        assert Meeting(js, py, rows) == [rows[0]] + Meeting(js, py, rows[1..]);
      } else {
        assert Meeting(js, py, rows) == [] + Meeting(js, py, rows[1..]) == Meeting(js, py, rows[1..]);
      }
    }
  }

  lemma {:induction false} JobReadsAll(js: JsHost, py: PyHost, rows: seq<Json>)
    requires PyReads(js, py) && AllValid(js, rows)
    ensures PyRows(py, Printed(js, rows)) == rows
  {
    if rows != [] {
      JobReadsAll(js, py, rows[1..]);
      assert Printed(js, rows)[1..] == Printed(js, rows[1..]);
      assert IsRead(js, rows[0]);
    }
  }

  lemma JobKeepsMeeting(js: JsHost, py: PyHost, rows: seq<Json>)
    requires HostsWrite(js, py) && HostsRead(js, py) && PyReads(js, py) && AllValid(js, rows)
    ensures PyValidRows(py, PyRows(py, Printed(js, rows))) == Meeting(js, py, rows)
  {
    JobReadsAll(js, py, rows);
    forall i | 0 <= i < |rows|
      ensures PyKept(py, rows[i]) == if PartsMeet(js, py, rows[i]) then [rows[i]] else []
    {
      JobKeepsRowIff(js, py, rows[i]);
    }
    GatherSame(rows, row => PyKept(py, row), row => if PartsMeet(js, py, row) then [row] else []);
  }

  /** What the job makes of the stored text: it reads the valid rows back, and keeps those whose parts meet. */
  lemma JobReadsStored(js: JsHost, py: PyHost, text: string)
    requires RoundTrips(js) && HostsWrite(js, py) && HostsRead(js, py) && PyReads(js, py)
    ensures var valid := ValidRows(js, Read(text));
            var rows := PyRows(py, Read(Stored(js, text)));
            PyValidRows(py, rows) == Meeting(js, py, valid) && |rows| == |valid|
  {
    var valid := ValidRows(js, Read(text));
    StoredRows(js, text);
    ValidRowsAreValid(js, Read(text));
    JobKeepsMeeting(js, py, valid);
    PrintedLength(js, valid);
    PyRowsLength(py, Printed(js, valid));
  }

  /**
   * A dataset the upload accepts reaches the job with all of its valid rows. The job keeps exactly those whose
   * parts meet: all of them if and only if every row's do. It trains on the rows it keeps, if these are at least
   * twenty and leave out at most one in fifty, and fails otherwise; with all of them it trains.
   */
  lemma AcceptedUploadTrains(js: JsHost, py: PyHost, text: string, maxReport: nat, report: Report)
    requires RoundTrips(js) && HostsWrite(js, py) && HostsRead(js, py) && PyReads(js, py)
    requires IsReport(js, text, maxReport, report)
    requires DatasetProblemOf(report, MIN_DECISION_ROWS).None?
    ensures var valid, rows := ValidRows(js, Read(text)), PyRows(py, Read(Stored(js, text)));
            && |rows| == |valid| == report.valid >= MIN_ROWS
            && PyValidRows(py, rows) == Meeting(js, py, valid)
            && (PyValidRows(py, rows) == valid <==> AllMeet(js, py, valid))
            && JobRows(py, rows) == (if 50 * (|valid| - |Meeting(js, py, valid)|) <= |valid| && |Meeting(js, py, valid)| >= 20
                                     then Some(Meeting(js, py, valid)) else None)
            && (AllMeet(js, py, valid) ==> JobRows(py, rows) == Some(valid))
  {
    JobReadsStored(js, py, text);
    MeetingAll(js, py, ValidRows(js, Read(text)));
    ReportedEnough(js, text, maxReport, report);
  }

  predicate AllUsual(rows: seq<Json>) { forall i :: 0 <= i < |rows| ==> IsUsualRow(rows[i]) }

  /** A dataset of usual rows that the upload accepts passes the job's check, and the job keeps every row of it. */
  lemma UsualUploadTrains(js: JsHost, py: PyHost, text: string, maxReport: nat, report: Report)
    requires RoundTrips(js) && PyReads(js, py)
    requires HostsWrite(js, py) && HostsRead(js, py) && HostsReadDecimals(js, py)
    requires IsReport(js, text, maxReport, report) && DatasetProblemOf(report, MIN_DECISION_ROWS).None?
    requires AllUsual(ValidRows(js, Read(text)))
    ensures var rows := PyRows(py, Read(Stored(js, text)));
            JobRows(py, rows) == Some(ValidRows(js, Read(text)))
  {
    var valid := ValidRows(js, Read(text));
    forall i | 0 <= i < |valid|
      ensures PartsMeet(js, py, valid[i])
    {
      UsualRowMeets(js, py, valid[i]);
    }
    AcceptedUploadTrains(js, py, text, maxReport, report);
  }

  lemma ReportedEnough(js: JsHost, text: string, maxReport: nat, report: Report)
    requires IsReport(js, text, maxReport, report) && DatasetProblemOf(report, MIN_DECISION_ROWS).None?
    ensures report.valid == |ValidRows(js, Read(text))| >= MIN_ROWS
  {
    UsableHasRows(report, MIN_DECISION_ROWS);
  }

  lemma {:induction false} PyRowsLength(py: PyHost, lines: seq<string>)
    ensures |PyRows(py, lines)| == |lines|
  {
    if lines != [] { PyRowsLength(py, lines[1..]); }
  }

  // ------------------------------------------------------------------------------------------
  // The hypotheses on the hosts can be met
  // ------------------------------------------------------------------------------------------

  const SMALL_ROW := SmallRow("q", Bool(true))

  /** How a language writes a value out, for strings and booleans. */
  function Written(yes: string, no: string, v: Json): string {
    match v
    case Str(s) => s
    case Bool(b) => if b then yes else no
    case _ => ""
  }

  function SmallParse(line: string): Option<Json> { if line == "{}" then Some(SMALL_ROW) else None }

  /** Plain decimals are read, if only as zero. */
  function SmallNumber(s: string): Reading { if IsDecimal(s) then Finite(0.0) else NotANumber }

  const SMALL_JS := JsHost(v => Written("true", "false", v), SmallNumber, SmallNumber, SmallParse, v => "{}", name => "")
  const SMALL_PY := PyHost(v => Written("True", "False", v), SmallNumber, SmallParse)

  lemma SmallIsNormal(js: JsHost)
    ensures Normalize(js, SMALL_ROW) == SMALL_ROW
  {
    SmallRowFields("q", Bool(true));
    assert Normalize(js, SMALL_ROW).members == SMALL_ROW.members;
  }

  lemma SmallGold()
    ensures GoldProblemOf(SMALL_JS, "noul", ["false", "true"], Bool(true)).None?
  {
    var gold := GoldMembers(Bool(true));
    assert gold[1..] == [];
    assert |"label"| == 5 && |"noul"| == 4 && |"probabilities"| == 13;
    assert SMALL_JS.text(Bool(true)) == "true" && Trim("true") == "true";
    assert "true"[1..] == "rue" && "rue"[1..] == "ue" && "ue"[1..] == "e" && "e"[1..] == "";
    assert Lower("true") == "true";
    var options := ["false", "true"];
    assert options[1] == "true";
  }

  lemma SmallIsValid()
    ensures ValidRow(SMALL_JS, SMALL_ROW)
  {
    SmallGold();
    SmallRowIsValid(SMALL_JS, "q", Bool(true));
  }

  lemma SmallRowOf(line: string)
    ensures RowOf(SMALL_JS, line) == SmallParse(line)
  {
    SmallIsNormal(SMALL_JS);
  }

  lemma SmallReads()
    ensures RoundTrips(SMALL_JS) && PyReads(SMALL_JS, SMALL_PY)
  {
    assert Clean("{}") by { assert Trim("{}") == "{}"; }
    forall line
      ensures RowOf(SMALL_JS, line) == SmallParse(line)
    {
      SmallRowOf(line);
    }
  }

  lemma SmallTrains()
    ensures Trains(SMALL_JS, "{}")
  {
    SmallIsValid();
    SmallRowOf("{}");
  }

  lemma SmallIsUsual()
    ensures IsUsualRow(SMALL_ROW)
  {
    SmallRowFields("q", Bool(true));
    var gold := GoldMembers(Bool(true));
    assert gold[1..] == [];
    assert |"label"| == 5 && |"noul"| == 4 && |"probabilities"| == 13;
    assert Get([Member("q", Bool(true))], "q") == Some(Bool(true));
    var fields := [Member("type", Str("noul"))];
    assert IsUsualGold("noul", ["false", "true"], Bool(true));
    assert "x"[0] == 'x';
  }

  lemma SmallWrite()
    ensures HostsWrite(SMALL_JS, SMALL_PY) && HostsRead(SMALL_JS, SMALL_PY) && HostsReadDecimals(SMALL_JS, SMALL_PY)
  {
  }

  /** Some hosts meet every hypothesis made here, with a line that holds a valid row: the results are not empty. */
  lemma HostsExist()
    ensures RoundTrips(SMALL_JS) && PyReads(SMALL_JS, SMALL_PY) && Trains(SMALL_JS, "{}")
    ensures HostsWrite(SMALL_JS, SMALL_PY) && HostsRead(SMALL_JS, SMALL_PY) && HostsReadDecimals(SMALL_JS, SMALL_PY)
    ensures IsUsualRow(SMALL_ROW)
  {
    SmallIsUsual();
    SmallReads();
    SmallTrains();
    SmallWrite();
  }
}
