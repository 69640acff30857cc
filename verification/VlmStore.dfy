/** Image datasets as JSONL text (src/lib/vlm-schema.ts): what an upload reports and what it stores. */
module VlmStore {
  import opened Wrappers
  import opened Lines
  import opened JsonValues
  import Reals
  import opened VlmSchema

  const BOM := '\U{FEFF}'

  /** The text without a byte order mark in front. */
  function Unmarked(text: string): string { if text != "" && text[0] == BOM then text[1..] else text }

  /** Trimming drops the mark anyway, so removing it changes nothing that is read. */
  lemma MarkIsIdle(text: string)
    ensures Read(Unmarked(text)) == Read(text)
  {
    if text != "" && text[0] == BOM {
      assert "" + [text[0]] == [BOM] + "";
      MarkedLine(text[1..], "");
    }
  }

  lemma {:induction false} MarkedLine(text: string, cur: string)
    ensures NonBlank(SplitFrom(text, [BOM] + cur)) == NonBlank(SplitFrom(text, cur))
    decreases |text|
  {
    if text == "" {
      MarkedTrim(cur);
      assert [cur][1..] == [[BOM] + cur][1..];
    } else if text[0] == '\n' {
      MarkedTrim(DropReturn(cur));
      var rest := SplitFrom(text[1..], "");
      if cur != "" {
        assert ([BOM] + cur)[..|cur|] == [BOM] + cur[..|cur| - 1];
      }
      assert DropReturn([BOM] + cur) == [BOM] + DropReturn(cur);
      assert ([DropReturn(cur)] + rest)[1..] == rest;
      assert ([[BOM] + DropReturn(cur)] + rest)[1..] == rest;
    } else {
      assert [BOM] + cur + [text[0]] == [BOM] + (cur + [text[0]]);
      MarkedLine(text[1..], cur + [text[0]]);
    }
  }

  lemma MarkedTrim(s: string)
    ensures Trim([BOM] + s) == Trim(s)
  {
    assert ([BOM] + s)[1..] == s;
  }

  /** The line holds a row that passes. */
  predicate Keeps(opts: Options, line: string) { opts.parse(line).Some? && RowOk(opts, opts.parse(line).value) }

  function LineRefs(opts: Options, line: string): set<Ref> {
    if opts.parse(line).Some? then RowRefs(opts, opts.parse(line).value) else {}
  }

  function LinesRefs(opts: Options, lines: seq<string>): set<Ref> {
    if lines == [] then {} else LineRefs(opts, lines[0]) + LinesRefs(opts, lines[1..])
  }

  function Valid(opts: Options, lines: seq<string>): seq<string> { Filter(line => Keeps(opts, line), lines) }

  datatype Problem = Problem(line: nat, why: Option<Reason>)

  datatype Report = Report(total: nat, valid: nat, invalid: nat, invalidRatio: real, problems: seq<Problem>,
                           referenced: set<string>, missing: set<string>, external: set<string>)

  /** The line holds something, and it does not pass. */
  predicate BadAt(opts: Options, lines: seq<string>, k: int) {
    0 <= k < |lines| && Trim(lines[k]) != "" && !Keeps(opts, Trim(lines[k]))
  }

  predicate IsListed(problems: seq<Problem>, line: int) { exists i :: 0 <= i < |problems| && problems[i].line == line }

  /** Every bad one of the first `n` lines is listed. */
  predicate NoneMissing(opts: Options, lines: seq<string>, n: int, problems: seq<Problem>) {
    forall k :: 0 <= k < n && BadAt(opts, lines, k) ==> IsListed(problems, k + 1)
  }

  predicate AllBad(opts: Options, lines: seq<string>, problems: seq<Problem>) {
    forall i :: 0 <= i < |problems| ==> BadAt(opts, lines, problems[i].line - 1)
  }

  predicate InOrder(problems: seq<Problem>) { forall i, j :: 0 <= i < j < |problems| ==> problems[i].line < problems[j].line }

  /** Bad lines are listed, in their order, and none before the last of them is left out. */
  predicate BadLines(opts: Options, lines: seq<string>, problems: seq<Problem>) {
    && AllBad(opts, lines, problems) && InOrder(problems)
    && (problems != [] ==> NoneMissing(opts, lines, problems[|problems| - 1].line, problems))
  }

  /** The share `part` is of `total`, 0 of nothing. */
  predicate IsRatio(ratio: real, part: nat, total: nat) {
    if total == 0 then ratio == 0.0 else ratio * total as real == part as real
  }

  /** What `validateVlmJsonl` reports; the ratio is what the invalid rows are of all. */
  predicate IsReport(opts: Options, text: string, r: Report) {
    ReportsOn(opts, Read(text), SplitLines(Unmarked(text)), r)
  }

  /** `lines` are the non-blank lines of the file, `raw` all of them. */
  predicate ReportsOn(opts: Options, lines: seq<string>, raw: seq<string>, r: Report) {
    && r.total == |lines| && r.valid == |Valid(opts, lines)| && r.invalid == r.total - r.valid
    && IsRatio(r.invalidRatio, r.invalid, r.total)
    && |r.problems| == (if r.invalid < 20 then r.invalid else 20)
    && BadLines(opts, raw, r.problems) && (|r.problems| < MAX_PROBLEMS ==> NoneMissing(opts, raw, |raw|, r.problems))
    && r.referenced == Paths(LinesRefs(opts, lines))
    && r.missing == NotFound(opts, LinesRefs(opts, lines))
    && r.external == Urls(LinesRefs(opts, lines))
  }

  lemma {:induction false} PathsSnoc(opts: Options, lines: seq<string>, line: string)
    ensures LinesRefs(opts, lines + [line]) == LinesRefs(opts, lines) + LineRefs(opts, line)
  {
    if lines == [] {
      assert lines + [line] == [line] && [line][1..] == [];
    } else {
      assert (lines + [line])[1..] == lines[1..] + [line];
      PathsSnoc(opts, lines[1..], line);
    }
  }

  lemma ValidSnoc(opts: Options, lines: seq<string>, line: string)
    ensures Valid(opts, lines + [line]) == Valid(opts, lines) + if Keeps(opts, line) then [line] else []
  {
    FilterAppend(l => Keeps(opts, l), lines, [line]);
    assert [line][1..] == [];
  }

  /** What one more line of the file adds. */
  lemma LineStep(opts: Options, lines: seq<string>, i: nat)
    requires i < |lines|
    ensures var before, after, line := NonBlank(lines[..i]), NonBlank(lines[..i + 1]), Trim(lines[i]);
            if line == "" then after == before
            else
              && after == before + [line]
              && Valid(opts, after) == Valid(opts, before) + (if Keeps(opts, line) then [line] else [])
              && LinesRefs(opts, after) == LinesRefs(opts, before) + LineRefs(opts, line)
  {
    NonBlankStep(lines, i);
    if Trim(lines[i]) != "" {
      ValidSnoc(opts, NonBlank(lines[..i]), Trim(lines[i]));
      PathsSnoc(opts, NonBlank(lines[..i]), Trim(lines[i]));
    }
  }

  lemma MoreAreListed(problems: seq<Problem>, more: Problem, row: int)
    requires IsListed(problems, row) || more.line == row
    ensures IsListed(problems + [more], row)
  {
    var all := problems + [more];
    if more.line == row {
      assert all[|problems|].line == row;
    } else {
      var j :| 0 <= j < |problems| && problems[j].line == row;
      assert all[j].line == row;
    }
  }

  lemma NoneMissingStep(opts: Options, lines: seq<string>, problems: seq<Problem>, more: Problem, i: nat)
    requires NoneMissing(opts, lines, i, problems) && more.line == i + 1
    ensures NoneMissing(opts, lines, i + 1, problems + [more])
  {
    forall k | 0 <= k < i + 1 && BadAt(opts, lines, k)
      ensures IsListed(problems + [more], k + 1)
    {
      MoreAreListed(problems, more, k + 1);
    }
  }

  /** The next bad line is listed too. */
  lemma OneMoreListed(opts: Options, lines: seq<string>, problems: seq<Problem>, more: Problem, i: nat)
    requires i < |lines| && BadLines(opts, lines, problems) && NoneMissing(opts, lines, i, problems)
    requires forall k :: 0 <= k < |problems| ==> problems[k].line <= i
    requires more.line == i + 1 && BadAt(opts, lines, i)
    ensures BadLines(opts, lines, problems + [more]) && NoneMissing(opts, lines, i + 1, problems + [more])
  {
    NoneMissingStep(opts, lines, problems, more, i);
    AllBadStep(opts, lines, problems, more);
    InOrderStep(problems, more);
    assert (problems + [more])[|problems|] == more;
  }

  lemma AllBadStep(opts: Options, lines: seq<string>, problems: seq<Problem>, more: Problem)
    requires AllBad(opts, lines, problems) && BadAt(opts, lines, more.line - 1)
    ensures AllBad(opts, lines, problems + [more])
  {
    var all := problems + [more];
    forall i | 0 <= i < |all|
      ensures BadAt(opts, lines, all[i].line - 1)
    {
      if i < |problems| {
        assert all[i] == problems[i];
      } else {
        assert all[i] == more;
      }
    }
  }

  lemma InOrderStep(problems: seq<Problem>, more: Problem)
    requires InOrder(problems) && forall k :: 0 <= k < |problems| ==> problems[k].line < more.line
    ensures InOrder(problems + [more])
  {
  }

  /** The report while it is being made. */
  datatype Running = Running(total: nat, valid: nat, invalid: nat, problems: seq<Problem>, refs: set<Ref>)

  predicate Counts(opts: Options, read: seq<string>, s: Running) {
    && s.total == |read| == s.valid + s.invalid
    && s.valid == |Valid(opts, read)|
    && s.refs == LinesRefs(opts, read)
  }

  predicate Lists(opts: Options, lines: seq<string>, i: nat, s: Running) {
    && |s.problems| == (if s.invalid < MAX_PROBLEMS then s.invalid else MAX_PROBLEMS)
    && BadLines(opts, lines, s.problems)
    && (forall k :: 0 <= k < |s.problems| ==> s.problems[k].line <= i)
    && (|s.problems| < MAX_PROBLEMS ==> NoneMissing(opts, lines, i, s.problems))
  }

  /** A line that is not bad leaves the list as it is. */
  lemma ListStays(opts: Options, lines: seq<string>, i: nat, s: Running)
    requires i < |lines| && Lists(opts, lines, i, s) && !BadAt(opts, lines, i)
    ensures Lists(opts, lines, i + 1, s)
  {
  }

  /** A bad line joins the list while there is room. */
  function Listing(s: Running, i: nat, why: Option<Reason>): Running {
    s.(invalid := s.invalid + 1,
       problems := if |s.problems| < MAX_PROBLEMS then s.problems + [Problem(i + 1, why)] else s.problems)
  }

  lemma ListGrows(opts: Options, lines: seq<string>, i: nat, s: Running, why: Option<Reason>)
    requires i < |lines| && Lists(opts, lines, i, s) && BadAt(opts, lines, i)
    ensures Lists(opts, lines, i + 1, Listing(s, i, why))
  {
    if |s.problems| < MAX_PROBLEMS { OneMoreListed(opts, lines, s.problems, Problem(i + 1, why), i); }
  }

  /** What `validateVlmJsonl` does with one line of the file. */
  method TakeLine(opts: Options, lines: seq<string>, i: nat, s: Running) returns (next: Running)
    requires i < |lines| && Counts(opts, NonBlank(lines[..i]), s) && Lists(opts, lines, i, s)
    ensures Counts(opts, NonBlank(lines[..i + 1]), next) && Lists(opts, lines, i + 1, next)
  {
    LineStep(opts, lines, i);
    var line := Trim(lines[i]);
    if line == "" {
      ListStays(opts, lines, i, s);
      return s;
    }
    var row := opts.parse(line);
    var why: Option<Reason>, refs: set<Ref> := None, {};
    if row.Some? { why, refs := CheckRow(opts, row.value); }
    next := s.(total := s.total + 1, refs := s.refs + refs);
    if row.Some? && why.None? {
      ListStays(opts, lines, i, next);
      return next.(valid := next.valid + 1);
    }
    ListGrows(opts, lines, i, next, why);
    next := next.(invalid := next.invalid + 1);
    if |next.problems| < MAX_PROBLEMS { next := next.(problems := next.problems + [Problem(i + 1, why)]); }
  }

  /** `validateVlmJsonl`. */
  method ValidateVlmJsonl(opts: Options, text: string) returns (r: Report)
    ensures IsReport(opts, text, r)
  {
    MarkIsIdle(text);
    var lines := SplitLines(Unmarked(text));
    var s := Running(0, 0, 0, [], {});
    for i := 0 to |lines|
      invariant Counts(opts, NonBlank(lines[..i]), s) && Lists(opts, lines, i, s)
    {
      s := TakeLine(opts, lines, i, s);
    }
    assert lines[..|lines|] == lines;
    r := Finished(opts, s);
    FinishedReports(opts, Read(text), lines, s);
  }

  function Ratio(invalid: nat, total: nat): (r: real)
    ensures IsRatio(r, invalid, total)
  {
    if total > 0 then invalid as real / total as real else 0.0
  }

  function Finished(opts: Options, s: Running): Report {
    Report(s.total, s.valid, s.invalid, Ratio(s.invalid, s.total), s.problems, Paths(s.refs),
           NotFound(opts, s.refs), Urls(s.refs))
  }

  lemma FinishedReports(opts: Options, lines: seq<string>, raw: seq<string>, s: Running)
    requires Counts(opts, lines, s) && Lists(opts, raw, |raw|, s)
    ensures ReportsOn(opts, lines, raw, Finished(opts, s))
  {
  }

  /** `validVlmLines`: the lines that pass, exactly as written. */
  method ValidVlmLines(opts: Options, text: string) returns (stored: string)
    ensures stored == Join(Valid(opts, Read(text)))
  {
    MarkIsIdle(text);
    var lines := SplitLines(Unmarked(text));
    var kept: seq<string> := [];
    for i := 0 to |lines|
      invariant kept == Valid(opts, NonBlank(lines[..i]))
    {
      LineStep(opts, lines, i);
      var line := Trim(lines[i]);
      if line == "" { continue; }
      var row := opts.parse(line);
      if row.None? { continue; }
      var why, refs := CheckRow(opts, row.value);
      if why.None? { kept := kept + [line]; }
    }
    assert lines[..|lines|] == lines;
    stored := Join(kept);
  }

  // ------------------------------------------------------------------------------------------
  // What is stored is valid
  // ------------------------------------------------------------------------------------------

  lemma {:induction false} ValidLinesHaveTheirImages(opts: Options, lines: seq<string>)
    ensures NotFound(opts, LinesRefs(opts, Valid(opts, lines))) == {}
    ensures LinesRefs(opts, Valid(opts, lines)) <= LinesRefs(opts, lines)
  {
    if lines != [] {
      ValidLinesHaveTheirImages(opts, lines[1..]);
      var kept := Valid(opts, lines[1..]);
      if Keeps(opts, lines[0]) {
        OkRowHasItsImages(opts, opts.parse(lines[0]).value);
        assert ([lines[0]] + kept)[1..] == kept;
        assert Valid(opts, lines) == [lines[0]] + kept;
      } else {
        assert Valid(opts, lines) == [] + kept == kept;
      }
    }
  }

  /**
   * The stored text has exactly the rows the upload reported as valid: validating it again finds no invalid
   * row, no missing image, and no image or URL that was not referenced before.
   */
  lemma StoredIsValid(opts: Options, text: string, before: Report, after: Report)
    requires IsReport(opts, text, before) && IsReport(opts, Join(Valid(opts, Read(text))), after)
    ensures after.total == after.valid == before.valid
    ensures after.invalid == 0 && after.problems == [] && after.missing == {}
    ensures after.referenced <= before.referenced && after.external <= before.external
    ensures Valid(opts, Read(Join(Valid(opts, Read(text))))) == Valid(opts, Read(text))
  {
    FilterTwice(l => Keeps(opts, l), text);
    ValidLinesHaveTheirImages(opts, Read(text));
  }

  datatype DatasetProblem = EmptyFile | TooFewRows | TooManyInvalid

  /** `vlmDatasetProblem`. */
  function DatasetProblemOf(r: Report, minRows: nat): Option<DatasetProblem> {
    if r.total == 0 then Some(EmptyFile)
    else if r.valid < minRows then Some(TooFewRows)
    else if r.invalidRatio > VLM_MAX_INVALID_FRACTION then Some(TooManyInvalid)
    else None
  }

  lemma OverFiftieth(ratio: real, invalid: nat, total: nat)
    requires total > 0 && IsRatio(ratio, invalid, total)
    ensures ratio > VLM_MAX_INVALID_FRACTION <==> 50 * invalid > total
  {
    Reals.TimesMonotone(0.02, ratio, total as real);
  }

  /** A report has no problem exactly with some row, enough valid ones, and at most one invalid row in fifty. */
  lemma NoProblemIff(r: Report, minRows: nat)
    requires IsRatio(r.invalidRatio, r.invalid, r.total)
    ensures DatasetProblemOf(r, minRows).None? <==> r.total > 0 && r.valid >= minRows && 50 * r.invalid <= r.total
    ensures DatasetProblemOf(r, minRows) == Some(TooManyInvalid) <==> r.total > 0 && r.valid >= minRows && 50 * r.invalid > r.total
    ensures DatasetProblemOf(r, minRows) == Some(EmptyFile) <==> r.total == 0
  {
    if r.total > 0 { OverFiftieth(r.invalidRatio, r.invalid, r.total); }
  }

  /** A dataset that was usable when uploaded is usable as stored. */
  lemma StoredStaysUsable(opts: Options, text: string, minRows: nat, before: Report, after: Report)
    requires IsReport(opts, text, before) && IsReport(opts, Join(Valid(opts, Read(text))), after)
    requires DatasetProblemOf(before, minRows).None?
    ensures DatasetProblemOf(after, minRows).None?
  {
    StoredIsValid(opts, text, before, after);
    UsableHasRows(before, minRows);
    AllValidIsUsable(after, minRows);
  }

  lemma AllValidIsUsable(r: Report, minRows: nat)
    requires IsRatio(r.invalidRatio, r.invalid, r.total) && r.invalid == 0 && r.total == r.valid > 0 && r.valid >= minRows
    ensures DatasetProblemOf(r, minRows).None?
  {
    NoPartNoRatio(r.invalidRatio, r.total);
  }

  lemma UsableHasRows(r: Report, minRows: nat)
    requires r.invalid == r.total - r.valid && IsRatio(r.invalidRatio, r.invalid, r.total)
    requires DatasetProblemOf(r, minRows).None?
    ensures r.valid > 0 && r.valid >= minRows
  {
    if r.valid == 0 { WholeIsOne(r.invalidRatio, r.total); }
  }

  lemma WholeIsOne(ratio: real, total: nat)
    requires total > 0 && IsRatio(ratio, total, total)
    ensures ratio == 1.0
  {
  }

  lemma NoPartNoRatio(ratio: real, total: nat)
    requires IsRatio(ratio, 0, total)
    ensures ratio == 0.0
  {
  }
}
