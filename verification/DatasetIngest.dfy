/** The CSV reader of dataset uploads (src/lib/dataset-ingest.ts) and the records made of its rows. */
module DatasetIngest {
  import opened Wrappers
  import opened Lines

  // ------------------------------------------------------------------------------------------
  // The automaton
  // ------------------------------------------------------------------------------------------

  type Row = seq<string>

  /** The variables of the scan. */
  datatype Scanner = Scanner(rows: seq<Row>, row: Row, field: string, quoted: bool)

  const START := Scanner([], [], "", false)

  function EndField(s: Scanner): Scanner { s.(row := s.row + [s.field], field := "") }

  function EndRow(s: Scanner): Scanner { Scanner(s.rows + [s.row + [s.field]], [], "", s.quoted) }

  /** The scanner after the whole of `text`. A doubled quote inside quotes takes two characters. */
  function Scan(text: string, s: Scanner): Scanner
    decreases |text|
  {
    if text == "" then s
    else if s.quoted then
      if text[0] == '"' then
        if |text| > 1 && text[1] == '"' then Scan(text[2..], s.(field := s.field + "\""))
        else Scan(text[1..], s.(quoted := false))
      else Scan(text[1..], s.(field := s.field + [text[0]]))
    else if text[0] == '"' then Scan(text[1..], s.(quoted := true))
    else if text[0] == ',' then Scan(text[1..], EndField(s))
    else if text[0] == '\n' then Scan(text[1..], EndRow(s))
    else if text[0] == '\r' then Scan(text[1..], s)
    else Scan(text[1..], s.(field := s.field + [text[0]]))
  }

  predicate Blank(r: Row) { r == [""] }

  function NoBlanks(rows: seq<Row>): seq<Row> {
    if rows == [] then [] else (if Blank(rows[0]) then [] else [rows[0]]) + NoBlanks(rows[1..])
  }

  datatype CsvError = UnterminatedQuote | NoDataRow | EmptyHeader | DuplicateHeader | TooManyColumns(row: nat)

  /** What becomes of the scanner at the end of the text. */
  function Finish(s: Scanner): Result<seq<Row>, CsvError> {
    if s.quoted then Err(UnterminatedQuote)
    else if s.field != "" || s.row != [] then Ok(NoBlanks(s.rows + [s.row + [s.field]]))
    else Ok(NoBlanks(s.rows))
  }

  function Parsed(text: string): Result<seq<Row>, CsvError> { Finish(Scan(text, START)) }

  lemma {:induction false} NoBlanksAppend(a: seq<Row>, b: seq<Row>)
    ensures NoBlanks(a + b) == NoBlanks(a) + NoBlanks(b)
  {
    if a == [] {
      assert a + b == b;
    } else {
      assert (a + b)[1..] == a[1..] + b;
      NoBlanksAppend(a[1..], b);
    }
  }

  /** `parseCsv`. */
  method ParseCsv(text: string) returns (r: Result<seq<Row>, CsvError>)
    ensures r == Parsed(text)
  {
    var rows: seq<Row>, row: Row, field, quoted := [], [], "", false;
    var i := 0;
    while i < |text|
      invariant i <= |text|
      invariant Scan(text[i..], Scanner(rows, row, field, quoted)) == Scan(text, START)
    {
      var c := text[i];
      assert text[i..][0] == c && text[i..][1..] == text[i + 1..];
      assert i + 1 < |text| ==> text[i..][1] == text[i + 1] && text[i..][2..] == text[i + 2..];
      if quoted {
        if c == '"' {
          if i + 1 < |text| && text[i + 1] == '"' {
            field := field + "\"";
            i := i + 1;
          } else {
            quoted := false;
          }
        } else {
          field := field + [c];
        }
      } else if c == '"' {
        quoted := true;
      } else if c == ',' {
        row := row + [field];
        field := "";
      } else if c == '\n' {
        row := row + [field];
        rows := rows + [row];
        row := [];
        field := "";
      } else if c != '\r' {
        field := field + [c];
      }
      i := i + 1;
    }
    assert text[i..] == "";
    if quoted {
      return Err(UnterminatedQuote);
    }
    if field != "" || row != [] {
      row := row + [field];
      rows := rows + [row];
    }
    var kept: seq<Row> := [];
    for k := 0 to |rows|
      invariant kept == NoBlanks(rows[..k])
    {
      assert rows[..k + 1] == rows[..k] + [rows[k]];
      NoBlanksAppend(rows[..k], [rows[k]]);
      if !(|rows[k]| == 1 && rows[k][0] == "") {
        kept := kept + [rows[k]];
      }
    }
    assert rows[..|rows|] == rows;
    r := Ok(kept);
  }

  // ------------------------------------------------------------------------------------------
  // When it throws
  // ------------------------------------------------------------------------------------------

  function Quotes(text: string): nat {
    if text == "" then 0 else Quotes(text[1..]) + (if text[0] == '"' then 1 else 0)
  }

  lemma {:induction false} QuotedIsParity(text: string, s: Scanner)
    ensures Scan(text, s).quoted <==> (Quotes(text) + (if s.quoted then 1 else 0)) % 2 == 1
    decreases |text|
  {
    if text != "" {
      if s.quoted {
        if text[0] == '"' {
          if |text| > 1 && text[1] == '"' {
            QuotedIsParity(text[2..], s.(field := s.field + "\""));
            assert text[1..][1..] == text[2..];
          } else {
            QuotedIsParity(text[1..], s.(quoted := false));
          }
        } else {
          QuotedIsParity(text[1..], s.(field := s.field + [text[0]]));
        }
      } else if text[0] == '"' {
        QuotedIsParity(text[1..], s.(quoted := true));
      } else if text[0] == ',' {
        QuotedIsParity(text[1..], EndField(s));
      } else if text[0] == '\n' {
        QuotedIsParity(text[1..], EndRow(s));
      } else if text[0] == '\r' {
        QuotedIsParity(text[1..], s);
      } else {
        QuotedIsParity(text[1..], s.(field := s.field + [text[0]]));
      }
    }
  }

  /** The reader refuses exactly the texts with an odd number of double quotes. */
  lemma RefusesOddQuotes(text: string)
    ensures Parsed(text).Err? <==> Quotes(text) % 2 == 1
  {
    QuotedIsParity(text, START);
  }

  // ------------------------------------------------------------------------------------------
  // Printing (section 2 of RFC 4180)
  // ------------------------------------------------------------------------------------------

  /** One field and whether it is written in quotes. */
  datatype Cell = Cell(value: string, inQuotes: bool)

  /** One record and whether it ends in CRLF. */
  datatype Record = Record(cells: seq<Cell>, crlf: bool)

  predicate Special(c: char) { c == '"' || c == ',' || c == '\n' || c == '\r' }

  /** Quotes are needed for a value with a special character, and allowed for any. */
  predicate Printable(c: Cell) { !c.inQuotes ==> forall i :: 0 <= i < |c.value| ==> !Special(c.value[i]) }

  function Doubled(s: string): string {
    if s == "" then "" else (if s[0] == '"' then "\"\"" else [s[0]]) + Doubled(s[1..])
  }

  function PrintCell(c: Cell): string { if c.inQuotes then "\"" + Doubled(c.value) + "\"" else c.value }

  function PrintCells(cs: seq<Cell>): string
    requires cs != []
  {
    if |cs| == 1 then PrintCell(cs[0]) else PrintCell(cs[0]) + "," + PrintCells(cs[1..])
  }

  function LineEnd(r: Record): string { if r.crlf then "\r\n" else "\n" }

  predicate PrintableTable(t: seq<Record>) {
    forall i :: 0 <= i < |t| ==>
      t[i].cells != [] && forall k :: 0 <= k < |t[i].cells| ==> Printable(t[i].cells[k])
  }

  /** The last record may go without its line end. */
  function PrintTable(t: seq<Record>, lastEnds: bool): string
    requires PrintableTable(t)
  {
    if t == [] then ""
    else if |t| == 1 && !lastEnds then PrintCells(t[0].cells)
    else PrintCells(t[0].cells) + LineEnd(t[0]) + PrintTable(t[1..], lastEnds)
  }

  function Values(cs: seq<Cell>): Row { seq(|cs|, i requires 0 <= i < |cs| => cs[i].value) }

  function TableOf(t: seq<Record>): seq<Row> { seq(|t|, i requires 0 <= i < |t| => Values(t[i].cells)) }

  lemma {:induction false} ScanPlain(v: string, rest: string, s: Scanner)
    requires !s.quoted && forall i :: 0 <= i < |v| ==> !Special(v[i])
    ensures Scan(v + rest, s) == Scan(rest, s.(field := s.field + v))
    decreases |v|
  {
    if v == "" {
      assert v + rest == rest && s.field + v == s.field;
    } else {
      assert (v + rest)[1..] == v[1..] + rest;
      ScanPlain(v[1..], rest, s.(field := s.field + [v[0]]));
      assert s.field + [v[0]] + v[1..] == s.field + v;
    }
  }

  /** Inside quotes, a doubled value is taken as it is and the closing quote is seen. */
  lemma {:induction false} ScanDoubled(v: string, rest: string, s: Scanner)
    requires s.quoted && (rest != "" ==> rest[0] != '"')
    ensures Scan(Doubled(v) + "\"" + rest, s) == Scan(rest, s.(field := s.field + v, quoted := false))
    decreases |v|
  {
    var text := Doubled(v) + "\"" + rest;
    if v == "" {
      assert text == "\"" + rest && text[1..] == rest && s.field + v == s.field;
    } else {
      var after := Doubled(v[1..]) + "\"" + rest;
      var s' := s.(field := s.field + [v[0]]);
      ScanDoubled(v[1..], rest, s');
      assert s'.field + v[1..] == s.field + v;
      if v[0] == '"' {
        assert text == "\"\"" + after && text[2..] == after;
        assert s.field + "\"" == s'.field;
      } else {
        assert text == [v[0]] + after && text[1..] == after;
      }
    }
  }

  lemma ScanCell(c: Cell, rest: string, s: Scanner)
    requires Printable(c) && !s.quoted && s.field == "" && (rest != "" ==> rest[0] != '"')
    ensures Scan(PrintCell(c) + rest, s) == Scan(rest, s.(field := c.value))
  {
    if c.inQuotes {
      var text := PrintCell(c) + rest;
      assert text == "\"" + (Doubled(c.value) + "\"" + rest);
      assert text[1..] == Doubled(c.value) + "\"" + rest;
      ScanDoubled(c.value, rest, s.(quoted := true));
      assert s.field + c.value == c.value;
    } else {
      ScanPlain(c.value, rest, s);
      assert s.field + c.value == c.value;
    }
  }

  lemma ScanComma(rest: string, s: Scanner)
    requires !s.quoted
    ensures Scan("," + rest, s) == Scan(rest, EndField(s))
  {
    assert ("," + rest)[1..] == rest;
  }

  lemma ScanLineEnd(r: Record, rest: string, s: Scanner)
    requires !s.quoted
    ensures Scan(LineEnd(r) + rest, s) == Scan(rest, EndRow(s))
  {
    assert ("\n" + rest)[1..] == rest;
    assert ("\r\n" + rest)[1..] == "\n" + rest;
  }

  lemma ValuesInit(cs: seq<Cell>)
    requires cs != []
    ensures Values(cs[..|cs| - 1]) + [cs[|cs| - 1].value] == Values(cs)
    ensures |cs| > 1 ==> [cs[0].value] + Values(cs[1..][..|cs| - 2]) == Values(cs[..|cs| - 1])
  {
  }

  lemma ScanFirstCell(c: Cell, tail: string, s: Scanner)
    requires Printable(c) && !s.quoted && s.field == ""
    ensures Scan(PrintCell(c) + ("," + tail), s) == Scan(tail, s.(row := s.row + [c.value]))
  {
    ScanCell(c, "," + tail, s);
    ScanComma(tail, s.(field := c.value));
  }

  /** After the cells of a record, the scanner holds all but the last as fields and the last as text. */
  lemma {:induction false} ScanCells(cs: seq<Cell>, rest: string, s: Scanner)
    requires cs != [] && (forall k :: 0 <= k < |cs| ==> Printable(cs[k]))
    requires !s.quoted && s.field == "" && (rest != "" ==> rest[0] != '"')
    ensures Scan(PrintCells(cs) + rest, s) ==
              Scan(rest, s.(row := s.row + Values(cs[..|cs| - 1]), field := cs[|cs| - 1].value))
    decreases |cs|
  {
    if |cs| == 1 {
      ScanCell(cs[0], rest, s);
      assert s.row + Values(cs[..0]) == s.row;
    } else {
      var tail := PrintCells(cs[1..]) + rest;
      Regroup(PrintCell(cs[0]), ",", PrintCells(cs[1..]), rest);
      ScanFirstCell(cs[0], tail, s);
      ScanCells(cs[1..], rest, s.(row := s.row + [cs[0].value]));
      MoreValues(s.row, cs);
    }
  }

  lemma Regroup(a: string, b: string, c: string, d: string)
    ensures a + b + c + d == a + (b + (c + d))
  {
  }

  lemma MoreValues(row: Row, cs: seq<Cell>)
    requires |cs| > 1
    ensures row + [cs[0].value] + Values(cs[1..][..|cs[1..]| - 1]) == row + Values(cs[..|cs| - 1])
  {
    ValuesInit(cs);
  }

  lemma ScanRecord(r: Record, rest: string, s: Scanner)
    requires r.cells != [] && (forall k :: 0 <= k < |r.cells| ==> Printable(r.cells[k]))
    requires !s.quoted && s.field == "" && s.row == []
    ensures Scan(PrintCells(r.cells) + LineEnd(r) + rest, s) == Scan(rest, s.(rows := s.rows + [Values(r.cells)]))
  {
    var cs := r.cells;
    var tail := LineEnd(r) + rest;
    assert PrintCells(cs) + LineEnd(r) + rest == PrintCells(cs) + tail;
    ScanCells(cs, tail, s);
    var s' := s.(row := Values(cs[..|cs| - 1]), field := cs[|cs| - 1].value);
    assert s.row + Values(cs[..|cs| - 1]) == Values(cs[..|cs| - 1]);
    ValuesInit(cs);
    ScanLineEnd(r, rest, s');
  }

  lemma {:induction false} ScanTable(t: seq<Record>, rest: string, s: Scanner)
    requires PrintableTable(t) && !s.quoted && s.field == "" && s.row == []
    ensures Scan(PrintTable(t, true) + rest, s) == Scan(rest, s.(rows := s.rows + TableOf(t)))
    decreases |t|
  {
    if t == [] {
      assert s.rows + TableOf(t) == s.rows && PrintTable(t, true) + rest == rest;
    } else {
      var s' := s.(rows := s.rows + [Values(t[0].cells)]);
      var tail := PrintTable(t[1..], true) + rest;
      assert PrintTable(t, true) + rest == PrintCells(t[0].cells) + LineEnd(t[0]) + tail;
      ScanRecord(t[0], tail, s);
      ScanTable(t[1..], rest, s');
      assert s'.rows + TableOf(t[1..]) == s.rows + TableOf(t);
    }
  }

  lemma {:induction false} PrintOpen(t: seq<Record>)
    requires t != [] && PrintableTable(t)
    ensures PrintTable(t, false) == PrintTable(t[..|t| - 1], true) + PrintCells(t[|t| - 1].cells)
    decreases |t|
  {
    if |t| > 1 {
      PrintOpen(t[1..]);
      assert t[1..][..|t| - 2] == t[..|t| - 1][1..];
    }
  }

  /** Without the last line end, the last record is still being read when the text ends. */
  lemma ScanOpenTable(t: seq<Record>)
    requires t != [] && PrintableTable(t)
    ensures var cs := t[|t| - 1].cells;
            Scan(PrintTable(t, false), START) ==
              Scanner(TableOf(t[..|t| - 1]), Values(cs[..|cs| - 1]), cs[|cs| - 1].value, false)
  {
    var init, cs := t[..|t| - 1], t[|t| - 1].cells;
    PrintOpen(t);
    ScanTable(init, PrintCells(cs), START);
    assert [] + TableOf(init) == TableOf(init);
    ScanCells(cs, "", START.(rows := TableOf(init)));
    assert PrintCells(cs) + "" == PrintCells(cs);
    assert [] + Values(cs[..|cs| - 1]) == Values(cs[..|cs| - 1]);
  }

  lemma OneRow(r: Row)
    ensures NoBlanks([r]) == if Blank(r) then [] else [r]
  {
    assert [r][1..] == [];
  }

  /** The rows of a table without blank ones: those of all its records but the last, then the last. */
  lemma OpenTableRows(t: seq<Record>)
    requires t != []
    ensures var init, last := TableOf(t[..|t| - 1]), Values(t[|t| - 1].cells);
            NoBlanks(TableOf(t)) == if Blank(last) then NoBlanks(init) else NoBlanks(init) + [last]
  {
    var init, last := TableOf(t[..|t| - 1]), Values(t[|t| - 1].cells);
    assert TableOf(t) == init + [last];
    NoBlanksAppend(init, [last]);
    OneRow(last);
  }

  /** What is left when the last record has no line end: its last cell is still being read. */
  lemma ParseOfOpen(t: seq<Record>, s: Scanner)
    requires t != [] && t[|t| - 1].cells != []
    requires var cs := t[|t| - 1].cells;
             s == Scanner(TableOf(t[..|t| - 1]), Values(cs[..|cs| - 1]), cs[|cs| - 1].value, false)
    ensures Finish(s) == Ok(NoBlanks(TableOf(t)))
  {
    var cs := t[|t| - 1].cells;
    ValuesInit(cs);
    LastCell(cs);
    OpenTableRows(t);
    NoBlanksAppend(s.rows, [Values(cs)]);
    OneRow(Values(cs));
  }

  /**
   * Whatever is quoted beyond need, whichever line ends are used, and with or without the last one:
   * reading a printed table gives its rows back, less the rows that hold a single empty field.
   */
  lemma ParseOfPrint(t: seq<Record>, lastEnds: bool)
    requires PrintableTable(t)
    ensures Parsed(PrintTable(t, lastEnds)) == Ok(NoBlanks(TableOf(t)))
  {
    if t == [] || lastEnds {
      ScanTable(t, "", START);
      assert PrintTable(t, lastEnds) + "" == PrintTable(t, lastEnds);
      assert [] + TableOf(t) == TableOf(t);
    } else {
      ScanOpenTable(t);
      ParseOfOpen(t, Scan(PrintTable(t, false), START));
    }
  }

  /** A record is the single empty field exactly when it has one cell and that one is empty. */
  lemma LastCell(cs: seq<Cell>)
    requires cs != []
    ensures Blank(Values(cs)) <==> |cs| == 1 && cs[|cs| - 1].value == ""
  {
    if |cs| == 1 { assert Values(cs) == [cs[0].value]; }
  }

  lemma {:induction false} NoBlanksIsAllIff(rows: seq<Row>)
    ensures |NoBlanks(rows)| <= |rows|
    ensures |NoBlanks(rows)| == |rows| <==> forall i :: 0 <= i < |rows| ==> !Blank(rows[i])
    ensures |NoBlanks(rows)| == |rows| ==> NoBlanks(rows) == rows
  {
    if rows != [] {
      NoBlanksIsAllIff(rows[1..]);
      assert rows == [rows[0]] + rows[1..];
    }
  }

  /** So a table comes back unchanged exactly when none of its rows is the single empty field. */
  lemma RoundTripIff(t: seq<Record>, lastEnds: bool)
    requires PrintableTable(t)
    ensures Parsed(PrintTable(t, lastEnds)) == Ok(TableOf(t)) <==>
            forall i :: 0 <= i < |t| ==> Values(t[i].cells) != [""]
  {
    ParseOfPrint(t, lastEnds);
    NoBlanksIsAllIff(TableOf(t));
    assert forall i :: 0 <= i < |t| ==> TableOf(t)[i] == Values(t[i].cells);
  }

  // ------------------------------------------------------------------------------------------
  // Records
  // ------------------------------------------------------------------------------------------

  function Trimmed(r: Row): Row { seq(|r|, i requires 0 <= i < |r| => Trim(r[i])) }

  predicate Distinct(r: Row) { forall i, j :: 0 <= i < j < |r| ==> r[i] != r[j] }

  /** `Object.fromEntries(headers.map((h, i) => [h, r[i] ?? ""]))`. */
  function ToObject(headers: Row, r: Row): map<string, string>
    requires Distinct(headers)
  {
    map i | 0 <= i < |headers| :: headers[i] := if i < |r| then r[i] else ""
  }

  /** The first data row wider than the header, or the number of rows. */
  function FirstTooWide(rows: seq<Row>, width: nat): (k: nat)
    ensures k <= |rows| && (forall j :: 0 <= j < k ==> |rows[j]| <= width)
    ensures k < |rows| ==> |rows[k]| > width
  {
    if rows == [] then 0
    else if |rows[0]| > width then 0
    else 1 + FirstTooWide(rows[1..], width)
  }

  /** `csvToJsonl`, with objects in place of their JSON text. Row numbers count the header as row 1. */
  function ToObjects(csv: string): Result<seq<map<string, string>>, CsvError> {
    match Parsed(csv)
    case Err(e) => Err(e)
    case Ok(rows) =>
      if |rows| < 2 then Err(NoDataRow)
      else
        var headers := Trimmed(rows[0]);
        if "" in headers then Err(EmptyHeader)
        else if !Distinct(headers) then Err(DuplicateHeader)
        else
          var data := rows[1..];
          var k := FirstTooWide(data, |headers|);
          if k < |data| then Err(TooManyColumns(k + 2))
          else Ok(seq(|data|, i requires 0 <= i < |data| => ToObject(headers, data[i])))
  }

  /** Some later row is wider than the header, and `n` is the number of the first one, the header being row 1. */
  predicate FirstWiderIs(rows: seq<Row>, n: int) {
    && 2 <= n <= |rows| && |rows[n - 1]| > |rows[0]|
    && forall i :: 1 <= i < n - 1 ==> |rows[i]| <= |rows[0]|
  }

  predicate HasEmptyName(header: Row) { exists c :: 0 <= c < |header| && Trim(header[c]) == "" }

  predicate HasTwins(header: Row) { exists c, d :: 0 <= c < d < |header| && Trim(header[c]) == Trim(header[d]) }

  /** Which tables are refused, and why: the first reason that applies, in this order. */
  lemma RefusedIff(csv: string, rows: seq<Row>)
    requires Parsed(csv) == Ok(rows)
    ensures var r := ToObjects(csv);
            && (r == Err(NoDataRow) <==> |rows| < 2)
            && (r == Err(EmptyHeader) <==> |rows| >= 2 && HasEmptyName(rows[0]))
            && (r == Err(DuplicateHeader) <==> |rows| >= 2 && !HasEmptyName(rows[0]) && HasTwins(rows[0]))
            && (forall n: nat :: r == Err(TooManyColumns(n)) <==>
                  |rows| >= 2 && !HasEmptyName(rows[0]) && !HasTwins(rows[0]) && FirstWiderIs(rows, n))
            && (r.Ok? <==> |rows| >= 2 && !HasEmptyName(rows[0]) && !HasTwins(rows[0])
                           && forall i :: 1 <= i < |rows| ==> |rows[i]| <= |rows[0]|)
  {
    if |rows| >= 2 {
      HeaderIff(rows[0]);
      WidthIff(rows);
    }
  }

  lemma HeaderIff(header: Row)
    ensures "" in Trimmed(header) <==> HasEmptyName(header)
    ensures Distinct(Trimmed(header)) <==> !HasTwins(header)
  {
    var names := Trimmed(header);
    assert forall c :: 0 <= c < |header| ==> names[c] == Trim(header[c]);
  }

  lemma WidthIff(rows: seq<Row>)
    requires |rows| >= 2
    ensures var k := FirstTooWide(rows[1..], |rows[0]|);
            && (forall n :: FirstWiderIs(rows, n) <==> k < |rows| - 1 && n == k + 2)
            && (k == |rows| - 1 <==> forall i :: 1 <= i < |rows| ==> |rows[i]| <= |rows[0]|)
  {
    var data := rows[1..];
    var k := FirstTooWide(data, |rows[0]|);
    assert forall j :: 0 <= j < |data| ==> data[j] == rows[j + 1];
    forall n
      ensures FirstWiderIs(rows, n) <==> k < |rows| - 1 && n == k + 2
    {
      if FirstWiderIs(rows, n) {
        assert |data[n - 2]| > |rows[0]|;
      }
    }
    if k == |data| {
      forall i | 1 <= i < |rows|
        ensures |rows[i]| <= |rows[0]|
      {
        assert data[i - 1] == rows[i];
      }
    }
  }

  /**
   * A printed table with a usable header and no row wider than it becomes one object per data row:
   * every column holds that row's value, or the empty text where the row is short.
   */
  lemma ObjectsOfPrint(t: seq<Record>, lastEnds: bool, k: nat, c: nat)
    requires PrintableTable(t) && |t| >= 2 && k + 1 < |t| && c < |t[0].cells|
    requires forall i :: 0 <= i < |t| ==> Values(t[i].cells) != [""] && |t[i].cells| <= |t[0].cells|
    requires "" !in Trimmed(Values(t[0].cells)) && Distinct(Trimmed(Values(t[0].cells)))
    ensures var r := ToObjects(PrintTable(t, lastEnds));
            && r.Ok? && |r.value| == |t| - 1
            && r.value[k].Keys == (set h | h in Trimmed(Values(t[0].cells)))
            && Trim(t[0].cells[c].value) in r.value[k]
            && r.value[k][Trim(t[0].cells[c].value)] ==
                 (if c < |t[k + 1].cells| then t[k + 1].cells[c].value else "")
  {
    RoundTripIff(t, lastEnds);
    var rows := TableOf(t);
    assert forall i :: 0 <= i < |t| ==> rows[i] == Values(t[i].cells) && |rows[i]| == |t[i].cells|;
    ObjectsOfRows(PrintTable(t, lastEnds), rows, k, c);
    assert rows[0][c] == t[0].cells[c].value;
  }

  lemma ObjectsOfRows(csv: string, rows: seq<Row>, k: nat, c: nat)
    requires Parsed(csv) == Ok(rows) && |rows| >= 2 && k + 1 < |rows| && c < |rows[0]|
    requires forall i :: 0 <= i < |rows| ==> |rows[i]| <= |rows[0]|
    requires "" !in Trimmed(rows[0]) && Distinct(Trimmed(rows[0]))
    ensures var r := ToObjects(csv);
            && r.Ok? && |r.value| == |rows| - 1
            && r.value[k].Keys == (set h | h in Trimmed(rows[0]))
            && Trim(rows[0][c]) in r.value[k]
            && r.value[k][Trim(rows[0][c])] == if c < |rows[k + 1]| then rows[k + 1][c] else ""
  {
    var headers, data := Trimmed(rows[0]), rows[1..];
    assert forall i :: 0 <= i < |data| ==> data[i] == rows[i + 1];
    assert FirstTooWide(data, |headers|) == |data|;
    assert headers[c] == Trim(rows[0][c]);
    KeysOfObject(headers, data[k], c);
  }

  lemma KeysOfObject(headers: Row, r: Row, c: nat)
    requires Distinct(headers) && c < |headers|
    ensures ToObject(headers, r).Keys == (set h | h in headers)
    ensures headers[c] in ToObject(headers, r) && ToObject(headers, r)[headers[c]] == if c < |r| then r[c] else ""
  {
  }
}
