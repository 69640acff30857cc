/**
 * Texts as lines: `split(/\r?\n/)`, `trim()` and `join("\n")`, as the ingest and validation code of
 * src/lib uses them. White space is what JavaScript's `trim` removes.
 */
module Lines {

  predicate IsSpace(c: char) {
    || '\t' <= c <= '\r' || c == ' ' || c == '\U{A0}' || c == '\U{FEFF}' || c == '\U{1680}'
    || '\U{2000}' <= c <= '\U{200A}' || c == '\U{2028}' || c == '\U{2029}' || c == '\U{202F}'
    || c == '\U{205F}' || c == '\U{3000}'
  }

  function TrimStart(s: string): string {
    if s != "" && IsSpace(s[0]) then TrimStart(s[1..]) else s
  }

  function TrimEnd(s: string): string {
    if s != "" && IsSpace(s[|s| - 1]) then TrimEnd(s[..|s| - 1]) else s
  }

  function Trim(s: string): string { TrimEnd(TrimStart(s)) }

  /** Neither end is white space. */
  predicate IsTrimmed(s: string) { s != "" ==> !IsSpace(s[0]) && !IsSpace(s[|s| - 1]) }

  lemma {:induction false} TrimStartShape(s: string)
    ensures TrimStart(s) != "" ==> !IsSpace(TrimStart(s)[0])
    ensures exists k :: 0 <= k <= |s| && TrimStart(s) == s[k..]
  {
    if s != "" && IsSpace(s[0]) {
      TrimStartShape(s[1..]);
      var k :| 0 <= k <= |s[1..]| && TrimStart(s[1..]) == s[1..][k..];
      assert s[1..][k..] == s[k + 1..];
    } else {
      assert s[0..] == s;
    }
  }

  lemma {:induction false} TrimEndShape(s: string)
    ensures TrimEnd(s) != "" ==> !IsSpace(TrimEnd(s)[|TrimEnd(s)| - 1])
    ensures exists k :: 0 <= k <= |s| && TrimEnd(s) == s[..k]
  {
    if s != "" && IsSpace(s[|s| - 1]) {
      TrimEndShape(s[..|s| - 1]);
      var k :| 0 <= k <= |s[..|s| - 1]| && TrimEnd(s[..|s| - 1]) == s[..|s| - 1][..k];
      assert s[..|s| - 1][..k] == s[..k];
    } else {
      assert s[..|s|] == s;
    }
  }

  lemma TrimShape(s: string)
    ensures IsTrimmed(Trim(s))
    ensures exists j, k :: 0 <= j <= k <= |s| && Trim(s) == s[j..k]
  {
    TrimStartShape(s);
    TrimEndShape(TrimStart(s));
    var j :| 0 <= j <= |s| && TrimStart(s) == s[j..];
    var k :| 0 <= k <= |s[j..]| && Trim(s) == s[j..][..k];
    assert s[j..][..k] == s[j..j + k];
  }

  lemma TrimOfTrimmed(s: string)
    requires IsTrimmed(s)
    ensures Trim(s) == s
  {
  }

  function LowerChar(c: char): char {
    if 'A' <= c <= 'Z' then (c as int + 32) as char else c
  }

  /** Lower case of the ASCII letters: enough to compare with a word of ASCII letters. */
  function Lower(s: string): string { if s == "" then "" else [LowerChar(s[0])] + Lower(s[1..]) }

  lemma Assoc(a: string, b: string, c: string)
    ensures a + b + c == a + (b + c)
  {
  }

  // ------------------------------------------------------------------------------------------
  // Splitting and joining
  // ------------------------------------------------------------------------------------------

  /** One carriage return right before the line feed belongs to the separator. */
  function DropReturn(s: string): string {
    if s != "" && s[|s| - 1] == '\r' then s[..|s| - 1] else s
  }

  function SplitFrom(text: string, cur: string): (lines: seq<string>)
    ensures lines != []
    decreases |text|
  {
    if text == "" then [cur]
    else if text[0] == '\n' then [DropReturn(cur)] + SplitFrom(text[1..], "")
    else SplitFrom(text[1..], cur + [text[0]])
  }

  function SplitLines(text: string): seq<string> { SplitFrom(text, "") }

  function Join(lines: seq<string>): string {
    if lines == [] then ""
    else if |lines| == 1 then lines[0]
    else lines[0] + "\n" + Join(lines[1..])
  }

  predicate OneLine(s: string) { forall i :: 0 <= i < |s| ==> s[i] != '\n' }

  lemma {:induction false} SplitIsOneLine(text: string, cur: string)
    requires OneLine(cur)
    ensures forall i :: 0 <= i < |SplitFrom(text, cur)| ==> OneLine(SplitFrom(text, cur)[i])
    decreases |text|
  {
    if text != "" {
      if text[0] == '\n' {
        SplitIsOneLine(text[1..], "");
      } else {
        SplitIsOneLine(text[1..], cur + [text[0]]);
      }
    }
  }

  /** Characters up to the next line feed pile up in the current line. */
  lemma {:induction false} SplitTakes(line: string, rest: string, cur: string)
    requires OneLine(line)
    ensures SplitFrom(line + rest, cur) == SplitFrom(rest, cur + line)
    decreases |line|
  {
    if line == "" {
      assert line + rest == rest && cur + line == cur;
    } else {
      assert (line + rest)[1..] == line[1..] + rest;
      SplitTakes(line[1..], rest, cur + [line[0]]);
      assert cur + [line[0]] + line[1..] == cur + line;
    }
  }

  /** Lines that survive a join: without line feeds, and not ending in a carriage return. */
  predicate Joinable(lines: seq<string>) {
    forall i :: 0 <= i < |lines| ==> OneLine(lines[i]) && DropReturn(lines[i]) == lines[i]
  }

  lemma {:induction false} SplitOfJoin(lines: seq<string>)
    requires lines != [] && Joinable(lines)
    ensures SplitLines(Join(lines)) == lines
  {
    if |lines| == 1 {
      SplitTakes(lines[0], "", "");
      assert lines[0] + "" == lines[0] && "" + lines[0] == lines[0];
    } else {
      var rest := "\n" + Join(lines[1..]);
      SplitTakes(lines[0], rest, "");
      assert Join(lines) == lines[0] + rest;
      assert "" + lines[0] == lines[0];
      assert rest[1..] == Join(lines[1..]);
      SplitOfJoin(lines[1..]);
    }
  }

  // ------------------------------------------------------------------------------------------
  // Non-blank lines
  // ------------------------------------------------------------------------------------------

  /** Each line trimmed, blank ones dropped. */
  function NonBlank(lines: seq<string>): seq<string> {
    if lines == [] then []
    else (if Trim(lines[0]) == "" then [] else [Trim(lines[0])]) + NonBlank(lines[1..])
  }

  lemma {:induction false} NonBlankAppend(a: seq<string>, b: seq<string>)
    ensures NonBlank(a + b) == NonBlank(a) + NonBlank(b)
  {
    if a == [] {
      assert a + b == b;
    } else {
      assert (a + b)[1..] == a[1..] + b;
      NonBlankAppend(a[1..], b);
    }
  }

  /** What one more line of a text adds to what is read. */
  function LineRead(raw: string): seq<string> { if Trim(raw) == "" then [] else [Trim(raw)] }

  lemma NonBlankStep(lines: seq<string>, i: nat)
    requires i < |lines|
    ensures NonBlank(lines[..i + 1]) == NonBlank(lines[..i]) + LineRead(lines[i])
  {
    assert lines[..i + 1] == lines[..i] + [lines[i]];
    NonBlankAppend(lines[..i], [lines[i]]);
    assert [lines[i]][1..] == [];
    assert NonBlank([lines[i]]) == LineRead(lines[i]);
  }

  /** What every line-by-line reader of this code base sees of a text. */
  function Read(text: string): seq<string> { NonBlank(SplitLines(text)) }

  /** A line such a reader hands on. */
  predicate Clean(s: string) { s != "" && IsTrimmed(s) && OneLine(s) }

  predicate AllClean(lines: seq<string>) { forall i :: 0 <= i < |lines| ==> Clean(lines[i]) }

  lemma {:induction false} NonBlankIsClean(lines: seq<string>)
    requires forall i :: 0 <= i < |lines| ==> OneLine(lines[i])
    ensures AllClean(NonBlank(lines))
  {
    if lines != [] {
      NonBlankIsClean(lines[1..]);
      TrimShape(lines[0]);
    }
  }

  lemma ReadIsClean(text: string)
    ensures AllClean(Read(text))
  {
    SplitIsOneLine(text, "");
    NonBlankIsClean(SplitLines(text));
  }

  lemma {:induction false} NonBlankOfClean(lines: seq<string>)
    requires AllClean(lines)
    ensures NonBlank(lines) == lines
  {
    if lines != [] {
      TrimOfTrimmed(lines[0]);
      NonBlankOfClean(lines[1..]);
    }
  }

  /** Reading back lines that were kept and joined gives exactly those lines. */
  lemma ReadOfJoin(lines: seq<string>)
    requires AllClean(lines)
    ensures Read(Join(lines)) == lines
  {
    if lines == [] {
      assert SplitLines("") == [""];
      assert NonBlank([""]) == [] + NonBlank([""][1..]);
    } else {
      SplitOfJoin(lines);
      NonBlankOfClean(lines);
    }
  }

  // ------------------------------------------------------------------------------------------
  // Keeping some lines
  // ------------------------------------------------------------------------------------------

  function Filter(keep: string -> bool, lines: seq<string>): seq<string> {
    if lines == [] then []
    else (if keep(lines[0]) then [lines[0]] else []) + Filter(keep, lines[1..])
  }

  lemma {:induction false} FilterKeeps(keep: string -> bool, lines: seq<string>)
    ensures forall i :: 0 <= i < |Filter(keep, lines)| ==> keep(Filter(keep, lines)[i]) && Filter(keep, lines)[i] in lines
  {
    if lines != [] {
      FilterKeeps(keep, lines[1..]);
    }
  }

  lemma {:induction false} FilterAll(keep: string -> bool, lines: seq<string>)
    requires forall i :: 0 <= i < |lines| ==> keep(lines[i])
    ensures Filter(keep, lines) == lines
  {
    if lines != [] {
      FilterAll(keep, lines[1..]);
    }
  }

  lemma {:induction false} FilterAppend(keep: string -> bool, a: seq<string>, b: seq<string>)
    ensures Filter(keep, a + b) == Filter(keep, a) + Filter(keep, b)
  {
    if a == [] {
      assert a + b == b;
    } else {
      assert (a + b)[1..] == a[1..] + b;
      FilterAppend(keep, a[1..], b);
    }
  }

  lemma FilterIsClean(keep: string -> bool, text: string)
    ensures AllClean(Filter(keep, Read(text)))
  {
    ReadIsClean(text);
    FilterKeeps(keep, Read(text));
  }

  /** Storing the lines a test keeps and filtering again keeps them all. */
  lemma FilterTwice(keep: string -> bool, text: string)
    ensures Read(Join(Filter(keep, Read(text)))) == Filter(keep, Read(text))
    ensures Filter(keep, Read(Join(Filter(keep, Read(text))))) == Filter(keep, Read(text))
  {
    FilterIsClean(keep, text);
    ReadOfJoin(Filter(keep, Read(text)));
    FilterKeeps(keep, Read(text));
    FilterAll(keep, Filter(keep, Read(text)));
  }
}
