/**
 * The output stream between the export sidecar (docker/backend/export-server.py) and the host runner
 * (src/lib/host-runner.ts): lines cut out of chunks, and the trailer that carries the exit code.
 */
module LineProtocol {
  import opened Wrappers
  import opened Lines
  import opened Digits

  // ------------------------------------------------------------------------------------------
  // Lines out of chunks
  // ------------------------------------------------------------------------------------------

  predicate IsBreak(c: char) { c == '\r' || c == '\n' }

  /** The pieces between line breaks; each break character ends a piece. */
  function Pieces(text: string): (ps: seq<string>)
    ensures ps != []
  {
    if text == "" then [""]
    else if IsBreak(text[0]) then [""] + Pieces(text[1..])
    else
      var ps := Pieces(text[1..]);
      [[text[0]] + ps[0]] + ps[1..]
  }

  /** The lines a reader of the whole text delivers: trimmed, without the blank ones. */
  function Delivered(text: string): seq<string> { NonBlank(Pieces(text)) }

  /** Where the first break is; the length of the text when there is none. */
  function FindBreak(s: string): (i: nat)
    ensures i <= |s| && (i < |s| ==> IsBreak(s[i])) && forall j :: 0 <= j < i ==> !IsBreak(s[j])
  {
    if s == "" then 0 else if IsBreak(s[0]) then 0 else 1 + FindBreak(s[1..])
  }

  predicate NoBreak(s: string) { forall i :: 0 <= i < |s| ==> !IsBreak(s[i]) }

  lemma {:induction false} PiecesOfPlain(s: string)
    requires NoBreak(s)
    ensures Pieces(s) == [s]
  {
    if s != "" {
      PiecesOfPlain(s[1..]);
      assert [s[0]] + s[1..] == s;
    }
  }

  lemma PiecesStep(c: char, rest: string)
    ensures Pieces([c] + rest) == Prepend(c, Pieces(rest))
  {
    assert ([c] + rest)[1..] == rest;
  }

  /** A break closes the pieces before it. */
  lemma {:induction false} PiecesAtBreak(a: string, c: char, b: string)
    requires IsBreak(c)
    ensures Pieces(a + [c] + b) == Pieces(a) + Pieces(b)
    decreases |a|
  {
    if a == "" {
      assert a + [c] + b == [c] + b;
      PiecesStep(c, b);
    } else {
      var rest := a[1..];
      assert a + [c] + b == [a[0]] + (rest + [c] + b) && a == [a[0]] + rest;
      PiecesAtBreak(rest, c, b);
      PiecesStep(a[0], rest);
      PiecesStep(a[0], rest + [c] + b);
      PrependAppend(a[0], Pieces(rest), Pieces(b));
    }
  }

  function Prepend(x: char, ps: seq<string>): seq<string>
    requires ps != []
  {
    if IsBreak(x) then [""] + ps else [[x] + ps[0]] + ps[1..]
  }

  lemma PrependAppend(x: char, ps: seq<string>, after: seq<string>)
    requires ps != []
    ensures Prepend(x, ps + after) == Prepend(x, ps) + after
  {
    assert (ps + after)[0] == ps[0] && (ps + after)[1..] == ps[1..] + after;
  }

  lemma NonBlankOne(s: string)
    ensures NonBlank([s]) == if Trim(s) == "" then [] else [Trim(s)]
  {
    assert [s][1..] == [];
  }

  /** What is delivered of a text up to a break and of the rest add up. */
  lemma DeliveredAtBreak(a: string, c: char, b: string)
    requires IsBreak(c)
    ensures Delivered(a + [c] + b) == Delivered(a) + Delivered(b)
  {
    PiecesAtBreak(a, c, b);
    NonBlankAppend(Pieces(a), Pieces(b));
  }

  /** A text whose last line is complete, or no text. */
  predicate Closed(text: string) { text == "" || IsBreak(text[|text| - 1]) }

  lemma DeliveredOfNothing()
    ensures Delivered("") == []
  {
    NonBlankOne("");
  }

  /** After a closed text, the rest is delivered as if it stood alone. */
  lemma DeliveredAfterClosed(a: string, b: string)
    requires Closed(a)
    ensures Delivered(a + b) == Delivered(a) + Delivered(b)
  {
    DeliveredOfNothing();
    if a == "" {
      assert a + b == b;
    } else {
      var init, c := a[..|a| - 1], a[|a| - 1];
      assert init + [c] + b == a + b && init + [c] + "" == a;
      DeliveredAtBreak(init, c, b);
      DeliveredAtBreak(init, c, "");
    }
  }

  lemma DeliveredLine(line: string, c: char)
    requires NoBreak(line) && IsBreak(c)
    ensures Delivered(line + [c]) == if Trim(line) == "" then [] else [Trim(line)]
  {
    assert line + [c] + "" == line + [c];
    DeliveredAtBreak(line, c, "");
    DeliveredOfNothing();
    PiecesOfPlain(line);
    NonBlankOne(line);
  }

  /** Taking the first complete line off the buffer. */
  lemma TakeLine(done: string, buf: string, nl: nat)
    requires Closed(done) && nl < |buf| && IsBreak(buf[nl]) && NoBreak(buf[..nl])
    ensures done + buf[..nl + 1] + buf[nl + 1..] == done + buf
    ensures Closed(done + buf[..nl + 1])
    ensures Delivered(done + buf[..nl + 1]) == Delivered(done) + if Trim(buf[..nl]) == "" then [] else [Trim(buf[..nl])]
  {
    var line, taken := buf[..nl], buf[..nl + 1];
    assert taken == line + [buf[nl]];
    assert taken + buf[nl + 1..] == buf;
    Assoc(done, taken, buf[nl + 1..]);
    DeliveredLine(line, buf[nl]);
    DeliveredAfterClosed(done, taken);
  }

  /** The line loop of `runViaSidecar` and `runHostScriptStream`: a buffer, and the lines handed on. */
  class LineReader {
    var buf: string
    var lines: seq<string>
    ghost var done: string

    constructor ()
      ensures Valid() && Text() == "" && lines == []
    {
      buf, lines, done := "", [], "";
      new;
      DeliveredOfNothing();
    }

    /** All the text received. */
    ghost function Text(): string
      reads this
    {
      done + buf
    }

    /** The buffer holds the text after the last break, and the lines before it were handed on. */
    ghost predicate Valid()
      reads this
    {
      Closed(done) && NoBreak(buf) && lines == Delivered(done)
    }

    /** One chunk of output. */
    method Feed(chunk: string)
      requires Valid()
      modifies this
      ensures Valid() && Text() == old(Text()) + chunk
    {
      buf := buf + chunk;
      assert Text() == old(Text()) + chunk;
      var nl := FindBreak(buf);
      while nl < |buf|
        invariant nl == FindBreak(buf)
        invariant Closed(done) && lines == Delivered(done) && Text() == old(Text()) + chunk
        decreases |buf|
      {
        TakeLine(done, buf, nl);
        var t := Trim(buf[..nl]);
        if t != "" {
          lines := lines + [t];
        }
        done := done + buf[..nl + 1];
        buf := buf[nl + 1..];
        nl := FindBreak(buf);
      }
    }

    /** The end of the output: what is left in the buffer is a line too. */
    method Close()
      requires Valid()
      modifies this`lines
      ensures lines == Delivered(Text())
    {
      DeliveredAfterClosed(done, buf);
      PiecesOfPlain(buf);
      NonBlankOne(buf);
      var t := Trim(buf);
      if t != "" {
        lines := lines + [t];
      }
    }
  }

  function Concat(chunks: seq<string>): string {
    if chunks == [] then "" else Concat(chunks[..|chunks| - 1]) + chunks[|chunks| - 1]
  }

  /** However the output is cut into chunks, the lines handed on are those of the whole text. */
  method ReadChunks(chunks: seq<string>) returns (lines: seq<string>)
    ensures lines == Delivered(Concat(chunks))
  {
    var reader := new LineReader();
    for i := 0 to |chunks|
      invariant fresh(reader) && reader.Valid() && reader.Text() == Concat(chunks[..i])
    {
      assert chunks[..i + 1][..i] == chunks[..i];
      reader.Feed(chunks[i]);
    }
    assert chunks[..|chunks|] == chunks;
    reader.Close();
    lines := reader.lines;
  }

  // ------------------------------------------------------------------------------------------
  // The trailer
  // ------------------------------------------------------------------------------------------

  const TAG := "__RANTAI_EXIT__:"

  /** `/^__RANTAI_EXIT__:(\d+)$/`. */
  predicate IsTrailer(line: string) { |line| > |TAG| && line[..|TAG|] == TAG && AllDigits(line[|TAG|..]) }

  /** The last trailer-shaped line is the exit code the client ends with. */
  function ExitCode(lines: seq<string>): Option<nat> {
    if lines == [] then None
    else
      var last := lines[|lines| - 1];
      if IsTrailer(last) then Some(Value(last[|TAG|..])) else ExitCode(lines[..|lines| - 1])
  }

  /** `runViaSidecar` resolves exactly when `exitCode` ends as 0. */
  predicate Resolves(stream: string) { ExitCode(Delivered(stream)) == Some(0) }

  /** The loop over the lines: what is handed to the caller, and the code. */
  method Handle(lines: seq<string>) returns (handed: seq<string>, code: Option<nat>)
    ensures handed == Filter(l => !IsTrailer(l), lines) && code == ExitCode(lines)
  {
    handed, code := [], None;
    for i := 0 to |lines|
      invariant handed == Filter(l => !IsTrailer(l), lines[..i])
      invariant code == ExitCode(lines[..i])
    {
      assert lines[..i + 1] == lines[..i] + [lines[i]];
      FilterAppend(l => !IsTrailer(l), lines[..i], [lines[i]]);
      assert [lines[i]][1..] == [];
      if IsTrailer(lines[i]) {
        code := Some(Value(lines[i][|TAG|..]));
      } else {
        handed := handed + [lines[i]];
      }
    }
    assert lines[..|lines|] == lines;
  }

  // ------------------------------------------------------------------------------------------
  // The sender
  // ------------------------------------------------------------------------------------------

  /** The digits of a code, with its sign. */
  function CodeText(code: int): string { if code < 0 then "-" + Decimal(-code) else Decimal(code) }

  /** `f"__RANTAI_EXIT__:{code}\n"`; a child killed by a signal has a negative code. */
  function Trailer(code: int): string {
    TAG + CodeText(code) + "\n"
  }

  /** How the child ended: it exited, or starting or reading it raised an error. */
  datatype Ending = Exited(code: int) | Raised(message: string)

  /** What the handler sends when every write goes through. */
  function Sent(allowed: bool, output: seq<string>, end: Ending): seq<string> {
    if !allowed then ["forbidden: command not in the allowed pipeline set\n", Trailer(126)]
    else
      match end
      case Exited(code) => output + [Trailer(code)]
      case Raised(message) => output + ["[export-server] error: " + message + "\n", Trailer(1)]
  }

  function Least(a: nat, b: nat): nat { if a <= b then a else b }

  /**
   * `do_POST` once the command is read. Only the first `room` writes reach the client, who may hang
   * up; a failed write of the child's output ends the request without a trailer.
   */
  method DoPost(allowed: bool, output: seq<string>, end: Ending, room: nat) returns (received: seq<string>)
    ensures received == Sent(allowed, output, end)[..Least(room, |Sent(allowed, output, end)|)]
  {
    ghost var all := Sent(allowed, output, end);
    received := [];
    if !allowed {
      if room > 0 {
        received := ["forbidden: command not in the allowed pipeline set\n"];
      }
      if room > 1 {
        received := received + [Trailer(126)];
      }
      assert all[..0] == [] && all[..1] == [all[0]] && all[..2] == all;
      return;
    }
    var code := 1;
    for i := 0 to |output|
      invariant i <= room && received == output[..i]
    {
      if i >= room {
        assert room == i && all[..i] == output[..i];
        return;
      }
      received := received + [output[i]];
    }
    assert output[..|output|] == output;
    assert all[..|output|] == output;
    match end {
      case Exited(c) => code := c;
      case Raised(message) =>
        if |received| < room {
          received := received + ["[export-server] error: " + message + "\n"];
        }
    }
    if |received| < room {
      received := received + [Trailer(code)];
    }
  }

  // ------------------------------------------------------------------------------------------
  // End to end
  // ------------------------------------------------------------------------------------------

  /** The piece after the last break. */
  function Rest(text: string): (rest: string)
    ensures |rest| <= |text|
  {
    if text == "" then "" else if IsBreak(text[|text| - 1]) then "" else Rest(text[..|text| - 1]) + [text[|text| - 1]]
  }

  lemma {:induction false} RestSplits(text: string)
    ensures |Rest(text)| <= |text| && text == text[..|text| - |Rest(text)|] + Rest(text)
    ensures NoBreak(Rest(text)) && Closed(text[..|text| - |Rest(text)|])
  {
    if text == "" || IsBreak(text[|text| - 1]) {
      assert Rest(text) == "" && text[..|text|] == text;
    } else {
      var init, c := text[..|text| - 1], text[|text| - 1];
      RestSplits(init);
      var k := |init| - |Rest(init)|;
      assert Rest(text) == Rest(init) + [c] && |text| - |Rest(text)| == k;
      assert text == init + [c] && text[..k] == init[..k];
      assert text[..k] + (Rest(init) + [c]) == init[..k] + Rest(init) + [c];
    }
  }

  lemma {:induction false} ExitCodeAppend(a: seq<string>, b: seq<string>)
    ensures ExitCode(a + b) == if ExitCode(b).Some? then ExitCode(b) else ExitCode(a)
  {
    if b == [] {
      assert a + b == a;
    } else {
      assert (a + b)[..|a + b| - 1] == a + b[..|b| - 1];
      ExitCodeAppend(a, b[..|b| - 1]);
    }
  }

  lemma ExitCodeOne(line: string)
    ensures ExitCode([line]) == if IsTrailer(line) then Some(Value(line[|TAG|..])) else None
  {
    assert [line][..0] == [];
  }

  /** The last line of a stream that ends in `tail` and a trailer. */
  lemma LastLine(output: string, body: string)
    requires NoBreak(body)
    ensures var tail := Rest(output); var kept := output[..|output| - |tail|];
            Delivered(output + body + "\n") == Delivered(kept) + (if Trim(tail + body) == "" then [] else [Trim(tail + body)])
  {
    var tail := Rest(output);
    RestSplits(output);
    ClosedThenLine(output[..|output| - |tail|], tail, body);
  }

  lemma ClosedThenLine(kept: string, tail: string, body: string)
    requires Closed(kept) && NoBreak(tail) && NoBreak(body)
    ensures Delivered(kept + tail + body + "\n")
              == Delivered(kept) + (if Trim(tail + body) == "" then [] else [Trim(tail + body)])
  {
    assert kept + tail + body + "\n" == kept + (tail + body + "\n");
    DeliveredAfterClosed(kept, tail + body + "\n");
    DeliveredLine(tail + body, '\n');
  }

  /** What the trailer of `code` says, without its line feed. */
  function TrailerBody(code: int): string { Trailer(code)[..|Trailer(code)| - 1] }

  lemma CodeTextShape(code: int)
    ensures CodeText(code) != "" && NoBreak(CodeText(code))
    ensures forall i :: 0 <= i < |CodeText(code)| ==> !IsSpace(CodeText(code)[i])
    ensures AllDigits(CodeText(code)) <==> code >= 0
    ensures code >= 0 ==> Value(CodeText(code)) == code
    ensures code > 0 ==> CodeText(code)[0] != '0'
    ensures code < 0 ==> CodeText(code)[0] == '-'
  {
    var d := Decimal(if code < 0 then -code else code);
    DecimalIsDigits(if code < 0 then -code else code);
    if code < 0 {
      assert CodeText(code)[0] == '-';
      assert forall i :: 0 < i < |CodeText(code)| ==> CodeText(code)[i] == d[i - 1];
    }
  }

  lemma TagShape()
    ensures NoBreak(TAG) && forall k :: 0 <= k < |TAG| ==> !IsSpace(TAG[k])
  {
  }

  lemma TrailerBodyShape(code: int)
    ensures TrailerBody(code) == TAG + CodeText(code)
    ensures NoBreak(TrailerBody(code)) && IsTrimmed(TrailerBody(code)) && TrailerBody(code) != ""
    ensures IsTrailer(TrailerBody(code)) <==> code >= 0
    ensures code >= 0 ==> Value(TrailerBody(code)[|TAG|..]) == code
  {
    var body := TAG + CodeText(code);
    assert TrailerBody(code) == body by {
      assert Trailer(code) == body + "\n";
    }
    CodeTextShape(code);
    TagShape();
    assert body[..|TAG|] == TAG && body[|TAG|..] == CodeText(code);
    assert body[|body| - 1] == CodeText(code)[|CodeText(code)| - 1] && body[0] == TAG[0];
  }

  lemma {:induction false} TrimStartSkips(a: string, b: string)
    requires b != "" && !IsSpace(b[0])
    ensures TrimStart(a + b) == if TrimStart(a) == "" then b else TrimStart(a) + b
  {
    if a == "" {
      assert a + b == b;
    } else if IsSpace(a[0]) {
      assert (a + b)[1..] == a[1..] + b;
      TrimStartSkips(a[1..], b);
    }
  }

  lemma {:induction false} BlankBothWays(s: string)
    ensures TrimStart(s) == "" <==> Trim(s) == ""
  {
    TrimStartShape(s);
    var t := TrimStart(s);
    if t != "" {
      NotAllTrimmed(t);
    }
  }

  lemma {:induction false} NotAllTrimmed(t: string)
    requires t != "" && !IsSpace(t[0])
    ensures TrimEnd(t) != ""
  {
    if IsSpace(t[|t| - 1]) {
      NotAllTrimmed(t[..|t| - 1]);
    }
  }

  /** The trailer is recognised exactly when nothing but white space stands before it on its line. */
  lemma GluedTrailer(tail: string, code: int)
    requires NoBreak(tail)
    ensures Trim(tail) == "" ==> Trim(tail + TrailerBody(code)) == TrailerBody(code)
    ensures Trim(tail) != "" ==>
              Trim(tail + TrailerBody(code)) == TrimStart(tail) + TrailerBody(code)
  {
    var body := TrailerBody(code);
    TrailerBodyShape(code);
    TrimStartSkips(tail, body);
    BlankBothWays(tail);
  }

  predicate IsPrefix(a: string, b: string) { |a| <= |b| && b[..|a|] == a }

  lemma {:induction false} TrimStartOfPrefix(a: string, b: string)
    requires IsPrefix(a, b)
    ensures IsPrefix(TrimStart(a), TrimStart(b))
  {
    if a != "" && IsSpace(a[0]) {
      assert b[1..][..|a| - 1] == a[1..];
      TrimStartOfPrefix(a[1..], b[1..]);
    } else if a == "" {
    }
  }

  /** Every piece is a prefix of the other text's piece at its place. */
  predicate PrefixPieces(p: seq<string>, q: seq<string>) {
    |p| <= |q| && forall i :: 0 <= i < |p| ==> IsPrefix(p[i], q[i])
  }

  lemma {:induction false} PiecesOfPrefix(a: string, b: string)
    requires IsPrefix(a, b)
    ensures PrefixPieces(Pieces(a), Pieces(b))
  {
    if a != "" {
      assert b[1..][..|a| - 1] == a[1..] && b[0] == a[0];
      PiecesOfPrefix(a[1..], b[1..]);
      OneMoreInFront(a[0], Pieces(a[1..]), Pieces(b[1..]));
    }
  }

  lemma OneMoreInFront(c: char, p: seq<string>, q: seq<string>)
    requires p != [] && q != [] && PrefixPieces(p, q)
    ensures PrefixPieces([""] + p, [""] + q)
    ensures PrefixPieces([[c] + p[0]] + p[1..], [[c] + q[0]] + q[1..])
  {
    assert IsPrefix(p[0], q[0]);
    assert ([c] + q[0])[..|[c] + p[0]|] == [c] + p[0];
  }

  lemma {:induction false} NoTrailerNoCode(pieces: seq<string>)
    requires forall i :: 0 <= i < |pieces| ==> !IsTrailer(Trim(pieces[i]))
    ensures ExitCode(NonBlank(pieces)) == None
  {
    if pieces != [] {
      NoTrailerNoCode(pieces[1..]);
      NonBlankAppend([pieces[0]], pieces[1..]);
      assert pieces == [pieces[0]] + pieces[1..];
      NonBlankOne(pieces[0]);
      ExitCodeAppend(NonBlank([pieces[0]]), NonBlank(pieces[1..]));
      ExitCodeOne(Trim(pieces[0]));
    }
  }

  // ------------------------------------------------------------------------------------------
  // The whole stream
  // ------------------------------------------------------------------------------------------

  /** The output's finished lines. */
  function Finished(output: string): string { output[..|output| - |Rest(output)|] }

  /** The lines of the whole stream: those of the output's finished lines, then its last line with the trailer behind it. */
  lemma LinesOfStream(output: string, code: int)
    ensures var line := Trim(Rest(output) + TrailerBody(code));
            line != "" && Delivered(output + Trailer(code)) == Delivered(Finished(output)) + [line]
  {
    TrailerBodyShape(code);
    LastLineIsGlued(output, code);
    LastLine(output, TrailerBody(code));
    Assoc(output, TrailerBody(code), "\n");
  }

  lemma CodeOfLast(lines: seq<string>, last: string)
    ensures ExitCode(lines + [last]) == if IsTrailer(last) then Some(Value(last[|TAG|..])) else ExitCode(lines)
  {
    ExitCodeAppend(lines, [last]);
    ExitCodeOne(last);
  }

  /** The last line of the stream is the trailer alone, or text that the trailer's own tag keeps from being one. */
  lemma LastLineIsGlued(output: string, code: int)
    ensures var line := Trim(Rest(output) + TrailerBody(code));
            line != "" && if Trim(Rest(output)) == "" then line == TrailerBody(code) else !IsTrailer(line)
  {
    var tail := Rest(output);
    RestSplits(output);
    TrailerBodyShape(code);
    GluedTrailer(tail, code);
    if Trim(tail) != "" {
      BlankBothWays(tail);
      TagInside(TrimStart(tail), code);
    }
  }

  lemma TagInside(x: string, code: int)
    requires x != ""
    ensures !IsTrailer(x + TrailerBody(code))
  {
    TrailerBodyShape(code);
    var line, k := x + TrailerBody(code), |x| + |TAG| - 1;
    assert line[k] == TrailerBody(code)[|TAG| - 1] == TAG[|TAG| - 1] == ':';
    assert line[|TAG|..][k - |TAG|] == ':';
  }

  /**
   * When the whole stream arrives: behind finished lines the code is read, unless a signal made it negative;
   * behind an unfinished one, or when it is negative, only a trailer the child printed itself counts.
   */
  lemma WholeStreamIff(output: string, code: int)
    ensures Resolves(output + Trailer(code))
            <==> if code >= 0 && Trim(Rest(output)) == "" then code == 0
                 else ExitCode(Delivered(Finished(output))) == Some(0)
  {
    TrailerBodyShape(code);
    LastLineIsGlued(output, code);
    LinesOfStream(output, code);
    CodeOfLast(Delivered(Finished(output)), Trim(Rest(output) + TrailerBody(code)));
  }

  /** No line of the output is shaped like a trailer. */
  ghost predicate TrailerFree(output: string) {
    forall i :: 0 <= i < |Pieces(output)| ==> !IsTrailer(Trim(Pieces(output)[i]))
  }

  /** So the finished lines of the output carry no code. */
  lemma FinishedIsTrailerFree(output: string)
    requires TrailerFree(output)
    ensures ExitCode(Delivered(Finished(output))) == None
  {
    RestSplits(output);
    NoTrailerNoCode(Pieces(output));
    DeliveredAfterClosed(Finished(output), Rest(output));
    ExitCodeAppend(Delivered(Finished(output)), Delivered(Rest(output)));
  }

  /**
   * For output without a trailer of its own, the client resolves exactly when the code is 0 and nothing but
   * white space stands after the output's last line break.
   */
  lemma ResolvesIff(output: string, code: int)
    requires TrailerFree(output)
    ensures Resolves(output + Trailer(code)) <==> code == 0 && Trim(Rest(output)) == ""
  {
    WholeStreamIff(output, code);
    FinishedIsTrailerFree(output);
  }

  /** Output that ends in the middle of a line: a command that exits with 0 is reported as failed. */
  lemma UnfinishedLineFails()
    ensures !Resolves("x" + Trailer(0))
  {
    PiecesOfPlain("x");
    assert Trim("x") == "x";
    assert Rest("x") == "x" by { assert "x"[..0] == ""; }
    ResolvesIff("x", 0);
  }

  // ------------------------------------------------------------------------------------------
  // A stream cut short
  // ------------------------------------------------------------------------------------------

  const ZERO := TAG + "0"

  /** The line, white space aside, starts with the trailer of code 0. */
  predicate SaysZero(line: string) { IsPrefix(ZERO, TrimStart(line)) }

  /** Some line of the output does. */
  ghost predicate PrintsZero(output: string) { exists i :: 0 <= i < |Pieces(output)| && SaysZero(Pieces(output)[i]) }

  lemma {:induction false} LeadingDigitCounts(d: string)
    requires d != "" && AllDigits(d) && d[0] != '0'
    ensures Value(d) > 0
  {
    if |d| > 1 {
      LeadingDigitCounts(d[..|d| - 1]);
    }
  }

  lemma ZeroShape()
    ensures |ZERO| == |TAG| + 1 && ZERO[..|TAG|] == TAG && ZERO[|TAG|..] == "0" && IsTrimmed(ZERO) && NoBreak(ZERO)
    ensures IsTrailer(ZERO) && Value(ZERO[|TAG|..]) == 0
  {
    TagShape();
    assert "0"[..0] == "";
    assert ZERO[0] == TAG[0];
  }

  /** A line that is read as code 0 starts with the trailer of code 0. */
  lemma ZeroLineSaysZero(line: string)
    requires IsTrailer(Trim(line)) && Value(Trim(line)[|TAG|..]) == 0
    ensures SaysZero(line)
  {
    var t := Trim(line);
    if t[|TAG|] != '0' { LeadingDigitCounts(t[|TAG|..]); }
    assert t[..|TAG| + 1] == t[..|TAG|] + [t[|TAG|]];
    TrimEndShape(TrimStart(line));
    var k :| 0 <= k <= |TrimStart(line)| && t == TrimStart(line)[..k];
    assert t[..|ZERO|] == TrimStart(line)[..|ZERO|];
  }

  lemma {:induction false} ResolvedSaysZero(pieces: seq<string>)
    requires ExitCode(NonBlank(pieces)) == Some(0)
    ensures exists i :: 0 <= i < |pieces| && SaysZero(pieces[i])
  {
    if pieces == [] {
      assert false;
    } else {
      NonBlankAppend([pieces[0]], pieces[1..]);
      assert pieces == [pieces[0]] + pieces[1..];
      NonBlankOne(pieces[0]);
      ExitCodeAppend(NonBlank([pieces[0]]), NonBlank(pieces[1..]));
      if ExitCode(NonBlank(pieces[1..])) == Some(0) {
        ResolvedSaysZero(pieces[1..]);
        var i :| 0 <= i < |pieces[1..]| && SaysZero(pieces[1..][i]);
        assert SaysZero(pieces[i + 1]);
      } else {
        ExitCodeOne(Trim(pieces[0]));
        ZeroLineSaysZero(pieces[0]);
        assert SaysZero(pieces[0]);
      }
    }
  }

  lemma SaysZeroOfPrefix(a: string, b: string)
    requires IsPrefix(a, b) && SaysZero(a)
    ensures SaysZero(b)
  {
    TrimStartOfPrefix(a, b);
    assert TrimStart(a)[..|ZERO|] == TrimStart(b)[..|ZERO|];
  }

  lemma PrependGlued(c: char, ps: seq<string>, t: string)
    requires ps != []
    ensures var qs := Prepend(c, ps);
            Prepend(c, ps[..|ps| - 1] + [ps[|ps| - 1] + t]) == qs[..|qs| - 1] + [qs[|qs| - 1] + t]
  {
    var init, last := ps[..|ps| - 1], ps[|ps| - 1];
    assert ps == init + [last];
    if IsBreak(c) {
      assert [""] + (init + [last]) == ([""] + init) + [last];
      assert [""] + (init + [last + t]) == ([""] + init) + [last + t];
    } else if init == [] {
      Assoc([c], last, t);
      assert ps == [last] && Prepend(c, ps) == [[c] + last];
    } else {
      PrependAppend(c, init, [last]);
      PrependAppend(c, init, [last + t]);
    }
  }

  /** Text without a break goes behind the last piece. */
  lemma {:induction false} PiecesGlued(text: string, t: string)
    requires NoBreak(t)
    ensures var ps := Pieces(text); Pieces(text + t) == ps[..|ps| - 1] + [ps[|ps| - 1] + t]
  {
    if text == "" {
      assert text + t == t;
      PiecesOfPlain(t);
      assert "" + t == t;
    } else {
      assert (text + t)[1..] == text[1..] + t;
      PiecesGlued(text[1..], t);
      PiecesStep(text[0], text[1..]);
      PiecesStep(text[0], text[1..] + t);
      assert [text[0]] + text[1..] == text && [text[0]] + (text[1..] + t) == text + t;
      PrependGlued(text[0], Pieces(text[1..]), t);
    }
  }

  lemma PiecesOfStream(output: string, code: int)
    ensures var ps := Pieces(output);
            Pieces(output + Trailer(code)) == ps[..|ps| - 1] + [ps[|ps| - 1] + TrailerBody(code)] + [""]
  {
    TrailerBodyShape(code);
    var body := TrailerBody(code);
    PiecesGlued(output, body);
    assert output + Trailer(code) == output + body + ['\n'] + "";
    PiecesAtBreak(output + body, '\n', "");
  }

  lemma {:induction false} RestIsLastPiece(text: string)
    ensures Pieces(text)[|Pieces(text)| - 1] == Rest(text)
  {
    if text != "" {
      var init, c := text[..|text| - 1], text[|text| - 1];
      RestIsLastPiece(init);
      assert text == init + [c];
      if IsBreak(c) {
        assert init + [c] + "" == text;
        PiecesAtBreak(init, c, "");
      } else {
        PiecesGlued(init, [c]);
      }
    }
  }

  /** A last line with the trailer behind it says zero only if it did before, or is blank and the code is 0. */
  lemma GluedSaysZero(tail: string, code: int)
    requires SaysZero(tail + TrailerBody(code))
    ensures SaysZero(tail) || (code == 0 && Trim(tail) == "")
  {
    TrailerBodyShape(code);
    CodeTextShape(code);
    ZeroShape();
    var x, body := TrimStart(tail), TrailerBody(code);
    TrimStartSkips(tail, body);
    BlankBothWays(tail);
    if x == "" {
      assert body[|TAG|] == CodeText(code)[0] && body[|TAG|] == body[..|ZERO|][|TAG|];
    } else if |x| >= |ZERO| {
      assert (x + body)[..|ZERO|] == x[..|ZERO|];
    } else {
      ColonComesOnce(x, body);
    }
  }

  /** The tag has one colon, its last character, so no text stands before a second tag. */
  lemma ColonComesOnce(x: string, body: string)
    requires 0 < |x| <= |TAG| && IsPrefix(TAG, body)
    ensures !IsPrefix(ZERO, x + body)
  {
    ZeroShape();
    var k := if |x| == |TAG| then |TAG| else |TAG| - 1;
    assert (x + body)[k] == body[k - |x|] == body[..|TAG|][k - |x|] == TAG[k - |x|];
    assert TAG[|TAG| - 1] == ':' && ZERO[..|TAG|][|TAG| - 1] == ':' && ZERO[|TAG|..][0] == '0';
    DiffersAt(ZERO, x + body, k);
  }

  lemma DiffersAt(a: string, b: string, k: nat)
    requires k < |a| && k < |b| && a[k] != b[k]
    ensures !IsPrefix(a, b)
  {
    assert |a| <= |b| ==> b[..|a|][k] == b[k];
  }

  lemma NothingSaysZero()
    ensures !SaysZero("")
  {
    ZeroShape();
  }

  /** A part of the stream that resolves shows a line of the output that says zero, or the real trailer of code 0. */
  lemma ResolvedPart(output: string, code: int, part: string)
    requires IsPrefix(part, output + Trailer(code)) && Resolves(part)
    ensures PrintsZero(output) || (code == 0 && Trim(Rest(output)) == "")
  {
    ResolvedSaysZero(Pieces(part));
    var i :| 0 <= i < |Pieces(part)| && SaysZero(Pieces(part)[i]);
    PiecesOfPrefix(part, output + Trailer(code));
    SaysZeroOfPrefix(Pieces(part)[i], Pieces(output + Trailer(code))[i]);
    PiecesOfStream(output, code);
    RestIsLastPiece(output);
    var last := |Pieces(output)| - 1;
    if i < last {
      assert SaysZero(Pieces(output)[i]);
    } else if i == last {
      GluedSaysZero(Rest(output), code);
      if SaysZero(Rest(output)) { assert SaysZero(Pieces(output)[last]); }
    } else {
      NothingSaysZero();
    }
  }

  /** The text can be cut in the middle of any of its lines. */
  lemma {:induction false} CutInPiece(text: string, i: nat, k: nat) returns (part: string)
    requires i < |Pieces(text)| && k <= |Pieces(text)[i]|
    ensures IsPrefix(part, text) && Pieces(part) == Pieces(text)[..i] + [Pieces(text)[i][..k]]
  {
    if text == "" || (i == 0 && k == 0) {
      part := "";
      assert Pieces(text)[i][..k] == "";
      assert text[..0] == "";
    } else {
      var c, rest := text[0], text[1..];
      if IsBreak(c) {
        part := CutInPiece(rest, i - 1, k);
        assert Pieces(text)[..i] == [""] + Pieces(rest)[..i - 1];
      } else {
        part := CutInPiece(rest, i, if i == 0 then k - 1 else k);
        if i == 0 {
          assert Pieces(text)[0][..k] == [c] + Pieces(rest)[0][..k - 1];
        } else {
          assert Pieces(text)[..i] == [[c] + Pieces(rest)[0]] + Pieces(rest)[1..i];
        }
      }
      PiecesStep(c, part);
      assert text == [c] + rest;
      part := [c] + part;
    }
  }

  /** How much of a line that says zero to take so that it reads as code 0. */
  lemma {:induction false} CutAtZero(line: string) returns (k: nat)
    requires SaysZero(line)
    ensures k <= |line| && TrimStart(line[..k]) == ZERO
  {
    if line != "" && IsSpace(line[0]) {
      k := CutAtZero(line[1..]);
      assert line[..k + 1][1..] == line[1..][..k];
      k := k + 1;
    } else {
      k := |ZERO|;
      ZeroShape();
      assert line[..k] == ZERO;
    }
  }

  lemma LastReadsZero(pieces: seq<string>, last: string)
    requires TrimStart(last) == ZERO
    ensures ExitCode(NonBlank(pieces + [last])) == Some(0)
  {
    ZeroShape();
    assert Trim(last) == ZERO;
    NonBlankAppend(pieces, [last]);
    NonBlankOne(last);
    CodeOfLast(NonBlank(pieces), ZERO);
  }

  /** Output that says zero resolves when the stream is cut right there. */
  lemma PrintedZeroResolves(output: string, code: int) returns (part: string)
    requires PrintsZero(output)
    ensures IsPrefix(part, output + Trailer(code)) && Resolves(part)
  {
    var i :| 0 <= i < |Pieces(output)| && SaysZero(Pieces(output)[i]);
    var k := CutAtZero(Pieces(output)[i]);
    part := CutInPiece(output, i, k);
    LastReadsZero(Pieces(output)[..i], Pieces(output)[i][..k]);
    assert (output + Trailer(code))[..|part|] == output[..|part|];
  }

  /** Some part of the stream, cut anywhere, makes the client resolve. */
  ghost predicate SomePartResolves(stream: string) { exists part :: IsPrefix(part, stream) && Resolves(part) }

  /**
   * A stream can be cut so that the client resolves if and only if a line of the output starts with the
   * trailer of code 0, or the command exited with 0 behind finished lines.
   */
  lemma CutStreamIff(output: string, code: int)
    ensures SomePartResolves(output + Trailer(code))
            <==> PrintsZero(output) || (code == 0 && Trim(Rest(output)) == "")
  {
    var stream := output + Trailer(code);
    if part :| IsPrefix(part, stream) && Resolves(part) { ResolvedPart(output, code, part); }
    if PrintsZero(output) {
      var part := PrintedZeroResolves(output, code);
    }
    if code == 0 && Trim(Rest(output)) == "" {
      WholeStreamIff(output, code);
      assert stream[..|stream|] == stream;
      assert IsPrefix(stream, stream) && Resolves(stream);
    }
  }

  /** A failing command whose output merely resembles a trailer: the whole stream is harmless, a cut one resolves. */
  lemma LookalikeResolves()
    ensures TrailerFree(ZERO + "x\n") && !Resolves(ZERO + "x\n" + Trailer(5))
    ensures IsPrefix(ZERO, ZERO + "x\n" + Trailer(5)) && Resolves(ZERO)
  {
    ZeroShape();
    var line := ZERO + "x";
    var output := ZERO + "x\n";
    assert NoBreak(line) && line[..|ZERO|] == ZERO;
    assert output == line + ['\n'] + "";
    PiecesOfPlain(line);
    PiecesAtBreak(line, '\n', "");
    assert Pieces(output) == [line, ""];
    assert line[0] == ZERO[0] && line[|line| - 1] == 'x';
    assert IsTrimmed(line) && Trim("") == "";
    assert line[|TAG|..][1] == 'x';
    ResolvesIff(output, 5);
    PiecesOfPlain(ZERO);
    LastReadsZero([], ZERO);
    assert [] + [ZERO] == [ZERO];
    assert (output + Trailer(5))[..|ZERO|] == ZERO;
  }

  // ------------------------------------------------------------------------------------------
  // From the command to the client
  // ------------------------------------------------------------------------------------------

  /** The text the handler sends before its trailer, and the code in it. */
  function Body(allowed: bool, output: seq<string>, end: Ending): string {
    if !allowed then "forbidden: command not in the allowed pipeline set\n"
    else
      match end
      case Exited(_) => Concat(output)
      case Raised(message) => Concat(output) + ("[export-server] error: " + message + "\n")
  }

  function CodeSent(allowed: bool, end: Ending): int {
    if !allowed then 126 else if end.Exited? then end.code else 1
  }

  lemma ConcatOne(x: string)
    ensures Concat([x]) == x
  {
    assert [x][..0] == [] && "" + x == x;
  }

  lemma ConcatSent(allowed: bool, output: seq<string>, end: Ending)
    ensures Concat(Sent(allowed, output, end)) == Body(allowed, output, end) + Trailer(CodeSent(allowed, end))
  {
    var all := Sent(allowed, output, end);
    assert all == all[..|all| - 1] + [Trailer(CodeSent(allowed, end))];
    var init := all[..|all| - 1];
    if !allowed {
      ConcatOne(Body(allowed, output, end));
      assert init == [Body(allowed, output, end)];
    } else if end.Exited? {
      assert init == output;
    } else {
      assert init[..|init| - 1] == output;
    }
  }

  lemma {:induction false} ConcatOfPrefix(a: seq<string>, k: nat)
    requires k <= |a|
    ensures IsPrefix(Concat(a[..k]), Concat(a))
    decreases |a|
  {
    if k == |a| {
      assert a[..k] == a;
    } else {
      ConcatOfPrefix(a[..|a| - 1], k);
      assert a[..|a| - 1][..k] == a[..k];
    }
  }

  lemma ForbiddenIsOneLine()
    ensures NoBreak("forbidden: command not in") && NoBreak(" the allowed pipeline set")
  {
  }

  lemma PlainLineIsHarmless(line: string)
    requires NoBreak(line) && line != "" && !IsSpace(line[0]) && line[0] != '_'
    ensures !PrintsZero(line + "\n")
  {
    assert line + "\n" == line + ['\n'] + "";
    PiecesOfPlain(line);
    PiecesAtBreak(line, '\n', "");
    NothingSaysZero();
    assert ZERO[0] == TAG[0] == '_';
    DiffersAt(ZERO, line, 0);
  }

  /** What the server says itself before it refuses a command never says zero. */
  lemma ForbiddenIsHarmless(output: seq<string>, end: Ending)
    ensures !PrintsZero(Body(false, output, end))
  {
    ForbiddenIsOneLine();
    var a, b := "forbidden: command not in", " the allowed pipeline set";
    assert (a + b)[0] == 'f';
    assert Body(false, output, end) == a + b + "\n";
    PlainLineIsHarmless(a + b);
  }

  /**
   * For a command that was refused, failed or raised an error: cut anywhere, the client can resolve if and
   * only if a line of an allowed command's output, or of its error message, starts with the trailer of code 0.
   */
  lemma FailureResolvesIff(allowed: bool, output: seq<string>, end: Ending)
    requires !(allowed && end == Exited(0))
    ensures SomePartResolves(Concat(Sent(allowed, output, end))) <==> allowed && PrintsZero(Body(allowed, output, end))
  {
    ConcatSent(allowed, output, end);
    CutStreamIff(Body(allowed, output, end), CodeSent(allowed, end));
    ForbiddenIsHarmless(output, end);
  }

  /**
   * From the command to the client, however many of the handler's writes arrive: when no line says zero, a
   * resolved call means the command was allowed and exited with 0.
   */
  lemma ResolvedMeansSucceeded(allowed: bool, output: seq<string>, end: Ending, room: nat)
    requires allowed ==> !PrintsZero(Body(allowed, output, end))
    requires Resolves(Concat(Sent(allowed, output, end)[..Least(room, |Sent(allowed, output, end)|)]))
    ensures allowed && end == Exited(0)
  {
    var sent := Sent(allowed, output, end);
    ConcatOfPrefix(sent, Least(room, |sent|));
    assert IsPrefix(Concat(sent[..Least(room, |sent|)]), Concat(sent));
    if !(allowed && end == Exited(0)) { FailureResolvesIff(allowed, output, end); }
  }

  /**
   * And when every write arrives, an allowed command that exited with 0 resolves exactly when its last line is
   * finished or blank, or a trailer it printed itself says 0.
   */
  lemma SucceededMeansResolved(output: seq<string>)
    ensures Resolves(Concat(Sent(true, output, Exited(0))))
            <==> Trim(Rest(Concat(output))) == "" || ExitCode(Delivered(Finished(Concat(output)))) == Some(0)
  {
    ConcatSent(true, output, Exited(0));
    WholeStreamIff(Concat(output), 0);
  }
}
