/**
 * The command lines of the host runner (src/lib/host-runner.ts): how arguments are quoted and put
 * into a script template, and what a shell reads back. The shell is that of the POSIX Shell Command
 * Language as far as quoting (sections 2.2.1 to 2.2.3), comments and the ends of words (section 2.3) go; it
 * does not carry out operators or expansions, but records every character that could be one (`bare`).
 */
module HostCommand {
  import opened Wrappers
  import opened Lines

  // ------------------------------------------------------------------------------------------
  // The shell's reading
  // ------------------------------------------------------------------------------------------

  datatype Mode = Plain | Escaped | Single | Double | DoubleEscaped | Comment

  /** The words so far, the word being read, and the characters met where the shell may act on them. */
  datatype Lexer = Lexer(mode: Mode, cur: Option<string>, words: seq<string>, bare: string)

  const FRESH := Lexer(Plain, None, [], "")

  predicate IsBlank(c: char) { c == ' ' || c == '\t' }

  /** An operator character, or the line end that ends a command, ends the word before it; here it is a word of its own. */
  predicate IsOperator(c: char) {
    c == '|' || c == '&' || c == ';' || c == '<' || c == '>' || c == '(' || c == ')' || c == '\n'
  }

  function Text(cur: Option<string>): string { if cur.Some? then cur.value else "" }

  function Add(l: Lexer, s: string): Lexer { l.(cur := Some(Text(l.cur) + s)) }

  function EndWord(l: Lexer): Lexer {
    if l.cur.Some? then l.(words := l.words + [l.cur.value], cur := None) else l
  }

  /** A character that is a word of its own, and one the shell acts on. */
  function Token(l: Lexer, c: char): Lexer {
    EndWord(l).(words := EndWord(l).words + [[c]], bare := l.bare + [c])
  }

  function Next(l: Lexer, c: char): Lexer {
    match l.mode
    case Plain =>
      if IsBlank(c) then EndWord(l)
      else if c == '\'' then Add(l, "").(mode := Single)
      else if c == '"' then Add(l, "").(mode := Double)
      else if c == '\\' then l.(mode := Escaped)
      else if c == '#' && l.cur.None? then l.(mode := Comment)
      else if IsOperator(c) then Token(l, c)
      else Add(l, [c]).(bare := l.bare + [c])
    case Escaped => if c == '\n' then l.(mode := Plain) else Add(l, [c]).(mode := Plain)
    case Single => if c == '\'' then l.(mode := Plain) else Add(l, [c])
    case Double =>
      if c == '"' then l.(mode := Plain)
      else if c == '\\' then l.(mode := DoubleEscaped)
      else Add(l, [c]).(bare := if c == '$' || c == '`' then l.bare + [c] else l.bare)
    case DoubleEscaped =>
      if c == '\n' then l.(mode := Double)
      else if c == '$' || c == '`' || c == '"' || c == '\\' then Add(l, [c]).(mode := Double)
      else Add(l, ['\\', c]).(mode := Double)
    case Comment => if c == '\n' then Token(l, c).(mode := Plain) else l
  }

  function Lex(text: string, l: Lexer): Lexer
    decreases |text|
  {
    if text == "" then l else Lex(text[1..], Next(l, text[0]))
  }

  /** The words of a whole text. */
  function WordsOf(l: Lexer): seq<string> { EndWord(l).words }

  lemma {:induction false} LexAppend(a: string, b: string, l: Lexer)
    ensures Lex(a + b, l) == Lex(b, Lex(a, l))
    decreases |a|
  {
    if a == "" {
      assert a + b == b;
    } else {
      assert (a + b)[1..] == a[1..] + b;
      LexAppend(a[1..], b, Next(l, a[0]));
    }
  }

  lemma LexOne(c: char, rest: string, l: Lexer)
    ensures Lex([c] + rest, l) == Lex(rest, Next(l, c))
  {
    assert ([c] + rest)[1..] == rest;
  }

  // ------------------------------------------------------------------------------------------
  // Quoting
  // ------------------------------------------------------------------------------------------

  /** `s.replace(/'/g, "'\\''")`. */
  function Escape(s: string): string {
    if s == "" then "" else (if s[0] == '\'' then "'\\''" else [s[0]]) + Escape(s[1..])
  }

  /** `shQuote`. */
  function ShQuote(s: string): string { "'" + Escape(s) + "'" }

  /** `args.map(shQuote).join(" ")`. */
  function QuotedArgs(args: seq<string>): string {
    if args == [] then ""
    else if |args| == 1 then ShQuote(args[0])
    else ShQuote(args[0]) + " " + QuotedArgs(args[1..])
  }

  lemma {:induction false} LexEscape(s: string, l: Lexer)
    requires l.mode == Single && l.cur.Some?
    ensures Lex(Escape(s), l) == Add(l, s)
    decreases |s|
  {
    if s == "" {
      assert Text(l.cur) + s == Text(l.cur);
    } else {
      var l' := Add(l, [s[0]]);
      LexEscape(s[1..], l');
      assert Text(l.cur) + [s[0]] + s[1..] == Text(l.cur) + s;
      if s[0] == '\'' {
        LexAppend("'\\''", Escape(s[1..]), l);
        LexBrokenQuote(l);
      } else {
        LexAppend([s[0]], Escape(s[1..]), l);
        assert Lex([s[0]], l) == Lex([s[0]][1..], l');
        assert [s[0]][1..] == "";
      }
    }
  }

  /** Leaving the quotes for one escaped quote and entering them again adds just the quote. */
  lemma LexBrokenQuote(l: Lexer)
    requires l.mode == Single && l.cur.Some?
    ensures Lex("'\\''", l) == Add(l, "'")
  {
    var t := "'\\''";
    assert t[1..] == "\\''" && t[1..][1..] == "''" && t[1..][1..][1..] == "'" && t[1..][1..][1..][1..] == "";
    var l3 := Next(Next(Next(l, '\''), '\\'), '\'');
    assert l3 == Add(l, "'").(mode := Plain);
    assert Add(l3, "") == l3 by {
      assert Text(l3.cur) + "" == Text(l3.cur);
    }
  }

  /** A quoted argument adds its own text to the current word, and nothing the shell may act on. */
  lemma LexQuote(s: string, l: Lexer)
    requires l.mode == Plain
    ensures Lex(ShQuote(s), l) == Add(l, s)
  {
    var l1 := Add(l, "").(mode := Single);
    assert ShQuote(s) == ['\''] + (Escape(s) + "'");
    LexOne('\'', Escape(s) + "'", l);
    assert Next(l, '\'') == l1;
    assert Text(l1.cur) == Text(l.cur);
    LexQuoted(s, l1);
  }

  /** From within the quotes: the text, then the closing quote. */
  lemma LexQuoted(s: string, l: Lexer)
    requires l.mode == Single && l.cur.Some?
    ensures Lex(Escape(s) + "'", l) == Add(l, s).(mode := Plain)
  {
    LexAppend(Escape(s), "'", l);
    LexEscape(s, l);
    assert "'"[1..] == "";
  }

  /**
   * What the shell's own `"$@"` does where it stands: every parameter but the last ends a word, and the first
   * and the last join what is around them (section 2.5.2).
   */
  function AtExpansion(l: Lexer, args: seq<string>): Lexer
    decreases |args|
  {
    if args == [] then l
    else if |args| == 1 then Add(l, args[0])
    else AtExpansion(EndWord(Add(l, args[0])), args[1..])
  }

  /** Quoted arguments are read as the shell's own expansion of them, and leave nothing for it to act on. */
  lemma {:induction false} LexArgs(args: seq<string>, l: Lexer)
    requires l.mode == Plain
    ensures Lex(QuotedArgs(args), l) == AtExpansion(l, args)
    decreases |args|
  {
    if |args| == 1 {
      LexQuote(args[0], l);
    } else if |args| > 1 {
      var rest := QuotedArgs(args[1..]);
      assert QuotedArgs(args) == ShQuote(args[0]) + ([' '] + rest);
      LexAppend(ShQuote(args[0]), [' '] + rest, l);
      LexQuote(args[0], l);
      LexOne(' ', rest, Add(l, args[0]));
      LexArgs(args[1..], EndWord(Add(l, args[0])));
    }
  }

  /** Where no word was being read, the expansion adds the arguments as words. */
  lemma {:induction false} ExpansionOnItsOwn(l: Lexer, args: seq<string>)
    requires l.cur == None
    ensures WordsOf(AtExpansion(l, args)) == l.words + args
    ensures AtExpansion(l, args).mode == l.mode && AtExpansion(l, args).bare == l.bare
    decreases |args|
  {
    if args == [] {
      assert l.words + args == l.words;
    } else {
      assert "" + args[0] == args[0];
      if |args| > 1 {
        var l' := EndWord(Add(l, args[0]));
        ExpansionOnItsOwn(l', args[1..]);
        assert l'.words + args[1..] == l.words + args;
      }
    }
  }

  /** Quoting round trip: the shell reads the quoted arguments as exactly the arguments. */
  lemma ArgsSurviveTheShell(args: seq<string>)
    ensures WordsOf(Lex(QuotedArgs(args), FRESH)) == args
    ensures Lex(QuotedArgs(args), FRESH).mode == Plain && Lex(QuotedArgs(args), FRESH).bare == ""
  {
    LexArgs(args, FRESH);
    ExpansionOnItsOwn(FRESH, args);
    assert FRESH.words + args == args;
  }

  // ------------------------------------------------------------------------------------------
  // Building the command
  // ------------------------------------------------------------------------------------------

  const PLACE := "\"$@\""

  lemma SliceOfTail(s: string, i: nat)
    requires s != ""
    ensures i + 4 <= |s[1..]| ==> s[1..][i..i + 4] == s[i + 1..i + 5]
  {
  }

  /** Where the first `"$@"` is; the length of the text when there is none. */
  function FindPlace(s: string): (i: nat)
    ensures i <= |s| && (i < |s| ==> i + 4 <= |s| && s[i..i + 4] == PLACE)
  {
    if |s| < 4 then |s|
    else if s[..4] == PLACE then 0
    else
      var i := FindPlace(s[1..]);
      SliceOfTail(s, i);
      i + 1
  }

  /** `$$`, `$&`, `` $` `` and `$'` are patterns in the replacement text of a JavaScript `replace`. */
  predicate Activates(c: char) { c == '$' || c == '&' || c == '`' || c == '\'' }

  /** What `replace` puts in for the first `"$@"`, given the text before and after it. */
  function Expand(r: string, before: string, after: string): string
    decreases |r|
  {
    if r == "" then ""
    else if r[0] == '$' && |r| > 1 && Activates(r[1]) then
      (match r[1]
       case '$' => "$"
       case '&' => PLACE
       case '`' => before
       case _ => after) + Expand(r[2..], before, after)
    else [r[0]] + Expand(r[1..], before, after)
  }

  /** `buildCommand`. */
  function BuildCommand(script: string, args: seq<string>): string {
    var i := FindPlace(script);
    if i < |script|
    then script[..i] + Expand(QuotedArgs(args), script[..i], script[i + 4..]) + script[i + 4..]
    else TrimEnd(script + " " + QuotedArgs(args))
  }

  lemma {:induction false} QuotedEndsInQuote(args: seq<string>)
    requires args != []
    ensures QuotedArgs(args) != "" && QuotedArgs(args)[|QuotedArgs(args)| - 1] == '\''
  {
    if |args| > 1 {
      QuotedEndsInQuote(args[1..]);
    }
  }

  /**
   * Without a placeholder the arguments are appended: when the script leaves the shell outside quotes and
   * comments, the command's words are the script's words and then exactly the arguments, and no character of
   * an argument is left for the shell to act on. A line end is one of the script's words.
   */
  lemma AppendedArgsAreExact(script: string, args: seq<string>)
    requires FindPlace(script) == |script| && Lex(script, FRESH).mode == Plain
    ensures args == [] ==> BuildCommand(script, args) == TrimEnd(script)
    ensures args != [] ==>
              var l := Lex(BuildCommand(script, args), FRESH);
              WordsOf(l) == WordsOf(Lex(script, FRESH)) + args && l.mode == Plain && l.bare == Lex(script, FRESH).bare
  {
    BuildAppends(script, args);
    if args != [] { LexAppended(script, args); }
  }

  /** Behind a line end, the arguments are the words of a command of their own. */
  lemma AppendedBehindLineEnd(script: string, args: seq<string>)
    requires Lex(script, FRESH).mode == Plain && FindPlace(script + "\n") == |script + "\n"| && args != []
    ensures WordsOf(Lex(BuildCommand(script + "\n", args), FRESH)) == WordsOf(Lex(script, FRESH)) + ["\n"] + args
  {
    LexAppend(script, "\n", FRESH);
    assert "\n"[1..] == "" && "\n" == ['\n'];
    assert Lex("\n", Lex(script, FRESH)) == Token(Lex(script, FRESH), '\n');
    AppendedArgsAreExact(script + "\n", args);
  }

  lemma {:induction false} LexComment(text: string, l: Lexer)
    requires l.mode == Comment && OneLine(text)
    ensures Lex(text, l) == l
    decreases |text|
  {
    if text != "" { LexComment(text[1..], l); }
  }

  lemma {:induction false} EscapeOneLine(s: string)
    requires OneLine(s)
    ensures OneLine(Escape(s))
  {
    if s != "" { EscapeOneLine(s[1..]); }
  }

  lemma {:induction false} QuotedOneLine(args: seq<string>)
    requires forall i :: 0 <= i < |args| ==> OneLine(args[i])
    ensures OneLine(QuotedArgs(args))
  {
    if args != [] {
      EscapeOneLine(args[0]);
      QuotedOneLine(args[1..]);
    }
  }

  /** A script that ends in a comment swallows the arguments appended to it, up to the first line feed in them. */
  lemma CommentSwallowsArgs(script: string, args: seq<string>)
    requires FindPlace(script) == |script| && Lex(script, FRESH).mode == Comment
    requires args != [] && forall i :: 0 <= i < |args| ==> OneLine(args[i])
    ensures Lex(BuildCommand(script, args), FRESH) == Lex(script, FRESH)
  {
    BuildAppends(script, args);
    QuotedOneLine(args);
    InComment(script, " ", QuotedArgs(args));
  }

  lemma InComment(script: string, blank: string, text: string)
    requires Lex(script, FRESH).mode == Comment && OneLine(blank) && OneLine(text)
    ensures Lex(script + blank + text, FRESH) == Lex(script, FRESH)
  {
    LexAppend(script + blank, text, FRESH);
    LexAppend(script, blank, FRESH);
    LexComment(blank, Lex(script, FRESH));
    LexComment(text, Lex(script, FRESH));
  }

  /** The shell of `hostArgv`: the command is its last word. */
  function Shell(cmd: string): seq<string> { ["bash", "-lc", cmd] }

  /** `$n` inside the command of such a shell, from `$1` on: the words behind the command and the one for `$0`. */
  function Parameter(argv: seq<string>, n: nat): string
    requires n >= 1
  {
    if 3 + n < |argv| then argv[3 + n] else ""
  }

  /**
   * So an argument is never `$1` to a script without the placeholder: that is empty, the script's own words and
   * the characters the shell acts on are those of the script alone, and the arguments stand behind its last word.
   */
  lemma ArgumentsNeverBind(script: string, args: seq<string>, n: nat)
    requires FindPlace(script) == |script| && Lex(script, FRESH).mode == Plain && args != [] && n >= 1
    ensures var cmd := BuildCommand(script, args);
            && Parameter(Shell(cmd), n) == ""
            && Lex(cmd, FRESH).bare == Lex(script, FRESH).bare
            && WordsOf(Lex(cmd, FRESH)) == WordsOf(Lex(script, FRESH)) + args
  {
    AppendedArgsAreExact(script, args);
  }

  lemma BuildAppends(script: string, args: seq<string>)
    requires FindPlace(script) == |script|
    ensures BuildCommand(script, args) == if args == [] then TrimEnd(script) else script + " " + QuotedArgs(args)
  {
    if args == [] {
      BlankAtEnd(script);
    } else {
      NothingToTrim(script, args);
    }
  }

  lemma BlankAtEnd(script: string)
    ensures TrimEnd(script + " " + "") == TrimEnd(script)
  {
    assert script + " " + "" == script + " ";
    assert (script + " ")[..|script|] == script;
  }

  lemma NothingToTrim(script: string, args: seq<string>)
    requires args != []
    ensures TrimEnd(script + " " + QuotedArgs(args)) == script + " " + QuotedArgs(args)
  {
    QuotedEndsInQuote(args);
  }

  lemma LexAppended(script: string, args: seq<string>)
    requires args != [] && Lex(script, FRESH).mode == Plain
    ensures var l := Lex(script + " " + QuotedArgs(args), FRESH);
            WordsOf(l) == WordsOf(Lex(script, FRESH)) + args && l.mode == Plain && l.bare == Lex(script, FRESH).bare
  {
    Assoc(script, " ", QuotedArgs(args));
    LexAppend(script, " " + QuotedArgs(args), FRESH);
    LexSpaceArgs(args, Lex(script, FRESH));
  }

  lemma LexSpaceArgs(args: seq<string>, l: Lexer)
    requires args != [] && l.mode == Plain
    ensures var l' := Lex(" " + QuotedArgs(args), l);
            WordsOf(l') == WordsOf(l) + args && l'.mode == Plain && l'.bare == l.bare
  {
    assert " " == [' '];
    LexOne(' ', QuotedArgs(args), l);
    LexArgs(args, EndWord(l));
    ExpansionOnItsOwn(EndWord(l), args);
  }

  // ------------------------------------------------------------------------------------------
  // The placeholder
  // ------------------------------------------------------------------------------------------

  predicate HasPattern(r: string) {
    r != "" && ((r[0] == '$' && |r| > 1 && Activates(r[1])) || HasPattern(r[1..]))
  }

  /** Every `$` of the argument is followed by a character that makes no pattern with it. */
  predicate Inert(a: string) {
    a == "" || ((a[0] == '$' ==> |a| > 1 && !Activates(a[1])) && Inert(a[1..]))
  }

  lemma {:induction false} NoPatternNoChange(r: string, before: string, after: string)
    requires !HasPattern(r)
    ensures Expand(r, before, after) == r
    decreases |r|
  {
    if r != "" {
      NoPatternNoChange(r[1..], before, after);
    }
  }

  /** A character in front makes a pattern only when it is a `$` before an active one. */
  lemma PatternStep(c: char, rest: string)
    ensures HasPattern([c] + rest) <==> (c == '$' && rest != "" && Activates(rest[0])) || HasPattern(rest)
  {
    assert ([c] + rest)[1..] == rest;
  }

  lemma PatternAfterBrokenQuote(rest: string)
    ensures HasPattern("'\\''" + rest) <==> HasPattern(rest)
  {
    var r1 := ['\''] + rest;
    var r2 := ['\''] + r1;
    var r3 := ['\\'] + r2;
    assert "'\\''" + rest == ['\''] + r3;
    PatternStep('\'', rest);
    PatternStep('\'', r1);
    PatternStep('\\', r2);
    PatternStep('\'', r3);
  }

  /** The first character of an escaped text is a quote for a quote, and itself otherwise. */
  lemma EscapedStarts(s: string, tail: string)
    requires tail != ""
    ensures Escape(s) + tail != "" && (Escape(s) + tail)[0] == if s != "" then s[0] else tail[0]
  {
  }

  lemma {:induction false} PatternInEscaped(s: string, tail: string)
    requires tail != "" && tail[0] == '\''
    ensures HasPattern(Escape(s) + tail) <==> !Inert(s) || HasPattern(tail)
    decreases |s|
  {
    if s == "" {
      assert Escape(s) + tail == tail;
    } else {
      PatternInEscaped(s[1..], tail);
      PatternInFirst(s, tail);
    }
  }

  lemma PatternInFirst(s: string, tail: string)
    requires s != "" && tail != "" && tail[0] == '\''
    ensures HasPattern(Escape(s) + tail) <==> (s[0] == '$' && (|s| > 1 ==> Activates(s[1]))) || HasPattern(Escape(s[1..]) + tail)
  {
    var rest := Escape(s[1..]) + tail;
    if s[0] == '\'' {
      Assoc("'\\''", Escape(s[1..]), tail);
      PatternAfterBrokenQuote(rest);
    } else {
      Assoc([s[0]], Escape(s[1..]), tail);
      PatternStep(s[0], rest);
      EscapedStarts(s[1..], tail);
    }
  }

  lemma PatternInOne(arg: string)
    ensures HasPattern(ShQuote(arg)) <==> !Inert(arg)
  {
    Assoc("'", Escape(arg), "'");
    PatternInQuoted(arg, "'");
    assert "'"[1..] == "";
  }

  lemma PatternInMore(arg: string, rest: string)
    ensures HasPattern(ShQuote(arg) + " " + rest) <==> !Inert(arg) || HasPattern(rest)
  {
    assert ShQuote(arg) + " " + rest == "'" + (Escape(arg) + ("'" + (" " + rest)));
    PatternInQuoted(arg, "'" + (" " + rest));
    PatternInRest("'", " ", rest);
  }

  lemma {:induction false} PatternInArgs(args: seq<string>)
    ensures HasPattern(QuotedArgs(args)) <==> exists i :: 0 <= i < |args| && !Inert(args[i])
  {
    if args != [] {
      PatternInArgs(args[1..]);
      NotInertStep(args);
      if |args| == 1 {
        PatternInOne(args[0]);
      } else {
        PatternInMore(args[0], QuotedArgs(args[1..]));
      }
    }
  }

  /** Neither a quote nor a blank in front makes a pattern. */
  lemma PatternInRest(q: string, b: string, rest: string)
    requires |q| == 1 && |b| == 1 && q[0] != '$' && b[0] != '$'
    ensures HasPattern(q + (b + rest)) <==> HasPattern(rest)
  {
    assert (q + (b + rest))[1..] == b + rest && (b + rest)[1..] == rest;
  }

  lemma PatternInQuoted(arg: string, tail: string)
    requires tail != "" && tail[0] == '\''
    ensures HasPattern("'" + (Escape(arg) + tail)) <==> !Inert(arg) || HasPattern(tail)
  {
    PatternInEscaped(arg, tail);
    assert ("'" + (Escape(arg) + tail))[1..] == Escape(arg) + tail;
  }

  lemma NotInertStep(args: seq<string>)
    requires args != []
    ensures (exists i :: 0 <= i < |args| && !Inert(args[i]))
            <==> !Inert(args[0]) || exists i :: 0 <= i < |args[1..]| && !Inert(args[1..][i])
  {
    if i :| 0 <= i < |args| && !Inert(args[i]) {
      if i > 0 { assert !Inert(args[1..][i - 1]); }
    }
    if i :| 0 <= i < |args[1..]| && !Inert(args[1..][i]) {
      assert !Inert(args[i + 1]);
    }
  }

  // ------------------------------------------------------------------------------------------
  // Counting characters the shell never drops
  // ------------------------------------------------------------------------------------------

  function Occurs(c: char, s: string): nat {
    if s == "" then 0 else Occurs(c, s[1..]) + (if s[0] == c then 1 else 0)
  }

  lemma {:induction false} OccursAppend(c: char, a: string, b: string)
    ensures Occurs(c, a + b) == Occurs(c, a) + Occurs(c, b)
  {
    if a == "" {
      assert a + b == b;
    } else {
      assert (a + b)[1..] == a[1..] + b;
      OccursAppend(c, a[1..], b);
    }
  }

  function OccursInWords(c: char, ws: seq<string>): nat {
    if ws == [] then 0 else OccursInWords(c, ws[..|ws| - 1]) + Occurs(c, ws[|ws| - 1])
  }

  function OccursIn(c: char, l: Lexer): nat { OccursInWords(c, l.words) + Occurs(c, Text(l.cur)) }

  /** Quotes, backslashes, blanks and comments are all the shell takes out; line ends it may take out. */
  predicate Kept(c: char) { c != '\'' && c != '"' && c != '\\' && !IsBlank(c) && c != '\n' }

  lemma EndWordKeeps(c: char, l: Lexer)
    ensures OccursIn(c, EndWord(l)) == OccursIn(c, l)
  {
    if l.cur.Some? {
      assert (l.words + [l.cur.value])[..|l.words|] == l.words;
    }
  }

  lemma WordKeeps(c: char, l: Lexer, x: char)
    ensures OccursIn(c, EndWord(l).(words := EndWord(l).words + [[x]])) == OccursIn(c, l) + (if x == c then 1 else 0)
  {
    EndWordKeeps(c, l);
    var ws := EndWord(l).words;
    assert (ws + [[x]])[..|ws|] == ws;
    assert [x][1..] == "";
  }

  lemma AddKeeps(c: char, l: Lexer, s: string)
    ensures OccursIn(c, Add(l, s)) == OccursIn(c, l) + Occurs(c, s)
  {
    OccursAppend(c, Text(l.cur), s);
  }

  /** The next character starts a comment. */
  predicate Opens(l: Lexer, x: char) { l.mode == Plain && l.cur.None? && x == '#' }

  /** How much the next character adds to the count. */
  function Counted(c: char, x: char): nat { if x == c then 1 else 0 }

  lemma NextPlainKeeps(c: char, l: Lexer, x: char)
    requires Kept(c) && l.mode == Plain
    ensures OccursIn(c, Next(l, x)) == OccursIn(c, l) + if Opens(l, x) then 0 else Counted(c, x)
  {
    if IsBlank(x) {
      EndWordKeeps(c, l);
    } else if x == '\'' || x == '"' {
      AddKeeps(c, l, "");
    } else if x == '\\' || Opens(l, x) {
    } else if IsOperator(x) {
      WordKeeps(c, l, x);
      assert OccursIn(c, Next(l, x)) == OccursIn(c, EndWord(l).(words := EndWord(l).words + [[x]]));
    } else {
      AddKeeps(c, l, [x]);
      OneOccurs(c, x);
      assert OccursIn(c, Next(l, x)) == OccursIn(c, Add(l, [x]));
    }
  }

  lemma OneOccurs(c: char, x: char)
    ensures Occurs(c, [x]) == Counted(c, x)
  {
    assert [x][1..] == "";
  }

  lemma NextKeeps(c: char, l: Lexer, x: char)
    requires Kept(c)
    ensures OccursIn(c, Next(l, x)) <= OccursIn(c, l) + Counted(c, x)
    ensures l.mode != Comment && !Opens(l, x) ==> OccursIn(c, Next(l, x)) == OccursIn(c, l) + Counted(c, x)
  {
    if l.mode == Plain {
      NextPlainKeeps(c, l, x);
    } else {
      NextQuotedKeeps(c, l, x);
    }
  }

  lemma NextQuotedKeeps(c: char, l: Lexer, x: char)
    requires Kept(c) && l.mode != Plain
    ensures OccursIn(c, Next(l, x)) == OccursIn(c, l) + if l.mode == Comment then 0 else Counted(c, x)
  {
    assert [x][1..] == "" && ['\\', x][1..] == [x];
    AddKeeps(c, l, [x]);
    AddKeeps(c, l, ['\\', x]);
    WordKeeps(c, l, x);
    assert OccursIn(c, Token(l, x)) == OccursIn(c, EndWord(l).(words := EndWord(l).words + [[x]]));
  }

  /** Reading the text opens a comment. */
  predicate Comments(text: string, l: Lexer)
    decreases |text|
  {
    text != "" && (Opens(l, text[0]) || Comments(text[1..], Next(l, text[0])))
  }

  lemma {:induction false} LexAtMost(c: char, text: string, l: Lexer)
    requires Kept(c)
    ensures OccursIn(c, Lex(text, l)) <= OccursIn(c, l) + Occurs(c, text)
    decreases |text|
  {
    if text != "" {
      NextKeeps(c, l, text[0]);
      LexAtMost(c, text[1..], Next(l, text[0]));
    }
  }

  lemma {:induction false} LexKeeps(c: char, text: string, l: Lexer)
    requires Kept(c) && l.mode != Comment && !Comments(text, l)
    ensures OccursIn(c, Lex(text, l)) == OccursIn(c, l) + Occurs(c, text)
    decreases |text|
  {
    if text != "" {
      NextKeeps(c, l, text[0]);
      LexKeeps(c, text[1..], Next(l, text[0]));
    }
  }

  /** A comment shows: its own sign is missing from the words. */
  lemma {:induction false} CommentShows(text: string, l: Lexer)
    requires Comments(text, l)
    ensures OccursIn('#', Lex(text, l)) < OccursIn('#', l) + Occurs('#', text)
    decreases |text|
  {
    NextKeeps('#', l, text[0]);
    if Opens(l, text[0]) {
      assert OccursIn('#', Next(l, text[0])) == OccursIn('#', l);
      LexAtMost('#', text[1..], Next(l, text[0]));
    } else {
      CommentShows(text[1..], Next(l, text[0]));
    }
  }

  /** All characters but those the shell takes out are in the words, or the comment signs are not. */
  lemma WordsKeep(c: char, text: string)
    requires Kept(c)
    ensures !Comments(text, FRESH) ==> OccursInWords(c, WordsOf(Lex(text, FRESH))) == Occurs(c, text)
    ensures Comments(text, FRESH) ==> OccursInWords('#', WordsOf(Lex(text, FRESH))) < Occurs('#', text)
  {
    EndWordKeeps(c, Lex(text, FRESH));
    EndWordKeeps('#', Lex(text, FRESH));
    if Comments(text, FRESH) {
      CommentShows(text, FRESH);
    } else {
      LexKeeps(c, text, FRESH);
    }
  }

  lemma BrokenQuoteOccurs(c: char)
    requires Kept(c)
    ensures Occurs(c, "'\\''") == 0
  {
    assert "'\\''" == ['\''] + (['\\'] + (['\''] + ['\'']));
    OneOccurs(c, '\'');
    OneOccurs(c, '\\');
    OccursAppend(c, ['\''], ['\'']);
    OccursAppend(c, ['\\'], ['\''] + ['\'']);
    OccursAppend(c, ['\''], ['\\'] + (['\''] + ['\'']));
  }

  lemma {:induction false} EscapeKeeps(c: char, s: string)
    requires Kept(c)
    ensures Occurs(c, Escape(s)) == Occurs(c, s)
  {
    if s != "" {
      EscapeKeeps(c, s[1..]);
      BrokenQuoteOccurs(c);
      OccursAppend(c, "'\\''", Escape(s[1..]));
      OccursAppend(c, [s[0]], Escape(s[1..]));
      assert [s[0]][1..] == "";
    }
  }

  lemma ShQuoteKeeps(c: char, s: string)
    requires Kept(c)
    ensures Occurs(c, ShQuote(s)) == Occurs(c, s)
  {
    EscapeKeeps(c, s);
    OccursAppend(c, "'" + Escape(s), "'");
    OccursAppend(c, "'", Escape(s));
    assert "'"[1..] == "";
  }

  /** The expansion holds every character of the quoted arguments that counts. */
  lemma {:induction false} ExpansionKeeps(c: char, l: Lexer, args: seq<string>)
    requires Kept(c)
    ensures OccursIn(c, AtExpansion(l, args)) == OccursIn(c, l) + Occurs(c, QuotedArgs(args))
    decreases |args|
  {
    if args != [] {
      ShQuoteKeeps(c, args[0]);
      AddKeeps(c, l, args[0]);
      if |args| > 1 {
        var rest := QuotedArgs(args[1..]);
        OccursAppend(c, ShQuote(args[0]) + " ", rest);
        OccursAppend(c, ShQuote(args[0]), " ");
        assert " "[1..] == "";
        EndWordKeeps(c, Add(l, args[0]));
        ExpansionKeeps(c, EndWord(Add(l, args[0])), args[1..]);
      }
    }
  }

  /** A character no pattern takes away and no lexer drops. */
  predicate Ordinary(c: char) { Kept(c) && !Activates(c) }

  predicate HasOrdinary(s: string) { exists i :: 0 <= i < |s| && Ordinary(s[i]) }

  /** What a piece of a template has to be like: no comment sign, and if it has a `$`, some ordinary character too. */
  predicate IsUsual(s: string) { Occurs('#', s) == 0 && (Occurs('$', s) == 0 || HasOrdinary(s)) }

  lemma {:induction false} OrdinaryOccurs(s: string, i: nat)
    requires i < |s|
    ensures Occurs(s[i], s) > 0
  {
    if i > 0 { OrdinaryOccurs(s[1..], i - 1); }
  }

  /** Some ordinary character is in the second text more often than in the first. */
  predicate Gains(r: string, e: string) { exists i :: 0 <= i < |e| && Ordinary(e[i]) && Occurs(e[i], e) > Occurs(e[i], r) }

  lemma Gain(c: char, r: string, e: string)
    requires Ordinary(c) && Occurs(c, e) > Occurs(c, r)
    ensures Gains(r, e)
  {
    if forall i :: 0 <= i < |e| ==> e[i] != c { NoneOccurs(c, e); }
    var i :| 0 <= i < |e| && e[i] == c;
    assert Ordinary(e[i]);
  }

  lemma {:induction false} NoneOccurs(c: char, s: string)
    requires forall i :: 0 <= i < |s| ==> s[i] != c
    ensures Occurs(c, s) == 0
  {
    if s != "" { NoneOccurs(c, s[1..]); }
  }

  lemma PlaceOccurs()
    ensures Occurs('$', PLACE) == 1 && Occurs('@', PLACE) == 1
  {
    assert PLACE[1..] == "$@\"" && PLACE[1..][1..] == "@\"" && PLACE[1..][1..][1..] == "\"";
    assert PLACE[1..][1..][1..][1..] == "";
  }

  /** What replaces a pattern. */
  function Replacement(c: char, before: string, after: string): string {
    match c
    case '$' => "$"
    case '&' => PLACE
    case '`' => before
    case _ => after
  }

  /** Ordinary characters are never lost, and comment signs never gained. */
  lemma {:induction false} ExpandKeeps(c: char, r: string, before: string, after: string)
    requires Ordinary(c)
    ensures Occurs(c, Expand(r, before, after)) >= Occurs(c, r)
    ensures c == '#' && Occurs('#', before) == 0 && Occurs('#', after) == 0 ==> Occurs(c, Expand(r, before, after)) == Occurs(c, r)
    decreases |r|
  {
    if r != "" {
      if r[0] == '$' && |r| > 1 && Activates(r[1]) {
        ExpandKeeps(c, r[2..], before, after);
        assert r[1..][1..] == r[2..];
        OccursAppend(c, Replacement(r[1], before, after), Expand(r[2..], before, after));
        PlaceOccurs();
        assert "$"[1..] == "";
      } else {
        ExpandKeeps(c, r[1..], before, after);
        OccursAppend(c, [r[0]], Expand(r[1..], before, after));
        assert [r[0]][1..] == "";
      }
    }
  }

  /** What a replaced pattern is like: it has an ordinary character, or no `$`, or is the `$` of `$$`. */
  predicate Shows(x: char, s: string) { HasOrdinary(s) || Occurs('$', s) == 0 || (x == '$' && s == "$") }

  lemma ReplacementShows(x: char, before: string, after: string)
    requires Activates(x) && IsUsual(before) && IsUsual(after)
    ensures Shows(x, Replacement(x, before, after))
  {
    if x == '&' { assert PLACE[2] == '@'; }
  }

  /** No ordinary character is lost. */
  ghost predicate Keeps(r: string, e: string) { forall c :: Ordinary(c) ==> Occurs(c, e) >= Occurs(c, r) }

  /** An ordinary character is gained, or no `$` is. */
  predicate GainsOrNot(r: string, e: string) { Gains(r, e) || Occurs('$', e) <= Occurs('$', r) }

  lemma GainBehind(r: string, rest: string, p: string, s: string)
    requires Gains(r, rest) && forall c :: Ordinary(c) ==> Occurs(c, p) <= Occurs(c, s)
    ensures Gains(p + r, s + rest)
  {
    var i :| 0 <= i < |rest| && Ordinary(rest[i]) && Occurs(rest[i], rest) > Occurs(rest[i], r);
    OccursAppend(rest[i], s, rest);
    OccursAppend(rest[i], p, r);
    Gain(rest[i], p + r, s + rest);
  }

  lemma GainInFront(r: string, rest: string, p: string, s: string)
    requires Keeps(r, rest) && HasOrdinary(s) && forall c :: Ordinary(c) ==> Occurs(c, p) == 0
    ensures Gains(p + r, s + rest)
  {
    var i :| 0 <= i < |s| && Ordinary(s[i]);
    OrdinaryOccurs(s, i);
    OccursAppend(s[i], s, rest);
    OccursAppend(s[i], p, r);
    Gain(s[i], p + r, s + rest);
  }

  /** A pattern in front, replaced. */
  lemma PatternShows(x: char, s: string, r: string, rest: string)
    requires Activates(x) && Shows(x, s) && Keeps(r, rest) && GainsOrNot(r, rest)
    ensures Gains(['$', x] + r, s + rest) || Occurs('$', s + rest) < Occurs('$', ['$', x] + r)
  {
    var p := ['$', x];
    assert p[1..] == [x] && [x][1..] == "" && "$"[1..] == "";
    forall c | Ordinary(c)
      ensures Occurs(c, p) == 0
    {
      assert ['$'] + [x] == p;
      OccursAppend(c, ['$'], [x]);
      OneOccurs(c, '$');
      OneOccurs(c, x);
    }
    OccursAppend('$', p, r);
    OccursAppend('$', s, rest);
    if HasOrdinary(s) {
      GainInFront(r, rest, p, s);
    } else if Gains(r, rest) {
      GainBehind(r, rest, p, s);
    }
  }

  /** A character that stays in front. */
  lemma CharShows(c: char, r: string, rest: string)
    requires GainsOrNot(r, rest)
    ensures Gains([c] + r, [c] + rest) || (Occurs('$', [c] + rest) - Occurs('$', rest) == Occurs('$', [c] + r) - Occurs('$', r))
    ensures GainsOrNot([c] + r, [c] + rest)
    ensures Gains(r, rest) ==> Gains([c] + r, [c] + rest)
  {
    OccursAppend('$', [c], r);
    OccursAppend('$', [c], rest);
    if Gains(r, rest) { GainBehind(r, rest, [c], [c]); }
  }

  lemma ExpandKeepsAll(r: string, before: string, after: string)
    ensures Keeps(r, Expand(r, before, after))
  {
    forall c | Ordinary(c)
      ensures Occurs(c, Expand(r, before, after)) >= Occurs(c, r)
    {
      ExpandKeeps(c, r, before, after);
    }
  }

  /** A text with patterns shows it: an ordinary character is gained, or a `$` lost. */
  lemma {:induction false} PatternsShow(r: string, before: string, after: string)
    requires IsUsual(before) && IsUsual(after)
    ensures var e := Expand(r, before, after);
            GainsOrNot(r, e) && (HasPattern(r) && !Gains(r, e) ==> Occurs('$', e) < Occurs('$', r))
    decreases |r|
  {
    if r != "" {
      if r[0] == '$' && |r| > 1 && Activates(r[1]) {
        PatternsShow(r[2..], before, after);
        ExpandKeepsAll(r[2..], before, after);
        ReplacementShows(r[1], before, after);
        PatternShows(r[1], Replacement(r[1], before, after), r[2..], Expand(r[2..], before, after));
        assert ['$', r[1]] + r[2..] == r;
      } else {
        PatternsShow(r[1..], before, after);
        CharShows(r[0], r[1..], Expand(r[1..], before, after));
        assert [r[0]] + r[1..] == r;
      }
    }
  }

  // ------------------------------------------------------------------------------------------
  // Through the placeholder
  // ------------------------------------------------------------------------------------------

  function Before(script: string): string { script[..FindPlace(script)] }

  function After(script: string): string
    requires FindPlace(script) < |script|
  {
    script[FindPlace(script) + 4..]
  }

  /** The script has the placeholder, outside quotes and comments and not glued to a comment sign. */
  predicate HasPlace(script: string) {
    && FindPlace(script) < |script| && Lex(Before(script), FRESH).mode == Plain
    && (After(script) == "" || After(script)[0] != '#')
  }

  /** What the shell makes of the script when its own `"$@"` stands for the arguments. */
  function Meant(script: string, args: seq<string>): Lexer
    requires FindPlace(script) < |script|
  {
    Lex(After(script), AtExpansion(Lex(Before(script), FRESH), args))
  }

  /** Put in as they are, the quoted arguments are read as the placeholder is meant. */
  lemma LiteralSubstitution(script: string, args: seq<string>)
    requires HasPlace(script)
    ensures Lex(Before(script) + QuotedArgs(args) + After(script), FRESH) == Meant(script, args)
  {
    var before, q, after := Before(script), QuotedArgs(args), After(script);
    Assoc(before, q, after);
    LexAppend(before, q + after, FRESH);
    LexAppend(q, after, Lex(before, FRESH));
    LexArgs(args, Lex(before, FRESH));
  }

  /** As a word of its own, the placeholder means exactly the arguments, between the script's own words. */
  lemma PlaceOnItsOwn(script: string, args: seq<string>)
    requires HasPlace(script) && Lex(Before(script), FRESH).cur == None
    requires StartsApart(After(script))
    ensures WordsOf(Meant(script, args)) == WordsOf(Lex(Before(script), FRESH)) + args + WordsOf(Lex(After(script), FRESH))
  {
    ExpansionOnItsOwn(Lex(Before(script), FRESH), args);
    LexAfterArgs(After(script), AtExpansion(Lex(Before(script), FRESH), args));
  }

  /** Words read earlier do not change how the rest is read. */
  lemma {:induction false} LexAfterWords(text: string, l: Lexer, pre: seq<string>)
    ensures Lex(text, l.(words := pre + l.words)) == Lex(text, l).(words := pre + Lex(text, l).words)
    decreases |text|
  {
    if text != "" {
      var n := Next(l, text[0]);
      assert Next(l.(words := pre + l.words), text[0]) == n.(words := pre + n.words) by {
        if l.cur.Some? {
          assert pre + l.words + [l.cur.value] == pre + (l.words + [l.cur.value]);
        }
      }
      LexAfterWords(text[1..], n, pre);
    }
  }

  /** The text starts where no word is being read on. */
  predicate StartsApart(text: string) { text == "" || IsBlank(text[0]) || IsOperator(text[0]) }

  /** Such a text is read the same wherever it stands. */
  lemma LexAfterArgs(after: string, l: Lexer)
    requires l.mode == Plain && StartsApart(after)
    ensures WordsOf(Lex(after, l)) == WordsOf(l) + WordsOf(Lex(after, FRESH))
  {
    var pre := EndWord(l).words;
    if after == "" {
      assert pre + [] == pre;
    } else {
      var rest, first := after[1..], Next(FRESH, after[0]);
      var l2 := Lex(rest, first);
      assert pre + [] == pre && l.bare + "" == l.bare;
      assert Next(l, after[0]) == first.(words := pre + first.words).(bare := l.bare + first.bare);
      LexAfterWords(rest, first, pre);
      LexAfterBare(rest, first.(words := pre + first.words), l.bare);
      if l2.cur.Some? {
        assert pre + l2.words + [l2.cur.value] == pre + (l2.words + [l2.cur.value]);
      }
    }
  }

  lemma {:induction false} LexAfterBare(text: string, l: Lexer, pre: string)
    ensures Lex(text, l.(bare := pre + l.bare)) == Lex(text, l).(bare := pre + Lex(text, l).bare)
    decreases |text|
  {
    if text != "" {
      var n := Next(l, text[0]);
      assert Next(l.(bare := pre + l.bare), text[0]) == n.(bare := pre + n.bare) by {
        assert pre + l.bare + [text[0]] == pre + (l.bare + [text[0]]);
      }
      LexAfterBare(text[1..], n, pre);
    }
  }

  /** When no argument has an active `$`, the command is read, to the last character, as the placeholder is meant. */
  lemma InertArgsAreExact(script: string, args: seq<string>)
    requires HasPlace(script) && forall i :: 0 <= i < |args| ==> Inert(args[i])
    ensures Lex(BuildCommand(script, args), FRESH) == Meant(script, args)
  {
    PatternInArgs(args);
    NoPatternNoChange(QuotedArgs(args), Before(script), After(script));
    LiteralSubstitution(script, args);
  }

  lemma SplitOccurs(c: char, before: string, r: string, after: string)
    ensures Occurs(c, before + r + after) == Occurs(c, before) + Occurs(c, r) + Occurs(c, after)
  {
    OccursAppend(c, before + r, after);
    OccursAppend(c, before, r);
  }

  /** The words the placeholder means hold every character that counts. */
  lemma MeantKeeps(c: char, script: string, args: seq<string>)
    requires HasPlace(script) && Kept(c) && Occurs('#', Before(script)) == 0 && Occurs('#', After(script)) == 0
    ensures OccursInWords(c, WordsOf(Meant(script, args)))
              == Occurs(c, Before(script) + QuotedArgs(args) + After(script))
  {
    var before, after := Before(script), After(script);
    var l := AtExpansion(Lex(before, FRESH), args);
    NoSignNoComment(before, FRESH);
    LexKeeps(c, before, FRESH);
    ExpansionKeeps(c, Lex(before, FRESH), args);
    ExpansionStaysPlain(Lex(before, FRESH), args);
    NoSignNoComment(after, l);
    LexKeeps(c, after, l);
    EndWordKeeps(c, Meant(script, args));
    SplitOccurs(c, before, QuotedArgs(args), after);
  }

  lemma {:induction false} ExpansionStaysPlain(l: Lexer, args: seq<string>)
    ensures AtExpansion(l, args).mode == l.mode
    decreases |args|
  {
    if |args| > 1 { ExpansionStaysPlain(EndWord(Add(l, args[0])), args[1..]); }
  }

  lemma {:induction false} NoSignNoComment(text: string, l: Lexer)
    requires Occurs('#', text) == 0
    ensures !Comments(text, l)
    decreases |text|
  {
    if text != "" { NoSignNoComment(text[1..], Next(l, text[0])); }
  }

  /** When the words come out as meant, no character that counts was gained or lost. */
  lemma SameWordsSameCounts(c: char, script: string, args: seq<string>)
    requires HasPlace(script) && IsUsual(Before(script)) && IsUsual(After(script)) && Kept(c)
    requires WordsOf(Lex(BuildCommand(script, args), FRESH)) == WordsOf(Meant(script, args))
    ensures Occurs(c, Expand(QuotedArgs(args), Before(script), After(script))) == Occurs(c, QuotedArgs(args))
  {
    var before, q, after := Before(script), QuotedArgs(args), After(script);
    var e := Expand(q, before, after);
    WordsKeep(c, before + e + after);
    MeantKeeps(c, script, args);
    MeantKeeps('#', script, args);
    ExpandKeeps('#', q, before, after);
    SplitOccurs('#', before, e, after);
    SplitOccurs('#', before, q, after);
    SplitOccurs(c, before, e, after);
    SplitOccurs(c, before, q, after);
  }

  /**
   * Through the placeholder the shell reads the words the script means if and only if no argument ends in `$`
   * or has `$` before `$`, `&`, a backquote or a quote.
   */
  lemma TemplateArgsAreExactIff(script: string, args: seq<string>)
    requires HasPlace(script) && IsUsual(Before(script)) && IsUsual(After(script))
    ensures WordsOf(Lex(BuildCommand(script, args), FRESH)) == WordsOf(Meant(script, args))
            <==> forall i :: 0 <= i < |args| ==> Inert(args[i])
  {
    var q := QuotedArgs(args);
    PatternInArgs(args);
    if HasPattern(q) {
      if WordsOf(Lex(BuildCommand(script, args), FRESH)) == WordsOf(Meant(script, args)) {
        var e := Expand(q, Before(script), After(script));
        PatternsShow(q, Before(script), After(script));
        if i :| 0 <= i < |e| && Ordinary(e[i]) && Occurs(e[i], e) > Occurs(e[i], q) {
          SameWordsSameCounts(e[i], script, args);
        } else {
          SameWordsSameCounts('$', script, args);
        }
      }
    } else {
      InertArgsAreExact(script, args);
    }
  }

  // ------------------------------------------------------------------------------------------
  // An argument that does not arrive
  // ------------------------------------------------------------------------------------------

  lemma {:induction false} FirstPlace(before: string, after: string)
    requires Occurs('$', before) == 0
    ensures FindPlace(before + PLACE + after) == |before|
  {
    var s := before + PLACE + after;
    if before == "" {
      assert s[..4] == PLACE;
    } else {
      assert s[1..] == before[1..] + PLACE + after;
      FirstPlace(before[1..], after);
      NeverOccurs('$', before);
      assert s[1] == if |before| > 1 then before[1] else PLACE[0];
      assert s[..4][1] != PLACE[1];
    }
  }

  lemma {:induction false} NeverOccurs(c: char, s: string)
    requires Occurs(c, s) == 0
    ensures forall i :: 0 <= i < |s| ==> s[i] != c
  {
    if s != "" {
      NeverOccurs(c, s[1..]);
    }
  }

  lemma DollarQuoted()
    ensures QuotedArgs(["a$"]) == "'a$'"
  {
    assert "a$"[1..] == "$" && "$"[1..] == "";
    assert Escape("$") == "$" && Escape("a$") == "a$";
  }

  lemma DollarPattern()
    ensures Expand("'a$'", "run ", "") == "'a"
  {
    assert "'a$'"[1..] == "a$'" && "a$'"[1..] == "$'" && "$'"[2..] == "";
    assert Expand("$'", "run ", "") == "";
    assert Expand("a$'", "run ", "") == "a";
  }

  lemma RunIsUsual()
    ensures Lex("run ", FRESH).mode == Plain && Lex("run ", FRESH).cur == None
    ensures IsUsual("run ") && IsUsual("") && Occurs('$', "run ") == 0
  {
    assert "run "[1..] == "un " && "un "[1..] == "n " && "n "[1..] == " " && " "[1..] == "";
  }

  /** An argument that ends in `$` does not arrive: the closing quote completes a pattern. */
  lemma TrailingDollarIsLost()
    ensures var script := "run " + PLACE;
            && HasPlace(script) && BuildCommand(script, ["a$"]) == "run 'a"
            && WordsOf(Lex(BuildCommand(script, ["a$"]), FRESH)) != WordsOf(Meant(script, ["a$"]))
  {
    RunIsUsual();
    FirstPlace("run ", "");
    var script := "run " + PLACE;
    assert "run " + PLACE + "" == script;
    assert Before(script) == "run " && After(script) == "";
    DollarQuoted();
    DollarPattern();
    assert "run " + "'a" + "" == "run 'a";
    TemplateArgsAreExactIff(script, ["a$"]);
    assert "a$"[1..] == "$" && !Inert("$") && !Inert(["a$"][0]);
  }
}
