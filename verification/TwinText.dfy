/**
 * White space to JavaScript and to Python, and where trimming it gives both the same text
 * (`trim` in src/lib/decision-schema.ts, `strip` in trainers/unsloth-decision-train/decision_schema.py).
 */
module TwinText {
  import opened Lines

  /** White space to Python: also the separators 0x1C to 0x1F and 0x85, but not the byte order mark. */
  predicate PyIsSpace(c: char) {
    (IsSpace(c) && c != '\U{FEFF}') || '\U{1C}' <= c <= '\U{1F}' || c == '\U{85}'
  }

  function PyStripStart(s: string): string {
    if s != "" && PyIsSpace(s[0]) then PyStripStart(s[1..]) else s
  }

  function PyStripEnd(s: string): string {
    if s != "" && PyIsSpace(s[|s| - 1]) then PyStripEnd(s[..|s| - 1]) else s
  }

  function PyStrip(s: string): string { PyStripEnd(PyStripStart(s)) }

  predicate OnlySpaces(s: string) { forall i :: 0 <= i < |s| ==> IsSpace(s[i]) }

  predicate OnlyPySpaces(s: string) { forall i :: 0 <= i < |s| ==> PyIsSpace(s[i]) }

  /** White space to JavaScript and not to Python: the byte order mark. */
  predicate HasMark(s: string) { exists i :: 0 <= i < |s| && s[i] == '\U{FEFF}' }

  /** White space to Python and not to JavaScript. */
  predicate HasSeparator(s: string) { exists i :: 0 <= i < |s| && ('\U{1C}' <= s[i] <= '\U{1F}' || s[i] == '\U{85}') }

  lemma {:induction false} TrimIsEmpty(s: string)
    ensures Trim(s) == "" <==> OnlySpaces(s)
  {
    if s != "" {
      if IsSpace(s[0]) {
        TrimIsEmpty(s[1..]);
        assert s == [s[0]] + s[1..];
      } else {
        BlankEnds(s);
      }
    }
  }

  /** Text that does not start with white space is not trimmed away. */
  lemma {:induction false} BlankEnds(s: string)
    requires s != "" && !IsSpace(s[0])
    ensures TrimEnd(s) != ""
  {
    if IsSpace(s[|s| - 1]) { BlankEnds(s[..|s| - 1]); }
  }

  lemma {:induction false} PyStripIsEmpty(s: string)
    ensures PyStrip(s) == "" <==> OnlyPySpaces(s)
  {
    if s != "" {
      if PyIsSpace(s[0]) {
        PyStripIsEmpty(s[1..]);
        assert s == [s[0]] + s[1..];
      } else {
        PyBlankEnds(s);
      }
    }
  }

  lemma {:induction false} PyBlankEnds(s: string)
    requires s != "" && !PyIsSpace(s[0])
    ensures PyStripEnd(s) != ""
  {
    if PyIsSpace(s[|s| - 1]) { PyBlankEnds(s[..|s| - 1]); }
  }

  lemma SpacesDiffer(s: string)
    ensures OnlySpaces(s) && !HasMark(s) ==> OnlyPySpaces(s)
    ensures OnlyPySpaces(s) && !HasSeparator(s) ==> OnlySpaces(s)
    ensures OnlySpaces(s) && HasMark(s) ==> !OnlyPySpaces(s)
    ensures OnlyPySpaces(s) && HasSeparator(s) ==> !OnlySpaces(s)
  {
  }

  // ------------------------------------------------------------------------------------------
  // Trimming
  // ------------------------------------------------------------------------------------------

  /** Text without a mark and without a separator is trimmed alike. */
  lemma SameStrip(s: string)
    requires !HasMark(s) && !HasSeparator(s)
    ensures PyStrip(s) == Trim(s)
  {
    SameStart(s);
    var t := TrimStart(s);
    TrimStartShape(s);
    var k :| 0 <= k <= |s| && t == s[k..];
    assert forall i :: 0 <= i < |t| ==> t[i] == s[k + i];
    SameEnd(t);
  }

  predicate SpacedAlike(s: string) { forall i :: 0 <= i < |s| ==> (IsSpace(s[i]) <==> PyIsSpace(s[i])) }

  lemma {:induction false} SameStart(s: string)
    requires SpacedAlike(s)
    ensures PyStripStart(s) == TrimStart(s)
  {
    if s != "" && IsSpace(s[0]) { SameStart(s[1..]); }
  }

  lemma {:induction false} SameEnd(s: string)
    requires SpacedAlike(s)
    ensures PyStripEnd(s) == TrimEnd(s)
  {
    if s != "" && IsSpace(s[|s| - 1]) { SameEnd(s[..|s| - 1]); }
  }

  /** Only white space of the given kind stands outside `s[j..k]`. */
  predicate Padded(space: char -> bool, s: string, j: int, k: int) {
    && 0 <= j <= k <= |s|
    && (forall i :: 0 <= i < j ==> space(s[i]))
    && (forall i :: k <= i < |s| ==> space(s[i]))
  }

  lemma {:induction false} StartIsPadded(s: string) returns (j: nat)
    ensures Padded(IsSpace, s, j, |s|) && TrimStart(s) == s[j..]
  {
    j := 0;
    if s != "" && IsSpace(s[0]) {
      j := StartIsPadded(s[1..]);
      assert s[1..][j..] == s[j + 1..];
      assert forall i :: 0 < i < j + 1 ==> s[i] == s[1..][i - 1];
      j := j + 1;
    }
  }

  lemma {:induction false} EndIsPadded(s: string) returns (k: nat)
    ensures Padded(IsSpace, s, 0, k) && TrimEnd(s) == s[..k]
  {
    k := |s|;
    if s != "" && IsSpace(s[|s| - 1]) {
      k := EndIsPadded(s[..|s| - 1]);
      assert s[..|s| - 1][..k] == s[..k];
    }
  }

  /** What is trimmed away is white space. */
  lemma TrimIsPadded(s: string) returns (j: nat, k: nat)
    ensures Padded(IsSpace, s, j, k) && Trim(s) == s[j..k]
  {
    j := StartIsPadded(s);
    k := EndIsPadded(s[j..]);
    assert s[j..][..k] == s[j..j + k];
    assert forall i :: j + k <= i < |s| ==> s[i] == s[j..][i - j];
    k := j + k;
  }

  lemma {:induction false} PyStartIsPadded(s: string) returns (j: nat)
    ensures Padded(PyIsSpace, s, j, |s|) && PyStripStart(s) == s[j..]
  {
    j := 0;
    if s != "" && PyIsSpace(s[0]) {
      j := PyStartIsPadded(s[1..]);
      assert s[1..][j..] == s[j + 1..];
      assert forall i :: 0 < i < j + 1 ==> s[i] == s[1..][i - 1];
      j := j + 1;
    }
  }

  lemma {:induction false} PyEndIsPadded(s: string) returns (k: nat)
    ensures Padded(PyIsSpace, s, 0, k) && PyStripEnd(s) == s[..k]
  {
    k := |s|;
    if s != "" && PyIsSpace(s[|s| - 1]) {
      k := PyEndIsPadded(s[..|s| - 1]);
      assert s[..|s| - 1][..k] == s[..k];
    }
  }

  lemma PyStripIsPadded(s: string) returns (j: nat, k: nat)
    ensures Padded(PyIsSpace, s, j, k) && PyStrip(s) == s[j..k]
  {
    j := PyStartIsPadded(s);
    k := PyEndIsPadded(s[j..]);
    assert s[j..][..k] == s[j..j + k];
    assert forall i :: j + k <= i < |s| ==> s[i] == s[j..][i - j];
    k := j + k;
  }

  lemma {:induction false} TrimPadStart(s: string, j: nat)
    requires j < |s| && Padded(IsSpace, s, j, |s|) && !IsSpace(s[j])
    ensures TrimStart(s) == s[j..]
  {
    if j > 0 {
      assert s[1..][j - 1..] == s[j..];
      TrimPadStart(s[1..], j - 1);
    }
  }

  lemma {:induction false} TrimPadEnd(s: string, k: nat)
    requires 0 < k <= |s| && Padded(IsSpace, s, 0, k) && !IsSpace(s[k - 1])
    ensures TrimEnd(s) == s[..k]
  {
    if k < |s| {
      assert s[..|s| - 1][..k] == s[..k];
      TrimPadEnd(s[..|s| - 1], k);
    } else {
      assert s[..k] == s;
    }
  }

  /** Text padded with white space is trimmed to itself. */
  lemma TrimPad(s: string, j: nat, k: nat)
    requires j < k && Padded(IsSpace, s, j, k) && !IsSpace(s[j]) && !IsSpace(s[k - 1])
    ensures Trim(s) == s[j..k]
  {
    TrimPadStart(s, j);
    assert s[j..][k - j - 1] == s[k - 1];
    TrimPadEnd(s[j..], k - j);
    assert s[j..][..k - j] == s[j..k];
  }

  lemma {:induction false} PyTrimPadStart(s: string, j: nat)
    requires j < |s| && Padded(PyIsSpace, s, j, |s|) && !PyIsSpace(s[j])
    ensures PyStripStart(s) == s[j..]
  {
    if j > 0 {
      assert s[1..][j - 1..] == s[j..];
      PyTrimPadStart(s[1..], j - 1);
    }
  }

  lemma {:induction false} PyTrimPadEnd(s: string, k: nat)
    requires 0 < k <= |s| && Padded(PyIsSpace, s, 0, k) && !PyIsSpace(s[k - 1])
    ensures PyStripEnd(s) == s[..k]
  {
    if k < |s| {
      assert s[..|s| - 1][..k] == s[..k];
      PyTrimPadEnd(s[..|s| - 1], k);
    } else {
      assert s[..k] == s;
    }
  }

  lemma PyTrimPad(s: string, j: nat, k: nat)
    requires j < k && Padded(PyIsSpace, s, j, k) && !PyIsSpace(s[j]) && !PyIsSpace(s[k - 1])
    ensures PyStrip(s) == s[j..k]
  {
    PyTrimPadStart(s, j);
    assert s[j..][k - j - 1] == s[k - 1];
    PyTrimPadEnd(s[j..], k - j);
    assert s[j..][..k - j] == s[j..k];
  }

  // ------------------------------------------------------------------------------------------
  // Yes and no
  // ------------------------------------------------------------------------------------------

  predicate IsLetter(c: char) { 'A' <= c <= 'Z' || 'a' <= c <= 'z' }

  /** "true" or "false", in upper or lower case. */
  predicate IsYesNo(w: string) { Lower(w) in ["false", "true"] }

  lemma {:induction false} LowerShape(s: string)
    ensures |Lower(s)| == |s| && forall i :: 0 <= i < |s| ==> Lower(s)[i] == LowerChar(s[i])
  {
    if s != "" { LowerShape(s[1..]); }
  }

  lemma YesNoIsLetters(w: string)
    requires IsYesNo(w)
    ensures w != "" && forall i :: 0 <= i < |w| ==> IsLetter(w[i])
  {
    LowerShape(w);
    forall i | 0 <= i < |w|
      ensures IsLetter(w[i])
    {
      assert IsLetter(Lower(w)[i]);
    }
  }

  predicate EitherSpace(c: char) { IsSpace(c) || PyIsSpace(c) }

  /** A yes/no word, padded with what is white space to at least one of the languages. */
  predicate YesNoAt(s: string, j: int, k: int) { Padded(EitherSpace, s, j, k) && IsYesNo(s[j..k]) }

  predicate YesNoInBlanks(s: string) { exists j, k :: 0 <= j <= k <= |s| && YesNoAt(s, j, k) }

  /** JavaScript finds the word exactly when no separator stands around it. */
  lemma JsYesNoIff(s: string)
    ensures IsYesNo(Trim(s)) <==> YesNoInBlanks(s) && !HasSeparator(s)
  {
    if IsYesNo(Trim(s)) {
      var j, k := TrimIsPadded(s);
      YesNoIsLetters(s[j..k]);
      forall i | 0 <= i < |s|
        ensures IsSpace(s[i]) || IsLetter(s[i])
      {
        if j <= i < k { assert s[i] == s[j..k][i - j]; }
      }
      assert YesNoAt(s, j, k);
    }
    if YesNoInBlanks(s) && !HasSeparator(s) {
      var j, k :| 0 <= j <= k <= |s| && YesNoAt(s, j, k);
      YesNoIsLetters(s[j..k]);
      assert s[j] == s[j..k][0] && s[k - 1] == s[j..k][k - 1 - j];
      TrimPad(s, j, k);
    }
  }

  /** Python finds it exactly when no mark does. */
  lemma PyYesNoIff(s: string)
    ensures IsYesNo(PyStrip(s)) <==> YesNoInBlanks(s) && !HasMark(s)
  {
    if IsYesNo(PyStrip(s)) {
      var j, k := PyStripIsPadded(s);
      YesNoIsLetters(s[j..k]);
      forall i | 0 <= i < |s|
        ensures PyIsSpace(s[i]) || IsLetter(s[i])
      {
        if j <= i < k { assert s[i] == s[j..k][i - j]; }
      }
      assert YesNoAt(s, j, k);
    }
    if YesNoInBlanks(s) && !HasMark(s) {
      var j, k :| 0 <= j <= k <= |s| && YesNoAt(s, j, k);
      YesNoIsLetters(s[j..k]);
      assert s[j] == s[j..k][0] && s[k - 1] == s[j..k][k - 1 - j];
      PyTrimPad(s, j, k);
    }
  }
}
