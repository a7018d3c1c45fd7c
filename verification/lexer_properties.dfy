/** What a successful or failed tokenization says about its input: newline
    fidelity, coverage of the input, which characters can appear, and how
    the source's read past the end relates to the bounds-checked lexer. */
module LexerProperties {
  import opened Wrappers
  import opened CharClass
  import opened Lexer

  /** Number of occurrences of c in s. */
  function Occurrences(s: string, c: char): nat
  {
    if s == [] then 0 else (if s[0] == c then 1 else 0) + Occurrences(s[1..], c)
  }

  /** Number of tokens of kind k. */
  function CountKind(ts: seq<Token>, k: TokenType): nat
  {
    if ts == [] then 0 else (if ts[0].kind == k then 1 else 0) + CountKind(ts[1..], k)
  }

  /** The input with the skipped whitespace removed. */
  function StripBlanks(s: string): string
  {
    if s == [] then [] else (if IsBlank(s[0]) then [] else [s[0]]) + StripBlanks(s[1..])
  }

  /** The lexemes of the tokens, concatenated in order. */
  function Text(ts: seq<Token>): string
  {
    if ts == [] then [] else Lexeme(ts[0]) + Text(ts[1..])
  }

  lemma OccurrencesAppend(a: string, b: string, c: char)
    ensures Occurrences(a + b, c) == Occurrences(a, c) + Occurrences(b, c)
  {
    if a != [] {
      assert (a + b)[1..] == a[1..] + b;
      OccurrencesAppend(a[1..], b, c);
    } else {
      assert a + b == b;
    }
  }

  lemma {:induction false} OccurrencesAbsent(a: string, c: char)
    requires forall m :: 0 <= m < |a| ==> a[m] != c
    ensures Occurrences(a, c) == 0
  {
    if a != [] {
      OccurrencesAbsent(a[1..], c);
    }
  }

  lemma StripBlanksAppend(a: string, b: string)
    ensures StripBlanks(a + b) == StripBlanks(a) + StripBlanks(b)
  {
    if a != [] {
      assert (a + b)[1..] == a[1..] + b;
      StripBlanksAppend(a[1..], b);
    } else {
      assert a + b == b;
    }
  }

  lemma {:induction false} StripBlanksKeeps(a: string)
    requires forall m :: 0 <= m < |a| ==> !IsBlank(a[m])
    ensures StripBlanks(a) == a
  {
    if a != [] {
      StripBlanksKeeps(a[1..]);
    }
  }

  lemma CountKindAppend(a: seq<Token>, b: seq<Token>, k: TokenType)
    ensures CountKind(a + b, k) == CountKind(a, k) + CountKind(b, k)
  {
    if a != [] {
      assert (a + b)[1..] == a[1..] + b;
      CountKindAppend(a[1..], b, k);
    } else {
      assert a + b == b;
    }
  }

  lemma TextAppend(a: seq<Token>, b: seq<Token>)
    ensures Text(a + b) == Text(a) + Text(b)
  {
    if a != [] {
      assert (a + b)[1..] == a[1..] + b;
      TextAppend(a[1..], b);
    } else {
      assert a + b == b;
    }
  }

  /** A slice split at k is the concatenation of its two halves. */
  lemma SplitAt(s: string, i: nat, k: nat)
    requires i <= k <= |s|
    ensures s[i..] == s[i..k] + s[k..]
  {
  }

  /** The inductive step of NewlineFidelity, on plain sequences. */
  lemma NewlinesCompose(x: string, y: string, e: seq<Token>, rest: seq<Token>)
    requires Occurrences(x, '\n') == CountKind(e, NewLine)
    requires Occurrences(y, '\n') == CountKind(rest, NewLine)
    ensures Occurrences(x + y, '\n') == CountKind(e + rest, NewLine)
  {
    OccurrencesAppend(x, y, '\n');
    CountKindAppend(e, rest, NewLine);
  }

  /** The inductive step of Coverage, on plain sequences. */
  lemma TextCompose(x: string, y: string, e: seq<Token>, rest: seq<Token>)
    requires StripBlanks(x) == Text(e) && StripBlanks(y) == Text(rest)
    ensures StripBlanks(x + y) == Text(e + rest)
  {
    StripBlanksAppend(x, y);
    TextAppend(e, rest);
  }

  /** The characters a well-formed token's lexeme is made of. */
  lemma LexemeChars(t: Token)
    requires WellFormed(t)
    ensures forall m :: 0 <= m < |Lexeme(t)| ==> IsAlnum(Lexeme(t)[m]) || Lexeme(t)[m] == '\n'
    ensures forall m :: 0 <= m < |Lexeme(t)| ==> !IsBlank(Lexeme(t)[m])
    ensures forall m :: 0 <= m < |Lexeme(t)| ==> (Lexeme(t)[m] == '\n' <==> t.kind == NewLine)
  {
    if t.kind == Return {
      forall m | 0 <= m < |Lexeme(t)|
        ensures IsAlnum(Lexeme(t)[m])
      {
        assert Lexeme(t)[m] in "return";
      }
    }
  }

  /** What one pass of the loop body contributes, counted by line feeds. */
  lemma StepNewlines(s: string, i: nat, bounds: Bounds)
    requires i < |s| && ScanStep(s, i, bounds).Advance?
    ensures var st := ScanStep(s, i, bounds);
            Occurrences(s[i..st.next], '\n') == CountKind(Emitted(st.token), NewLine)
  {
    var st := ScanStep(s, i, bounds);
    StepEmits(s, i, bounds);
    if st.token.Some? {
      var t := st.token.value;
      assert Emitted(st.token)[1..] == [];
      LexemeChars(t);
      if t.kind == NewLine {
        assert s[i..st.next] == "\n";
      } else {
        OccurrencesAbsent(s[i..st.next], '\n');
      }
    } else {
      assert s[i..st.next] == [s[i]];
    }
  }

  /** What one pass of the loop body contributes to the stripped text. */
  lemma StepText(s: string, i: nat, bounds: Bounds)
    requires i < |s| && ScanStep(s, i, bounds).Advance?
    ensures var st := ScanStep(s, i, bounds);
            StripBlanks(s[i..st.next]) == Text(Emitted(st.token))
  {
    var st := ScanStep(s, i, bounds);
    StepEmits(s, i, bounds);
    if st.token.Some? {
      assert Emitted(st.token)[1..] == [];
      assert Lexeme(st.token.value) + [] == Lexeme(st.token.value);
      LexemeChars(st.token.value);
      StripBlanksKeeps(s[i..st.next]);
    } else {
      assert s[i..st.next] == [s[i]];
    }
  }

  /** One pass of the loop followed by the rest of the scan. */
  lemma TokenizeUnfold(s: string, i: nat, bounds: Bounds)
    requires i < |s| && TokenizeFrom(s, i, bounds).Ok?
    ensures ScanStep(s, i, bounds).Advance?
    ensures var st := ScanStep(s, i, bounds);
            TokenizeFrom(s, st.next, bounds).Ok?
            && TokenizeFrom(s, i, bounds).value == Emitted(st.token) + TokenizeFrom(s, st.next, bounds).value
  {
    var st := ScanStep(s, i, bounds);
    if st.token.None? {
      assert [] + TokenizeFrom(s, st.next, bounds).value == TokenizeFrom(s, st.next, bounds).value;
    }
  }

  /** Newline fidelity: a successful scan emits one NewLine token per line
      feed of the input, whichever bounds discipline the scanners keep. */
  lemma {:induction false} NewlineFidelity(s: string, i: nat, bounds: Bounds)
    requires i <= |s| && TokenizeFrom(s, i, bounds).Ok?
    ensures CountKind(TokenizeFrom(s, i, bounds).value, NewLine) == Occurrences(s[i..], '\n')
    decreases |s| - i
  {
    if i == |s| {
      assert s[i..] == [];
    } else {
      var st := ScanStep(s, i, bounds);
      var k := st.next;
      TokenizeUnfold(s, i, bounds);
      var rest := TokenizeFrom(s, k, bounds).value;
      NewlineFidelity(s, k, bounds);
      StepNewlines(s, i, bounds);
      SplitAt(s, i, k);
      NewlinesCompose(s[i..k], s[k..], Emitted(st.token), rest);
    }
  }

  /** Coverage: the lexemes of the emitted tokens, in order, spell out the
      input with its skipped whitespace removed; no other input is lost. */
  lemma {:induction false} Coverage(s: string, i: nat, bounds: Bounds)
    requires i <= |s| && TokenizeFrom(s, i, bounds).Ok?
    ensures Text(TokenizeFrom(s, i, bounds).value) == StripBlanks(s[i..])
    decreases |s| - i
  {
    if i == |s| {
      assert s[i..] == [];
    } else {
      var st := ScanStep(s, i, bounds);
      var k := st.next;
      TokenizeUnfold(s, i, bounds);
      var rest := TokenizeFrom(s, k, bounds).value;
      Coverage(s, k, bounds);
      StepText(s, i, bounds);
      SplitAt(s, i, k);
      TextCompose(s[i..k], s[k..], Emitted(st.token), rest);
    }
  }

  /** The characters one pass of the loop body consumes. */
  lemma StepChars(s: string, i: nat, bounds: Bounds)
    requires i < |s| && ScanStep(s, i, bounds).Advance?
    ensures forall m :: i <= m < ScanStep(s, i, bounds).next ==> IsAlnum(s[m]) || IsSpace(s[m])
  {
    var st := ScanStep(s, i, bounds);
    StepEmits(s, i, bounds);
    if st.token.Some? {
      LexemeChars(st.token.value);
      forall m | i <= m < st.next
        ensures IsAlnum(s[m]) || IsSpace(s[m])
      {
        assert s[m] == s[i..st.next][m - i];
      }
    }
  }

  /** A successful scan has seen only letters, digits and whitespace. */
  lemma {:induction false} OnlyLexicalChars(s: string, i: nat, bounds: Bounds)
    requires i <= |s| && TokenizeFrom(s, i, bounds).Ok?
    ensures forall m :: i <= m < |s| ==> IsAlnum(s[m]) || IsSpace(s[m])
    decreases |s| - i
  {
    if i < |s| {
      TokenizeUnfold(s, i, bounds);
      var k := ScanStep(s, i, bounds).next;
      StepChars(s, i, bounds);
      OnlyLexicalChars(s, k, bounds);
    }
  }

  /** Fail fast: one character outside the accepted classes anywhere in the
      input makes the whole tokenization fail, with no tokens. */
  lemma FailFast(s: string, m: nat)
    requires m < |s| && !IsAlnum(s[m]) && !IsSpace(s[m])
    ensures Tokenize(s).Err? && TokenizeChecked(s).Err?
  {
    if Tokenize(s).Ok? {
      OnlyLexicalChars(s, 0, Unchecked);
    }
    if TokenizeChecked(s).Ok? {
      OnlyLexicalChars(s, 0, Checked);
    }
  }

  /** As written, the source can only succeed on input whose last character
      ends no run: after a letter or digit, str.at() reads past the end. */
  lemma {:induction false} SuccessEndsOutsideRun(s: string, i: nat)
    requires i < |s| && TokenizeFrom(s, i, Unchecked).Ok?
    ensures !IsAlnum(s[|s| - 1])
    decreases |s| - i
  {
    var k := ScanStep(s, i, Unchecked).next;
    StepMaximal(s, i, Unchecked);
    if k < |s| {
      SuccessEndsOutsideRun(s, k);
    }
  }

  /** Every failure of the loop is the failure of the loop body at some
      cursor position. */
  lemma {:induction false} FailureOrigin(s: string, i: nat, bounds: Bounds) returns (m: nat)
    requires i <= |s| && TokenizeFrom(s, i, bounds).Err?
    ensures i <= m < |s| && ScanStep(s, m, bounds) == Stop(TokenizeFrom(s, i, bounds).error)
    decreases |s| - i
  {
    var st := ScanStep(s, i, bounds);
    if st.Stop? {
      m := i;
    } else {
      m := FailureOrigin(s, st.next, bounds);
    }
  }

  /** The read past the end happens only in the unchecked scanners, and only
      when the input ends inside an alphanumeric run. */
  lemma OutOfRangeEndsInRun(s: string, i: nat, bounds: Bounds)
    requires i <= |s| && TokenizeFrom(s, i, bounds) == Err(OutOfRange)
    ensures bounds.Unchecked? && |s| > 0 && IsAlnum(s[|s| - 1])
  {
    var m := FailureOrigin(s, i, bounds);
    StepFails(s, m, bounds);
  }

  /** The end of the first run is the first character outside its class. */
  lemma RunEndAt(s: string, j: nat, k: nat, rc: RunClass, bounds: Bounds)
    requires j <= k < |s| && AllInRun(s, j, k, rc) && !InRun(rc, s[k])
    ensures RunEnd(s, j, rc, bounds) == Ok(k)
  {
  }

  /** A pass on a blank skips it. */
  lemma BlankStep(s: string, i: nat, bounds: Bounds)
    requires i < |s| && IsBlank(s[i])
    ensures ScanStep(s, i, bounds) == Advance(None, i + 1)
  {
  }

  /** Every character of a lexeme after its first may continue its run. */
  lemma LexemeInRun(s: string, i: nat, v: string, rc: RunClass)
    requires 1 <= |v| && i + |v| <= |s| && s[i..i + |v|] == v
    requires forall m :: 0 <= m < |v| ==> InRun(rc, v[m])
    ensures AllInRun(s, i + 1, i + |v|, rc)
  {
    forall m | i + 1 <= m < i + |v|
      ensures InRun(rc, s[m])
    {
      assert s[m] == s[i..i + |v|][m - i];
    }
  }

  /** `return` at cursor i, followed by a character that cannot continue
      it, is read as a Return token. */
  lemma ReturnAt(s: string, i: nat, bounds: Bounds)
    requires i + 6 < |s| && s[i..i + 6] == "return" && !IsAlnum(s[i + 6])
    ensures ScanStep(s, i, bounds) == Advance(Some(Token(Return, None)), i + 6)
  {
    assert s[i] == s[i..i + 6][0];
    assert forall m :: 0 <= m < 6 ==> IsAlnum("return"[m]) by {
      forall m | 0 <= m < 6
        ensures IsAlnum("return"[m])
      {
        assert "return"[m] in "return";
      }
    }
    LexemeInRun(s, i, "return", AlnumRun);
    RunEndAt(s, i + 1, i + 6, AlnumRun, bounds);
    assert ParseKeyword(s, i, bounds) == Ok("return");
  }

  /** A numeral at cursor i, followed by a character that is not a digit,
      is read as an integer literal carrying exactly that numeral. */
  lemma NumeralAt(s: string, i: nat, v: string, bounds: Bounds)
    requires IsNumeral(v)
    requires i + |v| < |s| && s[i..i + |v|] == v && !IsDigit(s[i + |v|])
    ensures ScanStep(s, i, bounds) == Advance(Some(Token(IntLit, Some(v))), i + |v|)
  {
    assert s[i] == v[0];
    LexemeInRun(s, i, v, DigitRun);
    RunEndAt(s, i + 1, i + |v|, DigitRun, bounds);
    assert ParseNumber(s, i, bounds) == Ok(v);
  }

  /** A pass of the loop body that does not read past the end does the same
      with bounds checking. */
  lemma StepAgrees(s: string, i: nat)
    requires i < |s| && ScanStep(s, i, Unchecked) != Stop(OutOfRange)
    ensures ScanStep(s, i, Checked) == ScanStep(s, i, Unchecked)
  {
    var c := s[i];
    var rc := if IsAlpha(c) then AlnumRun else DigitRun;
    if IsAlnum(c) {
      var k := i + |ScanRun(s, i, rc, Unchecked).value|;
      RunEndAt(s, i + 1, k, rc, Checked);
      RunEndAt(s, i + 1, k, rc, Unchecked);
    }
  }

  /** Bounds checking changes nothing on inputs where the source does not
      read past the end. */
  lemma {:induction false} CheckedAgrees(s: string, i: nat)
    requires i <= |s| && TokenizeFrom(s, i, Unchecked) != Err(OutOfRange)
    ensures TokenizeFrom(s, i, Checked) == TokenizeFrom(s, i, Unchecked)
    decreases |s| - i
  {
    if i < |s| {
      StepAgrees(s, i);
      var st := ScanStep(s, i, Unchecked);
      if st.Advance? {
        CheckedAgrees(s, st.next);
      }
    }
  }

  /** Where the bounds-checked lexer accepts its input, the source as
      written agrees with it exactly when the input does not end in a
      letter or digit, and otherwise aborts reading past the end. */
  lemma SourceAcceptsIff(s: string)
    requires TokenizeChecked(s).Ok?
    ensures Tokenize(s).Ok? <==> |s| == 0 || !IsAlnum(s[|s| - 1])
    ensures Tokenize(s).Ok? ==> Tokenize(s) == TokenizeChecked(s)
    ensures Tokenize(s).Err? ==> Tokenize(s) == Err(OutOfRange)
  {
    if Tokenize(s) != Err(OutOfRange) {
      CheckedAgrees(s, 0);
      if |s| > 0 {
        SuccessEndsOutsideRun(s, 0);
      }
    } else {
      OutOfRangeEndsInRun(s, 0, Unchecked);
    }
  }
}
