/** Concrete inputs and what the lexer makes of them. */
module Scenarios {
  import opened Wrappers
  import opened Lexer
  import opened LexerProperties

  const ReturnToken := Token(Return, None)
  const NewLineToken := Token(NewLine, None)

  function Number(digits: string): Token
  {
    Token(IntLit, Some(digits))
  }

  /** A line feed at cursor i is read as a NewLine token. */
  lemma NewlineAt(s: string, i: nat, bounds: Bounds)
    requires i < |s| && s[i] == '\n'
    ensures TokenizeFrom(s, i, bounds) == Extend([NewLineToken], TokenizeFrom(s, i + 1, bounds))
  {
    assert ScanStep(s, i, bounds) == Advance(Some(NewLineToken), i + 1);
    AdvanceUnfold(s, i, bounds);
  }

  /** After the keyword: a blank, a number and a line feed. */
  lemma NumberNewlineAfterReturn()
    ensures TokenizeFrom("return 42\n", 6, Unchecked) == Ok([Number("42"), NewLineToken])
  {
    var s := "return 42\n";
    NewlineAt(s, 9, Unchecked);
    assert [NewLineToken] + [] == [NewLineToken];
    assert s[7..9] == "42";
    NumeralAt(s, 7, "42", Unchecked);
    AdvanceUnfold(s, 7, Unchecked);
    assert [Number("42")] + [NewLineToken] == [Number("42"), NewLineToken];
    BlankStep(s, 6, Unchecked);
    AdvanceUnfold(s, 6, Unchecked);
    ExtendNothing(TokenizeFrom(s, 7, Unchecked));
  }

  /** A keyword, a number and a line feed, each read whole. */
  lemma ReturnNumberNewline()
    ensures Tokenize("return 42\n") == Ok([ReturnToken, Number("42"), NewLineToken])
  {
    var s := "return 42\n";
    NumberNewlineAfterReturn();
    assert s[0..6] == "return";
    ReturnAt(s, 0, Unchecked);
    AdvanceUnfold(s, 0, Unchecked);
    assert [ReturnToken] + [Number("42"), NewLineToken] == [ReturnToken, Number("42"), NewLineToken];
  }

  /** Consecutive line feeds each give a token. */
  lemma ReturnTwoNewlines()
    ensures Tokenize("return\n\n") == Ok([ReturnToken, NewLineToken, NewLineToken])
  {
    var s := "return\n\n";
    NewlineAt(s, 7, Unchecked);
    assert [NewLineToken] + [] == [NewLineToken];
    NewlineAt(s, 6, Unchecked);
    assert [NewLineToken] + [NewLineToken] == [NewLineToken, NewLineToken];
    assert s[0..6] == "return";
    ReturnAt(s, 0, Unchecked);
    AdvanceUnfold(s, 0, Unchecked);
    assert [ReturnToken] + [NewLineToken, NewLineToken] == [ReturnToken, NewLineToken, NewLineToken];
  }

  /** A keyword that ends the input is read past the end by the source;
      with bounds checks the same text gives the two tokens. */
  lemma NumberThenReturnAtEnd()
    ensures Tokenize("99 return") == Err(OutOfRange)
    ensures TokenizeChecked("99 return") == Ok([Number("99"), ReturnToken])
    ensures Tokenize("return") == Err(OutOfRange) && Tokenize("42") == Err(OutOfRange)
  {
    var s := "99 return";
    assert s[3..9] == "return";
    assert RunEnd(s, 4, AlnumRun, Checked) == Ok(9);
    assert ScanStep(s, 3, Checked) == Advance(Some(ReturnToken), 9);
    assert [ReturnToken] + [] == [ReturnToken];
    assert TokenizeFrom(s, 3, Checked) == Ok([ReturnToken]);
    assert TokenizeFrom(s, 2, Checked) == Ok([ReturnToken]);
    assert s[0..2] == "99";
    assert RunEnd(s, 1, DigitRun, Checked) == Ok(2);
    assert [Number("99")] + [ReturnToken] == [Number("99"), ReturnToken];
    SourceAcceptsIff(s);
    assert ScanStep("return", 0, Unchecked) == Stop(OutOfRange);
    assert ScanStep("42", 0, Unchecked) == Stop(OutOfRange);
  }

  /** Input ending in a letter: the source reads past the end, while the
      bounds-checked lexer accepts it. */
  lemma KeywordAtEndChecked()
    ensures TokenizeChecked("return") == Ok([ReturnToken])
    ensures Tokenize("return") == Err(OutOfRange)
  {
    var s := "return";
    assert RunEnd(s, 1, AlnumRun, Checked) == Ok(6);
    assert ScanStep(s, 0, Checked) == Advance(Some(ReturnToken), 6);
    assert [ReturnToken] + [] == [ReturnToken];
    assert ScanStep(s, 0, Unchecked) == Stop(OutOfRange);
  }

  /** A prefix of the keyword is not the keyword. */
  lemma TruncatedKeyword()
    ensures Tokenize("ret\n") == Err(UnknownKeyword("ret"))
  {
    var s := "ret\n";
    assert RunEnd(s, 1, AlnumRun, Unchecked) == Ok(3);
    assert s[0..3] == "ret";
  }

  /** The keyword followed by digits is one run, rejected whole. */
  lemma KeywordRunsIntoDigits()
    ensures Tokenize("return123\n") == Err(UnknownKeyword("return123"))
  {
    var s := "return123\n";
    assert AllInRun(s, 1, 9, AlnumRun);
    RunEndAt(s, 1, 9, AlnumRun, Unchecked);
    assert s[0..9] == "return123";
    assert ScanStep(s, 0, Unchecked) == Stop(UnknownKeyword("return123"));
  }

  /** A character outside every accepted class stops tokenization. */
  lemma UnknownCharacter()
    ensures Tokenize("return$\n") == Err(UnknownChar('$'))
  {
    var s := "return$\n";
    assert ScanStep(s, 6, Unchecked) == Stop(UnknownChar('$'));
    assert s[0..6] == "return";
    ReturnAt(s, 0, Unchecked);
    AdvanceUnfold(s, 0, Unchecked);
  }
}
