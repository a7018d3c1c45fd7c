/** tokenize as the source writes it: a `for` loop over an index that each
    scanner call moves to the last character of its lexeme, followed by the
    loop's own increment. */
module LexerLoop {
  import opened Wrappers
  import opened CharClass
  import opened Lexer

  /** tokenize's `for` loop: it returns what the functional Tokenize
      returns, the same tokens or the same error. */
  method TokenizeLoop(s: string) returns (r: Result<seq<Token>, LexError>)
    ensures r == Tokenize(s)
  {
    var tokens: seq<Token> := [];
    var i: nat := 0;
    ExtendNothing(Tokenize(s));
    while i < |s|
      invariant i <= |s|
      invariant Tokenize(s) == Extend(tokens, TokenizeFrom(s, i, Unchecked))
      decreases |s| - i
    {
      var last, tokens', failure := LoopBody(s, i, tokens);
      if failure.Some? {
        StopPass(s, i, tokens);
        return Err(failure.value);
      }
      AdvancePass(s, i, tokens);
      assert Tokenize(s) == Extend(tokens', TokenizeFrom(s, last + 1, Unchecked));
      tokens := tokens';
      i := last + 1;
    }
    assert tokens + [] == tokens;
    return Ok(tokens);
  }

  /** One pass of the `for` body at index i: it leaves the index on the
      last character it consumed, for the loop's increment, and appends the
      token it emits; or it reports the error on which the source exits.
      Either way it does what the loop body ScanStep describes. */
  method LoopBody(s: string, i: nat, tokens: seq<Token>) returns (last: nat, tokens': seq<Token>, failure: Option<LexError>)
    requires i < |s|
    ensures failure.Some? ==> ScanStep(s, i, Unchecked) == Stop(failure.value)
    ensures failure.None? ==> ScanStep(s, i, Unchecked).Advance? && ScanStep(s, i, Unchecked).next == last + 1
    ensures failure.None? ==> tokens' == tokens + Emitted(ScanStep(s, i, Unchecked).token)
  {
    last, tokens', failure := i, tokens, None;
    var c := s[i];
    if IsAlpha(c) {
      var scanned := ParseKeyword(s, i, Unchecked);
      if scanned.Err? {
        return i, tokens, Some(scanned.error);
      }
      var keyword := scanned.value;
      last := i + |keyword| - 1;
      var token := GetTokenFromKeyword(keyword);
      if token.Some? {
        tokens' := tokens + [token.value];
      } else {
        return i, tokens, Some(UnknownKeyword(keyword));
      }
    } else if IsDigit(c) {
      var scanned := ParseNumber(s, i, Unchecked);
      if scanned.Err? {
        return i, tokens, Some(scanned.error);
      }
      var num := scanned.value;
      last := i + |num| - 1;
      tokens' := tokens + [GetTokenFromNumber(num)];
    } else if c == '\n' {
      tokens' := tokens + [Token(NewLine, None)];
    } else if IsSpace(c) {
      assert Emitted(None) == [];
    } else {
      return i, tokens, Some(UnknownChar(c));
    }
  }

  /** A pass that ends in an error ends tokenization with that error. */
  lemma StopPass(s: string, i: nat, tokens: seq<Token>)
    requires i < |s| && ScanStep(s, i, Unchecked).Stop?
    requires Tokenize(s) == Extend(tokens, TokenizeFrom(s, i, Unchecked))
    ensures Tokenize(s) == Err(ScanStep(s, i, Unchecked).error)
  {
  }

  /** The loop invariant survives a pass that advances the cursor. */
  lemma AdvancePass(s: string, i: nat, tokens: seq<Token>)
    requires i < |s| && ScanStep(s, i, Unchecked).Advance?
    requires Tokenize(s) == Extend(tokens, TokenizeFrom(s, i, Unchecked))
    ensures var st := ScanStep(s, i, Unchecked);
            Tokenize(s) == Extend(tokens + Emitted(st.token), TokenizeFrom(s, st.next, Unchecked))
  {
    var st := ScanStep(s, i, Unchecked);
    AdvanceUnfold(s, i, Unchecked);
    ExtendAppend(tokens, Emitted(st.token), TokenizeFrom(s, st.next, Unchecked));
  }
}
