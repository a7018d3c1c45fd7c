/** Token lists written back as source text, and the round trip through
    the lexer: whatever blank separators are chosen, the text lexes back to
    the same tokens in the same order. */
module Rendering {
  import opened Wrappers
  import opened CharClass
  import opened Lexer
  import opened LexerProperties

  predicate Blanks(g: string)
  {
    forall m :: 0 <= m < |g| ==> IsBlank(g[m])
  }

  /** One separator per token: blanks only, and at least one after a
      keyword or a number so that the next lexeme does not run into it. */
  predicate ValidGaps(ts: seq<Token>, gaps: seq<string>)
  {
    && |gaps| == |ts|
    && forall k :: 0 <= k < |ts| ==> Blanks(gaps[k]) && (ts[k].kind != NewLine ==> |gaps[k]| > 0)
  }

  /** Each token's lexeme followed by its separator. */
  function Render(ts: seq<Token>, gaps: seq<string>): string
    requires |gaps| == |ts|
  {
    if ts == [] then [] else Lexeme(ts[0]) + gaps[0] + Render(ts[1..], gaps[1..])
  }

  /** One blank is skipped without effect. */
  lemma SkipBlank(s: string, i: nat, bounds: Bounds)
    requires i < |s| && IsBlank(s[i])
    ensures TokenizeFrom(s, i, bounds) == TokenizeFrom(s, i + 1, bounds)
  {
    BlankStep(s, i, bounds);
    AdvanceUnfold(s, i, bounds);
    ExtendNothing(TokenizeFrom(s, i + 1, bounds));
  }

  /** Blanks between two cursor positions are skipped without effect. */
  lemma {:induction false} SkipBlanks(s: string, i: nat, j: nat, bounds: Bounds)
    requires i <= j <= |s| && forall m :: i <= m < j ==> IsBlank(s[m])
    ensures TokenizeFrom(s, i, bounds) == TokenizeFrom(s, j, bounds)
    decreases j - i
  {
    if i < j {
      SkipBlank(s, i, bounds);
      SkipBlanks(s, i + 1, j, bounds);
    }
  }

  /** A well-formed token's lexeme at cursor i, followed by a blank unless
      it is a newline, is read back as that token in one pass. */
  lemma StepOnLexeme(s: string, i: nat, t: Token, bounds: Bounds)
    requires WellFormed(t)
    requires i + |Lexeme(t)| <= |s| && s[i..i + |Lexeme(t)|] == Lexeme(t)
    requires t.kind != NewLine ==> i + |Lexeme(t)| < |s| && IsBlank(s[i + |Lexeme(t)|])
    ensures i < |s| && ScanStep(s, i, bounds) == Advance(Some(t), i + |Lexeme(t)|)
  {
    match t.kind
    case Return =>
      ReturnAt(s, i, bounds);
    case IntLit =>
      NumeralAt(s, i, t.value.value, bounds);
    case NewLine =>
      assert s[i] == s[i..i + 1][0];
  }

  /** A pass that emits t and stops at cursor k, followed by blanks up to
      cursor j: the lexer resumes at j with t emitted. */
  lemma StepOverGap(s: string, i: nat, k: nat, j: nat, t: Token, bounds: Bounds)
    requires i < |s| && ScanStep(s, i, bounds) == Advance(Some(t), k)
    requires k <= j <= |s| && forall m :: k <= m < j ==> IsBlank(s[m])
    ensures TokenizeFrom(s, i, bounds) == Extend([t], TokenizeFrom(s, j, bounds))
  {
    AdvanceUnfold(s, i, bounds);
    SkipBlanks(s, k, j, bounds);
  }

  /** Where the pieces of p + (lex + g + rest) sit. */
  lemma Layout(p: string, lex: string, g: string, rest: string)
    ensures var s := p + (lex + g + rest);
            var i, n := |p|, |lex|;
            && s == p + lex + g + rest
            && s[i..i + n] == lex
            && forall m :: i + n <= m < i + n + |g| ==> s[m] == g[m - i - n]
  {
    var s := p + (lex + g + rest);
    var i, n := |p|, |lex|;
    assert s[i..i + n] == lex by {
      forall m | 0 <= m < n
        ensures s[i..i + n][m] == lex[m]
      {
        assert s[i + m] == lex[m];
      }
    }
  }

  /** One rendered token after a prefix p and before the rest of the text
      is read back as that token, and the lexer then resumes after its
      separator. */
  lemma RenderedStep(p: string, t: Token, g: string, rest: string, bounds: Bounds)
    requires WellFormed(t) && Blanks(g) && (t.kind != NewLine ==> |g| > 0)
    ensures TokenizeFrom(p + (Lexeme(t) + g + rest), |p|, bounds)
            == Extend([t], TokenizeFrom(p + Lexeme(t) + g + rest, |p + Lexeme(t) + g|, bounds))
  {
    var lex := Lexeme(t);
    var s := p + (lex + g + rest);
    Layout(p, lex, g, rest);
    var i, n := |p|, |lex|;
    var q := p + lex + g;
    assert |q| == i + n + |g|;
    assert q + rest == s;
    if t.kind != NewLine {
      assert s[i + n] == g[0];
    }
    StepOnLexeme(s, i, t, bounds);
    StepOverGap(s, i, i + n, |q|, t, bounds);
  }

  lemma ValidGapsTail(ts: seq<Token>, gaps: seq<string>)
    requires ValidGaps(ts, gaps) && ts != []
    ensures ValidGaps(ts[1..], gaps[1..])
    ensures Blanks(gaps[0]) && (ts[0].kind != NewLine ==> |gaps[0]| > 0)
  {
    forall k | 0 <= k < |ts[1..]|
      ensures Blanks(gaps[1..][k]) && (ts[1..][k].kind != NewLine ==> |gaps[1..][k]| > 0)
    {
      assert gaps[1..][k] == gaps[k + 1] && ts[1..][k] == ts[k + 1];
    }
  }

  /** The first rendered token after a prefix p is read back, and the
      lexer resumes where the rendering of the remaining tokens begins. */
  lemma RenderedHead(p: string, ts: seq<Token>, gaps: seq<string>, bounds: Bounds)
    requires ts != [] && WellFormed(ts[0]) && ValidGaps(ts, gaps)
    ensures var q := p + Lexeme(ts[0]) + gaps[0];
            TokenizeFrom(p + Render(ts, gaps), |p|, bounds)
            == Extend([ts[0]], TokenizeFrom(q + Render(ts[1..], gaps[1..]), |q|, bounds))
  {
    var t, g := ts[0], gaps[0];
    var rest := Render(ts[1..], gaps[1..]);
    ValidGapsTail(ts, gaps);
    RenderedStep(p, t, g, rest, bounds);
    assert p + Render(ts, gaps) == p + (Lexeme(t) + g + rest);
  }

  /** The round trip after an arbitrary prefix, by induction on the tokens. */
  lemma {:induction false} RoundTripFrom(p: string, ts: seq<Token>, gaps: seq<string>, bounds: Bounds)
    requires forall t :: t in ts ==> WellFormed(t)
    requires ValidGaps(ts, gaps)
    ensures TokenizeFrom(p + Render(ts, gaps), |p|, bounds) == Ok(ts)
    decreases |ts|
  {
    if ts == [] {
      assert p + Render(ts, gaps) == p;
    } else {
      assert ts[0] in ts;
      ValidGapsTail(ts, gaps);
      RenderedHead(p, ts, gaps, bounds);
      RoundTripFrom(p + Lexeme(ts[0]) + gaps[0], ts[1..], gaps[1..], bounds);
      assert [ts[0]] + ts[1..] == ts;
    }
  }

  /** Rendering and lexing: the tokens come back unchanged and in order,
      whatever separators were chosen, as written and with bounds checks. */
  lemma RoundTrip(ts: seq<Token>, gaps: seq<string>)
    requires forall t :: t in ts ==> WellFormed(t)
    requires ValidGaps(ts, gaps)
    ensures Tokenize(Render(ts, gaps)) == Ok(ts)
    ensures TokenizeChecked(Render(ts, gaps)) == Ok(ts)
  {
    RoundTripFrom([], ts, gaps, Unchecked);
    RoundTripFrom([], ts, gaps, Checked);
    assert [] + Render(ts, gaps) == Render(ts, gaps);
  }
}
