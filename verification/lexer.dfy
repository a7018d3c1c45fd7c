/** The lexer of src/main.cpp: two greedy run scanners, the keyword and
    number resolution, and the dispatch loop `tokenize`, as pure functions.
    The process exit and the uncaught std::out_of_range of the source are
    returned as LexError values. */
module Lexer {
  import opened Wrappers
  import opened CharClass

  /** TokenType: the closed set of token kinds. */
  datatype TokenType = Return | IntLit | NewLine

  /** Token: a kind and, for integer literals, the digit text. */
  datatype Token = Token(kind: TokenType, value: Option<string>)

  /** Why tokenization stopped without a token list. */
  datatype LexError =
    | UnknownKeyword(text: string) // an alphanumeric run other than `return`
    | UnknownChar(c: char)         // a character in no accepted class
    | OutOfRange                   // str.at() past the end of the input

  /** What a scanner does when a run reaches the end of the input.
      Unchecked is the source as written: the loop condition reads one
      character past the end, str.at() throws and the process aborts.
      Checked is the corrected scanner: the end of the input ends the run,
      so a scanner never reads past it. */
  datatype Bounds = Unchecked | Checked

  /** The characters that may continue a run. */
  datatype RunClass = AlnumRun | DigitRun

  predicate InRun(rc: RunClass, c: char)
  {
    match rc
    case AlnumRun => IsAlnum(c)
    case DigitRun => IsDigit(c)
  }

  /** Every character of s[j..k] may continue a run of class rc. */
  predicate AllInRun(s: string, j: nat, k: nat, rc: RunClass)
    requires j <= k <= |s|
  {
    forall m :: j <= m < k ==> InRun(rc, s[m])
  }

  /** A non-empty string of decimal digits. */
  predicate IsNumeral(v: string)
  {
    |v| > 0 && forall m :: 0 <= m < |v| ==> IsDigit(v[m])
  }

  /** A token is well formed when it carries a payload exactly if it is an
      integer literal, and that payload is a non-empty digit string. */
  predicate WellFormed(t: Token)
  {
    && (t.value.Some? <==> t.kind == IntLit)
    && (t.kind == IntLit ==> IsNumeral(t.value.value))
  }

  /** The surface text of a token; an integer literal without a payload
      reads as "", as `value_or("")` does when the list is printed. */
  function Lexeme(t: Token): string
  {
    match t.kind
    case Return => "return"
    case IntLit => if t.value.Some? then t.value.value else ""
    case NewLine => "\n"
  }

  /** The `while` loop shared by parseKeyword and parseNumber: starting at
      j, find the first character that cannot continue the run. */
  function RunEnd(s: string, j: nat, rc: RunClass, bounds: Bounds): (r: Result<nat, LexError>)
    requires j <= |s|
    ensures r.Ok? ==> j <= r.value <= |s| && AllInRun(s, j, r.value, rc)
    ensures r.Ok? && r.value < |s| ==> !InRun(rc, s[r.value])
    ensures r.Ok? && r.value == |s| ==> bounds.Checked?
    ensures r.Err? <==> bounds.Unchecked? && AllInRun(s, j, |s|, rc)
    ensures r.Err? ==> r.error == OutOfRange
    decreases |s| - j
  {
    if j == |s| then
      if bounds.Unchecked? then Err(OutOfRange) else Ok(j)
    else if InRun(rc, s[j]) then
      RunEnd(s, j + 1, rc, bounds)
    else
      Ok(j)
  }

  /** The scan shared by parseKeyword and parseNumber: take s[i]
      unconditionally, then extend greedily through class rc. */
  function ScanRun(s: string, i: nat, rc: RunClass, bounds: Bounds): (r: Result<string, LexError>)
    ensures r.Ok? ==> i < |s| && |r.value| >= 1 && i + |r.value| <= |s|
    ensures r.Ok? ==> r.value == s[i..i + |r.value|] && AllInRun(s, i + 1, i + |r.value|, rc)
    ensures r.Ok? && i + |r.value| < |s| ==> !InRun(rc, s[i + |r.value|])
    ensures r.Ok? && i + |r.value| == |s| ==> bounds.Checked?
    ensures r.Err? <==> i >= |s| || (bounds.Unchecked? && AllInRun(s, i + 1, |s|, rc))
    ensures r.Err? ==> r.error == OutOfRange
  {
    if i >= |s| then Err(OutOfRange)
    else
      match RunEnd(s, i + 1, rc, bounds)
      case Ok(k) => Ok(s[i..k])
      case Err(e) => Err(e)
  }

  /** parseKeyword: s[i] followed by the longest alphanumeric run after it
      (ScanRun's contract with rc = AlnumRun). */
  function ParseKeyword(s: string, i: nat, bounds: Bounds): Result<string, LexError>
  {
    ScanRun(s, i, AlnumRun, bounds)
  }

  /** parseNumber: s[i] followed by the longest digit run after it
      (ScanRun's contract with rc = DigitRun). */
  function ParseNumber(s: string, i: nat, bounds: Bounds): Result<string, LexError>
  {
    ScanRun(s, i, DigitRun, bounds)
  }

  /** getTokenFromKeyword: the only keyword is `return`. */
  function GetTokenFromKeyword(keyword: string): (r: Option<Token>)
    ensures r.Some? <==> keyword == "return"
    ensures r.Some? ==> r.value.kind == Return && WellFormed(r.value) && Lexeme(r.value) == keyword
  {
    if keyword == "return" then Some(Token(Return, None)) else None
  }

  /** getTokenFromNumber: an integer literal carrying the digit text. */
  function GetTokenFromNumber(value: string): (r: Token)
    ensures r.kind == IntLit && r.value == Some(value) && Lexeme(r) == value
    ensures WellFormed(r) <==> IsNumeral(value)
  {
    Token(IntLit, Some(value))
  }

  /** Prefix the tokens already emitted to the rest of the scan; an error
      discards them, since the source exits without returning any. */
  function Extend(emitted: seq<Token>, rest: Result<seq<Token>, LexError>): Result<seq<Token>, LexError>
  {
    match rest
    case Ok(ts) => Ok(emitted + ts)
    case Err(e) => Err(e)
  }

  lemma ExtendNothing(rest: Result<seq<Token>, LexError>)
    ensures Extend([], rest) == rest
  {
    if rest.Ok? {
      assert [] + rest.value == rest.value;
    }
  }

  lemma ExtendAppend(a: seq<Token>, b: seq<Token>, rest: Result<seq<Token>, LexError>)
    ensures Extend(a, Extend(b, rest)) == Extend(a + b, rest)
  {
    if rest.Ok? {
      assert a + (b + rest.value) == a + b + rest.value;
    }
  }

  /** The tokens a pass of the loop body appends. */
  function Emitted(token: Option<Token>): seq<Token>
  {
    if token.Some? then [token.value] else []
  }

  /** The outcome of one pass of tokenize's loop body at cursor i: the
      token it emits, if any, and the cursor the next pass starts from; or
      the error that ends tokenization. */
  datatype Step = Advance(token: Option<Token>, next: nat) | Stop(error: LexError)

  /** The body of tokenize's loop: classify s[i] and dispatch. A scanned
      run moves the cursor past the whole lexeme (the source adds the
      length minus one, then the loop's own increment). What a pass
      emits, and why it stops, is stated by StepEmits, StepMaximal and
      StepFails below. */
  function ScanStep(s: string, i: nat, bounds: Bounds): (r: Step)
    requires i < |s|
    ensures r.Advance? ==> i < r.next <= |s|
    ensures r.Stop? && r.error.OutOfRange? ==> bounds.Unchecked?
  {
    var c := s[i];
    if IsAlpha(c) then
      match ParseKeyword(s, i, bounds)
      case Err(e) => Stop(e)
      case Ok(keyword) =>
        match GetTokenFromKeyword(keyword)
        case None => Stop(UnknownKeyword(keyword))
        case Some(t) => Advance(Some(t), i + |keyword|)
    else if IsDigit(c) then
      match ParseNumber(s, i, bounds)
      case Err(e) => Stop(e)
      case Ok(num) => Advance(Some(GetTokenFromNumber(num)), i + |num|)
    else if c == '\n' then
      Advance(Some(Token(NewLine, None)), i + 1)
    else if IsSpace(c) then
      Advance(None, i + 1)
    else
      Stop(UnknownChar(c))
  }

  /** A pass that advances emits a well-formed token spelled by exactly the
      characters it consumed, or skips one blank. */
  lemma StepEmits(s: string, i: nat, bounds: Bounds)
    requires i < |s|
    ensures var r := ScanStep(s, i, bounds);
            && (r.Advance? && r.token.Some? ==>
                  WellFormed(r.token.value) && Lexeme(r.token.value) == s[i..r.next])
            && (r.Advance? && r.token.None? ==> r.next == i + 1 && IsBlank(s[i]))
  {
    var r := ScanStep(s, i, bounds);
    if r.Advance? && r.token.Some? {
      var t := r.token.value;
      if IsAlpha(s[i]) {
        assert t == Token(Return, None);
      } else if IsDigit(s[i]) {
        var num := ParseNumber(s, i, bounds).value;
        assert num == s[i..r.next];
        assert IsNumeral(num) by {
          forall m | 0 <= m < |num|
            ensures IsDigit(num[m])
          {
            if m == 0 {
              assert num[0] == s[i];
            }
          }
        }
      } else {
        assert s[i..i + 1] == [s[i]];
      }
    }
  }

  /** Maximal munch: a keyword or number pass stops only at a character
      that cannot continue its lexeme; as written, a pass that consumes
      the rest of the input ends on a character outside every run. */
  lemma StepMaximal(s: string, i: nat, bounds: Bounds)
    requires i < |s|
    ensures var r := ScanStep(s, i, bounds);
            && (r.Advance? && r.token.Some? && r.token.value.kind == Return && r.next < |s| ==>
                  !IsAlnum(s[r.next]))
            && (r.Advance? && r.token.Some? && r.token.value.kind == IntLit && r.next < |s| ==>
                  !IsDigit(s[r.next]))
            && (r.Advance? && r.next == |s| && bounds.Unchecked? ==> !IsAlnum(s[|s| - 1]))
  {
  }

  /** Why a pass stops: a character in no class, an alphanumeric run other
      than `return`, or, as written, a run that reaches the end of the input. */
  lemma StepFails(s: string, i: nat, bounds: Bounds)
    requires i < |s|
    ensures var r := ScanStep(s, i, bounds);
            && (r.Stop? && r.error.UnknownChar? ==>
                  r.error.c == s[i] && !IsAlnum(s[i]) && !IsSpace(s[i]))
            && (r.Stop? && r.error.UnknownKeyword? ==>
                  var k := r.error.text;
                  k != "return" && 1 <= |k| && i + |k| <= |s| && k == s[i..i + |k|] && IsAlpha(k[0])
                  && AllInRun(s, i + 1, i + |k|, AlnumRun)
                  && (i + |k| < |s| ==> !IsAlnum(s[i + |k|])))
            && (r.Stop? && r.error.OutOfRange? ==>
                  bounds.Unchecked? && AllInRun(s, i, |s|, AlnumRun))
  {
  }

  /** The `for` loop of tokenize from cursor i to the end of the input. */
  function TokenizeFrom(s: string, i: nat, bounds: Bounds): (r: Result<seq<Token>, LexError>)
    requires i <= |s|
    ensures r.Err? && r.error.OutOfRange? ==> bounds.Unchecked?
    decreases |s| - i
  {
    if i == |s| then Ok([])
    else
      match ScanStep(s, i, bounds)
      case Stop(e) => Err(e)
      case Advance(None, k) => TokenizeFrom(s, k, bounds)
      case Advance(Some(t), k) => Extend([t], TokenizeFrom(s, k, bounds))
  }

  /** A pass that advances contributes its token to the result of the rest
      of the scan. */
  lemma AdvanceUnfold(s: string, i: nat, bounds: Bounds)
    requires i < |s| && ScanStep(s, i, bounds).Advance?
    ensures var st := ScanStep(s, i, bounds);
            TokenizeFrom(s, i, bounds) == Extend(Emitted(st.token), TokenizeFrom(s, st.next, bounds))
  {
    var st := ScanStep(s, i, bounds);
    var rest := TokenizeFrom(s, st.next, bounds);
    if st.token.None? && rest.Ok? {
      assert [] + rest.value == rest.value;
    }
  }

  /** On success every token is well formed. */
  lemma {:induction false} TokensWellFormed(s: string, i: nat, bounds: Bounds)
    requires i <= |s| && TokenizeFrom(s, i, bounds).Ok?
    ensures forall t :: t in TokenizeFrom(s, i, bounds).value ==> WellFormed(t)
    decreases |s| - i
  {
    if i < |s| {
      var st := ScanStep(s, i, bounds);
      StepEmits(s, i, bounds);
      TokensWellFormed(s, st.next, bounds);
    }
  }

  /** tokenize, as written. */
  function Tokenize(s: string): Result<seq<Token>, LexError>
  {
    TokenizeFrom(s, 0, Unchecked)
  }

  /** tokenize with the scanners stopping at the end of the input: it
      never reads past the end. */
  function TokenizeChecked(s: string): (r: Result<seq<Token>, LexError>)
    ensures r.Err? ==> r.error != OutOfRange
  {
    TokenizeFrom(s, 0, Checked)
  }
}
