# Lexer of the totally_useless_compiler toy language, in Dafny

This project models the lexer in `src/main.cpp`. The lexer turns the text of a
source file into a list of tokens. There are three kinds of token. `_return`
is the keyword `return`. `int_lit` is a run of decimal digits, and it carries
the digit text. `new_line` is one line feed. The lexer has four parts:

- two greedy run scanners: `parseKeyword` (a character followed by the longest
  alphanumeric run) and `parseNumber` (a character followed by the longest digit run);
- keyword and number resolution (`getTokenFromKeyword`, `getTokenFromNumber`);
- the dispatch loop `tokenize`.

`tokenize` looks at one cursor position at a time and classifies the
character there:

- a letter starts a keyword run;
- a digit starts a number run;
- a line feed becomes a `new_line` token;
- any other whitespace is skipped;
- any other character is an error.

The input is a `seq<char>`. Characters are classified as in the "C" locale
(section 7.4.1 of ISO C11): only ASCII characters belong to a class.

Errors are return values of type `Lexer.LexError`. The source exits the
process after printing a diagnostic, or aborts on an uncaught exception. The
model has three errors:

- `UnknownKeyword(text)`: an alphanumeric run other than `return` (`exit` at main.cpp:83-84);
- `UnknownChar(c)`: a character in no accepted class (`exit` at main.cpp:96-97);
- `OutOfRange`: `str.at()` read one character past the end of the input. This
  raises `std::out_of_range`, which nothing catches.

In every case no tokens are returned.

The scanners' loop condition reads `str.at(index)` without checking the length
(main.cpp:30, :43). So any keyword or number run that ends exactly at the end
of the input aborts the source. The model keeps this behaviour, as
`Bounds.Unchecked`. It also defines a corrected scanner, as `Bounds.Checked`:
the end of the input ends the run, so a scanner never reads past it. The scanners
and the loop take the `Bounds` mode as a parameter, so each part is defined
once. `Lexer.Tokenize` is the source as written. `Lexer.TokenizeChecked` is the
corrected lexer.

For example, on `"99 return"` the keyword scan reaches index 9, which is the
length of the input, and `str.at(9)` throws. The model follows the code, and
the read past the end is logged under Findings.

Modules:

- `Wrappers`: `Option` and `Result`.
- `CharClass`: the `<cctype>` predicates.
- `Lexer`: tokens, scanners, the loop body `ScanStep` and what one pass does, and the loop `TokenizeFrom`.
- `LexerLoop`: the imperative `for` loop, proved equal to the functional one.
- `LexerProperties`: newline fidelity, coverage, fail-fast, and read-past-end behaviour.
- `Rendering`: token lists written back as text, and the round trip.
- `Scenarios`: concrete inputs.

## Model

| member | source | states |
|---|---|---|
| Lexer.RunEnd | src/main.cpp:29-33 | the scan stops at the first character after j outside the run class; it fails with OutOfRange exactly when, unchecked, every character up to the end is in the class |
| Lexer.ScanRun | src/main.cpp:24-48 | `parseKeyword` and `parseNumber` (`Lexer.ParseKeyword`, `Lexer.ParseNumber`) are this scan with the class fixed to alphanumeric and to digits: it returns the slice s[i..i+len), len >= 1, whose characters after the first are in the class and whose next character is not (maximal munch); it fails with OutOfRange exactly when i is past the end or, unchecked, the run reaches the end of the input |
| Lexer.GetTokenFromKeyword | src/main.cpp:50-58 | yields a token if and only if the text is exactly `return`; that token is a `_return` with no value |
| Lexer.GetTokenFromNumber | src/main.cpp:60-66 | yields an `int_lit` whose payload is exactly the given string; the token is well formed exactly when the string is a non-empty digit string |
| Lexer.ScanStep | src/main.cpp:73-98 | one pass of the loop body moves the cursor forward and stays within the input; it reports OutOfRange only without bounds checks |
| Lexer.StepEmits | src/main.cpp:74-94 | a pass that advances either emits a well-formed token whose lexeme is exactly the consumed text s[i..next), or skips exactly one blank |
| Lexer.StepMaximal | src/main.cpp:29-46 | after a `return` token the next character is not alphanumeric, and after an `int_lit` it is not a digit; as written, a pass that consumes the rest of the input ended on a non-alphanumeric character |
| Lexer.StepFails | src/main.cpp:74-98 | UnknownChar names the current character, which is neither alphanumeric nor whitespace; UnknownKeyword names the maximal alphanumeric run at the cursor, which starts with a letter and is not `return`; OutOfRange happens only unchecked, when the alphanumeric run reaches the end |
| Lexer.TokenizeFrom | src/main.cpp:68-101 | the loop reports OutOfRange only without bounds checks; `Lexer.Tokenize` is this loop from cursor 0, unchecked |
| Lexer.TokensWellFormed | src/main.cpp:74-92 | on success every token is well formed, so only `int_lit` carries a value, and that value is a non-empty digit string |
| Lexer.TokenizeChecked | src/main.cpp:30 | the bounds-checked lexer never fails with OutOfRange |
| LexerLoop.TokenizeLoop | src/main.cpp:72-100 | the `for` loop, with its index set to the end of each lexeme and then incremented, computes exactly the functional tokenization, including its errors |
| LexerLoop.LoopBody | src/main.cpp:73-98 | the statements of the `for` body, with the index left on the last character of the lexeme (`i += length - 1`), append exactly the token the pass emits and leave the index one before the next pass's cursor, or report the error the pass stops with |
| LexerProperties.NewlineFidelity | src/main.cpp:91-92 | on success the number of `new_line` tokens equals the number of line feeds in the input |
| LexerProperties.Coverage | src/main.cpp:72-99 | on success the lexemes of the tokens, in order, spell out the input with its non-newline whitespace removed, so no input is lost or reordered |
| LexerProperties.OnlyLexicalChars | src/main.cpp:93-97 | a successful scan has seen only letters, digits and whitespace |
| LexerProperties.FailFast | src/main.cpp:95-97 | a single character outside letters, digits and whitespace anywhere in the input makes tokenization fail, with or without bounds checks |
| LexerProperties.SuccessEndsOutsideRun | src/main.cpp:29-46 | on a non-empty input, the source as written succeeds only if its last character is not alphanumeric (the empty input succeeds with no tokens) |
| LexerProperties.FailureOrigin | src/main.cpp:72-98 | every failure of the loop is the failure of its body at some cursor position inside the input |
| LexerProperties.OutOfRangeEndsInRun | src/main.cpp:30 | the read past the end only happens without bounds checks, and only on input ending in a letter or digit |
| LexerProperties.RunEndAt | src/main.cpp:29-33 | the scan stops exactly at the first character outside the class, with or without bounds checks |
| LexerProperties.BlankStep | src/main.cpp:93-94 | a pass on a non-newline whitespace character emits nothing and moves on by one |
| LexerProperties.ReturnAt | src/main.cpp:74-81 | `return` followed by a non-alphanumeric character is read as a `_return` token covering exactly those six characters |
| LexerProperties.NumeralAt | src/main.cpp:86-90 | a digit string followed by a non-digit is read as one `int_lit` carrying exactly that digit string |
| LexerProperties.StepAgrees | src/main.cpp:73-90 | a loop pass that does not read past the end behaves identically with bounds checks |
| LexerProperties.CheckedAgrees | src/main.cpp:24-48 | wherever the source does not read past the end, the bounds-checked lexer gives the same result |
| LexerProperties.SourceAcceptsIff | src/main.cpp:68-101 | on input the bounds-checked lexer accepts, the source succeeds, with the same tokens, if and only if the input is empty or does not end in a letter or digit; otherwise it fails with OutOfRange |
| Rendering.SkipBlanks | src/main.cpp:93-94 | whitespace other than line feeds is skipped without effect on the result |
| Rendering.StepOnLexeme | src/main.cpp:74-92 | a well-formed token's lexeme, followed by a blank unless it is a newline, is read back as that token in one pass |
| Rendering.RoundTripFrom | src/main.cpp:72-99 | after any prefix, the rendering of well-formed tokens with valid separators lexes back to exactly those tokens |
| Rendering.RoundTrip | src/main.cpp:68-101 | writing well-formed tokens with any blank separators (at least one after each keyword and number) and lexing the text gives back the same tokens in the same order, with or without bounds checks |
| Scenarios.ReturnNumberNewline | src/main.cpp:74-92 | `"return 42\n"` gives `_return`, `int_lit "42"`, `new_line` |
| Scenarios.ReturnTwoNewlines | src/main.cpp:91-92 | `"return\n\n"` gives `_return`, `new_line`, `new_line` |
| Scenarios.NumberThenReturnAtEnd | src/main.cpp:29-46 | `"99 return"`, `"return"` and `"42"` read past the end as written; with bounds checks `"99 return"` gives `int_lit "99"`, `_return` |
| Scenarios.KeywordAtEndChecked | src/main.cpp:29-33 | `"return"` reads past the end as written, while the bounds-checked lexer gives `_return` |
| Scenarios.TruncatedKeyword | src/main.cpp:78-84 | `"ret\n"` fails with UnknownKeyword("ret") |
| Scenarios.KeywordRunsIntoDigits | src/main.cpp:74-84 | `"return123\n"` is one run, rejected as UnknownKeyword("return123"), not split into `return` and `123` |
| Scenarios.UnknownCharacter | src/main.cpp:95-97 | `"return$\n"` fails with UnknownChar('$') |

## Left out

- `main` (src/main.cpp:103-138) is not modelled: the argument check, reading the file through `fstream`, and printing the token list. These are I/O.
- The diagnostic text written to `stderr` and the real process exit are not modelled. Only the error kind and the offending lexeme or character are kept.
- The index printed in the `std::out_of_range` message is dropped. `OutOfRange` has no payload.
- Classification is ASCII. Locale-dependent `<cctype>` behaviour is not modelled. Neither is the undefined behaviour of passing a negative `char` to `isalpha` and the other classifiers. Non-ASCII characters fall in no class, so they are reported as UnknownChar.
- The cursor is a `nat`. The source's `int` cursor, compared with a `size_t` length, would overflow only on inputs longer than `INT_MAX` characters. That case is not modelled.
- The scanners receive the string by value. The copy makes no difference to the result and is not modelled.

## Findings

| source | as written | input that shows it | evidently intended | confidence | as-written member | corrected member |
|---|---|---|---|---|---|---|
| src/main.cpp:30 | the loop conditions of `parseKeyword` (line 30) and `parseNumber` (line 43) call `str.at(index)` without checking `index < str.length()`, so a run that ends at the end of the input throws `std::out_of_range` and the process aborts | `"99 return"` (also `"return"`, `"42"`) | the end of the input ends the run, giving `int_lit "99"`, `_return` | high: `at()` throws when the index equals the length, and nothing catches it; not executed | Scenarios.NumberThenReturnAtEnd | Lexer.TokenizeChecked |

The as-written lexer is `Lexer.Tokenize` (`Bounds.Unchecked`). The
corrected lexer is `Lexer.TokenizeChecked` (`Bounds.Checked`). It never
reads past the end (its contract). It agrees with the source wherever the
source does not abort (`LexerProperties.CheckedAgrees`). On `"99 return"` it
gives `int_lit "99"`, `_return` (the second ensures of
`Scenarios.NumberThenReturnAtEnd`). The two differ exactly on accepted inputs
that end in a letter or digit (`LexerProperties.SourceAcceptsIff`).

These properties are proved for both modes: `LexerProperties.NewlineFidelity`,
`LexerProperties.Coverage`, `LexerProperties.OnlyLexicalChars`,
`LexerProperties.FailFast`, `Lexer.TokensWellFormed` and `Rendering.RoundTrip`.
`LexerProperties.SuccessEndsOutsideRun` holds only for the source as written,
since the corrected lexer accepts `"return"` (`Scenarios.KeywordAtEndChecked`). The `Scenarios` lemmas are about
the source as written, except the bounds-checked results for `"99 return"` and `"return"`.
