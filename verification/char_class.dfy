/** The character classes of <cctype> as ISO C11 section 7.4.1 defines them
    in the "C" locale. Only ASCII characters belong to any class; every
    other character is classified as "none of these". */
module CharClass {

  predicate IsUpper(c: char) { 'A' <= c <= 'Z' }

  predicate IsLower(c: char) { 'a' <= c <= 'z' }

  /** isalpha */
  predicate IsAlpha(c: char) { IsUpper(c) || IsLower(c) }

  /** isdigit */
  predicate IsDigit(c: char) { '0' <= c <= '9' }

  /** isalnum */
  predicate IsAlnum(c: char) { IsAlpha(c) || IsDigit(c) }

  /** isspace: space, and horizontal tab, line feed, vertical tab,
      form feed and carriage return (codes 9 to 13). */
  predicate IsSpace(c: char) { c == ' ' || '\t' <= c <= '\r' }

  /** Whitespace the lexer skips without emitting a token: every isspace
      character except the line feed. */
  predicate IsBlank(c: char) { IsSpace(c) && c != '\n' }
}
