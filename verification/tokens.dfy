/** The lexical alphabet of main.py: token kinds, tokens, syntax errors,
    and the character classes the lexer and the parser share. */
module Tokens {
  import opened Wrappers

  /** `TokenType` (main.py:39-46). */
  datatype TokenKind = LParen | RParen | Dot | Integer | String | Identifier

  /** `Token(type, value, position)` (main.py:48-51); `pos` is the offset
      of the token's first character in the normalised input. */
  datatype Token = Token(kind: TokenKind, text: string, pos: nat)

  /** What went wrong. The source raises `EspressoInvalidSyntax` with a
      formatted message; only the kind and the position are kept here.
      `BadInteger` stands for the `ValueError` that `int(...)` raises on a
      text that is not a decimal numeral. */
  datatype ErrorKind =
    | UnterminatedString
    | InvalidCharacter(c: char)
    | DanglingDot
    | UnclosedParen
    | BadInteger

  datatype SyntaxError = SyntaxError(kind: ErrorKind, pos: nat)

  // ASCII stand-ins for Python's `str.isdigit`, `str.isalpha` and
  // `str.isspace`; the Unicode classes of those methods are not modelled.

  predicate IsDigit(c: char) {
    '0' <= c <= '9'
  }

  predicate IsLetter(c: char) {
    'a' <= c <= 'z' || 'A' <= c <= 'Z'
  }

  /** Space, tab, line feed, vertical tab, form feed, carriage return and
      the four ASCII separators 0x1c-0x1f: what `str.strip()` removes. */
  predicate IsWhitespace(c: char) {
    c == ' ' || 9 <= c as int <= 13 || 28 <= c as int <= 31
  }

  predicate AllDigits(s: string) {
    forall k :: 0 <= k < |s| ==> IsDigit(s[k])
  }

  predicate AllLetters(s: string) {
    forall k :: 0 <= k < |s| ==> IsLetter(s[k])
  }

  /** The numeric value of a string of decimal digits (leading zeros allowed). */
  function DigitsValue(s: string): nat
    requires AllDigits(s)
  {
    if s == [] then 0
    else DigitsValue(s[..|s| - 1]) * 10 + (s[|s| - 1] as int - '0' as int)
  }

  /** `int(text)` on a token text: a non-empty all-digit text gives its
      value, anything else gives `None` (the source's `ValueError`). */
  function ParseInt(text: string): (r: Option<nat>)
    ensures r.Some? <==> |text| > 0 && AllDigits(text)
  {
    if |text| > 0 && AllDigits(text) then Some(DigitsValue(text)) else None
  }

  /** The shortest decimal numeral of `n`. */
  function NatToDigits(n: nat): (s: string)
    ensures |s| > 0 && AllDigits(s)
    ensures n > 0 ==> s[0] != '0'
  {
    if n < 10 then [('0' as int + n) as char]
    else NatToDigits(n / 10) + [('0' as int + n % 10) as char]
  }

  /** Reading back a rendered numeral gives the number. */
  lemma {:induction false} DigitsRoundTrip(n: nat)
    ensures ParseInt(NatToDigits(n)) == Some(n)
  {
    var s := NatToDigits(n);
    if n >= 10 {
      DigitsRoundTrip(n / 10);
      assert s[..|s| - 1] == NatToDigits(n / 10);
      assert DigitsValue(s) == DigitsValue(NatToDigits(n / 10)) * 10 + n % 10;
    }
  }
}
