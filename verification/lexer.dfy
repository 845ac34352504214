/** `Lexer.lex` of main.py:53-120: text to tokens with a single forward
    cursor. Every call starts from a fresh cursor (see README, Findings). */
module Lexer {
  import opened Wrappers
  import opened Tokens

  // ---------------------------------------------------------------------
  // Normalisation: `input_string.strip().replace("\n", " ")` (main.py:59)
  // ---------------------------------------------------------------------

  /** Drops leading whitespace: the result is a suffix of `s` that does not
      start with whitespace, and everything dropped is whitespace. */
  function StripLeft(s: string): (r: string)
    ensures |r| <= |s| && r == s[|s| - |r|..]
    ensures forall k :: 0 <= k < |s| - |r| ==> IsWhitespace(s[k])
    ensures r == [] || !IsWhitespace(r[0])
  {
    if s != [] && IsWhitespace(s[0]) then StripLeft(s[1..]) else s
  }

  /** Drops trailing whitespace: the result is a prefix of `s` that does
      not end with whitespace, and everything dropped is whitespace. */
  function StripRight(s: string): (r: string)
    ensures |r| <= |s| && r == s[..|r|]
    ensures forall k :: |r| <= k < |s| ==> IsWhitespace(s[k])
    ensures r == [] || !IsWhitespace(r[|r| - 1])
  {
    if s != [] && IsWhitespace(s[|s| - 1]) then StripRight(s[..|s| - 1]) else s
  }

  /** `s[a..a + |r|] == r` and everything of `s` outside it is whitespace. */
  ghost predicate StrippedAt(s: string, a: nat, r: string) {
    && a + |r| <= |s|
    && r == s[a..a + |r|]
    && (forall k :: 0 <= k < a ==> IsWhitespace(s[k]))
    && (forall k :: a + |r| <= k < |s| ==> IsWhitespace(s[k]))
  }

  /** `str.strip()`: the infix of `s` left after removing whitespace at
      both ends; it neither starts nor ends with whitespace. */
  function Strip(s: string): (r: string)
    ensures exists a :: StrippedAt(s, a, r)
    ensures r == [] || (!IsWhitespace(r[0]) && !IsWhitespace(r[|r| - 1]))
  {
    var left := StripLeft(s);
    var r := StripRight(left);
    StripBoth(s, left, r);
    r
  }

  /** Composing the two trims: `r` sits in `s` right after the dropped prefix. */
  lemma StripBoth(s: string, left: string, r: string)
    requires |left| <= |s| && left == s[|s| - |left|..]
    requires forall k :: 0 <= k < |s| - |left| ==> IsWhitespace(s[k])
    requires |r| <= |left| && r == left[..|r|]
    requires forall k :: |r| <= k < |left| ==> IsWhitespace(left[k])
    ensures StrippedAt(s, |s| - |left|, r)
  {
    var a := |s| - |left|;
    forall k | a + |r| <= k < |s|
      ensures IsWhitespace(s[k])
    {
      assert s[k] == left[k - a];
    }
    assert r == s[a..a + |r|] by {
      forall k | 0 <= k < |r|
        ensures r[k] == s[a + k]
      {
        assert r[k] == left[k];
        assert left[k] == s[a + k];
      }
    }
  }

  /** `replace("\n", " ")`: every line feed becomes a space. */
  function NewlinesToSpaces(s: string): (r: string)
    ensures |r| == |s|
    ensures forall k :: 0 <= k < |s| ==> r[k] == (if s[k] == '\n' then ' ' else s[k])
  {
    if s == [] then [] else [if s[0] == '\n' then ' ' else s[0]] + NewlinesToSpaces(s[1..])
  }

  /** The string the cursor runs over; token positions index into it. */
  function Normalize(input: string): (s: string)
    ensures '\n' !in s
    ensures |s| <= |input|
  {
    var stripped := Strip(input);
    var s := NewlinesToSpaces(stripped);
    assert forall k :: 0 <= k < |s| ==> s[k] != '\n';
    s
  }

  /** Text that is already trimmed and on one line is its own normal form. */
  lemma NormalizeTrimmed(s: string)
    requires s == [] || (!IsWhitespace(s[0]) && !IsWhitespace(s[|s| - 1]))
    requires '\n' !in s
    ensures Normalize(s) == s
  {
    assert StripLeft(s) == s;
    assert StripRight(s) == s;
    assert NewlinesToSpaces(s) == s;
  }

  /** Normalising twice is normalising once. */
  lemma NormalizeIdempotent(input: string)
    ensures Normalize(Normalize(input)) == Normalize(input)
  {
    var s := Normalize(input);
    var stripped := Strip(input);
    assert s == NewlinesToSpaces(stripped);
    if s != [] {
      assert s[0] == (if stripped[0] == '\n' then ' ' else stripped[0]);
      assert s[|s| - 1] == (if stripped[|s| - 1] == '\n' then ' ' else stripped[|s| - 1]);
    }
    NormalizeTrimmed(s);
  }

  /** Input that is empty or only whitespace normalises to the empty string. */
  lemma BlankNormalizesToEmpty(input: string)
    requires forall k :: 0 <= k < |input| ==> IsWhitespace(input[k])
    ensures Normalize(input) == []
  {
  }

  // ---------------------------------------------------------------------
  // Scanning helpers
  // ---------------------------------------------------------------------

  /** `find_next_index` (main.py:102-106): the first index at or after
      `from` holding `c`, or `None`. */
  function FindNext(s: string, from: nat, c: char): (r: Option<nat>)
    requires from <= |s|
    ensures r.Some? ==> from <= r.value < |s| && s[r.value] == c && c !in s[from..r.value]
    ensures r.None? ==> c !in s[from..]
    decreases |s| - from
  {
    if from == |s| then None
    else if s[from] == c then Some(from)
    else
      var r := FindNext(s, from + 1, c);
      assert r.Some? ==> s[from..r.value] == [s[from]] + s[from + 1..r.value];
      assert s[from..] == [s[from]] + s[from + 1..];
      r
  }

  /** The two run classes: digits for integers, letters for identifiers. */
  datatype RunClass = Digits | Letters

  predicate InClass(k: RunClass, c: char) {
    match k
    case Digits => IsDigit(c)
    case Letters => IsLetter(c)
  }

  /** The inner `while` of main.py:83-84 and 90-91: the end of the maximal
      run of class `k` starting at `j`. */
  function RunEnd(s: string, j: nat, k: RunClass): (e: nat)
    requires j <= |s|
    ensures j <= e <= |s|
    ensures forall m :: j <= m < e ==> InClass(k, s[m])
    ensures e == |s| || !InClass(k, s[e])
    ensures j < |s| && InClass(k, s[j]) ==> j < e
    decreases |s| - j
  {
    if j < |s| && InClass(k, s[j]) then RunEnd(s, j + 1, k) else j
  }

  /** Commas and spaces separate tokens and emit nothing (main.py:66-67, 78-79). */
  predicate IsSeparator(c: char) {
    c == ',' || c == ' '
  }

  /** Every character the lexer accepts somewhere. */
  predicate Legal(c: char) {
    c == '.' || c == ',' || c == '(' || c == ')' || c == '"' || c == ' ' || IsDigit(c) || IsLetter(c)
  }

  // ---------------------------------------------------------------------
  // Reference description of a correct tokenisation
  // ---------------------------------------------------------------------

  /** How many characters of the input a token spans: a string token also
      spans its two quotes. */
  function Width(t: Token): nat {
    if t.kind == String then |t.text| + 2 else |t.text|
  }

  function End(t: Token): nat {
    t.pos + Width(t)
  }

  /** `t` is a maximal run of class `k` in `s` starting at its position. */
  ghost predicate MaximalRun(s: string, t: Token, k: RunClass)
    requires End(t) <= |s|
  {
    && |t.text| > 0
    && s[t.pos..End(t)] == t.text
    && (forall m :: 0 <= m < |t.text| ==> InClass(k, t.text[m]))
    && (End(t) == |s| || !InClass(k, s[End(t)]))
  }

  /** `t` is a token the lexer may read at `t.pos` of `s`. */
  ghost predicate TokenAt(s: string, t: Token) {
    && End(t) <= |s|
    && match t.kind
       case Dot => t.text == "." && s[t.pos] == '.'
       case LParen => t.text == "(" && s[t.pos] == '('
       case RParen => t.text == ")" && s[t.pos] == ')'
       case String =>
         && s[t.pos] == '"'
         && s[t.pos + 1..End(t) - 1] == t.text
         && s[End(t) - 1] == '"'
         && '"' !in t.text
       case Integer => MaximalRun(s, t, Digits)
       case Identifier => MaximalRun(s, t, Letters)
  }

  ghost predicate Separators(s: string, lo: nat, hi: nat)
    requires lo <= hi <= |s|
  {
    forall k :: lo <= k < hi ==> IsSeparator(s[k])
  }

  /** `ts` tiles `s[i..]`: the tokens appear in order, each as `TokenAt`
      describes it, with only separators before, between and after them. */
  ghost predicate Tiling(s: string, i: nat, ts: seq<Token>)
    decreases |ts|
  {
    && i <= |s|
    && if ts == [] then Separators(s, i, |s|)
       else
         && TokenAt(s, ts[0])
         && i <= ts[0].pos
         && Separators(s, i, ts[0].pos)
         && Tiling(s, End(ts[0]), ts[1..])
  }

  /** `ts` tiles `s[i..hi]`: as `Tiling`, but ending at `hi`, which need
      not be the end of `s`. */
  ghost predicate TilingTo(s: string, i: nat, hi: nat, ts: seq<Token>)
    decreases |ts|
  {
    && i <= hi <= |s|
    && if ts == [] then Separators(s, i, hi)
       else
         && TokenAt(s, ts[0])
         && i <= ts[0].pos
         && Separators(s, i, ts[0].pos)
         && TilingTo(s, End(ts[0]), hi, ts[1..])
  }

  /** Some sequence of tokens tiles `s[i..hi]`. */
  ghost predicate ReadTo(s: string, i: nat, hi: nat) {
    exists ts :: TilingTo(s, i, hi, ts)
  }

  /** A lexing error names the offending character of `s`. */
  ghost predicate Offending(s: string, e: SyntaxError) {
    && e.pos < |s|
    && match e.kind
       case UnterminatedString =>
         s[e.pos] == '"' && forall k :: e.pos < k < |s| ==> s[k] != '"'
       case InvalidCharacter(c) => c == s[e.pos] && !Legal(c)
       case _ => false
  }

  /** `r` is a correct answer for scanning `s` from `i`: a tiling of the
      rest on success; on failure an error at an offending character at or
      after `i`, with the text before it tiled. */
  ghost predicate Sound(s: string, i: nat, r: Result<seq<Token>, SyntaxError>) {
    && (r.Success? ==> Tiling(s, i, r.value))
    && (r.Failure? ==> i <= r.error.pos && Offending(s, r.error) && ReadTo(s, i, r.error.pos))
  }

  // ---------------------------------------------------------------------
  // The lexer
  // ---------------------------------------------------------------------

  /** Prepends `t` to the result of scanning on after it; an error from
      further on passes through. */
  function Emit(t: Token, rest: Result<seq<Token>, SyntaxError>): Result<seq<Token>, SyntaxError> {
    match rest
    case Success(ts) => Success([t] + ts)
    case Failure(e) => Failure(e)
  }

  /** A token read at the cursor, put in front of a correct answer for
      the text after it, gives a correct answer from the cursor. */
  lemma EmitSound(s: string, t: Token, rest: Result<seq<Token>, SyntaxError>)
    requires TokenAt(s, t) && Sound(s, End(t), rest)
    ensures Sound(s, t.pos, Emit(t, rest))
    ensures Emit(t, rest).Success? ==> Emit(t, rest).value[0] == t
  {
    match rest
    case Success(ts) =>
      assert ([t] + ts)[1..] == ts;
    case Failure(e) =>
      var ts :| TilingTo(s, End(t), e.pos, ts);
      assert ([t] + ts)[1..] == ts;
      assert TilingTo(s, t.pos, e.pos, [t] + ts);
  }

  /** A comma or space at the cursor is passed over: a correct answer
      from the next character is one from the cursor. */
  lemma SkipSeparator(s: string, i: nat, rest: Result<seq<Token>, SyntaxError>)
    requires i < |s| && IsSeparator(s[i]) && Sound(s, i + 1, rest)
    ensures Sound(s, i, rest)
  {
    if rest.Failure? {
      var ts :| TilingTo(s, i + 1, rest.error.pos, ts);
      assert TilingTo(s, i, rest.error.pos, ts);
    }
  }

  /** The quoted text from `i` to the closing quote at `n` is a string token. */
  lemma StringToken(s: string, i: nat, n: nat)
    requires i < n < |s| && s[i] == '"' && s[n] == '"' && '"' !in s[i + 1..n]
    ensures TokenAt(s, Token(String, s[i + 1..n], i))
    ensures End(Token(String, s[i + 1..n], i)) == n + 1
  {
  }

  /** The maximal run of class `k` at `i` is a token of kind `kind`. */
  lemma RunToken(s: string, i: nat, k: RunClass, kind: TokenKind)
    requires i < |s| && InClass(k, s[i])
    requires kind == (if k == Digits then Integer else Identifier)
    ensures TokenAt(s, Token(kind, s[i..RunEnd(s, i, k)], i))
    ensures End(Token(kind, s[i..RunEnd(s, i, k)], i)) == RunEnd(s, i, k)
  {
    var e := RunEnd(s, i, k);
    var t := Token(kind, s[i..e], i);
    assert End(t) == e;
    assert MaximalRun(s, t, k);
  }

  /** The loop of main.py:63-95 from cursor `i`: one branch per character
      class, in the source's order. A string token ends at the next quote,
      a run at its last character, and scanning resumes after either. */
  function LexFrom(s: string, i: nat): (r: Result<seq<Token>, SyntaxError>)
    requires i <= |s|
    decreases |s| - i
  {
    if i == |s| then Success([])
    else
      var c := s[i];
      if c == '.' then Emit(Token(Dot, ".", i), LexFrom(s, i + 1))
      else if c == ',' then LexFrom(s, i + 1)
      else if c == '(' then Emit(Token(LParen, "(", i), LexFrom(s, i + 1))
      else if c == ')' then Emit(Token(RParen, ")", i), LexFrom(s, i + 1))
      else if c == '"' then
        match FindNext(s, i + 1, '"')
        case None => Failure(SyntaxError(UnterminatedString, i))
        case Some(n) => Emit(Token(String, s[i + 1..n], i), LexFrom(s, n + 1))
      else if c == ' ' then LexFrom(s, i + 1)
      else if IsDigit(c) then
        var e := RunEnd(s, i, Digits);
        Emit(Token(Integer, s[i..e], i), LexFrom(s, e))
      else if IsLetter(c) then
        var e := RunEnd(s, i, Letters);
        Emit(Token(Identifier, s[i..e], i), LexFrom(s, e))
      else Failure(SyntaxError(InvalidCharacter(c), i))
  }

  /** `Lexer.lex`: normalise, then scan from the first character. */
  function Lex(input: string): Result<seq<Token>, SyntaxError> {
    LexFrom(Normalize(input), 0)
  }

  // ---------------------------------------------------------------------
  // What the lexer promises, by induction along the scan
  // ---------------------------------------------------------------------

  /** On success the tokens tile the text from the cursor on. On failure
      the error names an unterminated quote or an illegal character, and
      the tokens read before it tile the text from the cursor up to it:
      the error is the first thing the scan could not read. */
  lemma {:induction false} LexFromSound(s: string, i: nat)
    requires i <= |s|
    ensures LexFrom(s, i).Success? ==> Tiling(s, i, LexFrom(s, i).value)
    ensures LexFrom(s, i).Failure? ==> i <= LexFrom(s, i).error.pos && Offending(s, LexFrom(s, i).error)
    ensures LexFrom(s, i).Failure? ==> ReadTo(s, i, LexFrom(s, i).error.pos)
    decreases |s| - i, 1
  {
    if i < |s| {
      var c := s[i];
      if c == ',' || c == ' ' {
        LexFromSound(s, i + 1);
        SkipSeparator(s, i, LexFrom(s, i + 1));
      } else if c == '.' || c == '(' || c == ')' {
        PunctuationSound(s, i);
      } else if c == '"' {
        QuoteSound(s, i);
      } else if IsDigit(c) {
        RunSound(s, i, Digits, Integer);
      } else if IsLetter(c) {
        RunSound(s, i, Letters, Identifier);
      } else {
        assert TilingTo(s, i, i, []);
      }
    }
  }

  lemma PunctuationSound(s: string, i: nat)
    requires i < |s| && (s[i] == '.' || s[i] == '(' || s[i] == ')')
    ensures Sound(s, i, LexFrom(s, i))
    decreases |s| - i, 0
  {
    var t := if s[i] == '.' then Token(Dot, ".", i)
      else if s[i] == '(' then Token(LParen, "(", i)
      else Token(RParen, ")", i);
    assert TokenAt(s, t) && End(t) == i + 1;
    LexFromSound(s, End(t));
    EmitSound(s, t, LexFrom(s, End(t)));
    assert LexFrom(s, i) == Emit(t, LexFrom(s, End(t)));
  }

  lemma QuoteSound(s: string, i: nat)
    requires i < |s| && s[i] == '"'
    ensures Sound(s, i, LexFrom(s, i))
    decreases |s| - i, 0
  {
    match FindNext(s, i + 1, '"')
    case None =>
      UnterminatedSound(s, i);
    case Some(n) =>
      LexFromSound(s, n + 1);
      StringSound(s, i, n);
  }

  /** At a quote closed at `n`, the scan emits the string token and goes
      on after the closing quote, so a correct answer from there gives
      one from the quote. */
  lemma StringSound(s: string, i: nat, n: nat)
    requires i < |s| && s[i] == '"' && FindNext(s, i + 1, '"') == Some(n)
    requires Sound(s, n + 1, LexFrom(s, n + 1))
    ensures Sound(s, i, LexFrom(s, i))
  {
    var t := Token(String, s[i + 1..n], i);
    assert LexFrom(s, i) == Emit(t, LexFrom(s, n + 1));
    StringToken(s, i, n);
    EmitSound(s, t, LexFrom(s, n + 1));
  }

  /** A quote with no partner after it is where the scan stops. */
  lemma UnterminatedSound(s: string, i: nat)
    requires i < |s| && s[i] == '"' && FindNext(s, i + 1, '"') == None
    ensures LexFrom(s, i) == Failure(SyntaxError(UnterminatedString, i))
    ensures Sound(s, i, LexFrom(s, i))
  {
    NotInSuffix(s, i + 1, '"');
    assert TilingTo(s, i, i, []);
  }

  lemma RunSound(s: string, i: nat, k: RunClass, kind: TokenKind)
    requires i < |s| && InClass(k, s[i])
    requires kind == (if k == Digits then Integer else Identifier)
    ensures Sound(s, i, LexFrom(s, i))
    decreases |s| - i, 0
  {
    var e := RunEnd(s, i, k);
    var t := Token(kind, s[i..e], i);
    RunToken(s, i, k, kind);
    LexFromSound(s, End(t));
    EmitSound(s, t, LexFrom(s, End(t)));
    assert LexFrom(s, i) == Emit(t, LexFrom(s, End(t)));
  }

  /** A character missing from a suffix is at none of its positions. */
  lemma NotInSuffix(s: string, from: nat, c: char)
    requires from <= |s| && c !in s[from..]
    ensures forall k :: from <= k < |s| ==> s[k] != c
  {
    forall k | from <= k < |s| ensures s[k] != c {
      assert s[k] == s[from..][k - from];
    }
  }

  /** `lex` returns a tiling of the normalised input, or an error at its
      first offending character, with the text before it tiled. */
  lemma LexSound(input: string)
    ensures Lex(input).Success? ==> Tiling(Normalize(input), 0, Lex(input).value)
    ensures Lex(input).Failure? ==> Offending(Normalize(input), Lex(input).error)
    ensures Lex(input).Failure? ==> ReadTo(Normalize(input), 0, Lex(input).error.pos)
  {
    LexFromSound(Normalize(input), 0);
  }

  // ---------------------------------------------------------------------
  // The lexer against the reference description
  // ---------------------------------------------------------------------

  /** `FindNext` finds the first occurrence. */
  lemma {:induction false} FindNextFirst(s: string, from: nat, n: nat, c: char)
    requires from <= n < |s| && s[n] == c && c !in s[from..n]
    ensures FindNext(s, from, c) == Some(n)
    decreases n - from
  {
    if from < n {
      assert s[from] in s[from..n];
      assert s[from + 1..n] == s[from..n][1..];
      FindNextFirst(s, from + 1, n, c);
    }
  }

  /** A run of class `k` from `j` to `e` that cannot be extended ends at `e`. */
  lemma {:induction false} RunEndAt(s: string, j: nat, e: nat, k: RunClass)
    requires j <= e <= |s|
    requires forall m :: j <= m < e ==> InClass(k, s[m])
    requires e == |s| || !InClass(k, s[e])
    ensures RunEnd(s, j, k) == e
    decreases e - j
  {
    if j < e {
      RunEndAt(s, j + 1, e, k);
    }
  }

  /** A token never starts with a separator. */
  lemma TokenStartsWithLegal(s: string, t: Token)
    requires TokenAt(s, t)
    ensures t.pos < |s| && !IsSeparator(s[t.pos])
  {
    if t.kind == Integer || t.kind == Identifier {
      assert s[t.pos..End(t)][0] == s[t.pos];
    }
  }

  /** The token the lexer reads at `i` is the one any tiling starts with. */
  lemma ReadsToken(s: string, t: Token)
    requires TokenAt(s, t)
    ensures match s[t.pos]
      case '.' => t == Token(Dot, ".", t.pos)
      case '(' => t == Token(LParen, "(", t.pos)
      case ')' => t == Token(RParen, ")", t.pos)
      case '"' =>
        && t.kind == String
        && FindNext(s, t.pos + 1, '"') == Some(End(t) - 1)
        && t == Token(String, s[t.pos + 1..End(t) - 1], t.pos)
      case _ =>
        if IsDigit(s[t.pos]) then
          && t.kind == Integer
          && RunEnd(s, t.pos, Digits) == End(t)
          && t == Token(Integer, s[t.pos..End(t)], t.pos)
        else
          && t.kind == Identifier
          && RunEnd(s, t.pos, Letters) == End(t)
          && t == Token(Identifier, s[t.pos..End(t)], t.pos)
  {
    var i := t.pos;
    match t.kind
    case String =>
      FindNextFirst(s, i + 1, End(t) - 1, '"');
    case Integer =>
      assert s[i..End(t)][0] == s[i];
      forall m | i <= m < End(t) ensures IsDigit(s[m]) {
        assert s[m] == t.text[m - i];
      }
      RunEndAt(s, i, End(t), Digits);
    case Identifier =>
      assert s[i..End(t)][0] == s[i];
      forall m | i <= m < End(t) ensures IsLetter(s[m]) {
        assert s[m] == t.text[m - i];
      }
      RunEndAt(s, i, End(t), Letters);
    case _ =>
  }

  /** Completeness: whenever a tiling of `s[i..]` exists, the lexer
      produces exactly it. With `LexFrom`'s postcondition this makes the
      tiling unique and the lexer's answer the only correct one. */
  lemma {:induction false} LexFromComplete(s: string, i: nat, ts: seq<Token>)
    requires Tiling(s, i, ts)
    ensures LexFrom(s, i) == Success(ts)
    decreases |s| - i
  {
    if i < |s| {
      if IsSeparator(s[i]) {
        TilingPastSeparator(s, i, ts);
        LexFromComplete(s, i + 1, ts);
        SeparatorPassed(s, i);
      } else {
        TilingStartsHere(s, i, ts);
        LexFromComplete(s, End(ts[0]), ts[1..]);
        LexReadsToken(s, ts[0], ts[1..]);
        assert [ts[0]] + ts[1..] == ts;
      }
    }
  }

  /** A tiling from a separator is also one from the next character. */
  lemma TilingPastSeparator(s: string, i: nat, ts: seq<Token>)
    requires i < |s| && IsSeparator(s[i]) && Tiling(s, i, ts)
    ensures Tiling(s, i + 1, ts)
  {
    if ts != [] {
      TokenStartsWithLegal(s, ts[0]);
    }
  }

  /** The lexer passes over a separator. */
  lemma SeparatorPassed(s: string, i: nat)
    requires i < |s| && IsSeparator(s[i])
    ensures LexFrom(s, i) == LexFrom(s, i + 1)
  {
  }

  /** A tiling from a character that is not a separator starts with a
      token right there. */
  lemma TilingStartsHere(s: string, i: nat, ts: seq<Token>)
    requires i < |s| && !IsSeparator(s[i]) && Tiling(s, i, ts)
    ensures ts != [] && ts[0].pos == i && TokenAt(s, ts[0]) && Tiling(s, End(ts[0]), ts[1..])
  {
    if ts != [] {
      TokenStartsWithLegal(s, ts[0]);
    }
  }

  /** Where the lexer reads the rest after token `t`, it reads `t` first. */
  lemma LexReadsToken(s: string, t: Token, rest: seq<Token>)
    requires TokenAt(s, t) && Tiling(s, End(t), rest) && LexFrom(s, End(t)) == Success(rest)
    ensures LexFrom(s, t.pos) == Success([t] + rest)
  {
    TokenStartsWithLegal(s, t);
    ReadsToken(s, t);
  }

  /** The lexer succeeds with `ts` exactly when `ts` tiles the input. */
  lemma LexCharacterized(input: string, ts: seq<Token>)
    ensures Lex(input) == Success(ts) <==> Tiling(Normalize(input), 0, ts)
  {
    LexSound(input);
    if Tiling(Normalize(input), 0, ts) {
      LexFromComplete(Normalize(input), 0, ts);
    }
  }

  /** The lexer fails exactly when no tiling of the input exists. */
  lemma LexFailsIffNoTiling(input: string)
    ensures Lex(input).Failure? <==> forall ts :: !Tiling(Normalize(input), 0, ts)
  {
    var s := Normalize(input);
    forall ts | Tiling(s, 0, ts)
      ensures LexFrom(s, 0) == Success(ts)
    {
      LexFromComplete(s, 0, ts);
    }
    assert Lex(input) == LexFrom(s, 0);
    LexSound(input);
    if LexFrom(s, 0).Success? {
      var ts := LexFrom(s, 0).value;
      assert Tiling(s, 0, ts);
      assert exists ts' :: Tiling(Normalize(input), 0, ts');
    }
  }

  /** Empty or whitespace-only input yields no tokens. */
  lemma LexBlank(input: string)
    requires forall k :: 0 <= k < |input| ==> IsWhitespace(input[k])
    ensures Lex(input) == Success([])
  {
    BlankNormalizesToEmpty(input);
  }

  /** The tokens of a tiling lie inside `s[i..]` at strictly increasing
      positions, each starting where the previous one has ended or later. */
  lemma {:induction false} TilingPositions(s: string, i: nat, ts: seq<Token>)
    requires Tiling(s, i, ts)
    ensures forall k :: 0 <= k < |ts| ==> i <= ts[k].pos < End(ts[k]) <= |s|
    ensures forall j, k :: 0 <= j < k < |ts| ==> End(ts[j]) <= ts[k].pos
    decreases |ts|
  {
    if ts != [] {
      TokenStartsWithLegal(s, ts[0]);
      TilingPositions(s, End(ts[0]), ts[1..]);
      forall k | 0 < k < |ts| ensures End(ts[0]) <= ts[k].pos {
        assert ts[k] == ts[1..][k - 1];
      }
      forall j, k | 0 < j < k < |ts| ensures End(ts[j]) <= ts[k].pos {
        assert ts[j] == ts[1..][j - 1] && ts[k] == ts[1..][k - 1];
      }
    }
  }
}
