/** The lexer and parser of main.py exactly as written, including the
    behaviour that the rest of this model corrects (see README, Findings).
    Python's exceptions become a `Fault`: a crash (an `IndexError` or a
    failed `assert`) or a raised error: an `EspressoInvalidSyntax`, or the
    `ValueError` of `int()` on a non-digit text (main.py:200), shown as a
    `BadInteger` syntax error; the lexer never emits an integer token that
    `int()` rejects, so the latter cannot happen on lexed input. Each defect is
    shown by a lemma naming an input on which the code as written and the
    corrected model part ways. */
module AsWritten {
  import opened Wrappers
  import opened Tokens
  import opened LifoStack
  import opened Lexer
  import opened Parser

  datatype Fault = Crash | Raised(error: SyntaxError)

  /** A corrected result, seen with the as-written error type. */
  function Lift<T>(r: Result<T, SyntaxError>): (l: Result<T, Fault>)
    ensures l.Success? <==> r.Success?
    ensures l.Success? ==> l.value == r.value
    ensures l.Failure? ==> l.error == Raised(r.error)
  {
    match r
    case Success(v) => Success(v)
    case Failure(e) => Failure(Raised(e))
  }

  // ---------------------------------------------------------------------
  // The lexer's cursor (main.py:54-56, 58-97, 115-120)
  // ---------------------------------------------------------------------

  /** A lexer object: its only state between calls is `self.cursor`. */
  datatype LexerState = LexerState(cursor: int)

  /** `Lexer()`: the cursor starts before the first character. */
  function FreshLexer(): LexerState {
    LexerState(-1)
  }

  /** Puts `t` in front of the tokens scanned after it. */
  function Prepend(t: Token, rest: (Result<seq<Token>, Fault>, int)): (r: (Result<seq<Token>, Fault>, int))
    ensures r.1 == rest.1
    ensures r.0.Success? <==> rest.0.Success?
    ensures r.0.Success? ==> r.0.value == [t] + rest.0.value
  {
    match rest.0
    case Success(ts) => (Success([t] + ts), rest.1)
    case Failure(e) => (Failure(e), rest.1)
  }

  /** The `while self.advance() is not None` loop from cursor `c`: returns
      the outcome and where the cursor is left. `advance` stops only when
      the cursor sits on the last character, so a cursor already past it
      is moved further and `cur()` indexes out of range. */
  function LexLoop(s: string, c: int): (r: (Result<seq<Token>, Fault>, int))
    requires c >= -1
    ensures r.1 >= c
    ensures r.0.Success? ==> r.1 == |s| - 1
    decreases |s| - c
  {
    if c == |s| - 1 then (Success([]), c)
    else
      var p := c + 1;
      if p >= |s| then (Failure(Crash), p)
      else
        var ch := s[p];
        if ch == '.' then Prepend(Token(Dot, ".", p), LexLoop(s, p))
        else if ch == ',' then LexLoop(s, p)
        else if ch == '(' then Prepend(Token(LParen, "(", p), LexLoop(s, p))
        else if ch == ')' then Prepend(Token(RParen, ")", p), LexLoop(s, p))
        else if ch == '"' then
          match FindNext(s, p + 1, '"')
          case None => (Failure(Raised(SyntaxError(UnterminatedString, p))), p)
          case Some(n) => Prepend(Token(String, s[p + 1..n], p), LexLoop(s, n))
        else if ch == ' ' then LexLoop(s, p)
        else if IsDigit(ch) then
          var e := RunEnd(s, p, Digits);
          Prepend(Token(Integer, s[p..e], p), LexLoop(s, e - 1))
        else if IsLetter(ch) then
          var e := RunEnd(s, p, Letters);
          Prepend(Token(Identifier, s[p..e], p), LexLoop(s, e - 1))
        else (Failure(Raised(SyntaxError(InvalidCharacter(ch), p))), p)
  }

  /** `lexer.lex(input)` on a lexer object that may have been used before:
      the cursor is not reset (main.py:56 is its only assignment outside
      the loop). */
  function LexWith(st: LexerState, input: string): (r: (Result<seq<Token>, Fault>, LexerState))
    requires st.cursor >= -1
    ensures r.1.cursor >= -1
    ensures r.0.Success? ==> r.1.cursor == |Normalize(input)| - 1
  {
    var (res, c) := LexLoop(Normalize(input), st.cursor);
    (res, LexerState(c))
  }

  /** One step of `LexLoop` over `.`, `(` or `)`. */
  lemma PunctuationStep(s: string, c: int)
    requires -1 <= c < |s| - 1 && (s[c + 1] == '.' || s[c + 1] == '(' || s[c + 1] == ')')
    requires LexLoop(s, c + 1).0 == Lift(LexFrom(s, c + 2))
    ensures LexLoop(s, c).0 == Lift(LexFrom(s, c + 1))
  {
  }

  /** One step of `LexLoop` over a comma or a space. */
  lemma SeparatorStep(s: string, c: int)
    requires -1 <= c < |s| - 1 && (s[c + 1] == ',' || s[c + 1] == ' ')
    requires LexLoop(s, c + 1).0 == Lift(LexFrom(s, c + 2))
    ensures LexLoop(s, c).0 == Lift(LexFrom(s, c + 1))
  {
  }

  /** One step of `LexLoop` over a string literal closed at `n`. */
  lemma StringStep(s: string, c: int, n: nat)
    requires -1 <= c < |s| - 1 && s[c + 1] == '"'
    requires FindNext(s, c + 2, '"') == Some(n)
    requires LexLoop(s, n).0 == Lift(LexFrom(s, n + 1))
    ensures LexLoop(s, c).0 == Lift(LexFrom(s, c + 1))
  {
  }

  /** One step of `LexLoop` over a run of digits whose last character
      is at `last`. */
  lemma DigitsStep(s: string, c: int, last: int)
    requires -1 <= c < |s| - 1 && IsDigit(s[c + 1])
    requires last + 1 == RunEnd(s, c + 1, Digits)
    requires LexLoop(s, last).0 == Lift(LexFrom(s, last + 1))
    ensures LexLoop(s, c).0 == Lift(LexFrom(s, c + 1))
  {
  }

  /** One step of `LexLoop` over a run of letters whose last character
      is at `last`. */
  lemma LettersStep(s: string, c: int, last: int)
    requires -1 <= c < |s| - 1 && IsLetter(s[c + 1])
    requires last + 1 == RunEnd(s, c + 1, Letters)
    requires LexLoop(s, last).0 == Lift(LexFrom(s, last + 1))
    ensures LexLoop(s, c).0 == Lift(LexFrom(s, c + 1))
  {
  }

  /** With the cursor on the last character both scans stop, empty-handed. */
  lemma EndStep(s: string, c: int)
    requires c == |s| - 1 && c >= -1
    ensures LexLoop(s, c).0 == Lift(LexFrom(s, c + 1))
  {
  }

  /** A quote with no partner after it fails both scans at the quote. */
  lemma UnterminatedStep(s: string, c: int)
    requires -1 <= c < |s| - 1 && s[c + 1] == '"'
    requires FindNext(s, c + 2, '"') == None
    ensures LexLoop(s, c).0 == Lift(LexFrom(s, c + 1))
  {
  }

  /** A character no rule accepts fails both scans there. */
  lemma InvalidStep(s: string, c: int)
    requires -1 <= c < |s| - 1
    requires s[c + 1] != '.' && s[c + 1] != ',' && s[c + 1] != '(' && s[c + 1] != ')'
    requires s[c + 1] != '"' && s[c + 1] != ' ' && !IsDigit(s[c + 1]) && !IsLetter(s[c + 1])
    ensures LexLoop(s, c).0 == Lift(LexFrom(s, c + 1))
  {
  }

  /** From a cursor inside the text, the as-written loop is the corrected
      scan from the next character. Each kind of token is handled by a
      lemma that recurses back here from where the loop resumes. */
  lemma {:induction false} LexLoopAgrees(s: string, c: int)
    requires -1 <= c < |s|
    ensures LexLoop(s, c).0 == Lift(LexFrom(s, c + 1))
    decreases |s| - c, 1
  {
    if c == |s| - 1 {
      EndStep(s, c);
    } else {
      var ch := s[c + 1];
      if ch == '.' || ch == '(' || ch == ')' {
        PunctuationAgrees(s, c);
      } else if ch == ',' || ch == ' ' {
        SeparatorAgrees(s, c);
      } else if ch == '"' {
        QuoteAgrees(s, c);
      } else if IsDigit(ch) {
        DigitsAgree(s, c);
      } else if IsLetter(ch) {
        LettersAgree(s, c);
      } else {
        InvalidStep(s, c);
      }
    }
  }

  lemma PunctuationAgrees(s: string, c: int)
    requires -1 <= c < |s| - 1 && (s[c + 1] == '.' || s[c + 1] == '(' || s[c + 1] == ')')
    ensures LexLoop(s, c).0 == Lift(LexFrom(s, c + 1))
    decreases |s| - c, 0
  {
    LexLoopAgrees(s, c + 1);
    PunctuationStep(s, c);
  }

  lemma SeparatorAgrees(s: string, c: int)
    requires -1 <= c < |s| - 1 && (s[c + 1] == ',' || s[c + 1] == ' ')
    ensures LexLoop(s, c).0 == Lift(LexFrom(s, c + 1))
    decreases |s| - c, 0
  {
    LexLoopAgrees(s, c + 1);
    SeparatorStep(s, c);
  }

  lemma QuoteAgrees(s: string, c: int)
    requires -1 <= c < |s| - 1 && s[c + 1] == '"'
    ensures LexLoop(s, c).0 == Lift(LexFrom(s, c + 1))
    decreases |s| - c, 0
  {
    match FindNext(s, c + 2, '"')
    case None =>
      UnterminatedStep(s, c);
    case Some(n) =>
      LexLoopAgrees(s, n);
      StringStep(s, c, n);
  }

  lemma DigitsAgree(s: string, c: int)
    requires -1 <= c < |s| - 1 && IsDigit(s[c + 1])
    ensures LexLoop(s, c).0 == Lift(LexFrom(s, c + 1))
    decreases |s| - c, 0
  {
    var last := RunEnd(s, c + 1, Digits) - 1;
    LexLoopAgrees(s, last);
    DigitsStep(s, c, last);
  }

  lemma LettersAgree(s: string, c: int)
    requires -1 <= c < |s| - 1 && IsLetter(s[c + 1])
    ensures LexLoop(s, c).0 == Lift(LexFrom(s, c + 1))
    decreases |s| - c, 0
  {
    var last := RunEnd(s, c + 1, Letters) - 1;
    LexLoopAgrees(s, last);
    LettersStep(s, c, last);
  }

  /** A fresh lexer computes exactly `Lex`. */
  lemma FreshLexerAgrees(input: string)
    ensures LexWith(FreshLexer(), input).0 == Lift(Lex(input))
  {
    LexLoopAgrees(Normalize(input), -1);
  }

  /** Finding: a lexer that has lexed a longer text crashes on the next,
      shorter one, instead of lexing it. */
  lemma StaleCursorCrashes(first: string, second: string)
    requires Lex(first).Success?
    requires |Normalize(second)| < |Normalize(first)|
    ensures LexWith(FreshLexer(), first).0.Success?
    ensures LexWith(LexWith(FreshLexer(), first).1, second).0 == Failure(Crash)
  {
    FreshLexerAgrees(first);
  }

  // ---------------------------------------------------------------------
  // The parser's shared state (main.py:122-204)
  // ---------------------------------------------------------------------

  /** The loop of `parse_call_chain` (main.py:137-147) over `self.tokens`
      from scan index `i`, with the chain and offset so far. The loop bound
      `i < len - 1` guarantees a next token, so the `nxt is None` test of
      main.py:142 never fires. */
  function ChainScanLoop(st: seq<Token>, i: nat, chain: seq<string>, offset: nat): (r: Result<(seq<string>, nat), Fault>)
    ensures r.Success? ==> chain <= r.value.0 && r.value.1 == offset + 2 * (|r.value.0| - |chain|)
    ensures r.Failure? ==> r.error.Raised? && r.error.error.kind == DanglingDot
    decreases |st| - i
  {
    if i < |st| - 1 && st[i].kind != LParen then
      if st[i].kind == Dot then
        if st[i + 1].kind != Identifier then Failure(Raised(SyntaxError(DanglingDot, st[i].pos)))
        else ChainScanLoop(st, i + 1, chain + [st[i + 1].text], offset + 2)
      else ChainScanLoop(st, i + 1, chain, offset)
    else Success((chain, offset))
  }

  /** `parse_call_chain(at)` as written: the scan for `. IDENT` pairs starts
      at token 0 of `self.tokens` whatever `at` is. */
  function ChainScan(st: seq<Token>, at: nat): (r: Result<(seq<string>, nat), Fault>)
    ensures r.Success? ==> at < |st| && |r.value.0| >= 1 && r.value.0[0] == st[at].text
    ensures r == Failure(Crash) <==> at >= |st| || st[at].kind != Identifier
  {
    if at >= |st| || st[at].kind != Identifier then Failure(Crash)
    else ChainScanLoop(st, 0, [st[at].text], 0)
  }

  /** `parse_func_params(at)` as written, with the value `self.tokens` is
      left holding. `self.tokens[at + 1]` is read with no bound check. */
  function Params(st: seq<Token>, at: nat): (r: (Result<(seq<Value>, nat), Fault>, seq<Token>))
    ensures |r.1| <= |st|
    decreases |st|, 1
  {
    if at >= |st| || st[at].kind != Identifier then (Failure(Crash), st)
    else if at + 1 >= |st| then (Failure(Crash), st)
    else if st[at + 1].kind != LParen then (Success(([], 0)), st)
    else
      match ClosingParen(st, at + 1)
      case None => (Failure(Raised(SyntaxError(UnclosedParen, st[at + 1].pos))), st)
      case Some(close) =>
        var (res, after) := ParseShared(st[at + 2..close]);
        match res
        case Failure(e) => (Failure(e), after)
        case Success(args) => (Success((args.Elements(), close - at)), after)
  }

  /** `parse(tokens)` as written: sets `self.tokens`, which the nested call
      overwrites, and returns it with the stack. */
  function ParseShared(tokens: seq<Token>): (r: (Result<Stack<Value>, Fault>, seq<Token>))
    ensures |r.1| <= |tokens|
    decreases |tokens|, 3
  {
    ParseLoop(tokens, 0, tokens, Empty())
  }

  /** The loop of main.py:185-202: `cur` comes from the local `tokens`,
      the chain and the arguments from `self.tokens` (`st`). After a call
      the index moves by the argument offset twice (main.py:195, 198) and
      then by one (main.py:202). */
  function ParseLoop(tokens: seq<Token>, i: nat, st: seq<Token>, acc: Stack<Value>): (r: (Result<Stack<Value>, Fault>, seq<Token>))
    requires |st| <= |tokens|
    ensures |r.1| <= |tokens|
    decreases |tokens|, 2, if i <= |tokens| then |tokens| - i else 0, 1
  {
    if i >= |tokens| then (Success(acc), st)
    else
      var cur := tokens[i];
      match cur.kind
      case Identifier => CallLoop(tokens, i, st, acc)
      case Integer =>
        (match ParseInt(cur.text)
         case None => (Failure(Raised(SyntaxError(BadInteger, cur.pos))), st)
         case Some(n) => ParseLoop(tokens, i + 1, st, acc.Push(Int(n))))
      case String => ParseLoop(tokens, i + 1, st, acc.Push(Str(cur.text)))
      case _ => ParseLoop(tokens, i + 1, st, acc)
  }

  /** The identifier branch of the loop (main.py:188-198): the chain and
      the arguments are read from `st`, and the loop goes on at the index
      the double offset gives. */
  function CallLoop(tokens: seq<Token>, i: nat, st: seq<Token>, acc: Stack<Value>): (r: (Result<Stack<Value>, Fault>, seq<Token>))
    requires i < |tokens| && |st| <= |tokens|
    ensures |r.1| <= |tokens|
    decreases |tokens|, 2, |tokens| - i, 0
  {
    match ChainScan(st, i)
    case Failure(e) => (Failure(e), st)
    case Success((chain, off1)) =>
      var j := i + off1;
      var (res, after) := Params(st, j);
      match res
      case Failure(e) => (Failure(e), after)
      case Success((args, off2)) => ParseLoop(tokens, j + off2 + off2 + 1, after, acc.Push(Frame(chain, args)))
  }

  /** One call in the loop as written: it pushes the frame and moves the
      index by the chain offset, twice the argument offset, and one. */
  lemma CallStep(tokens: seq<Token>, i: nat, st: seq<Token>, acc: Stack<Value>,
                 chain: seq<string>, off1: nat, args: seq<Value>, off2: nat, after: seq<Token>, next: nat)
    requires i < |tokens| && |st| <= |tokens| && tokens[i].kind == Identifier
    requires ChainScan(st, i) == Success((chain, off1))
    requires Params(st, i + off1) == (Success((args, off2)), after)
    requires next == i + off1 + off2 + off2 + 1
    ensures |after| <= |tokens|
    ensures ParseLoop(tokens, i, st, acc) == ParseLoop(tokens, next, after, acc.Push(Frame(chain, args)))
  {
    CallLoopStep(tokens, i, st, acc, chain, off1, args, off2, after, next);
  }

  /** The identifier branch as written: after a chain of offset `off1`
      and arguments of offset `off2`, the loop resumes at
      `i + off1 + 2 * off2 + 1`, not just after the `)`. */
  lemma CallLoopStep(tokens: seq<Token>, i: nat, st: seq<Token>, acc: Stack<Value>,
                 chain: seq<string>, off1: nat, args: seq<Value>, off2: nat, after: seq<Token>, next: nat)
    requires i < |tokens| && |st| <= |tokens|
    requires ChainScan(st, i) == Success((chain, off1))
    requires Params(st, i + off1) == (Success((args, off2)), after)
    requires next == i + off1 + off2 + off2 + 1
    ensures CallLoop(tokens, i, st, acc) == ParseLoop(tokens, next, after, acc.Push(Frame(chain, args)))
  {
  }

  /** On tokens without identifiers the shared state is never read, and the
      code as written agrees with the corrected parser. */
  lemma {:induction false} LiteralsAgree(tokens: seq<Token>, i: nat, st: seq<Token>, acc: Stack<Value>)
    requires i <= |tokens| && |st| <= |tokens|
    requires forall k :: 0 <= k < |tokens| ==> tokens[k].kind != Identifier
    ensures ParseLoop(tokens, i, st, acc).0 == Lift(ParseFrom(tokens, i, acc))
    decreases |tokens| - i
  {
    if i < |tokens| {
      var cur := tokens[i];
      if cur.kind == Integer {
        match ParseInt(cur.text)
        case None =>
        case Some(n) => LiteralsAgree(tokens, i + 1, st, acc.Push(Int(n)));
      } else if cur.kind == String {
        LiteralsAgree(tokens, i + 1, st, acc.Push(Str(cur.text)));
      } else {
        LiteralsAgree(tokens, i + 1, st, acc);
      }
    }
  }
}
