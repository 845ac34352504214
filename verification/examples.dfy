/** The expectations of tests/test_parser.py, and the inputs on which the
    code as written and the corrected model part ways, worked through on
    concrete text and tokens. */
module Examples {
  import opened Wrappers
  import opened Tokens
  import opened LifoStack
  import opened Lexer
  import opened Parser
  import opened AsWritten

  /** What the as-written loop from a fresh cursor computes, `Lex` does. */
  lemma LexViaLoop(input: string, r: Result<seq<Token>, SyntaxError>)
    requires LexLoop(Normalize(input), -1).0 == Lift(r)
    ensures Lex(input) == r
  {
    FreshLexerAgrees(input);
  }

  /** A two-digit integer token is read as its decimal value. */
  lemma TwoDigits(s: string)
    requires |s| == 2 && IsDigit(s[0]) && IsDigit(s[1])
    ensures ParseInt(s) == Some(10 * (s[0] as int - '0' as int) + (s[1] as int - '0' as int))
  {
    assert AllDigits(s);
    assert s[..1][..0] == "";
    assert DigitsValue(s[..1]) == s[0] as int - '0' as int;
  }

  /** An integer token pushes its value and parsing moves on. */
  lemma IntegerPushed(ts: seq<Token>, i: nat, acc: Stack<Value>, n: nat)
    requires i < |ts| && ts[i].kind == Integer && ParseInt(ts[i].text) == Some(n)
    ensures ParseFrom(ts, i, acc) == ParseFrom(ts, i + 1, acc.Push(Int(n)))
  {
  }

  /** The loop as written reads a digit run after the cursor as one
      integer token and goes on from the run's last digit. */
  lemma DigitsRead(s: string, c: int, e: nat, rest: seq<Token>)
    requires -1 <= c && c + 1 < |s| && IsDigit(s[c + 1]) && !IsLetter(s[c + 1])
    requires RunEnd(s, c + 1, Digits) == e
    requires LexLoop(s, e - 1).0 == Success(rest)
    ensures LexLoop(s, c).0 == Success([Token(Integer, s[c + 1..e], c + 1)] + rest)
  {
  }

  /** The loop as written passes over a comma or space after the cursor. */
  lemma SeparatorSkipped(s: string, c: int)
    requires -1 <= c && c + 1 < |s| && (s[c + 1] == ',' || s[c + 1] == ' ')
    ensures LexLoop(s, c).0 == LexLoop(s, c + 1).0
  {
  }

  /** A string token pushes its text and parsing moves on. */
  lemma StringPushed(ts: seq<Token>, i: nat, acc: Stack<Value>)
    requires i < |ts| && ts[i].kind == String
    ensures ParseFrom(ts, i, acc) == ParseFrom(ts, i + 1, acc.Push(Str(ts[i].text)))
  {
  }

  /** `()`: the `(` is closed by the token right after it. */
  lemma EmptyParens(ts: seq<Token>, idx: nat)
    requires idx + 1 < |ts| && ts[idx].kind == LParen && ts[idx + 1].kind == RParen
    ensures ClosingParen(ts, idx) == Some(idx + 1)
  {
    assert ts[idx..idx] == [];
    BalanceStep(ts, idx, idx);
    BalanceStep(ts, idx, idx + 1);
    ClosingParenAt(ts, idx, idx + 1);
  }

  // ---------------------------------------------------------------------
  // test_should_resolve_flat_call_stack (tests/test_parser.py:9-16)
  // ---------------------------------------------------------------------

  const flatInput: string := "32, 33, 34, \"foo\""

  const flatTokens: seq<Token> :=
    [ Token(Integer, "32", 0), Token(Integer, "33", 4), Token(Integer, "34", 8), Token(String, "foo", 12) ]

  /** `, "foo"` from index 10 on. */
  lemma FlatLexFoo()
    ensures LexLoop(flatInput, 9).0 == Success(flatTokens[3..])
  {
    var s := flatInput;
    assert |s| == 17;
    assert s[10] == ',';
    assert s[11] == ' ';
    assert s[12] == '"';
    assert s[16] == '"';
    assert s[13..16] == "foo";
    FindNextFirst(s, 13, 16, '"');
    var none: seq<Token> := [];
    assert LexLoop(s, 16).0 == Success(none);
    assert LexLoop(s, 11).0 == Success([Token(String, "foo", 12)] + none);
    assert LexLoop(s, 10).0 == LexLoop(s, 11).0;
    assert [Token(String, "foo", 12)] + none == flatTokens[3..];
  }

  /** `, 34` from index 6 on. */
  lemma FlatLex34()
    ensures LexLoop(flatInput, 5).0 == Success(flatTokens[2..])
  {
    var s := flatInput;
    FlatLexFoo();
    assert |s| == 17;
    assert s[6] == ',';
    assert s[7] == ' ';
    assert s[8] == '3';
    assert s[9] == '4';
    assert s[10] == ',';
    assert RunEnd(s, 8, Digits) == 10;
    assert s[8..10] == "34";
    assert LexLoop(s, 7).0 == Success([Token(Integer, "34", 8)] + flatTokens[3..]);
    assert LexLoop(s, 6).0 == LexLoop(s, 7).0;
    assert [Token(Integer, "34", 8)] + flatTokens[3..] == flatTokens[2..];
  }

  /** `, 33` from index 2 on. */
  lemma FlatLex33()
    ensures LexLoop(flatInput, 1).0 == Success(flatTokens[1..])
  {
    var s := flatInput;
    FlatLex33Run();
    assert |s| == 17;
    assert s[2] == ',';
    assert s[3] == ' ';
    SeparatorSkipped(s, 1);
    SeparatorSkipped(s, 2);
  }

  /** `33` from index 4 on. */
  lemma FlatLex33Run()
    ensures LexLoop(flatInput, 3).0 == Success(flatTokens[1..])
  {
    var s := flatInput;
    FlatLex34();
    assert |s| == 17;
    assert s[4] == '3';
    assert s[5] == '3';
    assert s[6] == ',';
    assert RunEnd(s, 4, Digits) == 6;
    assert s[4..6] == "33";
    DigitsRead(s, 3, 6, flatTokens[2..]);
    assert [Token(Integer, "33", 4)] + flatTokens[2..] == flatTokens[1..];
  }

  lemma FlatNormal()
    ensures Normalize(flatInput) == flatInput
  {
    var s := flatInput;
    assert |s| == 17;
    assert s[0] == '3';
    assert s[16] == '"';
    assert '\n' !in s;
    NormalizeTrimmed(s);
  }

  /** `32, 33, 34, "foo"` from the start, on the loop as written. */
  lemma FlatLexLoop()
    ensures LexLoop(flatInput, -1).0 == Success(flatTokens)
  {
    var s := flatInput;
    FlatLex33();
    assert |s| == 17;
    assert s[0] == '3';
    assert s[1] == '2';
    assert s[2] == ',';
    assert RunEnd(s, 0, Digits) == 2;
    assert s[0..2] == "32";
    assert LexLoop(s, -1).0 == Success([Token(Integer, "32", 0)] + flatTokens[1..]);
    assert [Token(Integer, "32", 0)] + flatTokens[1..] == flatTokens;
  }

  /** The flat input lexes to two-digit integers and one string. */
  lemma FlatLex()
    ensures Lex(flatInput) == Success(flatTokens)
  {
    FlatLexLoop();
    FlatNormal();
    LexViaLoop(flatInput, Success(flatTokens));
  }

  const flatValues: seq<Value> := [Int(32), Int(33), Int(34), Str("foo")]

  /** `34, "foo"`, pushed onto 32 and 33. */
  lemma FlatParseTail()
    ensures ParseFrom(flatTokens, 2, Stack(flatValues[..2])) == Success(Stack(flatValues))
  {
    var t := flatTokens;
    var v := flatValues;
    TwoDigits("34");
    IntegerPushed(t, 2, Stack(v[..2]), 34);
    assert Stack(v[..2]).Push(Int(34)) == Stack(v[..3]) by {
      assert v[..2] + [Int(34)] == v[..3];
    }
    StringPushed(t, 3, Stack(v[..3]));
    assert Stack(v[..3]).Push(Str("foo")) == Stack(v) by {
      assert v[..3] + [Str("foo")] == v;
    }
    assert ParseFrom(t, 4, Stack(v)) == Success(Stack(v));
  }

  /** The literals are pushed in order. */
  lemma FlatParse()
    ensures Parse(flatTokens) == Success(Stack(flatValues))
  {
    var t := flatTokens;
    var v := flatValues;
    TwoDigits("32");
    TwoDigits("33");
    IntegerPushed(t, 0, Stack([]), 32);
    assert Stack([]).Push(Int(32)) == Stack(v[..1]);
    IntegerPushed(t, 1, Stack(v[..1]), 33);
    assert Stack(v[..1]).Push(Int(33)) == Stack(v[..2]) by {
      assert v[..1] + [Int(33)] == v[..2];
    }
    FlatParseTail();
  }

  /** Popping the flat values gives them last first. */
  lemma FlatDrain()
    ensures Drain(Stack(flatValues)) == [Str("foo"), Int(34), Int(33), Int(32)]
  {
    DrainIsReverse(Stack(flatValues));
    var r := Reverse(flatValues);
    assert |r| == 4;
    assert r[0] == Str("foo");
    assert r[1] == Int(34);
    assert r[2] == Int(33);
    assert r[3] == Int(32);
  }

  /** No flat token is an identifier, so the code as written agrees. */
  lemma FlatAsWritten()
    ensures ParseShared(flatTokens).0 == Lift(Parse(flatTokens))
  {
    var t := flatTokens;
    forall k | 0 <= k < |t|
      ensures t[k].kind != Identifier
    {
    }
    LiteralsAgree(t, 0, t, Empty());
  }

  /** Popping the parsed stack gives "foo", 34, 33, 32, and the code as
      written, which never reads its shared state here, agrees. */
  lemma FlatCallStack()
    ensures Parse(flatTokens).Success?
    ensures Drain(Parse(flatTokens).value) == [Str("foo"), Int(34), Int(33), Int(32)]
    ensures ParseShared(flatTokens).0 == Lift(Parse(flatTokens))
  {
    FlatParse();
    FlatDrain();
    FlatAsWritten();
  }

  // ---------------------------------------------------------------------
  // test_should_resolve_nested_stack (tests/test_parser.py:18-23)
  // ---------------------------------------------------------------------

  const nestedInput: string := "foo(bar(), 123)"

  const nestedTokens: seq<Token> :=
    [ Token(Identifier, "foo", 0), Token(LParen, "(", 3), Token(Identifier, "bar", 4),
      Token(LParen, "(", 7), Token(RParen, ")", 8), Token(Integer, "123", 11), Token(RParen, ")", 14) ]

  /** `123)` from index 11 on. */
  lemma NestedLex123()
    ensures LexLoop(nestedInput, 10).0 == Success(nestedTokens[5..])
  {
    var s := nestedInput;
    assert |s| == 15;
    assert s[11] == '1';
    assert s[12] == '2';
    assert s[13] == '3';
    assert s[14] == ')';
    var none: seq<Token> := [];
    assert LexLoop(s, 14).0 == Success(none);
    assert LexLoop(s, 13).0 == Success([Token(RParen, ")", 14)] + none);
    assert RunEnd(s, 11, Digits) == 14;
    assert s[11..14] == "123";
    assert LexLoop(s, 10).0 == Success([Token(Integer, "123", 11)] + ([Token(RParen, ")", 14)] + none));
    assert [Token(Integer, "123", 11)] + ([Token(RParen, ")", 14)] + none) == nestedTokens[5..];
  }

  /** `(), ` from index 7 on. */
  lemma NestedLexParens()
    ensures LexLoop(nestedInput, 6).0 == Success(nestedTokens[3..])
  {
    var s := nestedInput;
    NestedLex123();
    var l5 := nestedTokens[5..];
    assert |s| == 15;
    assert s[7] == '(';
    assert s[8] == ')';
    assert s[9] == ',';
    assert s[10] == ' ';
    assert LexLoop(s, 9).0 == LexLoop(s, 10).0;
    assert LexLoop(s, 8).0 == LexLoop(s, 9).0;
    assert LexLoop(s, 7).0 == Success([Token(RParen, ")", 8)] + l5);
    assert LexLoop(s, 6).0 == Success([Token(LParen, "(", 7)] + ([Token(RParen, ")", 8)] + l5));
    assert [Token(LParen, "(", 7)] + ([Token(RParen, ")", 8)] + l5) == nestedTokens[3..];
  }

  /** `bar(), ` from index 4 on. */
  lemma NestedLexBar()
    ensures LexLoop(nestedInput, 3).0 == Success(nestedTokens[2..])
  {
    var s := nestedInput;
    NestedLexParens();
    assert |s| == 15;
    assert s[4] == 'b';
    assert s[5] == 'a';
    assert s[6] == 'r';
    assert s[7] == '(';
    assert RunEnd(s, 4, Letters) == 7;
    assert s[4..7] == "bar";
    assert LexLoop(s, 3).0 == Success([Token(Identifier, "bar", 4)] + nestedTokens[3..]);
    assert [Token(Identifier, "bar", 4)] + nestedTokens[3..] == nestedTokens[2..];
  }

  /** `(bar(), ` from index 3 on. */
  lemma NestedLexOpen()
    ensures LexLoop(nestedInput, 2).0 == Success(nestedTokens[1..])
  {
    var s := nestedInput;
    NestedLexBar();
    assert |s| == 15;
    assert s[3] == '(';
    assert LexLoop(s, 2).0 == Success([Token(LParen, "(", 3)] + nestedTokens[2..]);
    assert [Token(LParen, "(", 3)] + nestedTokens[2..] == nestedTokens[1..];
  }

  lemma NestedNormal()
    ensures Normalize(nestedInput) == nestedInput
  {
    var s := nestedInput;
    assert |s| == 15;
    assert s[0] == 'f';
    assert s[14] == ')';
    assert '\n' !in s;
    NormalizeTrimmed(s);
  }

  /** The nested input lexes to a call of `foo` around a call of `bar`. */
  lemma NestedLex()
    ensures Lex(nestedInput) == Success(nestedTokens)
  {
    var s := nestedInput;
    NestedLexOpen();
    assert |s| == 15;
    assert s[0] == 'f';
    assert s[1] == 'o';
    assert s[2] == 'o';
    assert s[3] == '(';
    assert RunEnd(s, 0, Letters) == 3;
    assert s[0..3] == "foo";
    assert LexLoop(s, -1).0 == Success([Token(Identifier, "foo", 0)] + nestedTokens[1..]);
    assert [Token(Identifier, "foo", 0)] + nestedTokens[1..] == nestedTokens;
    NestedNormal();
    LexViaLoop(s, Success(nestedTokens));
  }

  /** The `(` of `foo` is closed by the last token. */
  lemma NestedOuterClose()
    ensures ClosingParen(nestedTokens, 1) == Some(6)
  {
    var t := nestedTokens;
    assert t[1..1] == [];
    BalanceStep(t, 1, 1);
    BalanceStep(t, 1, 2);
    BalanceStep(t, 1, 3);
    BalanceStep(t, 1, 4);
    BalanceStep(t, 1, 5);
    BalanceStep(t, 1, 6);
    forall k | 1 < k <= 6
      ensures Balance(t[1..k]) >= 1
    {
    }
    ClosingParenAt(t, 1, 6);
  }

  /** The tokens inside `foo(...)`. */
  const innerTokens: seq<Token> :=
    [Token(Identifier, "bar", 4), Token(LParen, "(", 7), Token(RParen, ")", 8), Token(Integer, "123", 11)]

  lemma InnerSlice()
    ensures nestedTokens[2..6] == innerTokens
  {
  }

  /** `bar()`, read from the inside of `foo`'s parentheses. */
  lemma NestedInnerCall()
    ensures ParseFrom(innerTokens, 0, Empty()) == ParseFrom(innerTokens, 3, Empty().Push(Frame(["bar"], [])))
  {
    var u := innerTokens;
    var e: Stack<Value> := Empty();
    SingleNameChain(u, 0);
    CallOpensArguments(u, 0, e, ["bar"], 1);
    EmptyParens(u, 1);
    assert u[2..2] == [];
    assert Parse(u[2..2]) == Success(e);
    ArgumentsParsed(u, 1, e, ["bar"], 2, e);
    assert e.Elements() == [];
  }

  /** `123`, after `bar()`. */
  lemma NestedInnerInteger()
    ensures ParseFrom(innerTokens, 3, Empty().Push(Frame(["bar"], [])))
         == Success(Stack([Frame(["bar"], []), Int(123)]))
  {
    var u := innerTokens;
    var bar := Frame(["bar"], []);
    assert ParseInt("123") == Some(123) by {
      assert "123"[..2] == "12";
      TwoDigits("12");
    }
    IntegerPushed(u, 3, Empty().Push(bar), 123);
    assert Empty().Push(bar).Push(Int(123)) == Stack([bar, Int(123)]);
    assert ParseFrom(u, 4, Stack([bar, Int(123)])) == Success(Stack([bar, Int(123)]));
  }

  /** `bar(), 123`: a call without arguments, then an integer. */
  lemma NestedInnerParse()
    ensures Parse(nestedTokens[2..6]) == Success(Stack([Frame(["bar"], []), Int(123)]))
  {
    InnerSlice();
    NestedInnerCall();
    NestedInnerInteger();
  }

  /** The top of the stack is the frame of `foo`, with two arguments. */
  lemma NestedCallStack()
    ensures Parse(nestedTokens) == Success(Stack([Frame(["foo"], [Frame(["bar"], []), Int(123)])]))
    ensures |Parse(nestedTokens).value.Pop().0.value.params| == 2
  {
    var t := nestedTokens;
    var e: Stack<Value> := Empty();
    var args := Stack([Frame(["bar"], []), Int(123)]);
    var foo := Frame(["foo"], args.Elements());
    SingleNameChain(t, 0);
    CallOpensArguments(t, 0, e, ["foo"], 1);
    NestedOuterClose();
    NestedInnerParse();
    ArgumentsParsed(t, 1, e, ["foo"], 6, args);
    assert ParseFrom(t, 7, e.Push(foo)) == Success(e.Push(foo));
    assert e.Push(foo) == Stack([foo]);
  }

  /** The test file shares one lexer between its tests: after the flat
      input, whose normal form is longer, the nested input crashes. */
  lemma SharedLexerCrashes()
    ensures LexWith(LexWith(FreshLexer(), flatInput).1, nestedInput).0 == Failure(Crash)
  {
    assert Lex(flatInput).Success? by {
      FlatLex();
    }
    assert |Normalize(flatInput)| == 17 by {
      FlatNormal();
    }
    assert |Normalize(nestedInput)| == 15 by {
      NestedNormal();
    }
    StaleCursorCrashes(flatInput, nestedInput);
  }

  // ---------------------------------------------------------------------
  // Errors
  // ---------------------------------------------------------------------

  const unterminatedInput: string := "\"abc"

  lemma UnterminatedLoop()
    ensures LexLoop(unterminatedInput, -1).0 == Failure(Raised(SyntaxError(UnterminatedString, 0)))
  {
    var s := unterminatedInput;
    assert |s| == 4;
    assert s[0] == '"';
    assert s[1..] == "abc";
    assert '"' !in s[1..];
    assert FindNext(s, 1, '"') == None;
  }

  /** An unterminated string is reported at its opening quote. */
  lemma UnterminatedStringReported()
    ensures Lex(unterminatedInput) == Failure(SyntaxError(UnterminatedString, 0))
  {
    var s := unterminatedInput;
    assert |s| == 4;
    assert s[0] == '"';
    assert s[3] == 'c';
    assert '\n' !in s;
    NormalizeTrimmed(s);
    UnterminatedLoop();
    LexViaLoop(s, Failure(SyntaxError(UnterminatedString, 0)));
  }

  /** `foo(1, 2`: the `(` that is never closed is reported. */
  const unclosedTokens: seq<Token> :=
    [Token(Identifier, "foo", 0), Token(LParen, "(", 3), Token(Integer, "1", 4), Token(Integer, "2", 7)]

  lemma UnclosedParenReported()
    ensures Parse(unclosedTokens) == Failure(SyntaxError(UnclosedParen, 3))
  {
    var t := unclosedTokens;
    SingleNameChain(t, 0);
    NoClosingParen(t, 1);
    UnclosedArguments(t, 0, Empty(), ["foo"], 1);
  }

  // ---------------------------------------------------------------------
  // Inputs on which the code as written goes wrong
  // ---------------------------------------------------------------------

  /** `a.b c`: the chain of `c` picks up the earlier `. b` pair. */
  const chainTokens: seq<Token> :=
    [Token(Identifier, "a", 0), Token(Dot, ".", 1), Token(Identifier, "b", 2), Token(Identifier, "c", 4)]

  lemma ChainScanFromStart()
    ensures ChainScan(chainTokens, 3) == Success((["c", "b"], 2))
    ensures CallChain(chainTokens, 3) == Success((["c"], 4))
  {
    var t := chainTokens;
    assert ChainScanLoop(t, 3, ["c", "b"], 2) == Success((["c", "b"], 2));
    assert ChainScanLoop(t, 2, ["c", "b"], 2) == ChainScanLoop(t, 3, ["c", "b"], 2);
    assert ["c"] + [t[2].text] == ["c", "b"];
    assert ChainScanLoop(t, 1, ["c"], 0) == ChainScanLoop(t, 2, ["c", "b"], 2);
    assert ChainScanLoop(t, 0, ["c"], 0) == ChainScanLoop(t, 1, ["c"], 0);
    assert ChainScan(t, 3) == ChainScanLoop(t, 0, ["c"], 0);
    SingleNameChain(t, 3);
  }

  /** `a.`: the dot with nothing after it is accepted. */
  const danglingTokens: seq<Token> := [Token(Identifier, "a", 0), Token(Dot, ".", 1)]

  lemma DanglingDotAccepted()
    ensures ChainScan(danglingTokens, 0) == Success((["a"], 0))
    ensures CallChain(danglingTokens, 0) == Failure(SyntaxError(DanglingDot, 1))
  {
  }

  /** `x`: an identifier as the last token crashes. */
  const loneTokens: seq<Token> := [Token(Identifier, "x", 0)]

  lemma LoneIdentifierCrashes()
    ensures ParseShared(loneTokens).0 == Failure(Crash)
    ensures Parse(loneTokens).Success?
    ensures Parse(loneTokens).value.Elements() == [Frame(["x"], [])]
  {
    var t := loneTokens;
    assert ChainScan(t, 0) == Success((["x"], 0));
    assert Params(t, 0).0 == Failure(Crash);
    SingleNameChain(t, 0);
    CallWithoutArguments(t, 0, Empty(), ["x"], 1);
    PushOnEmpty(Frame(["x"], []));
  }

  /** `bar(), 123` as written: `bar()` is read, then the index jumps past
      the end. */
  lemma InnerLosesInteger()
    ensures ParseShared(innerTokens) == (Success(Empty().Push(Frame(["bar"], []))), [])
  {
    var u := innerTokens;
    var bar := Frame(["bar"], []);
    assert ChainScanLoop(u, 1, ["bar"], 0) == Success((["bar"], 0));
    assert ChainScan(u, 0) == Success((["bar"], 0));
    InnerParams();
    CallStep(u, 0, u, Empty(), ["bar"], 0, [], 2, [], 5);
    assert ParseLoop(u, 5, [], Empty().Push(bar)) == (Success(Empty().Push(bar)), []);
  }

  /** As written, `bar()` inside `foo(...)` empties the shared token list. */
  lemma InnerParams()
    ensures Params(innerTokens, 0) == (Success(([], 2)), [])
  {
    var u := innerTokens;
    EmptyParens(u, 1);
    assert u[2..2] == [];
    assert ParseShared(u[2..2]) == (Success(Empty()), []);
  }

  /** As written, the chain of `foo` is just `foo`. */
  lemma NestedChain()
    ensures ChainScan(nestedTokens, 0) == Success((["foo"], 0))
  {
    var t := nestedTokens;
    assert ChainScanLoop(t, 1, ["foo"], 0) == Success((["foo"], 0));
  }

  /** `parse_func_params` as written on a call at the start of the stream
      whose `(` is matched: the arguments are the shared parse of the
      tokens inside. */
  lemma ParamsCall(st: seq<Token>, close: nat, args: Stack<Value>, after: seq<Token>)
    requires 1 < |st| && st[0].kind == Identifier && st[1].kind == LParen
    requires ClosingParen(st, 1) == Some(close)
    requires ParseShared(st[2..close]) == (Success(args), after)
    ensures Params(st, 0) == (Success((args.Elements(), close)), after)
  {
  }

  /** As written, `foo`'s arguments are `bar()` alone, and the shared
      list is left empty. */
  lemma NestedParams()
    ensures Params(nestedTokens, 0) == (Success(([Frame(["bar"], [])], 6)), [])
  {
    var bar := Frame(["bar"], []);
    InnerSliceLosesInteger();
    NestedOuterClose();
    ParamsCall(nestedTokens, 6, Empty().Push(bar), []);
    PushOnEmpty(bar);
  }

  lemma InnerSliceLosesInteger()
    ensures ParseShared(nestedTokens[2..6]) == (Success(Empty().Push(Frame(["bar"], []))), [])
  {
    InnerSlice();
    InnerLosesInteger();
  }

  /** `foo(bar(), 123)` as written: the argument after the nested call is
      skipped. */
  lemma NestedCallLosesArgument()
    ensures ParseShared(nestedTokens).0.Success?
    ensures ParseShared(nestedTokens).0.value.Elements() == [Frame(["foo"], [Frame(["bar"], [])])]
  {
    var t := nestedTokens;
    var foo := Frame(["foo"], [Frame(["bar"], [])]);
    NestedChain();
    NestedParams();
    assert ParseLoop(t, 13, [], Empty().Push(foo)) == (Success(Empty().Push(foo)), []);
    assert ParseShared(t) == (Success(Empty().Push(foo)), []);
    PushOnEmpty(foo);
  }

  /** `f() 1 2 x()`: the nested parse of the empty inside of `f()` leaves
      `self.tokens` empty, and reading `x`'s chain from it crashes. */
  const sharedTokens: seq<Token> :=
    [ Token(Identifier, "f", 0), Token(LParen, "(", 1), Token(RParen, ")", 2), Token(Integer, "1", 4),
      Token(Integer, "2", 6), Token(Identifier, "x", 8), Token(LParen, "(", 9), Token(RParen, ")", 10) ]

  /** As written, the chain of `f` is just `f`. */
  lemma SharedTokensChain()
    ensures ChainScan(sharedTokens, 0) == Success((["f"], 0))
  {
    var t := sharedTokens;
    assert ChainScanLoop(t, 1, ["f"], 0) == Success((["f"], 0));
  }

  /** `f()` as written empties the shared token list. */
  lemma SharedTokensEmptied()
    ensures Params(sharedTokens, 0) == (Success(([], 2)), [])
  {
    var t := sharedTokens;
    EmptyParens(t, 1);
    assert t[2..2] == [];
    assert ParseShared(t[2..2]) == (Success(Empty()), []);
  }

  lemma SharedTokensCrash()
    ensures ParseShared(sharedTokens).0 == Failure(Crash)
  {
    var t := sharedTokens;
    var f := Frame(["f"], []);
    SharedTokensChain();
    SharedTokensEmptied();
    CallStep(t, 0, t, Empty(), ["f"], 0, [], 2, [], 5);
    SharedTokensResume(Empty().Push(f));
  }

  /** The corrected parser reads `x()` at the end of `f() 1 2 x()` as a
      call with no arguments. */
  lemma SharedTokensLastCall(acc: Stack<Value>)
    ensures ParseFrom(sharedTokens, 5, acc) == Success(acc.Push(Frame(["x"], [])))
  {
    var t := sharedTokens;
    var e: Stack<Value> := Empty();
    SingleNameChain(t, 5);
    CallOpensArguments(t, 5, acc, ["x"], 6);
    EmptyParens(t, 6);
    assert t[7..7] == [];
    assert Parse(t[7..7]) == Success(e);
    ArgumentsParsed(t, 6, acc, ["x"], 7, e);
    assert e.Elements() == [];
  }

  /** The corrected parser reads `f()` at the start of `f() 1 2 x()` as
      a call with no arguments. */
  lemma SharedTokensFirstCall(acc: Stack<Value>)
    ensures ParseFrom(sharedTokens, 0, acc) == ParseFrom(sharedTokens, 3, acc.Push(Frame(["f"], [])))
  {
    var t := sharedTokens;
    var e: Stack<Value> := Empty();
    SingleNameChain(t, 0);
    CallOpensArguments(t, 0, acc, ["f"], 1);
    EmptyParens(t, 1);
    assert t[2..2] == [];
    assert Parse(t[2..2]) == Success(e);
    ArgumentsParsed(t, 1, acc, ["f"], 2, e);
    assert e.Elements() == [];
  }

  /** `1 2` in the middle of `f() 1 2 x()` pushes the two integers. */
  lemma SharedTokensIntegers(acc: Stack<Value>)
    ensures ParseFrom(sharedTokens, 3, acc) == ParseFrom(sharedTokens, 5, acc.Push(Int(1)).Push(Int(2)))
  {
    var t := sharedTokens;
    assert ParseInt("1") == Some(1);
    assert ParseInt("2") == Some(2);
    IntegerPushed(t, 3, acc, 1);
    IntegerPushed(t, 4, acc.Push(Int(1)), 2);
  }

  /** The corrected parser gives `f() 1 2 x()` two calls with no
      arguments around the two integers, where the code as written crashes. */
  lemma SharedTokensParsed()
    ensures Parse(sharedTokens) == Success(Stack([Frame(["f"], []), Int(1), Int(2), Frame(["x"], [])]))
  {
    var e: Stack<Value> := Empty();
    var f := Frame(["f"], []);
    var x := Frame(["x"], []);
    SharedTokensFirstCall(e);
    SharedTokensIntegers(e.Push(f));
    SharedTokensLastCall(e.Push(f).Push(Int(1)).Push(Int(2)));
    assert e.Push(f).Push(Int(1)).Push(Int(2)).Push(x) == Stack([f, Int(1), Int(2), x]);
  }

  /** Back in the outer loop, `x` is looked up in the emptied list. */
  lemma SharedTokensResume(acc: Stack<Value>)
    ensures ParseLoop(sharedTokens, 5, [], acc).0 == Failure(Crash)
  {
    var t := sharedTokens;
    assert t[5].kind == Identifier;
    assert ChainScan([], 5) == Failure(Crash);
  }
}
