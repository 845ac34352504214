/** `Parser` of main.py:122-204: tokens to a stack of values, with dotted
    call chains and argument lists parsed recursively. The model is the
    intended parser; README lists where main.py differs from it. */
module Parser {
  import opened Wrappers
  import opened Tokens
  import opened LifoStack

  /** A parsed value: `int`, `str` or `StackFrame(func_chain, func_params)`
      (main.py:11-13). The arguments are kept in insertion order, which is
      the iteration order of the stack the recursive parse returns. */
  datatype Value = Int(n: int) | Str(text: string) | Frame(chain: seq<string>, params: seq<Value>)

  /** What every parsed value satisfies: numbers come from digit strings,
      and every call has a non-empty chain. */
  ghost predicate Wf(v: Value) {
    match v
    case Int(n) => n >= 0
    case Str(_) => true
    case Frame(chain, params) => |chain| >= 1 && forall k :: 0 <= k < |params| ==> Wf(params[k])
  }

  ghost predicate AllWf(vs: seq<Value>) {
    forall k :: 0 <= k < |vs| ==> Wf(vs[k])
  }

  /** The kind of token each parse error is reported at. */
  function BlamedKind(e: ErrorKind): TokenKind {
    match e
    case DanglingDot => Dot
    case UnclosedParen => LParen
    case _ => Integer
  }

  /** A parse error carries the position of a token of the blamed kind. */
  ghost predicate Blames(ts: seq<Token>, e: SyntaxError) {
    && (e.kind == DanglingDot || e.kind == UnclosedParen || e.kind == BadInteger)
    && exists k :: 0 <= k < |ts| && ts[k].pos == e.pos && ts[k].kind == BlamedKind(e.kind)
  }

  // ---------------------------------------------------------------------
  // Call chains (`parse_call_chain`, main.py:132-149)
  // ---------------------------------------------------------------------

  /** `seg` spells one `. name` pair per element of `names`, in order. */
  ghost predicate Pairs(seg: seq<Token>, names: seq<string>)
    decreases |names|
  {
    && |seg| == 2 * |names|
    && (names != [] ==>
          && seg[0].kind == Dot
          && seg[1].kind == Identifier
          && seg[1].text == names[0]
          && Pairs(seg[2..], names[1..]))
  }

  /** `seg` spells the dotted name `chain`: an identifier, then pairs. */
  ghost predicate IsChain(seg: seq<Token>, chain: seq<string>) {
    && |seg| >= 1 && |chain| >= 1
    && seg[0].kind == Identifier
    && seg[0].text == chain[0]
    && Pairs(seg[1..], chain[1..])
  }

  /** `e` reports the dot where the `. name` pairs from `j` stop: the
      dot at index `d`, with pairs spelling `names` between `j` and `d`,
      that no identifier follows. */
  ghost predicate DanglingDotIn(ts: seq<Token>, j: nat, e: SyntaxError) {
    exists d: nat, names: seq<string> ::
      && j <= d < |ts|
      && Pairs(ts[j..d], names)
      && ts[d].kind == Dot
      && (d + 1 == |ts| || ts[d + 1].kind != Identifier)
      && e == SyntaxError(DanglingDot, ts[d].pos)
  }

  /** A dangling dot after a further `. name` pair is a dangling dot
      after the pair's start. */
  lemma DanglingDotAfterPair(ts: seq<Token>, j: nat, e: SyntaxError)
    requires j + 1 < |ts| && ts[j].kind == Dot && ts[j + 1].kind == Identifier
    requires DanglingDotIn(ts, j + 2, e)
    ensures DanglingDotIn(ts, j, e)
  {
    var d: nat, names: seq<string> :| j + 2 <= d < |ts| && Pairs(ts[j + 2..d], names) && ts[d].kind == Dot
      && (d + 1 == |ts| || ts[d + 1].kind != Identifier) && e == SyntaxError(DanglingDot, ts[d].pos);
    assert ts[j..d][2..] == ts[j + 2..d];
    assert Pairs(ts[j..d], [ts[j + 1].text] + names);
  }

  /** The names of the contiguous `. IDENT` pairs from index `j`, and the
      index just after them. */
  function ChainTail(ts: seq<Token>, j: nat): (r: Result<(seq<string>, nat), SyntaxError>)
    requires j <= |ts|
    ensures r.Success? ==> j <= r.value.1 <= |ts| && Pairs(ts[j..r.value.1], r.value.0)
    ensures r.Success? ==> r.value.1 == |ts| || ts[r.value.1].kind != Dot
    ensures r.Failure? ==> DanglingDotIn(ts, j, r.error)
    decreases |ts| - j
  {
    if j < |ts| && ts[j].kind == Dot then
      if j + 1 < |ts| && ts[j + 1].kind == Identifier then
        var rest := ChainTail(ts, j + 2);
        if rest.Failure? then
          DanglingDotAfterPair(ts, j, rest.error);
          Failure(rest.error)
        else
          var tail := rest.value;
          assert ts[j..tail.1][2..] == ts[j + 2..tail.1];
          Success(([ts[j + 1].text] + tail.0, tail.1))
      else
        assert Pairs(ts[j..j], []);
        Failure(SyntaxError(DanglingDot, ts[j].pos))
    else Success(([], j))
  }

  /** The dotted name that starts at identifier `at`, and the index just
      after it; a dot that no identifier follows is an error at the dot. */
  function CallChain(ts: seq<Token>, at: nat): (r: Result<(seq<string>, nat), SyntaxError>)
    requires at < |ts| && ts[at].kind == Identifier
    ensures r.Success? ==> at < r.value.1 <= |ts| && IsChain(ts[at..r.value.1], r.value.0)
    ensures r.Success? ==> r.value.1 == |ts| || ts[r.value.1].kind != Dot
    ensures r.Failure? ==> DanglingDotIn(ts, at + 1, r.error)
  {
    var tail :- ChainTail(ts, at + 1);
    assert ts[at..tail.1][1..] == ts[at + 1..tail.1];
    Success(([ts[at].text] + tail.0, tail.1))
  }

  /** An identifier that no dot follows is a chain of one name. */
  lemma SingleNameChain(ts: seq<Token>, at: nat)
    requires at < |ts| && ts[at].kind == Identifier
    requires at + 1 == |ts| || ts[at + 1].kind != Dot
    ensures CallChain(ts, at) == Success(([ts[at].text], at + 1))
  {
    assert ChainTail(ts, at + 1) == Success(([], at + 1));
    assert [ts[at].text] + [] == [ts[at].text];
  }

  // ---------------------------------------------------------------------
  // Parenthesis matching (`get_closing_paren_index`, main.py:151-163)
  // ---------------------------------------------------------------------

  function Delta(t: Token): int {
    if t.kind == LParen then 1 else if t.kind == RParen then -1 else 0
  }

  /** Opening minus closing parentheses in `ts`. */
  function Balance(ts: seq<Token>): int {
    if ts == [] then 0 else Balance(ts[..|ts| - 1]) + Delta(ts[|ts| - 1])
  }

  /** `j` holds the `)` that closes the `(` at `idx`: the depth over
      `ts[idx..j + 1]` is back to zero and every shorter prefix is open. */
  ghost predicate Closes(ts: seq<Token>, idx: nat, j: nat) {
    && idx < j < |ts|
    && ts[j].kind == RParen
    && Balance(ts[idx..j + 1]) == 0
    && forall k :: idx < k <= j ==> Balance(ts[idx..k]) >= 1
  }

  /** The loop of main.py:154-161 from index `i`, with the stack of open
      parentheses `depth`: the first `)` that pops the last open one. */
  function ScanClose(ts: seq<Token>, i: nat, depth: Stack<bool>): (r: Option<nat>)
    requires i <= |ts|
    ensures r.Some? ==> i <= r.value < |ts| && ts[r.value].kind == RParen
    decreases |ts| - i
  {
    if i == |ts| then None
    else if ts[i].kind == RParen then
      if depth.Length() == 1 then Some(i)
      else ScanClose(ts, i + 1, depth.Pop().1)
    else if ts[i].kind == LParen then ScanClose(ts, i + 1, depth.Push(true))
    else ScanClose(ts, i + 1, depth)
  }

  /** `get_closing_paren_index(tokens, idx)` for the `(` at `idx`: the
      index of its matching `)`, or `None` when it is never closed. */
  function ClosingParen(ts: seq<Token>, idx: nat): (r: Option<nat>)
    requires idx < |ts| && ts[idx].kind == LParen
    ensures r.Some? ==> idx < r.value < |ts| && ts[r.value].kind == RParen
  {
    ScanClose(ts, idx + 1, Empty<bool>().Push(true))
  }

  /** With as many parentheses on the stack as are open after
      `ts[idx..i]`, the loop returns a position that closes the `(` at
      `idx`, and `None` only when no position from `i` on does. */
  lemma {:induction false} ScanCloseSpec(ts: seq<Token>, idx: nat, i: nat, depth: Stack<bool>)
    requires idx < i <= |ts|
    requires depth.Length() == Balance(ts[idx..i])
    requires forall k :: idx < k <= i ==> Balance(ts[idx..k]) >= 1
    ensures ScanClose(ts, i, depth).Some? ==> Closes(ts, idx, ScanClose(ts, i, depth).value)
    ensures ScanClose(ts, i, depth).None? ==> forall j :: i <= j < |ts| ==> !Closes(ts, idx, j)
    decreases |ts| - i
  {
    if i < |ts| {
      BalanceStep(ts, idx, i);
      if ts[i].kind == RParen && depth.Length() == 1 {
        assert Balance(ts[idx..i + 1]) == 0;
      } else {
        var next := if ts[i].kind == RParen then depth.Pop().1
          else if ts[i].kind == LParen then depth.Push(true)
          else depth;
        assert next.Length() == Balance(ts[idx..i + 1]) >= 1;
        StillOpen(ts, idx, i);
        ScanCloseSpec(ts, idx, i + 1, next);
        assert ScanClose(ts, i, depth) == ScanClose(ts, i + 1, next);
        if ScanClose(ts, i + 1, next).None? {
          NotClosedBefore(ts, idx, i);
        }
      }
    }
  }

  /** A prefix that is still open extends the run of open prefixes. */
  lemma StillOpen(ts: seq<Token>, idx: nat, i: nat)
    requires idx < i < |ts|
    requires forall k :: idx < k <= i ==> Balance(ts[idx..k]) >= 1
    requires Balance(ts[idx..i + 1]) >= 1
    ensures forall k :: idx < k <= i + 1 ==> Balance(ts[idx..k]) >= 1
  {
  }

  /** A position where the depth does not drop to zero closes nothing. */
  lemma NotClosedBefore(ts: seq<Token>, idx: nat, i: nat)
    requires idx < i < |ts|
    requires Balance(ts[idx..i + 1]) != 0 || ts[i].kind != RParen
    requires forall j :: i + 1 <= j < |ts| ==> !Closes(ts, idx, j)
    ensures forall j :: i <= j < |ts| ==> !Closes(ts, idx, j)
  {
  }

  /** The index found is the `)` that closes the `(`, the only one that
      does, and `None` means that none does. */
  lemma ClosingParenSpec(ts: seq<Token>, idx: nat)
    requires idx < |ts| && ts[idx].kind == LParen
    ensures ClosingParen(ts, idx).Some? ==> Closes(ts, idx, ClosingParen(ts, idx).value)
    ensures ClosingParen(ts, idx).Some? ==> forall j :: Closes(ts, idx, j) ==> j == ClosingParen(ts, idx).value
    ensures ClosingParen(ts, idx).None? ==> forall j :: !Closes(ts, idx, j)
  {
    assert ts[idx..idx + 1] == [ts[idx]];
    ScanCloseSpec(ts, idx, idx + 1, Empty<bool>().Push(true));
  }

  /** Extending a slice by one token adds that token's depth change. */
  lemma BalanceStep(ts: seq<Token>, lo: nat, k: nat)
    requires lo <= k < |ts|
    ensures Balance(ts[lo..k + 1]) == Balance(ts[lo..k]) + Delta(ts[k])
  {
    assert ts[lo..k + 1][..k - lo] == ts[lo..k];
  }

  /** A `)` that `Closes` the `(` at `idx` is the one found. */
  lemma ClosingParenAt(ts: seq<Token>, idx: nat, j: nat)
    requires idx < |ts| && ts[idx].kind == LParen && Closes(ts, idx, j)
    ensures ClosingParen(ts, idx) == Some(j)
  {
    ClosingParenSpec(ts, idx);
  }

  /** With no `)` after it, a `(` is never closed. */
  lemma NoClosingParen(ts: seq<Token>, idx: nat)
    requires idx < |ts| && ts[idx].kind == LParen
    requires forall j :: idx < j < |ts| ==> ts[j].kind != RParen
    ensures ClosingParen(ts, idx) == None
  {
    ClosingParenSpec(ts, idx);
  }

  /** `r` holds the values of `acc` followed by well-formed values only. */
  ghost predicate Extends(r: Stack<Value>, acc: Stack<Value>) {
    && acc.items <= r.items
    && forall k :: |acc.items| <= k < |r.items| ==> Wf(r.items[k])
  }

  // ---------------------------------------------------------------------
  // The parser (`parse` and `parse_func_params`, main.py:165-204)
  // ---------------------------------------------------------------------

  /** `parse(tokens)`: the values of `ts`, pushed in order. */
  function Parse(ts: seq<Token>): (r: Result<Stack<Value>, SyntaxError>)
    decreases |ts|, 1
  {
    ParseFrom(ts, 0, Empty())
  }

  /** The loop of `parse` from index `i`, values so far in `acc`. String
      and integer tokens push a literal, an identifier starts a call, and
      other token kinds are passed over, as main.py:199-202 does. */
  function ParseFrom(ts: seq<Token>, i: nat, acc: Stack<Value>): (r: Result<Stack<Value>, SyntaxError>)
    requires i <= |ts|
    decreases |ts|, 0, |ts| - i, 1
  {
    if i == |ts| then Success(acc)
    else
      var t := ts[i];
      match t.kind
      case Identifier => ParseCall(ts, i, acc)
      case Integer =>
        (match ParseInt(t.text)
         case None => Failure(SyntaxError(BadInteger, t.pos))
         case Some(n) => PushThen(ts, i + 1, acc, Int(n)))
      case String => PushThen(ts, i + 1, acc, Str(t.text))
      case _ => ParseFrom(ts, i + 1, acc)
  }

  /** One call starting at identifier `i` (main.py:188-198): its chain and,
      when a `(` follows the chain, the recursive parse of the tokens
      strictly inside the matching parentheses; scanning resumes just
      after the chain, or just after the `)`. */
  function ParseCall(ts: seq<Token>, i: nat, acc: Stack<Value>): (r: Result<Stack<Value>, SyntaxError>)
    requires i < |ts| && ts[i].kind == Identifier
    decreases |ts|, 0, |ts| - i, 0
  {
    var call := CallChain(ts, i);
    if call.Failure? then
      Failure(call.error)
    else
      var chain := call.value.0;
      var end := call.value.1;
      assert |chain| >= 1;
      if end < |ts| && ts[end].kind == LParen then
        ParseArguments(ts, end, acc, chain)
      else PushThen(ts, end, acc, Frame(chain, []))
  }

  /** The argument list that opens at `open` (`parse_func_params`,
      main.py:165-177): the recursive parse of the tokens strictly inside
      the matching parentheses; an unclosed `(` is an error at its
      position. */
  function ParseArguments(ts: seq<Token>, open: nat, acc: Stack<Value>, chain: seq<string>): (r: Result<Stack<Value>, SyntaxError>)
    requires open < |ts| && ts[open].kind == LParen && |chain| >= 1
    decreases |ts|, 0, |ts| - open, 3
  {
    match ClosingParen(ts, open)
    case None => Failure(SyntaxError(UnclosedParen, ts[open].pos))
    case Some(close) =>
      match Parse(ts[open + 1..close])
      case Failure(e) => Failure(e)
      case Success(args) => PushThen(ts, close + 1, acc, Frame(chain, args.Elements()))
  }

  /** Pushes `v` and parses on from `i`. */
  function PushThen(ts: seq<Token>, i: nat, acc: Stack<Value>, v: Value): (r: Result<Stack<Value>, SyntaxError>)
    requires i <= |ts|
    decreases |ts|, 0, |ts| - i, 2
  {
    ParseFrom(ts, i, acc.Push(v))
  }

  // ---------------------------------------------------------------------
  // What the parser promises, by induction along its recursion
  // ---------------------------------------------------------------------

  /** Every value `parse` returns is well formed, and an error is
      reported at a token of `ts` of the kind it blames. */
  lemma {:induction false} ParseSound(ts: seq<Token>)
    ensures Parse(ts).Success? ==> AllWf(Parse(ts).value.Elements())
    ensures Parse(ts).Failure? ==> Blames(ts, Parse(ts).error)
    decreases |ts|, 1
  {
    ParseFromSound(ts, 0, Empty());
  }

  /** The loop keeps the values already pushed and appends only
      well-formed ones; an error blames a token of `ts`. */
  lemma {:induction false} ParseFromSound(ts: seq<Token>, i: nat, acc: Stack<Value>)
    requires i <= |ts|
    ensures ParseFrom(ts, i, acc).Success? ==> Extends(ParseFrom(ts, i, acc).value, acc)
    ensures ParseFrom(ts, i, acc).Failure? ==> Blames(ts, ParseFrom(ts, i, acc).error)
    decreases |ts|, 0, |ts| - i, 1
  {
    if i < |ts| {
      var t := ts[i];
      match t.kind
      case Identifier => ParseCallSound(ts, i, acc);
      case Integer =>
        match ParseInt(t.text) {
          case None =>
            var e := SyntaxError(BadInteger, ts[i].pos);
            assert ParseFrom(ts, i, acc) == Failure(e);
            BlamedAt(ts, i, e);
          case Some(n) => PushThenSound(ts, i + 1, acc, Int(n));
        }
      case String => PushThenSound(ts, i + 1, acc, Str(t.text));
      case _ => ParseFromSound(ts, i + 1, acc);
    }
  }

  /** A call keeps the values already pushed and appends well-formed
      ones; a dangling dot or an unclosed `(` in it blames a token of `ts`. */
  lemma {:induction false} ParseCallSound(ts: seq<Token>, i: nat, acc: Stack<Value>)
    requires i < |ts| && ts[i].kind == Identifier
    ensures ParseCall(ts, i, acc).Success? ==> Extends(ParseCall(ts, i, acc).value, acc)
    ensures ParseCall(ts, i, acc).Failure? ==> Blames(ts, ParseCall(ts, i, acc).error)
    decreases |ts|, 0, |ts| - i, 0
  {
    var call := CallChain(ts, i);
    if call.Failure? {
      DanglingDotBlames(ts, i + 1, call.error);
    } else {
      var chain := call.value.0;
      var end := call.value.1;
      if end < |ts| && ts[end].kind == LParen {
        ParseArgumentsSound(ts, end, acc, chain);
      } else {
        PushThenSound(ts, end, acc, Frame(chain, []));
      }
    }
  }

  /** An argument list keeps the values already pushed; an error inside
      the parentheses, or an unclosed `(`, blames a token of `ts`. */
  lemma {:induction false} ParseArgumentsSound(ts: seq<Token>, open: nat, acc: Stack<Value>, chain: seq<string>)
    requires open < |ts| && ts[open].kind == LParen && |chain| >= 1
    ensures ParseArguments(ts, open, acc, chain).Success? ==> Extends(ParseArguments(ts, open, acc, chain).value, acc)
    ensures ParseArguments(ts, open, acc, chain).Failure? ==> Blames(ts, ParseArguments(ts, open, acc, chain).error)
    decreases |ts|, 0, |ts| - open, 3
  {
    match ClosingParen(ts, open)
    case None =>
      var e := SyntaxError(UnclosedParen, ts[open].pos);
      assert ParseArguments(ts, open, acc, chain) == Failure(e);
      BlamedAt(ts, open, e);
    case Some(close) =>
      var inner := ts[open + 1..close];
      ParseSound(inner);
      match Parse(inner) {
        case Failure(e) =>
          BlamesInSlice(ts, open + 1, close, e);
          assert ParseArguments(ts, open, acc, chain) == Failure(e);
        case Success(args) =>
          var v := Frame(chain, args.Elements());
          assert Wf(v);
          PushThenSound(ts, close + 1, acc, v);
          assert ParseArguments(ts, open, acc, chain) == PushThen(ts, close + 1, acc, v);
      }
  }

  /** Pushing a well-formed value and parsing on keeps everything pushed
      before it. */
  lemma {:induction false} PushThenSound(ts: seq<Token>, i: nat, acc: Stack<Value>, v: Value)
    requires i <= |ts| && Wf(v)
    ensures PushThen(ts, i, acc, v).Success? ==> Extends(PushThen(ts, i, acc, v).value, acc)
    ensures PushThen(ts, i, acc, v).Failure? ==> Blames(ts, PushThen(ts, i, acc, v).error)
    decreases |ts|, 0, |ts| - i, 2
  {
    ParseFromSound(ts, i, acc.Push(v));
    var r := ParseFrom(ts, i, acc.Push(v));
    if r.Success? {
      PushExtends(r.value, acc, v);
    }
  }

  lemma PushExtends(r: Stack<Value>, acc: Stack<Value>, v: Value)
    requires Wf(v) && Extends(r, acc.Push(v))
    ensures Extends(r, acc)
  {
    assert r.items[..|acc.items|] == r.items[..|acc.items| + 1][..|acc.items|];
  }

  /** An error at the position of a token of the kind it blames. */
  lemma BlamedAt(ts: seq<Token>, k: nat, e: SyntaxError)
    requires k < |ts| && ts[k].pos == e.pos && ts[k].kind == BlamedKind(e.kind)
    requires e.kind == DanglingDot || e.kind == UnclosedParen || e.kind == BadInteger
    ensures Blames(ts, e)
  {
  }

  lemma DanglingDotBlames(ts: seq<Token>, j: nat, e: SyntaxError)
    requires DanglingDotIn(ts, j, e)
    ensures Blames(ts, e)
  {
    var d: nat, names: seq<string> :| j <= d < |ts| && Pairs(ts[j..d], names) && ts[d].kind == Dot
      && (d + 1 == |ts| || ts[d + 1].kind != Identifier) && e == SyntaxError(DanglingDot, ts[d].pos);
    assert ts[d].pos == e.pos && ts[d].kind == BlamedKind(e.kind);
  }

  /** An error blamed on a token of a slice is blamed on the whole. */
  lemma BlamesInSlice(ts: seq<Token>, lo: nat, hi: nat, e: SyntaxError)
    requires lo <= hi <= |ts| && Blames(ts[lo..hi], e)
    ensures Blames(ts, e)
  {
    var k :| 0 <= k < hi - lo && ts[lo..hi][k].pos == e.pos && ts[lo..hi][k].kind == BlamedKind(e.kind);
    assert ts[lo + k] == ts[lo..hi][k];
  }

  // ---------------------------------------------------------------------
  // One step of the parse loop
  // ---------------------------------------------------------------------

  /** An identifier chain followed by `(` is a call whose arguments are
      read next. */
  lemma CallOpensArguments(ts: seq<Token>, i: nat, acc: Stack<Value>, chain: seq<string>, open: nat)
    requires i < |ts| && ts[i].kind == Identifier
    requires CallChain(ts, i) == Success((chain, open))
    requires open < |ts| && ts[open].kind == LParen
    ensures ParseFrom(ts, i, acc) == ParseArguments(ts, open, acc, chain)
  {
  }

  /** A matched argument list pushes one frame whose arguments are the
      parse of the tokens strictly inside its parentheses, in order, and
      parsing resumes just after the `)`. */
  lemma ArgumentsParsed(ts: seq<Token>, open: nat, acc: Stack<Value>, chain: seq<string>, close: nat, args: Stack<Value>)
    requires open < |ts| && ts[open].kind == LParen && |chain| >= 1
    requires ClosingParen(ts, open) == Some(close)
    requires Parse(ts[open + 1..close]) == Success(args)
    ensures ParseArguments(ts, open, acc, chain) == ParseFrom(ts, close + 1, acc.Push(Frame(chain, args.Elements())))
  {
  }

  /** A `(` after a call's chain that is never closed fails the whole
      parse, at the position of that `(`. */
  lemma UnclosedArguments(ts: seq<Token>, i: nat, acc: Stack<Value>, chain: seq<string>, open: nat)
    requires i < |ts| && ts[i].kind == Identifier
    requires CallChain(ts, i) == Success((chain, open))
    requires open < |ts| && ts[open].kind == LParen
    requires ClosingParen(ts, open) == None
    ensures ParseFrom(ts, i, acc) == Failure(SyntaxError(UnclosedParen, ts[open].pos))
  {
    assert ParseFrom(ts, i, acc) == ParseCall(ts, i, acc);
    assert ParseCall(ts, i, acc) == ParseArguments(ts, open, acc, chain);
  }

  /** A chain with a dot that no identifier follows fails the whole parse,
      at the position of that dot. */
  lemma DanglingDotFails(ts: seq<Token>, i: nat, acc: Stack<Value>)
    requires i < |ts| && ts[i].kind == Identifier
    requires CallChain(ts, i).Failure?
    ensures ParseFrom(ts, i, acc).Failure?
    ensures DanglingDotIn(ts, i + 1, ParseFrom(ts, i, acc).error)
  {
  }

  /** An identifier chain that no `(` follows is a call with no arguments,
      and parsing resumes just after the chain. */
  lemma CallWithoutArguments(ts: seq<Token>, i: nat, acc: Stack<Value>, chain: seq<string>, end: nat)
    requires i < |ts| && ts[i].kind == Identifier
    requires CallChain(ts, i) == Success((chain, end))
    requires end == |ts| || ts[end].kind != LParen
    ensures ParseFrom(ts, i, acc) == ParseFrom(ts, end, acc.Push(Frame(chain, [])))
  {
    calc {
      ParseFrom(ts, i, acc);
      ParseCall(ts, i, acc);
      PushThen(ts, end, acc, Frame(chain, []));
    }
  }
}
