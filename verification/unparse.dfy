/** The parser's partner: printing values back as tokens. Parsing the
    printed tokens gives the values back, so the parser recovers every
    well-formed stack exactly. */
module Unparse {
  import opened Wrappers
  import opened Tokens
  import opened LifoStack
  import opened Parser

  /** `. name` for each name, in order. */
  function PairTokens(names: seq<string>): (r: seq<Token>)
    ensures |r| == 2 * |names|
  {
    if names == [] then [] else [Token(Dot, ".", 0), Token(Identifier, names[0], 0)] + PairTokens(names[1..])
  }

  /** A dotted name as tokens. */
  function ChainTokens(chain: seq<string>): (r: seq<Token>)
    requires |chain| >= 1
    ensures |r| == 2 * |chain| - 1
  {
    [Token(Identifier, chain[0], 0)] + PairTokens(chain[1..])
  }

  /** Printed pairs spell their names, in the shape the chain scan reads,
      and hold no parentheses. */
  lemma {:induction false} PairTokensSpell(names: seq<string>)
    ensures Pairs(PairTokens(names), names)
    ensures forall k :: 0 <= k < |PairTokens(names)| ==> PairTokens(names)[k].kind in {Dot, Identifier}
    decreases |names|
  {
    if names != [] {
      var r := PairTokens(names);
      PairTokensSpell(names[1..]);
      assert r[2..] == PairTokens(names[1..]);
    }
  }

  /** A printed dotted name is a chain, and holds no parentheses. */
  lemma ChainTokensSpell(chain: seq<string>)
    requires |chain| >= 1
    ensures IsChain(ChainTokens(chain), chain)
    ensures forall k :: 0 <= k < |ChainTokens(chain)| ==> ChainTokens(chain)[k].kind in {Dot, Identifier}
  {
    var r := ChainTokens(chain);
    PairTokensSpell(chain[1..]);
    assert r[1..] == PairTokens(chain[1..]);
  }

  /** A value as tokens; a call always gets its parentheses. Positions are
      not printed (the parser reads them only to report errors). */
  function UnparseValue(v: Value): (r: seq<Token>)
    requires Wf(v)
    ensures |r| >= 1
    decreases v
  {
    match v
    case Int(n) => [Token(Integer, NatToDigits(n), 0)]
    case Str(s) => [Token(String, s, 0)]
    case Frame(chain, params) =>
      ChainTokens(chain) + [Token(LParen, "(", 0)] + UnparseSeq(params) + [Token(RParen, ")", 0)]
  }

  /** Values one after another. */
  function UnparseSeq(vs: seq<Value>): seq<Token>
    requires AllWf(vs)
    decreases vs
  {
    if vs == [] then [] else UnparseValue(vs[0]) + UnparseSeq(vs[1..])
  }

  // ---------------------------------------------------------------------
  // Printed values are balanced
  // ---------------------------------------------------------------------

  lemma {:induction false} BalanceAppend(a: seq<Token>, b: seq<Token>)
    ensures Balance(a + b) == Balance(a) + Balance(b)
    decreases |b|
  {
    if b != [] {
      assert (a + b)[..|a + b| - 1] == a + b[..|b| - 1];
      BalanceAppend(a, b[..|b| - 1]);
    } else {
      assert a + b == a;
    }
  }

  /** Balanced, and no prefix closes more parentheses than it opens. */
  ghost predicate Dyck(ts: seq<Token>) {
    && Balance(ts) == 0
    && forall k :: 0 <= k <= |ts| ==> Balance(ts[..k]) >= 0
  }

  lemma {:induction false} NeutralBalance(ts: seq<Token>)
    requires forall k :: 0 <= k < |ts| ==> ts[k].kind in {Dot, Identifier}
    ensures Dyck(ts)
    decreases |ts|
  {
    if ts != [] {
      NeutralBalance(ts[..|ts| - 1]);
      forall k | 0 <= k <= |ts| ensures Balance(ts[..k]) >= 0 {
        if k < |ts| {
          assert ts[..k] == ts[..|ts| - 1][..k];
        } else {
          assert ts[..k] == ts;
        }
      }
    }
  }

  lemma DyckAppend(a: seq<Token>, b: seq<Token>)
    requires Dyck(a) && Dyck(b)
    ensures Dyck(a + b)
  {
    BalanceAppend(a, b);
    forall k | 0 <= k <= |a + b| ensures Balance((a + b)[..k]) >= 0 {
      if k <= |a| {
        assert (a + b)[..k] == a[..k];
      } else {
        assert (a + b)[..k] == a + b[..k - |a|];
        BalanceAppend(a, b[..k - |a|]);
      }
    }
  }

  /** Inside `( inner )`, every prefix after the `(` is still open. */
  lemma Wrapped(inner: seq<Token>)
    requires Dyck(inner)
    ensures var w := [Token(LParen, "(", 0)] + inner + [Token(RParen, ")", 0)];
      && Balance(w) == 0
      && forall k :: 1 <= k < |w| ==> Balance(w[..k]) >= 1
  {
    var l := [Token(LParen, "(", 0)];
    var w := l + inner + [Token(RParen, ")", 0)];
    BalanceAppend(l + inner, [Token(RParen, ")", 0)]);
    BalanceAppend(l, inner);
    forall k | 1 <= k < |w| ensures Balance(w[..k]) >= 1 {
      assert w[..k] == l + inner[..k - 1];
      BalanceAppend(l, inner[..k - 1]);
    }
  }

  lemma {:induction false} ValueDyck(v: Value)
    requires Wf(v)
    ensures Dyck(UnparseValue(v))
    decreases v
  {
    match v
    case Int(_) =>
    case Str(_) =>
    case Frame(chain, params) =>
      SeqDyck(params);
      FrameDyck(chain, params);
  }

  /** A printed call is balanced when its printed arguments are. */
  lemma FrameDyck(chain: seq<string>, params: seq<Value>)
    requires Wf(Frame(chain, params)) && Dyck(UnparseSeq(params))
    ensures Dyck(UnparseValue(Frame(chain, params)))
  {
    Wrapped(UnparseSeq(params));
    var w := [Token(LParen, "(", 0)] + UnparseSeq(params) + [Token(RParen, ")", 0)];
    forall k | 0 <= k <= |w| ensures Balance(w[..k]) >= 0 {
      if k == 0 {
      } else if k == |w| {
        assert w[..k] == w;
      }
    }
    ChainTokensSpell(chain);
    NeutralBalance(ChainTokens(chain));
    DyckAppend(ChainTokens(chain), w);
    assert UnparseValue(Frame(chain, params)) == ChainTokens(chain) + w;
  }

  lemma {:induction false} SeqDyck(vs: seq<Value>)
    requires AllWf(vs)
    ensures Dyck(UnparseSeq(vs))
    decreases vs
  {
    if vs != [] {
      ValueDyck(vs[0]);
      SeqDyck(vs[1..]);
      DyckAppend(UnparseValue(vs[0]), UnparseSeq(vs[1..]));
    } else {
      assert UnparseSeq(vs)[..0] == [];
    }
  }

  // ---------------------------------------------------------------------
  // Parsing printed values gives them back
  // ---------------------------------------------------------------------

  /** Printed pairs followed by a non-dot are read back as their names. */
  lemma {:induction false} ChainTailReads(ts: seq<Token>, j: nat, names: seq<string>)
    requires j + 2 * |names| <= |ts| && ts[j..j + 2 * |names|] == PairTokens(names)
    requires j + 2 * |names| == |ts| || ts[j + 2 * |names|].kind != Dot
    ensures ChainTail(ts, j) == Success((names, j + 2 * |names|))
    decreases |names|
  {
    if names != [] {
      var k := j + 2 * |names|;
      var rest := names[1..];
      assert ts[j].kind == Dot && ts[j + 1] == Token(Identifier, names[0], 0) by {
        var p := PairTokens(names);
        assert ts[j] == p[0] && ts[j + 1] == p[1];
      }
      assert ts[j + 2..k] == PairTokens(rest) by {
        assert ts[j + 2..k] == ts[j..k][2..];
      }
      ChainTailReads(ts, j + 2, rest);
      assert [names[0]] + rest == names;
    }
  }

  /** A printed dotted name followed by a non-dot is read back. */
  lemma CallChainReads(ts: seq<Token>, i: nat, chain: seq<string>)
    requires |chain| >= 1
    requires i + 2 * |chain| - 1 <= |ts| && ts[i..i + 2 * |chain| - 1] == ChainTokens(chain)
    requires i + 2 * |chain| - 1 == |ts| || ts[i + 2 * |chain| - 1].kind != Dot
    ensures ts[i].kind == Identifier
    ensures CallChain(ts, i) == Success((chain, i + 2 * |chain| - 1))
  {
    var c := ChainTokens(chain);
    assert ts[i] == c[0];
    assert ts[i + 1..i + 2 * |chain| - 1] == c[1..] == PairTokens(chain[1..]);
    ChainTailReads(ts, i + 1, chain[1..]);
    assert [chain[0]] + chain[1..] == chain;
  }

  /** The `(` printed before balanced tokens is closed by the `)` after them. */
  lemma ClosingParenReads(ts: seq<Token>, open: nat, end: nat, inner: seq<Token>)
    requires Dyck(inner)
    requires end == open + |inner| + 2 <= |ts|
    requires ts[open..end] == [Token(LParen, "(", 0)] + inner + [Token(RParen, ")", 0)]
    ensures ts[open].kind == LParen
    ensures ClosingParen(ts, open) == Some(end - 1)
  {
    var w := [Token(LParen, "(", 0)] + inner + [Token(RParen, ")", 0)];
    var close := end - 1;
    assert ts[open] == w[0];
    Wrapped(inner);
    assert ts[close] == w[|w| - 1];
    assert close + 1 == end;
    assert ts[open..close + 1] == w;
    forall k | open < k <= close ensures Balance(ts[open..k]) >= 1 {
      assert ts[open..k] == w[..k - open];
    }
    assert Closes(ts, open, close);
    ClosingParenAt(ts, open, close);
  }

  /** The parenthesised printed argument list of a call is matched. */
  lemma ArgumentsClose(ts: seq<Token>, open: nat, end: nat, params: seq<Value>)
    requires AllWf(params)
    requires end == open + |UnparseSeq(params)| + 2 <= |ts|
    requires ts[open..end] == [Token(LParen, "(", 0)] + UnparseSeq(params) + [Token(RParen, ")", 0)]
    ensures ts[open].kind == LParen
    ensures ClosingParen(ts, open) == Some(end - 1)
  {
    SeqDyck(params);
    ClosingParenReads(ts, open, end, UnparseSeq(params));
  }

  /** Parsing from where a printed value starts pushes that value and
      resumes just after it. */
  lemma {:induction false} ValueRoundTrip(ts: seq<Token>, i: nat, acc: Stack<Value>, v: Value)
    requires Wf(v)
    requires i + |UnparseValue(v)| <= |ts| && ts[i..i + |UnparseValue(v)|] == UnparseValue(v)
    ensures ParseFrom(ts, i, acc) == ParseFrom(ts, i + |UnparseValue(v)|, acc.Push(v))
    decreases v, 2
  {
    var u := UnparseValue(v);
    match v
    case Int(n) =>
      assert |u| == 1 && ts[i] == u[0];
      DigitsRoundTrip(n);
    case Str(_) =>
      assert |u| == 1 && ts[i] == u[0];
    case Frame(chain, params) =>
      FrameSlices(ts, i, chain, params);
      FrameRoundTrip(ts, i, i + |u|, acc, chain, params);
  }

  /** A slice of a slice is a slice. */
  lemma SliceOfSlice<T>(ts: seq<T>, i: nat, u: seq<T>, a: nat, b: nat)
    requires i + |u| <= |ts| && ts[i..i + |u|] == u && a <= b <= |u|
    ensures ts[i + a..i + b] == u[a..b]
    ensures a < b ==> ts[i + a] == u[a]
  {
    forall k | 0 <= k < b - a ensures ts[i + a..i + b][k] == u[a..b][k] {
      assert ts[i + a + k] == ts[i..i + |u|][a + k];
    }
    if a < b {
      assert ts[i + a] == ts[i..i + |u|][a];
    }
  }

  /** A slice laid out as `c`, then `w`, splits into a slice for each. */
  lemma SplitSlices<T>(ts: seq<T>, i: nat, c: seq<T>, w: seq<T>)
    requires i + |c| + |w| <= |ts| && ts[i..i + |c| + |w|] == c + w
    ensures ts[i..i + |c|] == c
    ensures ts[i + |c|..i + |c| + |w|] == w
  {
    var u := c + w;
    SliceOfSlice(ts, i, u, 0, |c|);
    assert u[0..|c|] == c;
    SliceOfSlice(ts, i, u, |c|, |u|);
    assert u[|c|..|u|] == w;
  }

  /** Where a printed call sits in `ts`, its parenthesised arguments
      follow its dotted name. */
  lemma FrameSlices(ts: seq<Token>, i: nat, chain: seq<string>, params: seq<Value>)
    requires Wf(Frame(chain, params))
    requires i + |UnparseValue(Frame(chain, params))| <= |ts|
    requires ts[i..i + |UnparseValue(Frame(chain, params))|] == UnparseValue(Frame(chain, params))
    ensures var open := i + 2 * |chain| - 1;
      var inner := UnparseSeq(params);
      && open + |inner| + 2 == i + |UnparseValue(Frame(chain, params))|
      && ts[i..open] == ChainTokens(chain)
      && ts[open..open + |inner| + 2] == [Token(LParen, "(", 0)] + inner + [Token(RParen, ")", 0)]
  {
    FrameTokens(chain, params);
    SplitSlices(ts, i, ChainTokens(chain), [Token(LParen, "(", 0)] + UnparseSeq(params) + [Token(RParen, ")", 0)]);
  }

  /** A printed call is its dotted name, then its arguments in parentheses. */
  lemma FrameTokens(chain: seq<string>, params: seq<Value>)
    requires Wf(Frame(chain, params))
    ensures UnparseValue(Frame(chain, params))
         == ChainTokens(chain) + ([Token(LParen, "(", 0)] + UnparseSeq(params) + [Token(RParen, ")", 0)])
  {
  }

  /** A printed dotted name followed by `(` starts a call whose
      arguments are read next. */
  lemma ChainStep(ts: seq<Token>, i: nat, acc: Stack<Value>, chain: seq<string>)
    requires |chain| >= 1
    requires i + 2 * |chain| - 1 < |ts| && ts[i..i + 2 * |chain| - 1] == ChainTokens(chain)
    requires ts[i + 2 * |chain| - 1].kind == LParen
    ensures ParseFrom(ts, i, acc) == ParseArguments(ts, i + 2 * |chain| - 1, acc, chain)
  {
    CallChainReads(ts, i, chain);
    CallOpensArguments(ts, i, acc, chain, i + 2 * |chain| - 1);
  }

  /** A printed argument list in parentheses is read back as one frame,
      and parsing resumes after its `)`. */
  lemma {:induction false} ArgumentsStep(ts: seq<Token>, open: nat, end: nat, acc: Stack<Value>, chain: seq<string>, params: seq<Value>)
    requires |chain| >= 1 && AllWf(params)
    requires end == open + |UnparseSeq(params)| + 2 <= |ts|
    requires ts[open..end] == [Token(LParen, "(", 0)] + UnparseSeq(params) + [Token(RParen, ")", 0)]
    ensures ts[open].kind == LParen
    ensures ParseArguments(ts, open, acc, chain) == ParseFrom(ts, end, acc.Push(Frame(chain, params)))
    decreases Frame(chain, params), 0
  {
    var close := end - 1;
    ArgumentsClose(ts, open, end, params);
    ArgumentsRead(ts, open, end, params);
    ArgumentsParsed(ts, open, acc, chain, close, PushAll(Empty(), params));
    assert PushAll(Empty(), params).Elements() == params;
    assert close + 1 == end;
  }

  /** The tokens inside a parenthesised printed argument list parse to
      the printed values, in order. */
  lemma ArgumentsRead(ts: seq<Token>, open: nat, end: nat, params: seq<Value>)
    requires AllWf(params)
    requires end == open + |UnparseSeq(params)| + 2 <= |ts|
    requires ts[open..end] == [Token(LParen, "(", 0)] + UnparseSeq(params) + [Token(RParen, ")", 0)]
    ensures Parse(ts[open + 1..end - 1]) == Success(PushAll(Empty(), params))
    decreases params, 2
  {
    InnerSlice(ts, open, Token(LParen, "(", 0), UnparseSeq(params), Token(RParen, ")", 0));
    assert ts[open + 1..end - 1] == UnparseSeq(params);
    ParseRoundTrip(params);
  }

  /** The inside of a slice laid out as `l`, `inner`, `r`. */
  lemma InnerSlice<T>(ts: seq<T>, open: nat, l: T, inner: seq<T>, r: T)
    requires open + |inner| + 2 <= |ts| && ts[open..open + |inner| + 2] == [l] + inner + [r]
    ensures ts[open] == l
    ensures ts[open + 1..open + |inner| + 1] == inner
  {
    var w := [l] + inner + [r];
    SliceOfSlice(ts, open, w, 0, 1);
    SliceOfSlice(ts, open, w, 1, |w| - 1);
    assert w[1..|w| - 1] == inner;
  }

  /** `ValueRoundTrip` for a call laid out as its dotted name, then its
      arguments in parentheses: by the round trip on the shorter argument
      list, the call is read back as that frame. */
  lemma {:induction false} FrameRoundTrip(ts: seq<Token>, i: nat, end: nat, acc: Stack<Value>, chain: seq<string>, params: seq<Value>)
    requires |chain| >= 1 && AllWf(params)
    requires var open := i + 2 * |chain| - 1;
      var inner := UnparseSeq(params);
      && end == open + |inner| + 2 <= |ts|
      && ts[i..open] == ChainTokens(chain)
      && ts[open..end] == [Token(LParen, "(", 0)] + inner + [Token(RParen, ")", 0)]
    ensures ParseFrom(ts, i, acc) == ParseFrom(ts, end, acc.Push(Frame(chain, params)))
    decreases Frame(chain, params), 1
  {
    ArgumentsStep(ts, i + 2 * |chain| - 1, end, acc, chain, params);
    ChainStep(ts, i, acc, chain);
  }

  /** Where printed values sit in `ts`, the first value's tokens come
      first and the rest's tokens right after them. */
  lemma SeqSlices(ts: seq<Token>, i: nat, vs: seq<Value>)
    requires AllWf(vs) && vs != []
    requires i + |UnparseSeq(vs)| <= |ts| && ts[i..i + |UnparseSeq(vs)|] == UnparseSeq(vs)
    ensures var j := i + |UnparseValue(vs[0])|;
      && j + |UnparseSeq(vs[1..])| == i + |UnparseSeq(vs)|
      && ts[i..j] == UnparseValue(vs[0])
      && ts[j..j + |UnparseSeq(vs[1..])|] == UnparseSeq(vs[1..])
  {
    assert UnparseSeq(vs) == UnparseValue(vs[0]) + UnparseSeq(vs[1..]);
    SplitSlices(ts, i, UnparseValue(vs[0]), UnparseSeq(vs[1..]));
  }

  /** Parsing from where printed values start pushes them all, in order,
      and goes on at `end`, just after them. */
  lemma {:induction false} SeqRoundTrip(ts: seq<Token>, i: nat, end: nat, acc: Stack<Value>, vs: seq<Value>)
    requires AllWf(vs) && end == i + |UnparseSeq(vs)|
    requires end <= |ts| && ts[i..end] == UnparseSeq(vs)
    ensures ParseFrom(ts, i, acc) == ParseFrom(ts, end, PushAll(acc, vs))
    decreases vs, 0
  {
    if vs != [] {
      var j := i + |UnparseValue(vs[0])|;
      SeqSlices(ts, i, vs);
      ValueRoundTrip(ts, i, acc, vs[0]);
      SeqRoundTrip(ts, j, end, acc.Push(vs[0]), vs[1..]);
      assert PushAll(acc, vs) == PushAll(acc.Push(vs[0]), vs[1..]);
    } else {
      assert PushAll(acc, vs) == acc;
    }
  }

  /** Round trip: the parser gives back every well-formed sequence of
      values from its printed tokens, in insertion order. */
  lemma {:induction false} ParseRoundTrip(vs: seq<Value>)
    requires AllWf(vs)
    ensures Parse(UnparseSeq(vs)) == Success(PushAll(Empty(), vs))
    ensures Parse(UnparseSeq(vs)).value.Elements() == vs
    decreases vs, 1
  {
    var u := UnparseSeq(vs);
    assert u[0..|u|] == u;
    SeqRoundTrip(u, 0, |u|, Empty(), vs);
    assert Parse(u) == ParseFrom(u, |u|, PushAll(Empty(), vs));
  }
}
