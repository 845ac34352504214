# espresso: lexer and call-stack parser

espresso reads a small expression language of dotted calls, such as
`foo.bar(baz(), "x", 1)`, and turns it into a stack of values that an
evaluator consumes. This project models the part of `main.py` that does the
reading:

- the `Stack` container (`LifoStack`, stack.dfy);
- the token alphabet, and `int(...)` on digit strings (`Tokens`, tokens.dfy);
- `Lexer.lex` with `advance`, `cur` and `find_next_index` (`Lexer`, lexer.dfy);
- `Parser.parse`, `parse_call_chain`, `get_closing_paren_index` and
  `parse_func_params` (`Parser`, parser.dfy).

`Lexer` and `Parser` model the intended behaviour. `AsWritten`
(as_written.dfy) models the code as it stands, including six defects listed
under Findings. Each defect has a lemma that names an input on which the two
models differ. The as-written lexer is proved to agree with the corrected
one on every input when it starts from a fresh lexer. The as-written parser
is proved to agree with the corrected one only on streams without
identifiers; calls are not covered.

Each main model has an independent partner:

- The lexer is checked against `Tiling`. This predicate says when a token
  sequence is a correct reading of the normalised text. `Lex` succeeds with
  `ts` exactly when `ts` tiles the text, and it fails exactly when no tiling
  exists. On failure, the text before the error is tiled, so the error is
  the first thing the scan cannot read.
- The parser is checked against `Unparse` (unparse.dfy). This prints values
  back as tokens. Parsing the printed form of any well-formed sequence of
  values gives back that sequence, including nested calls with arguments.
- Paren matching is checked against `Closes`. It is the first `)` at which
  the depth returns to zero.
- Chain collection is checked against `IsChain`: an identifier followed by
  `. name` pairs.

`Examples` (examples.dfy) restates the expectations in
`tests/test_parser.py`. It also holds the counterexample lemmas behind the
findings.

Errors are a `SyntaxError(kind, pos)`. The Python code raises
`EspressoInvalidSyntax` with a formatted message instead. In the as-written
model, an `IndexError` or a failed `assert` is the `Crash` fault.

## Model

| member | source | states |
|---|---|---|
| `LifoStack.Stack.Length` | main.py:19-21 | the `length` property, the number of elements; its contract-level properties are stated through `Push`, `Pop` and `Peek`, whose contracts give the length after each operation |
| `LifoStack.Stack.Push` | main.py:28-29 | pushing adds one element, and a pop right after returns that element and the earlier stack |
| `LifoStack.Stack.Pop` | main.py:31-34 | pop on an empty stack gives `None` and leaves the stack unchanged; otherwise it removes the last element pushed, the length drops by one, and pushing the element back restores the stack |
| `LifoStack.Stack.Peek` | main.py:23-26 | peek returns exactly what a pop would return, without changing anything, and gives `None` exactly when the length is 0 |
| `LifoStack.Stack.Elements` | main.py:36-37 | `__iter__`, the elements oldest first; `LifoStack.PushAll` and `LifoStack.DrainIsReverse` state what it yields after pushes and how it relates to popping |
| `LifoStack.PushAll` | main.py:28-29 | pushing a sequence one element at a time leaves the earlier elements first, then the sequence in order |
| `LifoStack.DrainIsReverse` | main.py:31-37 | popping until empty yields the elements in the reverse of iteration order |
| `LifoStack.DrainAfterPushes` | tests/test_parser.py:9-16 | values pushed in order come back reversed when popped |
| `LifoStack.PushPopPeek` | main.py:19-34 | after a push, peek gives the pushed value and pop restores the earlier stack; on an empty stack, pop and peek report absence and change nothing |
| `Tokens.ParseInt` | main.py:200 | `int(text)` succeeds exactly on non-empty all-digit texts |
| `Tokens.NatToDigits` | main.py:200 | a number is printed as a non-empty digit string with no leading zero |
| `Tokens.DigitsRoundTrip` | main.py:200 | reading back a printed number gives that number |
| `Lexer.StripLeft` | main.py:59 | leading whitespace is removed: the result is a suffix of the input, everything dropped was whitespace, and the result does not start with whitespace |
| `Lexer.StripRight` | main.py:59 | trailing whitespace is removed: the result is a prefix of the input, everything dropped was whitespace, and the result does not end with whitespace |
| `Lexer.Strip` | main.py:59 | `strip()` returns an infix of the input with only whitespace around it, and it neither starts nor ends with whitespace |
| `Lexer.NewlinesToSpaces` | main.py:59 | `replace("\n", " ")` keeps the length, turns each line feed into a space, and keeps every other character |
| `Lexer.Normalize` | main.py:59 | the text the cursor runs over contains no line feed and is no longer than the input |
| `Lexer.NormalizeTrimmed` | main.py:59 | text that is already trimmed and on one line is left unchanged |
| `Lexer.NormalizeIdempotent` | main.py:59 | normalising twice is the same as normalising once |
| `Lexer.BlankNormalizesToEmpty` | main.py:59 | empty or whitespace-only input normalises to the empty text |
| `Lexer.FindNext` | main.py:102-106 | `find_next_index` returns an index at or after the start that holds the character, with no earlier occurrence; `None` means there is no occurrence at all |
| `Lexer.FindNextFirst` | main.py:102-106 | when the first occurrence from the start is at `n`, the search returns `n` |
| `Lexer.RunEnd` | main.py:83-84 | the inner `while` loop stops at the end of the maximal run of digits or letters |
| `Lexer.RunEndAt` | main.py:90-91 | a run that cannot be extended ends where the scan stops |
| `Lexer.EmitSound` | main.py:63-95 | a token read at the cursor, put in front of a correct answer for the text after it, gives a correct answer from the cursor: a tiling, or the same error with the token added to the tiled text before it |
| `Lexer.SkipSeparator` | main.py:66-67 | a comma or space emits nothing: a correct answer from the next character, tiling or error, is a correct answer from the separator |
| `Lexer.StringToken` | main.py:72-77 | a quote closed by the next quote is a string token whose text lies strictly between the quotes |
| `Lexer.RunToken` | main.py:80-93 | a digit run is an Integer token and a letter run an Identifier token; each is non-empty, maximal, and equal to the input slice at its position |
| `Lexer.LexFrom` | main.py:63-97 | the scan loop from a cursor, one branch per character class in the source's order; it has no contract of its own: `Lexer.LexFromSound` states that its result is a tiling or the first unreadable character, and `Lexer.LexFromComplete` that it finds every tiling |
| `Lexer.PunctuationSound` | main.py:64-71 | at a `.`, `(` or `)` the scan emits a one-character token and its answer is correct |
| `Lexer.StringSound` | main.py:72-77 | at a quote with a partner, the scan emits the string token and goes on after the partner, keeping the answer correct |
| `Lexer.UnterminatedSound` | main.py:72-75 | a quote with no partner after it stops the scan with an unterminated-string error at that quote, and no text before it is left unread |
| `Lexer.RunSound` | main.py:80-93 | at a digit or letter, the scan emits the maximal run as one token and its answer is correct |
| `Lexer.LexFromSound` | main.py:63-97 | on success the tokens tile the text from the cursor on; on failure the error names an unterminated quote or an illegal character at or after the cursor, and the text from the cursor up to the error is tiled, so it is the first character the scan cannot read |
| `Lexer.Lex` | main.py:58-97 | `lex`: normalise, then scan from the first character with a fresh cursor; it has no contract of its own: see `Lexer.LexSound`, `Lexer.LexCharacterized` and `Lexer.LexFailsIffNoTiling` |
| `Lexer.LexSound` | main.py:58-97 | `lex` returns a tiling of the normalised input, or an error at an offending character with everything before it tiled |
| `Lexer.TokenStartsWithLegal` | main.py:63-79 | no token starts at a comma or a space |
| `Lexer.ReadsToken` | main.py:64-93 | the character at a token's position decides which token the lexer reads there, and it reads exactly that token |
| `Lexer.LexFromComplete` | main.py:63-97 | whenever a tiling of the text from the cursor exists, the lexer returns exactly that tiling |
| `Lexer.LexCharacterized` | main.py:58-97 | `lex` succeeds with `ts` if and only if `ts` tiles the normalised input |
| `Lexer.LexFailsIffNoTiling` | main.py:58-97 | `lex` fails if and only if no tiling of the normalised input exists |
| `Lexer.LexBlank` | main.py:58-63 | empty or whitespace-only input gives no tokens |
| `Lexer.TilingPositions` | main.py:63-95 | token positions lie inside the text and increase strictly, and tokens never overlap |
| `Parser.ChainTail` | main.py:138-147 | the contiguous `. name` pairs from an index are read in order; the error, if any, is at the dot where those pairs stop, a dot that no identifier follows |
| `Parser.CallChain` | main.py:132-149 | a call's chain starts with its identifier, takes each following `. name` pair, and stops at the first token that is not a dot; a dangling dot, including one at the end of the stream, is an error at the dot where the pairs stop |
| `Parser.SingleNameChain` | main.py:132-149 | an identifier that no dot follows is a chain of one name that ends right after it |
| `Parser.ScanClose` | main.py:154-163 | the loop only ever returns the index of a `)` at or after where it starts |
| `Parser.ScanCloseSpec` | main.py:154-163 | with the stack as deep as the open parentheses so far, the loop returns a position that closes the `(`, and returning `None` means no later position closes it |
| `Parser.ClosingParen` | main.py:151-163 | `get_closing_paren_index` returns the index of a `)` after the `(` and inside the stream |
| `Parser.ClosingParenSpec` | main.py:151-163 | the index returned is the unique `)` at which the depth first returns to zero, and `None` comes back exactly when the `(` is never closed |
| `Parser.ClosingParenAt` | main.py:151-163 | any `)` that closes the `(` in the sense of the depth count is the one `get_closing_paren_index` returns |
| `Parser.NoClosingParen` | main.py:151-163 | a `(` with no `)` anywhere after it is reported as never closed |
| `Parser.Parse` | main.py:180-204 | `parse` on its own token list; it has no contract of its own: see `Parser.ParseSound` for well-formedness and errors, and `Unparse.ParseRoundTrip` for what it returns |
| `Parser.ParseFrom` | main.py:184-202 | the `while` loop from index `i` with the values pushed so far, skipping stray `.`, `(` and `)`; see `Parser.ParseFromSound` |
| `Parser.ParseCall` | main.py:188-198 | the identifier branch: read the chain, then the argument list if a `(` follows; see `Parser.ParseCallSound` |
| `Parser.ParseArguments` | main.py:165-177 | `parse_func_params` after a `(`: find the closing `)`, parse the tokens strictly inside, push one frame and resume after the `)`; see `Parser.ParseArgumentsSound` and `Parser.ArgumentsParsed` |
| `Parser.ParseSound` | main.py:180-204 | every value parsed is well formed; an error names the position of a token of the kind it blames |
| `Parser.ParseFromSound` | main.py:184-202 | the loop keeps the values already pushed and only appends well-formed ones; errors blame a token of the stream |
| `Parser.ParseCallSound` | main.py:188-198 | a call keeps the values already pushed and appends well-formed values; a dangling dot or unclosed paren inside it is reported at a token of the stream |
| `Parser.ParseArgumentsSound` | main.py:165-177 | parsing an argument list keeps the values already pushed; an error inside the parentheses is blamed on a token of the whole stream |
| `Parser.PushThenSound` | main.py:196 | pushing a well-formed value and parsing on keeps everything pushed before it |
| `Parser.CallOpensArguments` | main.py:188-193 | one step of the parse loop: at an identifier chain followed by `(`, the loop goes on to read the argument list |
| `Parser.ArgumentsParsed` | main.py:172-177 | one step of the parse loop: a matched argument list pushes one frame built from the parse of the tokens strictly inside, and the loop resumes right after the `)` |
| `Parser.UnclosedArguments` | main.py:172-174 | one step of the parse loop: a `(` after a chain that is never closed fails the parse at that `(` |
| `Parser.DanglingDotFails` | main.py:141-143 | a chain broken by a dangling dot fails the parse, at the dot where its `. name` pairs stop |
| `Parser.CallWithoutArguments` | main.py:169-170 | one step of the parse loop: a chain that no `(` follows, including one at the end of the stream, pushes a frame with no arguments, and the loop resumes right after the chain |
| `Unparse.PairTokensSpell` | main.py:138-147 | printed `. name` pairs spell the given names in the shape the chain scan reads, and consist of dots and identifiers only |
| `Unparse.ChainTokensSpell` | main.py:132-149 | a printed dotted name is a chain in the sense the parser reads, made of dots and identifiers only |
| `Unparse.ValueDyck` | main.py:151-163 | a printed value has balanced parentheses, and no prefix of it closes more than it opens |
| `Unparse.ChainTailReads` | main.py:138-147 | printed pairs followed by a non-dot are read back as exactly their names |
| `Unparse.CallChainReads` | main.py:132-149 | a printed dotted name followed by a non-dot is read back as exactly that chain |
| `Unparse.ClosingParenReads` | main.py:151-163 | the `(` printed before balanced tokens is matched by the `)` printed after them |
| `Unparse.ArgumentsClose` | main.py:151-163 | the parentheses around a printed argument list match each other |
| `Unparse.ChainStep` | main.py:188-193 | a printed chain followed by `(` leads into that call's argument list |
| `Unparse.ArgumentsStep` | main.py:172-177 | a printed argument list is read back as one frame holding exactly those arguments |
| `Unparse.ArgumentsRead` | main.py:172-177 | the tokens strictly inside a printed argument list parse back to exactly those arguments |
| `Unparse.FrameRoundTrip` | main.py:188-198 | a printed call is read back as that frame, and parsing resumes right after it |
| `Unparse.ValueRoundTrip` | main.py:188-200 | parsing from where any printed value starts pushes that value and resumes right after it |
| `Unparse.SeqRoundTrip` | main.py:184-202 | parsing from where printed values start pushes all of them in order |
| `Unparse.ParseRoundTrip` | main.py:180-204 | parsing the printed form of any well-formed sequence of values gives back a stack that iterates as that sequence |
| `AsWritten.FreshLexer` | main.py:54-56 | `Lexer()` starts with the cursor before the first character; `AsWritten.FreshLexerAgrees` states that lexing from it computes `Lexer.Lex` |
| `AsWritten.LexLoop` | main.py:63-120 | the loop as written: it succeeds only after leaving the cursor on the last character, and the cursor never moves back |
| `AsWritten.LexWith` | main.py:54-59 | `lex` on a lexer object that may already have been used: on success the cursor is left on the last character of this input |
| `AsWritten.PunctuationStep` | main.py:64-71 | where the two loops agree after a `.`, `(` or `)`, they also agree from before it |
| `AsWritten.SeparatorStep` | main.py:66-67 | where the two loops agree after a comma or space, they also agree from before it |
| `AsWritten.StringStep` | main.py:72-77 | where the two loops agree after a string literal, they also agree from before it |
| `AsWritten.DigitsStep` | main.py:80-86 | where the two loops agree after a digit run, they also agree from before it |
| `AsWritten.LettersStep` | main.py:87-93 | where the two loops agree after a letter run, they also agree from before it |
| `AsWritten.EndStep` | main.py:115-117 | with the cursor on the last character, the loop as written and the corrected lexer both stop with no tokens |
| `AsWritten.UnterminatedStep` | main.py:72-75 | a quote with no partner after it fails the loop as written and the corrected lexer with the same error |
| `AsWritten.InvalidStep` | main.py:94-95 | a character no branch accepts fails the loop as written and the corrected lexer with the same error |
| `AsWritten.LexLoopAgrees` | main.py:63-120 | from any cursor inside the text, the loop as written computes the corrected lexer |
| `AsWritten.FreshLexerAgrees` | main.py:54-97 | a freshly constructed lexer computes exactly `Lexer.Lex` |
| `AsWritten.StaleCursorCrashes` | main.py:56 | a lexer that has lexed a text crashes on any later text whose normal form is shorter |
| `AsWritten.ChainScanLoop` | main.py:137-147 | the chain scan as written only appends names, adds 2 to the offset per name, and raises only a dangling-dot error |
| `AsWritten.ChainScan` | main.py:132-149 | as written, the chain starts with the identifier at `at`, and the call crashes exactly when `at` is past the end or not an identifier |
| `AsWritten.Params` | main.py:165-177 | `parse_func_params` as written never leaves the shared token list longer than it found it |
| `AsWritten.ParseShared` | main.py:180-182 | `parse` as written leaves the shared token list no longer than its argument |
| `AsWritten.ParseLoop` | main.py:184-202 | the loop as written leaves the shared token list no longer than the tokens it scans |
| `AsWritten.CallLoop` | main.py:188-202 | the identifier branch as written, reading chain and arguments from the shared token list; the shared list it leaves is no longer than the tokens scanned, and `AsWritten.CallLoopStep` states where it resumes |
| `AsWritten.CallLoopStep` | main.py:188-202 | the identifier branch as written pushes the frame and resumes at the chain offset plus twice the argument offset plus one, not right after the `)` |
| `AsWritten.CallStep` | main.py:185-202 | at an identifier, the loop as written takes the identifier branch: one call moves the index by that doubled offset |
| `AsWritten.LiteralsAgree` | main.py:199-202 | on a stream without identifiers, the code as written computes the corrected parser |
| `Examples.FlatLex` | tests/test_parser.py:10 | `32, 33, 34, "foo"` lexes to three integers and one string at their positions |
| `Examples.FlatParse` | tests/test_parser.py:10 | the flat tokens parse to the literals in order |
| `Examples.FlatCallStack` | tests/test_parser.py:9-16 | popping the flat stack gives "foo", 34, 33, 32, and the code as written agrees here |
| `Examples.NestedLex` | tests/test_parser.py:19 | `foo(bar(), 123)` lexes to a call of `foo` around a call of `bar` and an integer |
| `Examples.NestedInnerParse` | tests/test_parser.py:19 | the inside of `foo(...)` parses to the frame of `bar` and then 123 |
| `Examples.NestedCallStack` | tests/test_parser.py:18-23 | the top of the nested stack is a frame with two parameters |
| `Examples.SharedLexerCrashes` | tests/test_parser.py:7-19 | the module-level lexer shared by both tests crashes on the second input |
| `Examples.UnterminatedStringReported` | main.py:72-75 | `"abc` fails with an unterminated string at the opening quote |
| `Examples.UnclosedParenReported` | main.py:172-174 | `foo(1, 2` fails with an unclosed paren at the `(` |
| `Examples.ChainScanFromStart` | main.py:137 | on `a.b c`, the code as written gives `c` the chain `c.b`, while the corrected parser gives it `c` |
| `Examples.DanglingDotAccepted` | main.py:138-143 | on `a.`, the code as written accepts the trailing dot, while the corrected parser reports it |
| `Examples.LoneIdentifierCrashes` | main.py:169 | on `x`, the code as written crashes, while the corrected parser gives a frame with no arguments |
| `Examples.NestedCallLosesArgument` | main.py:195-198 | on `foo(bar(), 123)`, the code as written drops the argument `123` |
| `Examples.SharedTokensCrash` | main.py:181 | on `f() 1 2 x()`, the nested parse overwrites the shared token list and the outer loop crashes |
| `Examples.SharedTokensParsed` | main.py:180-204 | on `f() 1 2 x()`, the corrected parser gives a call of `f` with no arguments, 1, 2 and a call of `x` with no arguments |

## Left out

- The evaluator (namespace lookup, parameter type tags, variadic calls) is not part of this model. It consumes the parser's result and has no role in reading.
- `Lexer.retreat` (main.py:108-113) and `Parser.next_token` (main.py:127-130) are left out. `retreat` is never called. `next_token` only feeds the `nxt` of the parse loop, which nothing reads; inside `parse_call_chain` its result is modelled directly.
- The unused `pprint` and `random` imports are left out.
- Exception messages are left out. An error is a kind plus a position, with the offending character for an invalid character.
- Character classes are ASCII only. `str.isdigit`, `str.isalpha` and `str.strip` use Unicode classes, which are not modelled.
- Parser.ScanClose: its own contract says only that the index is a `)` at or after where the loop starts. That it is the `)` at which the depth returns to zero, and that `None` means nothing from there on closes the `(`, is stated by `Parser.ScanCloseSpec`, for the same reason as for `ClosingParen`.
- Parser.ClosingParen: its own contract says only that the index is a `)` after the `(`. That it is the unique closing `)`, and that `None` means the `(` is never closed, is stated by `Parser.ClosingParenSpec`. This keeps the function cheap for the many proofs that unfold it.
- Tokens.ParseInt: covers only the digit strings the lexer produces. Python's `int` also accepts signs, underscores and surrounding whitespace, but such texts never reach it. `BadInteger` stands for the `ValueError` on anything else.
- Parser.ParseFrom: a `.`, `(` or `)` outside any call is passed over, as main.py:199-202 does.
- The `if not closing_paren_index` test (main.py:173) also treats index 0 as missing. This cannot happen, because the scan starts at `at + 1 >= 1`, so the model tests only for `None`.
- Unparse.UnparseValue: prints every token at position 0. The round trips are therefore proved only for streams whose tokens are all at position 0.
- A frame's arguments are a sequence of values. The code stores one of two things: for a call with `(`, the `Stack` that the nested `parse` returns (main.py:176-177); for a call without `(`, a plain list `[]` (main.py:169-170). Both become the sequence: the stack's iteration order, or the empty sequence. The difference between the two Python types (a list has no `length`, so tests/test_parser.py:23 would fail on it) is not modelled.
- Recursion depth is unbounded. The Python interpreter's recursion limit is not modelled.
- The test module imports `espresso.Parser` and `espresso.Lexer`, which are not part of this model. Their assertions are used as expected results only.

## Findings

| source | as written | input that shows it | evidently intended | confidence | as-written member | corrected member |
|---|---|---|---|---|---|---|
| main.py:137 | the chain scan starts at token 0, whatever `at` is | tokens of `a.b c`: `c` gets the chain `c.b` | collect only the `. name` pairs right after `at` | not executed | `AsWritten.ChainScan`, `Examples.ChainScanFromStart` | `Parser.CallChain` |
| main.py:195-198 | the argument offset is added twice, then 1 more | `foo(bar(), 123)`: `123` is lost, and the test expects 2 params | resume right after the closing paren | not executed | `AsWritten.CallLoopStep`, `Examples.NestedCallLosesArgument` | `Parser.ArgumentsParsed`, `Examples.NestedCallStack` |
| main.py:181 | the nested `parse` overwrites the shared `self.tokens` | `f() 1 2 x()`: the outer loop reads the empty inner list and crashes | each parse reads only its own slice | not executed | `AsWritten.ParseShared`, `Examples.SharedTokensCrash` | `Unparse.ParseRoundTrip`, `Examples.SharedTokensParsed` |
| main.py:169 | `tokens[at+1]` is read with no bound check | `x`: an identifier as the last token crashes | the end of the stream means no arguments | not executed | `AsWritten.Params`, `Examples.LoneIdentifierCrashes` | `Parser.CallWithoutArguments` |
| main.py:138-142 | the loop stops before the last token, so `nxt is None` never holds | `a.`: the trailing dot is accepted | a dot that no identifier follows is an error, also at the end | not executed | `AsWritten.ChainScanLoop`, `Examples.DanglingDotAccepted` | `Parser.CallChain`, `Parser.DanglingDotFails` |
| main.py:56 | the cursor is set only when the lexer is created | the same lexer on `32, 33, 34, "foo"` and then `foo(bar(), 123)` crashes | each `lex` call starts from a fresh cursor | not executed | `AsWritten.StaleCursorCrashes`, `Examples.SharedLexerCrashes` | `Lexer.LexCharacterized`, `AsWritten.FreshLexerAgrees` |
