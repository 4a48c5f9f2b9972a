# A verified model of the `language` toy compiler pipeline

This project models the core of a small compiler for a toy language and proves properties
of the model in Dafny. It has one module per source file of the core.

- **`Unwind`**: the C prototype of panic unwinding. It covers the jump target, the
  unwinding flag and the panic payload, landing pads, `_except_return`,
  `lang_start_panic_unwind` and `main`, with the demo program as a scenario.
- **Front end:**
  - `Tokens`: spans and the symbol and keyword tables.
  - `Lexer`: the hand-written lexer.
  - `Peek`: the bounded look-ahead buffer.
  - `HirParser`: the `let` parser.
- **Middle end:**
  - `CoreMir`: the MIR shapes.
  - `Encode`: the HIR-to-MIR encoder as functions.
  - `Encoding`: the same encoder as the `Encoder` object.
  - `TypeCheck`: MIR type inference.
- **Back end:**
  - `EmitC`: the frame layout and the C emitter.
  - `Interp`: the MIR interpreter.
- **Support containers:** `SmallVec`, `ArrayVec`, `Arena` (the slab arena), `Cache` (the
  hash-consing cache) and `Intern` (the string interner).
- **`Wrappers`:** holds `Option` and `Result`.

Code that changes state step by step is modelled by Dafny classes and methods with loops.
Each method's contract ties its result and new state to a specification function. The
lemmas about those functions carry the properties the source promises. Where verification
showed that the code does not do what it evidently intends, both the code as written and
a corrected version are modelled; they are listed under "## Findings".

## Model

| member | source | states |
|---|---|---|
| Unwind.RunDisciplined | exception.c:26-43 | on every program: a body that completes leaves the jump target as it found it; `_except_return` restores the saved target of its one enclosing pad; a transfer goes to the target current when the body started and never starts while unwinding; the unwinding flag is never reset |
| Unwind.ExecDisciplined | exception.c:30-43 | the same invariant for one statement, a landing pad included |
| Unwind.PadCompletes | exception.c:38-43 | a pad whose guarded body completes runs no handler, prints only what the body prints and restores the target it saved |
| Unwind.PadRelays | exception.c:33-37 | a pad that catches a transfer sets the unwinding flag before its handler; after the handler it restores the saved target and relays with code 3, unless the handler returns through `_except_return` or aborts on a second raise |
| Unwind.NestRelays | exception.c:30-43 | a panic raised inside k nested pads with printing handlers runs the k handlers from the innermost pad outwards and leaves the outermost pad as a transfer with code 3 (code 2 with no pad) to the target outside the nest, which is restored |
| Unwind.NestReturns | exception.c:26-37 | when the outermost handler ends in `_except_return`, the handlers still run innermost first and the nest returns with the outer target restored |
| Unwind.RaiseOutcome | exception.c:45-51 | a raise while unwinding aborts; otherwise it transfers to the current target with code 2 |
| Unwind.MainCodes | exception.c:55-77 | every transfer out of `__lang_main` reaches the root target, and `main` returns its code |
| Unwind.TransferCodes | exception.c:33-50 | every transfer a program makes carries code 2 (raised directly) or 3 (relayed by a pad) |
| Unwind.ExecTransferCodes | exception.c:33-50 | the same for one statement |
| Unwind.FooQuiet | exception.c:80-110 | a call of `foo` before bar's tenth call completes, prints its three lines and increments bar's counter |
| Unwind.QuietCalls | exception.c:127-128 | n such calls complete in turn |
| Unwind.FooPanics | exception.c:85-109 | on bar's tenth call, `foo`'s pad catches the panic, prints its report and relays it with code 3 |
| Unwind.TenCalls | exception.c:122-128 | under the pad of `__lang_main`, the tenth call of `foo` relays bar's panic to that pad, after nine quiet calls |
| Unwind.DemoReturnsThree | exception.c:119-149 | the demo prints the nine quiet calls, then `foo`'s report, then `__lang_main`'s two lines, then the root's report, and `main` returns 3 |
| Unwind.Runtime.constructor | exception.c:7-18 | the thread-local globals start zeroed: no unwinding, a `STATUS` payload of 0 |
| Unwind.Runtime.StartPanicUnwind | exception.c:45-51 | `lang_start_panic_unwind` updates the thread exactly as `StartUnwind` specifies |
| Unwind.Runtime.Execute | exception.c:26-43 | one statement executed on the thread's globals, a landing pad saving and restoring `__target`, agrees with `Exec` |
| Unwind.Runtime.ExecuteAll | exception.c:30-43 | a statement sequence, stopping at the first that does not complete, agrees with `Run` |
| Unwind.Runtime.RunMain | exception.c:55-78 | `main` installs the root target, runs `__lang_main` and returns the code that reached the root, agreeing with `Launch` |
| Unwind.StartUnwind | exception.c:45-51 | definition: abort after printing when already unwinding, else a transfer with code 2 to `__target`; proved about in `RaiseOutcome` |
| Unwind.Run | exception.c:30-43 | definition: the statements of a body in turn, up to the first that does not complete; proved about in `RunDisciplined` and `TransferCodes` |
| Unwind.Exec | exception.c:26-43 | definition: one statement, a landing pad saving `__target`, installing its buffer, and on a caught transfer setting `__is_unwinding`, running the handler and relaying with code 3; proved about in `ExecDisciplined`, `PadRelays` and `NestRelays` |
| Unwind.Launch | exception.c:55-77 | definition: `main` installs the root target, runs `__lang_main` and returns the code of a transfer that reaches it after reporting the payload; proved about in `MainCodes` |
| Tokens.NewSpan | core-tokens/src/lib.rs:39-53 | `Span::new` demands `start <= end`, and `start()`/`end()` give back the two arguments |
| Tokens.SymbolRoundTrip | core-tokens/src/lib.rs:93-107 | every symbol except `Tick` reads back from its `to_str` spelling |
| Tokens.TickDoesNotRoundTrip | core-tokens/src/lib.rs:102-106 | `Tick` prints as `'`, and `from_str` rejects `'` |
| Tokens.SymbolFromStrInverse | core-tokens/src/lib.rs:151-189 | `from_str` accepts a string exactly when it is the spelling of a symbol other than `Tick`, and returns that symbol |
| Tokens.SymbolFromStrInjective | core-tokens/src/lib.rs:151-189 | distinct accepted spellings give distinct symbols |
| Tokens.KeywordFromStrExact | core-tokens/src/lib.rs:130-139 | `Keyword::from_str` returns keyword k exactly on k's spelling |
| Tokens.KeywordFromStrRejects | core-tokens/src/lib.rs:191-218 | any other string is rejected with `InvalidKeyword` |
| Tokens.SymbolToStr | core-tokens/src/lib.rs:101-107 | definition: the spelling table of `to_str`; proved about in `SymbolRoundTrip` |
| Tokens.SymbolFromStr | core-tokens/src/lib.rs:90-99 | definition: one arm per table entry; proved about in `SymbolFromStrInverse` and `SymbolFromStrInjective` |
| Tokens.KeywordFromStr | core-tokens/src/lib.rs:130-139 | definition: the keyword spellings; proved about in `KeywordFromStrExact` and `KeywordFromStrRejects` |
| Lexer.Utf8Len | impl-lexer/src/lib.rs:86 | `char::len_utf8` is between 1 and 4 and is 1 exactly for ASCII |
| Lexer.Split | impl-lexer/src/lib.rs:31-35 | `split` cuts the text into a prefix whose characters all satisfy the predicate and a rest that does not start with one; the two parts rebuild the text |
| Lexer.SplitIsMaximal | impl-lexer/src/lib.rs:31-35 | any such cut is the one `split` makes, so the prefix is the longest |
| Lexer.ScanStep | impl-lexer/src/lib.rs:77-128 | one step of the whitespace and comment scan keeps the state well formed and only ever stops in whitespace mode |
| Lexer.ScanPairs | impl-lexer/src/lib.rs:71-130 | the scan as written, over each character paired with its successor, never consumes the last character of non-empty text |
| Lexer.ScanAll | impl-lexer/src/lib.rs:77-128 | the scan over every character consumes at least one character whenever it starts inside a comment |
| Lexer.ScanPairsFallsShort | impl-lexer/src/lib.rs:71-130 | the pair scan agrees with the full scan except where the full scan eats the whole text, and there it stops one short |
| Lexer.ScanPlainText | impl-lexer/src/lib.rs:101-111 | comment text without `/` or `*` is consumed a character at a time |
| Lexer.ScanLineComment | impl-lexer/src/lib.rs:79-98 | a line comment runs up to and including its newline, and whitespace mode resumes after it |
| Lexer.ScanCommentBody | impl-lexer/src/lib.rs:101-128 | block comments nest: the body and the closing delimiter are consumed whole, and whitespace mode resumes only when depth 1 closes |
| Lexer.ScanBlockComment | impl-lexer/src/lib.rs:82-128 | a whole nested block comment is skipped and whitespace mode resumes right after it |
| Lexer.ScanAllStops | impl-lexer/src/lib.rs:77-90 | the scan stops only at the end of the text or before text that opens no whitespace or comment |
| Lexer.Advance | impl-lexer/src/lib.rs:132-155 | consuming k characters moves `start` past their UTF-8 bytes, drops them from the input and keeps the end offset |
| Lexer.WhitespaceFacts | impl-lexer/src/lib.rs:46-141 | `parse_whitespace` hands back a stashed span untouched; otherwise its span starts at `start` and ends where the unread text starts; it fails only with nothing stashed and no text; no byte goes missing; corrected per Findings row 1 |
| Lexer.StrScan | impl-lexer/src/lib.rs:209-223 | the string-literal scan always takes the first character, then stops at the end of the text or on an unescaped quote |
| Lexer.StrScanEscaped | impl-lexer/src/lib.rs:209-223 | over escaped text the scan runs exactly to the quote after it |
| Lexer.NextTokenFacts | impl-lexer/src/lib.rs:145-323 | a token's whitespace ends where the token starts and the token ends where the unread text starts; a failure is final; only an unterminated string literal loses text; corrected per Findings row 1 (whitespace scan) |
| Lexer.NoTokenAfterFailure | impl-lexer/src/lib.rs:145-148 | after one failure of `parse_token`, every later call fails too |
| Lexer.StashComesBack | impl-lexer/src/lib.rs:47-49 | a stashed whitespace span is returned by the next `parse_whitespace` with the state it was taken from |
| Lexer.KeywordFailureIsInvisible | impl-lexer/src/lib.rs:325-347 | a failed `parse_keyword` (stashing version) leaves the next `parse_whitespace` exactly as if it had not been made |
| Lexer.IdentFailureIsInvisible | impl-lexer/src/lib.rs:349-372 | a failed `parse_ident` leaves no trace |
| Lexer.IntFailureIsInvisible | impl-lexer/src/lib.rs:420-441 | a failed `parse_int` leaves no trace |
| Lexer.SymFailureIsInvisible | impl-lexer/src/lib.rs:476-556 | a failed `parse_sym` leaves no trace |
| Lexer.GroupingFailureIsInvisible | impl-lexer/src/lib.rs:558-596 | a failed `parse_grouping` leaves no trace |
| Lexer.StrFailure | impl-lexer/src/lib.rs:374-407 | `parse_str` fails without trace when no quote follows, and an unterminated literal empties the text |
| Lexer.KeywordConsumes | impl-lexer/src/lib.rs:325-347 | a keyword read by `parse_keyword` covers exactly the bytes consumed, after its whitespace |
| Lexer.IdentConsumes | impl-lexer/src/lib.rs:349-372 | the same for `parse_ident` |
| Lexer.IntConsumes | impl-lexer/src/lib.rs:420-441 | the same for `parse_int` |
| Lexer.SymConsumes | impl-lexer/src/lib.rs:476-556 | the same for `parse_sym`, both tables |
| Lexer.StrConsumes | impl-lexer/src/lib.rs:374-418 | `parse_str` keeps the state valid, and a literal it reads covers the bytes consumed |
| Lexer.GroupingConsumes | impl-lexer/src/lib.rs:558-596 | the same for `parse_grouping` |
| Lexer.NoWhitespaceAhead | impl-lexer/src/lib.rs:138-140 | with no whitespace or comment ahead, the whitespace span is empty and at `start` |
| Lexer.WordLexes | impl-lexer/src/lib.rs:150-167 | a word at the head of the text becomes its keyword, or else an identifier with its own text, spanning its bytes |
| Lexer.DigitsLex | impl-lexer/src/lib.rs:168-207 | a run of digits with no fractional part is an integer of its decimal value; a `.` with no digit after it is left for the next token |
| Lexer.DecimalValue | impl-lexer/src/lib.rs:434 | definition: `parse().unwrap()` on a run of ASCII digits, read most significant digit first, without the `u128` bound (see "## Left out"); the value `DigitsLex` proves an integer token carries |
| Lexer.StringLexes | impl-lexer/src/lib.rs:208-244 | a literal whose body is escaped text is one string token holding the body as written |
| Lexer.SymbolTables | impl-lexer/src/lib.rs:249-307 | the lexer's tables spell every symbol as `to_str` does, except `&&` and `\|\|`, which they lack |
| Lexer.TwoCharSymbol | impl-lexer/src/lib.rs:481-490 | definition: the two-character match of `parse_sym`, which also gives `parse_token`'s table at lines 250-259; proved about in `SymbolTables`, and used by `NextSym` and `LexAt`, which `SymbolSpellingLexes` and `DoubleAmpersandSplits` run |
| Lexer.OneCharSymbol | impl-lexer/src/lib.rs:511-534 | definition: the one-character match of `parse_sym`, `'` included, which also gives `parse_token`'s table at lines 284-306; proved about in `SymbolTables`, and used by `NextSym` and `LexAt` |
| Lexer.GroupingOf | impl-lexer/src/lib.rs:566-574 | definition: the bracket match of `parse_grouping`, which also gives `parse_token`'s at lines 277-282; used by `NextGrouping` and `LexAt`, whose behaviour `GroupingConsumes` and `GroupingFailureIsInvisible` state |
| Lexer.SymbolSpellingLexes | impl-lexer/src/lib.rs:245-319 | every other symbol spelling lexes back to that symbol; the two-character table is tried first, so `==` is one token |
| Lexer.DoubleAmpersandSplits | impl-lexer/src/lib.rs:249-319 | `&&` comes out as two `&` tokens |
| Lexer.AssignFromDoubleEqual | impl-lexer/src/lib.rs:480-551 | `parse_sym` asked for `=` on `==` falls through to the one-character table and takes half of it |
| Lexer.PairScanOfLineComment | impl-lexer/src/lib.rs:71-130 | on `//ab` the pair scan consumes 3 characters and the full scan 4 |
| Lexer.TrailingCommentLeaksChar | impl-lexer/src/lib.rs:71-137 | the last character of a comment at the end of the text is left behind and lexes as an identifier; the full scan consumes the comment |
| Lexer.StrCheckRejectsLiteral | impl-lexer/src/lib.rs:377-380 | `parse_str` as written rejects the literal `"a"`, which the corrected check reads |
| Lexer.StrCheckAcceptsWord | impl-lexer/src/lib.rs:377-417 | `parse_str` as written reads the unquoted `abc"` as a literal |
| Lexer.KeywordFailureDropsWhitespace | impl-lexer/src/lib.rs:326-330 | `parse_keyword` as written loses the whitespace span when the word is no keyword, so the identifier parsed next gets an empty one; the stashing version keeps it |
| Lexer.Lexer.constructor | impl-lexer/src/lib.rs:21-28 | a new lexer has read nothing and stashed nothing |
| Lexer.Lexer.Consume | impl-lexer/src/lib.rs:152-155 | moving past k characters updates the state as `Advance` does and returns the span of their bytes |
| Lexer.Lexer.ScanLength | impl-lexer/src/lib.rs:69-130 | the stepwise scan loop consumes what `ScanAll` says; corrected per Findings row 1 |
| Lexer.Lexer.ParseWhitespace | impl-lexer/src/lib.rs:46-141 | agrees with `Whitespace`; corrected per Findings row 1 |
| Lexer.Lexer.StringLength | impl-lexer/src/lib.rs:209-223 | the stepwise literal scan consumes what `StrScan` says |
| Lexer.Lexer.ParseToken | impl-lexer/src/lib.rs:145-323 | agrees with `NextToken`; corrected per Findings row 1 (whitespace scan) |
| Lexer.Lexer.LexHere | impl-lexer/src/lib.rs:148-322 | agrees with `LexAt` |
| Lexer.Lexer.ParseKeyword | impl-lexer/src/lib.rs:325-347 | agrees with `NextKeyword`; corrected per Findings row 3 |
| Lexer.Lexer.ParseIdent | impl-lexer/src/lib.rs:349-372 | agrees with `NextIdent` |
| Lexer.Lexer.ParseStr | impl-lexer/src/lib.rs:374-418 | agrees with `NextStr`; corrected per Findings row 2 |
| Lexer.Lexer.ParseInt | impl-lexer/src/lib.rs:420-441 | agrees with `NextInt` |
| Lexer.Lexer.ParseSym | impl-lexer/src/lib.rs:476-556 | agrees with `NextSym` |
| Lexer.Lexer.ParseGrouping | impl-lexer/src/lib.rs:558-596 | agrees with `NextGrouping` |
| Lexer.Whitespace | impl-lexer/src/lib.rs:46-141 | definition: `parse_whitespace` with the corrected scan (Findings row 1); proved about in `WhitespaceFacts` and `StashComesBack` |
| Lexer.WhitespaceAsWritten | impl-lexer/src/lib.rs:46-141 | definition: `parse_whitespace` with the pair scan as written; proved about in `TrailingCommentLeaksChar` |
| Lexer.LexAt | impl-lexer/src/lib.rs:148-322 | definition: the token kinds of `parse_token` by the first character; proved about in `NextTokenFacts`, `WordLexes`, `DigitsLex`, `StringLexes` and `SymbolSpellingLexes` |
| Lexer.NextToken | impl-lexer/src/lib.rs:145-323 | definition: whitespace, then `LexAt`; corrected per Findings row 1; proved about in `NextTokenFacts` and `NoTokenAfterFailure` |
| Lexer.NextKeywordAsWritten | impl-lexer/src/lib.rs:325-347 | definition: `parse_keyword` as written; proved about in `KeywordFailureDropsWhitespace` |
| Lexer.NextKeyword | impl-lexer/src/lib.rs:325-347 | definition: `parse_keyword` stashing the whitespace on every failure, corrected per Findings row 3; proved about in `KeywordConsumes` and `KeywordFailureIsInvisible` |
| Lexer.NextIdent | impl-lexer/src/lib.rs:349-372 | definition: `parse_ident`; proved about in `IdentConsumes` and `IdentFailureIsInvisible` |
| Lexer.NextStrAsWritten | impl-lexer/src/lib.rs:374-418 | definition: `parse_str` as written; proved about in `StrCheckRejectsLiteral` and `StrCheckAcceptsWord` |
| Lexer.NextStr | impl-lexer/src/lib.rs:374-418 | definition: `parse_str`, corrected per Findings row 2; proved about in `StrConsumes` and `StrFailure` |
| Lexer.NextInt | impl-lexer/src/lib.rs:420-441 | definition: `parse_int`; proved about in `IntConsumes` and `IntFailureIsInvisible` |
| Lexer.NextSym | impl-lexer/src/lib.rs:476-556 | definition: `parse_sym`, two-character table first; proved about in `SymConsumes`, `SymFailureIsInvisible` and `AssignFromDoubleEqual` |
| Lexer.NextGrouping | impl-lexer/src/lib.rs:558-596 | definition: `parse_grouping`; proved about in `GroupingConsumes` and `GroupingFailureIsInvisible` |
| Peek.NothingAfterEnd | lib-peek/src/lib.rs:27-41 | once the underlying lexer fails, the token stream it yields holds only failures from there on |
| Peek.PushKeepsView | lib-peek/src/lib.rs:30-37 | buffering the lexer's next token changes no token the caller will see |
| Peek.NthShift | lib-peek/src/lib.rs:45-49 | the stream after one `parse_token` is the rest of the stream |
| Peek.NthAfterFailure | lib-peek/src/lib.rs:34-36 | after a failed pull, the stream holds nothing but failures |
| Peek.FailedPullKeepsView | lib-peek/src/lib.rs:31-37 | a failed pull changes nothing the caller sees, and the position just after the buffer is the end of the stream |
| Peek.PopMovesView | lib-peek/src/lib.rs:45-49 | serving the buffered front token moves the caller's view on by one |
| Peek.PullMovesView | lib-peek/src/lib.rs:45-49 | with an empty buffer, serving the lexer's next token moves the view on by one |
| Peek.Peekable.constructor | lib-peek/src/lib.rs:11-15 | a new peekable lexer has an empty buffer around the given lexer |
| Peek.Peekable.PeekToken | lib-peek/src/lib.rs:27-41 | `peek_token(n)`, with n within the capacity, fills the buffer to n tokens unless the lexer runs out first, yields the first n buffered tokens, and leaves the token stream the caller sees unchanged |
| Peek.Peekable.ParseToken | lib-peek/src/lib.rs:45-49 | yields the next token of the stream and moves the stream on by one; corrected per Findings row 1 (whitespace scan) |
| Peek.Peekable.ParseKeyword | lib-peek/src/lib.rs:51-64 | a buffered front token is served only when it is a keyword the filter allows, and otherwise stays; with an empty buffer, the lexer's `parse_keyword` decides; corrected per Findings row 3 |
| Peek.Peekable.ParseIdent | lib-peek/src/lib.rs:66-78 | the same for identifiers |
| Peek.Peekable.ParseStr | lib-peek/src/lib.rs:80-92 | the same for string literals; corrected per Findings row 2 |
| Peek.Peekable.ParseInt | lib-peek/src/lib.rs:94-106 | the same for integers |
| Peek.Peekable.ParseSym | lib-peek/src/lib.rs:122-135 | the same for symbols under the filter |
| Peek.Peekable.ParseGrouping | lib-peek/src/lib.rs:137-153 | the same for groupings under the filter |
| Peek.AsKeyword | lib-peek/src/lib.rs:51-64 | definition: a buffered token serves `parse_keyword` when it is a keyword the filter allows; used by `Peekable.ParseKeyword` |
| Peek.AsIdent | lib-peek/src/lib.rs:66-78 | definition: a buffered identifier token serves `parse_ident` |
| Peek.AsStr | lib-peek/src/lib.rs:80-92 | definition: a buffered string token serves `parse_str` |
| Peek.AsInt | lib-peek/src/lib.rs:94-106 | definition: a buffered integer token serves `parse_int` |
| Peek.AsSym | lib-peek/src/lib.rs:122-135 | definition: a buffered symbol token the filter allows serves `parse_sym` |
| Peek.AsGrouping | lib-peek/src/lib.rs:137-153 | definition: a buffered grouping token the filter allows serves `parse_grouping` |
| HirParser.ConsumesChain | impl-pass-hir/src/lib.rs:25-31 | two parses in a row: the second token starts at or after the end of the first, and no byte of the text is lost |
| HirParser.LetSpan | impl-pass-hir/src/lib.rs:24-41 | a parsed `let` spans from the start of `let` to the end of `;`, a valid span that ends where the text after the statement starts |
| HirParser.LetNeedsKeyword | impl-pass-hir/src/lib.rs:25 | `parse_let` fails when the text does not start with `let`, and then only the keyword attempt has touched the lexer |
| HirParser.HirParser.constructor | impl-pass-hir/src/lib.rs:16-18 | a parser owns the lexer it is given |
| HirParser.HirParser.ParseLet | impl-pass-hir/src/lib.rs:24-41 | agrees with `LetSpec`, the chain of keyword, identifier, `:`, identifier, `=`, integer, `;`; corrected per Findings row 3 |
| HirParser.LetSpec | impl-pass-hir/src/lib.rs:24-41 | definition: keyword `let`, identifier, `:`, identifier, `=`, integer, `;` in turn, giving up at the first missing piece; corrected per Findings row 3 through `NextKeyword`; proved about in `LetSpan` and `LetNeedsKeyword` |
| Encode.Initial | impl-pass-mir/src/encode.rs:45-55 | `write`'s encoder starts well formed: one empty block, the root scope, no loop, no register |
| Encode.Chain | impl-pass-mir/src/encode.rs:88-97 | `scopes()` visits the current scope first and the root scope last, through valid scope indices |
| Encode.LookupInnermost | impl-pass-mir/src/encode.rs:99-103 | `get` finds nothing exactly when no scope on the chain binds the identifier, and otherwise returns the binding of the innermost scope that does |
| Encode.Get | impl-pass-mir/src/encode.rs:99-103 | a register `get` returns has already been handed out |
| Encode.Insert | impl-pass-mir/src/encode.rs:113-119 | `insert` hands out the next register, keeps the encoder well formed and touches no block |
| Encode.Temp | impl-pass-mir/src/encode.rs:121-125 | `temp` hands out the next register and changes nothing else |
| Encode.NewBlock | impl-pass-mir/src/encode.rs:127-139 | `new_block` appends an empty block with no edges and returns its index |
| Encode.OpenScope | impl-pass-mir/src/encode.rs:141-149 | `open_scope` keeps the encoder well formed |
| Encode.CloseScope | impl-pass-mir/src/encode.rs:151-153 | `close_scope` keeps the encoder well formed |
| Encode.Emit | impl-pass-mir/src/encode.rs:219-224 | pushing an instruction appends it to the current block only |
| Encode.JumpTo | impl-pass-mir/src/encode.rs:155-159 | `jump` appends `Jump(to)` to `from`, records `to` among `from`'s children and `from` among `to`'s parents, and touches no other block |
| Encode.BranchTo | impl-pass-mir/src/encode.rs:161-167 | `branch` does the same with `BranchTrue` |
| Encode.InsertThenGet | impl-pass-mir/src/encode.rs:99-119 | after `insert`, `get` of the same identifier yields the new register, shadowing any outer binding |
| Encode.InsertKeepsOthers | impl-pass-mir/src/encode.rs:99-119 | `insert` leaves every other identifier's binding as it was |
| Encode.TempIsFresh | impl-pass-mir/src/encode.rs:121-125 | the register `temp` hands out is bound to no identifier, and no binding changes |
| Encode.OpenScopeKeepsGet | impl-pass-mir/src/encode.rs:141-149 | opening a scope hides no binding |
| Encode.ScopedBindingVanishes | impl-pass-mir/src/encode.rs:141-153 | a binding made inside a scope is gone once the scope closes |
| Encode.BreakJumpsToExit | impl-pass-mir/src/encode.rs:266-280 | `break` panics exactly when it has a label, a value or no enclosing loop; otherwise it adds one jump from the current block to the innermost loop's `exit` |
| Encode.CallDest | impl-pass-mir/src/encode.rs:291-320 | the `let` closure binds a fresh register and the `mut` closure returns the one it was given; neither touches a block |
| Encode.IntWidth | impl-pass-mir/src/encode.rs:430-442 | an integer literal loads as an immediate of a width that holds it |
| Encode.IntWidthSmallest | impl-pass-mir/src/encode.rs:430-442 | that width is the narrowest of the five that holds the value |
| Encode.EncLiteral | impl-pass-mir/src/encode.rs:422-450 | a literal is loaded into the given register in the current block; string and float literals panic |
| Encode.EncSimpleTo | impl-pass-mir/src/encode.rs:397-420 | a simple expression is written into the given register in the current block; an unbound variable fails |
| Encode.EncSimple | impl-pass-mir/src/encode.rs:374-395 | a literal goes into a fresh temporary and a variable is its own register, using only registers handed out |
| Encode.EncExpr | impl-pass-mir/src/encode.rs:170-229 | an expression's result register has been handed out, and only the current block grows |
| Encode.OpOf | impl-pass-mir/src/encode.rs:198-214 | definition: the operator match; a keyword operator or any other symbol gives `None`, so `encode` returns `None`; used by `EncExpr` |
| Encode.EncHir | impl-pass-mir/src/encode.rs:242-372 | every statement keeps the encoder well formed, grows it, and restores the scope and the loop stack; corrected per Findings row 6 |
| Encode.LoopOpen | impl-pass-mir/src/encode.rs:250-261 | the start of a loop makes blocks `start`, `end` and `exit`, pushes the loop, makes the current block and `end` jump to `start`, and moves to `start` |
| Encode.EncLoop | impl-pass-mir/src/encode.rs:249-265 | the corrected loop keeps the encoder well formed and restores the loop stack |
| Encode.LoopRest | impl-pass-mir/src/encode.rs:263-264 | after the body, the loop is popped off the stack, encoding moves to `exit` (the correction), and only the block the body started in and the block it ended in have had instructions added |
| Encode.EncLoopAsWritten | impl-pass-mir/src/encode.rs:249-265 | the loop as written keeps the encoder well formed |
| Encode.LoopAsWrittenStrandsCode | impl-pass-mir/src/encode.rs:249-265 | as written, the block left current after a loop already ends in a jump to the loop's `end`, so code after the loop is unreachable; encoding is not in `exit`, which is still empty, so a `break` lands in a block with no instructions and the run ends there (interp-mir/src/lib.rs:18-21) |
| Encode.LoopResumesAtExit | impl-pass-mir/src/encode.rs:249-265 | corrected, encoding resumes in the loop's still-empty `exit` block, the one every `break` jumps to |
| Encode.EncBreak | impl-pass-mir/src/encode.rs:266-280 | `break` is one statement's step |
| Encode.EncMut | impl-pass-mir/src/encode.rs:306-321 | `mut` writes into the variable's own register |
| Encode.EncIf | impl-pass-mir/src/encode.rs:322-367 | an `if` chain is one statement's step and ends in the `trailing` block |
| Encode.IfOpen | impl-pass-mir/src/encode.rs:327-338 | the start of `if` makes `bb_start` and `trailing`, jumps to `bb_start`, and makes the first branch's block |
| Encode.EncIfElse | impl-pass-mir/src/encode.rs:358-366 | `bb_start` jumps to the `else` block, whose end jumps to `trailing`, where encoding carries on |
| Encode.EncElse | impl-pass-mir/src/encode.rs:361-363 | the optional `else` scope is one statement's step |
| Encode.EncBranches | impl-pass-mir/src/encode.rs:335-356 | the fold over the branches touches only `bb_start` and blocks it made, and carries a block that exists |
| Encode.EncBranch | impl-pass-mir/src/encode.rs:339-354 | one step of the fold keeps the encoder well formed, adds instructions only to `init_block`, the branch's block and blocks it made, and carries the block it made for the next branch |
| Encode.EncScope | impl-pass-mir/src/encode.rs:231-240 | a nested scope's statements are one step, and the scope is closed afterwards; corrected per Findings row 6 |
| Encode.EncIter | impl-pass-mir/src/encode.rs:67-78 | a statement list is one step; corrected per Findings row 6 |
| Encode.IterConcat | impl-pass-mir/src/encode.rs:67-78 | `encode_iter` stops at the first statement that does not succeed: a list is encoded as its two halves in turn; corrected per Findings row 6 |
| Encode.Write | impl-pass-mir/src/encode.rs:36-65 | a frame `write` produces is well formed; corrected per Findings row 6 |
| Encoding.Encoder.constructor | impl-pass-mir/src/encode.rs:45-55 | a new encoder is `Initial` |
| Encoding.Encoder.Get | impl-pass-mir/src/encode.rs:88-103 | the walk over `scopes()` agrees with `Get` |
| Encoding.Encoder.Insert | impl-pass-mir/src/encode.rs:113-119 | agrees with `Insert` |
| Encoding.Encoder.Temp | impl-pass-mir/src/encode.rs:121-125 | agrees with `Temp` |
| Encoding.Encoder.NewBlock | impl-pass-mir/src/encode.rs:127-139 | agrees with `NewBlock` |
| Encoding.Encoder.OpenScope | impl-pass-mir/src/encode.rs:141-149 | agrees with `OpenScope` |
| Encoding.Encoder.CloseScope | impl-pass-mir/src/encode.rs:151-153 | agrees with `CloseScope` |
| Encoding.Encoder.Push | impl-pass-mir/src/encode.rs:219-224 | agrees with `Emit` |
| Encoding.Encoder.Jump | impl-pass-mir/src/encode.rs:155-159 | agrees with `JumpTo` |
| Encoding.Encoder.Branch | impl-pass-mir/src/encode.rs:161-167 | agrees with `BranchTo` |
| Encoding.Encoder.EncodeLiteral | impl-pass-mir/src/encode.rs:422-450 | agrees with `EncLiteral` |
| Encoding.Encoder.EncodeSimpleTo | impl-pass-mir/src/encode.rs:397-420 | agrees with `EncSimpleTo` |
| Encoding.Encoder.EncodeSimple | impl-pass-mir/src/encode.rs:374-395 | agrees with `EncSimple` |
| Encoding.Encoder.Call | impl-pass-mir/src/encode.rs:291-302 | agrees with `CallDest` |
| Encoding.Encoder.EncodeExpr | impl-pass-mir/src/encode.rs:170-229 | agrees with `EncExpr` |
| Encoding.Encoder.EncodeHir | impl-pass-mir/src/encode.rs:242-372 | agrees with `EncHir`; corrected per Findings row 6 |
| Encoding.Encoder.EncodeLoop | impl-pass-mir/src/encode.rs:249-265 | agrees with the corrected `EncLoop` |
| Encoding.Encoder.OpenLoop | impl-pass-mir/src/encode.rs:250-261 | agrees with `LoopOpen` |
| Encoding.Encoder.CloseLoop | impl-pass-mir/src/encode.rs:263-264 | the body's last block jumps to `end`, the loop is popped and encoding moves to `exit`; corrected per Findings row 6 |
| Encoding.Encoder.EncodeBreak | impl-pass-mir/src/encode.rs:266-280 | agrees with `EncBreak` |
| Encoding.Encoder.EncodeMut | impl-pass-mir/src/encode.rs:306-321 | agrees with `EncMut` |
| Encoding.Encoder.EncodeIf | impl-pass-mir/src/encode.rs:322-367 | agrees with `EncIf` |
| Encoding.Encoder.EncodeElse | impl-pass-mir/src/encode.rs:358-366 | agrees with `EncIfElse` |
| Encoding.Encoder.EncodeBranches | impl-pass-mir/src/encode.rs:335-356 | agrees with `EncBranches` |
| Encoding.Encoder.EncodeBranch | impl-pass-mir/src/encode.rs:339-354 | agrees with `EncBranch` |
| Encoding.Encoder.EncodeScope | impl-pass-mir/src/encode.rs:231-240 | agrees with `EncScope`; corrected per Findings row 6 |
| Encoding.Encoder.EncodeIter | impl-pass-mir/src/encode.rs:67-78 | agrees with `EncIter`; corrected per Findings row 6 |
| Encoding.WriteFrame | impl-pass-mir/src/encode.rs:36-65 | agrees with `Write`; corrected per Findings row 6 |
| TypeCheck.InitialTypes | impl-pass-mir/src/type_check.rs:131-136 | register i starts as the unknown `Inf(i)`, one variable per register |
| TypeCheck.WriteType | impl-pass-mir/src/type_check.rs:191-203 | `write_type!(reg <- ty)` fails exactly when the register already holds a different known type; otherwise it overwrites that one entry, and with a known type it only adds knowledge |
| TypeCheck.Unify | impl-pass-mir/src/type_check.rs:204-228 | `write_type!(a == b)` fails exactly when a and b hold two different known types; otherwise a and b end up with the same entry and nothing else changes |
| TypeCheck.Rule | impl-pass-mir/src/type_check.rs:233-338 | the rule for one instruction, when it succeeds, only adds knowledge and meets the instruction's known-type demands |
| TypeCheck.RulesCode | impl-pass-mir/src/type_check.rs:232-339 | a block's rules, when they all succeed, meet the demands of every instruction of the block |
| TypeCheck.RulesFrame | impl-pass-mir/src/type_check.rs:231-340 | the first loop, when it succeeds, meets the demands of every instruction of the frame |
| TypeCheck.PassFrom | impl-pass-mir/src/type_check.rs:345-389 | a pass of the second loop replaces linked variables by their targets' entries, and reports a change whenever an entry differs |
| TypeCheck.Fixpoint | impl-pass-mir/src/type_check.rs:342-394 | the second loop ends on a state that a further pass leaves unchanged |
| TypeCheck.Finalize | impl-pass-mir/src/type_check.rs:396-400 | the final map succeeds exactly when every variable is known, reads out those types, and panics otherwise |
| TypeCheck.InferAsWrittenSound | impl-pass-mir/src/type_check.rs:127-401 | a frame `infer_types` accepts meets every known-type demand: branch conditions are `bool`, immediates, arithmetic and comparisons have their operand and result types, and a 32-bit or wider immediate is never accepted |
| TypeCheck.LinkedVariableLost | impl-pass-mir/src/type_check.rs:191-228 | as written, a register that `r1 = r0` linked to r0 is later overwritten by a known type, so the frame `r1 = r0; r1 = true; r0 = 0` is accepted with `r0: i32, r1: bool`, breaking the copy's equation |
| TypeCheck.Find | impl-pass-mir/src/type_check.rs:349-356 | following links from a variable reaches the root of its class, a known type or a variable linked to itself |
| TypeCheck.SetRoot | impl-pass-mir/src/type_check.rs:191-228 | setting a root changes the class entry of exactly the variables in that class; corrected per Findings row 7 |
| TypeCheck.WriteRoot | impl-pass-mir/src/type_check.rs:191-203 | `write_type!` on a class root fails exactly when the class already has a different known type, and otherwise gives the class the type; corrected per Findings row 7 |
| TypeCheck.UnifyRoots | impl-pass-mir/src/type_check.rs:204-228 | unifying two classes fails exactly when they have different known types, and otherwise merges them; corrected per Findings row 7 |
| TypeCheck.ClassRule | impl-pass-mir/src/type_check.rs:233-338 | the rule for one instruction, with equations kept, meets every demand of that instruction, register copies and `==` included; corrected per Findings row 7 |
| TypeCheck.ClassRulesCode | impl-pass-mir/src/type_check.rs:232-339 | the same for a block's instructions; corrected per Findings row 7 |
| TypeCheck.ClassRulesFrame | impl-pass-mir/src/type_check.rs:231-340 | the same for the whole frame; corrected per Findings row 7 |
| TypeCheck.PassKeepsVal | impl-pass-mir/src/type_check.rs:345-389 | a pass of the second loop keeps every class and its entry; corrected per Findings row 7 |
| TypeCheck.FixpointKeepsVal | impl-pass-mir/src/type_check.rs:342-394 | so does the whole second loop; corrected per Findings row 7 |
| TypeCheck.InferClassesSound | impl-pass-mir/src/type_check.rs:127-401 | with equations kept, a typed result meets the demand of every instruction of the frame, the equations of copies and `==` included; corrected per Findings row 7 |
| TypeCheck.LinkedVariableKept | impl-pass-mir/src/type_check.rs:191-228 | with equations kept, the frame the checker as written accepts is rejected; corrected per Findings row 7 |
| TypeCheck.LiftInjective | impl-pass-mir/src/type_check.rs:396-400 | distinct type lists read out differently |
| TypeCheck.InferenceVariables.constructor | impl-pass-mir/src/type_check.rs:131-136 | a frame with n registers starts with n unknown variables; corrected per Findings row 7 |
| TypeCheck.InferenceVariables.Root | impl-pass-mir/src/type_check.rs:349-356 | the loop following links agrees with `Find`; corrected per Findings row 7 |
| TypeCheck.InferenceVariables.WriteType | impl-pass-mir/src/type_check.rs:190-203 | agrees with `WriteRoot`; corrected per Findings row 7 |
| TypeCheck.InferenceVariables.Unify | impl-pass-mir/src/type_check.rs:204-228 | agrees with `UnifyRoots`; corrected per Findings row 7 |
| TypeCheck.InferenceVariables.Apply | impl-pass-mir/src/type_check.rs:233-338 | agrees with `ClassRule`; corrected per Findings row 7 |
| TypeCheck.InferenceVariables.ApplyBlock | impl-pass-mir/src/type_check.rs:232-339 | agrees with `ClassRulesCode`; corrected per Findings row 7 |
| TypeCheck.InferenceVariables.Pass | impl-pass-mir/src/type_check.rs:343-389 | the pass loop agrees with `PassFrom`; corrected per Findings row 7 |
| TypeCheck.InferenceVariables.ApplyFrame | impl-pass-mir/src/type_check.rs:231-340 | agrees with `ClassRulesFrame`; corrected per Findings row 7 |
| TypeCheck.InferenceVariables.Settle | impl-pass-mir/src/type_check.rs:342-394 | agrees with `Fixpoint`; corrected per Findings row 7 |
| TypeCheck.ReadOut | impl-pass-mir/src/type_check.rs:396-400 | the read-out loop agrees with `Finalize`; corrected per Findings row 7 |
| TypeCheck.InferTypes | impl-pass-mir/src/type_check.rs:127-401 | `infer_types` with equations kept agrees with `InferClasses`; corrected per Findings row 7 |
| TypeCheck.InferAsWritten | impl-pass-mir/src/type_check.rs:127-401 | definition: `infer_types` as written, overwriting linked variables; proved about in `InferAsWrittenSound` and `LinkedVariableLost` |
| TypeCheck.InferClasses | impl-pass-mir/src/type_check.rs:127-401 | definition: `infer_types` writing through class roots, corrected per Findings row 7; proved about in `InferClassesSound` and `LinkedVariableKept` |
| EmitC.Enter | interp-mir/src/compile_to_c.rs:44-47 | entering index i into the ordered map adds exactly i to its entries |
| EmitC.Order | interp-mir/src/compile_to_c.rs:36-48 | after the first loop the map holds every register index exactly once |
| EmitC.EnterSorted | interp-mir/src/compile_to_c.rs:26-33 | entering an index above all present ones keeps the entries in descending `(align, size)` order, lower indices first within a key |
| EmitC.Ahead | interp-mir/src/compile_to_c.rs:26-33 | definition: `OrdTy`'s `(align, size)` order, reversed, so the larger key comes first; the order behind `Precedes` and `Sorted`, which `EnterSorted`, `OrderSorted` and `LayoutOrdered` state |
| EmitC.OrderSorted | interp-mir/src/compile_to_c.rs:26-48 | the map iterates in that order |
| EmitC.SortedDistinct | interp-mir/src/compile_to_c.rs:39-48 | no register is placed twice |
| EmitC.RoundUp | interp-mir/src/compile_to_c.rs:58-62 | `(size + mask) & !mask` rounds up to the next multiple of the alignment, by less than one alignment |
| EmitC.Place | interp-mir/src/compile_to_c.rs:53-66 | the second loop assigns one offset per register |
| EmitC.MaxOver | interp-mir/src/compile_to_c.rs:51-57 | the running alignment is at least 1 |
| EmitC.PlaceSound | interp-mir/src/compile_to_c.rs:53-66 | each placed slot is aligned and ends by the running size, and a slot placed earlier ends before a later one starts |
| EmitC.MaxOverBounds | interp-mir/src/compile_to_c.rs:51-57 | the running alignment is at least every alignment seen, and is 1 or one of them |
| EmitC.LayoutOf | interp-mir/src/compile_to_c.rs:8-69 | `layout` returns one offset per type |
| EmitC.LayoutAligned | interp-mir/src/compile_to_c.rs:8-69 | every offset is a multiple of its type's alignment, and every slot lies within the total size |
| EmitC.LayoutOrdered | interp-mir/src/compile_to_c.rs:53-66 | a slot whose key is larger, or whose key is equal and index lower, ends before the other starts |
| EmitC.LayoutDisjoint | interp-mir/src/compile_to_c.rs:8-69 | distinct registers' slots do not overlap |
| EmitC.LayoutMaxAlign | interp-mir/src/compile_to_c.rs:51-68 | the alignment of `locals` is the largest alignment of any register, and 1 with no registers |
| EmitC.Layout | interp-mir/src/compile_to_c.rs:8-69 | the two loops of `layout` agree with `LayoutOf` |
| EmitC.GroupTypes | interp-mir/src/compile_to_c.rs:39-47 | the first loop enters every index into the map, giving `Order` |
| EmitC.PlaceSlots | interp-mir/src/compile_to_c.rs:49-66 | the second loop assigns the offsets and the size `Place` computes and the largest alignment |
| EmitC.Types | impl-pass-mir/src/type_check.rs:167-181 | the register types `bool` (size 1, align 1) and `i32` (size 4, align 4) have power-of-two alignments |
| EmitC.CTypeOf | interp-mir/src/compile_to_c.rs:145-149 | definition: `_Bool` for `bool` and `int32_t` for `i32`, the cast each access names; the type of each `Local` access, which `EmitMirSafe` and `WriteCSafe` prove lies in its register's slot at the slot's width |
| EmitC.EmitMir | interp-mir/src/compile_to_c.rs:137-278 | each instruction emits one statement, never a label or a return |
| EmitC.EmitCode | interp-mir/src/compile_to_c.rs:136-279 | a block's instructions emit no label and no return |
| EmitC.EmitBlock | interp-mir/src/compile_to_c.rs:135-283 | a block's section starts with its label `_label_k`, holds no other label, and ends with `return 0;` exactly when the block has no children |
| EmitC.LabelsInOrder | interp-mir/src/compile_to_c.rs:134-135 | `write_c` emits one label per block, in index order |
| EmitC.EmitMirSafe | interp-mir/src/compile_to_c.rs:137-264 | a well-typed instruction never panics in the emitter, and its corrected statement reads and writes whole slots at their registers' own C types |
| EmitC.EmitCodeSafe | interp-mir/src/compile_to_c.rs:136-279 | the same for a block's instructions |
| EmitC.EmitBlocksSafe | interp-mir/src/compile_to_c.rs:134-284 | the same for every block |
| EmitC.WriteCSafe | interp-mir/src/compile_to_c.rs:91-289 | on a well-typed frame the corrected `write_c` never panics, and every statement of `main` accesses only whole register slots, which `layout` keeps disjoint and inside `locals` |
| EmitC.InSlotInBounds | interp-mir/src/compile_to_c.rs:128-132 | a register's slot at its own width lies within `locals` |
| EmitC.ComparisonOverrunsLocals | interp-mir/src/compile_to_c.rs:210-233 | as written, `r1 = r0 < r0` with `r0: i32, r1: bool` stores 4 bytes at offset 4 of a 5-byte `locals`, past its end |
| EmitC.CodeStaysFailed | interp-mir/src/compile_to_c.rs:136-279 | a panic in one instruction is a panic of the whole block |
| EmitC.BlocksStayFailed | interp-mir/src/compile_to_c.rs:134-284 | a panic in one block is a panic of the whole frame |
| EmitC.WriteBlock | interp-mir/src/compile_to_c.rs:135-283 | the loop body of `write_c` agrees with the corrected `EmitBlock` |
| EmitC.WriteCode | interp-mir/src/compile_to_c.rs:91-289 | the corrected `write_c` loop agrees with `WriteC` |
| EmitC.EmitBlocks | interp-mir/src/compile_to_c.rs:134-284 | definition: the sections of the blocks in index order; proved about in `LabelsInOrder` and `EmitBlocksSafe` |
| EmitC.Write | interp-mir/src/compile_to_c.rs:91-289 | definition: the layout, then every block; proved about in `WriteCSafe` |
| EmitC.WriteCAsWritten | interp-mir/src/compile_to_c.rs:91-289 | definition: `write_c` storing comparison results through `int32_t`; proved about in `ComparisonOverrunsLocals` |
| EmitC.WriteC | interp-mir/src/compile_to_c.rs:91-289 | definition: `write_c` storing comparison results as `_Bool`, corrected per Findings row 8; proved about in `WriteCSafe` |
| Interp.Defaults | interp-mir/src/lib.rs:10 | registers start with a value of their own type |
| Interp.Quot | interp-mir/src/lib.rs:66-69 | `/` on `i32` rounds toward zero: the remainder is smaller than the divisor and has the dividend's sign, and the quotient agrees with Euclidean division on non-negative operands |
| Interp.Compare | interp-mir/src/lib.rs:89-104 | definition: the four ordering arms on `i32` operands; used by `StepOf`, and `Interp.Machine.Step` agrees with it |
| Interp.Arith | interp-mir/src/lib.rs:54-69 | `+`, `-`, `*` and `/` either give a value inside the `i32` range or panic, on overflow or division by zero, as a debug build does |
| Interp.EnterInside | interp-mir/src/lib.rs:29-34 | entering a block keeps the machine inside the frame |
| Interp.StepInside | interp-mir/src/lib.rs:17-120 | a step stays within the frame's registers and blocks |
| Interp.StopsAtBlockEnd | interp-mir/src/lib.rs:18-21 | when the current block's instructions run out, `interpret` returns: there is no fall-through to the next block |
| Interp.JumpEntersTarget | interp-mir/src/lib.rs:29 | a jump continues at the first instruction of its target, registers and output unchanged, and panics when the target block is missing |
| Interp.BranchOnlyWhenTrue | interp-mir/src/lib.rs:30-34 | a branch enters its target exactly when the condition holds `true`, and otherwise continues with the next instruction |
| Interp.StepSound | interp-mir/src/lib.rs:23-120 | on a well-typed frame, a step never reads a register at a type it does not hold, and keeps every register at its type |
| Interp.RunSound | interp-mir/src/lib.rs:17-121 | the same for any run |
| Interp.InterpretSound | interp-mir/src/lib.rs:8-122 | a frame typed by the corrected checker (Findings row 7) never reads a register at the wrong type: it can only finish, panic (missing block, wide load, `i32` overflow, division by zero) or run out of fuel |
| Interp.RunFuelMonotone | interp-mir/src/lib.rs:17-121 | more fuel does not change a run that has ended |
| Interp.OutputGrows | interp-mir/src/lib.rs:24-28 | output is only appended |
| Interp.Machine.constructor | interp-mir/src/lib.rs:10-15 | the machine starts at the first instruction of block 0, registers at their default values, nothing printed |
| Interp.Machine.Step | interp-mir/src/lib.rs:18-120 | one turn of the loop agrees with `StepOf` and changes nothing when it stops |
| Interp.Machine.EnterBlock | interp-mir/src/lib.rs:29-32 | switching to a block agrees with `Enter` |
| Interp.Execute | interp-mir/src/lib.rs:8-122 | `interpret` agrees with `Interpret` |
| Interp.Enter | interp-mir/src/lib.rs:29 | definition: `blocks[target].as_ref().unwrap()`, a panic on a missing block; proved about in `EnterInside` and `JumpEntersTarget` |
| Interp.StepOf | interp-mir/src/lib.rs:23-120 | definition: one arm of the `match *mir`; proved about in `StepInside`, `StepSound` and `BranchOnlyWhenTrue` |
| Interp.Run | interp-mir/src/lib.rs:17-121 | definition: the loop of `interpret` for at most `fuel` turns; proved about in `RunSound` and `RunFuelMonotone` |
| Interp.Interpret | interp-mir/src/lib.rs:8-122 | definition: the run from the start of block 0 with registers at their zero values; proved about in `InterpretSound` |
| SmallVec.InlineCapacity | lib-smallvec/src/lib.rs:40-46 | the inline capacity is as many elements as fit in two machine words (of 8 bytes), and `usize::MAX` for zero-sized elements |
| SmallVec.HeaderMeaning | lib-smallvec/src/lib.rs:49-62 | while `cap` is at most the inline capacity the vector is inline, `cap` holds the length and the capacity is the inline capacity; otherwise `cap` is the heap capacity and `len` the length; the length never exceeds the capacity |
| SmallVec.ZeroSizedStaysInline | lib-smallvec/src/lib.rs:40-46 | zero-sized elements never leave the inline mode |
| SmallVec.PopLast | lib-smallvec/src/lib.rs:187-199 | `pop` yields nothing exactly on an empty vector, and otherwise the last element, which it removes |
| SmallVec.PushThenPop | lib-smallvec/src/lib.rs:175-199 | `push` then `pop` gives back the value pushed and the vector as it was |
| SmallVec.DedupSubsequence | lib-smallvec/src/lib.rs:310-351 | `dedup_by` keeps the first element and keeps the order of what it keeps |
| SmallVec.DedupNoAdjacent | lib-smallvec/src/lib.rs:310-351 | afterwards no element is in the same bucket as the element kept before it |
| SmallVec.DedupIdempotent | lib-smallvec/src/lib.rs:310-351 | a vector with no neighbours in the same bucket is left as it is, so `dedup_by` is idempotent |
| SmallVec.PartitionDedupBy | lib-smallvec/src/lib.rs:320-351 | `slice_partition_dedup_by` moves the elements `dedup_by` keeps to the front, in order, only by swapping, and returns how many there are |
| SmallVec.PartitionStep | lib-smallvec/src/lib.rs:337-346 | one iteration of its loop keeps the partition invariant |
| SmallVec.Swap | lib-smallvec/src/lib.rs:342 | `mem::swap` exchanges two slots and keeps the multiset of elements |
| SmallVec.SmallVec.Capacity | lib-smallvec/src/lib.rs:49-51 | the capacity is at least the length |
| SmallVec.SmallVec.Len | lib-smallvec/src/lib.rs:54-62 | `len` is the number of elements |
| SmallVec.SmallVec.constructor | lib-smallvec/src/lib.rs:29-37 | a new vector is inline and empty |
| SmallVec.SmallVec.Reserve | lib-smallvec/src/lib.rs:136-146 | after `reserve(n)` there is room for n more elements (saturating), the elements are unchanged, and nothing moves when there was room already |
| SmallVec.SmallVec.ReserveSlow | lib-smallvec/src/lib.rs:149-173 | the elements move to a heap buffer of at least the requested capacity |
| SmallVec.SmallVec.Push | lib-smallvec/src/lib.rs:175-185 | `push` appends the value |
| SmallVec.SmallVec.BumpLen | lib-smallvec/src/lib.rs:179-184 | the write at `len` and `*len += 1`: the value is appended and the capacity and the inline/heap state are unchanged, whichever word holds the length |
| SmallVec.SmallVec.Pop | lib-smallvec/src/lib.rs:187-199 | `pop` agrees with `PopLast` and keeps the buffer |
| SmallVec.SmallVec.Truncate | lib-smallvec/src/lib.rs:221-235 | `truncate(n)` keeps the first n elements, and the source panics when n exceeds the length |
| SmallVec.SmallVec.Clear | lib-smallvec/src/lib.rs:217-219 | `clear` empties the vector and keeps the buffer |
| SmallVec.SmallVec.ShrinkToFit | lib-smallvec/src/lib.rs:237-265 | `shrink_to_fit` keeps the elements, does nothing while inline, goes back inline exactly when the elements fit there, and never grows the capacity |
| SmallVec.SmallVec.ExtendFromSlice | lib-smallvec/src/lib.rs:267-285 | `extend_from_slice` appends the slice in order |
| SmallVec.SmallVec.DedupBy | lib-smallvec/src/lib.rs:310-317 | `dedup_by` leaves exactly `Dedup` of the elements |
| ArrayVec.Pushing | lib-array-vec/src/lib.rs:66-87 | `try_push` refuses exactly a full vector, giving the value back and changing nothing; otherwise it writes slot `len`, keeps the other elements and returns that slot |
| ArrayVec.Popping | lib-array-vec/src/lib.rs:102-114 | `try_pop` yields nothing exactly on an empty vector; otherwise the last element, which it removes |
| ArrayVec.PushThenPop | lib-array-vec/src/lib.rs:81-114 | a pop right after a successful push gives back that value and the vector as it was |
| ArrayVec.PopThenPush | lib-array-vec/src/lib.rs:81-114 | pushing a popped value back restores the vector |
| ArrayVec.PushAll | lib-array-vec/src/lib.rs:81-87 | pushing values one at a time keeps the capacity |
| ArrayVec.PopAllReverses | lib-array-vec/src/lib.rs:108-114 | popping everything yields the elements in reverse order of their pushes |
| ArrayVec.PushAllAppends | lib-array-vec/src/lib.rs:81-87 | with room for all of them, pushes append the values in order |
| ArrayVec.SetLenRefusesFull | lib-array-vec/src/lib.rs:57-60 | the check as written refuses `set_len(N)`, the length of a full vector, which the safety contract allows |
| ArrayVec.SetLenAllowedAsWritten | lib-array-vec/src/lib.rs:58 | definition: the `debug_assert!(len < N)` of `set_len`; proved about in `SetLenRefusesFull` |
| ArrayVec.PopGuardLetsEmptyThrough | lib-array-vec/src/lib.rs:116-120 | on an `ArrayVec<T, 0>` the guard of `pop` passes although there is nothing to pop, so `len -= 1` underflows |
| ArrayVec.PopGuardAsWritten | lib-array-vec/src/lib.rs:117 | definition: the `assert!(N == 0 \|\| self.len > 0)` of `pop`; proved about in `PopGuardLetsEmptyThrough` |
| ArrayVec.PopGuardMatchesTryPop | lib-array-vec/src/lib.rs:108-120 | the corrected guard passes exactly when `try_pop` finds an element |
| Wrappers.Values | lib-array-vec/src/lib.rs:45-47 | the values of a run of initialised slots, in order, each slot holding the value at its position |
| ArrayVec.ArrayVec.Items | lib-array-vec/src/lib.rs:45-47 | `as_slice` has `len` elements |
| ArrayVec.ArrayVec.constructor | lib-array-vec/src/lib.rs:18-23 | a new vector is empty with N uninitialised slots |
| ArrayVec.ArrayVec.IsEmpty | lib-array-vec/src/lib.rs:33-35 | `is_empty` holds exactly when there are no elements |
| ArrayVec.ArrayVec.IsFull | lib-array-vec/src/lib.rs:37-39 | `is_full` holds exactly when the length is N |
| ArrayVec.ArrayVec.Len | lib-array-vec/src/lib.rs:41-43 | `len` is the number of elements, at most N |
| ArrayVec.ArrayVec.SetLen | lib-array-vec/src/lib.rs:57-60 | corrected `set_len(n)` makes the first n slots the elements |
| ArrayVec.ArrayVec.PushUnchecked | lib-array-vec/src/lib.rs:66-79 | `push_unchecked` on a vector that is not full agrees with `Pushing` |
| ArrayVec.ArrayVec.TryPush | lib-array-vec/src/lib.rs:81-87 | agrees with `Pushing` |
| ArrayVec.ArrayVec.Push | lib-array-vec/src/lib.rs:89-96 | `push`, below capacity, agrees with `Pushing` |
| ArrayVec.ArrayVec.PopUnchecked | lib-array-vec/src/lib.rs:102-106 | `pop_unchecked` on a non-empty vector agrees with `Popping` |
| ArrayVec.ArrayVec.TryPop | lib-array-vec/src/lib.rs:108-114 | agrees with `Popping` |
| ArrayVec.ArrayVec.Pop | lib-array-vec/src/lib.rs:116-120 | `pop` with the corrected guard agrees with `Popping` |
| Arena.Empty | lib-arena/src/local.rs:21-41 | a new arena has retired no slab and written nothing |
| Arena.Allocate | lib-arena/src/local.rs:45-84 | `alloc` writes the next free slot of the current slab, or retires a full slab and writes slot 0 of a fresh one; the slab size is kept |
| Arena.AllocGet | lib-arena/src/local.rs:45-84 | the slot `alloc` returns holds the value given |
| Arena.AllocFresh | lib-arena/src/local.rs:45-84 | that slot was free before, so no two allocations share a slot |
| Arena.AllocKeeps | lib-arena/src/local.rs:45-84 | earlier allocations are never moved or overwritten |
| Arena.AllocAppends | lib-arena/src/local.rs:45-84 | the values in allocation order gain exactly the new one at the end |
| Arena.CountAllocated | lib-arena/src/local.rs:65-84 | the number of values is N per retired slab plus the current slab's fill |
| Arena.LocalUniqueArena.View | lib-arena/src/local.rs:4-9 | the arena's state is sound |
| Arena.LocalUniqueArena.constructor | lib-arena/src/local.rs:21-41 | `new` panics on slabs of size 0 and otherwise starts empty |
| Arena.LocalUniqueArena.Alloc | lib-arena/src/local.rs:45-60 | agrees with `Allocate` |
| Arena.LocalUniqueArena.AllocSlow | lib-arena/src/local.rs:65-84 | on a full slab, agrees with `Allocate` |
| Arena.LocalSharedArena.constructor | lib-arena/src/local.rs:113-117 | a shared arena wraps a new unique arena |
| Arena.LocalSharedArena.Alloc | lib-arena/src/local.rs:121-123 | the shared arena allocates exactly as the unique one does |
| Cache.Empty | lib-arena/src/cache.rs:22-26 | a new cache is empty |
| Cache.Lookup | lib-arena/src/cache.rs:28-38 | `get` finds a box exactly when an equal value is cached, and that box holds an equal value |
| Cache.Added | lib-arena/src/cache.rs:42-67 | `insert` keeps the cache sound |
| Cache.GetEmpty | lib-arena/src/cache.rs:128-132 | nothing is found in a new cache |
| Cache.InsertThenGet | lib-arena/src/cache.rs:42-67 | `insert` returns a box holding the value, and `get` then finds that box |
| Cache.InsertTwice | lib-arena/src/cache.rs:134-140 | inserting an equal value twice returns the same box, and the second insertion changes nothing |
| Cache.InsertGrows | lib-arena/src/cache.rs:45-64 | the value is dropped (`mark` stays set) exactly when an equal value is cached, and then the cache is unchanged; otherwise the set grows by exactly that value and no box moves |
| Cache.InsertKeeps | lib-arena/src/cache.rs:42-67 | values already cached keep their boxes across any insertion |
| Cache.Cache.constructor | lib-arena/src/cache.rs:22-26 | a new cache is empty |
| Cache.Cache.Get | lib-arena/src/cache.rs:28-38 | agrees with `Lookup` |
| Cache.Cache.Insert | lib-arena/src/cache.rs:42-67 | agrees with `Added`: it returns the box and `mark`, which stays set exactly when an equal value was already cached and the given one is dropped (`InsertGrows`) |
| Intern.WordRoundTrip | lib-intern/src/lib.rs:160 | the length word read back is the length written, for any length that fits in the word |
| Intern.Encode | lib-intern/src/lib.rs:152-162 | the allocation `insert_slow` fills is the length word plus the bytes, of the size its layout gives |
| Intern.AllocSize | lib-intern/src/lib.rs:152 | definition: the size of the layout `insert_slow` allocates, the length plus one word; proved about in `Encode` and `LayoutsAgree` |
| Intern.DeallocSize | lib-intern/src/lib.rs:178-179 | definition: the size of the layout `drop` frees, computed from the length word it reads; proved about in `LayoutsAgree` |
| Intern.DecodeEncode | lib-intern/src/lib.rs:106-116 | dereferencing an interned allocation yields the string stored |
| Intern.Decode | lib-intern/src/lib.rs:105-116 | definition: `Deref for Str` reads the length word, then that many bytes after it (`OwnStr::as_str` at lines 34-45 does the same); proved about in `DecodeEncode`, and through `Deref` in `InsertReadsBack` |
| Intern.LayoutsAgree | lib-intern/src/lib.rs:176-180 | the layout `drop` frees is the layout `insert_slow` allocated |
| Intern.SlowPath | lib-intern/src/lib.rs:148-171 | `insert_slow` leaves the string present, and the handle names its allocation |
| Intern.FastPath | lib-intern/src/lib.rs:134-145 | `insert_inner` does the same, finding a present string under the read lock |
| Intern.InsertReadsBack | lib-intern/src/lib.rs:102-145 | an interned string's handle dereferences to the string |
| Intern.InsertTwice | lib-intern/src/lib.rs:134-171 | inserting the same string twice returns equal handles and changes nothing |
| Intern.FastAndSlowAgree | lib-intern/src/lib.rs:134-171 | for a string already present, the read path and the write path return the same handle |
| Intern.HandlesAreStrings | lib-intern/src/lib.rs:22-26 | two present strings have equal handles exactly when they are equal |
| Intern.FastPathKeys | lib-intern/src/lib.rs:134-171 | one insertion adds exactly its string to the set |
| Intern.InsertAllKeys | lib-intern/src/lib.rs:130-171 | interning a list adds exactly the strings of the list |
| Intern.LenCountsDistinct | lib-intern/src/lib.rs:126-128 | after interning a list, `len` is the number of distinct strings present |
| Intern.Interner.constructor | lib-intern/src/lib.rs:120-124 | a new interner is empty |
| Intern.Interner.Len | lib-intern/src/lib.rs:126-128 | agrees with `Size` |
| Intern.Interner.Insert | lib-intern/src/lib.rs:130-145 | agrees with `FastPath` |
| Intern.Interner.InsertSlow | lib-intern/src/lib.rs:148-171 | the fresh allocation holds the length word followed by the string's bytes (`Encode`), written as one sequence rather than by `copy_nonoverlapping`, and the interner changes as `SlowPath` says |

## Left out

- Floating point: `parse_float`, the float arm of `parse_token` and `Peekable::parse_float`. A float token is recognised and its span is modelled, but its value is not.
- The interner context of the lexer (`alloc_str`, `Interner::insert` for identifiers). Tokens carry their own text.
- Unicode character classes beyond ASCII. `is_alphabetic` and `is_numeric` are modelled on ASCII letters and digits only; `is_whitespace` follows Unicode's White_Space list in full. UTF-8 byte lengths are modelled exactly.
- The `debug_assert_eq!` checks inside the comment scan (lexer lines 114 and 120). They hold on every input, since the scan enters those states only on the character they check.
- `Peekable`'s `ArrayDeque` is modelled as a sequence bounded by the capacity. `lib-array-vec`'s deque is not part of this model.
- Peek.Peekable.PeekToken: the source panics when `n` exceeds the capacity; the model requires `n` to be within it.
- The HIR arena of `HirParser` (`alloc`) and the HIR shapes other than `let`.
- `Expr::PreOp`, `PostOp`, `Tuple` and `Func`, `Continue`, and string and float literals. The source reaches `todo!` on them; the encoder model yields a panic.
- `get_or_insert` of the encoder, which nothing calls.
- `StackFrame::new` (`core-mir` as used by the encoder). The frame `write` returns is the encoder's blocks and register count. The `core-mir/src/lib.rs` shipped with the repository predates the instruction set the encoder, checker and interpreter use; the model follows those users.
- The function machinery of the type checker: projections, `CreateFunc`, `LoadFunction`, `FUNC_ID`, the unit type, `PopArgument` and `PushArguement`.
- The `debug!` and `eprintln!` output of the type checker, the encoder and the lexer.
- TypeCheck.Fixpoint: the second loop of `infer_types` runs until a pass changes nothing. The model bounds it by a pass budget and reports `Unfinished` when the budget runs out. Its termination is not proved.
- write_c takes the inferred types as a parameter. The `infer_types(..).expect(..)` call at its start belongs to the caller.
- The text `write_c` prints: the `#include` header, the declaration of `locals` and the exact formatting of each line (the `%b` format of a boolean `printf` included). The C program is modelled as a list of abstract statements.
- EmitC.Layout: the mask arithmetic `(size + mask) & !mask` is modelled as rounding up to a multiple of the alignment. The two agree because every alignment used (1 and 4) is a power of two.
- EmitC.Order: the `BTreeMap` of `BTreeSet`s is flattened into one sequence of register indices in iteration order.
- `Layout::from_size_align(..).unwrap()` never fails for the power-of-two alignments used, so the model does not include that panic.
- `interp-mir/src/variables.rs`, `stack_frame.rs` and `main/src/main.rs` are not part of this model. Registers start at their type's zero value, and a read at a type the register does not hold is a `Fault`.
- Interp.Interpret: the interpreter's loop is unbounded, since a program can loop forever. The model runs it for a given number of turns (fuel) and reports `OutOfFuel` beyond them.
- Interp.Arith: `i32` overflow and division by zero panic, as in a debug build; release-build wrap-around is not modelled.
- The text of `println!` in the interpreter. A printed value is appended to the output as a value.
- Out-of-range register and block indices in the interpreter and the C emitter. The model requires a frame whose instructions name existing registers (`FrameOk`, `BlocksRegsIn`), which the encoder guarantees.
- `SmallVec`'s raw-pointer layout, `Drop`, `IntoIter`, `extend`, `From`, `Clone`, indexing and comparison traits. The buffer is modelled as its sequence of elements, and the heap capacity the allocator chooses is left open.
- SmallVec.SmallVec.Push: `push` overflows `usize` only after `usize::MAX` elements; the model requires fewer.
- SmallVec.SmallVec.ExtendFromSlice: `extend_from_slice` overflows `usize` in `*len += 1` only after `usize::MAX` elements, which zero-sized elements can reach without allocating; the model requires fewer.
- Intern.WordRoundTrip: the length word is modelled as 8 little-endian bytes, a 64-bit target. The source writes and reads a native-endian `usize`; the round trip holds for any byte order and width that the write and the read share.
- ArrayVec.ArrayVec.SetLen: the model requires the corrected check, `len <= N`, and that the first `len` slots hold values, which the source's safety comment demands.
- SmallVec.SmallVec.ReserveSlow: the capacity the allocator grants is stated as a lower bound only, since `Vec::with_capacity` and `Vec::reserve` may give more.
- SmallVec.SmallVec.ShrinkToFit: on the heap path the new capacity is stated as bounds only, since `Vec::shrink_to_fit` may keep spare room.
- `Drop` of `ArrayVec`, of the arenas and of `OwnStr` (apart from the agreement of its layout), and allocation failure (`handle_alloc_error`).
- Arena.LocalUniqueArena.constructor: the zero-sized-type assertion of `new` is left out, since the model has no type sizes.
- Concurrency: the `RwLock`s of `Cache` and `Intern` and the `Send`/`Sync` markers. Each operation is modelled as one atomic step.
- `Cache` and `Intern` hashing: a hash set is modelled as a map from value to box or allocation.
- `lib-thread-local` is not part of this model. In `exception.c`, `setjmp` and `longjmp` are modelled as outcome values and the `printf` texts as strings.
- Lexer.NextTokenFacts: an integer token carries the unbounded decimal value of its digits. The source parses it into a `u128` with `parse().unwrap()`, so a literal of 2^128 or more panics there.
- Lexer.DigitsLex: the same unbounded value, with no `u128` overflow panic.
- Lexer.LexAt: the integer arm carries the unbounded value and has no `u128` overflow panic.
- Lexer.NextInt: `parse_int` gives the unbounded value, with no `u128` overflow panic.
- Lexer.Lexer.ParseToken: as `LexAt`, no `u128` overflow panic.
- Lexer.Lexer.LexHere: as `LexAt`, no `u128` overflow panic.
- Lexer.Lexer.ParseInt: as `NextInt`, no `u128` overflow panic.
- Peek.Peekable.ParseToken: inherits the missing `u128` overflow panic from the lexer.
- Peek.Peekable.ParseInt: inherits the missing `u128` overflow panic from the lexer.
- HirParser.HirParser.ParseLet: inherits the missing `u128` overflow panic of `parse_int`.
- Interp.Interpret: takes the register types as a parameter. The `infer_types(..).expect(..)` call at the start of `interpret`, and its panic when inference fails, belong to the caller.
- SmallVec.SmallVec.DedupBy: `same_bucket` is modelled as a pure function of two elements. The source takes an `FnMut(&mut T, &mut T) -> bool`, which may keep state between calls and change the elements it is given.
- SmallVec.PartitionDedupBy: the same pure `same_bucket`.

## Findings

| source | as written | input that shows it | evidently intended | confidence | as-written member | corrected member |
|---|---|---|---|---|---|---|
| impl-lexer/src/lib.rs:71-130 | the comment and whitespace scan zips each character with its successor, so it never reaches the last character of the text | `//ab`: `parse_whitespace` leaves `b`, which then lexes as the identifier `b` | the last character is scanned too, with the end of the text as its successor | not executed | Lexer.TrailingCommentLeaksChar | Lexer.ScanLineComment |
| impl-lexer/src/lib.rs:377-380 | `parse_str` gives up when the text starts with `"`, the opposite of the check it means | `"a"` is rejected, and the unquoted `abc"` is read as a literal | give up when the text does not start with `"` | not executed | Lexer.StrCheckRejectsLiteral | Lexer.StringLexes |
| impl-lexer/src/lib.rs:326-330 | `parse_keyword` returns through `?` when the word is no keyword, after `parse_whitespace` has consumed the whitespace span, without stashing it | `  x` asked for `let`: the identifier parsed next gets an empty whitespace span instead of bytes 0 to 2 | stash the span on this failure too, as the other failures of the typed parses do | not executed | Lexer.KeywordFailureDropsWhitespace | Lexer.KeywordFailureIsInvisible |
| lib-array-vec/src/lib.rs:116-120 | `pop` asserts `N == 0 \|\| len > 0`, which passes on every `ArrayVec<T, 0>` | `pop` on an `ArrayVec<T, 0>`: `len -= 1` underflows | assert `len > 0` | not executed | ArrayVec.PopGuardLetsEmptyThrough | ArrayVec.PopGuardMatchesTryPop |
| lib-array-vec/src/lib.rs:57-60 | `set_len` checks `len < N` | `set_len(N)` on a vector whose N slots are all written | `len <= N` | not executed | ArrayVec.SetLenRefusesFull | ArrayVec.ArrayVec.SetLen |
| impl-pass-mir/src/encode.rs:249-265 | after a loop, encoding stays in the body's last block, which already ends in a jump back to the loop | `let x = 1; loop { break; } print x;`: the print is placed after the jump and is never reached, and nothing is ever encoded into `exit`, so the `break` lands in an empty block and the run ends there (interp-mir/src/lib.rs:18-21) | continue encoding in the loop's `exit` block | not executed | Encode.LoopAsWrittenStrandsCode | Encode.LoopResumesAtExit |
| impl-pass-mir/src/type_check.rs:190-228 | `write_type!` and `a == b` overwrite a variable that is already linked to another, so the earlier equation is lost | the frame `r1 = r0; r1 = true; r0 = 0` is typed `r0: i32, r1: bool`, and the copy moves an `i32` into a `bool` | write to the root of the variable's class | not executed | TypeCheck.LinkedVariableLost | TypeCheck.InferClassesSound |
| interp-mir/src/compile_to_c.rs:210-233 | ordering comparisons store their result through an `int32_t` pointer into a `bool` register's one-byte slot | registers `r0: i32`, `r1: bool` and `r1 = r0 < r0`: `r1` sits at offset 4 of a 5-byte `locals`, and the 4-byte store runs past its end | store through a `_Bool` pointer, as `==` and `!=` do | not executed | EmitC.ComparisonOverrunsLocals | EmitC.WriteCSafe |
