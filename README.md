# A verified model of the c-- expression front end

This project models the front end of the `c--` integer-expression compiler in
Dafny and proves what each stage does. The front end runs four stages in
sequence:

- **`ROBuffer`**: a read-only, rewindable cursor over the ASCII bytes of the
  input (module `ROBuffers`, a class with one mutable `offset`).
- **The tokeniser**: turns the bytes into tokens that carry a 1-based line and
  column. The byte classes are in `Utils`. The token kinds, the
  operand/paren/operator classes and the precedence table are in `Tokens`.
  The `Tokeniser` class (module `Tokenisers`) has `get_num`, `get_ident`,
  `tokenise` and `collect` as methods.
  - Pure functions say what one `tokenise` call yields from a position
    (`NextToken`), every token produced up to `End` (`Stream`), and what
    `collect` returns (`Collected`).
  - The methods are proved to produce exactly those.
- **Shunting-yard** (module `ExprParser`): `add_operator` and `to_rpn` turn the
  token sequence into postfix form. They are methods over an output and an
  operator stack, both `seq<Token>` with the top of the stack at the end.
  - Each method is proved against a pure specification: `Pushed`, `Closed`,
    `Step`, `Shunt` and `Rpn`.
  - Lemmas about that specification cover:
    - operand order
    - conservation of tokens
    - when and where the mismatched-paren panic happens
    - the worked examples
- **Semantic checks** (module `Sema`):
  - `sema_infix` counts parens and checks each token against its successor.
  - `sema_rpn` runs the postfix sequence on a virtual stack, which the model
    keeps as its depth.
  - Both methods are proved equal to predicates (`InfixOk`, `RpnOk`).
  - Those predicates are characterised:
    - `InfixOk` on paren-free input, as a grammar.
    - `RpnOk` as the postfix forms of well-formed expression trees.

Module `Pipeline` shows how the stages meet:

- `) + (` passes `sema_infix`, yet `to_rpn` panics on it.
- `( + )` passes `sema_infix` and `to_rpn` turns it into `+`, which
  `sema_rpn` rejects.

So `sema_infix` does not guard `to_rpn`, and `to_rpn`'s output of accepted
input need not pass `sema_rpn`.

Layout: `wrappers.dfy` (Option, Result), `utils.dfy`, `robuffer.dfy`,
`tokens.dfy`, `tokeniser.dfy`, `expr_parser.dfy`, `sema.dfy`, `pipeline.dfy`.
Paths below are relative to the repository root.

## Model

| member | source | states |
|---|---|---|
| Utils.Classification | src/utils.rs:1-15 | `is_digit` holds exactly on `'0'..'9'`. `is_alnum` holds exactly on digits and the ASCII letters. `is_space` holds exactly on space, CR and tab. A newline is neither a space nor alphanumeric, and a space is never alphanumeric. |
| Utils.DigitIsAlnum | src/utils.rs:5-8 | Every digit is alphanumeric. |
| Utils.DigitValue | src/tokeniser.rs:147 | A digit byte minus `'0'` is below 10. |
| ROBuffers.AsciiBytes | src/robuffer.rs:12-19 | The bytes of an ASCII string: as many as there are characters, each the character's code point, in order. |
| ROBuffers.ROBuffer.New | src/robuffer.rs:9-25 | Fails exactly when some character is above 0x7F. Otherwise it yields a fresh buffer holding the string's code points in order, at offset 0. |
| ROBuffers.ROBuffer.FromBytes | src/robuffer.rs:21-24 | The struct literal: the given bytes, at offset 0. |
| ROBuffers.ROBuffer.Next | src/robuffer.rs:27-34 | At the end it returns `None` and leaves the offset alone. Otherwise it returns the byte at the old offset and advances by exactly one. `contents` is a `const`, and `0 <= offset <= |contents|` is kept. |
| ROBuffers.ROBuffer.Rewind | src/robuffer.rs:36-42 | Decreases the offset by exactly one and keeps the invariant, so a successful `Next` followed by `Rewind` restores the offset. |
| Tokens.Classes | src/tokeniser.rs:47-68 | Operand, paren and operator are pairwise exclusive. Every kind but `Invalid` and `End` is in one of them, and `Assign` is an operator. |
| Tokens.PrecedenceTable | src/tokeniser.rs:94-108 | Mul = Div = Mod = 6, Add = Sub = 5, And = 3, Xor = 2, Or = 1, Num = Ident = 0, Assign = -1. |
| Tokens.Precedence | src/tokeniser.rs:94-108 | Defined only where the table has an entry (not on parens, `Invalid` or `End`). Its value lies in -1..6, and it is 0 exactly for operands. |
| Tokens.AsciiUtf8 | src/tokeniser.rs:73 | ASCII bytes are well-formed UTF-8, so `value` never panics on such an identifier. |
| Tokens.Utf8Examples | src/tokeniser.rs:73 | A stray continuation byte, 0xFF, an overlong form and a surrogate are not UTF-8. The three bytes of U+20AC are. |
| Tokens.ParCountsAppend | src/sema.rs:18-28 | The `(` and `)` counts of a concatenation are the sums of the parts' counts. |
| Tokens.ParCountsZero | src/sema.rs:18-28 | A count is zero exactly when no such paren occurs. |
| Tokenisers.RunLength | src/tokeniser.rs:134-151 | The length of the run from `off`: every byte in it is of the run's kind, and the byte after it (if any) is not. |
| Tokenisers.RunLengthUnique | src/tokeniser.rs:134-151 | Those two facts determine the run length. |
| Tokenisers.DecimalValueBound | src/tokeniser.rs:147-149 | The value `get_num` accumulates (`DecimalValue`, the digits of `s[lo..hi]` read left to right) from a run of `k` digits lies in `0 .. 10^k - 1`. |
| Tokenisers.DecimalValueSplit | src/tokeniser.rs:147-149 | Positional notation: the value of a run is the value of its front times `10^(length of the back)` plus the value of its back. |
| Tokenisers.ByteKind | src/tokeniser.rs:208-220 | Its body is the byte table of the single-byte arms. Its contract says that those arms never yield `Num`, `Ident` or `End`. |
| Tokenisers.SkipBlanks | src/tokeniser.rs:197-206 | Skipping blanks only moves forward and stops at the end or at a byte that is not blank. |
| Tokenisers.SkipBlank | src/tokeniser.rs:197-206 | A space, tab or CR moves one column on. A newline moves to column 1 of the next line. Neither yields a token. |
| Tokenisers.NextToken | src/tokeniser.rs:179-229 | `End` is yielded only with the input exhausted. Every other token consumes at least one byte, which is why `collect` terminates. |
| Tokenisers.EndOnlyAtBlankRest | src/tokeniser.rs:180-184 | `tokenise` yields `End` exactly when only spaces, tabs, CRs and newlines remain. |
| Tokenisers.NextTokenEnd | src/tokeniser.rs:228 | At the end of the input the token is `End` at the current line and column, and nothing moves. |
| Tokenisers.NextTokenIdent | src/tokeniser.rs:187-190 | A letter starts an `Ident` holding exactly the maximal alphanumeric run, at the letter's line and column. The cursor ends past the run. |
| Tokenisers.NextTokenNum | src/tokeniser.rs:192-195 | A digit starts a `Num` holding the decimal value of the maximal digit run, at its line and column. The cursor ends past the run. |
| Tokenisers.NextTokenSingle | src/tokeniser.rs:208-225 | Any other non-blank byte yields its kind (or `Invalid(byte)`) at the current line and column, one column on. |
| Tokenisers.Stream | src/tokeniser.rs:179-229 | The tokens produced from a position end with the only `End`. |
| Tokenisers.NextTokenAscii | src/tokeniser.rs:156-177 | An identifier `tokenise` reads consists of alphanumeric bytes only, so it is ASCII. |
| Tokenisers.CollectedAscii | src/tokeniser.rs:231-248 | Every identifier `collect` returns is ASCII. |
| Tokenisers.Collected | src/tokeniser.rs:231-248 | What `collect` yields: the cursor only moves forward and stays within the input, and a failure always carries an `Invalid` token. |
| Tokenisers.CollectedOk | src/tokeniser.rs:231-248 | When `collect` succeeds, it returns the produced tokens in order without the final `End`, and none of them is `Invalid`. |
| Tokenisers.CollectedErr | src/tokeniser.rs:231-248 | When `collect` fails, it fails on the first `Invalid` token produced. |
| Tokenisers.CollectedIsStream | src/tokeniser.rs:231-248 | `collect` fails exactly when an `Invalid` token is produced before `End`, and then with the first one. Otherwise it returns the produced tokens, none of which is `Invalid` or `End`. |
| Tokenisers.Tokeniser.constructor | src/tokeniser.rs:122-128 | A buffer over the string's bytes, at line 1, column 1. |
| Tokenisers.Tokeniser.GetNum | src/tokeniser.rs:130-154 | Entered on a digit, it returns `Num` of the decimal value of the maximal digit run, positioned where the run starts. The cursor ends just past the run. The column is `k` further on at the end of the input, and `k - 1` further on when a byte follows. |
| Tokenisers.Tokeniser.GetIdent | src/tokeniser.rs:156-177 | Entered on an alphanumeric byte, it returns `Ident` of exactly the maximal alphanumeric run, positioned where it starts. The cursor and column are as for `GetNum`. |
| Tokenisers.Tokeniser.LexIdent | src/tokeniser.rs:187-190 | The letter arm (rewind, `get_ident`, column step) yields `NextToken` from the letter's position. |
| Tokenisers.Tokeniser.LexNum | src/tokeniser.rs:192-195 | The digit arm (rewind, `get_num`, column step) yields `NextToken` from the digit's position. |
| Tokenisers.Tokeniser.Tokenise | src/tokeniser.rs:179-229 | Returns the token `NextToken` describes from the old position and leaves the tokeniser at its next position. |
| Tokenisers.Tokeniser.Collect | src/tokeniser.rs:231-248 | Returns what `Collected` describes from the old position and leaves the tokeniser where that ends. |
| Tokenisers.ExampleTwelvePlusThree | src/tokeniser.rs:208-223 | `12 + 3` lexes to `12`@1, `+`@4, `3`@6, `End`@8. |
| Tokenisers.ExampleInvalidByte | src/tokeniser.rs:236-239 | `1 @ 2` makes `collect` fail on `Invalid('@')` at column 3. |
| ExprParser.PopCount | src/expr_parser.rs:8-29 | How many entries `add_operator` pops: a top run of entries that are not `(` and bind at least as tightly as the operator, ending at an entry that does neither. |
| ExprParser.PopCountUnique | src/expr_parser.rs:8-29 | That run is the only one with those properties. |
| ExprParser.Pushed | src/expr_parser.rs:7-34 | The effect of `add_operator`: `op` ends on top, the existing output is a prefix of the new one, and the total length of output and stack grows by exactly one. |
| ExprParser.PushedConserves | src/expr_parser.rs:7-34 | No token is lost or invented: as multisets, the new output and stack hold exactly the old output and stack plus `op`. |
| ExprParser.PushedMeaning | src/expr_parser.rs:7-34 | `add_operator` leaves `op` on top. What it takes off is a run of non-`(` entries with precedence `>=` `op`'s, stopped by a `(` or a lower precedence. Those entries are appended to the output in pop order. The rest of the stack and the existing output are unchanged. |
| ExprParser.PushedKeepsBarrier | src/expr_parser.rs:12-15 | The stack up to and including any `(` is unchanged. |
| ExprParser.AddOperator | src/expr_parser.rs:7-34 | The loop's resulting stack and output are those `PushedMeaning` describes. |
| ExprParser.Closed | src/expr_parser.rs:44-56 | The effect of a `)`: `None` exactly when no `(` is on the stack. Otherwise the existing output is a prefix of the new one, and the total length of output and stack shrinks by exactly one. |
| ExprParser.ClosedConserves | src/expr_parser.rs:44-56 | The one token a `)` removes is a `(` of the stack: as multisets, the new output and stack plus that `(` are exactly the old output and stack. |
| ExprParser.ClosedMeaning | src/expr_parser.rs:44-56 | A `)` fails exactly when no `(` is on the stack. Otherwise it removes the topmost `(` and moves exactly what stood above it to the output in pop order. Nothing below changes. |
| ExprParser.ClosePar | src/expr_parser.rs:44-56 | The `)` loop finds a `(` exactly when `Closed` succeeds, and then leaves `Closed`'s yard. |
| ExprParser.Drain | src/expr_parser.rs:61-63 | The final loop appends the whole stack to the output in pop order. |
| ExprParser.Step | src/expr_parser.rs:40-58 | One turn of the `'outer` loop keeps the stack comparable (only `(` and tokens with a precedence), and fails only on a `)`, reporting that token. |
| ExprParser.Shunt | src/expr_parser.rs:40-59 | The whole `'outer` loop keeps the stack comparable, and fails only with a `)` of its input. |
| ExprParser.ShuntAt | src/expr_parser.rs:40-59 | The loop from token `i` is one `Step` on that token, then the loop from `i + 1`. |
| ExprParser.Rpn | src/expr_parser.rs:36-66 | What `to_rpn` returns: it fails only with a `)` of the input. |
| ExprParser.ToRpn | src/expr_parser.rs:36-66 | Returns `Rpn(expr)`. The mismatched-paren panic is an `Err` carrying the offending `)`. |
| ExprParser.StepKept | src/expr_parser.rs:40-58 | A turn keeps the operand order and the token counts (`Kept`), and fails exactly on a `)` with no `(` open. |
| ExprParser.ShuntKept | src/expr_parser.rs:40-59 | A successful loop keeps `Kept` from the empty yard to the final one. |
| ExprParser.OpStackFacts | src/expr_parser.rs:61-63 | Draining a stack of `(` and operators adds no operand and no `)`. It keeps the non-paren tokens and the number of `(`. |
| ExprParser.RpnKeeps | src/expr_parser.rs:36-66 | A successful `to_rpn` keeps the input's operands in order and every non-paren token as often as it occurs (as multisets). It emits no `)`, and as many `(` as were left unclosed. |
| ExprParser.NonParensMembers | src/expr_parser.rs:36-66 | The tokens kept when parens are dropped are exactly the non-paren tokens. |
| ExprParser.RpnFromInput | src/expr_parser.rs:36-66 | Every token `to_rpn` emits is a `(` it left open or a token of its input. |
| ExprParser.RpnBalancedNoParens | src/expr_parser.rs:44-63 | With as many `(` as `)`, a successful `to_rpn` emits no paren. |
| ExprParser.ShuntFails | src/expr_parser.rs:44-56 | From any yard, the loop fails on every input with a prefix that closes more parens than are open, and only there. The failing token is at the first such prefix. |
| ExprParser.RpnFails | src/expr_parser.rs:44-56 | `to_rpn` panics exactly when some prefix has more `)` than `(`. The `)` it reports is the first one with no `(` to close. |
| ExprParser.TighterRightShunt | src/expr_parser.rs:19-23 | The loop on `1 + 2 * 3` ends with output `1 2 3` and stack `+ *`. |
| ExprParser.ExampleTighterRight | src/expr_parser.rs:19-23 | `1 + 2 * 3` gives `1 2 3 * +`. |
| ExprParser.LeftAssocShunt | src/expr_parser.rs:19-27 | The loop on `8 - 3 - 2` ends with output `8 3 - 2` and stack `-`. |
| ExprParser.ExampleLeftAssoc | src/expr_parser.rs:19-27 | `8 - 3 - 2` gives `8 3 - 2 -`, because the comparison is `>=`. |
| ExprParser.ParensShunt | src/expr_parser.rs:44-53 | The loop on `(1 + 2) * 3` ends with output `1 2 + 3` and stack `*`. |
| ExprParser.ExampleParens | src/expr_parser.rs:44-53 | `(1 + 2) * 3` gives `1 2 + 3 *`. |
| ExprParser.EmptyParensShunt | src/expr_parser.rs:44-53 | The loop on `( + )` ends with output `+` and an empty stack. |
| ExprParser.ExampleEmptyParens | src/expr_parser.rs:44-53 | `( + )` gives `+`. |
| ExprParser.ExampleStrayRPar | src/expr_parser.rs:54-55 | `) + (` panics on its first token. |
| Sema.SemaInfix | src/sema.rs:13-83 | Wherever it does not panic (`InfixPanics`), it returns true exactly when the counts of `(` and `)` agree and every token satisfies the neighbour rule (`InfixOk`). |
| Sema.InfixPanicExample | src/sema.rs:56-58 | The identifier with the single byte 0xFF followed by a number makes `sema_infix` panic in `value`. |
| Sema.InfixShapeIff | src/sema.rs:45-80 | On operands and operators alone, the neighbour rule holds exactly on the grammar `[operand] (operator operand)*`. |
| Sema.InfixFlat | src/sema.rs:13-83 | On paren-free input of operands and operators, what `sema_infix` accepts (`InfixOk`) is exactly that grammar, including the empty sequence. |
| Sema.SemaRpn | src/sema.rs:94-140 | Wherever it does not panic (`RpnPanics`), it returns true exactly on `RpnOk`: no paren, no operator run on fewer than two values, and depth 1 at the end. The loop invariant is that the counter equals operands minus operators so far. |
| Sema.RpnPanicExamples | src/sema.rs:111-125 | `End`, `Invalid` and `1 End` make `sema_rpn` panic in `to_string`. `1 1 End` runs `End` as a binary operator and is accepted. |
| Sema.NoPanicOnLexed | src/sema.rs:56-58 | Neither check panics on tokens without `Invalid` and `End` whose identifiers are ASCII, which is what `collect` yields from an ASCII buffer. |
| Sema.DepthAppend | src/sema.rs:97-132 | The depth after a concatenation is the sum of the depths. |
| Sema.FitsCons | src/sema.rs:97-132 | The no-paren, no-underflow condition taken one token at a time. |
| Sema.ReduceRuns | src/sema.rs:97-132 | A stack of expression trees (`Reduce`, which builds a tree where `sema_rpn` pushes a dummy) runs without failure exactly when the counter does. |
| Sema.ReduceDepth | src/sema.rs:112-129 | The tree stack ends exactly as deep as the counter. |
| Sema.ReduceResult | src/sema.rs:97-132 | The trees stay well formed, and their postfix forms spell out what was read. |
| Sema.ReducePostfix | src/sema.rs:85-93 | Reading a well-formed tree's postfix form pushes that tree. |
| Sema.RpnTree | src/sema.rs:85-140 | Every sequence `sema_rpn` accepts is the postfix form of a well-formed tree. |
| Sema.TreeRpnOk | src/sema.rs:85-140 | The postfix form of every well-formed tree is accepted. |
| Sema.RpnMeaning | src/sema.rs:85-140 | What `sema_rpn` accepts (`RpnOk`) is exactly the postfix forms of well-formed expression trees (operands at the leaves, tokens run as operators at the nodes). |
| Sema.ExamplesRule1 | src/sema.rs:4-5 | `9 9 +`, `1 + 2 3 -` and `6 7 + 8 9` are rejected by `sema_infix`. |
| Sema.ExamplesRule2 | src/sema.rs:6-7 | `1 + - 9`, `2 - - 9` and `1 * & 8` are rejected. |
| Sema.ExamplesRule3 | src/sema.rs:8-9 | `((((1 + 2))` and `1 + 3 (( 8 + 9)` are rejected. |
| Sema.ExamplesInfix | src/sema.rs:49-60 | The empty sequence and `1 + 2 * 3` are accepted. `(1 + 2) * 3` is rejected, because an operand may not be followed by `)`. |
| Sema.ExamplesRpn | src/sema.rs:134-139 | `1 2 +` is accepted. `1 2`, `+` and the empty sequence are rejected. |
| Pipeline.StrayRParPasses | src/expr_parser.rs:54-55 | `) + (` passes `sema_infix`, yet `to_rpn` panics on it. |
| Pipeline.ChecksDoNotPanic | src/sema.rs:13-140 | On what `collect` returns, `sema_infix` does not panic, and on what `to_rpn` makes of that, `sema_rpn` does not panic: their preconditions hold in the front end. |
| Pipeline.EmptyParensInfix | src/sema.rs:13-83 | `( + )` meets both rules of `sema_infix`. |
| Pipeline.EmptyParensPass | src/sema.rs:134-137 | `( + )` passes `sema_infix`, and `to_rpn` turns it into `+`, which `sema_rpn` rejects. |

## Left out

- Tokenisers.Tokeniser.GetNum: `n` is an unbounded integer. The `i64` overflow of a long digit run (a panic in debug builds, wrap-around in release) is not modelled.
- Tokenisers.Tokeniser.Tokenise: lines and columns are unbounded naturals. The `u32` overflow of the counters is not modelled.
- Tokenisers.Tokeniser.constructor: the `unwrap` of `ROBuffer::new` is the precondition that the input is ASCII.
- ROBuffers.ROBuffer.Rewind: the panic at offset 0 is the precondition `offset > 0`.
- Tokens.Precedence: the `unreachable!()` arm is the precondition `HasPrecedence`, so the parser methods require their input to hold no `Invalid` or `End` token (`Lexed`). That is what `collect` guarantees on success.
- ExprParser.ToRpn: the mismatched-paren `panic!` is an `Err` carrying the `)` it reports.
- ExprParser.AddOperator: the Rust loop pops the top and pushes it back when it is a `(` or binds less tightly. The model reads the top in place, which gives the same stacks.
- ExprParser.ClosePar: the `)` arm of `to_rpn` is a method of its own. Its `found` result replaces `continue 'outer`.
- ExprParser.Drain: the final loop of `to_rpn` is a method of its own.
- Tokenisers.Tokeniser.LexIdent: the letter arm of `tokenise` is a method of its own, and so is the digit arm (`LexNum`).
- Tokenisers.Tokeniser.Collect: on failure it returns the `Invalid` token that the source prints before returning `Err(())`.
- Sema.SemaInfix: `lastpar` and the choice of `(` or `)` feed only the diagnostic and are not kept.
- Sema.SemaRpn: `vstack` holds only the dummy `0u32`, so it is modelled by its length.
- Sema.SemaInfix: the panic of `value` (src/sema.rs:58, src/tokeniser.rs:73) on an identifier that is not UTF-8, reached when that identifier is the first token to break the neighbour rule, is the precondition `!InfixPanics`. `Utf8` follows section 4 of RFC 3629, which is what `String::from_utf8` accepts. `Pipeline.ChecksDoNotPanic` shows that this precondition holds on what `collect` returns.
- Sema.SemaRpn: the panic of `to_string` (src/sema.rs:117 and 123, src/tokeniser.rs:90) on an `End` or `Invalid` token met with fewer than two values is the precondition `!RpnPanics`. With two values or more, such a token is run as a binary operator, as in the source. `Pipeline.ChecksDoNotPanic` shows that this precondition holds on what `to_rpn` makes of `collect`'s output.
- A token after an identifier or number that ends the input is placed one column further on than the run's length suggests (no rewind, then the `+ 1`). Only `End` sees this. The model keeps it (`ColumnAfterGet`).
- The worked examples take their tokens as parameters with any line and column. Only the kinds are fixed.
- All `println!` diagnostics are left out. The model keeps only the boolean or `Result` outcome.
- `Token::value` and `Token::to_string` (src/tokeniser.rs:70-92) build diagnostic text only, and are not modelled as strings. Where they panic is modelled, see the two `Sema` lines above.
- `Token::new`, `col`, `line` and `kind` are the constructor and fields of the `Token` datatype.
- src/main.rs is not part of this model: it is argument handling, process exit and printing, plus an earlier prototype of the buffer and number reader.
- The code generator is not part of this model.
