# CREPLrs core in Dafny

CREPLrs is a REPL that calls native functions in shared libraries. Each
input line is split into tokens. The first token names a C function and
the rest are its arguments. The arguments are boxed, a libffi call
interface is prepared, and the function is called. Beside the call loop,
the repository has:

- an expression language (a precedence-climbing parser and an evaluator)
  for `:const` and `:var` definitions;
- a registry of opened shared libraries.

The model follows the source file by file, one module each:

| module | source | form |
|---|---|---|
| `Lex` | src/lex.rs | token classes as predicates; the `lex` loop as a method proved equal to a function of the raw matches |
| `Parser`, `ParserProps` | src/parser.rs | the cursor-holding `Parser` class; its methods proved equal to `Primary`/`ExprAt`, with the grammar's properties proved of those functions |
| `Evaluator`, `EvalProps` | src/eval.rs | the `Env` class with its two maps; `Eval` as a recursive function with its properties |
| `Vars` | src/vars.rs | the global environment as an explicit `Env`; `const_eval`/`var_eval` as one method |
| `Registry` | src/registry.rs | the library table as a class holding a map |
| `Cffi` | src/cffi.rs | type tags, box accounting in an arena of cells, `CallInterface` and the `ffi_call!` macro |
| `Session` | src/main.rs | the per-line loop: checks, tag inference, boxing, preparation and call |

Three helper modules support the others:

- `Wrappers` holds `Option`, `Result` and `Failure`. A `Failure` is either
  a reported `Error` or a `Panic`.
- `StdText` models the Rust standard library behaviour the code relies on:
  UTF-8 bytes, `CString::new`, `i64::from_str_radix` and decimal
  formatting.
- `DynLoad` models `DynLib::open` and `DlSym::new` (src/dlfcn.rs) over a
  `dlopen` oracle. A library is modelled as the set of symbols it resolves.

Some parts of the system are external to the model:

- The logos matching engine is an oracle. It supplies the raw
  `(Option<Token>, slice)` matches. The model states as predicates which
  slices each token class accepts.
- `f64` values are 64-bit patterns. Their arithmetic, comparison and
  parsing are oracle functions passed in as parameters (`FloatOps`,
  `F64Parser`).
- `ffi_prep_cif` is a status function passed in as a parameter.
- `ffi_call` is represented by the `Invocation` record it receives.
- Heap boxes are cells of an arena, and raw pointers are cell indices.
  `Deref` reads an argument back through them, including the
  `char **` indirection used for strings.

Panics are modelled as values, not as preconditions. These include:

- `unwrap` on an error;
- i64 overflow, as in a debug build;
- the `capacity overflow` of `repeat` with a negative count;
- the `ffi_call!` fallback.

A run of the REPL (`Session.Repl`) therefore ends with the exit the
program would have: a normal end, the error `?` returns from `main`, or a
panic.

Where the code and its documentation disagree, the model follows the code:

- `Expr` has a `CChar` variant. The evaluator matches `Expr::CChar` at
  src/eval.rs:59, but the enum at src/parser.rs:4-11 lacks the variant, so
  the model adds it.
- `!=` is modelled as written at src/eval.rs:166-175. For two values of
  the same kind it gives the result of `==`, and for values of different
  kinds it gives `true` (`EvalProps.NeAsWritten`).
- Integer arguments in the call loop go through decimal `parse::<i64>`
  (src/main.rs:74). The expression parser accepts `0x`, `0b` and octal
  prefixes, but the call loop does not: `0x2A` panics there
  (`Session.HexArgumentPanics`).
- A signed integer literal such as `-017` is lexed as one `CInt`. It then
  fails every prefix test and is decoded as decimal (-17).
- `trim_matches('"')` also removes an escaped quote at the end of a string
  literal: `"a\""` becomes `a\` (`Lex.CStringLosesEscapedFinalQuote`).
- The argument type vector of a line gets one entry per trailing token,
  but the pointer vector gets one entry per literal token only. An
  operator among the arguments therefore makes the call interface
  describe more arguments than are passed
  (`Session.OperatorArgumentMisaligns`).

## Model

| member | source | states |
|---|---|---|
| StdText.Utf8Char | src/main.rs:84 | one character is one to four bytes; exactly the ASCII characters are one byte equal to their code, and only NUL has a zero byte |
| StdText.Utf8 | src/main.rs:84 | a string's bytes: at least one per character, a zero byte exactly when the string holds NUL, and the first byte is the first character's lead byte (what `as_bytes()[0]` reads) |
| StdText.NulOffset | src/dlfcn.rs:53-54 | the position a NUL error reports is the first zero byte of the UTF-8 bytes |
| StdText.CStringNew | src/cffi.rs:231 | `CString::new` fails exactly when the text holds a NUL; otherwise it gives the UTF-8 bytes followed by one terminating zero, with no zero before it |
| StdText.DigitValue | src/parser.rs:62-70 | a digit's value is below 36, and it is below 10 exactly for `0`-`9` |
| StdText.FromStrRadix | src/parser.rs:62-70 | `from_str_radix` gives only values within i64, and never for an empty text or a lone sign |
| StdText.DigitsRoundTrip | src/parser.rs:62-70 | the digits of any natural number in any radix from 2 to 36 read back as that number |
| StdText.DecimalText | src/cffi.rs:300-303 | decimal formatting starts with `-` exactly for negative numbers and has no leading zero except for 0 itself |
| StdText.UnsignedRoundTrip | src/parser.rs:62-67 | the digits of any non-negative i64 in any radix from 2 to 36, with no sign, parse back to it |
| StdText.DecimalRoundTrip | src/main.rs:74 | every i64 written in decimal parses back to itself |
| Lex.OptSign | src/lex.rs:17 | `[-+]?` removes at most one leading character and leaves a suffix |
| Lex.ExponentStart | src/lex.rs:14 | the position of the first `e`/`E`, or the length when there is none |
| Lex.PointIndex | src/lex.rs:14 | the position of the first `.`, or the length when there is none |
| Lex.TrimStartQuotes | src/lex.rs:72 | the result is a suffix, all that was removed are quotes, and the result does not start with a quote |
| Lex.TrimEndQuotes | src/lex.rs:72 | the result is a prefix, all that was removed are quotes, and the result does not end with a quote |
| Lex.Lex | src/lex.rs:62-84 | the loop's output vector equals `LexSpec` of the raw matches, given that every char-literal slice has at least two characters |
| Lex.LexAppend | src/lex.rs:65-83 | lexing a concatenation of match streams concatenates the outputs: order follows input order and each match is handled on its own |
| Lex.LexSkipsUnrecognised | src/lex.rs:67-69 | an unrecognised match contributes nothing, and lexing goes on with the rest |
| Lex.LexSkipsWhitespace | src/lex.rs:70 | a whitespace match contributes nothing, and lexing goes on with the rest |
| Lex.LexEntries | src/lex.rs:70-80 | when each slice is in its token's class, no entry is whitespace, a char entry has exactly one character, a string entry neither starts nor ends with a quote, and any other entry's lexeme is in its class |
| Lex.EmitOk | src/lex.rs:70-80 | the entries of one match in its class satisfy the same conditions |
| Lex.CStringLexemeIsBody | src/lex.rs:71-73 | the lexeme of a string literal whose last inner character is not a quote is exactly the text between the quotes |
| Lex.CStringLosesEscapedFinalQuote | src/lex.rs:72 | `"a\""` is a string literal, but its lexeme is `a\` |
| Lex.EscapedQuoteIsCStringLit | src/lex.rs:11 | `"a\""` is in the string-literal class |
| Lex.TrimEscapedQuote | src/lex.rs:72 | trimming the end quotes of `a\""` leaves `a\` |
| Lex.CCharLexeme | src/lex.rs:74-77 | a char literal's lexeme is exactly the one character between its quotes |
| Lex.IdIsNotFileName | src/lex.rs:5-9 | no text is both an identifier and a file name |
| Lex.FloatHasPointOrExponent | src/lex.rs:14 | every float literal has a decimal point or an exponent |
| Lex.CIntClassExamples | src/lex.rs:17 | `0x2A`, `017` and `-42` are integer literals and `08` is not |
| Parser.DecodeCInt | src/parser.rs:61-74 | a decoded integer literal is within i64; its radix per prefix and its read-back are the `ParserProps` lemmas below |
| Parser.RadixSplit | src/parser.rs:62-70 | the prefix test picks radix 2, 8, 10 or 16 |
| ParserProps.RadixByPrefix | src/parser.rs:62-70 | `0x`/`0X` reads the rest as hexadecimal, `0b`/`0B` as binary, any other two-or-more-character text starting with `0` reads the rest as octal, and everything else is decimal |
| ParserProps.SplitPrefixed | src/parser.rs:62-67 | each prefix followed by any digits is stripped to exactly those digits with its radix; `0` is octal when a digit 0-7 follows |
| ParserProps.HexLiteralReadsBack | src/parser.rs:62-63 | every non-negative i64 written in hexadecimal after `0x` or `0X` decodes to itself |
| ParserProps.BinaryLiteralReadsBack | src/parser.rs:64-65 | every non-negative i64 written in binary after `0b` or `0B` decodes to itself |
| ParserProps.OctalLiteralReadsBack | src/parser.rs:66-67 | every non-negative i64 written in octal after `0` decodes to itself |
| ParserProps.OctalLead | src/parser.rs:66-67 | octal digits never start with a prefix letter, so a `0` before them selects octal |
| ParserProps.DigitsBelowRadix | src/parser.rs:62-70 | every character of digits that have a value in a radix is a digit below that radix |
| ParserProps.IntegerToken | src/parser.rs:61-74 | an integer token is always consumed: it becomes `Integer` of its decoded value, or the parse fails with `Invalid integer: ` followed by its text |
| Parser.Primary | src/parser.rs:51-103 | the cursor never moves back or past the end, and a parsed primary consumes at least one token |
| Parser.ExprAt | src/parser.rs:105-137 | the same cursor bounds; a parsed expression stops at the end of input, at a non-operator, or at an operator looser than the minimum precedence |
| Parser.Climb | src/parser.rs:108-134 | the operator loop keeps the cursor in bounds and ends at the same stopping point |
| Parser.Parser.constructor | src/parser.rs:39-41 | the parser holds the tokens with the cursor at 0 |
| Parser.Parser.Peek | src/parser.rs:43-45 | a token is returned exactly while the cursor is in range, and it is the token at the cursor |
| Parser.Parser.Advance | src/parser.rs:47-49 | the cursor moves forward by one |
| Parser.Parser.ParsePrimary | src/parser.rs:51-103 | the result and the final cursor are those `Primary` gives from the starting cursor |
| Parser.Parser.ParseExpr | src/parser.rs:105-137 | the result and the final cursor are those `ExprAt` gives from the starting cursor |
| Parser.Parser.Parse | src/parser.rs:139-141 | parsing is `ExprAt` from the lowest precedence |
| ParserProps.DecodePrefixedExamples | src/parser.rs:62-65 | `0x2A` decodes to 42 and `0b101` to 5 |
| ParserProps.DecodeOctalExamples | src/parser.rs:66-67 | `017` decodes to 15 and `08` fails |
| ParserProps.DecodeSignedExamples | src/parser.rs:68-70 | a signed literal takes the decimal branch: `-017` decodes to -17 and `-0x2A` fails |
| ParserProps.DecodeDecimalText | src/parser.rs:61-74 | every i64 written in decimal decodes to itself |
| ParserProps.NamesBecomeVariables | src/parser.rs:81-82 | an `Id` or `CString` token parses as the variable of that name and consumes one token |
| ParserProps.UnexpectedToken | src/parser.rs:101 | any other token in primary position fails with `Unexpected token: <token>` after consuming it |
| ParserProps.ThreeOperands | src/parser.rs:109-133 | in `a o1 b o2 c` the tighter operator groups first, and at equal precedence the left one does |
| ParserProps.UnaryBindsTighter | src/parser.rs:93-96 | `-a * b` parses as `(-a) * b` |
| ParserProps.MissingParen | src/parser.rs:83-92 | a parenthesis not closed after the inner expression fails with `Expected ')'` |
| ParserProps.TrailingTokensIgnored | src/parser.rs:139-141 | parsing stops at the first token that does not continue the expression; it is neither consumed nor an error |
| ParserProps.OpToken | src/parser.rs:109-121 | every binary operator has a token that the operator table maps to it, with its precedence |
| ParserProps.ParenthesisedBinary | src/parser.rs:83-92 | `( l op r )` with primaries `l` and `r` parses as `Binary(l, op, r)` and consumes the closing parenthesis |
| ParserProps.PrefixOperator | src/parser.rs:93-100 | `-` or `!` wraps the next primary in `Neg` or `Not` |
| ParserProps.DecimalLiteral | src/parser.rs:61-74 | a decimal integer token parses as that integer |
| ParserProps.PrimaryReadsUnparse | src/parser.rs:51-103 | the fully parenthesised token rendering of any printable expression, wherever it occurs, is read back by `parse_primary` as that expression, consuming exactly its tokens |
| ParserProps.ParseUnparse | src/parser.rs:139-141 | parsing the rendering of any printable expression yields that expression and consumes every token |
| Evaluator.Env.constructor | src/eval.rs:21-26 | both maps are empty |
| Evaluator.Env.SetVar | src/eval.rs:31-37 | the new bindings are `BindVar` of the old ones, a refusal changes nothing, and the two key sets stay disjoint |
| Evaluator.Env.SetConst | src/eval.rs:39-45 | the new bindings are `BindConst` of the old ones, a refusal changes nothing, and the two key sets stay disjoint |
| Evaluator.Env.Get | src/eval.rs:47-52 | a lookup returns the constant if there is one, else the variable, else nothing |
| Evaluator.BindVarKeepsDisjoint | src/eval.rs:31-37 | binding a variable keeps the constant and variable names disjoint |
| Evaluator.BindConstKeepsDisjoint | src/eval.rs:39-45 | binding a constant keeps the constant and variable names disjoint |
| Evaluator.BindVarThenLookup | src/eval.rs:31-37 | `set_var` fails exactly for a constant's name; otherwise the name reads the new value, the constants are unchanged and every other name reads as before |
| Evaluator.BindConstThenLookup | src/eval.rs:39-45 | `set_const` fails exactly for a bound name; otherwise the name reads the new value, the variables are unchanged and every other name reads as before |
| Evaluator.ConstantsArePermanent | src/eval.rs:31-45 | no successful binding changes or hides an existing constant |
| EvalProps.EqFalseAcrossKinds | src/eval.rs:156-165 | `==` on values of different kinds, or on two chars, is `false` |
| EvalProps.EqIsEquality | src/eval.rs:156-165 | `==` on two integers, booleans or strings is value equality |
| EvalProps.NeAsWritten | src/eval.rs:166-175 | `!=` on same-kind non-char values equals `==`, is `true` otherwise, and `1 != 1` is `true` |
| EvalProps.NotOfText | src/eval.rs:72-83 | `!v` is the negated truthiness; strings and chars count as false, so `!` of them is `true`, and `!i` is `i == 0` |
| EvalProps.ComparisonKinds | src/eval.rs:176-195 | `<`, `<=`, `>`, `>=` succeed exactly on two integers or two floats, give a boolean, and otherwise fail with `Cannot compare these types` |
| EvalProps.IntegerArithmetic | src/eval.rs:91-126 | `+`, `-`, `*` on integers give the exact result when it fits in i64 and an overflow panic otherwise |
| EvalProps.IntegerDivision | src/eval.rs:138-146 | integer `/` fails with `Division by zero` exactly for a zero divisor, and otherwise gives a float |
| EvalProps.ConcatenatesText | src/eval.rs:96-115 | `+` on strings and chars gives the string of their concatenated text |
| EvalProps.ReplicateAt | src/eval.rs:130-135 | character `k` of a string repeated is character `k mod len` of the string |
| EvalProps.RepeatContents | src/eval.rs:130-135 | a string times a non-negative count whose byte size fits is `count * len` characters, each the matching character of the string |
| EvalProps.RepeatNegative | src/eval.rs:130-135 | a negative count becomes a huge `usize`: the empty string stays empty and any other string panics with `capacity overflow` |
| EvalProps.EvalStaysInRange | src/eval.rs:55-199 | with literals and bindings within i64, every integer an evaluation yields is within i64 |
| EvalProps.EvalReadsOnlyFreeVars | src/eval.rs:61-63 | evaluation depends only on the bindings of the expression's free variables |
| EvalProps.UndefinedVariable | src/eval.rs:61-63 | an unbound name fails with `Undefined variable: '<name>'`, also under a unary operator |
| Vars.NewGlobalEnv | src/vars.rs:9-20 | the lazily built global environment is a fresh `Env` holding `InitialBindings` (its four `unwrap`s never panic) |
| Vars.InitialEnvironment | src/vars.rs:9-20 | no variables; the constants are exactly `PI`, `E`, `TRUE` and `FALSE`; `PI` is the f64 nearest to pi and `TRUE` is `true` |
| Vars.DefineName | src/vars.rs:22-65 | the message and the new environment are those `Define` gives for the old environment |
| Vars.FailureLeavesEnvironment | src/vars.rs:22-43 | any failure of `:const` or `:var` leaves the environment unchanged |
| Vars.SuccessBindsOldValue | src/vars.rs:33-42 | on success, the first token is a name and the rest parses; the name reads the value of the expression evaluated before the binding, every other name reads as before, and the message is `Constant '<name>' defined` or `Variable '<name>' set` |
| Vars.DefineEarlyErrors | src/vars.rs:22-65 | no tokens gives the usage message of `:const` or `:var`, a first token that is not an identifier gives the name message, and a parse or evaluation failure is returned as it is; each leaves the environment as it was |
| Vars.RebindingRefused | src/vars.rs:38-40 | `:const` of a bound name and `:var` of a constant fail with the binding's message and change nothing |
| Vars.VarExample | src/vars.rs:55-64 | `:var x 1 + 2` reports `Variable 'x' set` and binds `x` to 3 |
| Vars.SelfReferenceIsUndefined | src/vars.rs:58-62 | `:var x x + 1` in a fresh environment fails with `Undefined variable: 'x'` |
| DynLoad.Open | src/dlfcn.rs:52-64 | opening panics exactly for a name holding NUL, and succeeds exactly when `dlopen` gives a handle, which it returns |
| DynLoad.LookupSym | src/dlfcn.rs:83-91 | a symbol is found exactly when the library exports it |
| Registry.Registry.constructor | src/registry.rs:13-23 | the table holds exactly `libc.so.6` |
| Registry.FirstUse | src/registry.rs:13-23 | first use opens `libc.so.6` into a table holding exactly it, and panics when it cannot be opened |
| Registry.Registry.AddLib | src/registry.rs:25-35 | a successful open inserts or replaces the entry under the name and touches no other key; a failed one reports its error and changes nothing |
| Registry.Registry.DelLib | src/registry.rs:37-41 | the name is removed; it was present exactly when no `not linked` error is reported; no other key changes |
| Registry.Registry.GetLibs | src/registry.rs:43-49 | lists each loaded name exactly once and changes nothing |
| Registry.Registry.GetSym | src/registry.rs:51-72 | finds a symbol exactly when some loaded library exports it, and the symbol is that library's; otherwise every loaded name was searched, each once |
| Cffi.TagMatchesLayout | src/cffi.rs:121-185 | each Rust type's tag is exactly the libffi type of the same size and kind |
| Cffi.MarshalReadsBack | src/cffi.rs:202-264 | `into_ffi` panics only for text holding NUL; otherwise it adds two boxes for text and one for a number, returns the last box's address, and that address reads back as the argument |
| Cffi.NumberReadsBack | src/cffi.rs:202-227 | an `i8`, `i64` or `f64` adds one box holding the value and returns its address |
| Cffi.TextReadsBack | src/cffi.rs:229-255 | a string adds the NUL-terminated bytes and then a slot pointing at them, returns the slot's address, and reads back as the string's bytes |
| Cffi.DerefStable | src/cffi.rs:342-347 | boxes added later do not change what an earlier address reads |
| Cffi.ArgBoxes.constructor | src/cffi.rs:342 | the box vector starts empty |
| Cffi.ArgBoxes.Push | src/cffi.rs:204-207 | a box is appended and its address returned |
| Cffi.ArgBoxes.IntoFfi | src/cffi.rs:202-264 | the boxes `Marshal` gives are appended and its address returned, or its panic |
| Cffi.ArgBoxes.PushText | src/cffi.rs:229-255 | the string's two boxes are appended and the slot's address returned; a panic adds nothing |
| Cffi.MarshalAllReadsBack | src/cffi.rs:336-348 | `call_args` panics exactly when some text argument holds NUL; otherwise there is one address per argument, in order, and each reads back as its argument from the final boxes |
| Cffi.MarshalFailureStays | src/cffi.rs:343-346 | once an argument panics, later arguments change nothing |
| Cffi.CallInterface.constructor | src/cffi.rs:306-312 | the interface keeps the argument types, return type and count |
| Cffi.CallInterface.Call | src/cffi.rs:315-335 | `ffi_call` gets the function, the addresses and the prepared types, and a null result address exactly when the return type is `Void` |
| Cffi.CallInterface.CallArgs | src/cffi.rs:336-348 | the call gets exactly the addresses `call_args` boxing gives, or the boxing's panic; it goes through this interface's argument count, argument types and return type, with a result exactly when the return type is not void |
| Cffi.NewCallInterface | src/cffi.rs:270-313 | preparation passes the number of argument types and succeeds exactly on `FFI_OK`; any other status is the error naming that status |
| Cffi.MacroAgreesWithCallArgs | src/cffi.rs:351-401 | for `&str`, `String`, `i64` and `f64` arguments, `ffi_call!` boxes exactly as `call_args` does |
| Cffi.UnsupportedPanics | src/cffi.rs:388-391 | an argument of any other type panics with `Unsupported argument type in ffi_call!` |
| Cffi.FfiCallMacro | src/cffi.rs:351-401 | the expanded macro calls with the addresses `MacroAll` gives, or ends in its panic; it goes through the given interface's argument count, argument types and return type, with a result exactly when the return type is not void |
| Session.AsI8 | src/main.rs:84 | `as i8` gives the value in -128..127 that is congruent to the byte modulo 256, and the byte itself below 128 |
| Session.ArgOf | src/main.rs:63-90 | exactly the string, integer, float and char tokens give an argument |
| Session.BoxStepIsIntoFfi | src/main.rs:63-90 | the loop boxes each literal as `into_ffi` boxes its converted value: string, `i64`, `f64` or `i8` |
| Session.ProcessLine | src/main.rs:33-93 | the loop body on a line gives `LineSpec` of the line |
| Session.CallLine | src/main.rs:52-93 | boxing, preparation and call give `CallSpec` |
| Session.Prepare | src/main.rs:92-93 | the `()` interface is prepared and called, or the preparation error is returned |
| Session.BoxArguments | src/main.rs:55-91 | the boxes and addresses are `MarshalLine` of the trailing tokens, and the types are one tag per token |
| Session.BoxToken | src/main.rs:63-90 | one token's boxes are appended, and its address or panic returned |
| Session.BoxText | src/main.rs:64-72 | a string token appends its NUL-terminated bytes and a slot, and passes the slot's address |
| Session.BoxInt | src/main.rs:73-77 | an integer token is parsed as decimal `i64`; a failure is the `unwrap` panic, otherwise one box is added |
| Session.BoxFloat | src/main.rs:78-82 | a float token is parsed as `f64`; a failure is the `unwrap` panic, otherwise one box is added |
| Session.BoxChar | src/main.rs:83-88 | a char token adds one box holding its first byte as `i8` |
| Session.Repl | src/main.rs:26-95 | a failure to open `libraylib.so` panics before any line; otherwise the run is `Stop` of the lines' outcomes |
| Session.RunLines | src/main.rs:32-95 | the loop's outcomes and exit are `Stop` of the outcomes of all lines |
| Session.StopDescribed | src/main.rs:32-95 | the loop handles a prefix of the lines and only the last one may end the program; it ends with that line's exit, otherwise it handles every line and exits normally |
| Session.RunIsDetermined | src/main.rs:32-95 | that description admits exactly one run |
| Session.TagsOnePerToken | src/main.rs:55-62 | one type per trailing token, in order: string to `Pointer`, integer to `SInt64`, float to `Double`, char to `SInt8`, anything else to `Void` |
| Session.MarshalLineConverts | src/main.rs:63-90 | boxing a line succeeds only when every literal converts |
| Session.LineMarshalsLikeCallArgs | src/main.rs:63-90 | when every literal converts, the line is boxed as `call_args` boxes the literals' values, with one address per literal token |
| Session.LiteralCountBound | src/main.rs:63-90 | there are fewer literal tokens than tokens exactly when some token is not a literal |
| Session.CalledLine | src/main.rs:52-93 | a called line calls the named function through a `void` interface with one type per trailing token, and one address per literal that reads back as that literal's value |
| Session.OperatorArgumentMisaligns | src/main.rs:55-90 | a non-literal argument gets a `Void` type and no address, so fewer addresses are passed than types are declared |
| Session.OneArgumentPanics | src/main.rs:63-90 | a line with one literal argument whose conversion panics ends in that panic |
| Session.OneArgumentCalled | src/main.rs:63-93 | a line with one literal argument that converts calls the function with that argument's address, once preparation succeeds |
| Session.StringArgumentIsDoublePointer | src/main.rs:64-72 | a string argument is passed as the address of a slot pointing at its bytes, that is, as a `char **` |
| Session.HexArgumentPanics | src/main.rs:74 | `0x2A`, which the parser reads as 42, panics as an argument with `InvalidDigit` |
| Session.IntArgumentPanics | src/main.rs:73-77 | an integer argument that `parse::<i64>` rejects ends the line in that panic |
| Session.HexTextIsInvalidDigit | src/main.rs:74 | `"0x2A".parse::<i64>()` fails with kind `InvalidDigit` |
| Session.CharArgumentIsFirstByte | src/main.rs:83-88 | `'é'` is passed as its first UTF-8 byte as an `i8`, -61 |
| Session.RejectedBeforeLookup | src/main.rs:33-50 | a line is skipped exactly when empty; it is rejected exactly when its first token is not a name; a symbol error exactly when the name does not resolve |

## Left out

- src/cli.rs (the prompt and line reader) and build.rs are not part of this model. The lines of a session are a parameter of `Session.Repl`, already lexed.
- Printing is left out: the `println!`/`eprintln!` diagnostics, the coloured registry listings, `Env::display` and the `setvbuf` call (src/main.rs:30). The model keeps the data they report: error messages and the names `get_sym` searched.
- `DynLib::close`, `Drop` and the flag fold of `DynLib::open` are not modelled. `dlopen` and `dlsym` are oracles, and a library is the set of names it resolves.
- libffi internals are not modelled: the `ffi_type` and `ffi_cif` layouts, `FfiType::raw`, and what `ffi_call` does inside the callee. `ffi_prep_cif` is a status function and `ffi_call` is the `Invocation` it receives.
- Cffi.CallInterface.Call: the value a non-`Void` call returns is not modelled. The model records only whether a result slot was passed.
- Floating point is not modelled: `f64` arithmetic, comparison, parsing and formatting are oracle parameters, and `PI`/`E` are their bit patterns.
- Lex.Lex: requires each char-literal slice to have at least two characters, which is what the `unwrap` of `nth(1)` needs. Logos's `'.'` class supplies three, so this always holds (`Lex.LexEntries` derives it from well-formed input).
- The `OnceLock`, `Lazy` and `Mutex` around the global environment and the library table become objects the caller owns. Locking and poisoning are not modelled.
- `HashMap` iteration order is unspecified, so `Registry.Registry.GetSym` and `Registry.Registry.GetLibs` pick an order existentially. The model does not fix which library wins when several export a symbol.
- i64 overflow in `+`, `-`, `*` and unary `-` is modelled as the panic of a debug build. The wrap-around of a release build is not modelled.
- EvalProps.RepeatContents: an allocation too large for memory is modelled only as the `capacity overflow` panic, when the byte length exceeds `isize::MAX`.
- Session.HexTextIsInvalidDigit: the `ParseIntError` kind in a panic message comes from `IntErrorKind`. That is a scan written to match the standard library's reporting order, and it is proved equal to `StdText.FromStrRadix`'s failures only for `0x2A`.
- `main`'s return of a `FfiError` is modelled as an `Error` exit holding the error's message. The `Error: FfiError(...)` text Rust prints for it is not modelled.
- Session.CalledLine: the callee's behaviour on a misaligned call (`Session.OperatorArgumentMisaligns`) is undefined in C and is not modelled.
