# Jispy in Dafny

A model of the core of Jispy, a small Scheme interpreter written in Java, and
proofs about it. The model covers:

- the string reader (`tokenize`, `readFromTokens`, `toAtom`);
- the writer `toString`;
- the port reader (`InputPort.nextToken` with its token pattern, `read`,
  `readAhead`);
- the syntax expander (`expand`, `expandQuasiQuote`, `isPair`, `require`);
- the evaluator `eval`;
- the numeric-literal checker `LiteralLexChecker`.

Modules, one per file:

- `Values` (values.dfy) holds the one datatype of S-expressions and runtime
  values, the errors, and `Host`. `Host` stands for the foreign code the core
  calls: floating-point and complex parsing and printing, and the primitive
  procedures.
- `Reader` (reader.dfy) covers `tokenize`, `toAtom` and `readFromTokens`.
  `readFromTokens` is a method over a token-queue class, proved against the
  function `ReadTokens`.
- `Writer` (writer.dfy) covers `toString`. The StringBuilder loop is a method
  proved against the function `Show`. The reader and writer are proved to
  round-trip.
- `Port` (input_port.dfy) writes the token pattern out as a scanner. Its
  `InputPort` class has `lines`, `line` and `queue` fields and a `NextToken`
  method.
- `PortReader` (port_reader.dfy) covers `read` and `readAhead` over a port.
  They are methods proved against the functions `ReadF` and `ReadAheadF`.
- `Evaluator` (evaluator.dfy) covers `eval` over an explicit store of
  environment frames.
- `Expander` (expander.dfy) covers `expand` and the quasiquote rewrite. Its
  state is the store and the macro table.
- `LiteralLex` (literal_lex.dfy) holds the class `LiteralLexChecker`, with
  its text and cursor.

Java exceptions are results. `SyntaxException` is `SyntaxError`.
`SecurityException` from `require` is `SecurityError`. The JVM's own
exceptions are `JvmFault`: null pointer, class cast, index out of bounds,
string index out of bounds. Where the code dereferences null, casts wrongly
or indexes past the end, the model returns the matching fault.

Evaluation and expansion carry a `fuel` bound. One unit is spent per closure
call, per procedure `define` rewrite and per macro call. Running out is
`OutOfFuel`. The lemmas `EvalFuel`, `EvalArgsFuel` and `ApplyFuel` show that
more fuel never changes an outcome that did not run out.

## Model

| member | source | states |
|---|---|---|
| Reader.ParseShowInt | src/main/java/org/nathan/interpreter/Jispy.java:199 | `Integer.parseInt` reads back the decimal text of every 32-bit integer |
| Reader.ParseInt | src/main/java/org/nathan/interpreter/Jispy.java:199 | `Integer.parseInt` accepts only a non-empty token of digits with at most one leading sign (every character after the first is a digit, and so is the last), and only values in the 32-bit range |
| Reader.ParseIntAccepts | src/main/java/org/nathan/interpreter/Jispy.java:199 | conversely, every digit string, with or without a leading `+` or `-`, whose value lies in the 32-bit range is accepted with that value |
| Reader.ToAtomPrefersInt | src/main/java/org/nathan/interpreter/Jispy.java:196-222 | a token `Integer.parseInt` accepts is an integer, whatever the double and complex parsers say |
| Reader.ToAtomPrefersDouble | src/main/java/org/nathan/interpreter/Jispy.java:204-219 | a token that is not a boolean, string or integer and that `Double.parseDouble` accepts is a double, whatever the complex parser says |
| Reader.ToAtomSymbol | src/main/java/org/nathan/interpreter/Jispy.java:191-217 | a token is a symbol exactly when it is not `#t`/`#f`, does not start with a backslash, and no number parser accepts it |
| Reader.ToAtom | src/main/java/org/nathan/interpreter/Jispy.java:191-225 | the only token `toAtom` fails on is a lone backslash; it never yields a list, null, the end marker or a procedure; a string is exactly the token without its first and last characters, and the token starts with a backslash |
| Reader.TokensWellFormed | src/main/java/org/nathan/interpreter/Jispy.java:185-189 | every token is non-empty and holds no space, and a parenthesis is always a token of its own |
| Reader.TokensMatchJava | src/main/java/org/nathan/interpreter/Jispy.java:186-187 | the left-to-right reference scan gives exactly the tokens of the pad/split/remove-empty pipeline |
| Reader.Tokenize | src/main/java/org/nathan/interpreter/Jispy.java:185-189 | the `removeIf` loop over the split fields yields the reference tokens |
| Reader.ReadTokens | src/main/java/org/nathan/interpreter/Jispy.java:171-183 | every read from a non-empty queue consumes at least one token |
| Reader.ReadItems | src/main/java/org/nathan/interpreter/Jispy.java:174-179 | the list loop never leaves more tokens than it was given, and a list it completes starts with the elements already read |
| Reader.ReadFromTokens | src/main/java/org/nathan/interpreter/Jispy.java:171-183 | reading from the queue object gives the result and leftover queue of `ReadTokens`: EOF error on an empty queue, `)` error, atoms, and lists up to the matching `)`, with a null-pointer fault when a list runs out of tokens |
| Reader.Parse | src/main/java/org/nathan/interpreter/Jispy.java:119-121 | `parse(String)` is tokenize then one read, as `ParseString` states |
| Writer.ToString | src/main/java/org/nathan/interpreter/Jispy.java:271-288 | the StringBuilder loop computes `Show`: the first failing element's error, or `(`, each element and a space, the last character deleted, and `)` |
| Writer.Show | src/main/java/org/nathan/interpreter/Jispy.java:271-288 | writing fails only with a null-pointer fault (a null element) or a string-index fault (a string shorter than two characters) |
| Writer.ShowNonEmptyList | src/main/java/org/nathan/interpreter/Jispy.java:276-285 | a non-empty list is written as its elements' texts separated by single spaces, in parentheses |
| Writer.BoolRoundTrip | src/main/java/org/nathan/interpreter/Jispy.java:272-273 | `#t` and `#f` are written for the booleans, and `toAtom` reads them back |
| Writer.TokensOfShow | src/main/java/org/nathan/interpreter/Jispy.java:271-288 | the text the corrected writer produces for a datum tokenizes to the datum's token encoding |
| Writer.ReadEncode | src/main/java/org/nathan/interpreter/Jispy.java:171-183 | reading a datum's token encoding gives the datum back and leaves the following tokens |
| Writer.ShowAgrees | src/main/java/org/nathan/interpreter/Jispy.java:276-285 | on values without empty lists the source's writer agrees with the corrected one |
| Writer.RoundTrip | src/main/java/org/nathan/interpreter/Jispy.java:271-288 | booleans, 32-bit integers, symbols and lists of them, with no empty list, parse back to themselves from their written text |
| Writer.RoundTripFixed | src/main/java/org/nathan/interpreter/Jispy.java:271-288 | with `()` for the empty list, every such datum parses back to itself |
| Writer.EmptyListUnreadable | src/main/java/org/nathan/interpreter/Jispy.java:282 | the empty list is written as `)`, which `parse` rejects with "unexpected ')'" |
| Writer.StringNotRoundTrip | src/main/java/org/nathan/interpreter/Jispy.java:194 | the token `\abc\` reads as the string `abc`, which is written as `b`, which reads back as the symbol `b` |
| Writer.PlainSymbol | src/main/java/org/nathan/interpreter/Jispy.java:191-217 | a name that starts like no literal, has no delimiter and is rejected by the double and complex parsers is a symbol that survives writing and reading |
| Writer.ParseExample | src/test/java/org/nathan/interpreter/JispyTest.java:17-24 | example: `(begin (define r 10) (* pi (* r r)))` parses to the nested list the parse test expects |
| Port.SkipSpace | src/main/java/org/nathan/interpreter/InputPort.java:16 | `\s*` stops at the first non-whitespace character |
| Port.AtomEnd | src/main/java/org/nathan/interpreter/InputPort.java:16 | the last alternative takes the maximal run of ordinary characters |
| Port.CommentEnd | src/main/java/org/nathan/interpreter/InputPort.java:16 | a `;` comment runs to the first line terminator |
| Port.GroupEnd | src/main/java/org/nathan/interpreter/InputPort.java:16 | the group lies within the line and is taken by the first alternative that applies: `,@` before `,`; one character for the other single-character tokens; a closed string literal whole, an unclosed one not at all; a comment up to the first line terminator; otherwise the maximal run of ordinary characters |
| Port.StringEnd | src/main/java/org/nathan/interpreter/InputPort.java:16 | a matched string literal ends with a quote after its opening one |
| Port.StringEndEscapes | src/main/java/org/nathan/interpreter/InputPort.java:16 | every quote inside a matched string literal follows a backslash, and a rest of the line without a quote leaves the literal unterminated |
| Port.MatchAt | src/main/java/org/nathan/interpreter/InputPort.java:60-63 | a match lies between the scan position and the end of the line |
| Port.MatchAtStops | src/main/java/org/nathan/interpreter/InputPort.java:16 | a match skips only whitespace before its group, and the group is empty exactly at the end of the line or at a quote that no closing quote follows |
| Port.CollectBound | src/main/java/org/nathan/interpreter/InputPort.java:60-71 | the scanning loop queues at most one token per character, and none from a rest of the line that is only whitespace |
| Port.CollectShape | src/main/java/org/nathan/interpreter/InputPort.java:60-71 | every token queued from a line has the shape of one alternative of the pattern, is non-empty and is not a comment |
| Port.BlankLine | src/main/java/org/nathan/interpreter/InputPort.java:60-65 | a line of whitespace queues no token |
| Port.FlatSkipsBlank | src/main/java/org/nathan/interpreter/InputPort.java:45-58 | a blank input line adds nothing to the tokens still to come |
| Port.LineExample | src/main/java/org/nathan/interpreter/InputPort.java:16 | example: the line `'"\""`;c` gives the tokens `'` and `"\""`, and the comment is dropped |
| Port.InputPort.constructor | src/main/java/org/nathan/interpreter/InputPort.java:14-26 | a new port has an empty line buffer, an empty queue and all input lines to come |
| Port.InputPort.ReadLine | src/main/java/org/nathan/interpreter/InputPort.java:47 | `readLine` takes the next line, or null at the end of input |
| Port.InputPort.ScanLine | src/main/java/org/nathan/interpreter/InputPort.java:60-72 | the matching loop appends exactly the line's tokens to the queue and clears the line buffer |
| Port.InputPort.NextToken | src/main/java/org/nathan/interpreter/InputPort.java:40-74 | queued tokens come first in order, and no line is read while any is queued; otherwise the next token of the following lines; the end marker when none is left; a null-pointer fault on the call after that |
| PortReader.Pull | src/main/java/org/nathan/interpreter/InputPort.java:40-74 | each successful token pull strictly lowers the remaining input measure |
| PortReader.ReadF | src/main/java/org/nathan/interpreter/Jispy.java:244-249 | `read` never leaves more input than it found |
| PortReader.ReadAheadF | src/main/java/org/nathan/interpreter/Jispy.java:251-269 | `readAhead` never leaves more input than it found |
| PortReader.ReadListF | src/main/java/org/nathan/interpreter/Jispy.java:253-263 | the list loop never leaves more input than it found, and a list it completes starts with the elements already read |
| PortReader.Read | src/main/java/org/nathan/interpreter/Jispy.java:244-249 | `read` on a port gives the result and the remaining tokens of `ReadF` |
| PortReader.ReadAhead | src/main/java/org/nathan/interpreter/Jispy.java:251-269 | `readAhead` on a port gives the result and the remaining tokens of `ReadAheadF` |
| PortReader.QuoteShorthand | src/main/java/org/nathan/interpreter/Jispy.java:266 | a quote shorthand token reads as the two-element list of its quote symbol and the next form, which is the end marker at the end of input |
| PortReader.ReadErrors | src/main/java/org/nathan/interpreter/Jispy.java:244-269 | the end of input between forms is the end marker, and the read after it faults; a stray `)` is a syntax error, and so is an end of input inside any open list, whatever it already holds |
| PortReader.ReadAgrees | src/main/java/org/nathan/interpreter/Jispy.java:244-269 | on tokens without quote shorthands, where `readFromTokens` succeeds, the port reader gives the same form and leaves the same tokens |
| PortReader.ReadTokensSuffix | src/main/java/org/nathan/interpreter/Jispy.java:171-183 | what `readFromTokens` leaves is a suffix of its queue |
| Evaluator.OnChain | src/main/java/org/nathan/interpreter/Jispy.java:133 | the frames reachable through outer links from a frame are that frame and frames created before it |
| Evaluator.Find | src/main/java/org/nathan/interpreter/Jispy.java:133 | the frame `find` returns binds the key, lies on the outer chain of the current frame, and no frame nearer on that chain binds it; a miss means no frame on the chain binds it |
| Evaluator.Lookup | src/main/java/org/nathan/interpreter/Jispy.java:133 | a variable's value is its binding in the frame `Find` returns; otherwise the error is `Unbound` and no frame on the chain binds it |
| Evaluator.Put | src/main/java/org/nathan/interpreter/Jispy.java:152 | `put` changes only the current frame's binding of the key |
| Evaluator.NewFrame | src/main/java/org/nathan/interpreter/Jispy.java:158 | a call frame exists exactly when the parameters are a list as long as the arguments, and its outer frame is the closure's frame |
| Evaluator.BindKeys | src/main/java/org/nathan/interpreter/Jispy.java:158 | the new frame binds exactly the parameters' names |
| Evaluator.BindPositional | src/main/java/org/nathan/interpreter/Jispy.java:158 | every parameter's name is bound, and with distinct names each parameter is bound to its own argument |
| Evaluator.Eval | src/main/java/org/nathan/interpreter/Jispy.java:132-168 | evaluation only adds frames, keeps every frame's outer link, and changes no frame but the current one |
| Evaluator.EvalArgs | src/main/java/org/nathan/interpreter/Jispy.java:162 | the argument values are as many as the arguments, under the same frame discipline |
| Evaluator.EvalArgsElement | src/main/java/org/nathan/interpreter/Jispy.java:162 | the arguments are evaluated left to right: value `k` is argument `k` evaluated in the store the arguments before it leave |
| Evaluator.EvalCall | src/main/java/org/nathan/interpreter/Jispy.java:160-167 | a call looks up the operator first, and an unbound or non-procedure operator fails before any argument is evaluated; then the arguments are evaluated, and their first error is the outcome; a null operator then fails with a class-cast fault; otherwise the procedure is applied to the values |
| Evaluator.Apply | src/main/java/org/nathan/interpreter/Jispy.java:158 | applying a procedure changes no existing frame |
| Evaluator.ClosureScope | src/main/java/org/nathan/interpreter/Jispy.java:155-159 | scoping is lexical: in a call's frame a parameter's name is found there, and any other name is found as from the frame where the closure was created |
| Evaluator.DefineBinds | src/main/java/org/nathan/interpreter/Jispy.java:149-154 | after `(define k e)` the current frame looks the name `k` up as the value of `e`, and the form yields null; an error in `e` is the outcome |
| Evaluator.DefineThenEval | src/main/java/org/nathan/interpreter/Jispy.java:133-153 | a defined name evaluates to its value in the defining frame, whether the definition and the use spell it as a symbol or as a backslash token |
| Evaluator.IfTakesOneBranch | src/main/java/org/nathan/interpreter/Jispy.java:139-148 | `if` evaluates the test, then only the branch it selects; the other branch has no effect |
| Evaluator.IfBranch | src/main/java/org/nathan/interpreter/Jispy.java:139-147 | a four-element `if` whose test yields a Boolean is the evaluation of the branch it selects, in the store the test leaves |
| Evaluator.IfOnIntegerTest | src/main/java/org/nathan/interpreter/Jispy.java:140 | example: `(if 1 2 3 4 5)` fails with a class-cast fault on the test value |
| Evaluator.EvalFuel | src/main/java/org/nathan/interpreter/Jispy.java:132-168 | more fuel gives the same outcome to an evaluation that did not run out |
| Evaluator.EvalArgsFuel | src/main/java/org/nathan/interpreter/Jispy.java:162 | the same for the argument list |
| Evaluator.ApplyFuel | src/main/java/org/nathan/interpreter/Jispy.java:166 | the same for a procedure call |
| Expander.Require | src/main/java/org/nathan/interpreter/Jispy.java:393-401 | `require` passes exactly when its predicate holds, and otherwise raises a security error carrying the checked form and the message; every shape check of `expand` and `expandQuasiQuote` goes through it |
| Expander.QuasiQuote | src/main/java/org/nathan/interpreter/Jispy.java:369-384 | the quasiquote rewrite fails only with a null-pointer fault or with a security error about a part of the template, saying "wrong length" or "can't splice here" |
| Expander.QuasiQuotePlain | src/main/java/org/nathan/interpreter/Jispy.java:369-384 | for a template without unquoting, the code built with `quote`, `cons` and `append` denotes the template itself |
| Expander.QuasiQuoteCons | src/main/java/org/nathan/interpreter/Jispy.java:383 | a template whose head is neither null, an unquote nor a splice symbol, and is not itself a splice form, becomes a `cons` of the head's code and the rest's code, whatever unquotes the head holds |
| Expander.QuasiQuoteUnquote | src/main/java/org/nathan/interpreter/Jispy.java:374-381 | `(unquote e)` becomes `e`; a leading splice becomes an `append`; a splice at the head of the template is refused |
| Expander.Expand | src/main/java/org/nathan/interpreter/Jispy.java:295-367 | expansion only adds frames and changes no frame but the global one; below the top level it changes neither the macro table nor the global frame |
| Expander.ExpandDefine | src/main/java/org/nathan/interpreter/Jispy.java:314-338 | the `define` case keeps the same state discipline |
| Expander.ExpandLambdaForm | src/main/java/org/nathan/interpreter/Jispy.java:343-358 | the `lambda` case never changes the macro table or the global frame |
| Expander.ExpandMacroCall | src/main/java/org/nathan/interpreter/Jispy.java:363-364 | a macro call keeps the same state discipline |
| Expander.ExpandAll | src/main/java/org/nathan/interpreter/Jispy.java:306 | expanding element by element keeps the length, under the same state discipline |
| Expander.ExpandAllPadded | src/main/java/org/nathan/interpreter/Jispy.java:304-306 | expanding a list with a null appended is expanding the list and appending null |
| Expander.ExpandAllElement | src/main/java/org/nathan/interpreter/Jispy.java:341 | element `k` of the result is the expansion of element `k` in the state the elements before it leave |
| Expander.ExpandAllAtoms | src/main/java/org/nathan/interpreter/Jispy.java:297 | atoms expand to themselves and leave the state alone |
| Expander.ExpandQuote | src/main/java/org/nathan/interpreter/Jispy.java:299-302 | `quote` succeeds exactly with one operand, and returns the form unchanged |
| Expander.ExpandIf | src/main/java/org/nathan/interpreter/Jispy.java:303-307 | `if` needs two or three operands; the result has four elements, null for a missing alternative, each operand expanded in order below the top level |
| Expander.ExpandSet | src/main/java/org/nathan/interpreter/Jispy.java:308-313 | `set!` needs exactly a symbol and an expression, and only the expression is expanded |
| Expander.ExpandBegin | src/main/java/org/nathan/interpreter/Jispy.java:339-342 | `(begin)` is null; otherwise the elements are expanded left to right at the same level, keeping the length and the `begin` head: element `k` of the result is form `k` expanded in the state the forms before it leave |
| Expander.ExpandLambda | src/main/java/org/nathan/interpreter/Jispy.java:343-358 | `lambda` needs a list of symbols and a body; several body forms become one `begin`, so the result has three elements |
| Expander.ExpandDefineShapes | src/main/java/org/nathan/interpreter/Jispy.java:314-337 | `define` needs two operands; a list target is rewritten to a `lambda` whose single body is the body list, and expanded below the top level; otherwise exactly a symbol and an expression |
| Expander.DefineMacroNotTop | src/main/java/org/nathan/interpreter/Jispy.java:329-330 | `define-macro` below the top level always fails |
| Expander.DefineMacroShorthandFails | src/main/java/org/nathan/interpreter/Jispy.java:319-324 | `(define-macro (m a...) body...)` never defines a macro, even at top level |
| Expander.DefineMacroTop | src/main/java/org/nathan/interpreter/Jispy.java:329-335 | at top level, `(define-macro m e)` evaluates the expanded `e` in the global frame and enters a procedure under `m`, or fails when it is not a procedure |
| Expander.MacroCall | src/main/java/org/nathan/interpreter/Jispy.java:363-364 | a macro form is the macro applied to the unexpanded operands, and that result is expanded at the same level |
| Expander.QuasiQuoteNotExpanded | src/main/java/org/nathan/interpreter/Jispy.java:359-361 | example: what quasiquote returns is not expanded again |
| LiteralLex.RunEnd | src/main/java/org/nathan/interpreter/literalLexer/LiteralLexChecker.java:46-50 | the digit loop stops at the end of the maximal run of digits and underscores |
| LiteralLex.LiteralLexChecker.constructor | src/main/java/org/nathan/interpreter/literalLexer/LiteralLexChecker.java:8-10 | a checker holds its text, with the cursor at 0 |
| LiteralLex.LiteralLexChecker.IsEnd | src/main/java/org/nathan/interpreter/literalLexer/LiteralLexChecker.java:59-61 | at the end exactly when the cursor is at or past the text's length |
| LiteralLex.LiteralLexChecker.HasNext | src/main/java/org/nathan/interpreter/literalLexer/LiteralLexChecker.java:54-57 | moves the cursor one on, and tells whether it is still inside the text |
| LiteralLex.LiteralLexChecker.IsFloatConstants | src/main/java/org/nathan/interpreter/literalLexer/LiteralLexChecker.java:12-19 | true exactly for `NaN` and `Infinity`, each with or without one sign |
| LiteralLex.LiteralLexChecker.IsFloatTypeSuffix | src/main/java/org/nathan/interpreter/literalLexer/LiteralLexChecker.java:21-29 | true exactly when the cursor is on the last character and it is `f`, `F`, `d` or `D` |
| LiteralLex.LiteralLexChecker.IsDigits | src/main/java/org/nathan/interpreter/literalLexer/LiteralLexChecker.java:42-52 | at a digit it consumes the maximal digit/underscore run, and succeeds exactly when that run is a digit sequence; elsewhere it fails without moving |
| LiteralLex.LiteralLexChecker.IsSignedInteger | src/main/java/org/nathan/interpreter/literalLexer/LiteralLexChecker.java:31-40 | after one optional sign, succeeds exactly when a digit sequence follows; the cursor ends after the maximal run of digits and underscores, or right after the sign when no digit follows |
| LiteralLex.DigitsOfRun | src/main/java/org/nathan/interpreter/literalLexer/LiteralLexChecker.java:51 | a run that starts with a digit is a digit sequence exactly when its last character is a digit |
| LiteralLex.UnderscoreExamples | src/main/java/org/nathan/interpreter/literalLexer/LiteralLexChecker.java:42-52 | example: `1_2` is a digit sequence and `1_` is not; the run stops before other characters |
| LiteralLex.FloatConstantNames | src/main/java/org/nathan/interpreter/literalLexer/LiteralLexChecker.java:14 | the float constants are exactly the six names |

## Left out

- `repl`, `runScheme`, `parse(Object)`, `readChar`, the port constructors over streams and files, and `close`: console, file and stream I/O. A port is given its input as a sequence of lines.
- `let` and the continuation and raise primitives: outside the modelled core.
- The standard environment's primitives: they are the opaque `Host.prim`. A primitive cannot call back into a closure (as `map` would).
- The `Env` class is not part of this model. `Find`, `Put` and `NewFrame` state what `eval` assumes of it. An unbound name is `Unbound` and an arity mismatch is `ArgumentCount`.
- The `Symbol` class and its `quotes` table are not part of this model. `QuoteOf` assumes the table maps `'`, `` ` ``, `,` and `,@` to `quote`, `quasiquote`, `unquote` and `unquote-splicing`.
- Floating point and complex numbers: their values, parsing and printing are `Host` functions.
- `Integer.parseInt` and the digit checks accept ASCII digits only, not other Unicode digits.
- The token pattern is a hand-written scanner, not a regular-expression engine. `Port.CollectShape` and `Port.LineExample` state what it matches.
- Java's `Symbol` objects and the bare `String`s that `eval` uses as variable names are both `Sym`. In Java, `eval` would return a reader-produced symbol as itself, and its `(String)` cast would reject a symbol at the head of a list. A token read as a string (one starting with a backslash) is a name to `eval`, as a `String` is: `define`, call frames and lookups all key it by its text (`NameKey`), so `(\define\ \x\ 5)` followed by `\x\` gives 5.
- Every Java list kind (`ArrayList`, `Arrays.asList`, `subList`) is `List`. Java tells the kinds apart, by a cast to `ArrayList` or a test of the class, in `eval`, `toString`, `expand` and `isPair`; the model does not follow it there:
  - `isPair` casts any `List` to `ArrayList` (Jispy.java:386-389), so it throws a class-cast exception on an `Arrays.asList` or `subList` list. `expandQuasiQuote` recurses on `subList` (Jispy.java:380, 382), so in Java every quasiquote of a non-empty template not headed by `unquote` throws. The model rewrites it as `QuasiQuote` states.
  - `expand` returns anything that is not an `ArrayList` unchanged (Jispy.java:297). The `define` shorthand rewrite is an `Arrays.asList` (Jispy.java:323), so Java returns the rewritten form unexpanded. In particular the `define-macro` shorthand returns that form instead of failing as `Expander.DefineMacroShorthandFails` states.
  - `eval` returns any value whose class is not exactly `ArrayList` as itself (Jispy.java:134). The `lambda`, `set!` and `define` results of `expand` are `Arrays.asList` lists, so Java returns them as data instead of evaluating them. The model evaluates every list.
  - `lambda` requires its parameter list to be an `ArrayList` (Jispy.java:347-348), so Java refuses with "wrong length" a parameter list built by `Arrays.asList`, such as `'x` from the port reader, which reads as `(quote x)`. The model accepts any list of symbols, `(quote x)` included.
- `expand`'s `x != Nil` compares with the one shared empty list. The model treats every empty list as that list, which fails `require` with "wrong length".
- `if`'s `l.add(null)` changes the form in place. The model builds a new list, so aliasing of the form is not modelled.
- Environments are an explicit store of frames, and an environment reference is an index into it. A closure over an index outside the store cannot arise from evaluation; applying one is the model-only error `NoFrame`.
- Evaluator.Eval: `fuel` bounds closure calls, so a program that does not terminate ends in `OutOfFuel` instead of looping or overflowing the stack. `EvalArgs` and `Apply` share the bound.
- Expander.Expand: `fuel` bounds procedure `define` rewrites and macro calls in the same way. `ExpandAll`, `ExpandDefine`, `ExpandLambdaForm` and `ExpandMacroCall` share the bound.
- The test `exceptionTest` expects a `SyntaxException` from `(if 1 2 3 4 5)`. `runScheme` does not expand, and `eval` fails with a class-cast exception. In Java it comes from the `(String)` cast of the `Symbol` head (Jispy.java:136). In the model a symbol is its own name, so the fault comes from the cast of the test value 1 to `Boolean` (Jispy.java:140). The outcome is the same (`Evaluator.IfOnIntegerTest`). The `SecurityException` that `expand` would raise is `Expander.ExpandIf`'s error case.
- `expand` returns `expandQuasiQuote`'s result without expanding it (Jispy.java:359-361). The model does the same (`Expander.QuasiQuoteNotExpanded`).
- Java `require` messages are the form's `toString` followed by the message. The model keeps the form and the message apart in `SecurityError`.
- Writer.RoundTrip: covers booleans, 32-bit integers, symbols and lists, not strings. Strings do not round-trip in the source: `toAtom` strips the first and last characters of a backslash token, and `toString` strips two more. `Writer.StringNotRoundTrip` shows a string that comes back as a symbol.
- Evaluator.Eval: primitives are `Host` functions of the argument values, so a primitive call cannot change any environment frame. In Java a primitive can: the test `loadTest` uses `load` to define `zip` in the global frame.
- Writer.Show: does not include the class-cast exception Java raises when it writes a list that is not an `ArrayList`. `toString` casts every list to `ArrayList` (Jispy.java:278), so in Java writing a quote-shorthand form from the port reader (`Arrays.asList`, Jispy.java:266) or a `set!`, `define` or `lambda` form returned by `expand` throws. The model writes every list.
- ExpandDefineShapes: does not include Java's refusal of a list target that is not an `ArrayList`. The shorthand branch needs an `ArrayList` target (Jispy.java:319), so in Java `(define 'x 5)` from the port reader, whose target is an `Arrays.asList` list, fails with "can define only a symbol" (Jispy.java:327). The model rewrites it into a `lambda` like any other list target.
- PortReader.ReadAgrees: holds only where `readFromTokens` succeeds. On failing inputs the two readers report different things: on no tokens at all, `read` gives the end marker and `readFromTokens` gives "unexpected EOF".
- `read` and `readAhead` take an `InPort` (Jispy.java:124, 244, 252), a class that is not part of this model. The model runs them over `InputPort.NextToken`, on the assumption that `InPort.nextToken` yields the same tokens, the same end marker and the same failure after it.

## Findings

| source | as written | input that shows it | evidently intended | confidence | as-written member | corrected member |
|---|---|---|---|---|---|---|
| src/main/java/org/nathan/interpreter/Jispy.java:277-283 | the list writer deletes the last character before appending `)`; for an empty list that character is the opening `(` | the empty list is written as `)`, which `parse` rejects with "unexpected ')'" | the empty list is written as `()`, so every datum reads back | not executed | Writer.EmptyListUnreadable | Writer.RoundTripFixed |
