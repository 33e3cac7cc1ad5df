# pylox in Dafny

A model of the core of pylox, a tree-walking interpreter for the Lox
language written in Python. It covers the scanner, the recursive-descent
parser, lexical environments, function values, the evaluator, the
parenthesised AST printer and the generator that writes the AST node classes
and the visitor. Properties of each are proved.

| file | models |
|---|---|
| `wrappers.dfy` | `Option` |
| `tokens.dfy` | `Token`, the token kinds, literal host values (`None`, `bool`, `int`, `float`, `str`) |
| `ast.dfy` | expression and statement nodes, shaped after the generator's grammar table |
| `sequences.dfy` | shared facts about sequences and concatenating blocks of lines |
| `environment.dfy` | `Environment`: a class with a mutable `values` map and a fixed enclosing scope |
| `number_text.dfy` | Python's `str` of an `int` and of a `float` |
| `interpreter.dfy` | `LoxFunction` and `Interpreter` classes, plus the pure operator semantics |
| `scanner.dfy` | `Scanner` class, proved against the specification functions `TokensOf`/`ErrorsOf` |
| `parser.dfy` | grammar rule functions (the specification) and the `Parser` class proved to agree with them |
| `parser_examples.dfy` | worked parses: associativity, precedence, prefix nesting, error reports |
| `ast_printer.dfy` | `Printed` (the specification) and the `Print`/`Parenthesize` methods |
| `generate_ast.dfy` | Python string operations; `define_ast` and `define_visitor` as methods returning the written lines |

Design decisions:

- Python exceptions become result values.
  - `EvalResult`/`ExecResult` for evaluation; `Returned` is the return signal.
  - `call` catches `ReturnException`, but the syntax tree has no return statement, so no statement raises it. The model proves that `Exec`, `Run`, `Loop` and the statement methods never end in `Returned`, so a completed call yields nil.
  - The parser's `Raised` is `ParserError`.
  - The environment's builtin `RuntimeError` is `UndefinedVariable`, distinct from pylox's own `RuntimeException`.
  - `interpret` catches only `RuntimeException`, so an undefined variable ends `interpret` as `Crashed`.
- Diagnostics go to logs instead of standard error.
  - The scanner appends to `errors`; the parser appends to `errors`.
  - The interpreter's `print` appends to `output`.
- Python's value semantics are kept.
  - `bool` counts as a number: `isinstance(True, int)` holds.
  - `==` compares numbers by value, so `true == 1` and `0` is falsey.
  - `int + int` stays `int`; `-`, `*`, `/` and the comparisons go through `float`.
  - `x / 0` yields `nil`.
- The interpreter's quirks are modelled as the code is written:
  - `!x` yields the truthiness of `x`;
  - unary `-` checks the syntax node instead of the value, so it always raises;
  - `if` tests the statement's condition node, which is always truthy, so the then-branch always runs.
- The token field is `lexeme` throughout. `Token.__init__` stores `lexme` (pylox/token.py:4), but every reader uses `lexeme`.
- `visit_function_stmt` calls `LoxFunction(stmt)` without the closure its constructor requires (pylox/interpreter.py:137). The model passes the current environment as the closure.
- Python integers are unbounded and are modelled as `int`. Floats are modelled as exact reals (see Left out).
- The interpreter's methods work on linked `Environment` objects. They are proved against an evaluator on values (`Eval`, `EvalArgs`, `SetUpCall`, `Exec`, `Run`, `Loop` in `interpreter.dfy`).
  - There a scope chain is the sequence of its bindings, innermost first (`Environment.Frames`).
  - Output is a sequence of lines.
  - The value-level evaluator covers programs that neither call nor declare a function. For those the interpreter's methods also prove that every scope outside the current chain keeps its bindings (`ValuesKeptOutside`), so the chain's bindings are all the state such a program changes.
- Lox programs need not terminate, so evaluation carries a `fuel` bound. It bounds nested calls and each loop's iterations; running out is the outcome `OutOfFuel` (`Exhausted` from `Interpret`).

## Model

| member | source | states |
|---|---|---|
| Environments.Environment.constructor | pylox/environment.py:5-7 | a new scope has no bindings and the given enclosing scope; its ancestors are the enclosing chain |
| Environments.Environment.Resolve | pylox/environment.py:12-19 | the scope found is the nearest one in the chain binding the name; every deeper scope lacks it; `None` exactly when no scope binds it |
| Environments.Environment.Define | pylox/environment.py:9-10 | binds the name in this scope only, overwriting; outer scopes are unchanged; the chain's bindings become `FramesDefine` of the old ones |
| Environments.Environment.Get | pylox/environment.py:12-19 | the value in the nearest binding scope, or the "Undefined variable 'x'." error when none binds it |
| Environments.Environment.Assign | pylox/environment.py:21-30 | overwrites only the nearest binding scope, leaving every other scope of the chain unchanged, after which `Get` yields the value; with no binding anywhere it fails and changes nothing; it fails exactly when no scope binds the name, and the chain's bindings become `FramesAssign` of the old ones |
| Environments.Environment.GetFrames | pylox/environment.py:12-19 | `get` on the linked scopes agrees with `FramesGet` on the chain's bindings |
| Environments.FramesGetBind | pylox/environment.py:12-19 | a lookup succeeds exactly when some scope of the chain binds the name |
| Environments.FramesAssignGet | pylox/environment.py:21-30 | after assigning a bound name, lookup yields the new value and every other name looks up as before |
| Environments.FramesAssignUnbound | pylox/environment.py:26-30 | assigning a name no scope binds changes no binding |
| Environments.FramesDefineGet | pylox/environment.py:9-10 | after `define`, the name looks up to the new value and every other name as before |
| Interpreter.LiteralValue | pylox/interpreter.py:95-96 | a literal's value is never a function |
| Interpreter.IsTruthy | pylox/interpreter.py:171-177 | falsey exactly for `nil`, `false`, `0` and `0.0` (Python `== False`); the empty string is truthy |
| Interpreter.IsEqual | pylox/interpreter.py:179-181 | Python `==` on these values: nil equals only nil; numbers (booleans included) equal by numeric value; strings by content; functions by identity; values of different kinds never |
| Interpreter.IsEqualEquivalence | pylox/interpreter.py:179-181 | the equality is reflexive, symmetric and transitive |
| Interpreter.HostEqualityExamples | pylox/interpreter.py:171-181 | `1 == true`, `0.0 == false`, `"" != false`, `nil != false`; `""` is truthy and `0` is not |
| Interpreter.NumericSum | pylox/interpreter.py:54-57 | the sum of two numbers has the real sum as its value and is a float exactly when an operand is |
| Interpreter.BinaryOp | pylox/interpreter.py:43-76 | `+`: succeeds exactly on two numbers or two strings (sum or concatenation), otherwise the "two numbers or two strings" error; arithmetic and comparisons: succeed exactly on two numbers, otherwise "Operand must be a number."; `/` by a value equal to 0 gives nil; `==`/`!=` are host equality and its negation |
| Interpreter.UnaryAsWritten | pylox/interpreter.py:108-115 | on values, `-` never yields a value whatever its operand; `!` yields a boolean exactly as truthy as its operand, so `!!x` evaluates as `!x`; either way the bindings are those the operand left |
| Interpreter.Stringify | pylox/interpreter.py:192-202 | nil is "nil"; an integral float loses its ".0" and a non-integral one is printed in full; a string is itself; a function is "<fn NAME>" |
| Interpreter.CallError | pylox/interpreter.py:84-89 | no error exactly when the callee is a function of matching arity; otherwise the "Can only call" or the "Expected N arguments but got M." error |
| Interpreter.Exec | pylox/interpreter.py:120-149 | a statement keeps the number of scopes in the chain, and never ends in a return signal, since no statement of the language returns a value |
| Interpreter.Run | pylox/interpreter.py:159-166 | a statement list keeps the number of scopes in the chain and never ends in a return signal |
| Interpreter.Loop | pylox/interpreter.py:147-149 | a loop keeps the number of scopes in the chain and never ends in a return signal |
| Interpreter.BindingsLastWins | pylox/lox_function.py:16-17 | each parameter is bound to its own argument unless a later parameter has the same name |
| Interpreter.BindingsDomain | pylox/lox_function.py:16-17 | the bound names are exactly the parameter names and every bound value is an argument |
| Interpreter.LoxFunction.constructor | pylox/lox_function.py:10-12 | the function keeps its declaration and closure |
| Interpreter.LoxFunction.Bind | pylox/lox_function.py:15-17 | a fresh scope enclosed by the closure, holding exactly the parameter bindings |
| Interpreter.LoxFunction.Call | pylox/lox_function.py:14-22 | runs the body in a fresh child of the closure; scopes and output only grow; a call that completes yields nil, because the body never ends in a return signal; for a body that neither calls nor declares, the result is `CallOutcome` of running the body (`Run`) on the parameter bindings in front of the closure's chain, the output and the closure's bindings afterwards are those of that run, and every scope outside the closure's chain keeps its bindings |
| Interpreter.Interpreter.constructor | pylox/interpreter.py:15-18 | the current scope is the empty global scope; output is empty |
| Interpreter.Interpreter.Interpret | pylox/interpreter.py:32-37 | for statements that neither call nor declare, the outcome, the global bindings and the output are those of `Run`, which stops at the first statement that does not complete, and every scope outside the current chain keeps its bindings; a stop is `Reported` exactly when it is a `RuntimeException` |
| Interpreter.Interpreter.Evaluate | pylox/interpreter.py:92-118 | for a call-free expression the result and the bindings afterwards are `Eval`'s, nothing is printed and every scope outside the current chain keeps its bindings; an expression that only reads touches no scope; unary minus always stops; no scope gains or loses a name |
| Interpreter.Interpreter.VisitBinary | pylox/interpreter.py:39-76 | for call-free operands agrees with `Eval`: the left operand, then the right one in the bindings the left left, then `BinaryOp`; a failing operand is the result; every scope outside the current chain keeps its bindings |
| Interpreter.Interpreter.VisitUnary | pylox/interpreter.py:108-115 | for a call-free operand agrees with `Eval`: the operand, then `UnaryOp` of its value; every scope outside the current chain keeps its bindings |
| Interpreter.Interpreter.VisitLogical | pylox/interpreter.py:98-106 | for call-free operands agrees with `Eval`: a deciding left operand is the result and the right one is not evaluated; otherwise the right operand's result; every scope outside the current chain keeps its bindings |
| Interpreter.Interpreter.VisitAssign | pylox/interpreter.py:151-154 | for a call-free value agrees with `Eval`: the nearest scope binding the name is rebound and the value is the result; with no binder, "Undefined variable" and no binding changes; every scope outside the current chain keeps its bindings |
| Interpreter.Interpreter.AssignCurrent | pylox/interpreter.py:153 | fails exactly when no scope of the current chain binds the name; the chain's bindings become `FramesAssign` of the old ones; every scope outside the chain keeps its bindings |
| Interpreter.Interpreter.VisitCall | pylox/interpreter.py:78-90 | a call that completes yields nil; for call-free callee and arguments, a failing callee or argument, a non-function or a wrong arity gives the result and bindings of `SetUpCall`; for read-only ones and a body that neither calls nor declares, the result, output and closure bindings are those of running the body on the arguments' bindings in front of the closure's chain |
| Interpreter.Interpreter.PrepareCall | pylox/interpreter.py:78-88 | for call-free callee and arguments agrees with `SetUpCall`: it yields a function exactly when the setup is ready, with that function and those argument values, and otherwise the failure; the bindings afterwards are the setup's; a returned function's closure is a live scope and the arity matches; read-only operands touch no scope |
| Interpreter.Interpreter.DefineCurrent | pylox/interpreter.py:138-145 | binds the name in the current scope only: its map gains or overwrites that one key, the chain becomes `FramesDefine` of the old one, every other scope keeps its bindings, and the interpreter's invariant holds afterwards |
| Interpreter.Interpreter.EvaluateArguments | pylox/interpreter.py:80-82 | for call-free arguments agrees with `EvalArgs`: one value per argument, left to right, each in the bindings the one before left, stopping at the first failure, and every scope outside the current chain keeps its bindings; read-only arguments touch no scope |
| Interpreter.Interpreter.Execute | pylox/interpreter.py:156-157 | never a return signal; for a statement that neither calls nor declares, agrees with `Exec` and every scope outside the current chain keeps its bindings; only the current scope can gain names, and only a declaration can add them |
| Interpreter.Interpreter.VisitPrint | pylox/interpreter.py:126-128 | agrees with `Exec`: the stringified value becomes the last output line; a failing expression prints nothing; every scope outside the current chain keeps its bindings |
| Interpreter.Interpreter.VisitVar | pylox/interpreter.py:140-145 | agrees with `Exec`: the initializer's value, or nil with no initializer, is bound in the innermost scope (`FramesDefine`); every scope outside the current chain keeps its bindings |
| Interpreter.Interpreter.VisitFunction | pylox/interpreter.py:136-138 | a fresh function closing over the current scope is bound to its name there; every other scope keeps its bindings, and no scope is added and nothing printed |
| Interpreter.Interpreter.VisitBlock | pylox/interpreter.py:130-131 | the statements run in a fresh child of the current scope; agrees with `Exec`: the run starts with a new empty innermost scope that is dropped afterwards; never a return signal; every scope outside the current chain keeps its bindings |
| Interpreter.Interpreter.VisitWhile | pylox/interpreter.py:147-149 | agrees with `Loop`: the condition before every iteration, stopping at a falsey value or a body that does not complete; never a return signal; every scope outside the current chain keeps its bindings |
| Interpreter.Interpreter.ExecuteBlock | pylox/interpreter.py:159-166 | the current scope is restored whatever the outcome; never a return signal; only the block's scope gains names; for statements that neither call nor declare, the result, the block chain's bindings and the output are those of `Run`, and every scope outside the block's chain keeps its bindings |
| Interpreter.EvalPureFrames | pylox/interpreter.py:92-118 | an expression that neither calls nor assigns leaves every binding as it was |
| Interpreter.LogicalValue | pylox/interpreter.py:98-106 | `or`/`and` on read-only operands yield one of the operands' values, never a coerced boolean; its truthiness is the disjunction or conjunction of theirs |
| Interpreter.BinaryLeftFirst | pylox/interpreter.py:39-41 | a failing left operand decides a binary expression whatever the right one is; otherwise the right operand sees the left one's bindings |
| Interpreter.AssignThenRead | pylox/interpreter.py:151-154 | after assigning a bound name, reading it yields the assigned value and other names read as before |
| Interpreter.EvalArgsPure | pylox/interpreter.py:80-82 | read-only arguments all succeed exactly when each does alone, and then each yields its own value |
| Interpreter.RunAppend | pylox/interpreter.py:32-37 | running `ss1 + ss2` is running `ss1` and then, only if it completed, `ss2` from where it stopped |
| Interpreter.ExecOutputGrows | pylox/interpreter.py:126-128 | a statement only appends output lines |
| Interpreter.RunOutputGrows | pylox/interpreter.py:159-166 | a statement list only appends output lines |
| Interpreter.LoopOutputGrows | pylox/interpreter.py:147-149 | a loop only appends output lines |
| Interpreter.FramesAssignNames | pylox/environment.py:21-30 | assignment never adds or removes a name |
| Interpreter.EvalNames | pylox/interpreter.py:92-118 | evaluating an expression never adds or removes a name |
| Interpreter.ExecNames | pylox/interpreter.py:130-145 | a statement adds names only to the innermost scope; a block adds none at all |
| Interpreter.RunNames | pylox/interpreter.py:159-166 | a statement list adds names only to the innermost scope |
| Interpreter.LoopNames | pylox/interpreter.py:147-149 | a loop adds names only to the innermost scope |
| Interpreter.LoopEndsFalsey | pylox/interpreter.py:147-149 | a loop with a read-only condition ends normally only when the condition, in the final bindings, is a falsey value |
| NumberText.NatText | pylox/interpreter.py:202 | decimal digits, no leading zero, one digit exactly below 10 |
| NumberText.NatTextRoundTrip | pylox/interpreter.py:202 | reading the digits back gives the number |
| NumberText.FractionDigits | pylox/interpreter.py:197 | at most `n` digits; none exactly for zero |
| NumberText.IntegralFloatText | pylox/interpreter.py:197-199 | an integral float's text is its whole part followed by ".0" |
| NumberText.FractionalFloatText | pylox/interpreter.py:197-199 | a non-integral float's text never ends in ".0" |
| Scanning.Scanner.constructor | pylox/scanner.py:6-11 | cursor at 0, line 1, no tokens and no reports |
| Scanning.Scanner.ScanTokens | pylox/scanner.py:13-19 | appends the tokens of the rest of the source and then EOF, logs its reports, consumes it all, and returns the token list |
| Scanning.Scanner.ScanToken | pylox/scanner.py:24-58 | consumes one character; appends its token if it is one of the ten, else logs "Unexpceted character." |
| Scanning.Scanner.Advance | pylox/scanner.py:60-63 | yields the current character and moves past it |
| Scanning.Scanner.AddToken | pylox/scanner.py:65-67 | appends a token whose lexeme is the text from `start` to the cursor |
| Scanning.ScanSource | pylox/scanner.py:6-19 | a fresh scanner yields `Scan(source)` and logs `ErrorsOf(source, 1)` |
| Scanning.TokensAreCharacters | pylox/scanner.py:24-58 | every token is a one-character punctuation token of the right kind, with no literal, on the given line |
| Scanning.CountsAddUp | pylox/scanner.py:24-58 | one token per recognised character and one report per other character |
| Scanning.LexemesInOrder | pylox/scanner.py:13-19 | the lexemes, read in order, are exactly the recognised characters in source order |
| Scanning.TokensOfAppend | pylox/scanner.py:13-16 | scanning two parts appends the second part's tokens to the first's |
| Scanning.ScanShape | pylox/scanner.py:13-19 | exactly one EOF, last, with empty lexeme and line 1; every earlier token is punctuation on line 1 |
| Scanning.PunctuationAlone | pylox/scanner.py:24-54 | each of the ten characters alone scans to its token and EOF with no report |
| Scanning.OtherAlone | pylox/scanner.py:56-58 | any other character alone scans to EOF only, with one report |
| Parser.AtEndAtFirstEof | pylox/parser.py:121-122 | on a reachable cursor, at the end exactly at the first EOF token |
| Parser.Previous | pylox/parser.py:127-128 | the token before the cursor, and at position 0 the last token (Python's index -1); past the start of a reachable cursor it is never EOF |
| Parser.CheckAt | pylox/parser.py:111-114 | a check never succeeds at EOF |
| Parser.ConsumeAt | pylox/parser.py:130-133 | steps over a token of the kind; otherwise logs the message at the current token and stays |
| Parser.OperatorTier | pylox/parser.py:35-73 | each level's operators are parsed at that level |
| Parser.ExpressionRule | pylox/parser.py:32-33 | a parse consumes at least one token and leaves a valid cursor |
| Parser.BinaryRule | pylox/parser.py:35-73 | a parse consumes at least one token and leaves a valid cursor |
| Parser.BinaryTail | pylox/parser.py:38-43 | without a level operator at the cursor the tree so far is the result, unchanged |
| Parser.UnaryRule | pylox/parser.py:75-81 | a parse consumes at least one token and leaves a valid cursor |
| Parser.PrimaryRule | pylox/parser.py:83-101 | `true`, `false` and `nil` become their literals and a number or string token its own literal, each consuming one token; `(` gives a grouping of the inner expression, raising exactly when it raises; any other token logs "Expect expression." and raises |
| Parser.GroupRule | pylox/parser.py:96-99 | a parenthesised primary is a grouping |
| Parser.ExpressionShaped | pylox/parser.py:32-101 | every tree `expression` builds is shaped for the precedence ladder |
| Parser.BinaryShaped | pylox/parser.py:35-73 | every tree a binary level builds is shaped for that level |
| Parser.BinaryTailShaped | pylox/parser.py:38-43 | the loop keeps the tree so far shaped for the level, leaning left |
| Parser.OperandShaped | pylox/parser.py:65-73 | a level's operands are shaped for the next tighter level |
| Parser.UnaryShaped | pylox/parser.py:75-81 | `unary` builds prefix operators down to a primary |
| Parser.PrimaryShaped | pylox/parser.py:83-101 | `primary` builds a literal or a grouping of an expression |
| Parser.ExpressionLeaves | pylox/parser.py:32-101 | the literal leaves of the tree `expression` builds, left to right, are the literals of the tokens it consumed, in order |
| Parser.BinaryLeaves | pylox/parser.py:35-73 | the same for each binary level |
| Parser.BinaryTailLeaves | pylox/parser.py:38-43 | the loop keeps the tree's leaves equal to the consumed tokens' literals; operators stand for none |
| Parser.OperandLeaves | pylox/parser.py:65-73 | the same for a level's operands |
| Parser.UnaryLeaves | pylox/parser.py:75-81 | the same for `unary`; prefix operators stand for no literal |
| Parser.PrimaryLeaves | pylox/parser.py:83-101 | the same for `primary` |
| Parser.GroupLeaves | pylox/parser.py:96-99 | the same for a grouping; the parentheses stand for no literal |
| Parser.StatementRule | pylox/parser.py:17-20 | the statement is a print statement exactly when `print` is at the cursor, else an expression statement |
| Parser.StatementTail | pylox/parser.py:22-30 | an expression and then the `;` consume; its error only if the expression raised |
| Parser.ProgramRule | pylox/parser.py:11-15 | success ends at EOF with no more statements than tokens consumed; at EOF there are none |
| Parser.PrependNothing | pylox/parser.py:11-15 | putting no statements in front leaves an outcome as it is, a raise included |
| Parser.PrependTwice | pylox/parser.py:11-15 | putting statements in front of what was already put in front is putting both, in order; a raise stays a raise |
| Parser.SyncLoop | pylox/parser.py:141-156 | stops at the first stopping point at or after the start |
| Parser.SyncPos | pylox/parser.py:139-156 | steps over one token, then stops at the first position at EOF, after `;`, or before a statement keyword |
| Parser.Parser.constructor | pylox/parser.py:7-9 | the cursor starts at 0 with an empty log |
| Parser.Parser.Advance | pylox/parser.py:116-119 | moves past a non-EOF token and yields the previous token |
| Parser.Parser.Match | pylox/parser.py:103-109 | consumes one token exactly when the current one has one of the kinds and is not EOF |
| Parser.Parser.Error | pylox/parser.py:135-137 | logs the report |
| Parser.Parser.Consume | pylox/parser.py:130-133 | agrees with `ConsumeAt`; yields the token exactly when it checks |
| Parser.Parser.Expression | pylox/parser.py:32-33 | agrees with `ExpressionRule` |
| Parser.Parser.BinaryLevel | pylox/parser.py:35-73 | agrees with `BinaryRule` for each of the four levels |
| Parser.Parser.BinaryLoop | pylox/parser.py:38-43 | the `while` loop agrees with `BinaryTail` |
| Parser.Parser.BinaryTurn | pylox/parser.py:38-41 | one turn matches an operator exactly when one is at the cursor and folds it with the next operand |
| Parser.Parser.Operand | pylox/parser.py:36 | agrees with `OperandRule` |
| Parser.Parser.Unary | pylox/parser.py:75-81 | agrees with `UnaryRule` |
| Parser.Parser.Primary | pylox/parser.py:83-101 | agrees with `PrimaryRule` |
| Parser.Parser.Group | pylox/parser.py:96-99 | agrees with `GroupRule` |
| Parser.Parser.Statement | pylox/parser.py:17-20 | agrees with `StatementRule` |
| Parser.Parser.PrintStatement | pylox/parser.py:22-25 | agrees with the print form of `StatementTail` |
| Parser.Parser.ExpressionStatement | pylox/parser.py:27-30 | agrees with the expression form of `StatementTail` |
| Parser.Parser.Parse | pylox/parser.py:11-15 | agrees with `ProgramRule` |
| Parser.Parser.Synchronize | pylox/parser.py:139-156 | the cursor ends at `SyncPos` |
| ParserExamples.SubtractionLeansLeft | pylox/parser.py:55-63 | `1 - 2 - 3` parses as `(1 - 2) - 3` |
| ParserExamples.ProductBindsTighter | pylox/parser.py:55-73 | `1 + 2 * 3` parses as `1 + (2 * 3)` |
| ParserExamples.PrefixesNest | pylox/parser.py:75-81 | `- ! true` nests its prefix operators, the first outermost |
| ParserExamples.MissingSemicolonReported | pylox/parser.py:22-25 | `print 1` without `;` logs the error at EOF and still yields the statement |
| ParserExamples.DanglingOperatorRaises | pylox/parser.py:83-101 | `1 +` logs "Expect expression." at EOF and the whole parse raises |
| AstPrinting.LiteralText | pylox/ast_printer.py:19-22 | `None` prints as "nil", booleans as "True"/"False", integers in decimal with a leading "-" when negative, strings as themselves; a whole float keeps its ".0" and only a whole float ends in ".0" |
| AstPrinting.Print | pylox/ast_printer.py:10-25 | returns exactly `Printed(e)` |
| AstPrinting.Parenthesize | pylox/ast_printer.py:27-32 | the loop builds exactly "(" + name + each tree after a space + ")" |
| AstPrinting.PairText | pylox/ast_printer.py:27-32 | two trees give "(name a b)" |
| AstPrinting.SingleText | pylox/ast_printer.py:27-32 | one tree gives "(name a)" |
| AstPrinting.BinaryText | pylox/ast_printer.py:13-14 | a binary node prints as "(op left right)" |
| AstPrinting.GroupingText | pylox/ast_printer.py:16-17 | a grouping prints as "(group inner)" |
| AstPrinting.UnaryText | pylox/ast_printer.py:24-25 | a unary node prints as "(op operand)" |
| AstPrinting.ParenthesesBalance | pylox/ast_printer.py:10-32 | with plain lexemes and literals, the text has exactly one "(" and one ")" per binary, grouping and unary node |
| AstPrinting.MinusExample | lox.py:10-12 | `-123` prints as "(- 123)" |
| AstPrinting.GroupExample | lox.py:14-15 | `(45.67)` prints as "(group 45.67)" |
| AstPrinting.LoxExample | lox.py:9-16 | the commented-out example tree prints as "(* (- 123) (group 45.67))" |
| GenerateAst.StripSpec | pylox/tool/generate_ast.py:37-38 | `strip` gives a stripped slice of the text, cutting only whitespace |
| GenerateAst.StripIdempotent | pylox/tool/generate_ast.py:37-38 | stripping twice is stripping once |
| GenerateAst.Split | pylox/tool/generate_ast.py:42 | at least one piece; the first is the text before the first separator |
| GenerateAst.SplitJoin | pylox/tool/generate_ast.py:42 | joining the pieces with the separator gives the text back |
| GenerateAst.SplitPieces | pylox/tool/generate_ast.py:42 | no piece holds the separator |
| GenerateAst.JoinSplit | pylox/tool/generate_ast.py:55-58 | splitting a join whose parts lack the separator gives the parts back |
| GenerateAst.CommaJoinSplit | pylox/tool/generate_ast.py:55-58 | splitting a ", "-join at ',' gives the first part, then each later part after one space |
| GenerateAst.LowerLetters | pylox/tool/generate_ast.py:48 | lowering leaves no upper-case letter and changes no other character |
| GenerateAst.LowerIdempotent | pylox/tool/generate_ast.py:48 | lowering twice is lowering once |
| GenerateAst.ClassNameClean | pylox/tool/generate_ast.py:37 | a class name is stripped and holds no bar character |
| GenerateAst.FieldNameClean | pylox/tool/generate_ast.py:43 | a field name is stripped and holds no ':' |
| GenerateAst.DefineAst | pylox/tool/generate_ast.py:24-49 | writes exactly the header and the class of each entry in table order |
| GenerateAst.DefineClass | pylox/tool/generate_ast.py:37-49 | appends exactly the class of one entry |
| GenerateAst.ExprImportOnlyForStmt | pylox/tool/generate_ast.py:28-29 | the header imports `Expr` exactly for the Stmt base |
| GenerateAst.ClassShape | pylox/tool/generate_ast.py:39-48 | class line, `__init__` with the field list, one `self.f = f` per field in order, and `accept` calling `visit_<class>_<base>` |
| GenerateAst.ClassesInOrder | pylox/tool/generate_ast.py:36-49 | the text is the header, then the classes before entry i, entry i's class, and the classes after it |
| GenerateAst.PaddedName | pylox/tool/generate_ast.py:37-38 | "Name", spaces, a bar and `rest` has class name Name, with `rest` after the bar |
| GenerateAst.SingleFieldEntry | pylox/tool/generate_ast.py:37-44 | an entry "Name", spaces, a bar, a space and `field` is class Name with the single field `field` |
| GenerateAst.LiteralEntry | pylox/tool/generate_ast.py:8 | entry 4 of the Expr table is class Literal with the single field `value` |
| GenerateAst.ImportNames | pylox/tool/generate_ast.py:55-58 | the names the import lines list are the class names, one per entry |
| GenerateAst.ImportRoundTrip | pylox/tool/generate_ast.py:55-58 | the joined import list, split at ',' and stripped, gives back every class name in order |
| GenerateAst.DefineVisitor | pylox/tool/generate_ast.py:51-73 | writes exactly the header, then one abstract method per Expr entry, then one per Stmt entry |
| GenerateAst.VisitsAt | pylox/tool/generate_ast.py:62-73 | four lines per entry; entry k's declaration is line 4k+1 |
| GenerateAst.ExprVisitDeclared | pylox/tool/generate_ast.py:62-66 | Expr entry k's visit method, named as its `accept` calls it, is declared on line 8+4k |
| GenerateAst.StmtVisitDeclared | pylox/tool/generate_ast.py:68-72 | Stmt entry k's visit method, named as its `accept` calls it, is declared on line 8 + 4 (number of Expr entries) + 4k |
| GenerateAst.AcceptMatchesVisitor | pylox/tool/generate_ast.py:47-73 | every Expr and Stmt class's `accept` names a method the visitor declares |

## Left out

- The command-line driver `pylox/lox.py` and `lox.py` are not part of this model. That includes `Lox.run`, reading files, the prompt, and the exit codes.
- The `clock` native (pylox/interpreter.py:19-30): it reads the wall clock, so the model leaves it out. The global scope starts empty.
- `Lox.error` and `Lox.runtime_error` print to standard error; the model logs the reports instead. `Lox.error` is defined twice (pylox/lox.py:51, 60), so the scanner's `Lox.error(line, message)` would in fact call the token version, which crashes on an `int`. The scanner's log keeps the line and message it means to report.
- Host floats are exact reals. The model does not capture IEEE rounding or Python's exponent forms such as "1e+16". The fractional digits of `str(float)` stop after `MaxFractionDigits` (17).
- Interpreter.Interpreter.Evaluate: carries `fuel`. Nested calls beyond the bound end in `OutOfFuel`, which the source does not have. For an expression with a call in it only the frame properties (scopes and output only grow, no scope gains a name) are stated, because the value-level evaluator has no closures.
- Interpreter.Interpreter.VisitBinary: the agreement with `Eval` is stated only for call-free operands; with a call in them only the frame properties are.
- Interpreter.Interpreter.VisitUnary: the agreement with `Eval` is stated only for call-free operands; with a call in them only the frame properties are.
- Interpreter.Interpreter.VisitLogical: the agreement with `Eval` is stated only for call-free operands; with a call in them only the frame properties are.
- Interpreter.Interpreter.VisitAssign: the agreement with `Eval` is stated only for call-free values; with a call in them only the frame properties are.
- Interpreter.Interpreter.EvaluateArguments: the agreement with `EvalArgs` is stated only for call-free arguments; with a call in them only the frame properties are.
- Interpreter.Interpreter.VisitCall: a successful call is described only when the callee and the arguments neither call nor assign and the body neither calls nor declares. With calls elsewhere, a closure can share scopes with the current chain, which the bindings-as-values view does not capture.
- Interpreter.Interpreter.VisitCall: does not itself state that scopes outside the closure's chain keep their bindings; LoxFunction.Call states it for the call.
- Interpreter.Interpreter.PrepareCall: the agreement with `SetUpCall` is stated only for a call-free callee and arguments; with a call in them only the frame properties are.
- Interpreter.LoxFunction.Call: the result is stated only for a body that neither calls nor declares a function.
- Interpreter.Interpreter.Interpret: the agreement with `Run` is stated only for statements that neither call nor declare a function; otherwise only the frame properties are.
- Interpreter.Interpreter.ExecuteBlock: the agreement with `Run` is stated only for statements that neither call nor declare a function; otherwise only the frame properties are.
- Interpreter.Interpreter.VisitPrint: the agreement with `Exec` is stated only for statements that neither call nor declare a function; otherwise only the frame properties are.
- Interpreter.Interpreter.VisitVar: the agreement with `Exec` is stated only for statements that neither call nor declare a function; otherwise only the frame properties are.
- Interpreter.Interpreter.VisitBlock: the agreement with `Exec` is stated only for statements that neither call nor declare a function; otherwise only the frame properties are.
- Interpreter.Interpreter.VisitWhile: each loop runs at most `fuel` iterations before `OutOfFuel`. Its agreement with `Loop` is stated only for loops that neither call nor declare a function.
- The scanner never increments `line`, exactly as written; the model keeps it at 1.
- The parser requires its token sequence to hold an EOF (`HasEof`), which the scanner always appends. Without one the source's `_peek` would raise IndexError.
- `Parser._synchronize` is modelled but, as in the source, nothing calls it.
- The class-level `_globals`/`_environment` of `Interpreter`, shared by all instances, are fields of each `Interpreter` object.
- The AST printer's `Visitor` base declares fifteen abstract methods while `AstPrinter` implements four, so Python would refuse to instantiate it. The model prints only trees of those four node kinds (`Printable`).
- AstPrinting.ParenthesesBalance: requires `PlainLeaves`, i.e. no lexeme or literal text holds a parenthesis.
- `define_ast` raises IndexError for an entry without '|'; the model requires every entry to have one (`Entries`).
- GenerateAst: `str.strip` and `str.lower` are modelled for ASCII only. Unicode whitespace and non-ASCII letters are not.
- GenerateAst.DefineClass is the body of `define_ast`'s loop given its own method. The source writes its lines in place.
- The files that `define_ast`/`define_visitor` write, and the `__main__` block that names them (pylox/tool/generate_ast.py:75-80), are modelled as the returned lines.
- Interpreter.Interpreter.Execute: its agreement with `Exec`, which states that `if` always runs its then-branch and that an expression statement discards its value, holds only for statements that neither call nor declare a function; otherwise only the frame properties are stated.
- `_check_number_operand(s)` are folded into `BinaryOp` and `UnaryOp` (the `IsNumber` test and the "Operand must be a number." error).
- `LoxFunction.arity` and `__repr__` are the functions `Arity` and `ToString`, with no `ensures` of their own. `CallError` and `Stringify` state what they yield.
- Parser.ExpressionRule: its own contract states only cursor progress; the trees it builds are described by Parser.ExpressionShaped and the worked examples.
- Parser.BinaryRule: its own contract states only cursor progress; the trees it builds are described by Parser.BinaryShaped.
- Parser.UnaryRule: its own contract states only cursor progress; the trees it builds are described by Parser.UnaryShaped.
