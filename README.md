# Culebra interpreter core in Dafny

This project models the pipeline of the Culebra scripting language's
tree-walking interpreter (the C# repository CulebraLangCS) and proves
properties of that model. The pipeline has five parts:

- **Scanner.** Text becomes tokens. It uses one character of lookahead,
  maximal munch for two-character operators, a keyword table, `//`
  comments, and escape handling in string literals.
- **Recursive-descent parser.** Tokens become statements and expressions.
  It covers a precedence ladder of left-associative binary levels,
  right-associative assignment, prefix and postfix operators, and the
  rewriting of `for` loops into `while` loops. `include` is allowed only at
  file level, and each file is parsed at most once per run.
- **Tagged runtime value (`PrimitiveVar`).** A record with a tag and all
  four payloads. The operators are defined by a table over pairs of tags.
- **Chained environment (`VarEnv`).** Each node has separate variable and
  function tables and a link to its enclosing node.
- **Evaluator.** It runs `main`. An `innermost` node is pushed and popped
  as blocks and calls are entered and left. Return values and loop control
  travel as signals.

Modules, one concern each:

| file | module | what it holds |
|---|---|---|
| `diagnostics.dfy` | `Diagnostics` | every error the program can report, plus `Option`, `Result` and `Outcome` |
| `numerics.dfy` | `Numerics` | C# `int` as `int32`: unchecked wrap-around for `+ - *` and unary `-`; truncating `/` and `%`; decimal rendering; `FloatOps`, the host's double operations |
| `tokens.dfy` | `Tokens` | `TokenType` and `Token`, the default token, and `Token.ToString` |
| `scanner.dfy` | `Scanning` | a reference definition of scanning (`Step`, `Lex`, `Tokenize`, `Unescape`), and the imperative `Scanner` class proved to compute it |
| `ast.dfy` | `Ast` | the expression, statement and type trees |
| `grammar.dfy` | `Grammar` | the concrete grammar as renderings. `Unparse` and `Render` give the token pattern of a tree, `WellFormed` and `Prec` the precedence shape, and `Lower` the `for` rewrite |
| `inversion.dfy` | `Inversion` | how a rendering splits back into its parts: the first token of a tree, the chain of left operands of a binary level, the chain of calls and member accesses, and argument lists |
| `descent.dfy` | `Descent` | the expression grammar as functions over a token list (one per production, with the source's error messages), and the lemmas that every rendering of a well-formed tree is parsed back to that tree |
| `parser.dfy` | `Parsing` | the `Parser` class (token list and cursor), the `ParseSession` class (files used in this run, warnings), and `ParseFile` |
| `values.dfy` | `Values` | `PrimitiveVar` and its operators |
| `environment.dfy` | `Environment` | pure operations on a chain of frames, and the `VarEnv` class proved against them |
| `semantics.dfy` | `Semantics` | a reference big-step semantics of the evaluator, with fuel |
| `interpreter.dfy` | `Treewalk` | the `TreewalkInterpreter` class. Every method equals its semantic function in both its result and the new state |
| `runtime_facts.dfy` | `RuntimeFacts` | what the semantics promises about loading, the nodes that blocks and calls leave behind, loop signals, conditions, evaluation order and `print` |

## How the model represents the source

- **Token kinds.** `TokenType` is a newtype over `0..42`, numbered in the
  order the C# enum declares its members. One named constant exists per
  kind, and `Name` gives the spelling the C# enum's `ToString` produces.
- **Values.** A `PrimitiveVar` holds a tag and all four payloads. Each
  constructor leaves the other payloads at their defaults. `<` reads the
  `doubleValue` of a non-numeric right operand, and that value is then
  always 0.0.
- **Doubles.** A double is an opaque 64-bit pattern. Every double operation
  comes from the `FloatOps` parameter: parsing, rendering, arithmetic and
  comparison. Only facts about tags are proved for doubles.
- **Errors.** `ErrorReporter.reportError` ends the process, so every
  reported error is a `Diagnostic` that ends the operation. The first one
  reached wins. Uncaught host exceptions are diagnostics of the same kind:
  - a null dereference;
  - `Last()` of an empty block;
  - integer overflow in `int.Parse`, in `int.MinValue / -1` and in
    `int.MinValue % -1`;
  - division by zero.
- **Signals.** The evaluator's completion is one of: `Normal`, a return
  signal with an optional value, a loop signal (which `break` and
  `continue` raise), an error, or running out of fuel.
- **Stack.** The semantics works on a chain of frames, innermost first.
  The interpreter's `innermost` node records this chain. The scope leaks
  of the source are reproduced exactly:
  - A block pops its node only when it completes normally.
  - A call pops exactly one node. So after a `return` from inside the body
    block, the node holding the parameters stays on top of the caller's
    chain.
  - A `break` or `continue` in a function body leaves the call, uncaught.
- **Evaluation order.** In `innermost.defineVar(name, evaluateExpr(e))` the
  receiver node is read before the initializer is evaluated. The model
  follows that order. So a variable declared by a statement that itself
  pushes nodes lands in the node that was innermost before.
- **Unescaping.** `formatEscapes` translates `\n` and `\t`. Before any
  other character, a backslash is dropped and the character is kept. A
  trailing backslash is kept. The model follows this code, since a
  backslash does not survive before other characters.
- **Assignment.** `assignVar` has no `return` after its recursive call. So
  every node from the innermost one up to the first node defining the name
  gets the new binding. The model follows this.
- **Limits.** A function may have 16 parameters: the check runs before
  each parameter, with `>= 16`. A call may have 17 arguments: its check,
  `> 16`, runs before each argument. Both limits are modelled as written.
- **Files.** One `ParseSession` stands for one parsing run. It holds the
  host file system and the full paths of the files used so far. The file
  system is a map from full path to text, plus the two path functions.

## Model

| member | source | states |
|---|---|---|
| Tokens.AtIsDefaultButLine | src/Culebra/Parsing/Token.cs:16-28 | `Token(line)` is the default token with only `line` changed. The default token is an EOF with empty names, zero payloads, `false` and line 0 |
| Tokens.DisplayNamesKind | src/Culebra/Parsing/Token.cs:30-52 | a token's rendering begins with its kind's name. Kinds without a payload render as the name alone. INT, DOUBLE, STRING, BOOL and IDENTIFIER tokens add `": "` and their payload |
| Tokens.IdentifierDisplay | src/Culebra/Parsing/Token.cs:47-49 | an identifier's payload renders as its name |
| Tokens.StringDisplay | src/Culebra/Parsing/Token.cs:40-43 | a string of at most 20 characters renders quoted in full. A longer one renders its first 17 characters quoted, followed by ` [...] ` |
| Tokens.IntegerDisplay | src/Culebra/Parsing/Token.cs:34-36 | an integer payload renders as decimal digits whose value is the integer, with a leading `-` exactly when it is negative |
| Numerics.Wrap | src/Culebra/Interpreter/Treewalk/PrimitiveVar.cs:48-50 | unchecked 32-bit arithmetic. The result agrees with the exact value modulo 2^32, and equals it when the exact value is in range |
| Numerics.NegMinValue | src/Culebra/Interpreter/Treewalk/PrimitiveVar.cs:186-187 | negating `int.MinValue` wraps to `int.MinValue` |
| Numerics.TruncDivRem | src/Culebra/Interpreter/Treewalk/PrimitiveVar.cs:130-182 | C# `/` and `%` truncate toward zero: `a == b*q + r`, `|r| < |b|`, `r` is zero or takes the sign of `a`, and `|q| == |a| / |b|` |
| Numerics.TruncDivInRange | src/Culebra/Interpreter/Treewalk/PrimitiveVar.cs:130-156 | a 32-bit quotient stays in range, except for `int.MinValue / -1` |
| Numerics.Div32 | src/Culebra/Interpreter/Treewalk/PrimitiveVar.cs:132-134 | 32-bit division is truncating division of the exact operands |
| Numerics.Rem32 | src/Culebra/Interpreter/Treewalk/PrimitiveVar.cs:159-161 | 32-bit remainder is the truncating remainder of the exact operands |
| Numerics.NatToString | src/Culebra/Interpreter/Treewalk/PrimitiveVar.cs:294-295 | a natural number renders as a non-empty run of digits |
| Numerics.IntToString | src/Culebra/Interpreter/Treewalk/PrimitiveVar.cs:294-295 | an integer's rendering is non-empty and starts with `-` exactly when the integer is negative |
| Numerics.DigitsValueOfNatToString | src/Culebra/Interpreter/Treewalk/PrimitiveVar.cs:294-295 | round trip: the digits of `n` read back as `n` |
| Values.Copy | src/Culebra/Interpreter/Treewalk/PrimitiveVar.cs:18-24 | the copy has the same tag and the same four payloads |
| Values.UnsetDoublePayload | src/Culebra/Interpreter/Treewalk/PrimitiveVar.cs:26-44 | the string, bool and int constructors leave `doubleValue` at 0.0, for every string, bool and int |
| Values.ArithmeticTypes | src/Culebra/Interpreter/Treewalk/PrimitiveVar.cs:46-182 | `+ - * / %` fail with a type error exactly on the pairs the table leaves out. On numbers, the result is INT for INT with INT and DOUBLE when either side is DOUBLE. A numeric failure is only an INT `/` or `%`. STRING `+` STRING concatenates |
| Values.IntegerWrapAround | src/Culebra/Interpreter/Treewalk/PrimitiveVar.cs:46-129 | INT `+ - *` never fail. The result agrees with the exact value modulo 2^32, and equals it when that value is in range |
| Values.IntegerDivision | src/Culebra/Interpreter/Treewalk/PrimitiveVar.cs:130-182 | INT `/` and `%` fail exactly on a zero divisor, which is `DivideByZero`, or on `int.MinValue` by -1. Otherwise they truncate toward zero |
| Values.Negate | src/Culebra/Interpreter/Treewalk/PrimitiveVar.cs:184-195 | unary `-` fails exactly on non-numeric values; an INT gives the wrapped negation of its value (`int.MinValue` stays itself), a DOUBLE the host negation of its value |
| Values.NegateIntTwice | src/Culebra/Interpreter/Treewalk/PrimitiveVar.cs:184-187 | negating an INT twice gives it back, even `int.MinValue` |
| Values.Not | src/Culebra/Interpreter/Treewalk/PrimitiveVar.cs:197-206 | `!` fails exactly on non-BOOL values and flips truth |
| Values.EqualityTable | src/Culebra/Interpreter/Treewalk/PrimitiveVar.cs:208-228 | `==` fails exactly when the tags differ. Otherwise it compares that tag's payloads. `!=` fails on the same inputs and is its negation |
| Values.LessTable | src/Culebra/Interpreter/Treewalk/PrimitiveVar.cs:230-248 | `<` fails exactly when the left side is non-numeric and the right is numeric. Two non-numbers give `false`. A number against a non-number is compared with the unset `doubleValue` |
| Values.DerivedComparisons | src/Culebra/Interpreter/Treewalk/PrimitiveVar.cs:250-260 | `>` is `!(<) && !=`, so it inherits the tag error of `==`. `>=` is `!(<)` and `<=` is `!(>)`, with the matching error cases |
| Values.IntegerComparisons | src/Culebra/Interpreter/Treewalk/PrimitiveVar.cs:230-260 | on two INTs, all six comparisons are the integer comparisons |
| Values.StringComparisons | src/Culebra/Interpreter/Treewalk/PrimitiveVar.cs:230-260 | on two STRINGs: `<` is false, `>` is `!=`, `<=` is `==`, and `>=` is true |
| Values.LogicalTable | src/Culebra/Interpreter/Treewalk/PrimitiveVar.cs:262-278 | `and`/`or` fail unless both sides are BOOL, then compute `&&`/`\|\|` |
| Values.Truthiness | src/Culebra/Interpreter/Treewalk/PrimitiveVar.cs:288-290 | only a BOOL holding `true` is true |
| Values.Rendering | src/Culebra/Interpreter/Treewalk/PrimitiveVar.cs:292-304 | a STRING renders as itself and a BOOL as `True`/`False`. An INT renders as its decimal digits, with `-` when negative |
| Environment.DeclareVar | src/Culebra/Interpreter/Treewalk/VarEnv.cs:33-37 | defining a variable fails exactly when this frame already has it, and ancestors are not consulted. Otherwise only that key of `vars` changes |
| Environment.DeclareFunc | src/Culebra/Interpreter/Treewalk/VarEnv.cs:27-31 | defining a function fails exactly when this frame already has it. Otherwise only that key of `functions` changes |
| Environment.SeparateNamespaces | src/Culebra/Interpreter/Treewalk/VarEnv.cs:27-37 | a name taken as a variable can still be defined as a function, and that does not free it as a variable |
| Environment.Defining | src/Culebra/Interpreter/Treewalk/VarEnv.cs:39-45 | the index of the nearest frame binding a variable: no nearer frame binds it, and the frame found does |
| Environment.DefiningFunc | src/Culebra/Interpreter/Treewalk/VarEnv.cs:47-53 | the same over the function tables |
| Environment.LookupNearest | src/Culebra/Interpreter/Treewalk/VarEnv.cs:39-53 | `getVar`/`getFunc` return the binding of the nearest defining frame. A miss at the root is `VariableNotFound`/`FunctionNotFound` |
| Environment.AssignAlongChain | src/Culebra/Interpreter/Treewalk/VarEnv.cs:55-61 | `assignVar` fails with `UnboundAssignment` exactly when no frame binds the name. Otherwise every frame from the innermost one to the defining one maps the name to the value, and all other bindings are unchanged |
| Environment.AssignThenLookup | src/Culebra/Interpreter/Treewalk/VarEnv.cs:55-61 | after an assignment the name looks up to the new value, and every other name looks up as before |
| Environment.VarEnv.constructor | src/Culebra/Interpreter/Treewalk/VarEnv.cs:11-15 | a new node with empty tables in front of the enclosing chain |
| Environment.VarEnv.ParentEnv | src/Culebra/Interpreter/Treewalk/VarEnv.cs:17-20 | `parentEnv(d)` exists exactly for `d` up to the depth. It is the node `d` links out. Past the root it is a null dereference |
| Environment.ParentEnvFrames | src/Culebra/Interpreter/Treewalk/VarEnv.cs:17-20 | the chain seen from `parentEnv(d)` is the chain without its `d` nearest frames |
| Environment.ReprIsParentEnv | src/Culebra/Interpreter/Treewalk/VarEnv.cs:17-20 | every node on the chain is `parentEnv` of its distance |
| Environment.VarEnv.DefineVar | src/Culebra/Interpreter/Treewalk/VarEnv.cs:33-37 | the node's table becomes `DeclareVar` of the old one, or stays unchanged with `DuplicateVariable` |
| Environment.VarEnv.DefineFunc | src/Culebra/Interpreter/Treewalk/VarEnv.cs:27-31 | the node's table becomes `DeclareFunc` of the old one, or stays unchanged with `DuplicateFunction` |
| Environment.VarEnv.GetVar | src/Culebra/Interpreter/Treewalk/VarEnv.cs:39-45 | the recursive walk returns the chain lookup |
| Environment.VarEnv.GetFunc | src/Culebra/Interpreter/Treewalk/VarEnv.cs:47-53 | the recursive walk returns the chain lookup of functions |
| Environment.VarEnv.AssignVar | src/Culebra/Interpreter/Treewalk/VarEnv.cs:55-61 | the nodes updated in place hold the chain `AssignChain` computes, or nothing changes and the result is `UnboundAssignment` |
| Environment.DefineVarOnChain | src/Culebra/Interpreter/Treewalk/TreewalkInterpreter.cs:89 | defining in a node captured earlier changes exactly that node's frame of the chain |
| Scanning.Unescape | src/Culebra/Parsing/Scanner.cs:256-276 | escape handling never lengthens a string |
| Scanning.FormatEscapes | src/Culebra/Parsing/Scanner.cs:256-276 | the accumulating loop computes `Unescape` |
| Scanning.UnescapePlain | src/Culebra/Parsing/Scanner.cs:256-276 | text without a backslash is left as it is |
| Scanning.UnescapeEscape | src/Culebra/Parsing/Scanner.cs:256-276 | round trip: escaping newlines and tabs, then unescaping, gives back the text |
| Scanning.EscapeCases | src/Culebra/Parsing/Scanner.cs:259-271 | `\n` and `\t` are translated. Before any other character the backslash is dropped and the character kept. A lone trailing backslash is kept |
| Scanning.TrailingBackslash | src/Culebra/Parsing/Scanner.cs:259 | a backslash at the very end is kept after the rest is unescaped |
| Scanning.MaximalMunch | src/Culebra/Parsing/Scanner.cs:87-107 | `::`, `==`, `>=`, `<=` and `!=` become one token. Otherwise the single character becomes COLON, ASSIGN, GT, LT, NOT or SLASH |
| Scanning.Skipping | src/Culebra/Parsing/Scanner.cs:109-123 | spaces, tabs and CR emit nothing. A newline emits nothing and counts a line. A `//` comment emits nothing and stops before the next newline |
| Scanning.WordClassification | src/Culebra/Parsing/Scanner.cs:190-214 | a word is the longest run of letters, digits and `_`. A keyword gives its kind. `true`/`false` give BOOL_LIT carrying `text == "true"`. Anything else gives IDENTIFIER carrying the text |
| Scanning.NumberClassification | src/Culebra/Parsing/Scanner.cs:216-234 | a number is DOUBLE_LIT exactly when a `.` is followed by a digit. Otherwise it is INT_LIT, carrying the digits' value, and the `.` is left for the next token. An INT beyond `int.MaxValue` is an error |
| Scanning.IntegerThenDot | src/Culebra/Parsing/Scanner.cs:216-234 | `1.` scans as INT 1, DOT, EOF |
| Scanning.StringClassification | src/Culebra/Parsing/Scanner.cs:236-254 | a string literal fails exactly when no closing quote follows. Otherwise its value is the unescaped text between the quotes, and each newline inside adds a line |
| Scanning.UnexpectedCharacterError | src/Culebra/Parsing/Scanner.cs:129-139 | a character is an "unexpected character" error exactly when the switch does not name it and it is neither a digit nor a letter or `_` |
| Scanning.StepAdvances | src/Culebra/Parsing/Scanner.cs:47-141 | each step consumes at least one character. It counts exactly the newlines it consumed, and never emits EOF |
| Scanning.LexEndsWithEof | src/Culebra/Parsing/Scanner.cs:38-45 | the token list ends with exactly one EOF |
| Scanning.LexFinalLine | src/Culebra/Parsing/Scanner.cs:43 | the EOF carries the final line count |
| Scanning.LexLinesOrdered | src/Culebra/Parsing/Scanner.cs:116-123 | token line numbers never decrease |
| Scanning.TokenizeShape | src/Culebra/Parsing/Scanner.cs:38-45 | scanning a text gives tokens whose only EOF is the last. That EOF carries line 1 plus the number of newlines, and lines never decrease from 1 |
| Scanning.Scanner.constructor | src/Culebra/Parsing/Scanner.cs:34-36 | a scanner over the text, at line 1 with nothing read |
| Scanning.Scanner.Advance | src/Culebra/Parsing/Scanner.cs:173-176 | returns the next character and moves past it |
| Scanning.Scanner.Match | src/Culebra/Parsing/Scanner.cs:143-149 | consumes the expected character exactly when it is next |
| Scanning.Scanner.AddKind | src/Culebra/Parsing/Scanner.cs:182-184 | appends a bare token of that kind on the current line |
| Scanning.Scanner.AddToken | src/Culebra/Parsing/Scanner.cs:186-188 | appends the token |
| Scanning.Scanner.AdvanceWhile | src/Culebra/Parsing/Scanner.cs:191 | the cursor stops at the end of the run of that class of characters |
| Scanning.Scanner.ScanIdentifier | src/Culebra/Parsing/Scanner.cs:190-214 | appends the word's token and moves past the word |
| Scanning.Scanner.ScanNumber | src/Culebra/Parsing/Scanner.cs:216-234 | appends the number's token and moves past it, or fails with the overflow |
| Scanning.Scanner.AdvanceToQuote | src/Culebra/Parsing/Scanner.cs:237-240 | stops at the next quote or the end, counting the newlines passed |
| Scanning.Scanner.ScanString | src/Culebra/Parsing/Scanner.cs:236-254 | appends the string's token and moves past the closing quote, or fails as unterminated |
| Scanning.Scanner.ScanMunch | src/Culebra/Parsing/Scanner.cs:87-107 | appends the two-character token and moves past both characters exactly when the expected second character follows. Otherwise it appends the one-character token |
| Scanning.Scanner.ScanOperator | src/Culebra/Parsing/Scanner.cs:50-114 | the operator and comment arms of the switch always succeed and perform exactly the reference step |
| Scanning.Scanner.ScanDefault | src/Culebra/Parsing/Scanner.cs:129-139 | a digit starts a number, a letter or `_` starts a word, and anything else is an error |
| Scanning.Scanner.ScanToken | src/Culebra/Parsing/Scanner.cs:47-141 | one pass of the switch performs exactly the reference step: the tokens appended, the new cursor and the new line |
| Scanning.Scanner.Tokenize | src/Culebra/Parsing/Scanner.cs:38-45 | the loop computes the reference scan of the text |
| Grammar.BinaryOpsLevel | src/Culebra/Parsing/Parser.cs:257-316 | each binary level's loop matches exactly the operators of that binding strength |
| Grammar.InitDeclRendersVar | src/Culebra/Parsing/Parser.cs:134-141 | a declaring `for` initializer is written exactly like a variable declaration (with `;`) |
| Descent.ParseExpression | src/Culebra/Parsing/Parser.cs:237-239 | `expression()` as a function of the tokens and a position. Whatever it takes is the rendering of a well-formed tree at the assignment level |
| Descent.ParseAssignment | src/Culebra/Parsing/Parser.cs:241-255 | the same for `assignment()` |
| Descent.ParseAssignValue | src/Culebra/Parsing/Parser.cs:244-254 | the same once the left side is read. `=` and a value after an identifier make an assignment. Without `=`, the left side is the result |
| Descent.ParseBinary | src/Culebra/Parsing/Parser.cs:257-316 | the same for each binary level: what it takes is a tree at that level |
| Descent.ParseOperand | src/Culebra/Parsing/Parser.cs:257-316 | the same for the operand of a level, one level tighter |
| Descent.ParseOperators | src/Culebra/Parsing/Parser.cs:260-264 | the loop of a binary level. Started on a left operand, it takes a tree at that level |
| Descent.ParseOperator | src/Culebra/Parsing/Parser.cs:260-263 | one round of that loop. It extends the left operand by an operator of the level and a tighter right operand. It takes nothing only when no operator of the level follows |
| Descent.ParseUnary | src/Culebra/Parsing/Parser.cs:318-325 | what `unary()` takes is a tree at the unary level |
| Descent.ParsePostfix | src/Culebra/Parsing/Parser.cs:327-339 | what `memberOperationExpr()` takes is a tree at the postfix level |
| Descent.ParsePostfixOps | src/Culebra/Parsing/Parser.cs:330-337 | the `while (true)` loop. Started on an operand, it takes a postfix-level tree |
| Descent.ParsePostfixOp | src/Culebra/Parsing/Parser.cs:331-336 | one round. It adds a call or a member access to the operand, or takes nothing and leaves the operand as it is |
| Descent.ParseCall | src/Culebra/Parsing/Parser.cs:341-353 | `callExpr(callee)`. It takes a call node with that callee, rendered from the callee's first token |
| Descent.ParseArguments | src/Culebra/Parsing/Parser.cs:342-350 | it takes comma-separated well-formed arguments. It takes none only when `)` is next |
| Descent.ParseArgumentList | src/Culebra/Parsing/Parser.cs:344-349 | the `do ... while (match(COMMA))` loop keeps a non-empty argument list |
| Descent.ParseNextArgument | src/Culebra/Parsing/Parser.cs:345-349 | one round of that loop. It adds one argument after a comma, or takes nothing and keeps the list |
| Descent.ParsePrimary | src/Culebra/Parsing/Parser.cs:355-368 | what `primaryExpr()` takes is a literal, an identifier or a parenthesized tree |
| Descent.ParseGrouping | src/Culebra/Parsing/Parser.cs:362-366 | `( expression )` is taken as a parenthesized node rendered from the `(` |
| Descent.CompleteExpression | src/Culebra/Parsing/Parser.cs:237-239 | completeness: the rendering of any well-formed tree at the assignment level is taken whole, as that same tree |
| Descent.CompleteExprBefore | src/Culebra/Parsing/Parser.cs:237-239 | the same when a given token kind follows the rendering. The expression then stops just before that token |
| Descent.CompleteAssignment | src/Culebra/Parsing/Parser.cs:241-255 | every rendering of an assignment-level tree is parsed whole by `assignment()`. So `a = b = c` is `a = (b = c)` |
| Descent.AssignValueTaken | src/Culebra/Parsing/Parser.cs:244-251 | after an identifier target, `=` and a parsed value make the assignment node |
| Descent.AssignValueAbsent | src/Culebra/Parsing/Parser.cs:244-254 | a left side that no `=` follows is the result as it is |
| Descent.AssignmentToNonIdentifier | src/Culebra/Parsing/Parser.cs:247-252 | `x = v`, where `x` is a tree other than an identifier and `v` parses, is the "Invalid assignment target" error at the `=` token |
| Descent.CompleteOperand | src/Culebra/Parsing/Parser.cs:257-316 | every rendering of a tree at the tighter level is parsed whole |
| Descent.CompleteBinary | src/Culebra/Parsing/Parser.cs:257-316 | every rendering of a tree at a binary level is parsed whole. Its chain of left operands is rebuilt one operator at a time, so the parse is left-associative |
| Descent.CompleteOperators | src/Culebra/Parsing/Parser.cs:260-264 | from any left operand on that chain, the loop climbs to the whole tree |
| Descent.OperatorsStop | src/Culebra/Parsing/Parser.cs:260 | the loop stops at once, at its left operand, when no operator of that level follows |
| Descent.OperatorsStep | src/Culebra/Parsing/Parser.cs:260-264 | an operator of the level and a tighter right operand make one more binary node, and the loop goes on from there |
| Descent.CompleteUnary | src/Culebra/Parsing/Parser.cs:318-325 | every rendering of a unary-level tree is parsed whole, including `!x` and `-x` for any unary operand `x` |
| Descent.CompletePostfix | src/Culebra/Parsing/Parser.cs:327-339 | every chain of calls and member accesses on a primary is parsed whole |
| Descent.CompletePostfixOps | src/Culebra/Parsing/Parser.cs:330-337 | from any operand on that chain, the loop climbs to the whole tree |
| Descent.PostfixOpsStop | src/Culebra/Parsing/Parser.cs:336 | the loop stops at its operand when neither `(` nor `.` follows |
| Descent.PostfixOpsCall | src/Culebra/Parsing/Parser.cs:331 | after `(`, the call is added and the loop goes on from there |
| Descent.PostfixOpsMember | src/Culebra/Parsing/Parser.cs:332-335 | `.` and an identifier add a member access, and the loop goes on from there |
| Descent.CompleteCall | src/Culebra/Parsing/Parser.cs:341-353 | any argument list that renders up to 17 arguments and is closed by `)` is parsed to the call node |
| Descent.CompleteArguments | src/Culebra/Parsing/Parser.cs:342-350 | up to 17 arguments followed by `)` are taken as they are. 17 arguments followed by `,` are the "Exceeded max argument count" error at the next token |
| Descent.ArgumentsNone | src/Culebra/Parsing/Parser.cs:343 | `)` next means no arguments, and nothing is consumed |
| Descent.ArgumentsStart | src/Culebra/Parsing/Parser.cs:343-348 | `)` next gives no arguments. Otherwise a failing first argument is the result |
| Descent.ArgumentListStep | src/Culebra/Parsing/Parser.cs:344-349 | with at most 16 arguments read, a comma and one more argument extend the list and the loop goes on |
| Descent.ArgumentOverflow | src/Culebra/Parsing/Parser.cs:345-347 | 17 arguments followed by a comma are the "Exceeded max argument count" error at the token after the comma |
| Descent.CompletePrimary | src/Culebra/Parsing/Parser.cs:355-368 | every literal, identifier or parenthesized expression is parsed whole by `primaryExpr()` |
| Descent.CompleteGrouping | src/Culebra/Parsing/Parser.cs:362-366 | `(`, an expression and `)` are parsed to the parenthesized node |
| Parsing.ParseSession.constructor | src/Culebra/Parsing/Parser.cs:8 | a run starts with no files used and no warnings |
| Parsing.Parser.constructor | src/Culebra/Parsing/Parser.cs:28-43 | a parser over a scanned file, at its first token |
| Parsing.Parser.Advance | src/Culebra/Parsing/Parser.cs:392-395 | the cursor moves one token unless it is at EOF, and the previous token is returned. The cursor never passes EOF |
| Parsing.Parser.Match | src/Culebra/Parsing/Parser.cs:414-422 | consumes one token exactly when it is not EOF and its kind is among those given |
| Parsing.Parser.Consume | src/Culebra/Parsing/Parser.cs:397-400 | consumes and returns the next token exactly when it has the kind. Otherwise it fails at that token with the message and does not move |
| Parsing.Parser.CheckForm | src/Culebra/Parsing/Parser.cs:432-444 | true exactly when the next tokens have the given kinds. The cursor is always restored |
| Parsing.Parser.Expression | src/Culebra/Parsing/Parser.cs:237-239 | computes exactly `Descent.ParseExpression` from the cursor: the same result, and on success the cursor stops where it does. What it consumes renders a well-formed tree, and the rendering of any well-formed tree at the cursor is parsed whole, to that tree |
| Parsing.Parser.Assignment | src/Culebra/Parsing/Parser.cs:241-255 | computes exactly `Descent.ParseAssignment`. So, by `CompleteAssignment`, every assignment-level rendering parses, right-associatively. By `AssignmentToNonIdentifier`, a target that is not an identifier is the "Invalid assignment target" error |
| Parsing.Parser.AssignValue | src/Culebra/Parsing/Parser.cs:244-254 | computes exactly `Descent.ParseAssignValue` |
| Parsing.Parser.BinaryLevel | src/Culebra/Parsing/Parser.cs:257-316 | computes exactly `Descent.ParseBinary` at the level. What it consumes renders a tree whose left operands stand at that level or tighter and whose right operands are strictly tighter, so the level is left-associative. By `CompleteBinary`, every such rendering is parsed whole |
| Parsing.Parser.Operand | src/Culebra/Parsing/Parser.cs:257-316 | computes exactly `Descent.ParseOperand` |
| Parsing.Parser.Operator | src/Culebra/Parsing/Parser.cs:260-263 | one round of a level's loop: computes exactly `Descent.ParseOperator` |
| Parsing.Parser.Unary | src/Culebra/Parsing/Parser.cs:318-325 | computes exactly `Descent.ParseUnary`. By `CompleteUnary`, `!x` and `-x` parse for every unary operand `x` |
| Parsing.Parser.MemberOperation | src/Culebra/Parsing/Parser.cs:327-339 | computes exactly `Descent.ParsePostfix`. Calls and `.name` chain onto a primary. By `CompletePostfix`, every such chain is parsed whole |
| Parsing.Parser.PostfixOperation | src/Culebra/Parsing/Parser.cs:330-336 | one round of the postfix loop: computes exactly `Descent.ParsePostfixOp` |
| Parsing.Parser.MemberName | src/Culebra/Parsing/Parser.cs:332-335 | succeeds exactly when an identifier follows the `.`. It then makes the member access on the parent and consumes that one token. Otherwise it fails with "Expected member name" |
| Parsing.Parser.FinishCall | src/Culebra/Parsing/Parser.cs:341-353 | computes exactly `Descent.ParseCall`: a call node with the callee, whose arguments and parentheses are the tokens consumed. By `CompleteCall`, every argument list closed by `)` is taken |
| Parsing.Parser.Arguments | src/Culebra/Parsing/Parser.cs:342-350 | computes exactly `Descent.ParseArguments`. By `CompleteArguments`, up to 17 arguments are accepted. By `ArgumentOverflow`, an 18th is the "Exceeded max argument count" error |
| Parsing.Parser.NextArgument | src/Culebra/Parsing/Parser.cs:344-349 | one round of the argument loop: computes exactly `Descent.ParseNextArgument` |
| Parsing.Parser.Primary | src/Culebra/Parsing/Parser.cs:355-368 | computes exactly `Descent.ParsePrimary`. A literal token or an identifier is taken alone, as a literal or identifier node. Any token other than a literal, an identifier or `(` fails with "Expected expression" |
| Parsing.Parser.Grouping | src/Culebra/Parsing/Parser.cs:362-366 | computes exactly `Descent.ParseGrouping`. By `CompleteGrouping`, every `( expression )` parses to the parenthesized node |
| Parsing.Parser.ParseType | src/Culebra/Parsing/Parser.cs:370-386 | succeeds exactly when a type name comes next. It then takes the name and every `*` that follows it, each wrapping one more pointer type. Otherwise it fails with "Expected type name" |
| Parsing.Parser.Parse | src/Culebra/Parsing/Parser.cs:45-58 | the whole file up to EOF renders its items. The result puts each item's declaration after the statements its includes imported. Each item's imports are what its include lines yield, in order (`ItemsInclude`) |
| Parsing.Parser.TopLevel | src/Culebra/Parsing/Parser.cs:60-70 | a file-level item: its include lines, then exactly one declaration. The statements imported are those its include lines yield, in order, each met with the files used so far (`IncludeTrail`) |
| Parsing.Parser.FileIncludes | src/Culebra/Parsing/Parser.cs:61-68 | the include lines consumed. The result concatenates, in order, what each include yields. Each include is met with the used files as the earlier ones left them, and the session ends with all of them used |
| Parsing.Parser.IncludeLine | src/Culebra/Parsing/Parser.cs:61-67 | one round of the include loop: one directive as in `IncludeDirective`, with its file name added to those read |
| Parsing.Parser.IncludeDirective | src/Culebra/Parsing/Parser.cs:63-67 | `include "file";` resolves the file against the including file's directory and marks it used. The statements returned are that file's: none when its full path was already used, otherwise what it parses to (`IncludedAs`). A missing file name fails with its own message |
| Parsing.IncludedStaysUsed | src/Culebra/Parsing/Parser.cs:19-22 | once a line includes a file, its full path stays used for every later include line |
| Parsing.RepeatedIncludeYieldsNothing | src/Culebra/Parsing/Parser.cs:19-22 | a file included a second time, under any name with the same full path, contributes no statements |
| Parsing.UsedIncludeYieldsNothing | src/Culebra/Parsing/Parser.cs:19-20 | a file already used before the include lines contributes no statements |
| Parsing.IncludesStep | src/Culebra/Parsing/Parser.cs:61-68 | one more include line extends the record of what the lines yield: its outcome is appended |
| Parsing.ItemsIncludeStep | src/Culebra/Parsing/Parser.cs:49-51 | one more item extends the record of each item's imports |
| Parsing.Parser.BlockItem | src/Culebra/Parsing/Parser.cs:60-70 | a block member is one declaration, which renders what was consumed. An `include` inside a block is the "outside of global scope" error |
| Parsing.Parser.NoBlockInclude | src/Culebra/Parsing/Parser.cs:61-62 | inside a block, `include` is an error and nothing else is consumed |
| Parsing.Parser.Declaration | src/Culebra/Parsing/Parser.cs:72-76 | after `func`, a function declaration. Otherwise a variable handling or a statement |
| Parsing.Parser.FuncDeclaration | src/Culebra/Parsing/Parser.cs:78-102 | `func name(params): type { body }` becomes a function declaration whose body block is the lowered members |
| Parsing.Parser.Signature | src/Culebra/Parsing/Parser.cs:79-98 | name, parameter list and return type, exactly as written. A missing name fails first |
| Parsing.Parser.ReturnType | src/Culebra/Parsing/Parser.cs:97-98 | succeeds exactly when `:` and a type name come next, and takes that type. Without the colon, it fails with "Function ... is missing a return type" |
| Parsing.Parser.ParameterList | src/Culebra/Parsing/Parser.cs:84-96 | the parameters up to `)`. It is empty exactly when `)` comes first, and `)` first always succeeds |
| Parsing.Parser.Parameters | src/Culebra/Parsing/Parser.cs:85-94 | comma-separated `name: type` parameters |
| Parsing.Parser.NextParam | src/Culebra/Parsing/Parser.cs:86-88 | a parameter after a comma is accepted exactly when fewer than 16 are read and `name: type` follows. After 16, it is the "Exceeded max parameter count" error |
| Parsing.Parser.Param | src/Culebra/Parsing/Parser.cs:89-93 | succeeds exactly when `name: type` follows. Without a name, it fails with "Expected parameter name" |
| Parsing.Parser.VarHandling | src/Culebra/Parsing/Parser.cs:104-108 | after an identifier, a colon selects a variable declaration. Otherwise the cursor is rewound and an expression statement is parsed |
| Parsing.Parser.VarDeclaration | src/Culebra/Parsing/Parser.cs:110-117 | `name: type [= value];` becomes a variable declaration |
| Parsing.Parser.Initializer | src/Culebra/Parsing/Parser.cs:113-115 | the initializer is present exactly when `=` follows the type. It succeeds exactly when an expression then stops before `;`, or, without `=`, when `;` is next |
| Parsing.Parser.Statement | src/Culebra/Parsing/Parser.cs:119-129 | a non-declaration statement whose lowered tree is the result |
| Parsing.Parser.StatementFromReturn | src/Culebra/Parsing/Parser.cs:122-128 | the same, for the tests from `return` on |
| Parsing.Parser.StatementFromBlock | src/Culebra/Parsing/Parser.cs:124-128 | the same, for the tests from `{` on |
| Parsing.Parser.StatementFromContinue | src/Culebra/Parsing/Parser.cs:126-128 | the same, for the tests from `continue` on |
| Parsing.Parser.ForStatement | src/Culebra/Parsing/Parser.cs:131-177 | `for (init; cond; incr) body` becomes a while loop flagged as a for loop. The body and increment are placed in a block only with an increment. A missing condition is the literal `true`. The loop follows the initializer in a block only with an initializer |
| Parsing.Parser.ForInitializer | src/Culebra/Parsing/Parser.cs:133-147 | a declaration exactly when `name :` comes next. Otherwise `;` alone, or an expression statement |
| Parsing.Parser.ForDeclaration | src/Culebra/Parsing/Parser.cs:134-141 | `name: type = value;` as a variable declaration |
| Parsing.Parser.ForDeclarationRest | src/Culebra/Parsing/Parser.cs:137-140 | the same once `name :` is read |
| Parsing.Parser.ForDeclarationTail | src/Culebra/Parsing/Parser.cs:138-140 | the same once the type is read |
| Parsing.Parser.ForDeclarationValue | src/Culebra/Parsing/Parser.cs:138-140 | succeeds exactly when `=` follows and an expression then stops before `;`. Without `=`, it fails with "Expected assignment in for-loop initializer" |
| Parsing.Parser.ForHeader | src/Culebra/Parsing/Parser.cs:149-160 | the optional condition, `;`, the optional increment and `)` |
| Parsing.Parser.ForIncrement | src/Culebra/Parsing/Parser.cs:156-160 | the same once the condition and its `;` are read |
| Parsing.Parser.OptionalExpression | src/Culebra/Parsing/Parser.cs:149-154 | the expression is absent exactly when the terminator comes first. It succeeds exactly when the terminator comes first or an expression stops before it, and the value is what `expression()` parses |
| Parsing.Parser.Condition | src/Culebra/Parsing/Parser.cs:180-182 | succeeds exactly when `(` comes next and an expression then stops before `)`. The value is what `expression()` parses. Without `(`, it fails with the statement's message |
| Parsing.Parser.IfStatement | src/Culebra/Parsing/Parser.cs:179-190 | condition, then branch, and an else branch exactly when `else` follows |
| Parsing.Parser.IfBranches | src/Culebra/Parsing/Parser.cs:184-189 | the same once the condition is read |
| Parsing.Parser.ElseBranch | src/Culebra/Parsing/Parser.cs:187-189 | the same once `else` is read |
| Parsing.Parser.ReturnStatement | src/Culebra/Parsing/Parser.cs:192-201 | the value is absent exactly when `;` follows `return`. It succeeds exactly when `;` follows or an expression stops before `;` |
| Parsing.Parser.WhileStatement | src/Culebra/Parsing/Parser.cs:203-210 | condition and body, as a loop not flagged as a for loop |
| Parsing.Parser.Block | src/Culebra/Parsing/Parser.cs:212-219 | the members up to `}` as a block |
| Parsing.Parser.BreakStatement | src/Culebra/Parsing/Parser.cs:221-224 | succeeds exactly when `;` follows, giving `break`. Otherwise it fails with its message |
| Parsing.Parser.ContinueStatement | src/Culebra/Parsing/Parser.cs:226-229 | succeeds exactly when `;` follows, giving `continue`. Otherwise it fails with its message |
| Parsing.Parser.ExpressionStatement | src/Culebra/Parsing/Parser.cs:231-235 | succeeds exactly when an expression stops before `;`. That expression is what `expression()` parses |
| Parsing.BeginFile | src/Culebra/Parsing/Parser.cs:13-18 | a root call forgets the files used before. A self-include adds one warning and nothing else |
| Parsing.ScanFile | src/Culebra/Parsing/Parser.cs:31-34 | the scanner's tokens end in their only EOF |
| Parsing.OpenFile | src/Culebra/Parsing/Parser.cs:22-43 | a first visit marks the file used. A missing file is `FileNotFound`, naming the including file. Otherwise the result is what its text scans and parses to |
| Parsing.VisitFile | src/Culebra/Parsing/Parser.cs:19-25 | an included file already used yields no statements and changes nothing. Otherwise the file is opened and parsed |
| Parsing.ParseScanned | src/Culebra/Parsing/Parser.cs:30-43 | a scan error is the result. Otherwise the tokens are parsed |
| Parsing.ParseTokens | src/Culebra/Parsing/Parser.cs:45-58 | the whole token list renders the file's items, and the result puts each item after what its includes imported |
| Parsing.ParseFile | src/Culebra/Parsing/Parser.cs:12-26 | a root call clears the used files. An included file already used yields no statements and changes nothing. Every visit marks the file used, and a self-include is warned about |
| Semantics.Exec | src/Culebra/Interpreter/Treewalk/TreewalkInterpreter.cs:40-68 | running a statement never makes the chain shorter, and output is only appended to |
| Semantics.ExecBlock | src/Culebra/Interpreter/Treewalk/TreewalkInterpreter.cs:70-76 | the same for a block |
| Semantics.ExecExpr | src/Culebra/Interpreter/Treewalk/TreewalkInterpreter.cs:78-80 | the same for an expression statement |
| Semantics.ExecReturn | src/Culebra/Interpreter/Treewalk/TreewalkInterpreter.cs:82-85 | the same for `return` |
| Semantics.ExecVarDecl | src/Culebra/Interpreter/Treewalk/TreewalkInterpreter.cs:87-90 | the same for a declaration |
| Semantics.DefineInReceiver | src/Culebra/Interpreter/Treewalk/TreewalkInterpreter.cs:89 | defining in the receiver captured first keeps the chain's length and the output |
| Semantics.ExecIf | src/Culebra/Interpreter/Treewalk/TreewalkInterpreter.cs:92-98 | the chain never gets shorter and output only grows, for `if` |
| Semantics.ExecBranch | src/Culebra/Interpreter/Treewalk/TreewalkInterpreter.cs:94-97 | the same for choosing a branch once the condition is evaluated |
| Semantics.ExecWhile | src/Culebra/Interpreter/Treewalk/TreewalkInterpreter.cs:100-115 | the same for a loop |
| Semantics.Iteration | src/Culebra/Interpreter/Treewalk/TreewalkInterpreter.cs:103-113 | the same for one test of the condition and one run of the body, whether the loop goes on or stops |
| Semantics.LoopStep | src/Culebra/Interpreter/Treewalk/TreewalkInterpreter.cs:103-113 | the same once the condition is evaluated |
| Semantics.AfterBody | src/Culebra/Interpreter/Treewalk/TreewalkInterpreter.cs:107-113 | the same for the `catch` of the loop |
| Semantics.Eval | src/Culebra/Interpreter/Treewalk/TreewalkInterpreter.cs:125-149 | the same for an expression |
| Semantics.EvalUnary | src/Culebra/Interpreter/Treewalk/TreewalkInterpreter.cs:170-183 | the same for a unary operator |
| Semantics.EvalAssign | src/Culebra/Interpreter/Treewalk/TreewalkInterpreter.cs:185-191 | the same for an assignment |
| Semantics.EvalBinary | src/Culebra/Interpreter/Treewalk/TreewalkInterpreter.cs:193-230 | the same for a binary operator |
| Semantics.EvalRightOperand | src/Culebra/Interpreter/Treewalk/TreewalkInterpreter.cs:197-229 | the same once the left operand is evaluated |
| Semantics.EvalCall | src/Culebra/Interpreter/Treewalk/TreewalkInterpreter.cs:236-278 | the same for a call |
| Semantics.Invocation | src/Culebra/Interpreter/Treewalk/TreewalkInterpreter.cs:261-277 | the same for invoking a user function |
| Semantics.CallBody | src/Culebra/Interpreter/Treewalk/TreewalkInterpreter.cs:264-271 | the same for binding the arguments and running the body |
| Semantics.BindArgs | src/Culebra/Interpreter/Treewalk/TreewalkInterpreter.cs:265-269 | the same for binding the arguments to the parameters |
| Semantics.ExecSeq | src/Culebra/Interpreter/Treewalk/TreewalkInterpreter.cs:72-74 | the same for the statements of a block |
| Semantics.DefineEvaluated | src/Culebra/Interpreter/Treewalk/TreewalkInterpreter.cs:89 | the same for defining an evaluated value in the receiver captured first |
| Semantics.IsTrueOf | src/Culebra/Interpreter/Treewalk/TreewalkInterpreter.cs:280-282 | the same for the test of a condition |
| Semantics.Print | src/Culebra/Interpreter/Treewalk/StandardFunctions.cs:5-10 | `print` only appends output, and any value it yields is null |
| Semantics.RunMain | src/Culebra/Interpreter/Treewalk/TreewalkInterpreter.cs:27-34 | `run` ends normally, with an error, or out of fuel. A return or loop signal never escapes it |
| RuntimeFacts.LoadBindsEveryFunction | src/Culebra/Interpreter/Treewalk/TreewalkInterpreter.cs:16-25 | `load` succeeds exactly when every top-level statement is a function declaration with a fresh, distinct name. It then binds each under its name, keeps the old bindings, adds nothing else and leaves the variables. Its errors are `NonFunctionAtTopLevel` and `DuplicateFunction` |
| RuntimeFacts.LoadableStep | src/Culebra/Interpreter/Treewalk/TreewalkInterpreter.cs:18-23 | after binding a first fresh function, the rest loads exactly when the whole list does |
| RuntimeFacts.SignalLeavesBlockNode | src/Culebra/Interpreter/Treewalk/TreewalkInterpreter.cs:70-76 | whenever a block's statements end abruptly (`break`, `continue`, `return` or an error), the block's result is that run itself. Its own node stays on the chain |
| RuntimeFacts.SignalFirstRunsNothingElse | src/Culebra/Interpreter/Treewalk/TreewalkInterpreter.cs:70-76 | a block whose first statement is `break`, `continue` or `return;` raises that signal at once. Only the block's node is pushed, and nothing after the signal runs |
| RuntimeFacts.ReturningCallLeavesParameterNode | src/Culebra/Interpreter/Treewalk/TreewalkInterpreter.cs:261-277 | a call whose body raises a return yields the returned value and pops exactly one node from the state the body left. When the arguments bind and the body is a block, the caller's chain is longer afterwards: the parameter node stays |
| RuntimeFacts.FallingOffTheEndYieldsNull | src/Culebra/Interpreter/Treewalk/TreewalkInterpreter.cs:261-277 | a call whose body completes normally yields null, from the state the body left with one node popped |
| RuntimeFacts.LoopSignalEscapesCall | src/Culebra/Interpreter/Treewalk/TreewalkInterpreter.cs:264-274 | a `break`/`continue` raised by the body leaves the call uncaught, in the state the body left, with no pop. When the arguments bind and the body is a block, both of the call's nodes stay on the chain |
| RuntimeFacts.LoopSignalFirstEscapesCall | src/Culebra/Interpreter/Treewalk/TreewalkInterpreter.cs:264-274 | a function without parameters whose body begins with `break` or `continue` raises that signal with exactly its two nodes on the caller's chain |
| RuntimeFacts.BreakEndsLoop | src/Culebra/Interpreter/Treewalk/TreewalkInterpreter.cs:103-108 | a `break` from the body ends the loop normally |
| RuntimeFacts.ContinueRetestsCondition | src/Culebra/Interpreter/Treewalk/TreewalkInterpreter.cs:103-109 | a `continue` in a plain while loop goes straight back to the condition |
| RuntimeFacts.ContinueRunsIncrement | src/Culebra/Interpreter/Treewalk/TreewalkInterpreter.cs:103-113 | a `continue` in a loop made from `for` first runs the last statement of the body block, outside the `try` |
| RuntimeFacts.IfFollowsTruth | src/Culebra/Interpreter/Treewalk/TreewalkInterpreter.cs:92-98 | the then-branch runs exactly when the condition is a BOOL holding `true`. Otherwise the else-branch runs if present, so a non-BOOL condition counts as false without an error |
| RuntimeFacts.NullConditionFails | src/Culebra/Interpreter/Treewalk/TreewalkInterpreter.cs:280-282 | a null condition is a null dereference |
| RuntimeFacts.DeclarationWithoutInitializerFails | src/Culebra/Interpreter/Treewalk/TreewalkInterpreter.cs:87-90 | a declaration without an initializer is the "Invalid expression type" error |
| RuntimeFacts.AssignYieldsStoredValue | src/Culebra/Interpreter/Treewalk/TreewalkInterpreter.cs:185-191 | an assignment yields the value it stored exactly when the name is bound, and the name then reads that value. Otherwise it is `UnboundAssignment` |
| RuntimeFacts.BothOperandsEvaluated | src/Culebra/Interpreter/Treewalk/TreewalkInterpreter.cs:193-198 | the left operand is evaluated, then the right one in the state the left left behind. An error in the right one is the result |
| RuntimeFacts.NoShortCircuit | src/Culebra/Interpreter/Treewalk/TreewalkInterpreter.cs:222-225 | `and` and `or` evaluate their right operand whatever the left one was |
| RuntimeFacts.LogicalOperatorsOnBools | src/Culebra/Interpreter/Treewalk/TreewalkInterpreter.cs:222-225 | on BOOLs, `and`/`or` give `&&`/`\|\|` |
| RuntimeFacts.CallChecks | src/Culebra/Interpreter/Treewalk/TreewalkInterpreter.cs:236-259 | a callee that is not an identifier is an error. `print` is handled before any lookup. An unknown function or an argument count that differs from the parameter count is an error |
| RuntimeFacts.PrintWritesRendering | src/Culebra/Interpreter/Treewalk/StandardFunctions.cs:5-10 | `print(a)` appends the rendering of the value of `a` and yields null |
| RuntimeFacts.PrintInOrder | src/Culebra/Interpreter/Treewalk/StandardFunctions.cs:6-8 | printing `a + b` prints `a`, then, unless that raised, prints `b` in the state it left. With `PrintWritesRendering`, every argument is written in order and the first error stops the rest |
| RuntimeFacts.PrintLiterals | src/Culebra/Interpreter/Treewalk/StandardFunctions.cs:5-10 | `print` of any list of literal arguments appends their renderings, in order, and yields null |
| RuntimeFacts.PrintLiteral | src/Culebra/Interpreter/Treewalk/StandardFunctions.cs:6-7 | the first literal argument's rendering is written before the rest are printed |
| RuntimeFacts.LaterArgumentSeesEarlierParameter | src/Culebra/Interpreter/Treewalk/TreewalkInterpreter.cs:261-269 | arguments are evaluated inside the new node. So a later argument that names an earlier parameter reads the value just bound to it |
| Treewalk.TreewalkInterpreter.constructor | src/Culebra/Interpreter/Treewalk/TreewalkInterpreter.cs:9-14 | a fresh global node that is also the innermost one, and no output yet |
| Treewalk.TreewalkInterpreter.Load | src/Culebra/Interpreter/Treewalk/TreewalkInterpreter.cs:16-25 | the global node's function table becomes what `Load` computes, or the load error is returned |
| Treewalk.TreewalkInterpreter.Run | src/Culebra/Interpreter/Treewalk/TreewalkInterpreter.cs:27-34 | the completion, chain and output are those of `RunMain` |
| Treewalk.TreewalkInterpreter.PushNode | src/Culebra/Interpreter/Treewalk/TreewalkInterpreter.cs:71 | a fresh empty node in front of the chain |
| Treewalk.TreewalkInterpreter.PopNode | src/Culebra/Interpreter/Treewalk/TreewalkInterpreter.cs:75 | the innermost node is dropped |
| Treewalk.TreewalkInterpreter.RunStatement | src/Culebra/Interpreter/Treewalk/TreewalkInterpreter.cs:40-68 | the completion, the chain updated in place and the output are those of `Exec` |
| Treewalk.TreewalkInterpreter.RunBlockStmt | src/Culebra/Interpreter/Treewalk/TreewalkInterpreter.cs:70-76 | as `ExecBlock` |
| Treewalk.TreewalkInterpreter.RunSequence | src/Culebra/Interpreter/Treewalk/TreewalkInterpreter.cs:72-74 | as `ExecSeq` |
| Treewalk.TreewalkInterpreter.RunExprStmt | src/Culebra/Interpreter/Treewalk/TreewalkInterpreter.cs:78-80 | as `ExecExpr` |
| Treewalk.TreewalkInterpreter.RunReturnStmt | src/Culebra/Interpreter/Treewalk/TreewalkInterpreter.cs:82-85 | as `ExecReturn` |
| Treewalk.TreewalkInterpreter.RunVarDeclarationStmt | src/Culebra/Interpreter/Treewalk/TreewalkInterpreter.cs:87-90 | as `ExecVarDecl` |
| Treewalk.TreewalkInterpreter.DefineEvaluated | src/Culebra/Interpreter/Treewalk/TreewalkInterpreter.cs:89 | the receiver is read first, then the value evaluated and defined in it, as `Semantics.DefineEvaluated` |
| Treewalk.TreewalkInterpreter.DefineIn | src/Culebra/Interpreter/Treewalk/TreewalkInterpreter.cs:89 | defining in the captured receiver, as `DefineInReceiver` |
| Treewalk.TreewalkInterpreter.RunIfStmt | src/Culebra/Interpreter/Treewalk/TreewalkInterpreter.cs:92-98 | as `ExecIf` |
| Treewalk.TreewalkInterpreter.RunBranch | src/Culebra/Interpreter/Treewalk/TreewalkInterpreter.cs:94-97 | as `ExecBranch` |
| Treewalk.TreewalkInterpreter.RunWhileStmt | src/Culebra/Interpreter/Treewalk/TreewalkInterpreter.cs:100-115 | as `ExecWhile` |
| Treewalk.TreewalkInterpreter.Iterate | src/Culebra/Interpreter/Treewalk/TreewalkInterpreter.cs:103-106 | one test of the condition and one run of the body, as `Iteration` |
| Treewalk.TreewalkInterpreter.LoopStep | src/Culebra/Interpreter/Treewalk/TreewalkInterpreter.cs:103-113 | as `Semantics.LoopStep` |
| Treewalk.TreewalkInterpreter.RunBodyOnce | src/Culebra/Interpreter/Treewalk/TreewalkInterpreter.cs:104-113 | one run of the body and its `catch`, as `Semantics.AfterBody` of `Exec` |
| Treewalk.TreewalkInterpreter.AfterBody | src/Culebra/Interpreter/Treewalk/TreewalkInterpreter.cs:107-113 | the `catch` of the loop, as `Semantics.AfterBody` |
| Treewalk.TreewalkInterpreter.EvaluateExpr | src/Culebra/Interpreter/Treewalk/TreewalkInterpreter.cs:125-149 | the value, the chain and the output are those of `Eval` |
| Treewalk.TreewalkInterpreter.EvaluateOperation | src/Culebra/Interpreter/Treewalk/TreewalkInterpreter.cs:132-146 | the operator and call cases of the dispatch, as `Eval` |
| Treewalk.TreewalkInterpreter.EvalUnaryExpr | src/Culebra/Interpreter/Treewalk/TreewalkInterpreter.cs:170-183 | as `EvalUnary` |
| Treewalk.TreewalkInterpreter.EvalAssignExpr | src/Culebra/Interpreter/Treewalk/TreewalkInterpreter.cs:185-191 | as `EvalAssign` |
| Treewalk.TreewalkInterpreter.EvalBinaryExpr | src/Culebra/Interpreter/Treewalk/TreewalkInterpreter.cs:193-230 | as `EvalBinary` |
| Treewalk.TreewalkInterpreter.EvalRightOperand | src/Culebra/Interpreter/Treewalk/TreewalkInterpreter.cs:197-229 | as `Semantics.EvalRightOperand` |
| Treewalk.TreewalkInterpreter.EvalCallExpr | src/Culebra/Interpreter/Treewalk/TreewalkInterpreter.cs:236-278 | as `EvalCall` |
| Treewalk.TreewalkInterpreter.Invoke | src/Culebra/Interpreter/Treewalk/TreewalkInterpreter.cs:261-277 | push, bind, run, catch the return and pop once, as `Invocation` |
| Treewalk.TreewalkInterpreter.RunCallBody | src/Culebra/Interpreter/Treewalk/TreewalkInterpreter.cs:264-271 | binding and running the body, as `CallBody` |
| Treewalk.TreewalkInterpreter.BindArguments | src/Culebra/Interpreter/Treewalk/TreewalkInterpreter.cs:265-269 | as `BindArgs` |
| Treewalk.TreewalkInterpreter.Print | src/Culebra/Interpreter/Treewalk/StandardFunctions.cs:5-10 | as `Semantics.Print` |
| Treewalk.TreewalkInterpreter.IsTrue | src/Culebra/Interpreter/Treewalk/TreewalkInterpreter.cs:280-282 | as `IsTrueOf` |

## Left out

- Console output: `print` appends to an output string instead of writing
  to the console. The colouring in `ErrorReporter` and the message text of
  errors are not modelled; a diagnostic names the kind of error and its
  data.
- `Environment.Exit`: every reported error ends the operation with a
  `Diagnostic`. A warning (a self-include) is recorded and parsing goes on.
- File reading and `Path.GetFullPath`/`Path.GetDirectoryName`: the file
  system is a parameter, a map from full path to text plus the two path
  functions.
- Floating point: doubles are opaque. Parsing, rendering, arithmetic and
  comparison of doubles come from the `FloatOps` parameter, and only facts
  about tags are proved for them.
- `bool.ToString`: rendered as `True`/`False`, the host's default culture.
- Fuel: statement and expression evaluation take a fuel count so that
  every function terminates. Running out is a completion of its own, which
  the source does not have.
- The interpreter's constructor parses and loads in one step. The model
  separates parsing (`Parsing.ParseFile`) from construction and `Load`.
- `VarEnv.isNameUsed` is never called and is not modelled.
- `Expression.PrintExpr`, `CLIOptions.cs`, `CulebraLang.cs` (entry point),
  `install.py` and `AsmDirective.cs` are not part of this model.
- `TokenTypeH.values` (reflection over the enum) is not part of this
  model.
- `parseType`/`ptrType`/`vType` are one method, `ParseType`, with the
  same behaviour.
- `varDeclaration`'s `useSemicolon` parameter is always `true` at its one
  call site. The model always requires the `;`.
- `topLevelStatement` is two methods. `TopLevel` is the file-level call,
  which may read include lines. `BlockItem` is the call from a block,
  where an include is an error.
- `usedFiles` is a set. The source's list is only cleared, extended and
  searched.
- A file whose last item is an `include` line is a parse error, as in the
  source: the include loop always ends in a declaration.
- StringDisplay and `Tokens.StringView`: strings are sequences of Unicode
  scalar values, while a C# string is a sequence of UTF-16 code units. The
  `Length > 20` test and the 17-character cut of `Token.ToString` count
  code units, so a string literal of 11 to 20 characters outside the Basic
  Multilingual Plane is cut in the source but shown in full here, and a cut
  never splits a surrogate pair here.
- Expression and the other expression methods: each computes its `Descent`
  function exactly, and the `Complete` lemmas prove that every rendering
  of a well-formed tree is parsed. Which error a malformed expression
  reports is stated only for the cases named in the rows: the missing
  member name, the invalid assignment target, the argument overflow and
  the token that cannot start an expression.
- BlockItem: it is not proved that every rendering of a declaration
  parses; the contract states what a success consumed and built, and the
  include error.
- Declaration: the same; the contract states a success and the `func`
  dispatch, not that every declaration's rendering parses.
- FuncDeclaration: the same; only what a success consumed and built.
- Signature: the same; a success and the missing-name error.
- Parameters: the same; only what a success consumed. The single
  parameters are complete (`Param`, `NextParam`).
- ParameterList: the same for a non-empty list; `)` first is complete.
- VarHandling: the same; a success and the choice made by the colon.
- VarDeclaration: the same; only what a success consumed and built. Its
  initializer is complete (`Initializer`).
- Statement, StatementFromReturn, StatementFromBlock and
  StatementFromContinue: the same; only what a success consumed and built.
- ForStatement: the same; a success, with the `for` rewrite stated for it.
- ForInitializer, ForDeclaration, ForDeclarationRest and
  ForDeclarationTail: the same; what a success consumed and built, and the
  declaration choice. The value after `=` is complete
  (`ForDeclarationValue`).
- ForHeader and ForIncrement: the same; the clauses are complete one at a
  time (`OptionalExpression`).
- IfStatement, IfBranches and ElseBranch: the same; the condition is
  complete (`Condition`).
- WhileStatement: the same; the condition is complete (`Condition`).
- Block: the same; only what a success consumed and built.
- Parse, TopLevel and FileIncludes: the same; a success and what its
  includes imported. Parse records each item's includes from the files
  used when the item began, and does not restate that the files one item
  used stay used for the next.
- IncludeDirective, IncludeLine and VisitFile: the outcome of an included
  file is stated one level deep. What the file's own items render is
  fixed, but the statements its own include lines imported are only
  counted, not tied to those nested files.
- LaterArgumentSeesEarlierParameter: stated for two parameters, where the
  second argument names the first. That every argument is evaluated in
  the new node is the definition of `BindArgs` itself.
- SignalFirstRunsNothingElse covers `return;` without a value. A
  `return e;` first raises the value of `e` where it evaluates, as
  `SignalLeavesBlockNode` states for any abrupt end.
- Semantics.Exec, and likewise the other semantic functions: their own
  contracts state only that the chain never gets shorter and that output
  only grows. Their behaviour is stated by the `RuntimeFacts` lemmas and
  by the interpreter methods that equal them.
