# breezy front end, modelled in Dafny

This project models the language front end of the `breezy` runtime, and proves properties of that model. The front end has four stages:

- The **lexer** turns source text into tokens. It keeps a cursor with a line and a column.
- The **parser** is a one-token-lookahead recursive descent. It builds `var` declarations and expression statements over number literals, variables and calls.
- The **interpreter** walks the tree. It keeps a flat map from variable names to numbers, and `print` writes values.
- The **pipeline**, `RuntimeInstance::execute`, ties the stages together. Lexing never fails. Parsing is all or nothing. The statements then run in order on one fresh interpreter.

The small command-line argument parser of the CLI is modelled too. It resolves the first argument through an alias table.

Each imperative C++ class becomes a Dafny `class` with the same state:

- `Lexer` holds `position`, `line` and `column`.
- `Parser` holds a read-only `tokens` and the cursor `current`.
- `Interpreter` holds the `environment` map.
- `ArgumentParser` holds its `aliases` map.

Each method is proved equal to a pure reference function:

- `Lexer.Tokenize` computes `LexFrom`.
- The `Parser` productions (`Parse`, `Statement`, `VarDeclaration`, `ExprStatement`, `Expression`, `Primary`) match an `...At` function, through `Yields`. The cursor helpers `Match`, `Advance` and `Consume` state their effect on the cursor directly, and `Check`, `IsAtEnd`, `Peek` and `Previous` are functions of it.
- The `Interpreter` methods compute `Evaluate` and `Run`.
- `RuntimeInstance.Execute` computes `ExecuteTrace`.

What the source promises is proved as lemmas about those functions. The lemma modules are `LexingProperties`, `ParsingProperties` and `InterpretingProperties`, plus the lemmas in `Runtime` and `CommandLine`.

Modelling choices:

- **Exceptions** become results. Parser exceptions are `Result.Err` and `Step.Failed`, carrying the same message strings.
- **Output** is one ordered trace of `Event`s:
  - `Printed(v)` is a value followed by a space on standard output;
  - `Newline` ends that line;
  - `UndefinedVariable(name)` and `ParserError(message)` are the lines written to standard error.
- **Numbers** are natural numbers. A number token stands for the value its digits denote.
- **The parser's round trip.** `ProgramTokens` prints a program as tokens. `ProgramRoundTrip` proves that every program the grammar allows parses back to itself, with or without a `;` after each statement.

Files:

- `common.dfy`: `Option` and `Result`.
- `tokens.dfy`: the token datatype.
- `ast.dfy`: the syntax tree.
- `lexer.dfy` and `lexer_properties.dfy`: the lexer and its lemmas.
- `parser.dfy` and `parser_properties.dfy`: the parser and its lemmas.
- `interpreter.dfy` and `interpreter_properties.dfy`: the interpreter and its lemmas.
- `runtime.dfy`: the pipeline and its lemmas.
- `argument_parser.dfy`: the CLI argument parser.

## Model

| member | source | states |
|---|---|---|
| Lexing.Lexer.constructor | runtime/src/frontend/lexer.cpp:40-41 | a new lexer is at position 0, at the line and column it is given, and its cursor invariant holds |
| Lexing.Lexer.Tokenize | runtime/src/frontend/lexer.cpp:43-113 | the tokens are exactly the reference scan `LexFrom` of the source from the cursor, and the cursor ends at the end of the source with the line and column of the whole text walked |
| Lexing.Lexer.ScanToken | runtime/src/frontend/lexer.cpp:54-105 | at a character that starts a token, scanning by character class gives the reference token `ScanAt`, and the cursor moves to its maximal-munch end `TokenEnd` |
| Lexing.Lexer.ScanWord | runtime/src/frontend/lexer.cpp:57-70 | an identifier or keyword is the longest run of letters, digits and `_`, with the reference kind and position |
| Lexing.Lexer.ScanNumber | runtime/src/frontend/lexer.cpp:74-80 | a number is the longest run of digits |
| Lexing.Lexer.ScanString | runtime/src/frontend/lexer.cpp:84-95 | a string runs through the next quote, or to the end of input when there is none |
| Lexing.Lexer.ScanSymbol | runtime/src/frontend/lexer.cpp:99-104 | a symbol is one character |
| Lexing.Lexer.Advance | runtime/src/frontend/lexer.cpp:119-129 | at the end nothing moves and `'\0'` is returned; otherwise the current character is returned, the position moves by one, and `\n` moves to the next line at column 1 while any other character moves one column on; the cursor invariant is kept |
| Lexing.Lexer.IsAtEnd | runtime/src/frontend/lexer.cpp:131-133 | true exactly when the cursor is at the end of the source, and otherwise the cursor is inside it |
| Lexing.Lexer.Peek | runtime/src/frontend/lexer.cpp:115-117 | the character at the cursor, or `'\0'` once the source is consumed |
| Lexing.Lexer.SkipWhiteSpace | runtime/src/frontend/lexer.cpp:135-137 | the cursor moves to the end of the run of white space |
| Lexing.Lexer.IsKeyword | runtime/src/frontend/lexer.cpp:139-144 | true exactly when the lexeme is in the keyword list |
| Lexing.SkipSpacesLexSame | runtime/src/frontend/lexer.cpp:46-48 | skipping white space first does not change the tokens scanned |
| Lexing.LexFromSkip | runtime/src/frontend/lexer.cpp:107-108 | a character that starts no token is skipped and produces nothing |
| LexingProperties.LexFromEndsWithEof | runtime/src/frontend/lexer.cpp:46-111 | the scan always ends with exactly one end-of-file token, at the end of the source, and no earlier token is end-of-file |
| LexingProperties.ScanAtWellShaped | runtime/src/frontend/lexer.cpp:57-104 | each scanned token is well shaped, as listed in the next row |
| LexingProperties.LexFromWellShaped | runtime/src/frontend/lexer.cpp:50-105 | every token but the last is well shaped: its lexeme is a non-empty slice of the source at its offset; a word is a maximal identifier run, and a keyword exactly when it is in the keyword list; a number is a maximal digit run; a string starts with a quote, has no inner quote, and is closed or runs to the end of input; a symbol is one character of `+-*/=;(){}[],.` |
| LexingProperties.LexFromInOrder | runtime/src/frontend/lexer.cpp:50-108 | the token slices come in increasing, non-overlapping order, and every character before or between them is white space or a character that starts no token |
| LexingProperties.LexFromLocations | runtime/src/frontend/lexer.cpp:50-52 | each token records the line and column reached by walking the source up to its first character |
| LexingProperties.WalkCountsLinesAndColumns | runtime/src/frontend/lexer.cpp:119-129 | walking a text adds one line per newline; without a newline it adds one column per character, and otherwise the column counts from 1 after the last newline |
| LexingProperties.DigitsLexToOneNumber | runtime/src/frontend/lexer.cpp:74-80 | a text of digits lexes to one number token holding all of it, then the end-of-file token |
| LexingProperties.VarDeclarationTokens | runtime/src/frontend/lexer.cpp:43-113 | `var x = 5;` lexes to keyword `var`, identifier `x`, symbols `=`, number `5`, `;`, and the end-of-file token |
| Parsing.Parser.constructor | runtime/include/breezy/frontend/parser.hpp:42-48 | the parser holds the given tokens and starts at cursor 0 |
| Parsing.Parser.Parse | runtime/src/frontend/parser.cpp:46-52 | the loop yields the reference parse `ParseFrom` from the cursor: all statements up to end-of-file, or the first syntax error; the tokens are read-only |
| Parsing.Parser.Statement | runtime/src/frontend/parser.cpp:54-59 | result and cursor agree with `StatementAt`: a declaration after `var`, otherwise an expression statement |
| Parsing.Parser.VarDeclaration | runtime/src/frontend/parser.cpp:61-73 | result and cursor agree with `VarDeclarationAt` |
| Parsing.Parser.ExprStatement | runtime/src/frontend/parser.cpp:75-79 | result and cursor agree with `ExprStatementAt` |
| Parsing.Parser.Expression | runtime/src/frontend/parser.cpp:81-83 | an expression is a primary |
| Parsing.Parser.Primary | runtime/src/frontend/parser.cpp:85-127 | result and cursor agree with `PrimaryAt`, including each of the three error messages |
| Parsing.Parser.Match | runtime/src/frontend/parser.cpp:129-135 | it matched exactly when `check` holds, and only then did the cursor move by one |
| Parsing.Parser.Advance | runtime/src/frontend/parser.cpp:145-148 | the cursor moves by one unless it is at end-of-file, and the token passed is returned; the cursor stays in bounds |
| Parsing.Parser.Check | runtime/src/frontend/parser.cpp:137-143 | true exactly when the current token is not end-of-file, has the kind, and has the lexeme unless the lexeme asked for is empty |
| Parsing.Parser.IsAtEnd | runtime/src/frontend/parser.cpp:150-152 | true exactly when the current token is end-of-file; otherwise a further token exists |
| Parsing.Parser.Peek | runtime/src/frontend/parser.cpp:154-156 | the token at the cursor, which at the last position is the end-of-file token |
| Parsing.Parser.Previous | runtime/src/frontend/parser.cpp:158-160 | the token before the cursor, defined only once the cursor has moved; it is never the last token |
| Parsing.Parser.Consume | runtime/src/frontend/parser.cpp:162-165 | a token of the kind is taken and returned; otherwise it fails with the message and does not move |
| Parsing.StatementAt | runtime/src/frontend/parser.cpp:54-59 | a statement that parses consumes at least one token and leaves the cursor in bounds |
| Parsing.ParseFrom | runtime/src/frontend/parser.cpp:46-52 | a successful parse has fewer statements than there are tokens left |
| Parsing.ParseFromStep | runtime/src/frontend/parser.cpp:48-50 | one round of the parse loop either appends the statement and goes on, or ends the parse with the error |
| ParsingProperties.CheckTestsKindAndLexeme | runtime/src/frontend/parser.cpp:137-143 | with the default empty lexeme `check` tests the kind only; with a lexeme it also requires that lexeme; it is false at end-of-file |
| ParsingProperties.VarNeedsIdentifier | runtime/src/frontend/parser.cpp:61-62 | after `var`, anything but an identifier (a keyword included) fails with "Expected variable name after 'var'." |
| ParsingProperties.NonExpressionFails | runtime/src/frontend/parser.cpp:85-126 | a string, a symbol (a stray `;` included) or end-of-file where an expression is expected fails with "Expected expression at token: " followed by the lexeme |
| ParsingProperties.CallArgumentMustBeSimple | runtime/src/frontend/parser.cpp:97-111 | `name(` followed by anything but a number or a name fails, as in `print()` |
| ParsingProperties.CallNeedsCloseParen | runtime/src/frontend/parser.cpp:113-116 | a call's one argument not followed by `)` fails, as in `print(1,2)` and `print(f(1))` |
| ParsingProperties.ErrorAbortsParse | runtime/src/frontend/parser.cpp:46-52 | a syntax error in any statement the parse reaches makes the whole parse fail with that message |
| ParsingProperties.PrimaryOfOneToken | runtime/src/frontend/parser.cpp:86-90 | a number token gives a literal of its value; a name not followed by `(` gives a variable of that name; each consumes one token |
| ParsingProperties.VarDeclarationShape | runtime/src/frontend/parser.cpp:61-73 | a parsed declaration is named by an identifier, has an initializer exactly when `=` follows the name, and consumes at most one `;` |
| ParsingProperties.ParsedProgramIsParsable | runtime/src/frontend/parser.cpp:85-127 | every statement of a successful parse is in the grammar: a literal is never a string, and a call has one number or variable argument |
| ParsingProperties.DecimalRoundTrip | runtime/src/frontend/parser.cpp:88 | reading back the decimal digits of a number gives the number |
| ParsingProperties.StmtRoundTrip | runtime/src/frontend/parser.cpp:54-79 | a printed statement, with or without `;`, parses back to itself and consumes exactly its tokens, when the token after them is not a symbol (a `;` left over would otherwise be taken as the statement's own) |
| ParsingProperties.ExprRoundTrip | runtime/src/frontend/parser.cpp:85-124 | a printed expression parses back to itself when no `(` follows |
| ParsingProperties.ProgramRoundTrip | runtime/src/frontend/parser.cpp:46-127 | printing any program the grammar allows, each statement with or without `;`, gives tokens that parse back to exactly that program |
| ParsingProperties.ParseIgnoresPositions | runtime/src/frontend/parser.cpp:46-165 | the parse reads only kinds and lexemes: token sequences that differ only in offsets, lines and columns parse alike |
| Interpreting.Interpreter.constructor | runtime/include/breezy/frontend/interpreter.hpp:44 | a new interpreter has an empty environment |
| Interpreting.Interpreter.Execute | runtime/src/frontend/interpreter.cpp:36-38 | the new environment and the output are those the reference `Run` gives for the statement |
| Interpreting.Interpreter.ExecVarDecl | runtime/src/frontend/interpreter.cpp:40-46 | the name is bound to the initializer's value, or to 0 without one, replacing any earlier binding; the other bindings are unchanged |
| Interpreting.Interpreter.ExecExprStmt | runtime/src/frontend/interpreter.cpp:48-50 | the expression is evaluated for its output only; the environment is not modified |
| Interpreting.Interpreter.Eval | runtime/src/frontend/interpreter.cpp:52-54 | value and output are those of the reference `Evaluate`; the environment is not modified |
| Interpreting.Interpreter.EvalVariable | runtime/src/frontend/interpreter.cpp:64-69 | a bound name gives its value and writes nothing; an unbound one gives 0 and writes one undefined-variable diagnostic naming it, and adds no binding |
| Interpreting.Interpreter.EvalCall | runtime/src/frontend/interpreter.cpp:71-80 | the argument loop writes what `Evaluate` says; every call is worth 0 |
| InterpretingProperties.RunProgramAppend | runtime/src/runtime_instance.cpp:99-107 | running statements one after another on one environment composes: the second part runs on what the first leaves, and the outputs concatenate |
| InterpretingProperties.VariablesAfterProgram | runtime/src/frontend/interpreter.cpp:40-46 | after a program the bound names are those bound before plus those it declares |
| InterpretingProperties.UndeclaredVariableUnchanged | runtime/src/frontend/interpreter.cpp:45 | a name the program never declares keeps its binding, or stays unbound |
| InterpretingProperties.LastDeclarationWins | runtime/src/frontend/interpreter.cpp:40-46 | a variable holds the value of its last declaration, overwriting earlier ones |
| InterpretingProperties.OneLinePerPrint | runtime/src/frontend/interpreter.cpp:71-80 | the number of line ends written equals the number of `print` calls evaluated |
| InterpretingProperties.DiagnosticsNameUndefinedVariables | runtime/src/frontend/interpreter.cpp:64-79 | an undefined-variable diagnostic for `x` is written exactly when evaluation looks `x` up and `x` is unbound |
| InterpretingProperties.OtherCallsDoNothing | runtime/src/frontend/interpreter.cpp:71-79 | a call to anything but `print` writes nothing, not even diagnostics for its arguments, and is worth 0 |
| InterpretingProperties.PrintWritesArgumentValues | runtime/src/frontend/interpreter.cpp:71-80 | `print` with number and variable arguments writes each argument's value in order, and ends with one line end as its last event |
| InterpretingProperties.ProgramWritesNoParserError | runtime/src/frontend/interpreter.cpp:36-80 | running statements never writes a syntax error |
| Runtime.RuntimeInstance.Execute | runtime/src/runtime_instance.cpp:82-108 | lex, then parse, then run the statements in order on one fresh interpreter; the trace is `ExecuteTrace` |
| Runtime.RuntimeInstance.RunString | runtime/src/runtime_instance.cpp:78-80 | `run_string` writes exactly what `execute` writes |
| Runtime.RuntimeInstance.constructor | runtime/src/runtime_instance.cpp:46-48 | a runtime instance holds no state, so every `Execute` builds its own lexer, parser and interpreter |
| Runtime.LexedTokensAreValid | runtime/src/runtime_instance.cpp:83-88 | lexing cannot fail: its tokens are always a valid parser input |
| Runtime.SyntaxErrorRunsNothing | runtime/src/runtime_instance.cpp:88-96 | a failed parse writes only the syntax error, so no statement runs and nothing is printed; a successful parse writes no syntax error |
| Runtime.TraceIgnoresOrigin | runtime/src/runtime_instance.cpp:82-108 | what a text writes does not depend on the line and column the lexer starts counting from |
| CommandLine.ArgumentParser.constructor | cli/src/services/argument_parser.cpp:33-38 | the alias table maps `--version` and `-v` to `version`, and `--help` and `-h` to `help` |
| CommandLine.ArgumentParser.Parse | cli/src/services/argument_parser.cpp:40-63 | the result is `Interpret(aliases, argv)`; the alias table is only read |
| CommandLine.NoCommandMeansHelp | cli/src/services/argument_parser.cpp:42-44 | with fewer than two entries the result is `help` with no arguments |
| CommandLine.StandardAliasesResolve | cli/src/services/argument_parser.cpp:33-38 | the four standard aliases resolve to `version` and `help` |
| CommandLine.StandardResolutionIsFinal | cli/src/services/argument_parser.cpp:49-57 | with the standard table a command resolves to `version`, to `help` or to itself, and resolving it again changes nothing |
| CommandLine.UnknownCommandUnchanged | cli/src/services/argument_parser.cpp:50-57 | a command that is not an alias is returned unchanged |
| CommandLine.ArgumentsPassThrough | cli/src/services/argument_parser.cpp:59-62 | the remaining arguments are `argv[2..]` in order, `argc - 2` of them |
| CommandLine.OnlyCommandIsResolved | cli/src/services/argument_parser.cpp:47-60 | only `argv[1]` is resolved: the same command gives the same result whatever follows, and later entries pass through untouched |

## Left out

- Numbers:
  - Number values are natural numbers, computed from the digit string. `std::stod` and `double` arithmetic and precision are left out.
  - `std::stod` overflow (`std::out_of_range`) is left out.
  - A `Number` token is taken to hold a run of digits, as the lexer makes it. `DigitsValue` and `ParsingProperties.PrimaryOfOneToken` also give a value to any other number lexeme: `"12.5"` would give 1205 where `std::stod` gives 12.5, and an empty lexeme would give 0 where `std::stod` throws `std::invalid_argument`. The lexer never makes such a token.
  - The text `std::cout` makes of a `double` (for example `1e+06`) is left out. `Printed(v)` stands for that text followed by a space.
- Output streams: standard output and standard error are merged into one ordered trace. Their flushing and interleaving are not modelled.
- Files: `run_file` (runtime_instance.cpp:54-76) is file I/O. Only `run_string` and `execute` are modelled.
- `cli/src/main.cpp` and the `CommandTable` it dispatches to are not part of this model.
- Lexer line and column:
  - lexer.hpp is not part of this model.
  - The lexer's starting line and column are a parameter, `origin`. `TraceIgnoresOrigin` shows that nothing observable depends on them.
  - The 32-bit wrap-around of `std::uint32_t` line and column counts is not modelled. Counts are unbounded.
- Keywords: the keyword list of lexer.hpp is taken to be `["var"]`.
- Characters: each `char` of the source stands for one byte. The character classes are those of the "C" locale; locale-dependent classification is left out.
- Tokens:
  - token.hpp is not part of this model.
  - A token's `string_view` lexeme becomes an owned string plus its `offset` in the source. The end-of-file token has an empty lexeme at offset `|source|`.
  - Lifetimes of views into the source and the token vector are not modelled.
- Interpreter environment: its keys are `string_view`s into the source text. They become owned strings. Lifetimes are not modelled.
- Runtime errors: the per-statement `catch` of `std::runtime_error` in `execute` (runtime_instance.cpp:101-106) is not modelled. No interpreter operation in the source throws one, so in the model that branch is unreachable and each statement simply runs.
- Parsing.Parser.Advance: requires that the cursor has moved past the first token when it is at end-of-file. In that case `previous()` would read before the first token (runtime/src/frontend/parser.cpp:145-148, 158-160). The parser only calls `advance` after a successful `check`, so it never reaches that case.
- Parser cursor: after a syntax error the parser's cursor is left unspecified, since its only caller abandons the parser.
- Parsing.IsCursor: states only that the cursor is in bounds. That the cursor never passes the end-of-file token follows from the end-of-file token being last, and `Parser.Advance` never moving past it.
- ParsingProperties.ProgramTokens: prints every name as an `Identifier` token. The parser also accepts `Keyword` tokens as names (runtime/src/frontend/parser.cpp:93, 105), and those token sequences are covered by `ParseIgnoresPositions` and the error lemmas, but not by the round trip.
- Scenario: the full `execute` of a concrete multi-statement text is not worked out as a lemma. Tokens of `var x = 5;` are, in `VarDeclarationTokens`.
