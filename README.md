# Satan front end and stores, modelled in Dafny

This project models the front end of the small scripting language in the
Satan repository. It also models the variable stores and run loop around it.

- **Scanner** (`src/lexer.cpp`).
  - `Scanner.Lexer` is a class with the `start`, `current` and `line` cursors. Its `tokens` list grows in place.
  - `IsAtEnd`, `Peek` and `PeekNext` are plain helpers without contracts of their own. They are verified through the loops that use them, in `AdvanceToQuote`, `AdvanceDigits`, `MultiLineComment` and `Number`.
  - Each of its other methods is proved against `ScanSpec`, a pure reference scanner. `ScanSpec.Step` is one call of `scanToken`, and `ScanSpec.ScanFrom` is the loop of `scanTokens`.
  - `ScanProperties` proves what the scanner promises: a single EOF token, line counting, maximal munch, comments, string and number literals, keywords and error tokens.
- **Parser** (`src/parser.cpp`).
  - `Parsing.Parser` is a class with a token cursor. It has `match`/`check`/`advance`/`consume`, the expression levels `term`, `factor` and `primary`, `let`/`var` declarations, `print` statements, and `parse`.
  - Each method is proved against `ParseSpec`, a pure reference parser. `ParseSpec` also proves:
    - precedence and left association;
    - that a tree holds exactly the tokens consumed;
    - the error messages;
    - where `parse` stops making progress.
  - `Ast` holds the syntax tree of `include/parser.h`. It also holds `evaluate`/`execute` over the global name-to-number map of `src/parser.cpp`. The map is kept both as a value and as the class `Ast.GlobalEnvironment`.
- **Scoped environment** (`src/environment.cpp`). `ScopedEnvironment.Environment` has a map from names to a number or a function, and a parent link.
  - `getNumber` is proved to equal `LookupNumber`, a search over the scope chain from the innermost scope outward.
  - `getFunction` and `exists` consult only the local scope.
- **Flat store** (`Satan/src/environment.cpp`). `FlatEnvironment.Environment` has one map, with `define` and `get`.
- **Interpreter** (`src/interpreter.cpp`). `Interpreting.Interpreter` runs statements in order against its flat store, and the first runtime error ends the run. The methods are proved against `RunFrom`, a pure definition of the run.

Where the code and its documentation differ, the model follows the code, with two exceptions:
- The keyword initialiser at `src/lexer.cpp:12-29` does not compile as written. The model uses the table it evidently means, with all sixteen entries.
- The initialiser maps `summon` to `SUMMON`, a kind only the older root `lexer.h` declares. The model adds `SUMMON` to the kinds of `include/lexer.h`.

Characters are ASCII. `isdigit`, `isalpha` and `isalnum` are taken in the "C" locale.

## Model

| member | source | states |
|---|---|---|
| Tokens.KeywordKinds | src/lexer.cpp:12-29 | every word of the keyword table has a keyword kind of its own: no two words share a kind, none is IDENTIFIER, STRING, NUMBER, EOF or ERROR, and `summon` is SUMMON |
| Scanner.Lexer.constructor | src/lexer.cpp:10-11 | a new lexer starts at offset 0 on line 1, with no tokens |
| Scanner.Lexer.Advance | src/lexer.cpp:102-104 | returns the character under the cursor and moves past it |
| Scanner.Lexer.Match | src/lexer.cpp:106-111 | consumes one character exactly when there is one and it is the expected one, and otherwise leaves the cursor alone |
| Scanner.Lexer.AddToken | src/lexer.cpp:123-126 | appends one token whose lexeme is the text from `start` to the cursor, on the current line |
| Scanner.Lexer.AdvanceToQuote | src/lexer.cpp:129-132 | stops at the first quote or at the end, and adds to the line counter the newlines it passed |
| Scanner.Lexer.String | src/lexer.cpp:128-144 | cursor, line and tokens afterwards are those of the reference step for a string literal |
| Scanner.Lexer.AdvanceDigits | src/lexer.cpp:147 | stops at the first non-digit after the cursor |
| Scanner.Lexer.Number | src/lexer.cpp:146-157 | appends the NUMBER token over the reference number's extent, and the cursor ends there |
| Scanner.Lexer.Identifier | src/lexer.cpp:159-169 | the cursor and tokens afterwards are those of the reference step for an identifier or keyword |
| Scanner.Lexer.MultiLineComment | src/lexer.cpp:171-182 | stops just after the first `*/`, or at the end when there is none, counting every newline inside the comment |
| Scanner.Lexer.AdvanceToNewline | src/lexer.cpp:71-72 | stops at the next newline or at the end |
| Scanner.Lexer.Slash | src/lexer.cpp:70-78 | a line comment, a block comment or the SLASH token, exactly as the reference step says |
| Scanner.Lexer.ScanOther | src/lexer.cpp:89-98 | the `default` case: a number, an identifier or one ERROR token, as the reference step says |
| Scanner.Lexer.ScanToken | src/lexer.cpp:45-100 | one call consumes one lexeme: cursor, line and appended tokens equal `ScanSpec.Step` |
| Scanner.Lexer.ScanTokens | src/lexer.cpp:32-39 | the cursor ends at the end of the text with the lexer still valid; the line counter rises by exactly the newlines of the text it scanned; the token list becomes the old list plus `ScanSpec.ScanFrom` of that text, EOF included, and that list is returned |
| ScanSpec.Step | src/lexer.cpp:45-100 | one step always consumes at least one character, never passes the end, and emits at most one token, never EOF, on the step's final line |
| ScanSpec.ScanFrom | src/lexer.cpp:32-39 | the scan ends with an EOF token with an empty lexeme, and no other token is EOF |
| ScanSpec.NumberEnd | src/lexer.cpp:146-157 | a number consumes at least its first digit, never passes the end, and is never followed by a digit |
| ScanSpec.IdentifierStep | src/lexer.cpp:159-169 | an identifier step consumes at least one character, never passes the end, keeps the line, and emits one token whose lexeme is the text consumed |
| ScanSpec.SkipWhile | src/lexer.cpp:147 | the end of the maximal run of characters with the property, from the given index |
| ScanSpec.BlockCommentEnd | src/lexer.cpp:172-175 | the first `*/` at or after the index, or the end of the text when there is none |
| ScanSpec.SlashStep | src/lexer.cpp:70-78 | a slash step consumes at least the slash and never passes the end |
| ScanSpec.StringStep | src/lexer.cpp:128-144 | a string step consumes at least the quote and never passes the end |
| ScanProperties.StepLine | src/lexer.cpp:83-85 | the line counter rises by exactly the number of newlines a step consumes, including those inside strings and block comments |
| ScanProperties.ScanFromLines | src/lexer.cpp:32-39 | token lines never decrease, and the EOF line is the starting line plus the newlines of the rest of the text |
| ScanProperties.ScanEndsWithEof | src/lexer.cpp:37 | the scan ends with exactly one EOF token, with an empty lexeme, on line 1 plus the number of newlines; every token's line lies between 1 and that |
| ScanProperties.TwoCharOperators | src/lexer.cpp:58-69 | `!`, `=`, `<`, `>` give the two-character operator exactly when `=` follows, otherwise the one-character one |
| ScanProperties.LineComment | src/lexer.cpp:71-72 | a `//` comment emits nothing and stops at the next newline or the end, without counting a line |
| ScanProperties.BlockComment | src/lexer.cpp:171-182 | a block comment emits nothing, ends just after its first `*/`, and when never closed consumes the rest of the text without an ERROR token |
| ScanProperties.ClosingQuote | src/lexer.cpp:129-132 | the search for the closing quote stops at a quote exactly when one follows the opening quote |
| ScanProperties.StringLiteral | src/lexer.cpp:128-144 | a closed string gives a STRING token with the text strictly between the quotes; an unclosed one gives an ERROR token and consumes the rest of the text |
| ScanProperties.NumberEndText | src/lexer.cpp:146-153 | a number spans a maximal digit run, then optionally a dot and at least one more digit |
| ScanProperties.NumberLiteral | src/lexer.cpp:146-157 | a number gives one NUMBER token for exactly that text; a dot without a following digit is not part of it |
| ScanProperties.Identifier | src/lexer.cpp:159-169 | (the property of `ScanSpec.IdentifierKind`) an identifier runs over letters, digits and `_` as far as they go, and gets its keyword's kind exactly when its text is in the keyword table, else IDENTIFIER |
| ScanProperties.UnexpectedCharacter | src/lexer.cpp:94-96 | a character no rule accepts gives one ERROR token holding just that character, and scanning continues after it |
| ScanProperties.StepLexeme | src/lexer.cpp:123-126 | every lexeme except a STRING's is exactly the text the step consumed, and a STRING's is that text without its quotes |
| ScanProperties.ScanLetStatement | tests/test_lexer.cpp:18-34 | `let x = 42;` scans as LET, IDENTIFIER, EQUAL, NUMBER "42", SEMICOLON, EOF, all on line 1 |
| ScanProperties.ScanTrailingDot | src/lexer.cpp:149-153 | `1.` scans as NUMBER "1", then DOT, then EOF |
| Parsing.Parser.constructor | src/parser.cpp:9 | a parser over a list ending in EOF starts at cursor 0 |
| Parsing.Parser.Peek | src/parser.cpp:102-104 | the token under the cursor, which is EOF when the cursor is on the last token |
| Parsing.Parser.IsAtEnd | src/parser.cpp:112-114 | when the cursor is not on EOF, another token follows the current one |
| Parsing.Parser.CheckKind | src/parser.cpp:92-95 | true only when the current token has the kind and is not the last; never true for EOF_TOKEN, since `check` tests `isAtEnd` first |
| Parsing.Parser.Advance | src/parser.cpp:97-100 | steps over the current token unless it is EOF, never past the end of the list, and returns the token before the new cursor |
| Parsing.Parser.Match | src/parser.cpp:82-90 | consumes one token exactly when it is not EOF and its kind is listed, and otherwise leaves the cursor alone |
| Parsing.Parser.Consume | src/parser.cpp:106-110 | returns the current token and moves past it when its kind is the expected one, and otherwise fails with the given message |
| Parsing.Parser.Primary | src/parser.cpp:72-80 | tree and cursor afterwards are those of `ParseSpec.PrimaryAt` |
| Parsing.Parser.Factor | src/parser.cpp:62-70 | tree and cursor afterwards are those of `ParseSpec.FactorAt` |
| Parsing.Parser.Term | src/parser.cpp:52-60 | tree and cursor afterwards are those of `ParseSpec.TermAt` |
| Parsing.Parser.Expression | src/parser.cpp:48-50 | an expression is a term, as `ParseSpec.TermAt` says |
| Parsing.Parser.Initializer | src/parser.cpp:29-31 | after the name, `= expression` when `=` follows, and otherwise the null node without consuming |
| Parsing.Parser.VarDeclaration | src/parser.cpp:25-35 | statement, cursor and error message agree with `ParseSpec.VarDeclarationAt` |
| Parsing.Parser.PrintStatement | src/parser.cpp:42-46 | statement, cursor and error message agree with `ParseSpec.PrintStatementAt` |
| Parsing.Parser.Statement | src/parser.cpp:37-40 | statement, cursor and error message agree with `ParseSpec.StatementAt` |
| Parsing.Parser.Declaration | src/parser.cpp:20-23 | statement, cursor and error message agree with `ParseSpec.DeclarationAt` |
| Parsing.Parser.Parse | src/parser.cpp:11-18 | the outcome is `ParseSpec.ParseFrom` of the start cursor: the statements up to EOF, the first fatal error, or the cursor where the loop stops making progress; the parser stays valid, its cursor is on EOF after a full parse and at the stuck token when the loop stops making progress |
| ParseSpec.PrimaryAt | src/parser.cpp:72-80 | `primary` never moves the cursor past the EOF token |
| ParseSpec.FactorAt | src/parser.cpp:62-70 | `factor` never moves the cursor backwards or past the EOF token |
| ParseSpec.TermAt | src/parser.cpp:52-60 | `term` never moves the cursor backwards or past the EOF token |
| ParseSpec.InitializerAt | src/parser.cpp:29-31 | the initializer never moves the cursor backwards or past EOF |
| ParseSpec.VarDeclarationAt | src/parser.cpp:25-35 | a declaration that parses consumes at least the name and yields a statement |
| ParseSpec.PrintStatementAt | src/parser.cpp:42-46 | a print statement that parses consumes at least the `;` and yields a statement |
| ParseSpec.StatementAt | src/parser.cpp:37-40 | `statement` yields a statement exactly when it consumes something, and null otherwise |
| ParseSpec.DeclarationAt | src/parser.cpp:20-23 | `declaration` yields a statement exactly when it consumes something, and null otherwise |
| ParseSpec.FactorRest | src/parser.cpp:64-67 | the loop of `factor` never moves the cursor backwards or past the EOF token |
| ParseSpec.TermRest | src/parser.cpp:54-57 | the loop of `term` never moves the cursor backwards or past the EOF token |
| ParseSpec.ParseFrom | src/parser.cpp:11-18 | a parse that stops making progress does so at a token other than EOF at or after its start; a fatal error carries one of the three messages of `consume` calls in the parser |
| ParseSpec.PrimaryShape | src/parser.cpp:72-80 | `primary` accepts exactly a NUMBER or IDENTIFIER token and keeps the token it consumes; otherwise it returns the null node without consuming |
| ParseSpec.FactorRestShape | src/parser.cpp:64-67 | the loop of `factor` extends a left-leaning `*`/`/` tree with exactly the tokens it consumes, and stops only where no `*` or `/` follows |
| ParseSpec.FactorShape | src/parser.cpp:62-70 | `factor` builds a left-leaning tree of primaries joined by `*` and `/` from exactly the tokens it consumes, and stops only where no `*` or `/` follows |
| ParseSpec.TermRestShape | src/parser.cpp:54-57 | the loop of `term` extends a left-leaning `+`/`-` tree of factors with exactly the tokens it consumes |
| ParseSpec.TermShape | src/parser.cpp:52-60 | `expression` builds a term tree: `*` and `/` bind tighter than `+` and `-`, every operator associates left, the tree holds exactly the tokens consumed in order, and parsing stops only where no operator follows |
| ParseSpec.VarDeclarationNeedsName | src/parser.cpp:25-26 | a missing name after `let`/`var` is, exactly, the fatal "Expected variable name." error; any other failure is the `;` error |
| ParseSpec.VarDeclarationShape | src/parser.cpp:25-35 | a parsed declaration is a name, then `= expression` or nothing, then `;`; the initializer is a term tree of exactly the tokens between `=` and `;`, or the null node |
| ParseSpec.MissingSemicolon | src/parser.cpp:32 | with a name present, the declaration fails with the `;` message exactly when no `;` follows the initializer |
| ParseSpec.PrintStatementSyntax | src/parser.cpp:42-46 | a print statement is a term tree of exactly the tokens before a `;`, and fails with "Expected ';' after value." exactly when that `;` is missing |
| ParseSpec.ParseHangs | src/parser.cpp:11-18 | `parse` stops making progress at once at a token other than VAR, LET, PRINT and EOF, and whenever it does so it is at such a token |
| ParseSpec.ParseSequence | src/parser.cpp:11-18 | a successful parse is its first declaration followed by the parse of the rest |
| ParseSpec.SubtractionLeansLeft | src/parser.cpp:52-60 | `a - b - c` parses as `(a - b) - c` |
| ParseSpec.ProductBindsTighter | Satan/tests/test_parser.cpp:7 | `3 + 5 * 2` parses as `3 + (5 * 2)` |
| Ast.Evaluate | src/parser.cpp:120-158 | evaluation succeeds exactly when every name the expression reads is bound and the tree has no null node |
| Ast.EvaluateReadsOnlyVars | src/parser.cpp:132-138 | evaluation depends only on the bindings of the names the expression mentions |
| Ast.UnboundVariable | src/parser.cpp:132-138 | reading a name fails exactly when it is unbound, with the "Undefined variable" message |
| Ast.InitialValue | src/parser.cpp:161 | a declaration without initializer gives 0; the initial value exists exactly when there is no initializer or it reads only bound names and has no null node |
| Ast.Execute | src/parser.cpp:160-170 | a print fails on a null node anywhere in its tree before any name is read, since it prints the tree first; otherwise it succeeds exactly when its expression evaluates, and it leaves the map as it was; a successful declaration adds exactly its name to the map's names and keeps every other binding |
| Ast.DeclarationBinds | src/parser.cpp:160-164 | a declaration succeeds exactly when its initializer is absent or evaluates. It then binds the name to the initializer's value, or to 0 without one, and leaves every other binding as it was |
| Ast.PrintNullBeforeUnbound | src/parser.cpp:166-170 | for `print x + ;` with `x` unbound, evaluation alone would report the unbound name, but the print statement reports the null node that printing reaches first |
| Ast.PrintKeepsEnvironment | src/parser.cpp:166-170 | printing never changes the global map |
| Ast.GlobalEnvironment.constructor | src/parser.cpp:7 | the global map starts empty |
| Ast.GlobalEnvironment.Run | src/parser.cpp:160-170 | the global map afterwards is what `Execute` says, including a print's failure on a null node before evaluation; a fatal error leaves it unchanged |
| FlatEnvironment.Environment.constructor | include/environment.h:9 | the store starts with no bindings |
| FlatEnvironment.Environment.Get | Satan/src/environment.cpp:12-20 | `get` succeeds exactly when the name is bound, yields its value, fails with "Undefined variable: " and the name otherwise, and changes nothing |
| FlatEnvironment.Environment.Define | Satan/src/environment.cpp:6-9 | binds or overwrites the name; `get` of it then yields the value, and every other name reads as before |
| ScopedEnvironment.Environment.constructor | src/environment.cpp:16 | a new scope has no bindings of its own and is linked to the given parent, whose chain it extends without a cycle |
| ScopedEnvironment.LookupFindsInnermost | src/environment.cpp:11-16 | the lookup yields the number of the innermost scope that holds a number under the name, whatever the scopes inside it bind the name to |
| ScopedEnvironment.LookupFails | src/environment.cpp:16-17 | the lookup fails exactly when no scope holds a number under the name, and then with "Undefined variable or not a number: " and the name |
| ScopedEnvironment.Environment.GetNumber | src/environment.cpp:11-18 | `getNumber` equals the lookup over this scope and its enclosing ones, innermost first |
| ScopedEnvironment.Environment.GetFunction | src/environment.cpp:27-33 | succeeds exactly when this scope binds the name to a function, never consults the parent, and otherwise fails with "Undefined function: " and the name |
| ScopedEnvironment.Environment.Exists | src/environment.cpp:36-38 | true exactly when this scope binds the name, whatever the parent binds |
| ScopedEnvironment.Environment.Define | src/environment.cpp:6-9 | binds the name to a number in this scope only, replacing a number or function; the enclosing scopes are untouched, and `getNumber` yields the value |
| ScopedEnvironment.Environment.DefineFunction | src/environment.cpp:21-25 | binds the name to a function in the same map, so this scope's number of that name is gone and `getNumber` answers from the enclosing scopes |
| ScopedEnvironment.LocalFunctionDoesNotHide | src/environment.cpp:13-16 | a local function does not hide a number bound under the same name further out |
| Interpreting.ExecuteOne | src/interpreter.cpp:19-22 | a null statement leaves the store as it was; a statement that succeeds never unbinds a name |
| Interpreting.RunFrom | src/interpreter.cpp:8-16 | a run never unbinds a name, and it reports an error only when some statement fails against the store the run ended with |
| Interpreting.RunAppend | src/interpreter.cpp:8-16 | running two lists one after the other is running the first and, only when it raised no error, the second from the store the first left |
| Interpreting.FirstErrorStops | src/interpreter.cpp:9-15 | the first failing statement's error is the run's result, with the store the statements before it produced; nothing after it runs |
| Interpreting.Interpreter.constructor | src/interpreter.cpp:5 | the interpreter starts with an empty store |
| Interpreting.Interpreter.ExecuteIn | src/interpreter.cpp:21 | `Stmt::execute` run against a given store object (the counterpart of `Ast.GlobalEnvironment.Run`, which runs it against the global map): the store is updated as `Execute` says, or left unchanged with the error returned; a print fails on a null node before evaluating |
| Interpreting.Interpreter.ExecuteStatement | src/interpreter.cpp:19-22 | a null statement is a no-op; any other runs against the interpreter's store |
| Interpreting.Interpreter.Interpret | src/interpreter.cpp:8-16 | statements run in list order against the store; the first runtime error stops the run and is reported, not passed on; the store ends as `RunFrom` says |
| Interpreting.Interpreter.ExecuteBlock | src/interpreter.cpp:24-28 | statements run against `newEnv`, whose final state is what `RunFrom` says; the interpreter's own store is untouched unless it is `newEnv`; the first error is passed to the caller |
| Interpreting.Interpreter.EvaluateExpr | src/interpreter.cpp:31-34 | a null expression is 0; any other evaluates against the store and succeeds exactly when its names are bound and it has no null node |

## Left out

- Console output is not modelled: the diagnostics on `std::cout` and `std::cerr`, the `print` methods of the tree nodes, and the echo of `define` and `execute`.
- Numbers stay symbolic. `Ast.Num` records `std::stod` of a literal and each arithmetic operation, but does no double arithmetic. The divide-by-zero branch of `BinaryExpr::evaluate` and the `catch` around `std::stod` are therefore not modelled. A NUMBER lexeme whose value is beyond the range of `double` evaluates to 0 in the source; the model's `FromLexeme` number does not distinguish it.
- Fatal errors become results. `std::exit(1)` in `consume` and `VariableExpr::evaluate`, and the C++ exceptions of the environments, are all `Err` results. There is no process exit and no stack unwinding.
- A null tree node becomes an error. Evaluating or printing a null expression dereferences a null pointer in the source; in the model it is `Err("null expression")`. A print statement prints its tree before evaluating it, so a null node anywhere in the tree fails before evaluation reads any name.
- `parse` hangs on some inputs. At a statement that begins with a token other than VAR, LET, PRINT or EOF, the source loops forever. The model ends with the outcome `Hangs(at)` instead (`ParseSpec.ParseHangs`).
- The interpreter's signatures are not reconciled. `src/interpreter.cpp` calls `execute(Environment&)` and `evaluate(Environment&)`, which `src/parser.cpp` does not define. The interpreter here therefore runs the `evaluate`/`execute` semantics of `src/parser.cpp`, including its "Undefined variable 'x'" message, against the flat store of `include/environment.h`. It reports every runtime error the way `interpret` reports `std::runtime_error`. `include/interpreter.h` and the duplicate `AssembleStmt` in `include/parser.h` are not part of this model.
- Interpreting.Interpreter.ExecuteBlock: requires every statement to be present, because the source dereferences each one without a null check.
- The parser requires its token list to end with EOF, as `scanTokens` guarantees. On any other list `peek` reads out of range.
- The scoped environment's header is not part of this model. Its map type and the parent link are inferred from `src/environment.cpp`. A `FunctionObject` holds only its parameter names, and the constructor that links a scope to its parent is an assumption.
- Character classes are ASCII. Locale-dependent `isdigit`, `isalpha` and `isalnum` are not modelled.
- The scanner's integers are `nat`. The source's `int` line counter and its `int start` and `current` cursors are not modelled as overflowing, and neither are the `(int)source.length()` casts in `isAtEnd` and `peekNext` (`src/lexer.cpp:42`, `src/lexer.cpp:119`).
- The keyword table is the one the initialiser at `src/lexer.cpp:12-29` evidently means. `SUMMON` is added to the kinds of `include/lexer.h` for its `summon` entry.
- `main.cpp`, `Satan/main.cpp` and the test drivers are not part of this model, except for the two examples restated as lemmas.
