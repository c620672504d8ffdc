# kaffee, modelled in Dafny

kaffee is a small interpreter for a JavaScript-like scripting language. This project models and proves properties of its core:

- **The runtime store.** The allocation table and the stack of scope frames (module `Scopes`, class `Variables`), plus the tracing collector over a heap map (`GarbageCollector`).
- **The binary operators** of the standard library (`Operators`), with their runtime values (`Values`).
- **The current front end:**
  - the token classes and the precedence table (`Tokens`);
  - the streaming tokeniser with one token of lookahead (module `Lexing`, class `Tokeniser`);
  - the parser's token helpers (`ParserHelpers`);
  - the recursive-descent, precedence-climbing parser (module `Parsing`, class `Parser`);
  - the syntax tree it builds (`Ast`);
  - grammar properties of the parser (`ParserProperties`).
- **The legacy front end:** a character cursor (`LegacyCharStream`), its token classes (`LegacyTokens`) and its tokeniser (`LegacyTokeniser`), including the demo program its driver tokenises.

`Wrappers` holds the `Option`, `Result` and `Outcome` types used for the error paths.

Where the source panics, the model returns an error value instead: `RuntimeError`, `OperatorError`, `LexError`, `SyntaxError` or `LegacyError`.

Stateful code stays stateful:

- `Variables`, both `Tokeniser`s, `CharStream` and `Parser` are classes, and their methods update fields as the source does.
- Every method is proved against a function that says what it computes:
  - `FindIndex`, `Resolve` and `Bind` for the store;
  - `Collect` for the collector;
  - `NextToken` and `Lex` for the current tokeniser;
  - one function per parse method (`Atom`, `Component`, `BinaryTail`, …), joined to the method by `Agrees`;
  - `NextState` for the legacy tokeniser.
- The properties are proved as lemmas about those functions.

Numbers:

- Tokens and syntax-tree leaves keep a number's lexeme.
- Runtime numbers are 64-bit patterns. The IEEE operations on them come from a `FloatHost` parameter, because floating-point arithmetic is not part of this model.

End of input:

- The current parser reads its tokens as a sequence with a cursor `p`. End of input is `p >= |ts|`.
- At the end, `peek` and `read` keep showing the last token, because the source's `read_next` leaves `current` as it was.
- `read` does not move at the end.
- Before any token has been read, `current` is the number `0`.

The character stream of the current tokeniser, src/parsing/char_stream.rs, is not part of this model. It is represented by the text and an index, with end of input meaning `index >= |code|`.

## Model

| member | source | states |
|---|---|---|
| Scopes.Variables.constructor | src/interpretting/variables.rs:99-104 | a new store has no slots and no frames |
| Scopes.Variables.FindVariableIndex | src/interpretting/variables.rs:19-29 | the reverse loop over the frames returns `FindIndex`: the innermost binding, `UnresolvedIdentifier` when no frame binds the name, `EmptyScopeStack` when `len() - 1` would underflow |
| Scopes.LookupInnermost | src/interpretting/variables.rs:19-27 | a binding is found exactly when some frame binds the name, and it is the binding of the innermost such frame (inner frames shadow outer ones) |
| Scopes.LookupSkipsUnbound | src/interpretting/variables.rs:21-26 | frames above that do not bind the name are skipped: the lookup equals the lookup in the frames below them |
| Scopes.LookupFromFrame | src/interpretting/variables.rs:19-27 | an index that lookup finds is bound to the name by one of the frames |
| Scopes.FindIndex | src/interpretting/variables.rs:19-29 | `find_variable_index` fails with `EmptyScopeStack` exactly on an empty stack; otherwise it succeeds exactly when some frame binds the name, returns the innermost frame's binding, and fails with `UnresolvedIdentifier` otherwise |
| Scopes.Resolve | src/interpretting/variables.rs:14-17 | `resolve_identifier` returns the value of a slot that some frame binds the name to; in a store whose bound indices all address slots it fails exactly when the lookup fails |
| Scopes.Variables.ResolveIdentifier | src/interpretting/variables.rs:14-17 | returns the value in the slot the name is bound to (`Resolve`), or the lookup's error, or `IndexOutOfBounds` for a dangling index |
| Scopes.ResolveBound | src/interpretting/variables.rs:14-17 | in a store whose frames bind only existing slots, a name resolves to the value of the slot of its innermost binding |
| Scopes.Variables.NewScope | src/interpretting/variables.rs:31-33 | pushes one empty frame; the table is unchanged |
| Scopes.Variables.PopScope | src/interpretting/variables.rs:35-37 | removes the last frame, and changes nothing when there is none; the table is unchanged |
| Scopes.PopAfterPush | src/interpretting/variables.rs:31-37 | popping a freshly pushed frame gives back the stack |
| Scopes.ShadowThenPop | src/interpretting/variables.rs:31-48 | a name bound in a pushed frame shadows outer bindings, and popping that frame restores the stack |
| Scopes.Variables.AllocValue | src/interpretting/variables.rs:50-57 | appends exactly one slot holding the value and constant flag, and returns the old length; earlier slots and the frames are unchanged |
| Scopes.Variables.AddToScope | src/interpretting/variables.rs:45-48 | binds the name in the last frame only, overwriting a binding there; fails exactly when there is no frame |
| Scopes.LookupAfterBind | src/interpretting/variables.rs:45-48 | after binding, the name resolves to the new index and every other name resolves as before |
| Scopes.Variables.AllocInScope | src/interpretting/variables.rs:39-43 | the table grows by one slot, the name is bound to that slot's index, and `find_variable_index` then returns it |
| Scopes.AllocInScopeKeepsWellFormed | src/interpretting/variables.rs:39-43 | allocating and binding keeps every bound index inside the table |
| GarbageCollector.GcCollect | src/interpretting/garbage_collector.rs:8-30 | the root-gathering loops and the sweep loop leave exactly `Collect`: the table restricted to the indices that frames bind; the frames are only read |
| GarbageCollector.Collect | src/interpretting/garbage_collector.rs:24-29 | the sweep only removes slots: the kept indices were in the table and each keeps its value |
| GarbageCollector.RootsAreBoundIndices | src/interpretting/garbage_collector.rs:17-21 | an index is a root exactly when some frame binds some name to it |
| GarbageCollector.CollectKeepsExactlyBound | src/interpretting/garbage_collector.rs:24-29 | a slot survives exactly when it was in the table and some frame binds its index, and it keeps its value |
| GarbageCollector.CollectKeys | src/interpretting/garbage_collector.rs:24-29 | the surviving keys are the old keys intersected with the roots |
| GarbageCollector.CollectIdempotent | src/interpretting/garbage_collector.rs:24-29 | collecting twice is the same as collecting once |
| GarbageCollector.CollectIgnoresValues | src/interpretting/garbage_collector.rs:15-16 | object references are not followed: what survives depends only on the keys and the frames, not on the values in the slots |
| Operators.Generic | src/std_lib/operators.rs:19-25 | `generic` always answers with a boolean |
| Operators.Maths | src/std_lib/operators.rs:28-49 | `maths` succeeds exactly for the comparisons and the arithmetic operators; comparisons give booleans, arithmetic gives numbers, anything else is an invalid number operator |
| Operators.Bools | src/std_lib/operators.rs:52-58 | `bools` succeeds exactly for `&&` and `\|\|`, with a boolean; anything else is an invalid boolean operator |
| Operators.Strings | src/std_lib/operators.rs:60-65 | `strings` succeeds exactly for `+`; the result starts with the left string and ends with the right one, and its length is the sum of theirs |
| Operators.OperatorHandler | src/std_lib/operators.rs:3-16 | `operator_handler`: `==`, `!=`, comparisons and `&&`/`\|\|` give a boolean, arithmetic operators give a number or (for `+` on strings) a string; `==`/`!=` never fail, and the error is `InvalidTypeSignature` exactly when the operand types are not two numbers, two booleans or two strings |
| Operators.HandlerSucceedsIffSupported | src/std_lib/operators.rs:3-16 | an operation succeeds exactly for `==`/`!=` on anything, comparisons and arithmetic on two numbers, `&&`/`\|\|` on two booleans and `+` on two strings |
| Operators.EqualityAlwaysAnswered | src/std_lib/operators.rs:5-8 | `==` and `!=` are answered before type dispatch, for every pair of operands, always with a boolean |
| Operators.NotEqualIsNegation | src/std_lib/operators.rs:19-25 | `l != r` is the negation of `l == r` |
| Operators.BooleanSemantics | src/std_lib/operators.rs:52-58 | on two booleans, `&&` is logical and, `\|\|` is logical or |
| Operators.StringSemantics | src/std_lib/operators.rs:60-65 | on two strings, `+` is concatenation and every other non-generic operator is an error |
| Operators.NumberComparisons | src/std_lib/operators.rs:29-38 | on two numbers, `>`, `<`, `>=` and `<=` give the boolean of the host's matching f64 comparison |
| Operators.NumberArithmetic | src/std_lib/operators.rs:40-46 | on two numbers, `+`, `-`, `*`, `/`, `%` and `**` give the number of the host's matching f64 operation |
| Operators.UnknownNumberOperatorRejected | src/std_lib/operators.rs:47 | on two numbers, an operator that is neither generic, a comparison nor arithmetic is an invalid number operator |
| ParserProperties.BinaryIsNotAssignment | src/parsing/tokens.rs:60-62 | a binary operator is never an assignment operator |
| Operators.MismatchedTypesRejected | src/std_lib/operators.rs:10-15 | a non-generic operator on operands of different or unsupported types is an invalid type signature |
| Operators.ValueEqReflexive | src/std_lib/operators.rs:21 | a value equals itself exactly when none of its numbers, at any depth, is NaN (the host's f64 `==` finds each equal to itself); a value holding a NaN is not equal to itself |
| Operators.ValueEqSymmetric | src/std_lib/operators.rs:21-22 | with a symmetric f64 `==`, value equality is symmetric |
| Tokens.IsWhitespace | src/parsing/tokens.rs:26-29 | whitespace (space, tab, newline, `;`) is neither an identifier character, a number character nor a quote |
| Tokens.IsNumber | src/parsing/tokens.rs:31-34 | number characters never start an identifier |
| Tokens.IsKeyword | src/parsing/tokens.rs:36-41 | every keyword is written with identifier characters and starts with an identifier start |
| Tokens.IsOperator | src/parsing/tokens.rs:43-50 | every operator is 1 to 3 operator characters |
| Tokens.IsAssignmentOperator | src/parsing/tokens.rs:51-59 | every assignment operator is an operator ending in `=` |
| Tokens.IsBinaryOperator | src/parsing/tokens.rs:60-62 | operator and not assignment operator holds exactly for the 14 binary operators |
| Tokens.CompoundAssignmentIsBinary | src/parsing/tokens.rs:52-58 | a compound assignment operator without its `=` is a binary operator |
| Tokens.Precedence | src/parsing/tokens.rs:63-82 | the precedence is positive exactly for binary operators; it is 16 exactly for `**`, the highest, and 5 exactly for `\|\|`, the lowest positive one; everything else gets 0 |
| Tokens.IsOperatorChar | src/parsing/tokens.rs:84-87 | operator characters are disjoint from punctuation, whitespace, number and identifier characters |
| Tokens.IsPunctuation | src/parsing/tokens.rs:89-91 | punctuation is neither whitespace nor identifier characters; `.` is the one character that is both punctuation and a number character |
| Tokens.IsIdentifierStart | src/parsing/tokens.rs:93-99 | the identifier starts are exactly the identifier characters that are not digits |
| Lexing.RunEnd | src/parsing/tokeniser.rs:53-55 | the end of the longest run of a class: every character before it is in the class, and the one at it is not (or the input has ended) |
| Lexing.NextToken | src/parsing/tokeniser.rs:22-49 | `read_next`: at the end exactly when only whitespace remains; otherwise it reads at least one character and yields a well-formed token |
| Lexing.Lex | src/parsing/tokeniser.rs:98-118 | the tokens of repeated `read`s from `i`: no more tokens than characters left, none exactly when only whitespace remains, and the first is the one `read_next` reads |
| Lexing.LexTokensWellFormed | src/parsing/tokeniser.rs:22-96 | every token of a tokenised program is well formed: strings without quotes, identifiers that are not keywords, listed operators, numbers that parse as floats |
| Lexing.LeadingDotIsPunctuation | src/parsing/tokeniser.rs:32-45 | a `.` after whitespace is read as punctuation, never as the start of a number |
| Lexing.UnclassifiedCharacterRejected | src/parsing/tokeniser.rs:46-47 | a character of no class is an unexpected-character error |
| Lexing.LexRender | src/parsing/tokeniser.rs:22-96 | writing well-formed tokens out, each after a space, and tokenising the text gives back exactly those tokens |
| Lexing.Tokeniser.Init | src/parsing/tokeniser.rs:109-115 | the tokeniser starts at index 0, with current token the number 0 and not at the end |
| Lexing.Tokeniser.EatWhitespace | src/parsing/tokeniser.rs:16-20 | skips the whole run of whitespace: afterwards the input has ended or the next character is not whitespace |
| Lexing.Tokeniser.ReadOperator | src/parsing/tokeniser.rs:51-63 | reads the longest run of operator characters and accepts it exactly when it is a listed operator |
| Lexing.Tokeniser.ReadIdentifier | src/parsing/tokeniser.rs:65-76 | reads the longest run of identifier characters; a keyword exactly when the run is one |
| Lexing.Tokeniser.ReadString | src/parsing/tokeniser.rs:78-87 | reads the opening quote, the characters up to the closing one and the closing quote; the token is the characters between |
| Lexing.Tokeniser.ReadNumber | src/parsing/tokeniser.rs:89-96 | reads the longest run of number characters and accepts it when it parses as a float |
| Lexing.Tokeniser.ReadNext | src/parsing/tokeniser.rs:22-49 | agrees with `NextToken`: sets `eof` when only whitespace remains, otherwise makes the next token current |
| Lexing.Tokeniser.Peek | src/parsing/tokeniser.rs:98-100 | the current token, which is the token at the cursor of the program's tokens, or the stale last token at the end |
| Lexing.Tokeniser.Read | src/parsing/tokeniser.rs:102-106 | returns the old current token; the new current token, index, `eof` and error are exactly those `NextToken` gives from the old index; when the whole program tokenises, it moves one token on, staying put at the end |
| Lexing.New | src/parsing/tokeniser.rs:109-118 | a tokeniser over the source that has read its first token: current and index as `NextToken` gives them from 0, `eof` and `Number(0)` when only whitespace is there, the scan error otherwise; when the whole program tokenises, it tracks the tokens `Lex` gives |
| ParserHelpers.Expect | src/parsing/parser_helpers.rs:5-13 | reads one token and succeeds exactly when it is the expected punctuation |
| ParserHelpers.NextIsPunctuation | src/parsing/parser_helpers.rs:15-20 | holds exactly when the peeked token is that punctuation |
| ParserHelpers.NextIsKeyword | src/parsing/parser_helpers.rs:22-27 | holds exactly when the peeked token is that keyword |
| ParserHelpers.ExpectAfterNextIsPunctuation | src/parsing/parser_helpers.rs:5-20 | when the next token is the punctuation, expecting it succeeds and reads exactly that token |
| Parsing.Atom | src/parsing/parser.rs:16-58 | `parse_atom` never moves the cursor backwards, and moves it unless it fails; it builds only well-formed nodes |
| Parsing.Statement | src/parsing/parser.rs:60-75 | `parse_statement` moves forward and builds well-formed nodes |
| Parsing.VarDecl | src/parsing/parser.rs:125-139 | `parse_variable_declaration` moves forward and builds well-formed nodes |
| Parsing.ObjectLoop | src/parsing/parser.rs:77-123 | an object literal has as many keys as values and extends the keys read so far |
| Parsing.Delimited | src/parsing/parser.rs:141-158 | a delimited list consumes at least one token and has at least one element |
| Parsing.DelimitedLoop | src/parsing/parser.rs:145-154 | the loop keeps the elements read so far, in order, and adds at least one |
| Parsing.AssignmentTail | src/parsing/parser.rs:160-177 | without an assignment operator next, the node is returned unchanged and nothing is read |
| Parsing.BinaryTail | src/parsing/parser.rs:179-203 | without a binary operator of higher precedence next, the node is returned unchanged and nothing is read |
| Parsing.CallTail | src/parsing/parser.rs:205-215 | reports a call exactly when it has read tokens; otherwise the node is unchanged |
| Parsing.AccessTail | src/parsing/parser.rs:217-227 | reports an access exactly when it has read tokens; otherwise the node is unchanged |
| Parsing.Postfix | src/parsing/parser.rs:232-241 | the loop of accesses and calls returns its node unchanged when it reads nothing |
| Parsing.Component | src/parsing/parser.rs:229-245 | `parse_component` moves forward and builds well-formed nodes |
| Parsing.BlockLoop | src/parsing/parser.rs:252-255 | the statement loop reads to the end of input and keeps the statements read so far |
| Parsing.Block | src/parsing/parser.rs:247-262 | a block is a block statement that reads the whole input |
| Parsing.Program | src/parsing/parser.rs:264-271 | every statement of a parsed program is well formed |
| Parsing.Parser.constructor | src/parsing/parser.rs:274-280 | a parser over the tokens, at the start |
| Parsing.Parser.Read | src/parsing/tokeniser.rs:102-106 | the token at the cursor (the stale last token at the end), then one step on unless at the end |
| Parsing.Parser.ExpectPunctuation | src/parsing/parser_helpers.rs:5-13 | passes and moves as `Expect` says, or fails with its error |
| Parsing.Parser.ParseAtom | src/parsing/parser.rs:16-58 | result and cursor agree with `Atom` |
| Parsing.Parser.ParseStatement | src/parsing/parser.rs:60-75 | result and cursor agree with `Statement` |
| Parsing.Parser.ParseObjectLiteral | src/parsing/parser.rs:77-123 | the loop's result and cursor agree with `ObjectLoop` |
| Parsing.Parser.ParseVariableDeclaration | src/parsing/parser.rs:125-139 | result and cursor agree with `VarDecl` |
| Parsing.Parser.ParseDelimited | src/parsing/parser.rs:141-158 | the loop's result and cursor agree with `Delimited` |
| Parsing.Parser.MightBeAssignment | src/parsing/parser.rs:160-177 | result and cursor agree with `AssignmentTail` |
| Parsing.Parser.MightBeBinary | src/parsing/parser.rs:179-203 | the recursion's result and cursor agree with `BinaryTail` |
| Parsing.Parser.MightBeCall | src/parsing/parser.rs:205-215 | result and cursor agree with `CallTail` |
| Parsing.Parser.MightBePropertyAccess | src/parsing/parser.rs:217-227 | result and cursor agree with `AccessTail` |
| Parsing.Parser.ParseComponent | src/parsing/parser.rs:229-245 | the loop's result and cursor agree with `Component` |
| Parsing.Parser.ParseBlockStatement | src/parsing/parser.rs:247-262 | the loop's result and cursor agree with `Block` |
| Parsing.Parser.GenerateAst | src/parsing/parser.rs:264-271 | from the start, returns exactly `Program` of the tokens |
| Parsing.New | src/parsing/parser.rs:274-280 | a parser at the start over the tokens `Lex` gives the code, or the first lexing error |
| ParserProperties.OperandNode | src/parsing/parser.rs:28-37 | the leaf built for a string, number or identifier token is well formed |
| ParserProperties.NoPostfix | src/parsing/parser.rs:232-241 | before a token that starts no access or call, the postfix loop reads nothing |
| ParserProperties.Settled | src/parsing/parser.rs:229-245 | before a token that continues nothing, every tail returns its node and reads nothing |
| ParserProperties.Operand | src/parsing/parser.rs:229-245 | an operand followed by no postfix and no assignment is a leaf handed to the binary tail |
| ParserProperties.LastOperand | src/parsing/parser.rs:229-245 | the last token, an operand, is read as its leaf and the input is then at its end |
| ParserProperties.OneStatementLoop | src/parsing/parser.rs:252-255 | a statement that reads the whole input is the statement loop's only statement |
| ParserProperties.SingleStatement | src/parsing/parser.rs:264-271 | an expression that reads the whole input is the program's one statement |
| ParserProperties.FailedStatement | src/parsing/parser.rs:252-255 | a failing first statement makes the program fail with its error |
| ParserProperties.BinaryStep | src/parsing/parser.rs:183-197 | a binary operator binding tighter than the current precedence takes the component after it, parsed at its own precedence, as its right operand and folds on |
| ParserProperties.BinaryStop | src/parsing/parser.rs:186-202 | an operator binding no tighter than the current precedence ends the binary tail without reading |
| ParserProperties.LeftLeaningTail | src/parsing/parser.rs:186-197 | after `x`, `o1 y o2 z` with `o2` no tighter than `o1` folds to `(x o1 y) o2 z` |
| ParserProperties.TighterRightOperand | src/parsing/parser.rs:189 | the right operand of `o1` parsed at its precedence takes in `y o2 z` when `o2` binds tighter |
| ParserProperties.RightLeaningTail | src/parsing/parser.rs:179-203 | after `x`, `o1 y o2 z` with `o2` tighter than `o1` nests to `x o1 (y o2 z)` |
| ParserProperties.ThreeOperandsLeft | src/parsing/parser.rs:186-197 | `x o1 y o2 z` with `o2` not binding tighter than `o1` is `(x o1 y) o2 z`: left associativity |
| ParserProperties.ThreeOperandsRight | src/parsing/parser.rs:179-203 | `x o1 y o2 z` with `o2` binding tighter is `x o1 (y o2 z)` |
| ParserProperties.SubtractionAssociatesLeft | src/parsing/parser.rs:186-197 | `1 - 2 - 3` parses as `(1 - 2) - 3` |
| ParserProperties.ProductBindsTighter | src/parsing/parser.rs:179-203 | `3 + 4 * 2` parses with `+` at the root and `4 * 2` on its right |
| ParserProperties.AssignmentOperand | src/parsing/parser.rs:160-177 | an operand followed by an assignment operator is the left side of an assignment whose right side is the component parsed at precedence 0 |
| ParserProperties.AssignmentAssociatesRight | src/parsing/parser.rs:160-177 | `x = y = z` parses as `x = (y = z)` |
| ParserProperties.AssignmentTakesWholeExpression | src/parsing/parser.rs:168-172 | `x = y o z` assigns the whole binary expression `y o z` |
| ParserProperties.BracketedAtom | src/parsing/parser.rs:19-26 | `(x o1 y)` is one atom: the bracketed component, with the closing bracket read |
| ParserProperties.BracketsGroupFirst | src/parsing/parser.rs:19-26 | `(x o1 y) o2 z` groups the bracketed part first, whatever the precedences, and consumes both brackets |
| ParserProperties.DeclarationStatement | src/parsing/parser.rs:60-75 | `let`/`const` followed by an assignment is a declaration whose constant flag is true exactly for `const` |
| ParserProperties.DeclarationProgram | src/parsing/parser.rs:125-139 | `let x = z` and `const x = z` parse to one declaration, constant exactly for `const` |
| ParserProperties.DeclarationNeedsAssignment | src/parsing/parser.rs:125-139 | `let`/`const` followed by anything but an assignment is rejected |
| ParserProperties.StatementPositionRejects | src/parsing/parser.rs:57-75 | in statement position, a token that is no operand, no `(` and no `let`/`const` is unsupported syntax |
| ParserProperties.ExpressionPosition | src/parsing/parser.rs:42-55 | in expression position, `{` starts an object literal and any other non-atom is a statement where none is allowed |
| ParserProperties.StatementInExpressionRejected | src/parsing/parser.rs:42-55 | a keyword on the right of an assignment is rejected |
| ParserProperties.ObjectLiteralBody | src/parsing/parser.rs:77-123 | `{ a, b: v }` is an object literal with keys `a`, `b`; the shorthand key gets the value `Identifier(a)` |
| ParserProperties.ObjectLiteralProgram | src/parsing/parser.rs:77-123 | `x = { a, b: v }` parses to one assignment of that object literal |
| ParserProperties.TwoArguments | src/parsing/parser.rs:141-158 | `(x, y)` is read as the two arguments in order, consuming the brackets and the comma |
| ParserProperties.CallProgram | src/parsing/parser.rs:205-215 | `f(x, y)` is a call of `f` with arguments `x`, `y` |
| ParserProperties.MethodCallProgram | src/parsing/parser.rs:229-241 | `a.b(x)` is a call whose callee is the property access `a.b` |
| ParserProperties.LoneBracketRecursesForever | src/parsing/parser.rs:19-25 | a program that is only `(` starts a bracketed expression forever; the model reports unbounded recursion |
| LegacyCharStream.CharStream.constructor | src/parser/char_stream.rs:18-23 | the stream holds the source's characters and starts at index 0 |
| LegacyCharStream.CharStream.Peek | src/parser/char_stream.rs:7-9 | the character at the index; nothing moves |
| LegacyCharStream.CharStream.Read | src/parser/char_stream.rs:11-15 | the character at the index, and the index moves on by exactly one |
| LegacyCharStream.PeekThenRead | src/parser/char_stream.rs:7-15 | `peek` then `read` see the same character and only `read` moves the cursor |
| LegacyTokens.IsWhitespace | src/parser/tokens.rs:12-15 | whitespace (space, tab, newline, `;`) is neither a number nor an identifier character nor a quote |
| LegacyTokens.IsNumber | src/parser/tokens.rs:17-20 | number characters (digits and `.`) never start an identifier |
| LegacyTokens.IsKeyword | src/parser/tokens.rs:22-27 | the keywords, `let` and `const`, are words of identifier characters |
| LegacyTokens.IsIdentifierStart | src/parser/tokens.rs:29-39 | identifier starts are exactly the identifier characters that are not digits |
| LegacyTokeniser.Run | src/parser/tokeniser.rs:13-15 | a loop over a class stops inside the input, at the first character outside the class |
| LegacyTokeniser.WordToken | src/parser/tokeniser.rs:37-42 | a word is a keyword exactly when it is `let` or `const` |
| LegacyTokeniser.NextState | src/parser/tokeniser.rs:18-30 | `read_next`: when the first non-whitespace character starts a number, a string or an identifier, a token of that kind is read past it (strings contain no quote, identifiers are not keywords); any other character leaves the current token, with only the whitespace read |
| LegacyTokeniser.UnclassifiedKeepsCurrent | src/parser/tokeniser.rs:21-29 | a character that starts no token leaves the current token in place, with only whitespace read |
| LegacyTokeniser.IdentifierIsLongestRun | src/parser/tokeniser.rs:32-43 | an identifier is the longest run of identifier characters, a keyword exactly when it is `let` or `const` |
| LegacyTokeniser.Tokeniser.constructor | src/parser/tokeniser.rs:76-81 | a tokeniser over the stream whose current token is the number 0 |
| LegacyTokeniser.Tokeniser.EatWhitespace | src/parser/tokeniser.rs:12-16 | skips to the first non-whitespace character |
| LegacyTokeniser.Tokeniser.ReadIdentifier | src/parser/tokeniser.rs:32-43 | reads the longest run of identifier characters and makes a keyword or an identifier of it |
| LegacyTokeniser.Tokeniser.ReadString | src/parser/tokeniser.rs:45-54 | reads both quotes and the characters between them; the token holds only the characters between |
| LegacyTokeniser.Tokeniser.ReadNumber | src/parser/tokeniser.rs:56-63 | reads the longest run of digits and dots, an error when it does not parse as a float |
| LegacyTokeniser.Tokeniser.ReadNext | src/parser/tokeniser.rs:18-30 | the new current token and index are those of `NextState` |
| LegacyTokeniser.Tokeniser.Peek | src/parser/tokeniser.rs:65-67 | the current token; nothing changes |
| LegacyTokeniser.Tokeniser.Read | src/parser/tokeniser.rs:69-73 | the old current token, then the state `NextState` gives |
| LegacyTokeniser.New | src/parser/tokeniser.rs:76-84 | a tokeniser over the source that has read its first token as `NextState` says |
| LegacyTokeniser.DemoNumbersParse | src/main.rs:23 | `3.14` and `71` parse as floats |
| LegacyTokeniser.DemoFirst | src/main.rs:23-24 | the demo program's first token is the number `3.14` |
| LegacyTokeniser.DemoUnquoted | src/main.rs:23 | the demo program has a quote at 6 and at 20 and none between |
| LegacyTokeniser.DemoText | src/main.rs:23 | the characters between those quotes are `Hello, world!` |
| LegacyTokeniser.DemoSecond | src/main.rs:26 | the second token is the string `Hello, world!` |
| LegacyTokeniser.DemoThird | src/main.rs:27 | the third token is the number `71` |
| LegacyTokeniser.DemoFourth | src/main.rs:28 | the fourth token is the identifier `hello` |
| LegacyTokeniser.DemoFifth | src/main.rs:29 | the fifth token is the keyword `let`, after which one more `read_next` would run past the end |
| LegacyTokeniser.Demo | src/main.rs:22-31 | four reads and a peek of the demo program give Number, String, Number, Identifier, Keyword |

## Left out

- Floating point: f64 arithmetic, comparison and `powf` come from the `FloatHost` parameter, and `str::parse::<f64>` is modelled only as which lexemes it accepts (a digit and at most one dot). Number tokens keep their lexeme.
- Scopes.Variables.AllocInScope: when there is no frame the source panics after pushing the slot; the model keeps the pushed slot and returns `false`.
- The `ref_count` field of a slot: always 0 and never read.
- `print_allocced` and `print_scopestack` in src/interpretting/variables.rs, src/parsing/printer.rs, src/std_lib/functions.rs and the printing in src/main.rs: console output only.
- src/interpretting/interpreter.rs: it does not compile and has no evaluation logic beyond what `Variables` does.
- HashMap iteration order: frames and the collector's table are Dafny maps, so the order of the collector's loops is not modelled.
- src/parsing/char_stream.rs is not part of this model; the current tokeniser reads the text through an index.
- Parsing.Atom: the source recurses without bound when `(` is the last token and is read again at the end of input; the model reports `UnboundedRecursion` there (Parsing.Parser.ParseAtom likewise).
- Parsing.New: the source's parser pulls tokens from the tokeniser one at a time, while the model tokenises the whole text first. A lexing error anywhere in the text is therefore reported ahead of a syntax error that the source would reach earlier (on `} } @` the source reports unsupported syntax, the model the unexpected `@`).
- Parsing.Delimited: requires that the start and delimiter are not `{`; the only caller passes `(`, `,` and `)`, and a `{` there could be re-read forever at the end of input.
- Panics become error values: `LexError`, `SyntaxError`, `RuntimeError`, `OperatorError` and `LegacyError` name each panic message instead of aborting.
- The legacy tokeniser has no end-of-input guards: reading past the end is excluded by the preconditions `Terminated` and `Readable` rather than modelled as a panic.
- Operators.ValueEq: the source compares values with `==`, but its value type derives only `Clone`, so that comparison does not compile as written; the model supplies the structural equality a derived `PartialEq` would give.
- The runtime value type: the source's value enum lists `Boolean` only as a to-do, but the operators build booleans, so the model includes it.
- The current `Token` type's `Boolean` and `Null` variants are never produced by the tokeniser and are not parsed.
