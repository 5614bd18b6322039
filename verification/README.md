# A verified model of a minimal C-like compiler front end

This project models the front end of a compiler for a small C-like language. The language has integer variables, arithmetic and comparison expressions, `if` statements, `return` statements and block scoping. The front end has three stages:

- **Lexer** (`include/lexer.hpp`, keyword table in `src/lexer.cpp`). A character cursor with line and column turns source text into tokens that end in one `EOF_TOKEN`. Numbers are maximal runs of digits and dots. Words are maximal runs of letters, digits and `_`, looked up in the six-word keyword table. Ten characters are single-character tokens. Any other character stops the lexer.
- **Parser** (`include/parser.hpp`). A recursive-descent parser over a token index:
  - comparison, term and factor levels, each a left-associative loop;
  - primary expressions, with parentheses that add no node;
  - `return`, `if`/`else` and `int` declarations;
  - blocks that end at `}` or at the end of input;
  - a top-level function without parameters.
- **Semantic analyzer** (`include/semantic_analyzer.hpp`). It walks the tree with a chain of scopes. Each scope maps a name to whether it is initialized. The analyzer reports duplicate declarations, undeclared or uninitialized reads, and statement forms it does not know.

Every stage is a pure function. Mutable state, such as the lexer's position, line and column, the parser's `current` index and the analyzer's `currentScope`, becomes a value that goes in and comes back out. Thrown exceptions become the `Err` case of `Result`.

The modules follow the stages:

- `Wrappers`: `Option` and `Result`.
- `Tokens`: token kinds and tokens.
- `Keywords`: the reserved-word table.
- `Lexer`, with whole-input properties in `LexerProperties`.
- `Ast`: the syntax tree.
- `Parser`.
- `Printer`: the minimal-parenthesis printer used to state the parser's round trip.
- `ParserRoundTrip`: printing then parsing gives back the tree.
- `ParserFacts`: the tree shape, precedence and the edges of the statement grammar.
- `StatementRoundTrip`: a printer for statements, blocks and functions; each statement parser's result built from its parts; printing then parsing gives back the statements; every parsed statement is printable.
- `Scopes`: the scope chain.
- `Analyzer`, with the scoping rules in `AnalyzerFacts`.
- `AnalyzerReference`: the analysis flattened into the scope events it performs (reads, declarations, initializations, entering and leaving scopes), run by a small interpreter that stops at the first failing event; the analyzer is proved equal to that run.

The language is meant to have a few features the code does not implement. The model follows the code:

- **No comparison lexemes.** The language is meant to have the comparisons `==`, `!=`, `<`, `>`, `<=` and `>=`, with `>=` lexed as one token. The lexer has no case for `<`, `>` or `!`, and reads `=` only as `ASSIGN`. So `==` is two `ASSIGN` tokens, and `x >= 1` stops the lexer at `>` (`LexerProperties.DoubleEqualsIsTwoAssigns`, `LexerProperties.GreaterEqualIsRejected`, `LexerProperties.RejectsRelationalCharacters`). The parser's comparison level is modelled as written. It is reachable only from token sequences the lexer does not produce.
- **Enumeration.** The parser tests for `GREATER_EQUAL` and `LESS_EQUAL`, which the token enumeration does not declare. The model's `TokenKind` adds them, so the comparison level can be stated as the parser writes it.
- **Lexical errors.** A lexical error is meant to carry a position. The code's message holds only the character, so `LexError` holds only the character.
- **`if` scopes.** The branches of an `if` share one new scope. So `if (c) int x = 1; else int x = 2;` is a duplicate declaration (`AnalyzerFacts.BranchesShareScope`).
- **Unclosed blocks.** A block that reaches the end of input before its `}` is accepted, with every statement read so far (`ParserFacts.UnclosedBlock`, `StatementRoundTrip.BlockReads`, `StatementRoundTrip.UnclosedBlockParses`).
- **Dangling `else`.** An `else` belongs to the innermost `if` that can take it. So no parsed `if` with an `else` has a then branch that ends in an `if` without one. `StatementRoundTrip.IsStatement` is exactly the set of trees the statement parser can build (`StatementRoundTrip.ParsedIsStatement`), and the printer is defined on that set.

## Model

| member | source | states |
|---|---|---|
| Keywords.Classify | src/lexer.cpp:3-9 | A word is an identifier exactly when it is not one of the reserved words; otherwise it is the keyword kind spelled by that very word |
| Keywords.ReservedWords | src/lexer.cpp:3-9 | The table holds exactly the six words int, float, if, else, while, return |
| Keywords.ReservedRoundTrip | src/lexer.cpp:3-9 | The table and the keyword spellings are inverse to each other in both directions |
| Keywords.ReservedInjective | src/lexer.cpp:3-9 | No two reserved words map to the same kind |
| Keywords.ClassifyExamples | include/lexer.hpp:112-119 | Lookup is exact and case-sensitive (`Int`, `iff`, `RETURN` are names), and `float` and `while` are keywords although no grammar rule uses them |
| Lexer.SingleCharTable | include/lexer.hpp:152-176 | Exactly the ten characters `+-*/=(){};` have a single-character token, each kind maps back to its character, `=` is always ASSIGN, and `<`, `>`, `!` have no token |
| Lexer.PositionAfter | include/lexer.hpp:56-57 | Line and column start at 1 and never drop below 1 |
| Lexer.PositionCounts | include/lexer.hpp:68-79 | After any text, the line is one more than the number of newlines, and the column is one more than the number of characters since the last newline |
| Lexer.Advance | include/lexer.hpp:68-79 | Consuming a character moves one position on and keeps line and column equal to the position of the text consumed so far |
| Lexer.Peek | include/lexer.hpp:61-66 | Inside the input the character seen is the one at the cursor; past the end of the input the character seen is the sentinel, which is not whitespace, starts no token and belongs to no run, so every loop and scan stops there |
| Lexer.ReadNumber | include/lexer.hpp:89-100 | A number token's text is the input slice from the cursor to the end of the maximal digit-and-dot run, placed at the cursor's line and column, and the cursor moves just past it |
| Lexer.ReadIdentifier | include/lexer.hpp:102-120 | A word token's text is the input slice of the maximal letter, digit and underscore run, its kind is the keyword table's verdict on that text, it is placed at the cursor, and the cursor moves just past it |
| Lexer.SkipWhitespace | include/lexer.hpp:81-87 | Skips exactly the maximal run of whitespace at the cursor: everything skipped is whitespace and the cursor stops at the end or on a non-space |
| Lexer.ReadRun | include/lexer.hpp:94-97 | A run's text is the input slice it covers, every character is in the run's class, the run is maximal, and the column advances by its length on the same line |
| Lexer.NumberLexed | include/lexer.hpp:89-100 | A number token is the maximal digit-and-dot run at the cursor, placed at its first character, and the cursor moves just past it |
| Lexer.IdentifierLexed | include/lexer.hpp:102-120 | A word token is the maximal letter, digit and underscore run at the cursor, classified by the keyword table and placed at its first character |
| Lexer.EndLexed | include/lexer.hpp:129-132 | At the end of the input the end token has empty text and the current position |
| Lexer.PunctuatorLexed | include/lexer.hpp:150-173 | A single-character token has that character as text, the kind the table gives, and the column of the character |
| Lexer.ScanToken | include/lexer.hpp:129-176 | Scanning at a non-space cursor keeps the cursor consistent and consumes at least one character unless it returns the end token |
| Lexer.NextToken | include/lexer.hpp:125-177 | Skipping whitespace and scanning one token never moves back, and moves on unless the token is the end token |
| Lexer.NextTokenLexed | include/lexer.hpp:125-177 | The token returned is the lexeme that starts at the first non-space character at or after the cursor: its text is the input there, its position is that character's, and the cursor moves just past it |
| Lexer.NextTokenError | include/lexer.hpp:174-175 | The lexer fails exactly when the first non-space character can start no token, and the error names that character |
| Lexer.TokenizeFrom | include/lexer.hpp:179-190 | A successful run ends with exactly one end token, and the tokens are the lexemes of the rest of the input left to right: each one lexed at its own offset, with only whitespace before the first and between the end of one and the start of the next |
| Lexer.TokenLexed | include/lexer.hpp:179-190 | The token found next, put in front of tokens lexed in order after it, gives tokens lexed in order from the cursor |
| Lexer.InOrderCons | include/lexer.hpp:179-190 | A token lexed at an offset reached over whitespace, followed by tokens lexed in order from its end, gives tokens lexed in order |
| Lexer.OffsetsIncrease | include/lexer.hpp:179-190 | In tokens lexed in order and ending in the end token, every token starts at or after the starting offset and strictly after the one before it |
| Lexer.LexedPositive | include/lexer.hpp:44-45 | Every lexed token has line and column at least 1 |
| Lexer.LexedSentinel | include/lexer.hpp:129-132 | The final end token sits at the position reached after the whole input |
| Lexer.Tokenize | include/lexer.hpp:179-190 | Tokenizing the whole input from line 1, column 1 yields a sequence ending in one end token at the end position, every token at a positive position, and the tokens are the input's lexemes left to right with only whitespace between them |
| LexerProperties.NextTokenText | include/lexer.hpp:125-177 | The next token's text is what removing whitespace from the rest of the input puts first |
| LexerProperties.TokenizeFromTexts | include/lexer.hpp:179-190 | From any cursor, the concatenated token texts are the rest of the input with whitespace removed |
| LexerProperties.TokenizeTexts | include/lexer.hpp:179-190 | The concatenated token texts are the whole input with whitespace removed: nothing is dropped, duplicated or reordered |
| LexerProperties.TokenizeCharsAllowed | include/lexer.hpp:138-176 | Every non-space character of a successfully lexed input can occur in some token |
| LexerProperties.RejectsRelationalCharacters | include/lexer.hpp:152-176 | Any input that contains `<`, `>` or `!` fails to lex |
| LexerProperties.TokenizeNoComparisons | include/lexer.hpp:152-176 | The lexer never produces a comparison-operator token |
| LexerProperties.TokenizeAtEnd | include/lexer.hpp:179-190 | At the end of the input only the end token is produced, at the current position |
| LexerProperties.ReadRunSpan | include/lexer.hpp:94-97 | A run is read exactly up to the first character outside its class |
| LexerProperties.NumberStep | include/lexer.hpp:138-141 | After whitespace, a digit starts a number token spanning the maximal digit-and-dot run |
| LexerProperties.IdentifierStep | include/lexer.hpp:144-147 | After whitespace, a letter or `_` starts a word token spanning the maximal run, classified by the table |
| LexerProperties.PunctuatorStep | include/lexer.hpp:150-173 | After whitespace, a table character is one token one column wide |
| LexerProperties.DoubleEqualsIsTwoAssigns | include/lexer.hpp:162-163 | `==` lexes as two ASSIGN tokens at columns 1 and 2, then the end token at column 3 |
| LexerProperties.MalformedNumberIsOneToken | include/lexer.hpp:94-97 | `1.2.3` is one number token: a number run takes every digit and dot |
| LexerProperties.WholeInputNumber | include/lexer.hpp:89-100 | An input that is one maximal number run lexes as that one number and the end token one column past it |
| LexerProperties.NewlinePositions | include/lexer.hpp:73-77 | In `a` newline space `b`, `b` is at line 2, column 2 |
| LexerProperties.SecondTokenPinned | include/lexer.hpp:179-190 | In `a a` lexed in order, a second `a` after the first can only be the one at offset 2, line 1, column 3, so a repeated copy of the first token is not a lexing of the input |
| LexerProperties.LineBreakPositions | include/lexer.hpp:68-87 | For any two letters around a newline and a space, the second name is at line 2, column 2 and the end token at line 2, column 3 |
| LexerProperties.OneLetterIsIdentifier | src/lexer.cpp:3-9 | No reserved word has one letter |
| LexerProperties.GreaterEqualIsRejected | include/lexer.hpp:174-175 | After a name and a space, `>` stops the lexer with an unexpected-character error, whatever follows |
| Parser.Peek | include/parser.hpp:175-180 | Before the end the current token is the one at the index; it is always a token of the sequence, and at or past the end it is the last one |
| Parser.Advance | include/parser.hpp:182-187 | Returns the current token; before the end the index moves exactly one on, and at or past the end it stays |
| Parser.IsAtEnd | include/parser.hpp:196-199 | The parser is at the end exactly when the current token is the end token, and at or past the last index it is the last token that decides |
| Parser.Check | include/parser.hpp:189-199 | Holds exactly when the current token has the kind and is not the end token; at the end it fails for every kind |
| Parser.Consume | include/parser.hpp:201-208 | Succeeds exactly on a current token of the expected kind, returning it and the next index; otherwise fails with the expected kind and the current token's line and column |
| Parser.Match | include/parser.hpp:210-218 | Holds exactly when the current token has the kind and is not the end token, and then consumes one token; otherwise the index stays |
| Parser.Prec | include/parser.hpp:278-320 | A kind has a binding level exactly when it is a binary operator: 1 for comparisons, 2 for `+ -`, 3 for `* /` |
| Parser.MatchOperator | include/parser.hpp:282-284 | Matching an operator of a level consumes exactly one token, and only before the end |
| Parser.MatchEachSpec | include/parser.hpp:282-284 | Trying a list of kinds one at a time matches exactly when the current kind is in the list and is not the end token, and then consumes one token |
| Parser.OperatorsPrec | include/parser.hpp:278-320 | The operators each level loops over are exactly the kinds of that binding level |
| Parser.MatchEachIsMatchOperator | include/parser.hpp:282-284 | The variadic match over a level's operator list is matching an operator of that level |
| Parser.ParseExpression | include/parser.hpp:273-276 | A parsed expression consumes at least one token, stops before the end token, and holds only binary operators |
| Parser.ParseBinary | include/parser.hpp:278-320 | Each binary level consumes at least one token and builds a tree with only binary operators |
| Parser.ParseOperand | include/parser.hpp:294-320 | The operand of a level consumes at least one token and builds a tree with only binary operators |
| Parser.BinaryLoop | include/parser.hpp:282-289 | A level's loop never moves back and keeps the tree well formed |
| Parser.ParsePrimary | include/parser.hpp:322-344 | A primary expression consumes at least one token and stops before the end token |
| Parser.ParseStatement | include/parser.hpp:233-271 | A statement consumes at least one token, and a statement that does not start with `return`, `if` or `int` is an unexpected-token error |
| Parser.ParseReturn | include/parser.hpp:235-240 | `return` yields a return statement ending just after a `;` |
| Parser.ParseIf | include/parser.hpp:242-259 | `if` yields an if statement, and one without an else branch is never followed by `else` |
| Parser.ParseVarDecl | include/parser.hpp:261-268 | `int` yields a declaration of the name that follows it, ending just after a `;` |
| Parser.ParseBlock | include/parser.hpp:220-231 | A block consumes at least its `{` and is a block statement; without a `{` it fails with the expected-`{` error at that token |
| Parser.BlockLoop | include/parser.hpp:225-228 | The statement loop only appends to the statements already parsed |
| Parser.BlockEnds | include/parser.hpp:220-231 | A block ends just after a `}` or just before the end token |
| Parser.BlockLoopEnds | include/parser.hpp:225-228 | The statement loop stops just after a `}` or just before the end token |
| Parser.ParseFunction | include/parser.hpp:160-169 | A function is `int NAME ( )` and a block, and yields a function declaration of that name with no parameters and a block body |
| ParserRoundTrip.LoopStops | include/parser.hpp:282-291 | A token that is not an operator of the level or a tighter one ends the loop with the tree so far |
| ParserRoundTrip.Lift | include/parser.hpp:273-320 | A primary expression followed by a token that stops a level is what that level returns |
| ParserRoundTrip.RoundTrip | include/parser.hpp:273-344 | For any well-formed tree printed with minimal parentheses at a level, that level parses the tokens back to the same tree and stops right after them |
| ParserRoundTrip.PrintThenParse | include/parser.hpp:273-344 | Anywhere in a token sequence, tokens with the kinds and texts of a printed tree, at any lines and columns, followed by a token that is not an operator, parse as exactly that tree |
| ParserRoundTrip.PrintedProgramParses | include/parser.hpp:273-344 | The printed tokens of any well-formed tree, followed by the end token, parse back to that tree |
| ParserRoundTrip.PrintInjective | include/parser.hpp:273-344 | Two well-formed trees with the same printed tokens are the same tree, so the printer loses nothing |
| ParserFacts.LoopBuildsLevel | include/parser.hpp:282-289 | Every node a level's loop adds carries an operator of that level and sits on top of the tree so far, so the level groups to the left |
| ParserFacts.PrimaryCases | include/parser.hpp:322-344 | A number or a name becomes a leaf holding the token's text, and any token other than these and `(` is an expected-expression error |
| ParserFacts.ParenthesesAddNoNode | include/parser.hpp:336-341 | Parentheses return the inner tree unchanged and end on a `)` |
| ParserFacts.ProductBindsTighter | include/parser.hpp:294-320 | `a + b * c` parses with the product as the right operand of the sum |
| ParserFacts.DifferenceGroupsLeft | include/parser.hpp:294-306 | `a - b - c` parses as `(a - b) - c` |
| ParserFacts.BraceIsNotStatement | include/parser.hpp:270 | A `{` cannot start a statement |
| ParserFacts.UnclosedBlock | include/parser.hpp:220-231 | A `{` directly followed by the end of input is an empty block, not an error |
| ParserFacts.FunctionIgnoresTail | include/parser.hpp:160-169 | `int NAME ( ) { }` followed by any tokens is the empty function named NAME, and parsing stops just after its `}`, so what follows is never examined |
| StatementRoundTrip.ReturnParts | include/parser.hpp:235-240 | `return` followed by an expression that parses is a return statement of exactly that expression when a `;` follows, ending after the `;`, and an expected-`;` error at the next token otherwise |
| StatementRoundTrip.VarDeclParts | include/parser.hpp:261-268 | `int NAME =` followed by an expression that parses declares that name with exactly that initializer when a `;` follows, and is an expected-`;` error at the next token otherwise |
| StatementRoundTrip.IfHeadParts | include/parser.hpp:242-246 | After `if (`, a condition that parses and a `)`, the if parser goes on with that condition after the `)` |
| StatementRoundTrip.IfParts | include/parser.hpp:242-259 | `if ( COND ) STMT` not followed by `else` is an if statement of exactly that condition and then branch, with no else branch, ending where the branch ends |
| StatementRoundTrip.IfElseParts | include/parser.hpp:242-259 | `if ( COND ) STMT else STMT` is an if statement of exactly the condition and the two branches, ending where the else branch ends |
| StatementRoundTrip.ElseTail | include/parser.hpp:249-253 | A then branch followed by `else` makes the result of the if parser the parse of the statement after the `else`, as the else branch, or its error |
| StatementRoundTrip.NoElseTail | include/parser.hpp:249-258 | A then branch not followed by `else` ends the if statement there, with that condition and branch and no else branch |
| StatementRoundTrip.BlockLoopParts | include/parser.hpp:225-228 | A block's loop at a token that is neither `}` nor the end appends exactly the statement that parses there and goes on after it |
| StatementRoundTrip.BlockLoopStops | include/parser.hpp:225-228 | A block's loop stops just after a `}` and just before the end token, adding nothing |
| StatementRoundTrip.BlockParts | include/parser.hpp:220-231 | After a `{`, a block is a block statement of exactly the statements its loop reads, or the loop's error |
| StatementRoundTrip.BlockLoopReads | include/parser.hpp:225-228 | Statements that parse one after another up to a `}` or the end token are read by a block's loop in order, ending after the `}` or at the end token |
| StatementRoundTrip.BlockReads | include/parser.hpp:220-231 | A `{` followed by statements that parse one after another up to a `}` or the end token is a block of exactly those statements, and an unclosed block ends at the end token |
| StatementRoundTrip.FunctionParts | include/parser.hpp:160-169 | `int NAME ( )` followed by a block that parses is a function named NAME with no parameters and exactly that block as its body, ending where the block ends |
| StatementRoundTrip.ParsedIsStatement | include/parser.hpp:233-271 | Every statement the parser builds is a return, a declaration or an if over well-formed expressions, no if with an else has an open-ended then branch, and an open-ended result is never followed by `else` |
| StatementRoundTrip.StatementRoundTrip | include/parser.hpp:233-271 | Wherever tokens with the kinds and texts of a printed statement stand, at any lines and columns, followed by any token (not `else` when it ends open), the statement parser reads exactly that statement back and stops just after it |
| StatementRoundTrip.StatementsRoundTrip | include/parser.hpp:225-228 | Printed statements followed by `}` or the end token are read by a block's loop in order, and it stops after the `}` or at the end token |
| StatementRoundTrip.BlockRoundTrip | include/parser.hpp:220-231 | A printed block is read back as a block of the same statements, closed by its `}` or by the end token |
| StatementRoundTrip.FunctionRoundTrip | include/parser.hpp:160-169 | A printed function at the start of the tokens is read back as that function and parsing stops after its `}`, whatever follows |
| StatementRoundTrip.StatementParses | include/parser.hpp:233-271 | A printed statement followed by the end token parses back to itself |
| StatementRoundTrip.PrintStmtInjective | include/parser.hpp:233-271 | Two statements with the same printed tokens are equal, so the statement printer loses nothing |
| StatementRoundTrip.ReparseStatement | include/parser.hpp:233-271 | A statement the parser builds can be printed, and its printed tokens parse back to it |
| StatementRoundTrip.ProgramParses | include/parser.hpp:160-169 | A printed function followed by the end token parses back to the function with the same name and statements |
| StatementRoundTrip.UnclosedBlockParses | include/parser.hpp:225-228 | A `{` and printed statements, then the end token with no `}`, is a block of all those statements ending at the end token |
| Scopes.Nearest | include/semantic_analyzer.hpp:33-41 | The nearest scope declaring a name is found innermost first, and no scope before it declares the name |
| Scopes.IsDeclared | include/semantic_analyzer.hpp:24-31 | A name is declared exactly when some scope of the chain has it |
| Scopes.IsInitialized | include/semantic_analyzer.hpp:33-41 | A name is initialized exactly when the nearest scope declaring it marks it initialized; an initialized name is declared |
| Scopes.Push | include/semantic_analyzer.hpp:124-126 | Entering a scope adds one empty innermost scope in front of the chain, which leaves every name exactly as declared and as initialized as before |
| Scopes.Declare | include/semantic_analyzer.hpp:43-50 | Declaring fails exactly when the innermost scope already has the name; otherwise only the innermost scope changes, gaining the name as uninitialized and keeping every other entry |
| Scopes.Initialize | include/semantic_analyzer.hpp:52-64 | Only the nearest scope declaring the name changes, and only that name's flag, which becomes true; a name declared nowhere changes nothing |
| Scopes.DeclareThenInitialize | include/semantic_analyzer.hpp:43-64 | Declaring a fresh name and then initializing it adds it, initialized, to the innermost scope and changes nothing else |
| Analyzer.Initial | include/semantic_analyzer.hpp:164 | The analyzer starts with one empty scope in which no name is declared |
| Analyzer.AnalyzeExpression | include/semantic_analyzer.hpp:72-102 | An expression's error is always an undeclared or uninitialized read of a name the expression reads |
| Analyzer.ExpressionReportsFirstUnusable | include/semantic_analyzer.hpp:72-102 | An expression passes exactly when no name it reads is unusable, and otherwise reports the first unusable name, left to right, as undeclared before uninitialized |
| Analyzer.ExpressionPasses | include/semantic_analyzer.hpp:72-102 | An expression passes exactly when every name it reads is declared and initialized |
| Analyzer.AnalyzeStatement | include/semantic_analyzer.hpp:104-161 | A statement that passes only adds names to the innermost scope and keeps existing flags; only a declaration changes the chain, and if, block and return leave it exactly as it was |
| Analyzer.AnalyzeStatements | include/semantic_analyzer.hpp:144-147 | A statement list that passes only adds names to the innermost scope and keeps existing flags |
| Analyzer.DeclareParameters | include/semantic_analyzer.hpp:178-182 | After the parameters pass, every parameter is in the innermost scope and initialized, and the outer scopes are unchanged |
| Analyzer.Analyze | include/semantic_analyzer.hpp:166-193 | A root that passes only adds names to the innermost scope, and a function root leaves the caller's chain exactly as it was |
| AnalyzerFacts.Shadowing | include/semantic_analyzer.hpp:43-50 | A name that only an outer scope has may be declared again, and the new uninitialized entry hides the outer one |
| AnalyzerFacts.InitializeOnlyName | include/semantic_analyzer.hpp:52-64 | Initializing one name changes no other name's status, and makes the name initialized exactly when it is declared |
| AnalyzerFacts.DeclarationOrder | include/semantic_analyzer.hpp:108-118 | A declaration fails on a name of its own scope; an initializer that reads the declared name fails; on success the name is added initialized to the innermost scope |
| AnalyzerFacts.SelfReferenceFails | include/semantic_analyzer.hpp:108-118 | The initializer is analyzed with its name declared but uninitialized, so reading that name fails |
| AnalyzerFacts.DeclarationPasses | include/semantic_analyzer.hpp:108-118 | A declaration whose initializer passes adds its name, initialized, to the innermost scope and changes nothing else |
| AnalyzerFacts.SelfInitializationFails | include/semantic_analyzer.hpp:108-118 | `int x = x;` is an uninitialized-variable error for `x`, whatever the outer scopes hold |
| AnalyzerFacts.UndeclaredFirst | include/semantic_analyzer.hpp:86-93 | A name declared nowhere is an undeclared-variable error |
| AnalyzerFacts.BranchesShareScope | include/semantic_analyzer.hpp:119-136 | Declaring one name in both branches of an `if` is a duplicate declaration |
| AnalyzerFacts.BlockRestores | include/semantic_analyzer.hpp:137-151 | A block's declarations are gone once it ends, and the chain is as it was |
| AnalyzerFacts.BlockDoesNotLeak | include/semantic_analyzer.hpp:137-151 | A name declared in a block and read after it is an undeclared-variable error |
| AnalyzerFacts.ParameterIsReadable | include/semantic_analyzer.hpp:166-188 | A function body may read its parameters, and the caller's chain is unchanged afterwards |
| AnalyzerFacts.DuplicateParameter | include/semantic_analyzer.hpp:178-182 | Two parameters with one name are a duplicate declaration |
| AnalyzerFacts.NestedFunctionRejected | include/semantic_analyzer.hpp:158-159 | A function declaration inside a function body is an unknown statement type |
| AnalyzerReference.RunAppend | include/semantic_analyzer.hpp:104-161 | Running two event sequences one after the other is running the first and, unless it failed, the second from where it left the chain |
| AnalyzerReference.ReadsRun | include/semantic_analyzer.hpp:72-102 | Reading names in order fails with the first unusable name and otherwise leaves the chain as it is |
| AnalyzerReference.ExpressionRun | include/semantic_analyzer.hpp:72-102 | Reading an expression's names in order gives the expression analysis's error, or the unchanged chain |
| AnalyzerReference.StatementIsRun | include/semantic_analyzer.hpp:104-161 | For every statement and chain, the analysis is exactly the run of the statement's events: the same error, or the same chain afterwards |
| AnalyzerReference.StatementsIsRun | include/semantic_analyzer.hpp:144-147 | For every statement list and chain, the analysis is exactly the run of the statements' events one after another |
| AnalyzerReference.DeclarationIsRun | include/semantic_analyzer.hpp:108-118 | A declaration declares its name, then reads its initializer in the chain with the name declared but uninitialized, then initializes the name |
| AnalyzerReference.InsideScope | include/semantic_analyzer.hpp:123-134 | Events inside a scope run on the chain with one new empty scope, and that scope is dropped afterwards unless they fail |
| AnalyzerReference.IfIsRun | include/semantic_analyzer.hpp:119-136 | An `if` without `else` reads its condition in the enclosing chain, then runs its branch in a new scope, which is dropped afterwards |
| AnalyzerReference.IfElseIsRun | include/semantic_analyzer.hpp:119-136 | An `if` with `else` reads its condition in the enclosing chain, then runs both branches one after the other in one new scope, which is dropped afterwards |
| AnalyzerReference.BranchesRun | include/semantic_analyzer.hpp:128-132 | The else branch runs in the chain the then branch leaves, and the then branch's error stops the statement |
| AnalyzerReference.BlockIsRun | include/semantic_analyzer.hpp:137-151 | A block runs its statements in order in one new scope, which is dropped afterwards |
| AnalyzerReference.ParametersIsRun | include/semantic_analyzer.hpp:178-182 | Declaring the parameters is declaring and then initializing each parameter in order |
| AnalyzerReference.FunctionBodyRun | include/semantic_analyzer.hpp:172-185 | In the function's scope the parameters' events run first and the body's events run in the chain they leave |
| AnalyzerReference.AnalyzeIsRun | include/semantic_analyzer.hpp:166-193 | For every root and chain, the analysis is exactly the run of the root's events: a function's parameters and body inside one scope of its own, any other root as a statement |
| AnalyzerReference.PassingRunReadsInitialized | include/semantic_analyzer.hpp:72-102 | In a run that passes, every read happens where the events before it passed and left the name declared and initialized |
| AnalyzerReference.FailingRunStopsAtStep | include/semantic_analyzer.hpp:104-161 | A run that fails fails at one event: the events before it passed and that event's step is the error |
| AnalyzerReference.StatementReadsInitialized | include/semantic_analyzer.hpp:72-161 | In a statement that passes, every name is read only where the statement's earlier events left it declared and initialized |
| AnalyzerReference.IfConditionFirst | include/semantic_analyzer.hpp:121 | An `if` whose condition fails fails with the condition's error, whatever its branches |
| AnalyzerReference.ThenErrorStops | include/semantic_analyzer.hpp:128 | An `if` whose then branch fails in the new scope fails with that error, whatever its else branch |
| AnalyzerReference.ElseAfterThen | include/semantic_analyzer.hpp:128-135 | The else branch is analyzed in the chain the then branch leaves, and the `if` ends by dropping their shared scope |
| AnalyzerReference.StatementsInSequence | include/semantic_analyzer.hpp:144-147 | A statement list analyzes its first statement and then the rest in the chain the first leaves, stopping at the first error |
| AnalyzerReference.DeclarationVisibleLater | include/semantic_analyzer.hpp:108-118 | `int x = 1; return x;` passes wherever `x` is new to the innermost scope, and leaves `x` initialized there |
| AnalyzerReference.FunctionPassesWithBody | include/semantic_analyzer.hpp:166-188 | A function passes exactly when its parameters declare in a new scope and its body passes in the chain they leave; the error is the first of those to fail, and success leaves the caller's chain as it was |

## Left out

- `src/main.cpp` (the driver) is not part of this model. It lexes one fixed sample text and prints the tokens; it does not call the parser or the analyzer. Its sample contains `x > 0`, which this lexer rejects (`LexerProperties.RejectsRelationalCharacters`).
- `include/utils.hpp` is not part of this model. It only maps token kinds to their names for printing.
- The numeric value of a number literal (`std::stod`, floating point) is not modelled. A literal keeps its source text. Malformed numbers such as `1.2.3` are accepted by the lexer as in the code, and the value the conversion would give them is not modelled either.
- Character classes are the ASCII readings of `isspace`, `isdigit`, `isalpha` and `isalnum`. Locale-dependent classes and the undefined behaviour of negative `char` values are left out.
- The text of error messages is left out. Errors are datatypes naming their cause: the offending character, the expected kind with line and column, the name in question, or the statement-type error.
- Memory management (`unique_ptr`, `shared_ptr`), virtual `getType` dispatch and node constructors are left out. The tree is an immutable datatype.
- The analyzer's "unknown expression type" error is unreachable: the expression datatype is closed and has exactly the three forms the analyzer handles.
- The analyzer's branch for a declaration without an initializer is not modelled. The parser always builds one, so `VarDecl` carries a mandatory initializer.
- The analyzer's current scope after a thrown error is not modelled. An error ends the analysis, so the chain it would leave behind is never observed.
- The analyzer object lives across `analyze` calls. This is modelled as a chain passed in and returned. `Analyzer.Initial` is the state after construction.
- The C++ parser reads tokens through a vector and an index, and is total only on sequences ending in the end token. The model requires that sentinel (`Parser.ValidTokens`), which the lexer always provides (`Lexer.Tokenize`).
- Parser.ParsePrimary: a number token always becomes a literal. The C++ parser converts the text with `std::stod` (include/parser.hpp:326-327). That call throws `std::out_of_range` on a literal the lexer accepts, such as `1` followed by 400 zeros. It also throws `std::invalid_argument` on a number token whose text has no numeric prefix, such as `""`, `"x"` or `"."`. The lexer never makes such a token, but the parser's lemmas quantify over any token sequence ending in the end token. Both failures are dropped. So `ParserRoundTrip.RoundTrip`, `ParserRoundTrip.PrintThenParse`, `ParserRoundTrip.PrintedProgramParses`, `ParserFacts.ProductBindsTighter`, `ParserFacts.DifferenceGroupsLeft` and the statement round trips hold for the C++ parser only when every number text they read converts.
- Lexer.Advance: line and column are unbounded. In the C++ lexer they are `int` (include/lexer.hpp:44-45, 56-57) and would overflow past 2147483647 lines or columns. `Lexer.LexedPositive` and `Lexer.PositionCounts` hold for unbounded counters only.
- Parser.ParseStatement: the statement parsers' own contracts state the shape of the result. That the children are the sub-parses is stated by the `StatementRoundTrip` lemmas (`ReturnParts`, `VarDeclParts`, `IfParts`, `IfElseParts`, `BlockParts`, `BlockLoopParts`, `FunctionParts`).
- Parser.ParseFunction: locality (the tokens after the function are never read) is proved for printed functions (`StatementRoundTrip.FunctionRoundTrip`) and for the empty function (`ParserFacts.FunctionIgnoresTail`). It is not proved for tokens that are not printed.
- Parser.BinaryLoop: the loop tests "is an operator of this level" (`Parser.MatchOperator`) rather than the chain of `match` calls. The two are proved equal by `Parser.MatchEachIsMatchOperator`.
- Lexer.NextToken: the scanning after whitespace is a separate function, `Lexer.ScanToken`. `Parser.ParseStatement` is split the same way into `Parser.ParseReturn`, `Parser.ParseIf` and `Parser.ParseVarDecl`.
