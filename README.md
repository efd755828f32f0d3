# Ermis core, modelled in Dafny

Ermis is a small interpreted language with Greek keywords (`έστω`, `συνάρτηση`,
`επέστρεψε`, `εάν`, `αλλιώς`, `όσο`, `Αληθές`, `Ψευδές`, `και`, `ή`). Running a program
takes three stages:

- a hand-written **lexer** turns the source text into tokens;
- a recursive-descent **parser** builds a syntax tree;
- a tree-walking **visitor** evaluates that tree over one dictionary of variables,
  which all scopes share.

The project models these three stages and the data they share:

- the token kinds and their numeric enum values;
- the punctuation and keyword tables;
- the syntax tree;
- the scopes.

Each stage has the source's own form:

- **Lexer** (`lexer.dfy`). The class `Lex.Lexer` holds the source, the cursor and the
  current character. Its methods move the cursor step by step, as `advance`,
  `skip_whitespace`, `collect_sequence` and `get_next_token` do. Each method is proved
  to agree with the pure function `Lex.NextToken(s, p)`: one call of `get_next_token`
  with the cursor at `p`. `lexer_facts.dfy` proves what that function guarantees.
- **Parser** (`parser.dfy`). The class `Parse.Parser` pulls tokens one at a time from
  the lexer. It keeps the current and the previous token, as the original does. Each
  parsing method is proved to agree with a function of the same name in module
  `Grammar` (`grammar.dfy`). That function describes the same rule over a state
  made of the cursor, the current token and the previous token. `grammar_facts.dfy`
  proves the shape of the language: separators, associativity, precedence, dispatch
  and loops that only append.
- **Evaluator** (`visitor.dfy`). The class `Visitor.Interpreter` keeps the current
  scope and switches it around calls, as `ErmisVisitor` does. Every scope of a run
  shares its parent's dictionary, so a scope chain is one store (`scope.dfy`). Each
  visit method is proved to leave the store as the pure evaluator in `eval.dfy`
  (`Evaluator.Eval`) says. `eval_facts.dfy` and `fuel.dfy` prove properties of that
  evaluator.

Where the code as written does something its authors evidently did not intend, the main
model follows the intent. The code as written is modelled beside it in `as_written.dfy`
(see "## Findings").

## Model

| member | source | states |
|---|---|---|
| Tokens.KindOfValue | Ermis/token.py:3-36 | looking a kind up by its own enum value gives that kind back |
| Tokens.ValuesDistinct | Ermis/token.py:3-36 | two kinds have the same enum value exactly when they are the same kind |
| Tokens.Value | Ermis/token.py:3-36 | the enum value of each kind, as the enum lists it: all lie in 0..37 and none is 12, 13, 14 or 27 (`If` is 37); distinct by `Tokens.ValuesDistinct` |
| Tokens.ExpressionTierByValue | Ermis/parser.py:318 | the loose operator tier (comparisons, `and`, `or`, `+`, `-`) is exactly the kinds whose value lies in 15..24 |
| Tokens.TiersDisjoint | Ermis/parser.py:296-297 | `*` and `/` are not in the loose tier, and the keyword kinds `if`, `else`, `let`, `function`, `return`, `while` and `Bool` are in neither operator tier (the keywords `και` and `ή` are the loose tier's `and` and `or`) |
| Config.PunctuationKind | Ermis/lexer.py:151-153 | a character's punctuation kind is a table entry for that character, and there is none exactly when no entry has that character |
| Config.FirstMatch | Ermis/lexer.py:151-153 | a kind found by the front-to-back table scan is paired with the character in the table |
| Config.FirstMatchNone | Ermis/lexer.py:151-155 | the scan finds nothing exactly when no table entry has the character as key |
| Config.FirstMatchUnique | Ermis/lexer.py:151-153 | when the keys are distinct, the entry whose key is the character is the one the scan finds |
| Config.PunctuationDistinct | Ermis/config.py:3-17 | the punctuation table has 13 entries, with distinct keys and distinct kinds |
| Config.PunctuationKindUnique | Ermis/config.py:3-17 | each punctuation character maps to the kind of its own entry |
| Config.PunctuationOmits | Ermis/config.py:3-17 | `!` and `"` are not punctuation, and no character maps to `And` or `Or` |
| Config.KeywordFacts | Ermis/config.py:19-30 | both boolean spellings are `Bool` keywords and differ; `και` is `And` and `ή` is `Or` |
| Config.KeywordsNotPunctuation | Ermis/config.py:3-30 | no keyword is spelled like a punctuation character |
| Ast.DecimalValue | Ermis/AST.py:21 | `int()` of a digit run, most significant digit first; never negative (its round trip with the spelling of a number is `Ast.DecimalRoundTrip`) |
| Ast.DecimalText | Ermis/AST.py:18-21 | the decimal spelling of a natural number is a non-empty run of digits |
| Ast.DecimalRoundTrip | Ermis/AST.py:18-21 | reading back the decimal spelling of `n` gives `n` |
| Ast.LeadingZero | Ermis/AST.py:18-21 | a leading zero does not change the value of a digit run |
| Ast.LeadingZeros | Ermis/AST.py:18-21 | any number of leading zeros leaves the value of a digit run unchanged |
| Ast.NumberNode | Ermis/AST.py:18-21 | an integer node holds the number its digit text spells, whatever leading zeros it has (`007` holds 7) |
| Ast.StringNode | Ermis/AST.py:35-38 | a string node holds the token's text unchanged |
| Ast.VariableNode | Ermis/AST.py:66-68 | a variable node is named by the token's text |
| Ast.ReturnNode | Ermis/AST.py:84-86 | a return built without an operand holds a `NOOP`, and otherwise holds its operand |
| Values.TypeOf | Ermis/visitor.py:109 | the Python type of a value; it is `int` or `bool` exactly for the values that take part in arithmetic |
| Values.Truthy | Ermis/visitor.py:127-140 | a value is true unless it equals `0` (so `False` too), equals `""`, or is `None` |
| Values.PyEq | Ermis/visitor.py:211 | two values compare equal only when they have the same type or are both numbers (`True == 1`) |
| Values.Num | Ermis/visitor.py:203-210 | in arithmetic an integer is itself, `True` is 1 and `False` is 0 |
| Values.PyEqEquivalence | Ermis/visitor.py:211 | value equality is reflexive, symmetric and transitive |
| Values.PyEqSameType | Ermis/visitor.py:109-112 | two values of the same type are equal exactly when they are the same value |
| Scope.Define | Ermis/scope.py:18-22 | `insert` fails with AlreadyDefined exactly when the name is present; otherwise it binds the name and keeps every other binding |
| Scope.Lookup | Ermis/scope.py:24-35 | `find` succeeds exactly when the name is bound to something other than `None`, returns that binding, and otherwise reports UndefinedVariable |
| Scope.DefineOnce | Ermis/scope.py:18-22 | a name can be inserted once only |
| Scope.DefineThenLookup | Ermis/scope.py:18-35 | what is inserted is found again, unless it is `None` |
| Scope.DefineKeepsOthers | Ermis/scope.py:18-22 | inserting one name does not change what any other name finds |
| Scope.NoneBindingIsStuck | Ermis/scope.py:18-35 | a name bound to `None` can be neither found nor inserted again |
| Scope.Store.constructor | Ermis/scope.py:13 | a new dictionary is empty |
| Scope.LocalScope.constructor | Ermis/scope.py:12-16 | a scope with a parent shares the parent's very dictionary and root; a scope without one gets a fresh, empty dictionary |
| Scope.LocalScope.Insert | Ermis/scope.py:18-22 | the shared dictionary changes as `Define` says, and not at all on failure |
| Scope.LocalScope.Find | Ermis/scope.py:24-35 | the result is `Lookup` of the shared dictionary, which is left unchanged |
| Scope.SameRootSameStore | Ermis/scope.py:13 | two scopes with the same root use one dictionary |
| Scope.SharesRootStore | Ermis/scope.py:13 | every scope of a chain uses its root's dictionary |
| Chars.IsSpace | Ermis/lexer.py:41 | `isspace`: space, tab, newline and carriage return are whitespace, and `>`, `"` and `_` are not |
| Chars.IsDigit | Ermis/lexer.py:136-137 | `isdigit`: a digit is neither whitespace nor `"` nor `>` |
| Chars.IsAlnum | Ermis/lexer.py:142 | `isalnum`: a letter or digit is neither whitespace nor `"`, `_` or `>` |
| Chars.IsIdentChar | Ermis/lexer.py:116 | an identifier character is neither whitespace nor `"` nor `>`, and every digit is one |
| Lex.CharAt | Ermis/lexer.py:23-29 | the current character is `None` exactly when the cursor is past the last index, and otherwise the character under the cursor |
| Lex.CommentAt | Ermis/lexer.py:52 | a comment starts exactly where the current and the next character are both `>` |
| Lex.RunEnd | Ermis/lexer.py:80-92 | a run ends at or after its start and within the text |
| Lex.RunEndFacts | Ermis/lexer.py:80-92 | every character of a run satisfies the condition, and the character after it does not |
| Lex.SkipComments | Ermis/lexer.py:44-57 | skipping comments only moves the cursor forward, and stays within the text |
| Lex.SkipTrivia | Ermis/lexer.py:132-133 | skipping whitespace, then comments, only moves the cursor forward, and stays within the text |
| Lex.CheckKeyword | Ermis/lexer.py:94-100 | a keyword gets its own kind, and any other word is an `Identifier` |
| Lex.TwoCharKind | Ermis/lexer.py:145-149 | a two-character operator is recognised exactly for `==`, `!=`, `>=` and `<=` |
| Lex.NextToken | Ermis/lexer.py:124-157 | a token is never behind the cursor; a token other than EOF starts inside the text and consumes at least one character; EOF is the `<EOF>` token at the end of input |
| Lex.TokenAt | Ermis/lexer.py:135-155 | a token read at a character consumes at least one character and is never EOF |
| Lex.PunctuationToken | Ermis/lexer.py:151-155 | a punctuation character is one token of one character; any other character is an UnexpectedToken error naming it |
| Lex.Lexer.constructor | Ermis/lexer.py:6-15 | the cursor starts at position 0, with the current character in step |
| Lex.Lexer.HasReachedEnd | Ermis/lexer.py:72-78 | the lexer is at the end exactly when there is no current character |
| Lex.Lexer.Advance | Ermis/lexer.py:17-29 | the cursor moves one step, and the current character stays in step with it |
| Lex.Lexer.Peek | Ermis/lexer.py:31-37 | the character after the current one, or `None` past the end |
| Lex.Lexer.SkipWhitespace | Ermis/lexer.py:39-42 | the cursor ends at the end of the whitespace run |
| Lex.Lexer.SkipComment | Ermis/lexer.py:44-57 | the cursor ends where `SkipComments` says |
| Lex.Lexer.AdvanceToken | Ermis/lexer.py:59-70 | the token holds the current character, and the cursor moves one step |
| Lex.Lexer.CollectSequence | Ermis/lexer.py:80-92 | the token's text is the maximal run from the cursor that satisfies the condition, and the cursor ends after it |
| Lex.Lexer.CollectString | Ermis/lexer.py:102-112 | the token holds the characters between the quotes, and the cursor ends after the closing quote |
| Lex.Lexer.CollectIdentifier | Ermis/lexer.py:114-122 | the token is the maximal identifier run, classified by `CheckKeyword` |
| Lex.Lexer.GetNextToken | Ermis/lexer.py:124-157 | the result and the new cursor are those of `NextToken` at the old cursor |
| Lex.Lexer.ReadToken | Ermis/lexer.py:135-155 | the result and the new cursor are those of `TokenAt` |
| Lex.Lexer.ReadPunctuation | Ermis/lexer.py:151-155 | the result is `PunctuationToken` of the current character, and the cursor moves one step on success |
| LexFacts.PastEndIsEof | Ermis/lexer.py:135-157 | at or past the end of input the lexer yields EOF and stays where it is |
| LexFacts.EofIsSticky | Ermis/lexer.py:124-157 | once EOF has been returned, every later call returns EOF again |
| LexFacts.SkipCommentsStops | Ermis/lexer.py:44-57 | skipping comments stops at the end of input, or on a character that is neither space nor the start of a comment |
| LexFacts.TriviaSkipped | Ermis/lexer.py:39-57 | after skipping trivia, the next token never starts on whitespace or on a comment |
| LexFacts.SpaceIsInvisible | Ermis/lexer.py:39-42 | a whitespace character before the cursor does not change the next token |
| LexFacts.CommentIsInvisible | Ermis/lexer.py:44-57 | lexing from the start of a comment is lexing from its end |
| LexFacts.IntegerTokens | Ermis/lexer.py:136-137 | a token starting with a digit is an `Integer` whose text is the maximal digit run, and only such a token is |
| LexFacts.NoIntegerOtherwise | Ermis/lexer.py:136-155 | a token that does not start with a digit is never an `Integer` |
| LexFacts.NeverFloat | Ermis/lexer.py:124-157 | the lexer never produces a `Float` token |
| LexFacts.TokenNeverFloat | Ermis/lexer.py:135-155 | no branch of the token dispatch produces `Float` |
| LexFacts.StringTokens | Ermis/lexer.py:102-112 | a string token holds exactly the characters between the quotes, with no escapes |
| LexFacts.IdentifierTokens | Ermis/lexer.py:114-122 | a token starting with a letter is the maximal run of letters, digits and `_`, with its keyword kind or `Identifier` |
| LexFacts.IdentifierAt | Ermis/lexer.py:142-143 | at a letter, the identifier branch is taken |
| LexFacts.UnexpectedCharacter | Ermis/lexer.py:151-155 | the lexical error is raised exactly for a character that no branch accepts, and it names that character |
| LexFacts.RunToEnd | Ermis/lexer.py:88-90 | a run that holds up to the end of input ends there |
| LexFacts.KeywordsLex | Ermis/lexer.py:114-122 | each keyword, written alone, lexes to one token of its own kind |
| Grammar.Start | Ermis/parser.py:6-10 | the parser starts exactly when the first token lexes, and that token is both current and previous |
| Grammar.Eat | Ermis/parser.py:12-27 | the current token is consumed exactly when it has the expected kind; a mismatch is WrongToken; on success the previous token is the eaten one and the parser moves forward |
| Grammar.Separator | Ermis/parser.py:40-41 | after `}` no separator is needed; otherwise a missing `;` is a WrongToken error |
| Grammar.ParseCompound | Ermis/parser.py:29-45 | a program parses to a compound and stops at EOF |
| Grammar.CompoundRest | Ermis/parser.py:39-45 | the statement loop stops at EOF with the statements collected so far |
| Grammar.ParseStatement | Ermis/parser.py:47-61 | a kind that starts no statement gives `NOOP` and consumes nothing; any other kind moves the parser forward |
| Grammar.ParseWhile | Ermis/parser.py:63-78 | a while-statement starts at the keyword and its body is a block |
| Grammar.Condition | Ermis/parser.py:68-74 | the head of `if` and `while` starts at the keyword and ends after a `)` |
| Grammar.ParseBlock | Ermis/parser.py:80-101 | a block runs from `{` to `}` and parses to a compound |
| Grammar.BlockRest | Ermis/parser.py:92-101 | the statement loop of a block ends after a `}` |
| Grammar.ParseIf | Ermis/parser.py:103-134 | an if-statement has a block; without an else-branch the next token is not `else` |
| Grammar.IfRest | Ermis/parser.py:123-134 | after the block, an if-statement without `else` is complete and consumes nothing; with `else` its branch is another if-statement or a block; condition and block are kept |
| Grammar.ElseBranch | Ermis/parser.py:125-132 | after `else` comes either another if-statement or a block |
| Grammar.ParseFunction | Ermis/parser.py:136-157 | a declaration starts at the keyword and its body is a block |
| Grammar.FunctionRest | Ermis/parser.py:153-155 | a parameter list followed by a block |
| Grammar.ParseReturn | Ermis/parser.py:159-168 | a return statement starts at its keyword and builds a return node; when `;`, `}` or the end of input follows the keyword the return has no operand and that token is not consumed |
| Grammar.CollectParameters | Ermis/parser.py:170-191 | a parameter list runs from `(` to `)` |
| Grammar.ParametersRest | Ermis/parser.py:185-191 | the comma loop ends after the closing `)` |
| Grammar.ParseFunctionCall | Ermis/parser.py:193-202 | a call is named by the previous token (the identifier just eaten) |
| Grammar.ParseDefinition | Ermis/parser.py:204-220 | a definition starts at the `let` keyword and gives a definition node |
| Grammar.Assigned | Ermis/parser.py:216-218 | the right-hand side of a definition or assignment starts at `=` |
| Grammar.ParseVariable | Ermis/parser.py:222-240 | an identifier gives an assignment, a call or a variable, named by that identifier |
| Grammar.ParseVariableChange | Ermis/parser.py:242-255 | an assignment targets the previous token (the identifier just eaten) |
| Grammar.Factor | Ermis/parser.py:257-284 | a factor consumes at least one token unless it is at EOF |
| Grammar.Parenthesized | Ermis/parser.py:275-279 | a parenthesised expression ends after its `)` |
| Grammar.ParseTerm | Ermis/parser.py:286-308 | a term stops at a token that is not `*` or `/` |
| Grammar.TermRest | Ermis/parser.py:296-306 | the term loop stops at a token that is not `*` or `/`, and returns its operand unchanged when it finds none |
| Grammar.ParseExpression | Ermis/parser.py:310-328 | an expression stops at a token outside the loose operator tier |
| Grammar.ExpressionRest | Ermis/parser.py:318-326 | the expression loop stops outside the loose tier, and returns its operand unchanged when it finds no operator |
| Grammar.ParseProgram | Ermis/visitor.py:15-21 | a parsed program is a compound |
| GrammarFacts.MissingSemicolonRejected | Ermis/parser.py:39-43 | between two statements, a missing `;` is a WrongToken error unless the previous token is `}` |
| GrammarFacts.NoSeparatorAfterCurly | Ermis/parser.py:40-43 | after `}` the next statement follows without a separator |
| GrammarFacts.ReturnWithoutValue | Ermis/parser.py:159-168 | `return;`, `return }` and a `return` at the end of input parse to a return holding `NOOP`, leaving the next token for the statement loop |
| GrammarFacts.NoProgressAfterCurly | Ermis/parser.py:39-43 | after `}`, a token that starts no statement makes the program loop and the block loop spin without progress |
| GrammarFacts.EmptyBlock | Ermis/parser.py:88-101 | `{}` parses to a block that holds a single `NOOP` |
| GrammarFacts.EmptyParameters | Ermis/parser.py:178-191 | `()` gives the empty parameter list |
| GrammarFacts.ParametersInOrder | Ermis/parser.py:178-187 | parameters are collected in source order, starting with the first expression |
| GrammarFacts.ParametersRestKeeps | Ermis/parser.py:185-187 | the comma loop only appends to the parameters already collected |
| GrammarFacts.FactorFallThrough | Ermis/parser.py:268-284 | a kind without a case in `factor` is eaten and gives Python's `None` |
| GrammarFacts.ExpressionLeftAssociative | Ermis/parser.py:316-328 | `a - b - c` parses as `(a - b) - c` |
| GrammarFacts.TermBindsTighter | Ermis/parser.py:286-328 | in `a + b * c` the right operand of `+` is `b * c` |
| GrammarFacts.ElseIfChain | Ermis/parser.py:125-132 | after `else`, a following `if` parses as a nested if-statement |
| GrammarFacts.IdentifierDispatch | Ermis/parser.py:230-240 | after an identifier, `=` starts an assignment, `(` starts a call, and anything else leaves a variable |
| GrammarFacts.CompoundRestKeeps | Ermis/parser.py:37-45 | the program's statement loop only appends to the statements already collected |
| GrammarFacts.CompoundRestStep | Ermis/parser.py:39-43 | one successful round of the program loop moves the parser forward and appends one statement |
| GrammarFacts.BlockRestKeeps | Ermis/parser.py:90-101 | the block's statement loop only appends to the statements already collected |
| GrammarFacts.BlockRestStep | Ermis/parser.py:92-97 | one successful round of the block loop moves the parser forward and appends one statement |
| GrammarFacts.NonEmptyBodies | Ermis/parser.py:37-45 | a program and a block hold at least their first statement |
| Parse.Parser.Create | Ermis/parser.py:6-10 | the parser and the lexer end as `Grammar.Start` says |
| Parse.Parser.Eat | Ermis/parser.py:12-27 | the outcome and new state agree with `Grammar.Eat`, and a mismatch changes nothing |
| Parse.Parser.ParseCompound | Ermis/parser.py:29-45 | the outcome and new state agree with `Grammar.ParseCompound` |
| Parse.Parser.ParseStatement | Ermis/parser.py:47-61 | the outcome and new state agree with `Grammar.ParseStatement` |
| Parse.Parser.ParseWhile | Ermis/parser.py:63-78 | the outcome and new state agree with `Grammar.ParseWhile` |
| Parse.Parser.Condition | Ermis/parser.py:114-119 | the outcome and new state agree with `Grammar.Condition` |
| Parse.Parser.ParseBlock | Ermis/parser.py:80-101 | the outcome and new state agree with `Grammar.ParseBlock` |
| Parse.Parser.BlockRest | Ermis/parser.py:92-101 | the outcome and new state agree with `Grammar.BlockRest` |
| Parse.Parser.ParseIf | Ermis/parser.py:103-134 | the outcome and new state agree with `Grammar.ParseIf` |
| Parse.Parser.IfRest | Ermis/parser.py:123-134 | the outcome and new state agree with `Grammar.IfRest` |
| Parse.Parser.ElseBranch | Ermis/parser.py:125-132 | the outcome and new state agree with `Grammar.ElseBranch` |
| Parse.Parser.ParseFunction | Ermis/parser.py:136-157 | the outcome and new state agree with `Grammar.ParseFunction` |
| Parse.Parser.FunctionRest | Ermis/parser.py:153-155 | the outcome and new state agree with `Grammar.FunctionRest` |
| Parse.Parser.ParseReturn | Ermis/parser.py:159-168 | the outcome and new state agree with `Grammar.ParseReturn` |
| Parse.Parser.CollectParameters | Ermis/parser.py:170-191 | the outcome and new state agree with `Grammar.CollectParameters` |
| Parse.Parser.ParseFunctionCall | Ermis/parser.py:193-202 | the outcome and new state agree with `Grammar.ParseFunctionCall` |
| Parse.Parser.ParseDefinition | Ermis/parser.py:204-220 | the outcome and new state agree with `Grammar.ParseDefinition` |
| Parse.Parser.ParseVariable | Ermis/parser.py:222-240 | the outcome and new state agree with `Grammar.ParseVariable` |
| Parse.Parser.ParseVariableChange | Ermis/parser.py:242-255 | the outcome and new state agree with `Grammar.ParseVariableChange` |
| Parse.Parser.Factor | Ermis/parser.py:257-284 | the outcome and new state agree with `Grammar.Factor` |
| Parse.Parser.Parenthesized | Ermis/parser.py:275-279 | the outcome and new state agree with `Grammar.Parenthesized` |
| Parse.Parser.ParseTerm | Ermis/parser.py:286-308 | the outcome and new state agree with `Grammar.ParseTerm` |
| Parse.Parser.ParseExpression | Ermis/parser.py:310-328 | the outcome and new state agree with `Grammar.ParseExpression` |
| Parse.ExpressionStep | Ermis/parser.py:318-326 | one operator and term make one round of the expression loop, folded to the left |
| Parse.ParseProgram | Ermis/visitor.py:15-21 | building a lexer and a parser and parsing a compound gives `Grammar.ParseProgram` |
| Evaluator.Repeat | Ermis/visitor.py:205 | a string times `n` has `n` copies' length, and none when `n <= 0` (its contents: `EvalFacts.RepeatContents`) |
| Evaluator.ApplyBinary | Ermis/visitor.py:200-213 | only the arithmetic and ordering operators can fail, and only with an operand-type error or, for `/`, division by zero or a float result; arithmetic other than `/` on two numbers succeeds; comparisons and `==`/`!=` give a Boolean |
| Evaluator.StrLess | Ermis/visitor.py:209 | Python's `<` on strings: a proper prefix sorts first, and no string is below one of its prefixes or itself |
| Evaluator.Compare | Ermis/visitor.py:207-210 | ordering comparisons succeed exactly on two numbers or two strings, and are otherwise an operand-type error |
| Evaluator.ApplyUnary | Ermis/visitor.py:216-224 | unary `+` keeps a number and any other operator negates it; anything else is an operand-type error |
| Evaluator.ParamName | Ermis/visitor.py:172-173 | a parameter has a name exactly when it is a node with a `name` attribute |
| Evaluator.Eval | Ermis/visitor.py:45-224 | evaluation never removes a variable and never changes the type of one |
| Evaluator.EvalSeq | Ermis/visitor.py:50-59 | a statement list keeps every variable and its type, and on normal completion has the value `None` |
| Evaluator.EvalBinary | Ermis/visitor.py:190-213 | keeps every variable and its type |
| Evaluator.EvalUnary | Ermis/visitor.py:216-224 | keeps every variable and its type |
| Evaluator.EvalDefinition | Ermis/visitor.py:89-98 | keeps every variable and its type |
| Evaluator.EvalAssignment | Ermis/visitor.py:101-112 | keeps every variable and its type |
| Evaluator.EvalReturn | Ermis/visitor.py:77-86 | a return never completes normally |
| Evaluator.EvalIf | Ermis/visitor.py:125-133 | an if-statement keeps every variable and has the value `None` |
| Evaluator.EvalWhile | Ermis/visitor.py:136-140 | a loop keeps every variable and has the value `None` |
| Evaluator.EvalArgs | Ermis/visitor.py:152 | the arguments' values come in order after those already computed, one per argument; an interruption is never a normal outcome |
| Evaluator.BindParams | Ermis/visitor.py:172-173 | binding parameters never returns, keeps every variable and its type, and on success every parameter name is bound |
| Evaluator.EvalCall | Ermis/visitor.py:143-158 | keeps every variable and its type |
| Evaluator.Invoke | Ermis/visitor.py:154-170 | keeps every variable and its type |
| Evaluator.CallFunction | Ermis/visitor.py:160-187 | keeps every variable and its type |
| Evaluator.Run | Ermis/visitor.py:26-42 | a program has the value `None`, and a `return` never escapes it |
| Evaluator.Execute | Ermis/visitor.py:15-23 | a run never ends by returning; it completes normally only after a successful parse; a parse error leaves the store empty |
| EvalFacts.StrLessStrict | Ermis/visitor.py:209 | string `<` is irreflexive and asymmetric |
| EvalFacts.StrLessTotal | Ermis/visitor.py:209 | of two different strings, one is below the other |
| EvalFacts.StrLessTransitive | Ermis/visitor.py:209 | string `<` is transitive |
| EvalFacts.ComparisonsAgree | Ermis/visitor.py:207-210 | `x > y` agrees with `y < x`, and `x >= y` with `y <= x` |
| EvalFacts.StringComparisonTrichotomy | Ermis/visitor.py:209 | of two different strings, exactly one is below the other |
| EvalFacts.EqualityOperators | Ermis/visitor.py:211 | `!=` is the negation of `==`, and `==` is reflexive |
| EvalFacts.LogicalOperators | Ermis/visitor.py:212-213 | `and` and `or` return one of their operands, whose truth is the conjunction or disjunction of theirs |
| EvalFacts.DivisionFails | Ermis/visitor.py:206 | division never produces a value: by zero it is an error, and otherwise its result would be a float |
| EvalFacts.RepeatContents | Ermis/visitor.py:205 | character `i` of a string repeated `n` times is character `i mod |s|` of the string: the result is `n` copies |
| EvalFacts.ArithmeticOperators | Ermis/visitor.py:203-205 | `+` adds numbers and concatenates strings; `*` repeats a string from either side, giving `n` copies of it; mixing strings and numbers in `+` or `-` is an operand-type error |
| EvalFacts.UnhandledOperator | Ermis/visitor.py:202-213 | an operator without a case gives `None` |
| EvalFacts.BooleanLiterals | Ermis/visitor.py:67-69 | `Αληθές` evaluates to true and `Ψευδές` to false |
| EvalFacts.ReturnOfNothing | Ermis/visitor.py:86 | a return of Python's `None` (what `return;` parses to as written, `AsWritten.ReturnSwallowsSemicolon`) has no visitor |
| EvalFacts.ReturnWithoutOperand | Ermis/AST.py:84-86 | a return holding its `NOOP` default unwinds with `None` and leaves the store alone |
| EvalFacts.VariableReads | Ermis/visitor.py:115-122 | a variable reads its binding, or fails as undefined, and never changes the store |
| EvalFacts.RedefinitionFails | Ermis/visitor.py:89-98 | defining a name already present fails with AlreadyDefined, after the initializer has run |
| EvalFacts.DefinitionBinds | Ermis/visitor.py:89-98 | defining a fresh name binds it to the initializer's value and keeps everything else |
| EvalFacts.UndefinedAssignmentFailsFirst | Ermis/visitor.py:101-107 | assigning to an undefined name fails before the right-hand side runs |
| EvalFacts.AssignmentReplaces | Ermis/visitor.py:101-112 | a successful assignment replaces the binding with a value of the same type, which then reads back, and nothing else changes |
| EvalFacts.AssignmentKeepsType | Ermis/visitor.py:109-110 | an assignment of a value of another type fails with WrongType |
| EvalFacts.SeqAppend | Ermis/visitor.py:58-59 | running `a + b` is running `a`, then `b` from the store `a` left, unless `a` stopped |
| EvalFacts.ReturnSkipsRest | Ermis/visitor.py:77-86 | a `return` ends a statement list, and the statements after it never run |
| EvalFacts.ErrorSkipsRest | Ermis/visitor.py:58-59 | a failing statement ends a statement list with its error and its store |
| EvalFacts.NoShortCircuit | Ermis/visitor.py:199-213 | both operands are evaluated first, so a failing right operand fails `and` and `or` too |
| EvalFacts.WhileSteps | Ermis/visitor.py:136-140 | a falsy condition ends the loop; a truthy one runs the body and then the loop again |
| EvalFacts.BuiltinsShadowFunctions | Ermis/visitor.py:154-158 | a builtin name is called directly, whatever the store binds to it |
| EvalFacts.CallErrors | Ermis/visitor.py:161-170 | calling a name that holds no function, or calling with the wrong number of arguments, fails and leaves the store alone |
| EvalFacts.ParametersPersist | Ermis/visitor.py:163-173 | after any call that did not fail, every parameter name stays bound in the shared store |
| EvalFacts.SecondCallFails | Ermis/visitor.py:172-173 | a function with parameters cannot be called a second time: its first parameter is already defined |
| EvalFacts.CallValue | Ermis/visitor.py:175-187 | a call's value is what its body returns, or `None` when the body returns nothing |
| EvalFacts.TopLevelReturn | Ermis/visitor.py:26-42 | a `return` outside any function is an error of the whole run |
| Fuel.Monotone | Ermis/visitor.py:136-140 | a run that did not run out of fuel ends the same with any larger amount |
| Fuel.EvalMore | Ermis/visitor.py:45-224 | one more unit of fuel changes nothing about a finished evaluation |
| Fuel.SeqMore | Ermis/visitor.py:50-59 | one more unit of fuel changes nothing about a finished statement list |
| Fuel.BinaryMore | Ermis/visitor.py:190-213 | one more unit of fuel changes nothing about a finished binary operation |
| Fuel.UnaryMore | Ermis/visitor.py:216-224 | one more unit of fuel changes nothing about a finished unary operation |
| Fuel.DefinitionMore | Ermis/visitor.py:89-98 | one more unit of fuel changes nothing about a finished definition |
| Fuel.AssignmentMore | Ermis/visitor.py:101-112 | one more unit of fuel changes nothing about a finished assignment |
| Fuel.ReturnMore | Ermis/visitor.py:77-86 | one more unit of fuel changes nothing about a finished return |
| Fuel.IfMore | Ermis/visitor.py:125-133 | one more unit of fuel changes nothing about a finished if-statement |
| Fuel.WhileMore | Ermis/visitor.py:136-140 | one more unit of fuel changes nothing about a finished loop |
| Fuel.ArgsMore | Ermis/visitor.py:152 | one more unit of fuel changes nothing about finished argument evaluation |
| Fuel.CallMore | Ermis/visitor.py:143-187 | one more unit of fuel changes nothing about a finished call |
| Fuel.InvokeMore | Ermis/visitor.py:154-170 | one more unit of fuel changes nothing about a finished call proper |
| Fuel.CallFunctionMore | Ermis/visitor.py:160-187 | one more unit of fuel changes nothing about a finished user-function call |
| Fuel.RunMore | Ermis/visitor.py:26-42 | a whole program that did not run out of fuel ends the same with more |
| Visitor.Interpreter.constructor | Ermis/visitor.py:9-13 | a new interpreter has no current scope |
| Visitor.Interpreter.Visit | Ermis/visitor.py:45-224 | the outcome and the new store are those of `Eval` on the old store, and the current scope is restored |
| Visitor.Interpreter.VisitCompound | Ermis/visitor.py:50-59 | the outcome and the new store are those of `EvalSeq` |
| Visitor.Interpreter.VisitBinary | Ermis/visitor.py:190-213 | the outcome and the new store are those of `EvalBinary` |
| Visitor.Interpreter.VisitUnary | Ermis/visitor.py:216-224 | the outcome and the new store are those of `EvalUnary` |
| Visitor.Interpreter.VisitDefinition | Ermis/visitor.py:89-98 | the outcome and the new store are those of `EvalDefinition` |
| Visitor.Interpreter.VisitAssignment | Ermis/visitor.py:101-112 | the outcome and the new store are those of `EvalAssignment` |
| Visitor.Interpreter.VisitFunction | Ermis/visitor.py:72-74 | storing a declaration under its name is what `Eval` says |
| Visitor.Interpreter.VisitReturn | Ermis/visitor.py:77-86 | the outcome and the new store are those of `EvalReturn` |
| Visitor.Interpreter.VisitIf | Ermis/visitor.py:125-133 | the outcome and the new store are those of `EvalIf` |
| Visitor.Interpreter.VisitWhile | Ermis/visitor.py:136-140 | the outcome and the new store are those of `EvalWhile` |
| Visitor.Interpreter.VisitCall | Ermis/visitor.py:143-158 | the outcome and the new store are those of `EvalCall` |
| Visitor.Interpreter.Invoke | Ermis/visitor.py:154-170 | the outcome and the new store are those of `Evaluator.Invoke` |
| Visitor.Interpreter.CallFunction | Ermis/visitor.py:160-187 | the outcome and the new store are those of `Evaluator.CallFunction`, and the caller's scope is current again afterwards |
| Visitor.Interpreter.Bind | Ermis/visitor.py:172-173 | the function scope's store changes as `BindParams` says |
| Visitor.Interpreter.VisitProgram | Ermis/visitor.py:26-42 | a fresh global scope becomes current, and the outcome and store are those of `Run` |
| Visitor.Interpreter.Execute | Ermis/visitor.py:15-23 | the outcome and the store are those of `Evaluator.Execute`; a parse error creates no scope |
| AsWritten.Peek | Ermis/lexer.py:31-37 | as written, `peek` at the last character or past it returns the last character |
| AsWritten.CommentStarts | Ermis/lexer.py:52 | as written, the comment test holds exactly at a real comment start (`>>`) or at a lone `>` that ends the input |
| AsWritten.TrailingGreaterStartsComment | Ermis/lexer.py:52 | as written, a lone `>` at the end of input passes the comment test |
| AsWritten.CommentLineEnd | Ermis/lexer.py:53-54 | a comment loop that ends stops on a newline |
| AsWritten.UnterminatedCommentLoops | Ermis/lexer.py:53-54 | as written, a comment with no newline after it never ends |
| AsWritten.TokenAt | Ermis/lexer.py:145-149 | as written, the dispatch fails with a NameError exactly when a two-character operator is matched |
| AsWritten.DoubleEqualsCrashes | Ermis/lexer.py:146 | `a==b` crashes as written, where the intended lexer yields one `==` token |
| AsWritten.FinalEqualsCrashes | Ermis/lexer.py:37 | a final `=` crashes as written, where the intended lexer yields an `=` token |
| AsWritten.BooleanValue | Ermis/visitor.py:67-69 | as written, a boolean literal is a bool |
| AsWritten.TrueLiteralReadsFalse | Ermis/visitor.py:69 | as written, `Αληθές` evaluates to false |
| AsWritten.Assign | Ermis/visitor.py:101-112 | as written, an assignment keeps every variable and its type |
| AsWritten.AssignmentAlwaysFails | Ermis/visitor.py:112 | as written, no assignment ever succeeds |
| AsWritten.ApplyBinary | Ermis/visitor.py:202-213 | as written, the operators agree with the intended ones except `==` |
| AsWritten.LoopRoundAfterCurlyIsIdle | Ermis/parser.py:38-44 | as written, a round of the statement loop right after `}`, when no statement follows, eats nothing, parses a `NOOP` and leaves the parser state as it was |
| AsWritten.ParseReturn | Ermis/parser.py:159-168 | as written, `parse_return` eats the keyword and always parses an expression, so it fails where the keyword does and otherwise builds a return node |
| AsWritten.ReturnSwallowsSemicolon | Ermis/parser.py:159-168 | as written, in `return;` the factor eats the `;` and the node holds Python's `None`; a statement after it is then refused for want of a `;` (`εάν (1) { επέστρεψε; x = 1 }`) |
| AsWritten.EqualityIsNone | Ermis/visitor.py:202-213 | as written, `1 == 1` is `None` and so falsy |

## Left out

- Floating-point values are not modelled. The lexer never produces a `Float` token, and
  division of two numbers reports `FloatResult` instead of a float.
- Builtins (`ermis_globals`) are abstracted as a `Registry`: a set of names and a
  function giving each call's result. Printing, input and sleeping inside builtins are
  not modelled.
- Errors: every Ermis exception prints a message and exits the process. Here each is an
  `Error` value that stops the run, and the messages are left out.
- Termination: `while` loops and calls can run forever. The evaluator takes a `fuel`
  bound, and running out of it is the `OutOfFuel` error. `Fuel` proves that a result
  reached without running out does not depend on the amount.
- Evaluator.Eval: a return whose operand is Python's `None` (a factor that matched no
  token) fails for lack of a handler (`NoHandler`), as written. `return;`, `return }` and
  a final `return` parse to a return holding `NOOP` (see "## Findings").
- Lex.Lexer.Peek: the `offset` argument of `peek` (default 1) is not modelled; every call
  uses the default.
- Lex.Lexer.constructor: on an empty source the original raises IndexError. The model
  starts at end of input instead.
- Character classes (`isspace`, `isdigit`, `isalnum`) are limited to ASCII and the Greek
  letters. Other Unicode letters and digits are not modelled.
- `bool` behaves as an integer in arithmetic and comparisons, as in Python. Other Python
  coercions are not modelled.
- Module imports that would fail are modelled by their evident intent:
  - `from .errors import` at Ermis/lexer.py:1 names a module that does not exist; the
    module is `exceptions`.
  - `AlreadyDefinedError` is imported at Ermis/scope.py:3, but is not defined in
    Ermis/exceptions.py.
  - The model raises `AlreadyDefined` as a plain error.
- Visitor.Interpreter.VisitProgram and Visitor.Interpreter.CallFunction pass `scope_level`
  to `LocalScope` at Ermis/visitor.py:37 and :165. The constructor at Ermis/scope.py:12
  takes no such argument, so these calls raise TypeError. The model creates the scope
  without it.
- The generic `visit` dispatch (Ermis/utils/visitor.py) and the console front end
  (Ermis/ermis.py, Ermis/utils/console.py) are not part of this model. Dispatch is a
  `match` on the node kind.

## Findings

| source | as written | input that shows it | evidently intended | confidence | as-written member | corrected member |
|---|---|---|---|---|---|---|
| Ermis/lexer.py:53-54 | the comment loop stops only at a newline; past the end `current_char` is `None`, so the loop never stops | `>> note` with no newline after it | the comment ends at the end of input | not executed | AsWritten.UnterminatedCommentLoops | LexFacts.SkipCommentsStops |
| Ermis/lexer.py:37 | `peek` clamps its index, so at the last character it returns that character itself | `1 >` (a lone final `>` passes the comment test) and `x =` (a final `=` reads as `==`) | past the end, `peek` gives no character | not executed | AsWritten.TrailingGreaterStartsComment, AsWritten.FinalEqualsCrashes | Lex.Lexer.Peek |
| Ermis/lexer.py:145-149 | the four two-character cases call `advance_token` without `self`, and pass `TokenTypes.EqualEqual`, which does not exist | `a==b` | one two-character token (`EqualsEquals`, `NotEquals`, `GreaterEqual`, `LessEqual`) that consumes both characters | not executed | AsWritten.DoubleEqualsCrashes | Lex.Lexer.ReadToken |
| Ermis/visitor.py:69 | the parser stores the whole token in a `Boolean` node (Ermis/parser.py:283), and a token never equals the string `Αληθές` | `Αληθές` | the literal is true exactly when spelled `Αληθές` | not executed | AsWritten.TrueLiteralReadsFalse | EvalFacts.BooleanLiterals |
| Ermis/visitor.py:112 | the assignment re-inserts a name that `find` has just found, so `insert` always refuses it | `έστω x = 1; x = 2` | the binding is replaced by the new value of the same type | not executed | AsWritten.AssignmentAlwaysFails | EvalFacts.AssignmentReplaces |
| Ermis/visitor.py:202-213 | the operator dispatch has no `==` case, so `==` gives `None`, which is falsy | `1 == 1` | value equality, the negation of `!=` | not executed | AsWritten.EqualityIsNone | EvalFacts.EqualityOperators |
| Ermis/parser.py:38-44 | in `parse_compound` and in `parse_block` (Ermis/parser.py:92-97), after `}` no `;` is required, so when the next token starts no statement a round parses an empty `NOOP` and consumes nothing, and the loop repeats that round forever | `εάν (x) { };` | the parser reports an error | not executed | AsWritten.LoopRoundAfterCurlyIsIdle | GrammarFacts.NoProgressAfterCurly |
| Ermis/parser.py:159-168 | `parse_return` always parses an expression; when the keyword ends its statement the factor swallows the next token (`;`, or the `}` of a block) and gives `None`, so the node holds `None` instead of `Return`'s `NOOP` default (Ermis/AST.py:85) and has no visitor; a swallowed `;` also makes the next statement fail for want of a `;` | `εάν (1) { επέστρεψε; x = 1 }` and `συνάρτηση f() { επέστρεψε }` | a return without an operand holds `NOOP` and returns `None`, and the token after it is left to the statement loop | not executed | AsWritten.ParseReturn, AsWritten.ReturnSwallowsSemicolon, EvalFacts.ReturnOfNothing | GrammarFacts.ReturnWithoutValue, EvalFacts.ReturnWithoutOperand |
