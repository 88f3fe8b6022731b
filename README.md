# ignis compiler front end, modelled and verified in Dafny

ignis is a small C-like language. Its Python compiler reads source text,
splits it into tokens, parses them by recursive descent into a syntax tree,
warns about loops that may never end, and emits either C++ or an x86-64
assembly program driven by a machine stack. Diagnostics are printed with a
numbered window of source lines and a caret under the offending column.

This project models each pass in the form the Python code takes:

- **Lexer** (`lexer.dfy`, module `Lexing`; token tables in `tokens.dfy`,
  module `Tokens`). A `Lexer` class holds the text, the cursor `pos` and the
  `currentChar` the cursor is on. `Advance` moves the cursor by one
  character. `SkipWhitespace`, `SkipComment` (nested block comments and a
  depth counter), `Number`, `Identifier` and `GetNextToken` are
  `while`-loop methods. Each method is proved against the pure scanner
  `Scan(text, p)`. `Lex(text, p)` is the whole
  token stream. `lexer_props.dfy` (module `LexerProps`) proves longest-match
  operators, maximal identifier and digit runs, the keyword table, comment
  skipping and the end-of-input behaviour.
- **Parser** (`parser.dfy`, module `Parsing`). A `Parser` class holds the
  lexer, `currentToken` and `peekToken`. Each parsing method is proved equal
  to a pure function over the token stream (`parser_spec.dfy`, module
  `ParserSpec`). `parser_props.dfy` (module `ParserProps`) proves:
  - an unparse/parse round trip for every expression, which gives
    precedence, left associativity and parentheses;
  - how each statement and declaration is chosen and what it consumes;
  - that parsed lists keep source order.
- **Syntax tree** (`ast.dfy`, module `Ast`). One datatype `Node` holds every
  node class any pass uses. `Repr` models the `__repr__` methods.
- **Loop checker** (`checker.dfy`, module `LoopChecker`). `HasBreak` is the
  break search. A `Checker` class visits the tree and records the printed
  W001/W002 warnings.
- **C++ emitter** (`cpp_spec.dfy`, `cpp_props.dfy`, `cpp_emitter.dfy`;
  modules `CppSpec`, `CppProps`, `CppEmitter`):
  - The `CppWriter` class is the indenting line writer.
  - The `CodeGeneratorCpp` class has one method per visitor. Each is proved
    against `CppSpec.Stmt`, `CppSpec.ExprText` and the console lines it
    prints.
  - Proved properties: string and character literals decode back, under
    C++'s simple escapes, to what they were made from (for a character
    literal this is C++'s own reading only for ASCII codes), expressions
    are fully parenthesised, and every statement keeps the
    indentation and only appends.
- **x86-64 emitter** (`x86_spec.dfy`, `x86_props.dfy`, `x86_emitter.dfy`;
  modules `X86Spec`, `X86Props`, `X86Emitter`):
  - The `CodeGenerator` class holds `assemblyCode`, `symbolTable` and
    `stackIndex`. Each visitor is proved against `X86Spec.Emit`.
  - Proved properties:
    - The emitted lines do not depend on what was emitted before.
    - Stack slots are distinct negative multiples of 8.
    - Every arithmetic expression pushes exactly one value and never pops
      below its start.
    - The error cases, and the layout of `main` and of the whole output.
- **Diagnostics** (`diagnostics.dfy`, module `Diagnostics`). The snippet
  window, number gutter, caret row and message layout are functions.
  `BuildSnippet` is the snippet loop. The `ErrorReporter` class sets
  `hadError`/`hadWarning` and either fails or prints.
- **Passes together** (`pipeline.dfy`, module `Pipeline`). This covers what
  the x86-64 emitter does with trees the parser builds.

`text.dfy` (decimal rendering, padding, joining) and `wrappers.dfy`
(`Option`, `Result`) are shared helpers. A Python exception is modelled as
`Err(message)`, with the message the exception would carry. Where that
message is worded by Python itself, the model uses the wording of Python
3.12.

The node classes are written against different revisions of the tree:
- The checker and the C++ emitter use `Block`, `Param`, `StringLiteral`,
  `CharLiteral`, `LoopStmt`, `WhileStmt`, `IfExpr`, `BreakStmt` and
  `UnaryOp`, as well as `params`, `pointer_level` and a call's name node.
  `ignis/ast_nodes.py` defines none of these, so their field order is
  assumed: `LoopStmt(body)`, `WhileStmt(condition, body)`,
  `IfExpr(condition, ifBlock, elseBlock)`, `Block(children)`,
  `Param(typeNode, varNode)` and `UnaryOp(op, expr)`. `Children` follows that order, and so does the
  order in which the checker prints its warnings. No class in the
  repository confirms it.
- So the C++ emitter (the `CppSpec`, `CppEmitter` and `CppProps` members)
  is modelled against a revision of the node classes that the repository
  does not contain. As shipped, `ignis/codegen_cpp.py` cannot even be
  imported: its visitor annotations, such as `node: Block`
  (`ignis/codegen_cpp.py:88`), are evaluated when the class body runs and
  raise `NameError`. With those classes supplied, trees built from
  `ignis/ast_nodes.py` would still lack `params`, `pointer_level` and a
  call's name node.
- `ignis/checker.py` imports, but its `_has_break` names `BreakStmt`
  (`ignis/checker.py:38`), which would raise `NameError`. It is only
  called for `LoopStmt` and `WhileStmt` nodes, which that file cannot
  build. The checker's members are modelled against the same assumed
  revision.
- The parser builds `Compound` bodies (`ignis/parser.py:181`), but both
  code generators only have a visitor for `Block`.

`Node` contains all of them, and each pass is modelled against the
constructors it actually visits. For the x86-64 emitter the consequence
is proved: `Pipeline.ParsedMainIsNotAssembled` shows that no parsed
program with a `main` function gets through it.

## Model

| member | source | states |
|---|---|---|
| Tokens.SingleCharTypeComplete | ignis/lexer.py:7-20 | a single character maps to token type `t` exactly when `t`'s enum value is that one-character string |
| Tokens.KeywordOrIdentifier | ignis/lexer.py:123-128 | the token carries the word as its value, and it is an IDENTIFIER exactly when the word is not a keyword |
| Tokens.KeywordIffReserved | ignis/lexer.py:53-62 | a word has a keyword type exactly when it is one of the eight reserved words |
| Tokens.KeywordValue | ignis/lexer.py:53-62 | each reserved word's token type has that word as its enum value |
| Tokens.PyReprPlain | ignis/lexer.py:48-49 | `repr` of an identifier-character string is the string in single quotes |
| Lexing.RunEnd | ignis/lexer.py:87-89 | the end of the maximal run of characters in a class starting at `p`: every character before it is in the class, and the one at it is not |
| Lexing.BlockEnd | ignis/lexer.py:97-114 | a nested block comment ends just after a `*/` within the text; end of input inside it is the "Unterminated multi-line comment" error |
| Lexing.Scan | ignis/lexer.py:130-175 | a non-EOF token consumes at least one character and stays within the text; EOF is returned only at the end of the input, with the cursor at the end |
| Lexing.ScanToken | ignis/lexer.py:138-173 | at a non-blank, non-comment position the token is never EOF and consumes at least one character |
| Lexing.OperatorToken | ignis/lexer.py:145-173 | an operator or single-character token is never EOF and consumes at least one character |
| Lexing.Lex | ignis/lexer.py:130-175 | repeated `get_next_token` yields a finite stream, no longer than the remaining text, with no EOF before its end |
| Lexing.Lexer.constructor | ignis/lexer.py:65-68 | the cursor starts at 0, with `currentChar` the first character or none |
| Lexing.Lexer.Advance | ignis/lexer.py:73-78 | `pos` grows by one and `currentChar` is the character there, or none past the end |
| Lexing.Lexer.Peek | ignis/lexer.py:80-85 | the character `offset` places ahead, or none past the end, without changing the cursor |
| Lexing.Lexer.SkipWhitespace | ignis/lexer.py:87-89 | the cursor moves to the end of the whitespace run |
| Lexing.Lexer.SkipComment | ignis/lexer.py:91-114 | the cursor ends where the comment ends, or the unterminated-comment error is returned |
| Lexing.Lexer.Number | ignis/lexer.py:116-121 | the cursor moves past the maximal digit run and the result is its decimal value; an empty run is the `int('')` error |
| Lexing.Lexer.Identifier | ignis/lexer.py:123-128 | the cursor moves past the maximal identifier run and the token is that word's keyword or IDENTIFIER |
| Lexing.Lexer.GetNextToken | ignis/lexer.py:130-175 | the token and the new cursor are those of `Scan` from the old cursor, or its error |
| LexerProps.LongestOperator | ignis/lexer.py:145-173 | at an operator position scanning succeeds exactly when some operator is spelled there; the token is the longest operator spelled there, with that spelling as its value and enum value |
| LexerProps.ScanAtOperatorPosition | ignis/lexer.py:143-173 | at a position that is not blank, comment, digit or letter, the scanner takes the operator branch |
| LexerProps.OperatorShape | ignis/lexer.py:9-27 | operators are one to three characters; the two-character ones end in `=`, and the only three-character one is `===` |
| LexerProps.NoLongerOperator | ignis/lexer.py:145-165 | no operator spelled at the position is longer than the token read |
| LexerProps.NoOperatorSpelled | ignis/lexer.py:167-173 | a scanning failure at an operator position means no operator is spelled there, and the error is "Invalid character" for that character |
| LexerProps.OperatorTokenSpells | ignis/lexer.py:145-171 | the characters consumed are an operator, and the token's value and type spell it |
| LexerProps.WordToken | ignis/lexer.py:123-128 | a letter or `_` starts the maximal identifier run; the token is a keyword exactly when the run is reserved, and otherwise an IDENTIFIER carrying the run |
| LexerProps.IntegerToken | ignis/lexer.py:116-121 | a digit starts the maximal digit run, and the token is an INTEGER with its decimal value |
| LexerProps.ScanPrintedNumber | ignis/lexer.py:138-139 | the decimal text of any `n`, followed by a non-digit, scans back to INTEGER `n` (round trip) |
| LexerProps.LineComment | ignis/lexer.py:92-95 | `//` skips up to, not past, the next newline, and scanning goes on from there |
| LexerProps.BlockComment | ignis/lexer.py:97-114 | `/*` skips to the matching `*/` at depth 0 and scanning goes on after it, or the unterminated-comment error |
| LexerProps.NestedCommentExample | ignis/lexer.py:104-111 | in `/* a /* b */ c */x` the first `*/` does not end the comment |
| LexerProps.UnterminatedNestedExample | ignis/lexer.py:101-103 | `/* /* */` is unterminated |
| LexerProps.BangIsInvalid | ignis/lexer.py:154-173 | a lone `!` is an invalid character |
| LexerProps.EofIsStable | ignis/lexer.py:130-175 | once EOF is returned, scanning again returns EOF again and the stream ends there |
| Ast.ChildrenSize | ignis/checker.py:13-20 | the AST children a traversal visits account for all nodes beneath the node |
| Ast.Preorder | ignis/checker.py:13-20 | the visiting order has one entry per node and starts with the node itself |
| Ast.VarDeclReprShowsMut | ignis/ast_nodes.py:32-34 | the `VarDecl` repr has `mut ` in its type position exactly when the declaration is mutable |
| Ast.VarDeclReprMut | ignis/ast_nodes.py:32-34 | the mutable repr is the immutable one with `mut ` inserted after the class name |
| Ast.BinOpReprOrder | ignis/ast_nodes.py:92-93 | the `BinOp` repr holds the left repr, then the operator's value, then the right repr, at computed positions |
| Ast.ProgramReprAppend | ignis/ast_nodes.py:10-12 | appending a declaration appends its repr after a newline: the declarations are printed in order |
| Ast.ReprAllIndex | ignis/ast_nodes.py:11 | the i-th printed declaration is the repr of the i-th one |
| Ast.NumReprDecodes | ignis/ast_nodes.py:82-83 | the `Num` repr carries the decimal text of the value, which decodes back to it |
| ParserSpec.Eat | ignis/parser.py:15-24 | `eat(t)` succeeds exactly when the current token has type `t` and the next token can be fetched; it then moves one token ahead with the peek token current; otherwise it fails with the mismatch or lexer message |
| ParserSpec.PCall | ignis/parser.py:135-147 | a call node named by the current identifier with at most one argument |
| ParserSpec.PCallArgs | ignis/parser.py:143-147 | the argument part closes on an RPAREN and carries at most one argument |
| ParserSpec.PTermLoop | ignis/parser.py:55-62 | the term loop stops at a token that is not `*` or `/` |
| ParserSpec.PExprLoop | ignis/parser.py:70-77 | the expression loop stops at a token that is not `+` or `-` |
| ParserSpec.PTypeSpec | ignis/parser.py:79-85 | succeeds exactly on `int`, giving a `Type` of that token |
| ParserSpec.PVarDecl | ignis/parser.py:87-105 | a `VarDecl` with an initialiser, mutable exactly when it starts with `mut` |
| ParserSpec.PConstDecl | ignis/parser.py:107-121 | a `ConstDecl` with an initialiser |
| ParserSpec.PAssign | ignis/parser.py:123-133 | an `Assign` whose left side is the current identifier |
| ParserSpec.PReturn | ignis/parser.py:149-153 | a `Return` carrying a value |
| ParserSpec.PStatements | ignis/parser.py:177-178 | the statement loop stops exactly at an RBRACE |
| ParserSpec.PCompound | ignis/parser.py:173-184 | a `Compound` ended by the RBRACE it consumed |
| ParserSpec.PDeclarations | ignis/parser.py:207-208 | the declaration loop stops exactly at EOF |
| ParserSpec.PParse | ignis/parser.py:204-210 | the result is a `Program` |
| ParserSpec.ParseText | ignis/parser.py:6-10 | parsing source text gives a `Program`, or the first lexer or parser error |
| Parsing.NextToken | ignis/parser.py:22 | fetching from the lexer yields the next stream entry (or its error), and the rest of the lexer's output is the rest of the stream |
| Parsing.Parser.Init | ignis/parser.py:6-10 | the parser starts at stream index 0 with the two fetched tokens current and peek |
| Parsing.Parser.Create | ignis/parser.py:6-10 | construction fetches two tokens and fails with the first lexer error among them |
| Parsing.Parser.Eat | ignis/parser.py:15-24 | as `ParserSpec.Eat`, on the parser's state |
| Parsing.Parser.Factor | ignis/parser.py:26-47 | equals `PFactor` on the stream: a number, a variable, a call or a parenthesised expression, or the invalid-factor error |
| Parsing.Parser.Term | ignis/parser.py:49-62 | equals `PTerm`: factors joined left to right by `*`/`/` |
| Parsing.Parser.Expr | ignis/parser.py:64-77 | equals `PExpr`: terms joined left to right by `+`/`-` |
| Parsing.Parser.TypeSpec | ignis/parser.py:79-85 | equals `PTypeSpec` |
| Parsing.Parser.VariableDeclaration | ignis/parser.py:87-105 | equals `PVarDecl` |
| Parsing.Parser.ConstantDeclaration | ignis/parser.py:107-121 | equals `PConstDecl` |
| Parsing.Parser.AssignmentStatement | ignis/parser.py:123-133 | equals `PAssign` |
| Parsing.Parser.FunctionCall | ignis/parser.py:135-147 | equals `PCall` |
| Parsing.Parser.ReturnStatement | ignis/parser.py:149-153 | equals `PReturn` |
| Parsing.Parser.Statement | ignis/parser.py:155-171 | equals `PStatement` |
| Parsing.Parser.CompoundStatement | ignis/parser.py:173-184 | equals `PCompound`; the `while` loop collects the statements in order |
| Parsing.CopyChildren | ignis/parser.py:181-183 | the `for` loop gives the new `Compound` exactly the parsed statements, in order |
| Parsing.StatementsStep | ignis/parser.py:177-178 | one round of the statements loop: the statement's error, or the loop from where that statement ends |
| Parsing.CompoundFromStatements | ignis/parser.py:175-179 | after the LBRACE, the compound statement fails with the statements' error, or is closed by the RBRACE `eat` |
| Parsing.Parser.Declaration | ignis/parser.py:186-202 | equals `PDeclaration` |
| Parsing.Parser.Parse | ignis/parser.py:204-210 | the `while` loop's declarations up to EOF, as a `Program` |
| Parsing.ParseSource | ignis/main.py:15-22 | `Parser(Lexer(text)).parse()` gives exactly `ParseText(text)` |
| ParserProps.FirstTokenOpens | ignis/parser.py:26-47 | the unparsed text of any expression starts with an INTEGER, IDENTIFIER or LPAREN |
| ParserProps.FactorChoice | ignis/parser.py:31-47 | an INTEGER gives `Num`; an IDENTIFIER gives a call when followed by LPAREN and a `Var` otherwise; `( e )` gives `e` with no wrapper node |
| ParserProps.ParenStep | ignis/parser.py:35-39 | a parenthesised expression parses to the inner node itself |
| ParserProps.CallStep | ignis/parser.py:40-43 | an identifier followed by LPAREN is parsed as a call |
| ParserProps.ArgStep | ignis/parser.py:143-147 | a call with an argument carries exactly that one expression |
| ParserProps.NoArgStep | ignis/parser.py:143-147 | `name()` is a call with no arguments |
| ParserProps.TermStep | ignis/parser.py:55-61 | each `*`/`/` makes the tree so far the left operand of a new `BinOp` |
| ParserProps.ExprStep | ignis/parser.py:70-76 | each `+`/`-` makes the tree so far the left operand of a new `BinOp` |
| ParserProps.ExprRoundTrip | ignis/parser.py:26-77 | every expression tree, unparsed with minimal parentheses, parses back to itself: precedence, left associativity and parentheses |
| ParserProps.WholeStreamExpr | ignis/parser.py:26-77 | an expression printed as the whole token stream parses back to itself, consuming every token |
| ParserProps.FactorRoundTrip | ignis/parser.py:26-47 | a factor's minimal unparsed text parses back to it |
| ParserProps.TermLoopForm | ignis/parser.py:49-62 | a term's text brings the term loop to that term just after it |
| ParserProps.ExprLoopForm | ignis/parser.py:64-77 | an expression's text brings the expression loop to it just after it |
| ParserProps.ExprWellFormed | ignis/parser.py:64-77 | the parser only builds expression trees of numbers, variables, calls of at most one argument and binary operators |
| ParserProps.StatementKind | ignis/parser.py:155-166 | the statement kind is chosen from the current and peek tokens, each kind exactly on its tokens |
| ParserProps.StatementEndsWithSemicolon | ignis/parser.py:170-171 | a parsed statement always ends on a SEMICOLON |
| ParserProps.MissingSemicolon | ignis/parser.py:170 | a statement not followed by a SEMICOLON raises the expected-SEMICOLON error |
| ParserProps.InvalidStatement | ignis/parser.py:167-168 | any other start of a statement raises "Invalid statement" |
| ParserProps.ConstDeclaration | ignis/parser.py:188-191 | `const` gives a `ConstDecl` ended by a SEMICOLON |
| ParserProps.FunctionDeclaration | ignis/parser.py:193-200 | `int` gives a parameterless function whose body is a compound statement |
| ParserProps.FunctionShape | ignis/parser.py:194-200 | the function built by the `int` branch has no parameters and the parsed compound statement as its body |
| ParserProps.InvalidDeclaration | ignis/parser.py:202 | any other top-level token raises "Invalid top-level declaration" |
| ParserProps.DeclarationsAppend | ignis/parser.py:206-208 | the declarations loop only appends to what it started with |
| ParserProps.ParseOrder | ignis/parser.py:204-210 | the declarations are in source order: the first from the first token, the others from where it ends |
| ParserProps.StatementsAppend | ignis/parser.py:176-178 | the statements loop only appends |
| ParserProps.CompoundOrder | ignis/parser.py:173-184 | a compound's children are its statements in source order |
| ParserProps.LeftAssociativity | ignis/parser.py:69-76 | for any identifiers, `a-b-c` parses as `BinOp(BinOp(a,-,b),-,c)` |
| ParserProps.TimesBindsTighter | ignis/parser.py:49-77 | for any identifiers, `a+b*c` parses as `BinOp(a,+,BinOp(b,*,c))` |
| ParserProps.ParenthesesGroup | ignis/parser.py:35-39 | for any identifiers, `a-(b-c)` parses as `BinOp(a,-,BinOp(b,-,c))` |
| LoopChecker.HasBreakIffOccurs | ignis/checker.py:36-48 | `_has_break(n)` holds exactly when a `BreakStmt` occurs in the subtree, the node itself included |
| LoopChecker.HasBreakListIffOccurs | ignis/checker.py:41-47 | the search over a list of children holds exactly when a break occurs under one of them |
| LoopChecker.InnerBreakCounts | ignis/checker.py:41-47 | a `break` inside an inner loop counts for the outer loop too |
| LoopChecker.VisitChecksEveryNode | ignis/checker.py:7-20 | visiting prints, in visiting order, the warnings of every node in the tree |
| LoopChecker.VisitListSnoc | ignis/checker.py:16-18 | the children are visited in order |
| LoopChecker.VisitListPrefix | ignis/checker.py:16-18 | visiting one more child appends that child's output |
| LoopChecker.LoopWarning | ignis/checker.py:50-52 | W001 is printed for a `loop` exactly when its body has no break |
| LoopChecker.WhileWarning | ignis/checker.py:57-64 | W002 is printed exactly when the condition is a nonzero number literal and the body has no break |
| LoopChecker.OnlyLoopsWarn | ignis/checker.py:12-20 | no other node prints a warning of its own |
| LoopChecker.Checker.constructor | ignis/checker.py:24-27 | holds the file path and lines, with no warnings and nothing printed |
| LoopChecker.Checker.AddWarning | ignis/checker.py:29-31 | prints one warning line and leaves `warnings` unchanged |
| LoopChecker.Checker.Check | ignis/checker.py:33-34 | prints the warnings of every node of the tree in visiting order; `warnings` stays unchanged |
| LoopChecker.Checker.Visit | ignis/checker.py:7-10 | prints exactly the warnings the tree's visit specifies |
| LoopChecker.Checker.VisitLoopStmt | ignis/checker.py:50-55 | the W001 decision, then the children |
| LoopChecker.Checker.VisitWhileStmt | ignis/checker.py:57-67 | the W002 decision, then the children |
| LoopChecker.Checker.GenericVisit | ignis/checker.py:12-20 | visits every AST child in attribute order |
| CppSpec.BlockBracesMatch | ignis/codegen_cpp.py:10-16 | a matched `enter_block`/`exit_block` restores the level and puts both braces at the same indentation |
| CppSpec.GetCodeNewlines | ignis/codegen_cpp.py:22-23 | `get_code` puts exactly one newline between lines and none at the end |
| CppSpec.EscapeAppend | ignis/codegen_cpp.py:153-166 | the escape works character by character |
| CppSpec.UnescapeEscape | ignis/codegen_cpp.py:152-167 | decoding C++ simple escapes recovers every escaped string |
| CppSpec.StringLiteralRoundTrip | ignis/codegen_cpp.py:152-167 | the quoted literal decodes back to the original string |
| CppSpec.EscapeHasNoRawControls | ignis/codegen_cpp.py:155-160 | the escaped text holds no raw newline, tab or carriage return |
| CppSpec.CharLiteralRoundTrip | ignis/codegen_cpp.py:143-150 | a character literal is produced exactly for codes `chr` accepts, and read one code point per character it decodes back to its code; for an ASCII code it is ASCII throughout; a code that does not fit a C `int` raises `chr`'s overflow error, any other rejected code its range error |
| CppSpec.StarsCount | ignis/codegen_cpp.py:57 | `'*' * n` holds exactly `n` stars |
| CppSpec.MapTypeParts | ignis/codegen_cpp.py:50-57 | the optional `const ` prefix, the base type (`int` as `int64_t`, others unchanged), then one space and one star per pointer level when there are any |
| CppSpec.MapTypeExamples | ignis/codegen_cpp.py:50-57 | `int`, `char *`, `const char *` and `char **` as written out |
| CppSpec.CharPointerParam | ignis/codegen_cpp.py:78-80 | a `char *` parameter becomes `const char *` |
| CppSpec.ArgTextsInOrder | ignis/codegen_cpp.py:196 | arguments are rendered in order, and the list fails exactly when one argument does |
| CppSpec.CallText | ignis/codegen_cpp.py:187-199 | a call is its runtime name, then the argument texts comma-joined in parentheses |
| CppSpec.FullyParenthesised | ignis/codegen_cpp.py:172-176 | every operator and call in a rendered expression gets exactly one pair of parentheses |
| CppSpec.FullyParenthesisedList | ignis/codegen_cpp.py:196-197 | the same for the joined argument list |
| CppSpec.ParamTexts | ignis/codegen_cpp.py:77-82 | one parameter text per parameter |
| CppProps.KeepsTrans | ignis/codegen_cpp.py:18-20 | the "keeps level, appends, indents" relation composes |
| CppProps.LineKeeps | ignis/codegen_cpp.py:18-20 | `add_line` keeps the level and indents its line |
| CppProps.VarDeclKeeps | ignis/codegen_cpp.py:99-107 | a declaration keeps the level and only appends |
| CppProps.AssignKeeps | ignis/codegen_cpp.py:109-112 | an assignment keeps the level and only appends |
| CppProps.ReturnKeeps | ignis/codegen_cpp.py:114-119 | a return keeps the level and only appends |
| CppProps.BlockKeeps | ignis/codegen_cpp.py:88-97 | a block puts `{` and `}` at its starting level around lines one level deeper, and restores the level |
| CppProps.StmtKeeps | ignis/codegen_cpp.py:65-134 | every statement visitor keeps the level, only appends lines and console output, and indents what it appends |
| CppProps.ProgramKeeps | ignis/codegen_cpp.py:65-71 | the whole program keeps the level |
| CppProps.IfKeeps | ignis/codegen_cpp.py:125-131 | an `if` with or without `else` keeps the level |
| CppProps.DeclsKeeps | ignis/codegen_cpp.py:69-71 | the declaration loop keeps the level |
| CppProps.BlockBodyKeeps | ignis/codegen_cpp.py:90-96 | the block's child loop keeps the level |
| CppProps.GenerateHeader | ignis/codegen_cpp.py:59-68 | the output starts with the two includes and an empty line, at level 0 |
| CppProps.FunctionHeaderReturnType | ignis/codegen_cpp.py:73-84 | `main` is declared returning `int`; any other function returns its mapped type |
| CppProps.VarDeclLine | ignis/codegen_cpp.py:99-107 | one line: mapped type (`const` exactly for a string-literal initialiser), space, name; it fails only when the initialiser does |
| CppProps.ConstStringDecl | ignis/codegen_cpp.py:99-105 | a string-literal initialiser always renders, prints nothing, and makes the type `const` |
| CppProps.UnaryOpRaises | ignis/codegen_cpp.py:178-185 | a unary operator always raises, because `TokenType` has no `KW_DEREF` |
| CppEmitter.CppWriter.constructor | ignis/codegen_cpp.py:6-8 | no lines, level 0 |
| CppEmitter.CppWriter.EnterBlock | ignis/codegen_cpp.py:10-12 | the writer's new state is `CppSpec.EnterBlock` of the old |
| CppEmitter.CppWriter.ExitBlock | ignis/codegen_cpp.py:14-16 | the new state is `CppSpec.ExitBlock` of the old |
| CppEmitter.CppWriter.AddLine | ignis/codegen_cpp.py:18-20 | the new state is `CppSpec.AddLine` of the old |
| CppEmitter.CppWriter.GetCode | ignis/codegen_cpp.py:22-23 | the lines joined by newlines |
| CppEmitter.CodeGeneratorCpp.constructor | ignis/codegen_cpp.py:38-39 | nothing printed yet |
| CppEmitter.CodeGeneratorCpp.Generate | ignis/codegen_cpp.py:59-62 | the code and console output `CppSpec.Generate` specifies, or its error |
| CppEmitter.CodeGeneratorCpp.Visit | ignis/codegen_cpp.py:27-30 | the writer and console afterwards are those `CppSpec.Stmt` gives, or its error |
| CppEmitter.CodeGeneratorCpp.VisitProgram | ignis/codegen_cpp.py:65-71 | as `Stmt` of the program; the loop writes each declaration and an empty line |
| CppEmitter.CodeGeneratorCpp.VisitFunctionDecl | ignis/codegen_cpp.py:73-85 | as `Stmt` of the function: the header line, then the body |
| CppEmitter.CodeGeneratorCpp.ParamsList | ignis/codegen_cpp.py:76-82 | the loop builds exactly `ParamTexts` |
| CppEmitter.CodeGeneratorCpp.VisitBlock | ignis/codegen_cpp.py:88-97 | as `Stmt` of the block; a call child becomes an expression statement |
| CppEmitter.CodeGeneratorCpp.VisitVarDecl | ignis/codegen_cpp.py:99-107 | as `Stmt` of the declaration |
| CppEmitter.CodeGeneratorCpp.VisitAssign | ignis/codegen_cpp.py:109-112 | as `Stmt` of the assignment |
| CppEmitter.CodeGeneratorCpp.VisitReturn | ignis/codegen_cpp.py:114-119 | as `Stmt` of the return |
| CppEmitter.CodeGeneratorCpp.VisitLoopStmt | ignis/codegen_cpp.py:121-123 | as `Stmt` of the loop: `for (;;)` and the body |
| CppEmitter.CodeGeneratorCpp.VisitIfExpr | ignis/codegen_cpp.py:125-131 | as `Stmt` of the `if` |
| CppEmitter.CodeGeneratorCpp.VisitBreakStmt | ignis/codegen_cpp.py:133-134 | adds `break;` and nothing else |
| CppEmitter.CodeGeneratorCpp.VisitExpr | ignis/codegen_cpp.py:137-141 | the text is `ExprText`, and the console gets exactly `ExprWarnings` |
| CppEmitter.CodeGeneratorCpp.GenericVisit | ignis/codegen_cpp.py:32-34 | prints the not-implemented warning and returns the placeholder comment |
| CppEmitter.CodeGeneratorCpp.VisitCharLiteral | ignis/codegen_cpp.py:143-150 | equals `CharLiteralText` |
| CppEmitter.CodeGeneratorCpp.VisitStringLiteral | ignis/codegen_cpp.py:152-167 | the loop builds exactly `StringLiteralText` |
| CppEmitter.CodeGeneratorCpp.VisitBinOp | ignis/codegen_cpp.py:172-176 | equals `ExprText` of the operation, left rendered before right |
| CppEmitter.CodeGeneratorCpp.VisitUnaryOp | ignis/codegen_cpp.py:178-185 | equals `ExprText` of the operation |
| CppEmitter.CodeGeneratorCpp.VisitFunctionCall | ignis/codegen_cpp.py:187-199 | equals `ExprText` of the call |
| CppEmitter.CodeGeneratorCpp.VisitArgs | ignis/codegen_cpp.py:196 | the loop yields exactly `ArgTexts` and prints `ArgWarnings` |
| X86Spec.Emit | ignis/codegen.py:5-12 | a visit only adds names to the symbol table |
| X86Props.CodeIndependent | ignis/codegen.py:30-137 | a visit only appends lines, and what it appends does not depend on the lines already there |
| X86Props.BinOpOrder | ignis/codegen.py:104-122 | an operation emits the left's lines, then the right's, then the pops and the operator's instruction |
| X86Props.PureKeepsState | ignis/codegen.py:88-130 | expressions do not change the symbol table or the slot index |
| X86Props.EffectAppend | ignis/codegen.py:88-122 | the stack effect of concatenated lines adds up |
| X86Props.OpsNeutral | ignis/codegen.py:112-120 | the operator instructions push and pop nothing |
| X86Props.TailEffect | ignis/codegen.py:108-122 | the operation's tail pops two, pushes one, and never goes below two pops |
| X86Props.ArithPushesOne | ignis/codegen.py:88-122 | every `Num`/`Var`/`BinOp` expression pushes exactly one value and never pops below where it started |
| X86Props.SlotsInitially | ignis/codegen.py:16-19 | the empty table with index -8 satisfies the slot invariant |
| X86Props.DeclaresAtCurrentSlot | ignis/codegen.py:62-74 | a declaration gives the new name the current index, and the index then drops by 8 |
| X86Props.DeclarationKeepsSlots | ignis/codegen.py:62-74 | after a declaration, every name still has a distinct negative multiple of 8 above the index, and the index is -8 times one more than the number of names |
| X86Props.NewSlotKeepsSlots | ignis/codegen.py:67-74 | adding a name at the current index and moving down by 8 keeps the invariant |
| X86Props.StatementKeepsSlots | ignis/codegen.py:30-140 | every statement keeps the slot invariant |
| X86Props.ListKeepsSlots | ignis/codegen.py:30-32 | the declaration and child loops keep it |
| X86Props.RedeclarationRaises | ignis/codegen.py:64-65 | redeclaring a name raises "already declared", whatever kind of node carries the name's `value` |
| X86Props.AssignUndeclaredRaises | ignis/codegen.py:78-79 | assigning to an undeclared name raises, whatever kind of node carries the name's `value` |
| X86Props.AssignToEmptyReturn | ignis/codegen.py:76-79 | a `Return` without a value as an assignment target is looked up as the name `None` and raises the undeclared-assignment error |
| X86Props.UndeclaredRead | ignis/codegen.py:94-98 | reading an undeclared name raises, except `VERSION`, which pushes 1 |
| X86Props.OnlyPrintCalls | ignis/codegen.py:124-130 | a call other than `print` raises; `print()` with no argument raises an index error |
| X86Props.PrintCallLayout | ignis/codegen.py:125-128 | `print(e)` is `e`'s lines, then the pop into `rdi` and the call |
| X86Props.PrintCallBalanced | ignis/codegen.py:124-128 | `print(e)` leaves the stack as it found it |
| X86Props.OnlyMainEmitted | ignis/codegen.py:34-35 | a function other than `main` emits nothing |
| X86Props.CompoundMainRaises | ignis/codegen.py:41 | a `main` with a `Compound` body raises: no visitor handles `Compound` |
| X86Props.CompoundMainInProgram | ignis/codegen.py:30-32 | a program containing such a `main` fails |
| X86Props.MainLayout | ignis/codegen.py:34-56 | `main` is the prologue, its body, the implicit exit exactly when the body does not end in `return`, and the epilogue |
| X86Props.ReturnLastSkipsImplicitExit | ignis/codegen.py:47 | the implicit exit is emitted exactly for an empty body or one whose last child is not a `Return` |
| X86Props.GenerateLayout | ignis/codegen.py:21-28 | the output is the headers and the print routine, then the program's lines, newline-joined; it starts with the headers and routine |
| X86Emitter.CodeGenerator.constructor | ignis/codegen.py:16-19 | empty code and table, index -8 |
| X86Emitter.CodeGenerator.Generate | ignis/codegen.py:21-28 | the headers and print routine, then the tree's visit, joined; from a fresh generator this is exactly `X86Spec.Generate` |
| X86Emitter.CodeGenerator.AddPrintFunction | ignis/codegen.py:142-167 | appends the print routine and nothing else |
| X86Emitter.CodeGenerator.Visit | ignis/codegen.py:5-9 | the new state is `Emit` of the old, or its error |
| X86Emitter.CodeGenerator.GenericVisit | ignis/codegen.py:11-12 | raises "No visit_… method" |
| X86Emitter.CodeGenerator.VisitProgram | ignis/codegen.py:30-32 | the loop's state is `EmitAll` of the declarations |
| X86Emitter.CodeGenerator.VisitBlock | ignis/codegen.py:58-60 | the loop's state is `EmitAll` of the children |
| X86Emitter.CodeGenerator.VisitFunctionDecl | ignis/codegen.py:34-56 | the new state is `Emit` of the function |
| X86Emitter.CodeGenerator.VisitVarDecl | ignis/codegen.py:62-74 | the new state is `EmitVarDecl` |
| X86Emitter.CodeGenerator.VisitAssign | ignis/codegen.py:76-86 | the new state is `EmitAssign` |
| X86Emitter.CodeGenerator.VisitNum | ignis/codegen.py:88-90 | appends the comment and the push of the value |
| X86Emitter.CodeGenerator.VisitVar | ignis/codegen.py:92-102 | the new state is `EmitVar` |
| X86Emitter.CodeGenerator.VisitBinOp | ignis/codegen.py:104-122 | the new state is `EmitBinOp` |
| X86Emitter.CodeGenerator.AddOperator | ignis/codegen.py:112-120 | appends the instruction for the operator's token type |
| X86Emitter.CodeGenerator.VisitFunctionCall | ignis/codegen.py:124-130 | the new state is `EmitCall` |
| X86Emitter.CodeGenerator.VisitReturn | ignis/codegen.py:132-137 | the new state is `EmitReturn` |
| Pipeline.DeclarationShape | ignis/parser.py:186-202 | a top-level declaration is a constant or a function with a compound body |
| Pipeline.DeclarationsCompound | ignis/parser.py:204-210 | the declaration loop keeps every function body a `Compound` |
| Pipeline.ParsedBodiesAreCompound | ignis/parser.py:181-184 | every function of a parsed program has a `Compound` body |
| Pipeline.ParsedMainIsNotAssembled | ignis/codegen.py:41 | the x86-64 emitter fails on every parsed program with a `main` function |
| Diagnostics.UnlinesAppend | ignis/error.py:30-33 | the snippet appends one newline-terminated row at a time |
| Diagnostics.WindowIsClipped | ignis/error.py:24-25 | a line index is in the window exactly when it is a valid index with `line-3 <= i < line+2` |
| Diagnostics.RowsFromLength | ignis/error.py:27-33 | one row per window line, plus one caret row when the error line is in range |
| Diagnostics.RowsFromSplit | ignis/error.py:27-33 | the rows of a range are the rows of its two halves |
| Diagnostics.SnippetLength | ignis/error.py:24-33 | the snippet has window-size rows, plus one caret row exactly when `1 <= line <= len(lines)` |
| Diagnostics.CaretFollowsLine | ignis/error.py:27-33 | the caret row comes right after the error line's row |
| Diagnostics.CaretUnderColumn | ignis/error.py:31-33 | the caret sits under column `col` of the line text, after `len(prefix) + col - 1` spaces |
| Diagnostics.ShortNumber | ignis/error.py:29 | small numbers have at most four digits |
| Diagnostics.PrefixWidth | ignis/error.py:29 | the gutter is seven characters: the 1-based number right-aligned in width 4, then ` \| ` |
| Diagnostics.MessageLayout | ignis/error.py:16-35 | header, token text, `--> file:line:col`, a blank line, then the snippet |
| Diagnostics.BuildSnippet | ignis/error.py:23-33 | the `for` loop builds exactly the snippet rows, newline-terminated |
| Diagnostics.ErrorReporter.constructor | ignis/error.py:2-6 | no error, no warning, nothing printed |
| Diagnostics.ErrorReporter.Report | ignis/error.py:8-40 | sets the flag of its level; an error fails with "Compiler error:" and the message; anything else prints the message |
| Diagnostics.ErrorReporter.Error | ignis/error.py:42-43 | sets `hadError` and fails |
| Diagnostics.ErrorReporter.Warning | ignis/error.py:45-46 | sets `hadWarning`, succeeds and prints the message |

## Left out

- The C++ runtime (`ignis/cpp_runtime/`): it only forwards to the C++ standard streams.
- `ignis/main.py`: it reads a file and prints. Only its parse call is modelled, as `Parsing.ParseSource`.
- `ignis/tests/full_test.py`: it runs the compiler in subprocesses and asserts nothing about compiler behaviour.
- Python's dynamic `getattr` visitor dispatch is modelled as a `match` over the node constructors.
- The x86-64 `print_int` routine is a fixed list of emitted lines; what the assembly does is not modelled.
- Console printing (the checker's warnings, the C++ emitter's not-implemented warnings, the reporter's warnings) is modelled as lists of printed lines held in the state.
- After an exception, the state of an object is not specified. Only the exception message is modelled; the console lines of a failing C++ visit are not.
- Character classes are ASCII only. Python's Unicode-aware `isspace`, `isdigit`, `isalpha` and `isalnum` are not modelled.
- Integer literals are unbounded naturals, as in Python; there is no 64-bit overflow check in the source either.
- CppSpec.IsCppExpr: a `Var` must carry a string value and a `CharLiteral` a non-surrogate code; Dafny's `char` cannot hold a surrogate.
- CppSpec.CharLiteralText: requires a non-surrogate code. For a code from 0xD800 to 0xDFFF, Python's `chr` returns a lone surrogate and the literal holds it; a Dafny string cannot.
- CppSpec.CharLiteralRoundTrip: requires a non-surrogate code, for the same reason.
- CppSpec.CharLiteralRoundTrip: `DecodeCharLiteral` reads the literal's character as one code point. That is what C++ reads only for codes below 128. For a larger code the emitted `'é'`-style literal is several UTF-8 code units. Its C++ value is then implementation-defined (in C++23 it is ill-formed), and that value is not modelled.
- CppEmitter.CodeGeneratorCpp.VisitCharLiteral: requires a non-surrogate code, for the same reason.
- Statement nodes in expression position of the C++ emitter return Python's `None`; they are not modelled.
- The C++ emitter's `reporter`, `_get_token_from_node` and `error` are never used by any visitor and are left out.
- The unary operator visitor refers to `TokenType.KW_DEREF`, which does not exist, so every unary operator raises. The `(*e)`, `(&e)` and placeholder branches are unreachable and are not modelled.
- CppSpec.UnaryOpError is the Python 3.12 wording, "type object 'TokenType' has no attribute 'KW_DEREF'". Python 3.11 and earlier raise `AttributeError('KW_DEREF')` from the enum metaclass, with the message `KW_DEREF`. That version is not modelled.
- X86Spec.ValueOf: a `Return` whose value is a node is modelled as raising `AttributeError`. Python has that node as the `value` and uses the node object itself as a symbol-table key; the model's keys are token values and cannot hold a node. The same holds for `X86Spec.Emit`, `X86Emitter.CodeGenerator.VisitVarDecl` and `X86Emitter.CodeGenerator.VisitAssign`, which read a name through `ValueOf`. No parsed tree puts a `Return` in a name position.
- X86Props.StatementKeepsSlots: it assumes trees of the shapes the parser builds (`StmtShape`): initialisers and returned values are expressions.
- Diagnostics.ErrorReporter.Report: the lexer's tokens carry no position. A reported token is therefore a `Located` token with a line and a column. The `None` token default and the "NoneToken" branch cannot occur with such a token.
- The `value` of `Var`, `Num` and `Type` is read from the node's token, so it equals the token's value by construction. A `Compound`'s children are the list it is built with; the model has no separate empty-then-append step.
- X86Props.PrintCallBalanced: a `print` call used as an operand of a binary operation leaves nothing on the stack, so the operation's second `pop` takes a value from below. This models the code as written and is not claimed as an intended behaviour.
