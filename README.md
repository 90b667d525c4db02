# velox front end, modelled in Dafny

velox compiles a small C-like language in three sequential,
fail-fast stages. This project models each stage and proves
properties of the model:

- **Scanner** (`src/tokenizer`). At each offset it tries the token
  patterns in a fixed order, Comment first and Whitespace last. It takes
  the first non-empty match and records a 1-based line and column for it.
  In significant-only mode it drops whitespace and comments.
- **Parser** (`src/ast`). A recursive-descent parser with a forward-only
  cursor builds uniform `ASTNode` trees: a kind, a name and ordered
  children. Expressions go to a precedence-climbing ("Pratt") parser. It
  shares the token array and keeps its own cursor, which it writes back.
- **Builder** (`src/builder/main.go`). It walks the tree and drives an IR
  library. It keeps a current block, a locals and globals environment,
  and a stack of loop contexts (`LoopTrace`).

Modules, in dependency order:

- `Wrappers`: `Option` and `Result`.
- `Tokens`: the `TokenType` enum, its display names, and `Token`.
- `Patterns`: one prefix matcher per regular expression of
  `GetRegexExpression`. Each returns the length that Go's leftmost-first
  `regexp` would match. A `*Spec` lemma per matcher states the match
  against a predicate that describes the pattern.
- `Scanner`: `lineCol` and `Tokenize` as methods with loops. Each is
  proved equal to a recursive specification, and the scanner's
  properties are proved about that specification.
- `AstNode`: the node kinds, `ASTNode`, and `String`/`StringIndented`
  (`Render`/`RenderIndented`).
- `Pratt`: the expression parser as functions over the token sequence
  and a position.
- `Grammar`: the statement and declaration rules as functions.
- `Parser`: the classes `PrattParser` and `Parser`. They have the
  source's mutable cursor field and one method per source routine. Each
  method's `ensures` ties its result and its new cursor to the
  `Pratt`/`Grammar` function of the same rule.
- `Ir`: an abstract stand-in for the llir library. A module has
  functions, global character arrays and a target triple. A function has
  blocks; a block has a label, instructions and an optional terminator.
  Functions, blocks and instruction results are addressed by position.
- `Lowering`: the builder's state and every `generate*` routine, as
  functions from state to `Result`.
- `Builder`: the class `Builder`, with the source's fields and one
  method per routine. Each method is proved to behave as its `Lowering`
  function.
- `LoweringFacts`: literal classification, `#define` value scanning,
  block-label numbers and `printf` format strings.
- `ControlFlow`: the block-termination discipline. It ends in
  `BuildTerminates`: after a successful build, every block of every
  function has a terminator.
- `Environment`: identifier lookup, declarations and assignments, callee
  resolution, `#define` globals, the loop stack and binary operand types.

Every diagnostic that prints and then exits or panics is modelled as an
`Err` value:

- `Parser.Error`, `UnexpectedError` and `ExpectedError` become `Err`
  with a `ParseError`;
- every builder `panic` becomes `Err` with a `BuildError`;
- the scanner's error exit becomes `Err` with a `LexError`.

Characters stand for bytes. A few source routines are split into several
model functions so that each proof stays small:

- `generateConditional` becomes `ConditionalBranch`, `ConditionalJump`,
  `ConditionalArms` and `ElseArm`;
- `generateWhileStatement` becomes `EnterLoop` and `LoopArms`;
- `generateFunction` becomes `EnterFunction` and `FunctionBody`;
- `generateAssignment` becomes `AssignmentSlot` and `AssignedValue`;
- `generateFunctionCall` becomes `Callee`, `GenerateArguments` and
  `EmitCall`;
- in the parser, `ParametersAndBody`, `Declarator`, `ElsePart` and
  `ExpressionList` each hold the second half of one rule.

Four behaviours of the code are worth knowing before reading the
lemmas:

- In any token list, two operators of equal precedence nest to the
  left: `a - b - c` parses as `(a - b) - c` (`Pratt.ThreeOperands`). The
  `**` entry of the precedence table is never reached from source text.
  The scanner splits `**` into two `*` tokens
  (`Scanner.DoubledOperatorScan`), and an Operator token has no prefix
  rule (`Pratt.NoPrefixRule`). So `2 ** 3 ** 2` in a program is a parse
  error at its second `*` (`Pratt.OperatorAfterOperator`).
- A trailing `,` is accepted in parameter lists
  (`Grammar.TrailingParameterComma`) and in call arguments
  (`Pratt.TrailingCommaAccepted`). Commas between expression-call
  arguments are optional (`Pratt.CommasAreOptional`).
- The loop stack is never popped. After a `while` has been lowered,
  `break` and `continue` still succeed and branch to that loop's blocks
  (`Environment.BreakAfterLoop`, `Environment.LoopStackPersists`).
- The block counter behind the labels (`b.blocks`) is shared by all
  functions and is never reset.

Some model functions that follow a source routine carry no contract of
their own; the lemmas named here state what they do:

- `Tokens.Token.ToString` (`Token.String`, src/tokenizer/Token.go:39-41):
  `Tokens.ToStringShape` and `Tokens.ToStringInjective`.
- `Scanner.ScanFrom` (the scanning loop, src/tokenizer/main.go:31-56):
  `Scanner.ScanFromStops`, `Scanner.ScanFromTakes`, `Scanner.ScanRoundTrip`
  and `Scanner.ScanSound`.
- `Lowering.Build` and `Lowering.BuildItems` (`Build`,
  src/builder/main.go:62-73): `ControlFlow.BuildTerminates`,
  `ControlFlow.ItemsTerminate` and `Environment.LoopStackPersists`.
- `Lowering.GeneratePreprocessorDirective` (src/builder/main.go:75-94):
  `Environment.DefineBecomesGlobal`, `Environment.DefineOfNumber` and
  `Environment.DefineDefaultsToZero`.
- `Lowering.ScanInt` (`Sscanf` with `%d`, src/builder/main.go:80-83):
  `LoweringFacts.ScanIntAgreesWithAtoi` and
  `LoweringFacts.ScanIntStopsAtNonDigit`.
- `Lowering.Atoi` (`strconv.Atoi`, src/builder/main.go:168):
  `LoweringFacts.AtoiOfDecimal` and `LoweringFacts.AtoiOfNegative`.
- `Lowering.GenerateLiteral` (src/builder/main.go:167-175):
  `LoweringFacts.IntegerTokenLowers`, `LoweringFacts.DecimalTokenLowers`
  and `LoweringFacts.NumberTokenLowers`.

## Model

| member | source | states |
|---|---|---|
| Tokens.Ordinal | src/tokenizer/Token.go:5-17 | kinds are numbered 0 to 10, and only Invalid has number 0 |
| Tokens.KindAt | src/tokenizer/Token.go:5-17 | every number from 0 to 10 names a kind whose number is that number |
| Tokens.KindAtOrdinal | src/tokenizer/Token.go:5-17 | the numbering is one to one: a kind is recovered from its number |
| Tokens.EveryKindNamed | src/tokenizer/Token.go:19-31 | every kind, Invalid included, has a non-empty display name without `(` |
| Tokens.NamesDistinct | src/tokenizer/Token.go:19-31 | different kinds have different display names |
| Tokens.ToStringShape | src/tokenizer/Token.go:39-41 | `Token.String` is the kind's name, `(`, the literal text and `)`, in that order |
| Tokens.ToStringInjective | src/tokenizer/Token.go:33-41 | two tokens render alike exactly when they have the same kind and text |
| Patterns.MatchCommentSpec | src/tokenizer/patterns.go:9-10 | `//` matches the longest run without a newline; `/*` matches through the first following `*/`, and an unclosed `/*` matches nothing; anything else matches nothing |
| Patterns.MatchPreprocessorSpec | src/tokenizer/patterns.go:11-12 | the match is the longest prefix that is `#` and one or more word characters |
| Patterns.MatchNumber | src/tokenizer/patterns.go:13-14 | a number matches exactly when the text starts with a digit |
| Patterns.MatchNumberSpec | src/tokenizer/patterns.go:13-14 | the match is the longest prefix of digits optionally followed by `.` and more digits |
| Patterns.NumberTextSplit | src/tokenizer/patterns.go:13-14 | number text is a digit run, then optionally `.` and only digits |
| Patterns.MatchStringSpec | src/tokenizer/patterns.go:15-16 | the match is `"`, non-quote characters and the first `"` after it; no shorter prefix is a string |
| Patterns.MatchKeywordSpec | src/tokenizer/patterns.go:17-18 | a match is one of the keywords and is not followed by a word character; with no match, no keyword stands at the start |
| Patterns.KeywordsAreIdentifiers | src/tokenizer/patterns.go:17-26 | every keyword is identifier text starting with a letter |
| Patterns.MatchOperatorSpec | src/tokenizer/patterns.go:21-22 | from an operator character the first alternative wins, taking an optional `=`; `~`, `?` and `:` match one character; every match is operator text |
| Patterns.MatchIdentifierSpec | src/tokenizer/patterns.go:25-26 | the match is the longest prefix of a letter or `_` followed by word characters |
| Patterns.MatchWhitespaceSpec | src/tokenizer/patterns.go:27-28 | the match is the longest run of space, tab, newline, form feed and carriage return |
| Patterns.Match | src/tokenizer/patterns.go:7-32 | no match is longer than the text, and Invalid's empty pattern matches nothing |
| Patterns.FirstMatch | src/tokenizer/main.go:33-50 | a selected match has a real kind and a non-empty length within the text |
| Patterns.FirstMatchIsFirst | src/tokenizer/main.go:33-50 | the selected kind's pattern gives the selected length and every earlier kind matches nothing; with no selection, no kind matches |
| Patterns.FirstMatchIs | src/tokenizer/main.go:33-50 | conversely, a kind that matches while every earlier kind does not is selected with its own length |
| Scanner.Line | src/tokenizer/main.go:8-22 | the line is at least 1 |
| Scanner.Column | src/tokenizer/main.go:8-22 | the column is between 1 and the offset plus 1 |
| Scanner.LineCountsNewlines | src/tokenizer/main.go:8-22 | the line is 1 plus the number of newlines before the offset |
| Scanner.ColumnFollowsNewline | src/tokenizer/main.go:8-22 | the column counts the bytes since the last newline before the offset, or since the start |
| Scanner.LineCol | src/tokenizer/main.go:8-22 | the counting loop returns `Line` and `Column` |
| Scanner.FirstMatchAdvances | src/tokenizer/main.go:41-49 | the selection only accepts non-empty matches that fit the rest of the input, so each step advances |
| Scanner.SelectAt | src/tokenizer/main.go:33-51 | the loop over the kinds returns the first non-empty match, or length 0 when none matches |
| Scanner.Tokenize | src/tokenizer/main.go:24-60 | the scanning loop returns the recursive scan from offset 0 |
| Scanner.TokenizeStep | src/tokenizer/main.go:41-49 | one step appends the token when kept and moves the offset by exactly the match length |
| Scanner.ScanFromStops | src/tokenizer/main.go:53-56 | with no match at an offset, the scan fails with that offset and its line and column |
| Scanner.ScanFromTakes | src/tokenizer/main.go:31-50 | a match yields a token with the matched text and the offset's line and column, kept unless filtered, and the scan goes on after it |
| Scanner.ScanRoundTrip | src/tokenizer/main.go:45-47 | without filtering, the token texts concatenated in order give back the input |
| Scanner.Significant | src/tokenizer/main.go:44-46 | the filtered tokens hold no whitespace or comment and all come from the input list |
| Scanner.SignificantOnlyFilters | src/tokenizer/main.go:44-46 | the significant-only scan is the full scan with whitespace and comments removed, order kept, and it fails exactly when the full scan fails |
| Scanner.SignificantOnlyHasNoLayout | src/tokenizer/main.go:44-46 | a significant-only scan holds no whitespace or comment token |
| Scanner.ScanSound | src/tokenizer/main.go:31-50 | every token is non-empty and is the selection at some offset, with its line and column |
| Scanner.ScanError | src/tokenizer/main.go:53-56 | a failure names an offset inside the input where nothing matches, with its line and column |
| Scanner.LoneOperator | src/tokenizer/patterns.go:21-22 | a lone `&`, `\|`, `+`, `-`, `*`, `<` or `>` not followed by `=` is a one-character operator |
| Scanner.DoubledOperatorsSplit | src/tokenizer/patterns.go:21-22 | `&&`, `\|\|`, `++`, `--`, `**`, `<<` and `>>` select only their first character |
| Scanner.OperatorWithEquals | src/tokenizer/patterns.go:21-22 | an operator character followed by `=` is one two-character operator |
| Scanner.DoubledOperatorScan | src/tokenizer/main.go:33-50 | a doubled operator scans as two one-character operator tokens with their own positions |
| Scanner.DoubleColonIsMacro | src/tokenizer/patterns.go:19-22 | `::` is one Macro token, not two `:` operators |
| Scanner.WordIsKeywordOrIdentifier | src/tokenizer/patterns.go:17-26 | a word starting with a letter is one Keyword or Identifier token covering the whole word |
| Scanner.KeywordIsWholeWord | src/tokenizer/patterns.go:17-18 | a keyword match always covers the whole word, so `intx` is not a keyword |
| Scanner.DigitStartsNumber | src/tokenizer/patterns.go:13-14 | text starting with a digit is selected as a Number of the number match's length |
| AstNode.NodeOrdinal | src/ast/main.go:12-37 | the node kinds are numbered below 24, one per name |
| AstNode.NamesPlain | src/ast/main.go:39-64 | every kind name is plain text, with no brace and no newline |
| AstNode.NodeKindName | src/ast/main.go:39-64 | each kind's display name is plain text |
| AstNode.LeafRendering | src/ast/ASTNode.go:11-49 | a childless node renders as `Kind(name)`, and `StringIndented` of it equals `String` |
| AstNode.RenderCount | src/ast/ASTNode.go:11-25 | each character occurs in `String` as often as in the header, plus, exactly when there are children, as often as in ` {`, the rendered children and ` }` together |
| AstNode.RenderChildrenCount | src/ast/ASTNode.go:17-19 | each child contributes a space and its own rendering |
| AstNode.RenderIndentedCount | src/ast/ASTNode.go:27-49 | each character occurs in `StringIndented` as often as in the header, plus, exactly when there are children, as often as in ` {`, a newline, the child lines, the indent and `}` together |
| AstNode.RenderIndentedChildrenCount | src/ast/ASTNode.go:31-39 | each child line contributes the deeper indent, the child at the next level and a newline |
| AstNode.IndentShape | src/ast/ASTNode.go:33-45 | the indent of level k is 4·k spaces |
| AstNode.RenderIsOneLine | src/ast/ASTNode.go:11-25 | `String` of a tree whose names have no newline has no newline |
| AstNode.RenderBraces | src/ast/ASTNode.go:11-25 | `String` has one `{` and one `}` for each node with children |
| AstNode.RenderIndentedLines | src/ast/ASTNode.go:27-49 | `StringIndented` has one newline per child line and one per opened brace |
| AstNode.RenderIndentedFrame | src/ast/ASTNode.go:27-49 | with children, the output starts with the header, ` {` and a newline, and ends with the level's indent and `}` |
| Pratt.Precedence | src/ast/pratt.go:65-95 | a non-zero precedence belongs to an Operator token whose value has that precedence in the table; everything else is 0 |
| Pratt.Expr | src/ast/pratt.go:104-122 | a parsed expression consumes at least one token and stops at a token whose precedence does not exceed the threshold |
| Pratt.Infix | src/ast/pratt.go:113-119 | the infix loop ends at a token whose precedence does not exceed the threshold |
| Pratt.InfixStep | src/ast/pratt.go:149-158 | an infix step builds a BinaryExpression named by the operator, with the left operand first |
| Pratt.IdentifierOrCall | src/ast/pratt.go:129-147 | an identifier yields an expression and consumes at least one token |
| Pratt.Arguments | src/ast/pratt.go:136-143 | the argument loop consumes through `)` and yields only expressions |
| Pratt.Grouped | src/ast/pratt.go:38-43 | a group yields an expression and consumes its opening token |
| Pratt.NoPrefixRule | src/ast/pratt.go:104-109 | a token that is not a Number, Identifier or Punctuation starts no expression and is reported as unexpected |
| Pratt.OperatorAfterOperator | src/ast/pratt.go:104-158 | an Operator token right after a binary operator is an unexpected-token error at that token, so `2 ** 3` (scanned as `2`,`*`,`*`,`3`) fails at the second `*` |
| Pratt.AtomStarts | src/ast/pratt.go:104-127 | a number or plain identifier becomes a leaf that starts the infix loop |
| Pratt.ThreeOperands | src/ast/pratt.go:104-158 | `a op1 b op2 c` nests to the left unless op2 binds tighter, so `1+2*3` is `+(1,*(2,3))` and `a-b-c` is `(a-b)-c` |
| Pratt.CallStarts | src/ast/pratt.go:129-144 | an identifier followed by `(` becomes a FunctionCall over the parsed arguments |
| Pratt.AtomArgument | src/ast/pratt.go:136-142 | an argument may be followed by `,` or directly by the next argument |
| Pratt.CommasAreOptional | src/ast/pratt.go:136-142 | `f(a b)` parses as a call with two arguments |
| Pratt.TrailingCommaAccepted | src/ast/pratt.go:136-142 | `f(a,)` parses as a call with one argument |
| Pratt.AnyPunctuationOpensGroup | src/ast/pratt.go:33-43 | any punctuation token opens a group, not only `(` |
| Pratt.GroupNeedsClose | src/ast/pratt.go:38-63 | a group whose inner expression is not followed by `)` fails at that token |
| Grammar.Expect | src/ast/main.go:165-173 | succeeds exactly when the next token has the kind, and then consumes that one token; the error names the expectation and the token found |
| Grammar.ExpectValue | src/ast/main.go:175-183 | as `Expect`, matching the value as well |
| Grammar.ParseProgram | src/ast/main.go:86-108 | a parsed program holds only directives and function declarations |
| Grammar.TopLevel | src/ast/main.go:89-105 | the top-level loop keeps only well-formed directives and functions |
| Grammar.TopLevelItem | src/ast/main.go:90-104 | one top-level item consumes tokens and is a directive or a function |
| Grammar.TopLevelRejects | src/ast/main.go:86-108 | a token that is neither a directive nor a return-type keyword is an unexpected-token error |
| Grammar.ParsePreprocessorDirective | src/ast/main.go:185-200 | a directive parses exactly when a Preprocessor token is followed by an Identifier; it is named by the directive's text, its first child is the subject, and it has a second, Literal child exactly when a Number or String token follows, which it then consumes |
| Grammar.ParseFunctionDeclaration | src/ast/main.go:261-282 | a function is [Identifier(return type), Parameters, Block], named by the name token after the return type, which is followed by `(` |
| Grammar.FunctionParametersSpelled | src/ast/main.go:284-313 | every parameter of a parsed function is a type keyword and a name token after the `(`, the name naming it and the type its child |
| Grammar.ParamListSpelled | src/ast/main.go:284-313 | the parameter loop keeps the parameters it was given first, and each one it adds is spelled by a type keyword and a name in the tokens it consumes |
| Grammar.ParametersAndBody | src/ast/main.go:261-282 | after the name, the rule builds a well-formed function with that name and return type |
| Grammar.ParseParameters | src/ast/main.go:284-313 | the parameters are declarations with one type child, and parsing stops at `)` |
| Grammar.ParamList | src/ast/main.go:284-313 | the parameter loop yields only well-formed parameters and stops at `)` |
| Grammar.TrailingParameterComma | src/ast/main.go:284-313 | `(int x,)` gives one parameter |
| Grammar.ParseBlock | src/ast/main.go:315-334 | a block runs from `{` to `}` and holds only statements |
| Grammar.StatementList | src/ast/main.go:315-334 | the statement loop ends by consuming `}` |
| Grammar.StatementsAtEnd | src/ast/main.go:320-328 | once the statements reach the end of the tokens without a `}`, the statement loop fails with the end-of-input error, whatever it has collected |
| Grammar.BlockAtEnd | src/ast/main.go:315-334 | a `{` whose statements run to the end of the tokens (`{ x = 1;`, or `{` as the last token) fails with the end-of-input error |
| Grammar.ParseStatement | src/ast/main.go:338-370 | a statement consumes tokens and is well formed |
| Grammar.StatementKinds | src/ast/main.go:338-370 | the statement kind follows from the leading token: return, the type keywords, while, if/continue/break, a call, an assignment |
| Grammar.StatementRejects | src/ast/main.go:338-370 | any other leading token is an unexpected-token error |
| Grammar.ParseVariableDeclaration | src/ast/main.go:372-401 | a declaration is a VariableDeclaration statement named by the name token (after the type, or after `[` `]`); its type child is the type keyword's text, with `[]` for an array; it has an initializer exactly when `=` follows the name, and the initializer is an array initializer exactly for an array type |
| Grammar.Declarator | src/ast/main.go:372-401 | the declaration is named by the variable and the type node comes first; there is a second child exactly when `=` follows, and it is an array initializer exactly when the type is an array |
| Grammar.ParseArrayInitializer | src/ast/main.go:403-419 | an array initializer is a brace list of expressions |
| Grammar.ExpressionList | src/ast/main.go:403-419 | the list loop yields expressions and consumes the closing token |
| Grammar.ParseReturnStatement | src/ast/main.go:421-427 | a return is a ReturnStatement |
| Grammar.ParseFunctionCall | src/ast/main.go:429-447 | a call statement is a FunctionCall named by the callee |
| Grammar.ParseConditional | src/ast/main.go:450-471 | an `if` is Statement("if") over [condition, Block, optional else-if or else block] |
| Grammar.ElsePart | src/ast/main.go:450-471 | the condition and body stay the first two children |
| Grammar.ParseAssignment | src/ast/main.go:473-484 | an assignment whose operator is one of the 11 assignment operators is a well-formed statement |
| Grammar.ParseWhileStatement | src/ast/main.go:486-497 | a while is a WhileStatement |
| Grammar.ParseControlFlow | src/ast/main.go:499-504 | `break;` and `continue;` are childless statements named by their keyword |
| Parser.PrattParser.constructor | src/ast/pratt.go:18-28 | the expression parser holds the tokens, starts at position 0 and is not yet linked to an outer parser |
| Parser.PrattParser.peekPrecedence | src/ast/pratt.go:65-70 | the table precedence of the next token, which is the empty Invalid token past the end |
| Parser.PrattParser.consumeToken | src/ast/pratt.go:52-56 | returns the next token and advances the cursor by one |
| Parser.PrattParser.expectToken | src/ast/pratt.go:58-63 | consumes the next token when its kind and value match, else fails naming that token |
| Parser.PrattParser.Parse | src/ast/pratt.go:97-102 | parses from the outer cursor and writes the final position back |
| Parser.PrattParser.parseExpression | src/ast/pratt.go:104-122 | the loop computes `Pratt.Expr` and leaves the cursor where it stops |
| Parser.PrattParser.parseNumberLiteral | src/ast/pratt.go:124-127 | a Number token becomes a Literal leaf |
| Parser.PrattParser.parseIdentifier | src/ast/pratt.go:129-147 | the loop computes `Pratt.IdentifierOrCall` |
| Parser.PrattParser.parseGroupedExpression | src/ast/pratt.go:38-43 | computes `Pratt.Grouped` |
| Parser.PrattParser.parseInfixExpression | src/ast/pratt.go:149-158 | computes `Pratt.InfixStep` |
| Parser.Parser.constructor | src/ast/main.go:73-84 | the parser starts at position 0, and its expression parser shares the tokens and is linked back to it |
| Parser.Parser.Consume | src/ast/main.go:149-153 | returns the next token, or the empty Invalid token past the end, and advances by one |
| Parser.Parser.Expect | src/ast/main.go:165-173 | behaves as `Grammar.Expect` |
| Parser.Parser.ExpectValue | src/ast/main.go:175-183 | behaves as `Grammar.ExpectValue` |
| Parser.Parser.ParseExpression | src/ast/main.go:202-204 | hands the cursor to the expression parser and takes back its final position |
| Parser.Parser.Parse | src/ast/main.go:86-108 | the loop computes `Grammar.ParseProgram` |
| Parser.Parser.ParseTopLevelItem | src/ast/main.go:90-104 | computes `Grammar.TopLevelItem` |
| Parser.Parser.ParsePreprocessorDirective | src/ast/main.go:185-200 | computes `Grammar.ParsePreprocessorDirective` |
| Parser.Parser.ParseFunctionDeclaration | src/ast/main.go:261-282 | computes `Grammar.ParseFunctionDeclaration` |
| Parser.Parser.ParametersAndBody | src/ast/main.go:261-282 | computes `Grammar.ParametersAndBody` |
| Parser.Parser.ParseParameters | src/ast/main.go:284-313 | the loop computes `Grammar.ParseParameters` |
| Parser.Parser.ParseBlock | src/ast/main.go:315-334 | the loop computes `Grammar.ParseBlock` |
| Parser.Parser.ParseStatement | src/ast/main.go:338-370 | computes `Grammar.ParseStatement` |
| Parser.Parser.ParseVariableDeclaration | src/ast/main.go:372-401 | computes `Grammar.ParseVariableDeclaration` |
| Parser.Parser.Declarator | src/ast/main.go:372-401 | computes `Grammar.Declarator` |
| Parser.Parser.ParseArrayInitializer | src/ast/main.go:403-419 | computes `Grammar.ParseArrayInitializer` |
| Parser.Parser.ParseExpressionList | src/ast/main.go:403-419 | the loop computes `Grammar.ExpressionList` |
| Parser.Parser.ParseReturnStatement | src/ast/main.go:421-427 | computes `Grammar.ParseReturnStatement` |
| Parser.Parser.ParseFunctionCall | src/ast/main.go:429-447 | computes `Grammar.ParseFunctionCall` |
| Parser.Parser.ParseConditional | src/ast/main.go:450-471 | computes `Grammar.ParseConditional` |
| Parser.Parser.ElsePart | src/ast/main.go:450-471 | computes `Grammar.ElsePart` |
| Parser.Parser.ParseAssignment | src/ast/main.go:473-484 | computes `Grammar.ParseAssignment` |
| Parser.Parser.ParseWhileStatement | src/ast/main.go:486-497 | computes `Grammar.ParseWhileStatement` |
| Parser.Parser.ParseControlFlow | src/ast/main.go:499-504 | computes `Grammar.ParseControlFlow` |
| Ir.AddFunc | src/builder/main.go:124-125 | a new function with no blocks is appended, and its index is returned |
| Ir.SetVariadic | src/builder/main.go:307 | only that function changes, and it becomes variadic |
| Ir.AddBlock | src/builder/main.go:138 | an empty, unterminated block with the label is appended to the function |
| Ir.Emit | src/builder/main.go:183 | the instruction is appended to the block, and its result has the instruction's type |
| Ir.SetTerm | src/builder/main.go:146 | the block's terminator is set, and the other blocks keep their count |
| Ir.AddGlobal | src/builder/main.go:334 | a global character array is appended, and its address has pointer-to-array type |
| Lowering.SetTarget | src/builder/main.go:49-60 | target 0 or 1 sets only the target triple; any other target fails |
| Lowering.GetTypeFromName | src/builder/main.go:568-579 | `int`, `float` and `void` map to I32, Double and Void; any other name fails with that name |
| Lowering.FallThrough | src/builder/main.go:491-493 | a fall-through branch changes only the module, within the current function |
| Lowering.NewBlockHere | src/builder/main.go:465-467 | a new block is appended to the current function, at the next index |
| Lowering.DigitRun | src/builder/main.go:80-83 | the longest run of leading digits |
| Lowering.GenerateFunction | src/builder/main.go:96-150 | a lowered function leaves no current function and keeps the loop stack as a prefix |
| Lowering.EnterFunction | src/builder/main.go:124-140 | the new function is current, and its entry block is its block 0 |
| Lowering.FunctionBody | src/builder/main.go:142-149 | after the body, no function is current |
| Lowering.GenerateExpression | src/builder/main.go:152-165 | lowering an expression changes only the module, within the current function, and only adds to it |
| Lowering.GenerateIdentifier | src/builder/main.go:177-191 | a lookup changes only the module |
| Lowering.BinaryInstr | src/builder/main.go:202-287 | an instruction exists exactly for the operators of precedence 4 to 7; comparisons give I1, arithmetic the operand type |
| Lowering.GenerateBinaryExpression | src/builder/main.go:193-290 | a binary expression changes only the module |
| Lowering.FindFunc | src/builder/main.go:296-302 | the first function with the name, or none when no function has it |
| Lowering.Callee | src/builder/main.go:296-311 | a resolved callee is a function of the module, and only the module changes |
| Lowering.GenerateFunctionCall | src/builder/main.go:292-338 | a call changes only the module; what it appends is stated by `Environment.CallEmits` |
| Lowering.EmitCall | src/builder/main.go:318-337 | appending the call changes only the module |
| Lowering.GenerateArguments | src/builder/main.go:313-316 | one value per argument, after the values already lowered, which stay first |
| Lowering.GenerateBlock | src/builder/main.go:340-370 | lowering a block stays in the current function and only adds blocks and loop entries |
| Lowering.GenerateStatements | src/builder/main.go:343-369 | as `GenerateBlock`, for the rest of the block |
| Lowering.GenerateStatement | src/builder/main.go:344-368 | as `GenerateBlock`, for one statement |
| Lowering.GenerateReturn | src/builder/main.go:372-379 | a return changes only the module |
| Lowering.GenerateVariableDeclaration | src/builder/main.go:381-392 | as `GenerateBlock`, for a declaration |
| Lowering.AssignmentSlot | src/builder/main.go:399-408 | finding or making the slot changes only the module |
| Lowering.GenerateAssignment | src/builder/main.go:394-458 | as `GenerateBlock`, for an assignment; what it stores is stated by `Environment.AssignmentStores` |
| Lowering.AssignedValue | src/builder/main.go:412-454 | `=` stores the right-hand side and appends nothing; a compound operator on an i32 or double slot appends its arithmetic on the loaded value and the right-hand side, in the slot's type, and stores the result; an unknown operator and a compound operator on another type fail with their errors |
| Lowering.GenerateBreakContinue | src/builder/main.go:552-566 | succeeds exactly when the loop stack is non-empty; it then branches to the top loop's condition (continue) or end (break) and changes nothing else |
| Lowering.GenerateConditional | src/builder/main.go:460-515 | as `GenerateBlock`, for an `if` |
| Lowering.ConditionalBranch | src/builder/main.go:464-467 | as `GenerateBlock`, once the condition is lowered |
| Lowering.ConditionalJump | src/builder/main.go:469-487 | as `GenerateBlock`, once body and end exist |
| Lowering.ConditionalArms | src/builder/main.go:489-514 | the end block is current on return |
| Lowering.ElseArm | src/builder/main.go:496-508 | as `GenerateBlock`, for the else or else-if arm |
| Lowering.GenerateWhileStatement | src/builder/main.go:517-550 | as `GenerateBlock`, for a while |
| Lowering.EnterLoop | src/builder/main.go:518-535 | as `GenerateBlock`, once the three loop blocks exist |
| Lowering.LoopArms | src/builder/main.go:536-549 | the end block is current on return |
| Lowering.ParamTypes | src/builder/main.go:100-122 | the parameter list has one entry per parameter node, in order, with its name and the type its type name denotes; it fails exactly when some type name is unsupported |
| Builder.paramTypes | src/builder/main.go:100-122 | the loop computes the parameter list, failing on the first unsupported type |
| Builder.paramLocals | src/builder/main.go:131-136 | the loop binds every parameter by name |
| Builder.formatString | src/builder/main.go:318-333 | the loop computes the `printf` format string |
| Builder.Builder.constructor | src/builder/main.go:31-40 | a new builder has an empty module and empty environments |
| Builder.Builder.SetTarget | src/builder/main.go:49-60 | behaves as `Lowering.SetTarget` |
| Builder.Builder.Build | src/builder/main.go:62-73 | the loop over the top-level items computes `Lowering.Build` and returns its module |
| Builder.Builder.generatePreprocessorDirective | src/builder/main.go:75-94 | behaves as the `#define` rule |
| Builder.Builder.generateFunction | src/builder/main.go:96-150 | behaves as `Lowering.GenerateFunction` |
| Builder.Builder.enterFunction | src/builder/main.go:124-140 | behaves as `Lowering.EnterFunction` and returns the entry block |
| Builder.Builder.functionBody | src/builder/main.go:142-149 | behaves as `Lowering.FunctionBody` |
| Builder.Builder.fallThrough | src/builder/main.go:491-493 | behaves as `Lowering.FallThrough` |
| Builder.Builder.newBlock | src/builder/main.go:465-467 | behaves as `Lowering.NewBlockHere` |
| Builder.Builder.generateExpression | src/builder/main.go:152-165 | behaves as `Lowering.GenerateExpression` |
| Builder.Builder.generateLiteral | src/builder/main.go:167-175 | behaves as the literal classification |
| Builder.Builder.generateIdentifier | src/builder/main.go:177-191 | behaves as `Lowering.GenerateIdentifier` |
| Builder.Builder.generateBinaryExpression | src/builder/main.go:193-290 | behaves as `Lowering.GenerateBinaryExpression` |
| Builder.Builder.generateFunctionCall | src/builder/main.go:292-338 | behaves as `Lowering.GenerateFunctionCall` |
| Builder.Builder.findFunc | src/builder/main.go:296-302 | the search loop computes `Lowering.FindFunc` |
| Builder.Builder.generateArguments | src/builder/main.go:313-316 | the loop computes `Lowering.GenerateArguments` |
| Builder.Builder.generateBlock | src/builder/main.go:340-370 | the loop computes `Lowering.GenerateBlock` |
| Builder.Builder.generateBlockItem | src/builder/main.go:344-368 | behaves as `Lowering.GenerateStatement` |
| Builder.Builder.generateReturn | src/builder/main.go:372-379 | behaves as `Lowering.GenerateReturn` |
| Builder.Builder.generateVariableDeclaration | src/builder/main.go:381-392 | behaves as `Lowering.GenerateVariableDeclaration` |
| Builder.Builder.generateAssignment | src/builder/main.go:394-458 | behaves as `Lowering.GenerateAssignment` |
| Builder.Builder.assignmentSlot | src/builder/main.go:399-408 | behaves as `Lowering.AssignmentSlot` |
| Builder.Builder.assignedValue | src/builder/main.go:412-454 | behaves as `Lowering.AssignedValue` |
| Builder.Builder.generateConditional | src/builder/main.go:460-515 | behaves as `Lowering.GenerateConditional` |
| Builder.Builder.conditionalArms | src/builder/main.go:489-514 | behaves as `Lowering.ConditionalArms` |
| Builder.Builder.elseArm | src/builder/main.go:496-508 | behaves as `Lowering.ElseArm` |
| Builder.Builder.generateWhileStatement | src/builder/main.go:517-550 | behaves as `Lowering.GenerateWhileStatement` |
| Builder.Builder.enterLoop | src/builder/main.go:518-535 | behaves as `Lowering.EnterLoop` |
| Builder.Builder.loopArms | src/builder/main.go:536-549 | behaves as `Lowering.LoopArms` |
| Builder.Builder.generateBreakContinue | src/builder/main.go:552-566 | behaves as `Lowering.GenerateBreakContinue` |
| LoweringFacts.DecimalRoundTrip | src/builder/main.go:465-466 | the decimal label suffix reads back as the number |
| LoweringFacts.DecimalNoLeadingZero | src/builder/main.go:465-466 | the suffix starts with `0` only for 0 |
| LoweringFacts.LabelsDiffer | src/builder/main.go:465-520 | labels made from different counter values differ |
| LoweringFacts.AtoiOfDecimal | src/builder/main.go:168-169 | `Atoi` accepts a decimal exactly when it fits in 64 bits |
| LoweringFacts.AtoiOfNegative | src/builder/main.go:168-169 | `Atoi` accepts `-n` exactly when it fits in 64 bits |
| LoweringFacts.ScanIntAgreesWithAtoi | src/builder/main.go:80-83 | on text `Atoi` accepts, the `%d` scan gives the same value |
| LoweringFacts.ScanIntStopsAtNonDigit | src/builder/main.go:80-83 | the `%d` scan reads the leading number and ignores what follows |
| LoweringFacts.IntRangeBelowFloatOverflow | src/builder/main.go:168-171 | every 64-bit integer is in the range of a finite double |
| LoweringFacts.NumberTextIsFloat | src/builder/main.go:170-171 | number text with a `.` is float text and not an integer |
| LoweringFacts.IntegerTokenLowers | src/builder/main.go:167-175 | digits lower to an i32 constant when they fit in 64 bits, otherwise to a double, or fail once out of double range |
| LoweringFacts.DecimalTokenLowers | src/builder/main.go:167-175 | number text with `.` lowers to a double unless its integer part is out of double range |
| LoweringFacts.NumberTokenLowers | src/builder/main.go:167-175 | a Number token lowers exactly when its integer part is in double range, to an i32 constant or a double |
| LoweringFacts.SpecifiersShape | src/builder/main.go:322-331 | the specifiers are `%` and a letter per argument, in order |
| LoweringFacts.ConversionsOfPrintable | src/builder/main.go:322-331 | for I32 and Double arguments, the loop appends their specifiers |
| LoweringFacts.ConversionsStopAt | src/builder/main.go:322-331 | the loop fails on the first argument of any other type |
| LoweringFacts.FormatStringOfPrintable | src/builder/main.go:318-334 | the format string is `%d` per i32 and `%f` per double argument, then `\n` and NUL |
| LoweringFacts.FormatStringStopsAt | src/builder/main.go:318-334 | the first argument of any other type makes it fail with that type |
| ControlFlow.ExpressionQuiet | src/builder/main.go:152-165 | lowering an expression adds no block and removes no terminator |
| ControlFlow.IdentifierQuiet | src/builder/main.go:177-191 | so does a lookup |
| ControlFlow.BinaryQuiet | src/builder/main.go:193-290 | so does a binary expression |
| ControlFlow.CalleeQuiet | src/builder/main.go:296-311 | so does resolving a callee |
| ControlFlow.CallQuiet | src/builder/main.go:292-338 | so does a call |
| ControlFlow.ArgumentsQuiet | src/builder/main.go:313-316 | so does the argument list |
| ControlFlow.ReturnQuiet | src/builder/main.go:372-379 | a return adds no block and terminates the current one |
| ControlFlow.DeclarationQuiet | src/builder/main.go:381-392 | a declaration adds no block and removes no terminator |
| ControlFlow.AssignmentQuiet | src/builder/main.go:394-458 | so does an assignment |
| ControlFlow.SlotQuiet | src/builder/main.go:405-408 | so does copying a parameter into a slot |
| ControlFlow.BlockSettles | src/builder/main.go:340-370 | after a block, every block it added or left behind is terminated, except the current one |
| ControlFlow.StatementsSettle | src/builder/main.go:343-369 | the same for the rest of a block |
| ControlFlow.StatementSettles | src/builder/main.go:344-368 | the same for one statement |
| ControlFlow.SimpleStatementSettles | src/builder/main.go:344-368 | the same for the statements that add no block |
| ControlFlow.ConditionalSettles | src/builder/main.go:460-515 | after an `if`, every new block except the current end block is terminated, and so is the block it started in |
| ControlFlow.BranchSettles | src/builder/main.go:464-467 | the same, once the condition is lowered |
| ControlFlow.JumpSettles | src/builder/main.go:469-487 | the same, once body and end exist |
| ControlFlow.WithElseSettles | src/builder/main.go:472-483 | the same, with an else or else-if arm |
| ControlFlow.WithoutElseSettles | src/builder/main.go:484-487 | the same, without one |
| ControlFlow.ArmsFinish | src/builder/main.go:489-514 | the body, the else arm and their blocks are terminated before end becomes current |
| ControlFlow.ElseSettles | src/builder/main.go:496-508 | the same for the else or else-if arm |
| ControlFlow.WhileSettles | src/builder/main.go:517-550 | after a while, every new block except end is terminated, and so is the block it started in |
| ControlFlow.EnterLoopSettles | src/builder/main.go:518-535 | the same, once the loop blocks exist |
| ControlFlow.LoopArmsFinish | src/builder/main.go:536-549 | the condition and body blocks are terminated before end becomes current |
| ControlFlow.BodyFinishes | src/builder/main.go:142-147 | after the body and the bare return, every block of the function is terminated |
| ControlFlow.FunctionTerminates | src/builder/main.go:96-150 | lowering a function keeps every block of the module terminated |
| ControlFlow.ItemsTerminate | src/builder/main.go:62-73 | so does lowering the rest of the top-level items |
| ControlFlow.BuildTerminates | src/builder/main.go:62-73 | after a successful build from a new builder, every block of every function has a terminator |
| Environment.IdentifierLookup | src/builder/main.go:177-191 | a name resolves exactly when it is a local or a global, locals first; a parameter is used as is, a slot is loaded with its type; otherwise the error names it |
| Environment.DeclarationBinds | src/builder/main.go:381-392 | a declaration rebinds its name to a fresh slot of the declared type and changes no other binding, global or loop; an unknown type fails |
| Environment.DeclarationScopesInitializer | src/builder/main.go:381-392 | the name is bound before its initializer is lowered, so `int x = x;` lowers |
| Environment.AssignmentRebinds | src/builder/main.go:394-458 | an assignment needs a local and a known operator; the target ends as a slot of its type (a parameter gets a fresh one, a slot stays), and every other binding stays |
| Environment.AssignmentFailures | src/builder/main.go:394-458 | assigning to a non-local, with an unknown operator, or with a compound operator to a slot that is neither i32 nor double fails with that error |
| Environment.AssignmentStores | src/builder/main.go:394-458 | after the right-hand side's code, an assignment appends a load of the name's slot and the store of the assigned value into that slot: the right-hand side for `=`, the operator's arithmetic on the loaded value and the right-hand side for a compound operator; a parameter is first copied into a fresh slot |
| Environment.SlotCode | src/builder/main.go:399-408 | a slot local is its own slot; a parameter gets a fresh slot of its type holding its value |
| Environment.StoreAppends | src/builder/main.go:410-457 | from the load on, the assignment appends the load, the arithmetic for a compound operator, and the store, and gets that far only for `=` or an i32 or double slot |
| Environment.CallEmits | src/builder/main.go:292-338 | a call fails when the callee is missing, otherwise appends the call of the function found under its name with the arguments in order and its return type, the call's result being the expression's value |
| Environment.OtherCallEmits | src/builder/main.go:337 | a call of a function other than `printf` passes exactly its arguments and adds no global |
| Environment.PrintfEmits | src/builder/main.go:318-337 | a `printf` call passes first a new global holding `%d` per i32 and `%f` per double argument, a newline and a NUL, then the arguments |
| Environment.PrintfRejects | src/builder/main.go:322-330 | a `printf` argument of any other type fails the call, with the first such argument's type |
| Environment.CalleeResolution | src/builder/main.go:292-311 | the first function of the module with the name is used and nothing changes; apart from `printf`, a missing name fails |
| Environment.PrintfDeclaredOnce | src/builder/main.go:304-308 | `printf` is declared once, void and variadic with a format pointer; a later call finds that declaration |
| Environment.DefineBecomesGlobal | src/builder/main.go:75-94 | only `#define NAME literal` lowers; it binds NAME to an i32 constant of the scanned value and changes nothing else |
| Environment.DefineOfNumber | src/builder/main.go:75-94 | `#define NAME n` binds NAME to n |
| Environment.DefineDefaultsToZero | src/builder/main.go:80-83 | a string value scans as nothing, so the global is 0 |
| Environment.WhilePushesTrace | src/builder/main.go:517-531 | a while pushes its condition, body and end blocks on the loop stack |
| Environment.BreakAfterLoop | src/builder/main.go:552-566 | once a while has been lowered, `break` and `continue` succeed |
| Environment.LoopStackPersists | src/builder/main.go:527-531 | the loop stack only grows over a whole build |
| Environment.BinaryTyping | src/builder/main.go:193-290 | a binary expression lowers only for precedences 4 to 7 with both operands of one type, I32 or Double; a comparison gives I1, arithmetic the operand type |

## Left out

- The `cachedRegex` memoisation in `GetRegex` (src/tokenizer/patterns.go:34-44) has no observable effect, so it is not modelled. Each pattern is a matcher function, not a compiled regular expression.
- The scanner's diagnostic printing and exit become a `LexError` value.
- `Parser.Error`, `UnexpectedError` and `ExpectedError` (src/ast/main.go:110-131) print, then panic or exit depending on `debugMode`. They are collapsed into one `ParseError` value, and `debugMode` is not modelled.
- `Peek`, `PeekNext`, `Match` and `MatchValue` are one-line reads. They are functions, used inside the methods, and have no row of their own.
- `ParseBinaryExpression`, `ParseUnary` and `ParsePrimary` (src/ast/main.go:206-259) are never called, so they are not modelled.
- The node kinds that exist but are never built (src/ast/main.go:23-33) are in the enum and the name table only.
- src/main.go is file I/O, the artifacts directory, JSON dumps and running `llc`/`clang`. It is not part of this model.
- The llir library is replaced by the abstract `Ir` module. Textual IR, pointer identity and the library's type checks are not modelled. Functions, blocks and instruction results are addressed by position.
- Setting a terminator on a block that already has one replaces it in `Ir.SetTerm`. The library's behaviour in that case is not modelled.
- The target triple is only a stored string.
- Floating point is not modelled. A double constant keeps the text it was read from, and FAdd, FCmp and the other double instructions are tags.
- `strconv.ParseFloat` is modelled only on the forms a Number token can have: digits with an optional fraction. Exponents, `inf` and hexadecimal forms cannot come from the scanner.
- Lowering.ScanInt: models `Sscanf("%d")` as an optional sign and the leading digit run. Leading white space, which `Sscanf` skips, cannot begin a Literal.
- Lowering.AssignedValue: the source stores a nil value when a compound operator meets an operand that is neither i32 nor double. The model fails with `MissingValue` instead.
- ControlFlow.ConditionalSettles: proves that every block ends terminated. It does not prove which blocks each conditional branch targets.
- ControlFlow.WhileSettles: it is weaker in the same way, and `Environment.WhilePushesTrace` records only which blocks the loop pushes.
- Environment.BinaryTyping: states the successful case only. It does not name the error returned for each failing operand type or operator.
- Lowering.GenerateAssignment: its own contract states only that lowering stays in the current function and only adds to the module; the stored value and the slot are stated by `Environment.AssignmentStores`.
- Lowering.GenerateFunctionCall: its own contract states only that lowering stays in the current function and only adds to the module; the call it appends is stated by `Environment.CallEmits`, `Environment.PrintfEmits` and `Environment.OtherCallEmits`.
- Lowering.GenerateStatement: the contracts of the `Lowering` statement functions state only that lowering stays in the current function and only adds to the module. What each statement does is stated elsewhere: the blocks and terminators of every statement in `ControlFlow`; the bindings of a declaration in `Environment.DeclarationBinds`; the instructions of an assignment in `Environment.AssignmentStores` and of a call in `Environment.CallEmits`, `Environment.PrintfEmits` and `Environment.OtherCallEmits`. The instructions that a declaration, a return, an `if` or a `while` appends are stated only as far as their blocks, terminators and bindings.
- Integers are 64-bit where the source parses them (`Atoi`, `Sscanf`). The i32 constant holds the 64-bit value unchanged, as `constant.NewInt` does.
