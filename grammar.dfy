/** The statement and declaration rules of the parser of src/ast/main.go, as
    functions over the token sequence and a position: what each `Parse*`
    rule consumes and builds, or the error that ends the parse. The
    imperative parser in module Parser is proved to compute exactly these
    functions. */
module Grammar {
  import opened Wrappers
  import opened Tokens
  import opened AstNode
  import opened Pratt

  // -----------------------------------------------------------------------
  // Reading tokens

  /** The token at `pos` is keyword `v`. */
  predicate IsKeyword(toks: seq<Token>, pos: nat, v: string)
  {
    PeekAt(toks, pos).kind == Keyword && PeekAt(toks, pos).value == v
  }

  predicate IsOperator(toks: seq<Token>, pos: nat, v: string)
  {
    PeekAt(toks, pos).kind == Operator && PeekAt(toks, pos).value == v
  }

  /** `Expect`: the next token is consumed and must have kind `k`. */
  function Expect(toks: seq<Token>, pos: nat, k: TokenType): (r: Parsed<Token>)
    ensures r.Ok? <==> PeekAt(toks, pos).kind == k
    ensures r.Ok? ==> r.value == (PeekAt(toks, pos), pos + 1)
    ensures r.Ok? && k != TokenType.Invalid ==> pos < |toks|
    ensures r.Err? ==> r.error == Expected(OfKind(k), PeekAt(toks, pos))
  {
    var t := PeekAt(toks, pos);
    if t.kind == k then Ok((t, pos + 1)) else Err(Expected(OfKind(k), t))
  }

  /** `ExpectValue`: the next token is consumed and must have kind `k` and
      text `v`; the error names both. */
  function ExpectValue(toks: seq<Token>, pos: nat, k: TokenType, v: string): (r: Parsed<Token>)
    ensures r.Ok? <==> PeekAt(toks, pos).kind == k && PeekAt(toks, pos).value == v
    ensures r.Ok? ==> r.value == (PeekAt(toks, pos), pos + 1)
    ensures r.Ok? && k != TokenType.Invalid ==> pos < |toks|
    ensures r.Err? ==> r.error == Expected(OfKindValue(k, v), PeekAt(toks, pos))
  {
    var t := PeekAt(toks, pos);
    if t.kind == k && t.value == v then Ok((t, pos + 1))
    else Err(Expected(OfKindValue(k, v), t))
  }

  /** The texts that make an identifier statement an assignment. */
  const AssignmentOperators: seq<string> :=
    ["=", "+=", "-=", "*=", "/=", "%=", "&=", "|=", "^=", "<<=", ">>="]

  /** The keywords that start a function declaration at the top level. */
  const ReturnTypes: seq<string> := ["int", "float", "char", "void"]

  /** The keywords that start a variable declaration in a block. */
  const VariableTypes: seq<string> := ["int", "float", "char"]

  // -----------------------------------------------------------------------
  // The shapes of what the rules build

  /** A name leaf: a type, an operator, a directive's subject. */
  predicate IsNameLeaf(n: Node)
  {
    n.kind == NodeKind.Identifier && n.children == []
  }

  /** A parameter: a variable declaration whose only child is its type. */
  predicate IsParameter(n: Node)
  {
    n.kind == VariableDeclaration && |n.children| == 1 && IsNameLeaf(n.children[0])
  }

  /** The parameter `p` is spelled by the type keyword at `j` and the name
      after it: it is named by the name and its child is the type. */
  predicate ParamAt(toks: seq<Token>, j: nat, p: Node)
  {
    j + 1 < |toks| && toks[j].kind == Keyword && toks[j + 1].kind == TokenType.Identifier
    && p == Node(VariableDeclaration, toks[j + 1].value, [Leaf(NodeKind.Identifier, toks[j].value)])
  }

  /** An array initializer: a list of expressions. */
  predicate IsInitializer(n: Node)
  {
    n.kind == ArrayInitializer && n.name == "ArrayInitializer"
    && forall i :: 0 <= i < |n.children| ==> IsExpression(n.children[i])
  }

  /** A block: a list of statements. */
  predicate IsBlock(n: Node)
    decreases n
  {
    n.kind == Block && n.name == "Block"
    && forall i :: 0 <= i < |n.children| ==> IsStatement(n.children[i])
  }

  /** `if`: the condition, the block, and optionally the `else` block or the
      `else if` conditional. */
  predicate IsConditional(n: Node)
    decreases n, 0
  {
    n.kind == Statement && n.name == "if"
    && 2 <= |n.children| <= 3 && IsExpression(n.children[0]) && IsBlock(n.children[1])
    && (|n.children| == 3 ==> IsBlock(n.children[2]) || IsConditional(n.children[2]))
  }

  /** The nodes a statement rule builds, with the meaning of each child
      position. */
  predicate IsStatement(n: Node)
    decreases n, 1
  {
    match n.kind
    case ReturnStatement =>
      n.name == "return" && |n.children| == 1 && IsExpression(n.children[0])
    case VariableDeclaration =>
      1 <= |n.children| <= 2 && IsNameLeaf(n.children[0])
      && (|n.children| == 2 ==> IsInitializer(n.children[1]) || IsExpression(n.children[1]))
    case Statement =>
      IsConditional(n) || (n.name in ["continue", "break"] && n.children == [])
    case WhileStatement =>
      n.name == "while" && |n.children| == 2
      && IsExpression(n.children[0]) && IsBlock(n.children[1])
    case FunctionCall =>
      forall i :: 0 <= i < |n.children| ==> IsExpression(n.children[i])
    case Assignment =>
      |n.children| == 2 && IsNameLeaf(n.children[0])
      && n.children[0].name in AssignmentOperators && IsExpression(n.children[1])
    case _ => false
  }

  /** A directive: its subject, then optionally a literal value. */
  predicate IsDirective(n: Node)
  {
    n.kind == PreprocessorDirective && 1 <= |n.children| <= 2 && IsNameLeaf(n.children[0])
    && (|n.children| == 2 ==> n.children[1].kind == Literal && n.children[1].children == [])
  }

  /** A function declaration: its return type, its parameters, its body. */
  predicate IsFunction(n: Node)
  {
    n.kind == FunctionDeclaration && |n.children| == 3 && IsNameLeaf(n.children[0])
    && n.children[1].kind == Parameters && n.children[1].name == "Parameters"
    && (forall i :: 0 <= i < |n.children[1].children| ==> IsParameter(n.children[1].children[i]))
    && IsBlock(n.children[2])
  }

  /** What the top level may hold. */
  predicate IsTopLevel(n: Node)
  {
    IsDirective(n) || (IsFunction(n) && n.children[0].name in ReturnTypes)
  }

  /** A program: directives and function declarations. */
  predicate IsProgram(n: Node)
  {
    n.kind == NodeKind.Program && n.name == "Program"
    && forall i :: 0 <= i < |n.children| ==> IsTopLevel(n.children[i])
  }

  // -----------------------------------------------------------------------
  // The top level

  /** `Parse`: top-level items from the cursor `pos` (0 for a new parser)
      until the tokens run out. */
  function ParseProgram(toks: seq<Token>, pos: nat): (r: Result<Node, ParseError>)
    ensures r.Ok? ==> IsProgram(r.value)
  {
    var children :- TopLevel(toks, pos, []);
    Ok(Node(NodeKind.Program, "Program", children))
  }

  /** The loop of `Parse`: top-level items until the tokens run out. */
  function TopLevel(toks: seq<Token>, pos: nat, items: seq<Node>): (r: Result<seq<Node>, ParseError>)
    requires forall i :: 0 <= i < |items| ==> IsTopLevel(items[i])
    ensures r.Ok? ==> forall i :: 0 <= i < |r.value| ==> IsTopLevel(r.value[i])
    decreases |toks| - pos
  {
    if pos >= |toks| then Ok(items)
    else
      var (item, next) :- TopLevelItem(toks, pos);
      TopLevel(toks, next, items + [item])
  }

  /** One pass of the loop of `Parse`: a directive for a Preprocessor token,
      a function declaration for one of the keywords `int`, `float`, `char`
      and `void`, and an error for anything else. */
  function TopLevelItem(toks: seq<Token>, pos: nat): (r: Parsed<Node>)
    requires pos < |toks|
    ensures r.Ok? ==> pos < r.value.1 <= |toks| && IsTopLevel(r.value.0)
  {
    var t := toks[pos];
    if t.kind == Preprocessor then ParsePreprocessorDirective(toks, pos)
    else if t.kind == Keyword && t.value in ReturnTypes then ParseFunctionDeclaration(toks, pos)
    else Err(Unexpected(t))
  }

  /** `ParsePreprocessorDirective`: the directive, its subject and an
      optional Number or String value. */
  function ParsePreprocessorDirective(toks: seq<Token>, pos: nat): (r: Parsed<Node>)
    ensures r.Ok? ==> pos < r.value.1 <= |toks| && IsDirective(r.value.0)
    ensures r.Ok? <==> PeekAt(toks, pos).kind == Preprocessor && PeekAt(toks, pos + 1).kind == TokenType.Identifier
    ensures r.Ok? ==> var n, v := r.value.0, PeekAt(toks, pos + 2);
      && pos + 1 < |toks| && n.name == toks[pos].value
      && n.children[0] == Leaf(NodeKind.Identifier, toks[pos + 1].value)
      && (|n.children| == 2 <==> v.kind == Number || v.kind == String)
      && (|n.children| == 2 ==> n.children[1] == Leaf(Literal, v.value) && r.value.1 == pos + 3)
      && (|n.children| == 1 ==> r.value.1 == pos + 2)
  {
    var (directive, p1) :- Expect(toks, pos, Preprocessor);
    var (subject, p2) :- Expect(toks, p1, TokenType.Identifier);
    var head := Leaf(NodeKind.Identifier, subject.value);
    var t := PeekAt(toks, p2);
    if t.kind == Number || t.kind == String then
      Ok((Node(PreprocessorDirective, directive.value, [head, Leaf(Literal, t.value)]), p2 + 1))
    else
      Ok((Node(PreprocessorDirective, directive.value, [head]), p2))
  }

  /** `ParseFunctionDeclaration`: return type, name, `(`, parameters, `)`,
      body. */
  function ParseFunctionDeclaration(toks: seq<Token>, pos: nat): (r: Parsed<Node>)
    ensures r.Ok? ==> pos < r.value.1 <= |toks| && IsFunction(r.value.0)
    ensures r.Ok? ==> r.value.0.children[0].name == toks[pos].value
    ensures r.Ok? ==> pos + 2 < |toks| && r.value.0.name == toks[pos + 1].value && IsPunct(toks, pos + 2, "(")
  {
    var (returnType, p1) :- Expect(toks, pos, Keyword);
    var (name, p2) :- Expect(toks, p1, TokenType.Identifier);
    var (_, p3) :- ExpectValue(toks, p2, Punctuation, "(");
    ParametersAndBody(toks, returnType.value, name.value, p3)
  }

  /** The end of `ParseFunctionDeclaration`, after its `(`: the parameters,
      `)` and the body. */
  function ParametersAndBody(toks: seq<Token>, returnType: string, name: string, pos: nat): (r: Parsed<Node>)
    ensures r.Ok? ==> pos < r.value.1 <= |toks| && IsFunction(r.value.0)
    ensures r.Ok? ==> r.value.0.name == name && r.value.0.children[0].name == returnType
  {
    var (params, p1) :- ParseParameters(toks, pos);
    // The parameter loop stops only at `)`, so expecting it cannot fail.
    var (body, p2) :- ParseBlock(toks, p1 + 1);
    var decl := Node(FunctionDeclaration, name, [Leaf(NodeKind.Identifier, returnType), params, body]);
    assert decl.children[1] == params && decl.children[2] == body;
    Ok((decl, p2))
  }

  /** `ParseParameters`: the parameter list, up to the `)` that ends it. */
  function ParseParameters(toks: seq<Token>, pos: nat): (r: Parsed<Node>)
    ensures r.Ok? ==> pos <= r.value.1 < |toks| && IsPunct(toks, r.value.1, ")")
    ensures r.Ok? ==> var n := r.value.0;
      n.kind == Parameters && n.name == "Parameters"
      && forall i :: 0 <= i < |n.children| ==> IsParameter(n.children[i])
  {
    var (params, next) :- ParamList(toks, pos, []);
    Ok((Node(Parameters, "Parameters", params), next))
  }

  /** The loop of `ParseParameters`: up to `)`, which is left in place, each
      parameter is a keyword (its type) and a name, followed by `,` or by
      the `)`. A comma directly before `)` is accepted. */
  function ParamList(toks: seq<Token>, pos: nat, params: seq<Node>): (r: Parsed<seq<Node>>)
    requires forall i :: 0 <= i < |params| ==> IsParameter(params[i])
    ensures r.Ok? ==> pos <= r.value.1 < |toks| && IsPunct(toks, r.value.1, ")")
    ensures r.Ok? ==> forall i :: 0 <= i < |r.value.0| ==> IsParameter(r.value.0[i])
    decreases |toks| - pos
  {
    if IsPunct(toks, pos, ")") then Ok((params, pos))
    else if PeekAt(toks, pos).kind == Keyword then
      var paramType := toks[pos];
      var (name, next) :- Expect(toks, pos + 1, TokenType.Identifier);
      var param := Node(VariableDeclaration, name.value, [Leaf(NodeKind.Identifier, paramType.value)]);
      if IsPunct(toks, next, ",") then ParamList(toks, next + 1, params + [param])
      else if IsPunct(toks, next, ")") then ParamList(toks, next, params + [param])
      else Err(Expected(Separator(")"), PeekAt(toks, next)))
    else
      Err(Expected(Alternatives("parameter type or ')'"), PeekAt(toks, pos)))
  }

  /** Each parameter the loop adds is spelled by a type keyword and a
      name in the part of the tokens it consumes; those before stay first. */
  lemma {:induction false} ParamListSpelled(toks: seq<Token>, pos: nat, params: seq<Node>)
    requires forall i :: 0 <= i < |params| ==> IsParameter(params[i])
    ensures var r := ParamList(toks, pos, params);
      r.Ok? ==>
        && |params| <= |r.value.0| && r.value.0[..|params|] == params
        && forall q :: q in r.value.0[|params|..] ==> exists j :: pos <= j < r.value.1 && ParamAt(toks, j, q)
    decreases |toks| - pos
  {
    var r := ParamList(toks, pos, params);
    if r.Ok? && !IsPunct(toks, pos, ")") {
      assert PeekAt(toks, pos).kind == Keyword && Expect(toks, pos + 1, TokenType.Identifier).Ok?;
      var (name, next) := Expect(toks, pos + 1, TokenType.Identifier).value;
      var param := Node(VariableDeclaration, name.value, [Leaf(NodeKind.Identifier, toks[pos].value)]);
      assert ParamAt(toks, pos, param);
      var k := if IsPunct(toks, next, ",") then next + 1 else next;
      assert r == ParamList(toks, k, params + [param]);
      ParamListSpelled(toks, k, params + [param]);
      PrefixStep(r.value.0, params, param);
    }
  }

  /** A list that starts with `params` and then `param` starts with
      `params`, and what follows `params` is `param` and the rest. */
  lemma PrefixStep(xs: seq<Node>, params: seq<Node>, param: Node)
    requires |params| + 1 <= |xs| && xs[..|params| + 1] == params + [param]
    ensures xs[..|params|] == params && xs[|params|..] == [param] + xs[|params| + 1..]
  {
    assert xs[..|params|] == xs[..|params| + 1][..|params|];
    assert xs[|params|..] == [xs[|params|]] + xs[|params| + 1..];
  }

  /** Every parameter of a function declaration is spelled by a type
      keyword and a name after its `(`. */
  lemma FunctionParametersSpelled(toks: seq<Token>, pos: nat)
    ensures var r := ParseFunctionDeclaration(toks, pos);
      r.Ok? ==> forall q :: q in r.value.0.children[1].children ==> exists j :: pos + 3 <= j && ParamAt(toks, j, q)
  {
    var r := ParseFunctionDeclaration(toks, pos);
    if r.Ok? {
      ParamListSpelled(toks, pos + 3, []);
      var (params, _) := ParamList(toks, pos + 3, []).value;
      assert params[0..] == params;
    }
  }

  // -----------------------------------------------------------------------
  // Blocks and statements

  /** `ParseBlock`: `{`, statements, `}`. */
  function ParseBlock(toks: seq<Token>, pos: nat): (r: Parsed<Node>)
    ensures r.Ok? ==> pos < r.value.1 <= |toks| && IsBlock(r.value.0)
    ensures r.Ok? ==> IsPunct(toks, pos, "{") && IsPunct(toks, r.value.1 - 1, "}")
    decreases |toks| - pos, 0
  {
    var (_, p1) :- ExpectValue(toks, pos, Punctuation, "{");
    var (stmts, p2) :- StatementList(toks, p1, []);
    Ok((Node(Block, "Block", stmts), p2))
  }

  /** The loop of `ParseBlock`: statements until `}`, which is consumed; the
      end of the tokens before it is an error. */
  function StatementList(toks: seq<Token>, pos: nat, stmts: seq<Node>): (r: Parsed<seq<Node>>)
    requires forall i :: 0 <= i < |stmts| ==> IsStatement(stmts[i])
    ensures r.Ok? ==> pos < r.value.1 <= |toks| && IsPunct(toks, r.value.1 - 1, "}")
    ensures r.Ok? ==> forall i :: 0 <= i < |r.value.0| ==> IsStatement(r.value.0[i])
    decreases |toks| - pos, 2
  {
    if IsPunct(toks, pos, "}") then Ok((stmts, pos + 1))
    else if pos >= |toks| then Err(UnexpectedEnd)
    else
      var (stmt, next) :- ParseStatement(toks, pos);
      StatementList(toks, next, stmts + [stmt])
  }

  /** `ParseStatement`: the rule is chosen by the first token and, for a
      name, by the text of the token after it. */
  function ParseStatement(toks: seq<Token>, pos: nat): (r: Parsed<Node>)
    ensures r.Ok? ==> pos < r.value.1 <= |toks| && IsStatement(r.value.0)
    decreases |toks| - pos, 1
  {
    var t := PeekAt(toks, pos);
    if t.kind == Keyword then
      if t.value == "return" then ParseReturnStatement(toks, pos)
      else if t.value in VariableTypes then ParseVariableDeclaration(toks, pos)
      else if t.value == "if" then ParseConditional(toks, pos)
      else if t.value == "while" then ParseWhileStatement(toks, pos)
      else if t.value in ["continue", "break"] then ParseControlFlow(toks, pos)
      else Err(Unexpected(t))
    else if t.kind == TokenType.Identifier && IsPunct(toks, pos + 1, "(") then ParseFunctionCall(toks, pos)
    else if t.kind == TokenType.Identifier && PeekAt(toks, pos + 1).value in AssignmentOperators then
      ParseAssignment(toks, pos)
    else Err(Unexpected(t))
  }

  /** `ParseVariableDeclaration`: a type keyword, optionally `[` `]`, a
      name, optionally `=` and an initializer (a braced list for an array
      type, an expression otherwise), and `;`. */
  function ParseVariableDeclaration(toks: seq<Token>, pos: nat): (r: Parsed<Node>)
    ensures r.Ok? ==> pos < r.value.1 <= |toks| && IsStatement(r.value.0)
    ensures r.Ok? ==> r.value.0.kind == NodeKind.VariableDeclaration
    ensures r.Ok? ==>
      var arr := IsPunct(toks, pos + 1, "[");
      var at := if arr then pos + 3 else pos + 1;
      var n := r.value.0;
      && at < |toks| && toks[pos].kind == Keyword && toks[at].kind == TokenType.Identifier
      && n.name == toks[at].value
      && n.children[0] == Leaf(NodeKind.Identifier, if arr then toks[pos].value + "[]" else toks[pos].value)
      && (|n.children| == 2 <==> IsOperator(toks, at + 1, "="))
      && (|n.children| == 2 ==> (arr <==> n.children[1].kind == ArrayInitializer))
    decreases |toks| - pos, 0
  {
    var (varType, p1) :- Expect(toks, pos, Keyword);
    var isArray := IsPunct(toks, p1, "[");
    var (_, p2) :- if isArray then ExpectValue(toks, p1 + 1, Punctuation, "]") else Ok((varType, p1));
    var (name, p3) :- Expect(toks, p2, TokenType.Identifier);
    var typeNode := Leaf(NodeKind.Identifier, if isArray then varType.value + "[]" else varType.value);
    Declarator(toks, name.value, typeNode, isArray, p3)
  }

  /** The end of `ParseVariableDeclaration`, after the name: optionally `=`
      and an initializer (an array initializer for an array type), then `;`. */
  function Declarator(toks: seq<Token>, name: string, typeNode: Node, isArray: bool, pos: nat): (r: Parsed<Node>)
    requires pos <= |toks| && IsNameLeaf(typeNode)
    ensures r.Ok? ==> pos < r.value.1 <= |toks| && IsStatement(r.value.0)
    ensures r.Ok? ==> r.value.0.kind == NodeKind.VariableDeclaration && r.value.0.name == name
    ensures r.Ok? ==> r.value.0.children[0] == typeNode
    ensures r.Ok? ==> (|r.value.0.children| == 2 <==> IsOperator(toks, pos, "="))
    ensures r.Ok? && |r.value.0.children| == 2 ==> (isArray <==> r.value.0.children[1].kind == ArrayInitializer)
    decreases |toks| - pos, 0
  {
    if IsOperator(toks, pos, "=") then
      var (init, p1) :- if isArray then ParseArrayInitializer(toks, pos + 1) else Expr(toks, pos + 1, 0);
      var (_, p2) :- ExpectValue(toks, p1, Punctuation, ";");
      Ok((Node(NodeKind.VariableDeclaration, name, [typeNode, init]), p2))
    else
      var (_, p1) :- ExpectValue(toks, pos, Punctuation, ";");
      Ok((Node(NodeKind.VariableDeclaration, name, [typeNode]), p1))
  }

  /** `ParseArrayInitializer`: `{`, expressions each followed by `,` or by
      the `}`, and `}`. */
  function ParseArrayInitializer(toks: seq<Token>, pos: nat): (r: Parsed<Node>)
    ensures r.Ok? ==> pos < r.value.1 <= |toks| && IsInitializer(r.value.0)
  {
    var (_, p1) :- ExpectValue(toks, pos, Punctuation, "{");
    var (elems, p2) :- ExpressionList(toks, p1, "}", []);
    Ok((Node(NodeKind.ArrayInitializer, "ArrayInitializer", elems), p2))
  }

  /** The loop shared by `ParseArrayInitializer` and `ParseFunctionCall`:
      expressions until the closing punctuation `close`, which is consumed;
      after each expression comes `,` or `close`, else the error names both. */
  function ExpressionList(toks: seq<Token>, pos: nat, close: string, elems: seq<Node>): (r: Parsed<seq<Node>>)
    requires forall i :: 0 <= i < |elems| ==> IsExpression(elems[i])
    ensures r.Ok? ==> pos < r.value.1 <= |toks| && IsPunct(toks, r.value.1 - 1, close)
    ensures r.Ok? ==> forall i :: 0 <= i < |r.value.0| ==> IsExpression(r.value.0[i])
    decreases |toks| - pos
  {
    if IsPunct(toks, pos, close) then Ok((elems, pos + 1))
    else
      var (elem, next) :- Expr(toks, pos, 0);
      if IsPunct(toks, next, ",") then ExpressionList(toks, next + 1, close, elems + [elem])
      else if IsPunct(toks, next, close) then ExpressionList(toks, next, close, elems + [elem])
      else Err(Expected(Separator(close), PeekAt(toks, next)))
  }

  /** What a list expected after an element: `',' or ')'`, `',' or '}'`. */
  function Separator(close: string): Expectation
  {
    Alternatives("',' or '" + close + "'")
  }

  /** `ParseReturnStatement`: the keyword, an expression, `;`. */
  function ParseReturnStatement(toks: seq<Token>, pos: nat): (r: Parsed<Node>)
    ensures r.Ok? ==> pos < r.value.1 <= |toks| && IsStatement(r.value.0)
    ensures r.Ok? ==> r.value.0.kind == ReturnStatement
    decreases |toks| - pos, 0
  {
    var (_, p1) :- Expect(toks, pos, Keyword);
    var (value, p2) :- Expr(toks, p1, 0);
    var (_, p3) :- ExpectValue(toks, p2, Punctuation, ";");
    Ok((Node(ReturnStatement, "return", [value]), p3))
  }

  /** `ParseFunctionCall`: a name, `(`, arguments, `)`, `;`. */
  function ParseFunctionCall(toks: seq<Token>, pos: nat): (r: Parsed<Node>)
    ensures r.Ok? ==> pos < r.value.1 <= |toks| && IsStatement(r.value.0)
    ensures r.Ok? ==> r.value.0.kind == FunctionCall && r.value.0.name == toks[pos].value
    decreases |toks| - pos, 0
  {
    var (name, p1) :- Expect(toks, pos, TokenType.Identifier);
    var (_, p2) :- ExpectValue(toks, p1, Punctuation, "(");
    var (args, p3) :- ExpressionList(toks, p2, ")", []);
    var (_, p4) :- ExpectValue(toks, p3, Punctuation, ";");
    Ok((Node(FunctionCall, name.value, args), p4))
  }

  /** `ParseConditional`: `if`, `(`, the condition, `)`, the block, and
      after `else` either a further conditional or a block. */
  function ParseConditional(toks: seq<Token>, pos: nat): (r: Parsed<Node>)
    ensures r.Ok? ==> pos < r.value.1 <= |toks| && IsConditional(r.value.0)
    decreases |toks| - pos, 0
  {
    var (_, p1) :- ExpectValue(toks, pos, Keyword, "if");
    var (_, p2) :- ExpectValue(toks, p1, Punctuation, "(");
    var (cond, p3) :- Expr(toks, p2, 0);
    var (_, p4) :- ExpectValue(toks, p3, Punctuation, ")");
    var (body, p5) :- ParseBlock(toks, p4);
    ElsePart(toks, cond, body, p5)
  }

  /** The end of `ParseConditional`, after the block at `pos`: nothing, or
      `else` followed by a further conditional or by a block. */
  function ElsePart(toks: seq<Token>, cond: Node, body: Node, pos: nat): (r: Parsed<Node>)
    requires pos <= |toks| && IsExpression(cond) && IsBlock(body)
    ensures r.Ok? ==> pos <= r.value.1 <= |toks| && IsConditional(r.value.0)
    ensures r.Ok? ==> r.value.0.children[..2] == [cond, body]
    decreases |toks| - pos, 1
  {
    if IsKeyword(toks, pos, "else") then
      var (alt, next) :- if IsKeyword(toks, pos + 1, "if") then ParseConditional(toks, pos + 1) else ParseBlock(toks, pos + 1);
      Ok((Node(Statement, "if", [cond, body, alt]), next))
    else
      Ok((Node(Statement, "if", [cond, body]), pos))
  }

  /** `ParseAssignment`: a name, an Operator token, an expression, `;`. */
  function ParseAssignment(toks: seq<Token>, pos: nat): (r: Parsed<Node>)
    ensures r.Ok? ==> pos < r.value.1 <= |toks| && r.value.0.kind == NodeKind.Assignment
    ensures r.Ok? ==> PeekAt(toks, pos + 1).value in AssignmentOperators ==> IsStatement(r.value.0)
    decreases |toks| - pos, 0
  {
    var (name, p1) :- Expect(toks, pos, TokenType.Identifier);
    var (op, p2) :- Expect(toks, p1, Operator);
    var (value, p3) :- Expr(toks, p2, 0);
    var (_, p4) :- ExpectValue(toks, p3, Punctuation, ";");
    Ok((Node(NodeKind.Assignment, name.value, [Leaf(NodeKind.Identifier, op.value), value]), p4))
  }

  /** `ParseWhileStatement`: `while`, `(`, the condition, `)`, the body. */
  function ParseWhileStatement(toks: seq<Token>, pos: nat): (r: Parsed<Node>)
    ensures r.Ok? ==> pos < r.value.1 <= |toks| && IsStatement(r.value.0)
    ensures r.Ok? ==> r.value.0.kind == WhileStatement
    decreases |toks| - pos, 0
  {
    var (_, p1) :- ExpectValue(toks, pos, Keyword, "while");
    var (_, p2) :- ExpectValue(toks, p1, Punctuation, "(");
    var (cond, p3) :- Expr(toks, p2, 0);
    var (_, p4) :- ExpectValue(toks, p3, Punctuation, ")");
    var (body, p5) :- ParseBlock(toks, p4);
    Ok((Node(WhileStatement, "while", [cond, body]), p5))
  }

  /** `ParseControlFlow`: `continue` or `break`, named by its own text,
      then `;`. */
  function ParseControlFlow(toks: seq<Token>, pos: nat): (r: Parsed<Node>)
    ensures r.Ok? ==> pos < r.value.1 <= |toks| && r.value.0 == Leaf(Statement, toks[pos].value)
    decreases |toks| - pos, 0
  {
    var name := PeekAt(toks, pos).value;
    var (_, p1) :- ExpectValue(toks, pos + 1, Punctuation, ";");
    Ok((Node(Statement, name, []), p1))
  }

  // -----------------------------------------------------------------------
  // Properties

  /** The statement a token starts is determined by that token and, for a
      name, by whether `(` follows it: each rule builds its own kind of
      node, and only from its own first token. */
  lemma StatementKinds(toks: seq<Token>, pos: nat)
    requires pos < |toks| && ParseStatement(toks, pos).Ok?
    ensures var t, n := toks[pos], ParseStatement(toks, pos).value.0;
      && (n.kind == ReturnStatement <==> t.kind == Keyword && t.value == "return")
      && (n.kind == NodeKind.VariableDeclaration <==> t.kind == Keyword && t.value in VariableTypes)
      && (n.kind == WhileStatement <==> t.kind == Keyword && t.value == "while")
      && (n.kind == Statement <==> t.kind == Keyword && t.value in ["if", "continue", "break"])
      && (n.kind == Statement ==> n.name == t.value)
      && (n.kind == FunctionCall <==> t.kind == TokenType.Identifier && IsPunct(toks, pos + 1, "("))
      && (n.kind == NodeKind.Assignment <==> t.kind == TokenType.Identifier && !IsPunct(toks, pos + 1, "("))
  {
    var t := toks[pos];
    if t.kind == Keyword && t.value == "if" {
      assert IsConditional(ParseConditional(toks, pos).value.0);
    }
  }

  /** What no statement rule accepts: a keyword other than the eight that
      start statements (`else`, `void`, ...), a token that is neither a
      keyword nor a name, and a name followed by neither `(` nor an
      assignment operator (as in `x + 1;`). Each is an error at that first
      token. */
  lemma StatementRejects(toks: seq<Token>, pos: nat)
    requires pos < |toks|
    requires var t := toks[pos];
      || (t.kind == Keyword && t.value !in ["return", "int", "float", "char", "if", "while", "continue", "break"])
      || (t.kind != Keyword && t.kind != TokenType.Identifier)
      || (t.kind == TokenType.Identifier && !IsPunct(toks, pos + 1, "(")
          && PeekAt(toks, pos + 1).value !in AssignmentOperators)
    ensures ParseStatement(toks, pos) == Err(Unexpected(toks[pos]))
  {
  }

  /** The top level holds only directives and function declarations: any
      other token there is an error at that token. */
  lemma TopLevelRejects(toks: seq<Token>, pos: nat, items: seq<Node>)
    requires forall i :: 0 <= i < |items| ==> IsTopLevel(items[i])
    requires pos < |toks| && toks[pos].kind != Preprocessor
    requires !(toks[pos].kind == Keyword && toks[pos].value in ReturnTypes)
    ensures TopLevel(toks, pos, items) == Err(Unexpected(toks[pos]))
  {
  }

  /** The statements from `pos` parse one after another up to the end of
      the tokens, and none of them starts at a `}`. */
  predicate StatementsRunOut(toks: seq<Token>, pos: nat)
    decreases |toks| - pos
  {
    if pos >= |toks| then pos == |toks|
    else
      && !IsPunct(toks, pos, "}")
      && ParseStatement(toks, pos).Ok?
      && StatementsRunOut(toks, ParseStatement(toks, pos).value.1)
  }

  /** Running out of tokens inside a block is the end-of-input error: once
      the statements after `pos` reach the end of the tokens without a `}`,
      the statement loop fails with it, whatever was collected before. */
  lemma {:induction false} StatementsAtEnd(toks: seq<Token>, pos: nat, stmts: seq<Node>)
    requires forall i :: 0 <= i < |stmts| ==> IsStatement(stmts[i])
    requires StatementsRunOut(toks, pos)
    ensures StatementList(toks, pos, stmts) == Err(UnexpectedEnd)
    decreases |toks| - pos
  {
    if pos < |toks| {
      var (stmt, next) := ParseStatement(toks, pos).value;
      StatementsAtEnd(toks, next, stmts + [stmt]);
    }
  }

  /** The same for a whole block: a `{` whose statements run to the end of
      the tokens (as in `{ x = 1;`, or a `{` that is the last token) opens
      no block. */
  lemma BlockAtEnd(toks: seq<Token>, pos: nat)
    requires IsPunct(toks, pos, "{") && StatementsRunOut(toks, pos + 1)
    ensures ParseBlock(toks, pos) == Err(UnexpectedEnd)
  {
    StatementsAtEnd(toks, pos + 1, []);
  }

  /** A comma directly before `)` is accepted: `int a, )` is one parameter. */
  lemma TrailingParameterComma(toks: seq<Token>, pos: nat)
    requires pos + 3 < |toks| && toks[pos].kind == Keyword && toks[pos + 1].kind == TokenType.Identifier
    requires IsPunct(toks, pos + 2, ",") && IsPunct(toks, pos + 3, ")")
    ensures ParamList(toks, pos, [])
         == Ok(([Node(NodeKind.VariableDeclaration, toks[pos + 1].value, [Leaf(NodeKind.Identifier, toks[pos].value)])], pos + 3))
  {
    var param := Node(NodeKind.VariableDeclaration, toks[pos + 1].value, [Leaf(NodeKind.Identifier, toks[pos].value)]);
    assert [] + [param] == [param];
    assert ParamList(toks, pos + 3, [param]) == Ok(([param], pos + 3));
  }
}
