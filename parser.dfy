/** The parser objects of src/ast/main.go and src/ast/pratt.go: a statement
    parser and an expression parser that share the token sequence, each with
    its own cursor, and refer to each other. Every rule is a method that
    advances the cursor, and each is proved to compute the function of
    module Grammar or Pratt that defines it: the same tree or the same error,
    and on success the cursor where that function ends. */
module Parser {
  import opened Wrappers
  import opened Tokens
  import opened AstNode
  import opened Pratt
  import G = Grammar

  /** A rule's outcome `r`, with the cursor at `cursor` after it, is what the
      defining function `spec` says: the same node and end position, or the
      same error. */
  ghost predicate Agrees<T>(r: Result<T, ParseError>, spec: Parsed<T>, cursor: nat)
  {
    if spec.Ok? then r == Ok(spec.value.0) && cursor == spec.value.1
    else r == Err(spec.error)
  }

  /** `PrattParser`: the expression parser. Its prefix table holds the rules
      for Number, Identifier and Punctuation tokens and its infix table the
      rule for Operator tokens (`registerParseFns`); the methods below
      dispatch on those kinds. */
  class PrattParser {
    var parser: Parser?
    const tokens: seq<Token>
    var current: nat

    /** `NewPrattParser`: at the first token, not yet linked to a parser. */
    constructor (tokens: seq<Token>)
      ensures this.tokens == tokens && current == 0 && parser == null
    {
      this.tokens := tokens;
      current := 0;
      parser := null;
    }

    /** `peekToken`: the token at the cursor, or the zero token past the
        end. */
    function peekToken(): Token
      reads this
    {
      PeekAt(tokens, current)
    }

    /** `peekPrecedence`: the binding power of the token at the cursor; past
        the end it is 0, the binding power of the zero token. */
    function peekPrecedence(): (p: nat)
      reads this
      ensures p == Precedence(peekToken())
    {
      if current >= |tokens| then 0 else Precedence(tokens[current])
    }

    /** `consumeToken`: the token at the cursor; the cursor moves on. */
    method consumeToken() returns (t: Token)
      modifies this`current
      ensures t == old(peekToken()) && current == old(current) + 1
    {
      t := peekToken();
      current := current + 1;
    }

    /** `expectToken`: the token at the cursor must be `kind` with text
        `value`, else the parse fails at that token; it is consumed. */
    method expectToken(kind: TokenType, value: string) returns (r: Result<Token, ParseError>)
      modifies this`current
      ensures var t := old(peekToken());
        if t.kind == kind && t.value == value then r == Ok(t) && current == old(current) + 1
        else r == Err(Unexpected(t))
    {
      var t := peekToken();
      if t.kind != kind || t.value != value {
        return Err(Unexpected(t));
      }
      t := consumeToken();
      return Ok(t);
    }

    /** `Parse`: an expression from the statement parser's cursor, whose
        cursor then moves to where the expression ends. */
    method Parse() returns (r: Result<Node, ParseError>)
      requires parser != null && parser.tokens == tokens
      modifies this`current, parser`current
      ensures Agrees(r, Expr(tokens, old(parser.current), 0), parser.current)
      ensures current == parser.current
    {
      current := parser.current;
      r := parseExpression(0);
      parser.current := current;
    }

    /** `parseExpression`: a prefix rule chosen by the kind of the token at
        the cursor, then the infix rule while the next token binds tighter
        than `precedence`. */
    method parseExpression(precedence: nat) returns (r: Result<Node, ParseError>)
      modifies this`current
      ensures Agrees(r, Expr(tokens, old(current), precedence), current)
      decreases |tokens| - current, 2
    {
      var t := peekToken();
      var left: Node;
      ghost var start := current;
      if t.kind == Number {
        left := parseNumberLiteral();
      } else if t.kind == TokenType.Identifier {
        left :- parseIdentifier();
      } else if t.kind == Punctuation {
        left :- parseGroupedExpression();
      } else {
        return Err(Unexpected(t));
      }
      ghost var spec := Expr(tokens, start, precedence);
      assert Infix(tokens, left, current, precedence) == spec;
      while precedence < peekPrecedence()
        invariant old(current) < current <= |tokens| && IsExpression(left)
        invariant Infix(tokens, left, current, precedence) == spec
        decreases |tokens| - current
      {
        left :- parseInfixExpression(left);
      }
      return Ok(left);
    }

    /** `parseNumberLiteral`: a Literal leaf holding the number's text. */
    method parseNumberLiteral() returns (n: Node)
      requires peekToken().kind == Number
      modifies this`current
      ensures n == Leaf(Literal, old(peekToken()).value) && current == old(current) + 1
    {
      var token := consumeToken();
      n := Leaf(Literal, token.value);
    }

    /** `parseIdentifier`: a name, or a call when `(` follows it, whose
        arguments are expressions up to `)`, each optionally followed by a
        comma. */
    method parseIdentifier() returns (r: Result<Node, ParseError>)
      requires peekToken().kind == TokenType.Identifier
      modifies this`current
      ensures Agrees(r, IdentifierOrCall(tokens, old(current)), current)
      decreases |tokens| - current, 1
    {
      var token := consumeToken();
      if peekToken().kind == Punctuation && peekToken().value == "(" {
        var open := consumeToken();
        var args: seq<Node> := [];
        ghost var spec := Arguments(tokens, current, args);
        while !(peekToken().kind == Punctuation && peekToken().value == ")")
          invariant old(current) + 2 <= current <= |tokens|
          invariant forall i :: 0 <= i < |args| ==> IsExpression(args[i])
          invariant Arguments(tokens, current, args) == spec
          decreases |tokens| - current
        {
          var arg :- parseExpression(0);
          args := args + [arg];
          if peekToken().kind == Punctuation && peekToken().value == "," {
            var comma := consumeToken();
          }
        }
        // The loop stops only at `)`, so expecting it cannot fail.
        var close := consumeToken();
        return Ok(Node(FunctionCall, token.value, args));
      }
      return Ok(Leaf(NodeKind.Identifier, token.value));
    }

    /** `parseGroupedExpression`: the opening punctuation, whatever it is, an
        expression, and `)`. */
    method parseGroupedExpression() returns (r: Result<Node, ParseError>)
      requires peekToken().kind == Punctuation
      modifies this`current
      ensures Agrees(r, Grouped(tokens, old(current)), current)
      decreases |tokens| - current, 1
    {
      var open := consumeToken();
      var exp :- parseExpression(0);
      var close :- expectToken(Punctuation, ")");
      return Ok(exp);
    }

    /** `parseInfixExpression`: the operator, and the right operand parsed at
        the operator's precedence, joined to `left`. */
    method parseInfixExpression(left: Node) returns (r: Result<Node, ParseError>)
      requires current <= |tokens|
      modifies this`current
      ensures Agrees(r, InfixStep(tokens, left, old(current)), current)
      decreases |tokens| - current, 0
    {
      var token := consumeToken();
      var precedence := Precedence(token);
      var right :- parseExpression(precedence);
      return Ok(Node(BinaryExpression, token.value, [left, right]));
    }
  }

  /** `Parser`: the statement parser. */
  class Parser {
    const tokens: seq<Token>
    var current: nat
    const pratt: PrattParser

    /** The two parsers share the tokens and refer to each other, and the
        cursor is within the tokens. */
    ghost predicate Valid()
      reads this, pratt
    {
      pratt.parser == this && pratt.tokens == tokens && current <= |tokens|
    }

    /** `NewParser`: at the first token, with its expression parser linked
        back to it. */
    constructor (tokens: seq<Token>)
      ensures Valid() && this.tokens == tokens && current == 0
    {
      this.tokens := tokens;
      current := 0;
      pratt := new PrattParser(tokens);
      new;
      pratt.parser := this;
    }

    /** `Peek`: the token at the cursor, or the zero token past the end. */
    function Peek(): Token
      reads this
    {
      PeekAt(tokens, current)
    }

    /** `PeekNext`: the token after it, likewise. */
    function PeekNext(): Token
      reads this
    {
      PeekAt(tokens, current + 1)
    }

    /** `Match`: the token at the cursor has kind `k`. */
    predicate Match(k: TokenType)
      reads this
    {
      Peek().kind == k
    }

    /** `MatchValue`: it has kind `k` and text `v`. */
    predicate MatchValue(k: TokenType, v: string)
      reads this
    {
      Peek().kind == k && Peek().value == v
    }

    /** `Consume`: the token at the cursor; the cursor moves on. */
    method Consume() returns (t: Token)
      modifies this`current
      ensures t == old(Peek()) && current == old(current) + 1
    {
      t := Peek();
      current := current + 1;
    }

    /** `Expect`: the consumed token must have kind `k`. */
    method Expect(k: TokenType) returns (r: Result<Token, ParseError>)
      modifies this`current
      ensures Agrees(r, G.Expect(tokens, old(current), k), current)
    {
      var t := Consume();
      if t.kind != k {
        return Err(Expected(OfKind(k), t));
      }
      return Ok(t);
    }

    /** `ExpectValue`: the consumed token must have kind `k` and text `v`. */
    method ExpectValue(k: TokenType, v: string) returns (r: Result<Token, ParseError>)
      modifies this`current
      ensures Agrees(r, G.ExpectValue(tokens, old(current), k, v), current)
    {
      var t := Consume();
      if t.kind != k || t.value != v {
        return Err(Expected(OfKindValue(k, v), t));
      }
      return Ok(t);
    }

    /** `ParseExpression`: the expression parser takes over from the cursor
        and hands it back. */
    method ParseExpression() returns (r: Result<Node, ParseError>)
      requires Valid()
      modifies this`current, pratt`current
      ensures Agrees(r, Expr(tokens, old(current), 0), current)
    {
      r := pratt.Parse();
    }

    // ---------------------------------------------------------------------
    // The top level

    /** `Parse`: top-level items until the tokens run out. */
    method Parse() returns (r: Result<Node, ParseError>)
      requires Valid()
      modifies this`current, pratt`current
      ensures r == G.ParseProgram(tokens, old(current))
    {
      var children: seq<Node> := [];
      ghost var spec := G.TopLevel(tokens, current, children);
      while current < |tokens|
        invariant Valid() && forall i :: 0 <= i < |children| ==> G.IsTopLevel(children[i])
        invariant G.TopLevel(tokens, current, children) == spec
        decreases |tokens| - current
      {
        var item :- ParseTopLevelItem();
        children := children + [item];
      }
      return Ok(Node(NodeKind.Program, "Program", children));
    }

    /** The body of the loop of `Parse`: a directive, a function declaration
        or an error, chosen by the token at the cursor. */
    method ParseTopLevelItem() returns (r: Result<Node, ParseError>)
      requires Valid() && current < |tokens|
      modifies this`current, pratt`current
      ensures Agrees(r, G.TopLevelItem(tokens, old(current)), current)
    {
      var token := Peek();
      if token.kind == Preprocessor {
        r := ParsePreprocessorDirective();
      } else if token.kind == Keyword && token.value in G.ReturnTypes {
        r := ParseFunctionDeclaration();
      } else {
        r := Err(Unexpected(token));
      }
    }

    /** `ParsePreprocessorDirective`: the directive, its subject and an
        optional Number or String value. */
    method ParsePreprocessorDirective() returns (r: Result<Node, ParseError>)
      requires Valid()
      modifies this`current
      ensures Agrees(r, G.ParsePreprocessorDirective(tokens, old(current)), current)
    {
      var directive :- Expect(Preprocessor);
      var subject :- Expect(TokenType.Identifier);
      var head := Leaf(NodeKind.Identifier, subject.value);
      // After a successful Match, the Expect of the same kind cannot fail.
      if Match(Number) || Match(String) {
        var value := Consume();
        return Ok(Node(PreprocessorDirective, directive.value, [head, Leaf(Literal, value.value)]));
      }
      return Ok(Node(PreprocessorDirective, directive.value, [head]));
    }

    /** `ParseFunctionDeclaration`: return type, name, `(`, parameters, `)`,
        body. */
    method ParseFunctionDeclaration() returns (r: Result<Node, ParseError>)
      requires Valid()
      modifies this`current, pratt`current
      ensures Agrees(r, G.ParseFunctionDeclaration(tokens, old(current)), current)
    {
      var returnType :- Expect(Keyword);
      var name :- Expect(TokenType.Identifier);
      var open :- ExpectValue(Punctuation, "(");
      r := ParametersAndBody(returnType.value, name.value);
    }

    /** The end of `ParseFunctionDeclaration`, after its `(`: the
        parameters, `)` and the body. */
    method ParametersAndBody(returnType: string, name: string) returns (r: Result<Node, ParseError>)
      requires Valid()
      modifies this`current, pratt`current
      ensures Agrees(r, G.ParametersAndBody(tokens, returnType, name, old(current)), current)
    {
      ghost var start := current;
      var params :- ParseParameters();
      // The parameter loop stops only at `)`, so expecting it cannot fail.
      var close := Consume();
      ghost var p1 := current;
      var body :- ParseBlock();
      var decl := Node(FunctionDeclaration, name, [Leaf(NodeKind.Identifier, returnType), params, body]);
      assert G.ParseBlock(tokens, p1) == Ok((body, current));
      assert G.ParametersAndBody(tokens, returnType, name, start) == Ok((decl, current));
      return Ok(decl);
    }

    /** `ParseParameters`: up to `)`, which is left in place, each parameter
        is a keyword (its type) and a name, followed by `,` or by the `)`. */
    method ParseParameters() returns (r: Result<Node, ParseError>)
      requires Valid()
      modifies this`current
      ensures Agrees(r, G.ParseParameters(tokens, old(current)), current)
    {
      var params: seq<Node> := [];
      ghost var spec := G.ParamList(tokens, current, params);
      while !MatchValue(Punctuation, ")")
        invariant Valid() && forall i :: 0 <= i < |params| ==> G.IsParameter(params[i])
        invariant G.ParamList(tokens, current, params) == spec
        decreases |tokens| - current
      {
        if Match(Keyword) {
          var paramType := Consume();
          var paramName :- Expect(TokenType.Identifier);
          var param := Node(VariableDeclaration, paramName.value, [Leaf(NodeKind.Identifier, paramType.value)]);
          params := params + [param];
          if MatchValue(Punctuation, ",") {
            var comma := Consume();
          } else if !MatchValue(Punctuation, ")") {
            return Err(Expected(G.Separator(")"), Peek()));
          }
        } else {
          return Err(Expected(Alternatives("parameter type or ')'"), Peek()));
        }
      }
      return Ok(Node(Parameters, "Parameters", params));
    }

    // ---------------------------------------------------------------------
    // Blocks and statements

    /** `ParseBlock`: `{`, statements until `}`, `}`; running out of tokens
        first is an error. */
    method ParseBlock() returns (r: Result<Node, ParseError>)
      requires Valid()
      modifies this`current, pratt`current
      ensures Agrees(r, G.ParseBlock(tokens, old(current)), current)
      decreases |tokens| - current, 0
    {
      var open :- ExpectValue(Punctuation, "{");
      var stmts: seq<Node> := [];
      ghost var spec := G.StatementList(tokens, current, stmts);
      while !MatchValue(Punctuation, "}")
        invariant Valid() && old(current) < current
        invariant forall i :: 0 <= i < |stmts| ==> G.IsStatement(stmts[i])
        invariant G.StatementList(tokens, current, stmts) == spec
        decreases |tokens| - current
      {
        if current >= |tokens| {
          return Err(UnexpectedEnd);
        }
        var stmt :- ParseStatement();
        stmts := stmts + [stmt];
      }
      // The loop stops only at `}`, so expecting it cannot fail.
      var close := Consume();
      return Ok(Node(Block, "Block", stmts));
    }

    /** `ParseStatement`: the rule chosen by the first token and, for a
        name, by the token after it. */
    method ParseStatement() returns (r: Result<Node, ParseError>)
      requires Valid()
      modifies this`current, pratt`current
      ensures Agrees(r, G.ParseStatement(tokens, old(current)), current)
      decreases |tokens| - current, 1
    {
      if Match(Keyword) {
        var word := Peek().value;
        if word == "return" {
          r := ParseReturnStatement();
        } else if word in G.VariableTypes {
          r := ParseVariableDeclaration();
        } else if word == "if" {
          r := ParseConditional();
        } else if word == "while" {
          r := ParseWhileStatement();
        } else if word in ["continue", "break"] {
          r := ParseControlFlow();
        } else {
          r := Err(Unexpected(Peek()));
        }
        return;
      }
      if Match(TokenType.Identifier) && PeekNext().value == "(" && PeekNext().kind == Punctuation {
        r := ParseFunctionCall();
        return;
      }
      if Match(TokenType.Identifier) {
        var i := 0;
        while i < |G.AssignmentOperators|
          invariant 0 <= i <= |G.AssignmentOperators|
          invariant PeekNext().value !in G.AssignmentOperators[..i]
        {
          if PeekNext().value == G.AssignmentOperators[i] {
            r := ParseAssignment();
            return;
          }
          i := i + 1;
        }
      }
      return Err(Unexpected(Peek()));
    }

    /** `ParseVariableDeclaration`: a type keyword, optionally `[` `]`, a
        name, optionally `=` and an initializer, and `;`. */
    method ParseVariableDeclaration() returns (r: Result<Node, ParseError>)
      requires Valid()
      modifies this`current, pratt`current
      ensures Agrees(r, G.ParseVariableDeclaration(tokens, old(current)), current)
    {
      var varType :- Expect(Keyword);
      var arrayType := false;
      if MatchValue(Punctuation, "[") {
        var open := Consume();
        var close :- ExpectValue(Punctuation, "]");
        arrayType := true;
      }
      var name :- Expect(TokenType.Identifier);
      var typeNode := Leaf(NodeKind.Identifier, varType.value);
      if arrayType {
        typeNode := typeNode.(name := typeNode.name + "[]");
      }
      r := Declarator(name.value, typeNode, arrayType);
    }

    /** The end of `ParseVariableDeclaration`, after the name: optionally `=`
        and an initializer, an array initializer for an array type, then `;`. */
    method Declarator(name: string, typeNode: Node, isArray: bool) returns (r: Result<Node, ParseError>)
      requires Valid() && G.IsNameLeaf(typeNode)
      modifies this`current, pratt`current
      ensures Agrees(r, G.Declarator(tokens, name, typeNode, isArray, old(current)), current)
    {
      if MatchValue(Operator, "=") {
        var assign := Consume();
        var init: Node;
        if isArray {
          init :- ParseArrayInitializer();
        } else {
          init :- ParseExpression();
        }
        var semicolon :- ExpectValue(Punctuation, ";");
        return Ok(Node(VariableDeclaration, name, [typeNode, init]));
      }
      var semicolon :- ExpectValue(Punctuation, ";");
      return Ok(Node(VariableDeclaration, name, [typeNode]));
    }

    /** `ParseArrayInitializer`: `{`, expressions each followed by `,` or by
        the `}`, and `}`. */
    method ParseArrayInitializer() returns (r: Result<Node, ParseError>)
      requires Valid()
      modifies this`current, pratt`current
      ensures Agrees(r, G.ParseArrayInitializer(tokens, old(current)), current)
    {
      var open :- ExpectValue(Punctuation, "{");
      var elems :- ParseExpressionList("}");
      return Ok(Node(ArrayInitializer, "ArrayInitializer", elems));
    }

    /** The loop of `ParseArrayInitializer` and of `ParseFunctionCall`:
        expressions, each followed by `,` or by `close`, up to `close`,
        which is consumed. */
    method ParseExpressionList(close: string) returns (r: Result<seq<Node>, ParseError>)
      requires Valid()
      modifies this`current, pratt`current
      ensures Agrees(r, G.ExpressionList(tokens, old(current), close, []), current)
    {
      var elems: seq<Node> := [];
      ghost var spec := G.ExpressionList(tokens, current, close, elems);
      while !MatchValue(Punctuation, close)
        invariant Valid() && forall i :: 0 <= i < |elems| ==> IsExpression(elems[i])
        invariant G.ExpressionList(tokens, current, close, elems) == spec
        decreases |tokens| - current
      {
        var elem :- ParseExpression();
        elems := elems + [elem];
        if MatchValue(Punctuation, ",") {
          var comma := Consume();
        } else if !MatchValue(Punctuation, close) {
          return Err(Expected(G.Separator(close), Peek()));
        }
      }
      // The loop stops only at `close`, so expecting it cannot fail.
      var closing := Consume();
      return Ok(elems);
    }

    /** `ParseReturnStatement`: the keyword, an expression, `;`. */
    method ParseReturnStatement() returns (r: Result<Node, ParseError>)
      requires Valid()
      modifies this`current, pratt`current
      ensures Agrees(r, G.ParseReturnStatement(tokens, old(current)), current)
    {
      var keyword :- Expect(Keyword);
      var value :- ParseExpression();
      var semicolon :- ExpectValue(Punctuation, ";");
      return Ok(Node(ReturnStatement, "return", [value]));
    }

    /** `ParseFunctionCall`: a name, `(`, arguments each followed by `,` or
        by the `)`, `)`, `;`. */
    method ParseFunctionCall() returns (r: Result<Node, ParseError>)
      requires Valid()
      modifies this`current, pratt`current
      ensures Agrees(r, G.ParseFunctionCall(tokens, old(current)), current)
    {
      var name :- Expect(TokenType.Identifier);
      var open :- ExpectValue(Punctuation, "(");
      var args :- ParseExpressionList(")");
      var semicolon :- ExpectValue(Punctuation, ";");
      return Ok(Node(FunctionCall, name.value, args));
    }

    /** `ParseConditional`: `if`, `(`, the condition, `)`, the block, and
        after `else` either a further conditional or a block. */
    method ParseConditional() returns (r: Result<Node, ParseError>)
      requires Valid()
      modifies this`current, pratt`current
      ensures Agrees(r, G.ParseConditional(tokens, old(current)), current)
      decreases |tokens| - current, 0
    {
      var keyword :- ExpectValue(Keyword, "if");
      var open :- ExpectValue(Punctuation, "(");
      var cond :- ParseExpression();
      var close :- ExpectValue(Punctuation, ")");
      var body :- ParseBlock();
      r := ElsePart(cond, body);
    }

    /** The end of `ParseConditional`, after its block: nothing, or `else`
        and a further conditional or a block. */
    method ElsePart(cond: Node, body: Node) returns (r: Result<Node, ParseError>)
      requires Valid() && IsExpression(cond) && G.IsBlock(body)
      modifies this`current, pratt`current
      ensures Agrees(r, G.ElsePart(tokens, cond, body, old(current)), current)
      decreases |tokens| - current, 1
    {
      if MatchValue(Keyword, "else") {
        var otherwise := Consume();
        var alt: Node;
        if MatchValue(Keyword, "if") {
          alt :- ParseConditional();
        } else {
          alt :- ParseBlock();
        }
        return Ok(Node(Statement, "if", [cond, body, alt]));
      }
      return Ok(Node(Statement, "if", [cond, body]));
    }

    /** `ParseAssignment`: a name, an Operator token, an expression, `;`. */
    method ParseAssignment() returns (r: Result<Node, ParseError>)
      requires Valid()
      modifies this`current, pratt`current
      ensures Agrees(r, G.ParseAssignment(tokens, old(current)), current)
    {
      var name :- Expect(TokenType.Identifier);
      var op :- Expect(Operator);
      var value :- ParseExpression();
      var semicolon :- ExpectValue(Punctuation, ";");
      return Ok(Node(Assignment, name.value, [Leaf(NodeKind.Identifier, op.value), value]));
    }

    /** `ParseWhileStatement`: `while`, `(`, the condition, `)`, the body. */
    method ParseWhileStatement() returns (r: Result<Node, ParseError>)
      requires Valid()
      modifies this`current, pratt`current
      ensures Agrees(r, G.ParseWhileStatement(tokens, old(current)), current)
      decreases |tokens| - current, 0
    {
      var keyword :- ExpectValue(Keyword, "while");
      var open :- ExpectValue(Punctuation, "(");
      var cond :- ParseExpression();
      var close :- ExpectValue(Punctuation, ")");
      var body :- ParseBlock();
      return Ok(Node(WhileStatement, "while", [cond, body]));
    }

    /** `ParseControlFlow`: `continue` or `break`, named by its own text,
        then `;`. */
    method ParseControlFlow() returns (r: Result<Node, ParseError>)
      requires Valid()
      modifies this`current
      ensures Agrees(r, G.ParseControlFlow(tokens, old(current)), current)
    {
      var name := Peek().value;
      var keyword := Consume();
      var semicolon :- ExpectValue(Punctuation, ";");
      return Ok(Leaf(Statement, name));
    }
  }
}
