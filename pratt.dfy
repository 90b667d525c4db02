/** The expression parser of src/ast/pratt.go, as functions over the token
    sequence and a position: what `parseExpression` and its prefix and infix
    rules consume and build. The imperative parser in module Parser is proved
    to compute exactly these functions. */
module Pratt {
  import opened Wrappers
  import opened Tokens
  import opened AstNode

  /** Why parsing stopped. Every error of the Go parser prints a message and
      ends the process; here it is the value the parse returns. */
  datatype ParseError =
    | Unexpected(token: Token)
    | Expected(what: Expectation, token: Token)
    | UnexpectedEnd

  /** What an `ExpectedError` says was expected: a kind, a kind with a
      text, or a description of the alternatives. */
  datatype Expectation =
    | OfKind(kind: TokenType)
    | OfKindValue(kind: TokenType, value: string)
    | Alternatives(text: string)
  {
    /** The text the message shows: the kind's display name, then the text
        in parentheses for a kind with a text, as in `Punctuation(;)`. */
    function Describe(): string
    {
      match this
      case OfKind(k) => KindName(k)
      case OfKindValue(k, v) => KindName(k) + "(" + v + ")"
      case Alternatives(text) => text
    }
  }

  /** What a rule returns: what it built and the position after it. */
  type Parsed<T> = Result<(T, nat), ParseError>

  /** `peekToken`: the token at `pos`, or the zero token past the end. */
  function PeekAt(toks: seq<Token>, pos: nat): Token
  {
    if pos < |toks| then toks[pos] else ZeroToken
  }

  /** The token at `pos` is punctuation `v`. */
  predicate IsPunct(toks: seq<Token>, pos: nat, v: string)
  {
    PeekAt(toks, pos).kind == Punctuation && PeekAt(toks, pos).value == v
  }

  // -----------------------------------------------------------------------
  // Binding power

  /** The binding power of an operator text; 0 for every other text. */
  function OperatorPrecedence(op: string): (p: nat)
    ensures p <= 8
  {
    if op == "**" then 8
    else if op in ["*", "/", "%"] then 7
    else if op in ["+", "-"] then 6
    else if op in ["<", ">", "<=", ">="] then 5
    else if op in ["==", "!="] then 4
    else if op == "&&" then 3
    else if op == "||" then 2
    else if op in ["=", "+=", "-=", "*=", "/="] then 1
    else 0
  }

  /** `getPrecedence`: only an Operator token binds. */
  function Precedence(t: Token): (p: nat)
    ensures p <= 8
    ensures p > 0 ==> t.kind == Operator && OperatorPrecedence(t.value) == p
  {
    if t.kind == Operator then OperatorPrecedence(t.value) else 0
  }

  // -----------------------------------------------------------------------
  // The shape of what the expression parser builds

  /** A number or name leaf, a call whose arguments are expressions, or a
      binary node whose name is an operator that binds and whose two children
      are expressions. */
  predicate IsExpression(n: Node)
    decreases n
  {
    match n.kind
    case Literal => n.children == []
    case Identifier => n.children == []
    case FunctionCall => forall i :: 0 <= i < |n.children| ==> IsExpression(n.children[i])
    case BinaryExpression =>
      |n.children| == 2 && OperatorPrecedence(n.name) > 0
      && IsExpression(n.children[0]) && IsExpression(n.children[1])
    case _ => false
  }

  // -----------------------------------------------------------------------
  // The parser

  /** `parseExpression(precedence)`: a prefix rule chosen by the kind of the
      next token, then the infix loop. */
  function Expr(toks: seq<Token>, pos: nat, prec: nat): (r: Parsed<Node>)
    ensures r.Ok? ==> pos < r.value.1 <= |toks| && IsExpression(r.value.0)
    ensures r.Ok? ==> Precedence(PeekAt(toks, r.value.1)) <= prec
    decreases |toks| - pos, 2
  {
    var t := PeekAt(toks, pos);
    match t.kind
    case Number => Infix(toks, Leaf(Literal, t.value), pos + 1, prec)
    case Identifier =>
      var (left, next) :- IdentifierOrCall(toks, pos);
      Infix(toks, left, next, prec)
    case Punctuation =>
      var (left, next) :- Grouped(toks, pos);
      Infix(toks, left, next, prec)
    case _ => Err(Unexpected(t))
  }

  /** The infix loop: while the next token binds tighter than `prec`, it
      becomes a binary node whose right operand is parsed at the operator's
      own precedence. */
  function Infix(toks: seq<Token>, left: Node, pos: nat, prec: nat): (r: Parsed<Node>)
    requires pos <= |toks| && IsExpression(left)
    ensures r.Ok? ==> pos <= r.value.1 <= |toks| && IsExpression(r.value.0)
    ensures r.Ok? ==> Precedence(PeekAt(toks, r.value.1)) <= prec
    decreases |toks| - pos, 1
  {
    if prec < Precedence(PeekAt(toks, pos)) then
      var (node, next) :- InfixStep(toks, left, pos);
      Infix(toks, node, next, prec)
    else
      Ok((left, pos))
  }

  /** `parseInfixExpression`: the operator at `pos` is consumed and the
      right operand is parsed at the operator's precedence; the node joins
      `left` and the right operand under the operator's text. */
  function InfixStep(toks: seq<Token>, left: Node, pos: nat): (r: Parsed<Node>)
    requires pos <= |toks|
    ensures r.Ok? ==> pos < r.value.1 <= |toks|
    ensures r.Ok? ==> var n := r.value.0;
      n.kind == BinaryExpression && n.name == PeekAt(toks, pos).value
      && |n.children| == 2 && n.children[0] == left && IsExpression(n.children[1])
    decreases |toks| - pos, 0
  {
    var op := PeekAt(toks, pos);
    var (right, next) :- Expr(toks, pos + 1, Precedence(op));
    Ok((Node(BinaryExpression, op.value, [left, right]), next))
  }

  /** `parseIdentifier`: a name, or a call when `(` follows it. */
  function IdentifierOrCall(toks: seq<Token>, pos: nat): (r: Parsed<Node>)
    requires pos < |toks|
    ensures r.Ok? ==> pos < r.value.1 <= |toks| && IsExpression(r.value.0)
    decreases |toks| - pos, 1
  {
    var name := toks[pos].value;
    if IsPunct(toks, pos + 1, "(") then
      var (args, next) :- Arguments(toks, pos + 2, []);
      Ok((Node(FunctionCall, name, args), next))
    else
      Ok((Leaf(NodeKind.Identifier, name), pos + 1))
  }

  /** The argument loop of `parseIdentifier`: expressions up to `)`, each
      optionally followed by a comma; then the `)`. */
  function Arguments(toks: seq<Token>, pos: nat, args: seq<Node>): (r: Parsed<seq<Node>>)
    requires pos <= |toks|
    requires forall i :: 0 <= i < |args| ==> IsExpression(args[i])
    ensures r.Ok? ==> pos < r.value.1 <= |toks|
    ensures r.Ok? ==> forall i :: 0 <= i < |r.value.0| ==> IsExpression(r.value.0[i])
    decreases |toks| - pos, 3
  {
    if IsPunct(toks, pos, ")") then
      Ok((args, pos + 1))
    else
      var (arg, next) :- Expr(toks, pos, 0);
      var after := if IsPunct(toks, next, ",") then next + 1 else next;
      Arguments(toks, after, args + [arg])
  }

  /** `parseGroupedExpression`: the opening token is consumed whatever
      punctuation it is, then an expression, then `)` is required. */
  function Grouped(toks: seq<Token>, pos: nat): (r: Parsed<Node>)
    requires pos < |toks|
    ensures r.Ok? ==> pos < r.value.1 <= |toks| && IsExpression(r.value.0)
    decreases |toks| - pos, 1
  {
    var (inner, next) :- Expr(toks, pos + 1, 0);
    if IsPunct(toks, next, ")") then Ok((inner, next + 1))
    else Err(Unexpected(PeekAt(toks, next)))
  }

  // -----------------------------------------------------------------------
  // Properties

  /** A token kind without a prefix rule (an Operator such as a unary minus,
      a Keyword, a String, a Comment, Invalid, and so the end of input)
      cannot start an expression. */
  lemma NoPrefixRule(toks: seq<Token>, pos: nat, prec: nat)
    requires PeekAt(toks, pos).kind !in {Number, TokenType.Identifier, Punctuation}
    ensures Expr(toks, pos, prec) == Err(Unexpected(PeekAt(toks, pos)))
  {
  }

  /** A number, or a name that no `(` follows, at `i`. */
  predicate AtomAt(toks: seq<Token>, i: nat)
  {
    i < |toks|
    && (toks[i].kind == Number || (toks[i].kind == TokenType.Identifier && !IsPunct(toks, i + 1, "(")))
  }

  /** The leaf an atom becomes. */
  function AtomNode(t: Token): Node
  {
    Leaf(if t.kind == Number then Literal else NodeKind.Identifier, t.value)
  }

  /** An atom is consumed alone, and the infix loop continues after it. */
  lemma AtomStarts(toks: seq<Token>, i: nat, prec: nat)
    requires AtomAt(toks, i)
    ensures Expr(toks, i, prec) == Infix(toks, AtomNode(toks[i]), i + 1, prec)
  {
  }

  /** A binary operator that binds (precedence above zero) at `i`. */
  predicate BinaryAt(toks: seq<Token>, i: nat)
  {
    i < |toks| && Precedence(toks[i]) > 0
  }

  /** An operator token right after a binary operator is unexpected: the
      right operand must start with a prefix rule, and Operator tokens have
      none. Since the scanner splits `**` into two `*` tokens, `2 ** 3` fails
      at its second `*`. */
  lemma OperatorAfterOperator(toks: seq<Token>, pos: nat)
    requires AtomAt(toks, pos) && BinaryAt(toks, pos + 1)
    requires pos + 2 < |toks| && toks[pos + 2].kind == Operator
    ensures Expr(toks, pos, 0) == Err(Unexpected(toks[pos + 2]))
  {
    AtomStarts(toks, pos, 0);
    NoPrefixRule(toks, pos + 2, Precedence(toks[pos + 1]));
  }

  /** Three operands and two operators, followed by a token that does not
      bind (`)`, `;`, `,`, a keyword, the end of input, ...): when the first
      operator binds at least as tightly as the second, the first pair is
      grouped, so equal precedences nest to the left; when the second binds
      more tightly it is grouped first. */
  lemma ThreeOperands(toks: seq<Token>, pos: nat)
    requires AtomAt(toks, pos) && AtomAt(toks, pos + 2) && AtomAt(toks, pos + 4)
    requires BinaryAt(toks, pos + 1) && BinaryAt(toks, pos + 3)
    requires Precedence(PeekAt(toks, pos + 5)) == 0
    ensures var a, b, c := AtomNode(toks[pos]), AtomNode(toks[pos + 2]), AtomNode(toks[pos + 4]);
      var op1, op2 := toks[pos + 1], toks[pos + 3];
      Expr(toks, pos, 0) ==
        if Precedence(op1) >= Precedence(op2)
        then Ok((Node(BinaryExpression, op2.value, [Node(BinaryExpression, op1.value, [a, b]), c]), pos + 5))
        else Ok((Node(BinaryExpression, op1.value, [a, Node(BinaryExpression, op2.value, [b, c])]), pos + 5))
  {
    var a, b, c := AtomNode(toks[pos]), AtomNode(toks[pos + 2]), AtomNode(toks[pos + 4]);
    var op1, op2 := toks[pos + 1], toks[pos + 3];
    var p1, p2 := Precedence(op1), Precedence(op2);
    var mid: nat, end: nat := pos + 3, pos + 5;
    AtomStarts(toks, pos, 0);
    AtomStarts(toks, pos + 2, p1);
    AtomStarts(toks, pos + 4, p2);
    assert Expr(toks, pos + 4, p2) == Ok((c, end));
    if p1 >= p2 {
      assert Expr(toks, pos + 2, p1) == Ok((b, mid));
      var ab := Node(BinaryExpression, op1.value, [a, b]);
      assert Infix(toks, ab, pos + 3, 0)
        == Infix(toks, Node(BinaryExpression, op2.value, [ab, c]), pos + 5, 0);
    } else {
      var bc := Node(BinaryExpression, op2.value, [b, c]);
      assert Infix(toks, b, pos + 3, p1) == Infix(toks, bc, pos + 5, p1);
      assert Expr(toks, pos + 2, p1) == Ok((bc, end));
    }
  }

  /** A call is a name, `(`, arguments and `)`. */
  lemma CallStarts(toks: seq<Token>, pos: nat, prec: nat)
    requires pos < |toks| && toks[pos].kind == TokenType.Identifier && IsPunct(toks, pos + 1, "(")
    ensures var r := Expr(toks, pos, prec);
      var args := Arguments(toks, pos + 2, []);
      r.Ok? ==> args.Ok? && r == Infix(toks, Node(FunctionCall, toks[pos].value, args.value.0), args.value.1, prec)
  {
  }

  /** An atom followed by a token that does not bind is one argument; a
      comma after it is skipped. */
  lemma AtomArgument(toks: seq<Token>, pos: nat, args: seq<Node>)
    requires AtomAt(toks, pos) && Precedence(PeekAt(toks, pos + 1)) == 0
    requires forall i :: 0 <= i < |args| ==> IsExpression(args[i])
    ensures IsExpression(AtomNode(toks[pos]))
    ensures Arguments(toks, pos, args)
         == Arguments(toks, if IsPunct(toks, pos + 1, ",") then pos + 2 else pos + 1, args + [AtomNode(toks[pos])])
  {
    AtomStarts(toks, pos, 0);
  }

  /** Commas between arguments are optional: a name, `(`, two atoms and `)`
      is a call with two arguments, as in `f(a b)`. */
  lemma CommasAreOptional(toks: seq<Token>, pos: nat)
    requires pos + 4 < |toks| && toks[pos].kind == TokenType.Identifier && IsPunct(toks, pos + 1, "(")
    requires AtomAt(toks, pos + 2) && AtomAt(toks, pos + 3) && IsPunct(toks, pos + 4, ")")
    requires Precedence(PeekAt(toks, pos + 5)) == 0
    ensures Expr(toks, pos, 0)
         == Ok((Node(FunctionCall, toks[pos].value, [AtomNode(toks[pos + 2]), AtomNode(toks[pos + 3])]), pos + 5))
  {
    var a, b := AtomNode(toks[pos + 2]), AtomNode(toks[pos + 3]);
    AtomArgument(toks, pos + 2, []);
    AtomArgument(toks, pos + 3, [a]);
    assert [] + [a] == [a] && [a] + [b] == [a, b];
    assert Arguments(toks, pos + 4, [a, b]) == Ok(([a, b], pos + 5));
    CallExpression(toks, pos, [a, b], pos + 5);
  }

  /** A name, `(` and an argument list that the next token does not follow
      are a whole call expression. */
  lemma CallExpression(toks: seq<Token>, pos: nat, args: seq<Node>, end: nat)
    requires pos + 1 < |toks| && toks[pos].kind == TokenType.Identifier && IsPunct(toks, pos + 1, "(")
    requires Arguments(toks, pos + 2, []) == Ok((args, end)) && Precedence(PeekAt(toks, end)) == 0
    ensures Expr(toks, pos, 0) == Ok((Node(FunctionCall, toks[pos].value, args), end))
  {
    assert IdentifierOrCall(toks, pos) == Ok((Node(FunctionCall, toks[pos].value, args), end));
  }

  /** A comma may also follow the last argument: a name, `(`, an atom, `,`
      and `)` is a call with one argument, as in `f(a,)`. */
  lemma TrailingCommaAccepted(toks: seq<Token>, pos: nat)
    requires pos + 4 < |toks| && toks[pos].kind == TokenType.Identifier && IsPunct(toks, pos + 1, "(")
    requires AtomAt(toks, pos + 2) && IsPunct(toks, pos + 3, ",") && IsPunct(toks, pos + 4, ")")
    requires Precedence(PeekAt(toks, pos + 5)) == 0
    ensures Expr(toks, pos, 0) == Ok((Node(FunctionCall, toks[pos].value, [AtomNode(toks[pos + 2])]), pos + 5))
  {
    var a := AtomNode(toks[pos + 2]);
    AtomArgument(toks, pos + 2, []);
    assert [] + [a] == [a];
  }

  /** Any punctuation opens a group, which `)` closes: `[ 1 )` is the
      atom 1. */
  lemma AnyPunctuationOpensGroup(toks: seq<Token>, pos: nat)
    requires pos + 2 < |toks| && toks[pos].kind == Punctuation
    requires AtomAt(toks, pos + 1) && IsPunct(toks, pos + 2, ")")
    requires Precedence(PeekAt(toks, pos + 3)) == 0
    ensures Expr(toks, pos, 0) == Ok((AtomNode(toks[pos + 1]), pos + 3))
  {
    AtomStarts(toks, pos + 1, 0);
  }

  /** A group that `)` does not close is an error at the token found in
      its place, whatever opened it. */
  lemma GroupNeedsClose(toks: seq<Token>, pos: nat)
    requires pos + 1 < |toks| && toks[pos].kind == Punctuation && AtomAt(toks, pos + 1)
    requires Precedence(PeekAt(toks, pos + 2)) == 0 && !IsPunct(toks, pos + 2, ")")
    ensures Expr(toks, pos, 0) == Err(Unexpected(PeekAt(toks, pos + 2)))
  {
    AtomStarts(toks, pos + 1, 0);
  }
}
