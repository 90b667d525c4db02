/** The syntax tree of the parser: node kinds, their display names, the
    uniform node record and its two renderings (src/ast/ASTNode.go and the
    kind enumeration of src/ast/main.go). */
module AstNode {

  /** Node kinds, in the order of the Go `iota` enumeration. */
  datatype NodeKind =
    | Invalid
    | Program
    | PreprocessorDirective
    | Block
    | Statement
    | Expression
    | Assignment
    | ReturnStatement
    | FunctionDeclaration
    | VariableDeclaration
    | ClassDeclaration
    | ConstructorDeclaration
    | ArrayInitializer
    | Parameters
    | WhileStatement
    | BinaryExpression
    | UnaryExpression
    | PostfixExpression
    | ArrayAccess
    | MemberAccess
    | MacroExpansion
    | Literal
    | Identifier
    | FunctionCall

  /** The number the enumeration gives a kind. */
  function NodeOrdinal(k: NodeKind): (n: nat)
    ensures n < 24
  {
    match k
    case Invalid => 0
    case Program => 1
    case PreprocessorDirective => 2
    case Block => 3
    case Statement => 4
    case Expression => 5
    case Assignment => 6
    case ReturnStatement => 7
    case FunctionDeclaration => 8
    case VariableDeclaration => 9
    case ClassDeclaration => 10
    case ConstructorDeclaration => 11
    case ArrayInitializer => 12
    case Parameters => 13
    case WhileStatement => 14
    case BinaryExpression => 15
    case UnaryExpression => 16
    case PostfixExpression => 17
    case ArrayAccess => 18
    case MemberAccess => 19
    case MacroExpansion => 20
    case Literal => 21
    case Identifier => 22
    case FunctionCall => 23
  }

  /** `ASTNodeTypeNames`, indexed by the number of the kind: each kind is
      displayed under its own name. */
  const NodeKindNames: seq<string> :=
    ["Invalid", "Program", "PreprocessorDirective", "Block",
     "Statement", "Expression", "Assignment", "ReturnStatement",
     "FunctionDeclaration", "VariableDeclaration", "ClassDeclaration", "ConstructorDeclaration",
     "ArrayInitializer", "Parameters", "WhileStatement", "BinaryExpression",
     "UnaryExpression", "PostfixExpression", "ArrayAccess", "MemberAccess",
     "MacroExpansion", "Literal", "Identifier", "FunctionCall"]

  /** Text made of ASCII letters and the six characters between `Z` and `a`:
      no brace, no parenthesis, no white space. */
  predicate Plain(s: string)
  {
    forall j :: 0 <= j < |s| ==> 'A' <= s[j] <= 'z'
  }

  /** Every display name is plain text. */
  lemma NamesPlain(i: nat)
    requires i < |NodeKindNames|
    ensures Plain(NodeKindNames[i])
  {
    if i < 4 { NamesPlain0(i); }
    else if i < 8 { NamesPlain4(i); }
    else if i < 10 { NamesPlain8(i); }
    else if i < 12 { NamesPlain10(i); }
    else if i < 16 { NamesPlain12(i); }
    else if i < 20 { NamesPlain16(i); }
    else { NamesPlain20(i); }
  }

  lemma NamesPlain0(i: nat) requires i < 4 ensures Plain(NodeKindNames[i]) { }
  lemma NamesPlain4(i: nat) requires 4 <= i < 8 ensures Plain(NodeKindNames[i]) { }
  lemma NamesPlain8(i: nat) requires 8 <= i < 10 ensures Plain(NodeKindNames[i]) { }
  lemma NamesPlain10(i: nat) requires 10 <= i < 12 ensures Plain(NodeKindNames[i]) { }
  lemma NamesPlain12(i: nat) requires 12 <= i < 16 ensures Plain(NodeKindNames[i]) { }
  lemma NamesPlain16(i: nat) requires 16 <= i < 20 ensures Plain(NodeKindNames[i]) { }
  lemma NamesPlain20(i: nat) requires 20 <= i < 24 ensures Plain(NodeKindNames[i]) { }

  /** The display name of a kind; it is plain text, so it holds no brace and
      no newline. */
  function NodeKindName(k: NodeKind): (name: string)
    ensures Plain(name)
  {
    NamesPlain(NodeOrdinal(k));
    NodeKindNames[NodeOrdinal(k)]
  }

  /** `ASTNode`: a kind, a name and ordered children whose positions carry
      meaning for each kind. */
  datatype Node = Node(kind: NodeKind, name: string, children: seq<Node>)

  /** A node without children. */
  function Leaf(kind: NodeKind, name: string): Node
  {
    Node(kind, name, [])
  }

  /** `KindName(name)`, the first part of both renderings. */
  function Header(n: Node): string
  {
    NodeKindName(n.kind) + "(" + n.name + ")"
  }

  // -----------------------------------------------------------------------
  // `String`: the one-line rendering.

  function Render(n: Node): string
    decreases n, 1
  {
    Header(n) + (if |n.children| > 0 then " {" + RenderChildren(n.children) + " }" else "")
  }

  /** Each child preceded by one space, in order. */
  function RenderChildren(cs: seq<Node>): string
    decreases cs, 0
  {
    if cs == [] then "" else " " + Render(cs[0]) + RenderChildren(cs[1..])
  }

  // -----------------------------------------------------------------------
  // `StringIndented`: one child per line.

  /** `indent` repetitions of four spaces; none for a level below one. */
  function Indent(level: int): string
    decreases if level < 0 then 0 else level
  {
    if level <= 0 then "" else "    " + Indent(level - 1)
  }

  function RenderIndented(n: Node, level: int): string
    decreases n, 1
  {
    Header(n)
    + (if |n.children| > 0
       then " {\n" + RenderIndentedChildren(n.children, level) + Indent(level) + "}"
       else "")
  }

  /** Each child on its own line, indented one level deeper than its parent
      and rendered at that level. */
  function RenderIndentedChildren(cs: seq<Node>, level: int): string
    decreases cs, 0
  {
    if cs == [] then ""
    else Indent(level + 1) + RenderIndented(cs[0], level + 1) + "\n"
         + RenderIndentedChildren(cs[1..], level)
  }

  // -----------------------------------------------------------------------
  // Counting nodes

  /** The number of nodes of the tree. */
  function Size(n: Node): nat
    decreases n, 1
  {
    1 + SizeAll(n.children)
  }

  function SizeAll(cs: seq<Node>): nat
    decreases cs, 0
  {
    if cs == [] then 0 else Size(cs[0]) + SizeAll(cs[1..])
  }

  /** The number of nodes of the tree that have children. */
  function Inner(n: Node): nat
    decreases n, 1
  {
    (if |n.children| > 0 then 1 else 0) + InnerAll(n.children)
  }

  function InnerAll(cs: seq<Node>): nat
    decreases cs, 0
  {
    if cs == [] then 0 else Inner(cs[0]) + InnerAll(cs[1..])
  }

  /** No name in the tree contains `c`. */
  predicate NameFree(n: Node, c: char)
    decreases n, 1
  {
    c !in n.name && NamesFree(n.children, c)
  }

  predicate NamesFree(cs: seq<Node>, c: char)
    decreases cs, 0
  {
    cs == [] || (NameFree(cs[0], c) && NamesFree(cs[1..], c))
  }

  /** How often `c` occurs in `s`. */
  function Count(s: string, c: char): nat
  {
    if s == [] then 0 else (if s[0] == c then 1 else 0) + Count(s[1..], c)
  }

  lemma {:induction false} CountConcat(a: string, b: string, c: char)
    ensures Count(a + b, c) == Count(a, c) + Count(b, c)
  {
    if a == [] {
      assert a + b == b;
    } else {
      assert (a + b)[0] == a[0];
      assert (a + b)[1..] == a[1..] + b;
      CountConcat(a[1..], b, c);
    }
  }

  lemma CountOne(x: char, c: char)
    ensures Count([x], c) == if x == c then 1 else 0
  {
    assert [x][1..] == [];
  }

  lemma CountTwo(x: char, y: char, c: char)
    ensures Count([x, y], c) == (if x == c then 1 else 0) + (if y == c then 1 else 0)
  {
    assert [x, y][1..] == [y];
    CountOne(y, c);
  }

  lemma CountThree(x: char, y: char, z: char, c: char)
    ensures Count([x, y, z], c) == (if x == c then 1 else 0) + (if y == c then 1 else 0) + (if z == c then 1 else 0)
  {
    assert [x, y, z][1..] == [y, z];
    CountTwo(y, z, c);
  }

  lemma {:induction false} CountAbsent(s: string, c: char)
    requires c !in s
    ensures Count(s, c) == 0
  {
    if s != [] {
      CountAbsent(s[1..], c);
    }
  }

  // -----------------------------------------------------------------------
  // Properties of the renderings

  /** A node without children renders as its header alone, both ways. */
  lemma LeafRendering(n: Node, level: int)
    requires n.children == []
    ensures Render(n) == Header(n) == RenderIndented(n, level)
  {
  }

  /** The header holds a newline or a brace only where the name does. */
  lemma HeaderCount(n: Node, c: char)
    requires c == '\n' || c == '{' || c == '}'
    ensures Count(Header(n), c) == Count(n.name, c)
  {
    var k := NodeKindName(n.kind);
    assert c !in k by {
      forall j | 0 <= j < |k| ensures k[j] != c { }
    }
    CountAbsent(k, c);
    CountOne('(', c);
    CountOne(')', c);
    CountConcat(k, "(", c);
    CountConcat(k + "(", n.name, c);
    CountConcat(k + "(" + n.name, ")", c);
  }

  /** The counts of `c` in the one-line rendering of a node with children:
      the header, the children, and the two braces around them. */
  lemma RenderCount(n: Node, c: char)
    ensures Count(Render(n), c) == Count(Header(n), c)
      + (if |n.children| == 0 then 0 else
           Count(RenderChildren(n.children), c)
           + (if c == '{' || c == '}' then 1 else 0) + (if c == ' ' then 2 else 0))
  {
    if |n.children| == 0 {
      assert Render(n) == Header(n) + "";
      CountConcat(Header(n), "", c);
    } else {
      var rc := RenderChildren(n.children);
      CountTwo(' ', '{', c);
      CountTwo(' ', '}', c);
      CountConcat(" {", rc, c);
      CountConcat(" {" + rc, " }", c);
      CountConcat(Header(n), " {" + rc + " }", c);
    }
  }

  lemma RenderChildrenCount(cs: seq<Node>, c: char)
    requires cs != []
    ensures Count(RenderChildren(cs), c) ==
      (if c == ' ' then 1 else 0) + Count(Render(cs[0]), c) + Count(RenderChildren(cs[1..]), c)
  {
    CountOne(' ', c);
    CountConcat(" ", Render(cs[0]), c);
    CountConcat(" " + Render(cs[0]), RenderChildren(cs[1..]), c);
  }

  /** The counts of `c` in the indented rendering of a node with children. */
  lemma RenderIndentedCount(n: Node, level: int, c: char)
    ensures Count(RenderIndented(n, level), c) == Count(Header(n), c)
      + (if |n.children| == 0 then 0 else
           Count(RenderIndentedChildren(n.children, level), c)
           + Count(Indent(level), c) + (if c == ' ' then 1 else 0) + (if c == '{' then 1 else 0)
           + (if c == '\n' then 1 else 0) + (if c == '}' then 1 else 0))
  {
    if |n.children| == 0 {
      assert RenderIndented(n, level) == Header(n) + "";
      CountConcat(Header(n), "", c);
    } else {
      var rc := RenderIndentedChildren(n.children, level);
      CountThree(' ', '{', '\n', c);
      CountOne('}', c);
      CountConcat(" {\n", rc, c);
      CountConcat(" {\n" + rc, Indent(level), c);
      CountConcat(" {\n" + rc + Indent(level), "}", c);
      CountConcat(Header(n), " {\n" + rc + Indent(level) + "}", c);
    }
  }

  lemma RenderIndentedChildrenCount(cs: seq<Node>, level: int, c: char)
    requires cs != []
    ensures Count(RenderIndentedChildren(cs, level), c) ==
      Count(Indent(level + 1), c) + Count(RenderIndented(cs[0], level + 1), c)
      + (if c == '\n' then 1 else 0) + Count(RenderIndentedChildren(cs[1..], level), c)
  {
    CountOne('\n', c);
    var a, b := Indent(level + 1), RenderIndented(cs[0], level + 1);
    CountConcat(a, b, c);
    CountConcat(a + b, "\n", c);
    CountConcat(a + b + "\n", RenderIndentedChildren(cs[1..], level), c);
  }

  /** Four spaces per level. */
  lemma {:induction false} IndentShape(level: int)
    ensures |Indent(level)| == (if level < 0 then 0 else 4 * level)
    ensures forall i :: 0 <= i < |Indent(level)| ==> Indent(level)[i] == ' '
    decreases if level < 0 then 0 else level
  {
    if level > 0 {
      IndentShape(level - 1);
    }
  }

  lemma IndentCount(level: int, c: char)
    requires c != ' '
    ensures Count(Indent(level), c) == 0
  {
    IndentShape(level);
    CountAbsent(Indent(level), c);
  }

  /** The one-line rendering is one line: when no name holds a newline, it
      holds none either. */
  lemma {:induction false} RenderIsOneLine(n: Node)
    requires NameFree(n, '\n')
    ensures Count(Render(n), '\n') == 0
    decreases n, 1
  {
    HeaderCount(n, '\n');
    CountAbsent(n.name, '\n');
    RenderCount(n, '\n');
    if |n.children| > 0 {
      RenderChildrenOneLine(n.children);
    }
  }

  lemma {:induction false} RenderChildrenOneLine(cs: seq<Node>)
    requires NamesFree(cs, '\n')
    ensures Count(RenderChildren(cs), '\n') == 0
    decreases cs, 0
  {
    if cs != [] {
      RenderChildrenCount(cs, '\n');
      RenderIsOneLine(cs[0]);
      RenderChildrenOneLine(cs[1..]);
    }
  }

  /** In the one-line rendering every node with children opens exactly one
      brace and closes exactly one, so when no name holds a brace the braces
      balance and count the inner nodes. */
  lemma RenderBraces(n: Node)
    requires NameFree(n, '{') && NameFree(n, '}')
    ensures Count(Render(n), '{') == Inner(n)
    ensures Count(Render(n), '}') == Inner(n)
  {
    RenderBraceCount(n, '{');
    RenderBraceCount(n, '}');
  }

  lemma {:induction false} RenderBraceCount(n: Node, c: char)
    requires (c == '{' || c == '}') && NameFree(n, c)
    ensures Count(Render(n), c) == Inner(n)
    decreases n, 1
  {
    HeaderCount(n, c);
    CountAbsent(n.name, c);
    RenderCount(n, c);
    if |n.children| > 0 {
      RenderChildrenBraceCount(n.children, c);
    }
  }

  lemma {:induction false} RenderChildrenBraceCount(cs: seq<Node>, c: char)
    requires (c == '{' || c == '}') && NamesFree(cs, c)
    ensures Count(RenderChildren(cs), c) == InnerAll(cs)
    decreases cs, 0
  {
    if cs != [] {
      RenderChildrenCount(cs, c);
      RenderBraceCount(cs[0], c);
      RenderChildrenBraceCount(cs[1..], c);
    }
  }

  /** In the indented rendering every node except the root ends one line and
      every inner node opens one, so when no name holds a newline the
      rendering has that many newlines. */
  lemma {:induction false} RenderIndentedLines(n: Node, level: int)
    requires NameFree(n, '\n')
    ensures Count(RenderIndented(n, level), '\n') == Inner(n) + Size(n) - 1
    decreases n, 1
  {
    HeaderCount(n, '\n');
    CountAbsent(n.name, '\n');
    RenderIndentedCount(n, level, '\n');
    if |n.children| > 0 {
      RenderIndentedChildrenLines(n.children, level);
      IndentCount(level, '\n');
    }
  }

  lemma {:induction false} RenderIndentedChildrenLines(cs: seq<Node>, level: int)
    requires NamesFree(cs, '\n')
    ensures Count(RenderIndentedChildren(cs, level), '\n') == InnerAll(cs) + SizeAll(cs)
    decreases cs, 0
  {
    if cs != [] {
      RenderIndentedChildrenCount(cs, level, '\n');
      IndentCount(level + 1, '\n');
      RenderIndentedLines(cs[0], level + 1);
      RenderIndentedChildrenLines(cs[1..], level);
    }
  }

  /** The indented rendering of a node with children: the header and ` {`
      end the first line, and the last line is the closing brace after four
      spaces per level. */
  lemma RenderIndentedFrame(n: Node, level: int)
    requires |n.children| > 0
    ensures var s, h := RenderIndented(n, level), Header(n);
      var closing := Indent(level) + "}";
      |s| >= |h| + 2 + |closing|
      && s[..|h| + 2] == h + " {" && s[|h| + 2] == '\n'
      && s[|s| - |closing|..] == closing
  {
    var s, h := RenderIndented(n, level), Header(n);
    var body := RenderIndentedChildren(n.children, level);
    var closing := Indent(level) + "}";
    assert s == h + " {\n" + body + closing;
    assert s[..|h| + 2] == h + " {";
  }

  /** Each child line of the indented rendering is four spaces per level
      beyond the parent's, the child rendered at that deeper level, and a
      newline. */
  lemma RenderIndentedChildrenSplit(cs: seq<Node>, level: int)
    requires cs != []
    ensures var line := Indent(level + 1) + RenderIndented(cs[0], level + 1) + "\n";
      RenderIndentedChildren(cs, level) == line + RenderIndentedChildren(cs[1..], level)
      && line[|line| - 1] == '\n'
      && line[..|Indent(level + 1)|] == Indent(level + 1)
  {
  }
}
