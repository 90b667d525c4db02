/** The token record of the scanner and the display names of its kinds
    (src/tokenizer/Token.go). */
module Tokens {

  /** Token kinds, numbered as the Go `iota` enumeration numbers them. */
  datatype TokenType =
    | Invalid
    | Comment
    | Preprocessor
    | Number
    | String
    | Keyword
    | Macro
    | Operator
    | Punctuation
    | Identifier
    | Whitespace

  /** The number the enumeration gives a kind. */
  function Ordinal(k: TokenType): (n: nat)
    ensures n <= 10
    ensures n == 0 <==> k == Invalid
  {
    match k
    case Invalid => 0
    case Comment => 1
    case Preprocessor => 2
    case Number => 3
    case String => 4
    case Keyword => 5
    case Macro => 6
    case Operator => 7
    case Punctuation => 8
    case Identifier => 9
    case Whitespace => 10
  }

  /** The kind with a given number: the inverse of Ordinal. */
  function KindAt(n: nat): (k: TokenType)
    requires n <= 10
    ensures Ordinal(k) == n
  {
    if n == 0 then Invalid
    else if n == 1 then Comment
    else if n == 2 then Preprocessor
    else if n == 3 then Number
    else if n == 4 then String
    else if n == 5 then Keyword
    else if n == 6 then Macro
    else if n == 7 then Operator
    else if n == 8 then Punctuation
    else if n == 9 then Identifier
    else Whitespace
  }

  /** Numbering a kind and taking the kind back gives the same kind, so the
      numbering is one to one. */
  lemma KindAtOrdinal(k: TokenType)
    ensures KindAt(Ordinal(k)) == k
  {
    match k
    case Invalid =>
    case Comment =>
    case Preprocessor =>
    case Number =>
    case String =>
    case Keyword =>
    case Macro =>
    case Operator =>
    case Punctuation =>
    case Identifier =>
    case Whitespace =>
  }

  /** The display names of the kinds (`TokenTypeNames`). */
  const TokenTypeNames: map<TokenType, string> := map[
    Invalid := "Invalid",
    Comment := "Comment",
    Preprocessor := "Preprocessor",
    Number := "Number",
    String := "String",
    Keyword := "Keyword",
    Macro := "Macro",
    Operator := "Operator",
    Punctuation := "Punctuation",
    Identifier := "Identifier",
    Whitespace := "Whitespace"
  ]

  /** Every kind, Invalid included, has a display name, the names are
      non-empty and none contains a parenthesis. */
  lemma EveryKindNamed(k: TokenType)
    ensures k in TokenTypeNames
    ensures |TokenTypeNames[k]| > 0
    ensures forall i :: 0 <= i < |TokenTypeNames[k]| ==> TokenTypeNames[k][i] != '('
  {
    match k
    case Invalid =>
    case Comment =>
    case Preprocessor =>
    case Number =>
    case String =>
    case Keyword =>
    case Macro =>
    case Operator =>
    case Punctuation =>
    case Identifier =>
    case Whitespace =>
  }

  /** Distinct kinds have distinct display names. */
  lemma NamesDistinct(a: TokenType, b: TokenType)
    requires a in TokenTypeNames && b in TokenTypeNames
    requires TokenTypeNames[a] == TokenTypeNames[b]
    ensures a == b
  {
    KindAtOrdinal(a);
    KindAtOrdinal(b);
  }

  function KindName(k: TokenType): string
  {
    EveryKindNamed(k);
    TokenTypeNames[k]
  }

  /** A scanned token: its kind, its text, and the 1-based line and column
      where its text starts. */
  datatype Token = Token(kind: TokenType, value: string, line: int, column: int) {

    /** `Token.String`: the kind's name, then the text in parentheses. */
    function ToString(): string
    {
      KindName(kind) + "(" + value + ")"
    }
  }

  /** The zero value of the Go record: what the parser reads past the end. */
  const ZeroToken: Token := Token(Invalid, "", 0, 0)

  /** The rendering of a token has the form name(text): it starts with the
      display name of the kind, then an opening parenthesis, and ends with the
      token text and a closing parenthesis. */
  lemma ToStringShape(t: Token)
    ensures var s, n := t.ToString(), KindName(t.kind);
      |s| == |n| + |t.value| + 2 && s[..|n|] == n && s[|n|] == '('
      && s[|n| + 1..|s| - 1] == t.value && s[|s| - 1] == ')'
  {
  }

  /** The rendering determines the kind and the text: two tokens print the
      same exactly when they agree on both (line and column are not shown). */
  lemma ToStringInjective(a: Token, b: Token)
    ensures a.ToString() == b.ToString() <==> a.kind == b.kind && a.value == b.value
  {
    if a.ToString() == b.ToString() {
      var s, na, nb := a.ToString(), KindName(a.kind), KindName(b.kind);
      EveryKindNamed(a.kind);
      EveryKindNamed(b.kind);
      ToStringShape(a);
      ToStringShape(b);
      assert na == s[..|na|] == nb;
      NamesDistinct(a.kind, b.kind);
    }
  }
}
