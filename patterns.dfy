/** The lexical patterns of the scanner (src/tokenizer/patterns.go), each
    written as a matcher that returns the length of the prefix of its input
    that the anchored Go regular expression selects (0: no match).

    Go's regexp engine picks, among the alternatives of a pattern, the first
    one that matches, and lets greedy repetitions take as much as they can and
    lazy ones as little. Each matcher's contract says which prefix that is, in
    terms of a predicate describing the pattern's language. Characters stand
    for the bytes of the source text; the classes `\d`, `\w` and `\s` of Go's
    regexp are ASCII-only. */
module Patterns {
  import opened Wrappers
  import opened Tokens

  predicate IsDigit(c: char) { '0' <= c <= '9' }

  predicate IsLetter(c: char) { 'a' <= c <= 'z' || 'A' <= c <= 'Z' }

  /** `\w`: `[0-9A-Za-z_]`. */
  predicate IsWordChar(c: char) { IsDigit(c) || IsLetter(c) || c == '_' }

  /** `\s`: `[\t\n\f\r ]`. */
  predicate IsSpace(c: char)
  {
    c == '\t' || c == '\n' || c == '\U{000C}' || c == '\r' || c == ' '
  }

  /** The first character class of the operator pattern. */
  predicate IsOperatorChar(c: char)
  {
    c == '+' || c == '-' || c == '*' || c == '/' || c == '=' || c == '<' || c == '>'
    || c == '!' || c == '%' || c == '&' || c == '|' || c == '^'
  }

  /** `[{}()\[\];,.]`. */
  predicate IsPunctuationChar(c: char)
  {
    c == '{' || c == '}' || c == '(' || c == ')' || c == '[' || c == ']'
    || c == ';' || c == ',' || c == '.'
  }

  predicate All(t: string, P: char -> bool)
  {
    forall i :: 0 <= i < |t| ==> P(t[i])
  }

  /** The length of the longest prefix of `s` whose characters all satisfy `P`. */
  function Span(s: string, P: char -> bool): (n: nat)
    ensures n <= |s|
  {
    if s == [] || !P(s[0]) then 0 else 1 + Span(s[1..], P)
  }

  /** Span stops at the first character that fails `P`. */
  lemma {:induction false} SpanSpec(s: string, P: char -> bool)
    ensures var n := Span(s, P);
      All(s[..n], P) && (n == |s| || !P(s[n]))
  {
    if s != [] && P(s[0]) {
      SpanSpec(s[1..], P);
      var n := Span(s, P);
      assert s[..n] == [s[0]] + s[1..][..n - 1];
    }
  }

  /** The index of the first character at or after `i` that satisfies `P`,
      if there is one. */
  function Find(s: string, i: nat, P: char -> bool): (r: Option<nat>)
    requires i <= |s|
    decreases |s| - i
    ensures r.Some? ==> i <= r.value < |s|
  {
    if i == |s| then None else if P(s[i]) then Some(i) else Find(s, i + 1, P)
  }

  /** Find stops at the first character that satisfies `P`. */
  lemma {:induction false} FindSpec(s: string, i: nat, P: char -> bool)
    requires i <= |s|
    decreases |s| - i
    ensures var r := Find(s, i, P);
      && (r.Some? ==> P(s[r.value]))
      && (forall j :: i <= j < (if r.Some? then r.value else |s|) ==> !P(s[j]))
  {
    if i < |s| && !P(s[i]) {
      FindSpec(s, i + 1, P);
    }
  }

  // The index of the first star-slash pair that starts at or after `i`, if
  // there is one.
  function FindCommentEnd(s: string, i: nat): (r: Option<nat>)
    requires i <= |s|
    decreases |s| - i
    ensures r.Some? ==> i <= r.value && r.value + 2 <= |s|
  {
    if i + 2 > |s| then None
    else if s[i] == '*' && s[i + 1] == '/' then Some(i)
    else FindCommentEnd(s, i + 1)
  }

  // FindCommentEnd stops at the first star-slash pair.
  lemma {:induction false} FindCommentEndSpec(s: string, i: nat)
    requires i <= |s|
    decreases |s| - i
    ensures var r := FindCommentEnd(s, i);
      && (r.Some? ==> s[r.value] == '*' && s[r.value + 1] == '/')
      && (forall j :: i <= j < (if r.Some? then r.value else |s|) && j + 1 < |s| ==> !(s[j] == '*' && s[j + 1] == '/'))
  {
    if i + 2 <= |s| && !(s[i] == '*' && s[i + 1] == '/') {
      FindCommentEndSpec(s, i + 1);
    }
  }

  // ---------------------------------------------------------------------
  // Languages of the patterns

  /** `\/\/.*`: two slashes, then anything but a newline. */
  predicate IsLineComment(t: string)
  {
    |t| >= 2 && t[..2] == "//" && forall i :: 2 <= i < |t| ==> t[i] != '\n'
  }

  /** `\/\*[\s\S]*?\*\/`: slash-star, anything, star-slash. */
  predicate IsBlockComment(t: string)
  {
    |t| >= 4 && t[0] == '/' && t[1] == '*' && t[|t| - 2] == '*' && t[|t| - 1] == '/'
  }

  /** `#\w+`. */
  predicate IsPreprocessorText(t: string)
  {
    |t| >= 2 && t[0] == '#' && All(t[1..], IsWordChar)
  }

  /** `\d+(\.\d*)?`: digits, optionally a dot and more digits. */
  predicate IsNumberText(t: string)
  {
    exists d :: 0 < d <= |t| && All(t[..d], IsDigit)
      && (d == |t| || (t[d] == '.' && All(t[d + 1..], IsDigit)))
  }

  /** `"[^"]*"`. */
  predicate IsStringText(t: string)
  {
    |t| >= 2 && t[0] == '"' && t[|t| - 1] == '"'
    && forall i :: 0 < i < |t| - 1 ==> t[i] != '"'
  }

  /** The keyword alternatives, in the order the pattern lists them. */
  const Keywords: seq<string> :=
    ["int", "float", "char", "void", "class", "return", "while", "continue",
     "break", "if", "else", "New"]

  /** `[a-zA-Z_]\w*`. */
  predicate IsIdentifierText(t: string)
  {
    |t| >= 1 && (IsLetter(t[0]) || t[0] == '_') && All(t[1..], IsWordChar)
  }

  /** `\s+`. */
  predicate IsWhitespaceText(t: string)
  {
    |t| >= 1 && All(t, IsSpace)
  }

  // The first alternative of the operator pattern, `[+\-*/=<>!%&|^]=?`.
  predicate IsFirstOperatorAlternative(t: string)
  {
    (|t| == 1 || (|t| == 2 && t[1] == '=')) && IsOperatorChar(t[0])
  }

  /** The whole operator pattern: the first alternative or one of the others. */
  predicate IsOperatorText(t: string)
  {
    IsFirstOperatorAlternative(t)
    || t in ["++", "--", "&&", "||", "*=", "<<", "<<=", ">>", ">>=", "~", "?", ":"]
  }

  /** `n` is the length of the longest non-empty prefix of `s` in the language
      `L`, or 0 when no non-empty prefix is in it: what a greedy pattern
      selects when its language has no choice points. */
  ghost predicate IsLongestMatch(s: string, n: nat, L: string -> bool)
  {
    n <= |s|
    && (n > 0 ==> L(s[..n]))
    && forall m :: n < m <= |s| ==> !L(s[..m])
  }

  // ---------------------------------------------------------------------
  // Matchers. Each one is a plain computation; the lemma after it states
  // which prefix that is.

  predicate NotNewline(c: char) { c != '\n' }

  predicate IsQuote(c: char) { c == '"' }

  // `^\/\/.*|^\/\*[\s\S]*?\*\/`.
  function MatchComment(s: string): (n: nat)
    ensures n <= |s|
  {
    if |s| >= 2 && s[0] == '/' && s[1] == '/' then 2 + Span(s[2..], NotNewline)
    else if |s| >= 2 && s[0] == '/' && s[1] == '*' then
      match FindCommentEnd(s, 2)
      case None => 0
      case Some(j) => j + 2
    else 0
  }

  // The line alternative is greedy, so it runs to the end of the line; the
  // block alternative is lazy, so it stops at the first star-slash, and an
  // unclosed slash-star matches nothing; other text matches nothing.
  lemma MatchCommentSpec(s: string)
    ensures var n := MatchComment(s);
      && (|s| >= 2 && s[..2] == "//" ==> IsLongestMatch(s, n, IsLineComment) && n > 0)
      && (|s| >= 2 && s[..2] == "/*" ==>
            && (n > 0 ==> IsBlockComment(s[..n]))
            && (forall m :: 0 < m <= |s| && IsBlockComment(s[..m]) ==> 0 < n <= m))
      && (!(|s| >= 2 && (s[..2] == "//" || s[..2] == "/*")) ==> n == 0)
  {
    if |s| >= 2 && s[0] == '/' && s[1] == '/' {
      var k := Span(s[2..], NotNewline);
      SpanSpec(s[2..], NotNewline);
      assert s[..2 + k][2..] == s[2..][..k];
      forall m | 2 + k < m <= |s| ensures !IsLineComment(s[..m]) {
        assert s[..m][2 + k] == s[2..][k];
      }
    } else if |s| >= 2 && s[0] == '/' && s[1] == '*' {
      FindCommentEndSpec(s, 2);
      match FindCommentEnd(s, 2)
      case None =>
        forall m | 0 < m <= |s| ensures !IsBlockComment(s[..m]) {
          if m >= 4 {
            assert s[..m][m - 2] == s[m - 2] && s[..m][m - 1] == s[m - 1];
          }
        }
      case Some(j) =>
        forall m | 0 < m <= |s| && IsBlockComment(s[..m]) ensures j + 2 <= m {
          assert s[..m][m - 2] == s[m - 2] && s[..m][m - 1] == s[m - 1];
        }
    }
  }

  /** `^#\w+`. */
  function MatchPreprocessor(s: string): (n: nat)
    ensures n <= |s|
  {
    if |s| >= 1 && s[0] == '#' then
      var k := Span(s[1..], IsWordChar);
      if k == 0 then 0 else 1 + k
    else 0
  }

  lemma MatchPreprocessorSpec(s: string)
    ensures IsLongestMatch(s, MatchPreprocessor(s), IsPreprocessorText)
  {
    if |s| >= 1 && s[0] == '#' {
      var k := Span(s[1..], IsWordChar);
      SpanSpec(s[1..], IsWordChar);
      if k == 0 {
        assert forall m :: 1 < m <= |s| ==> s[..m][1] == s[1..][0];
      } else {
        assert s[..1 + k][1..] == s[1..][..k];
        forall m | 1 + k < m <= |s| ensures !IsPreprocessorText(s[..m]) {
          assert s[..m][1..][k] == s[1..][k];
        }
      }
    }
  }

  /** `^\d+(\.\d*)?`. */
  function MatchNumber(s: string): (n: nat)
    ensures n <= |s|
    ensures n > 0 <==> |s| > 0 && IsDigit(s[0])
  {
    var d := Span(s, IsDigit);
    if d == 0 then 0
    else if d < |s| && s[d] == '.' then d + 1 + Span(s[d + 1..], IsDigit)
    else d
  }

  // Greedy on both repetitions and on the optional part, so `1.` is a
  // number; there is no sign and no exponent.
  lemma MatchNumberSpec(s: string)
    ensures IsLongestMatch(s, MatchNumber(s), IsNumberText)
  {
    var d := Span(s, IsDigit);
    SpanSpec(s, IsDigit);
    if d > 0 && d < |s| && s[d] == '.' {
      var f := Span(s[d + 1..], IsDigit);
      SpanSpec(s[d + 1..], IsDigit);
      var n := d + 1 + f;
      assert s[..n][..d] == s[..d];
      assert s[..n][d + 1..] == s[d + 1..][..f];
      assert IsNumberText(s[..n]);
      forall m | n < m <= |s| ensures !IsNumberText(s[..m]) {
        if IsNumberText(s[..m]) {
          assert s[..m][..d] == s[..d];
          NumberTextSplit(s[..m], d);
        }
      }
    } else if d > 0 {
      assert s[..d][..d] == s[..d];
      forall m | d < m <= |s| ensures !IsNumberText(s[..m]) {
        if IsNumberText(s[..m]) {
          assert s[..m][..d] == s[..d];
          NumberTextSplit(s[..m], d);
        }
      }
    }
  }

  /** In a number text whose leading digit run is `d` long, that run is where
      the integer part ends. */
  lemma NumberTextSplit(t: string, d: nat)
    requires IsNumberText(t)
    requires 0 < d <= |t| && All(t[..d], IsDigit) && (d == |t| || !IsDigit(t[d]))
    ensures d == |t| || (t[d] == '.' && All(t[d + 1..], IsDigit))
  {
    var e :| 0 < e <= |t| && All(t[..e], IsDigit)
      && (e == |t| || (t[e] == '.' && All(t[e + 1..], IsDigit)));
    if e < d {
      assert t[..d][e] == t[e];
    }
  }

  /** `^"[^"]*"`. */
  function MatchString(s: string): (n: nat)
    ensures n <= |s|
  {
    if |s| >= 1 && s[0] == '"' then
      match Find(s, 1, IsQuote)
      case None => 0
      case Some(j) => j + 1
    else 0
  }

  // Up to the next double quote, newlines included; there are no escapes,
  // so the match is also the shortest string text.
  lemma MatchStringSpec(s: string)
    ensures var n := MatchString(s);
      IsLongestMatch(s, n, IsStringText)
      && (n > 0 ==> forall m :: 0 < m < n ==> !IsStringText(s[..m]))
  {
    if |s| >= 1 && s[0] == '"' {
      FindSpec(s, 1, IsQuote);
      match Find(s, 1, IsQuote)
      case None =>
        forall m | 0 < m <= |s| ensures !IsStringText(s[..m]) {
          if m >= 2 { assert s[..m][m - 1] == s[m - 1]; }
        }
      case Some(j) =>
        forall m | j + 1 < m <= |s| ensures !IsStringText(s[..m]) {
          assert s[..m][j] == s[j];
        }
        forall m | 0 < m < j + 1 ensures !IsStringText(s[..m]) {
          if m >= 2 { assert s[..m][m - 1] == s[m - 1]; }
        }
    }
  }

  /** The position of the first keyword, in list order, that `s` starts with
      and that is not followed by a word character (the `\b` of the pattern). */
  function FirstKeyword(s: string, i: nat): (r: Option<nat>)
    requires i <= |Keywords|
    decreases |Keywords| - i
    ensures r.Some? ==> i <= r.value < |Keywords|
  {
    if i == |Keywords| then None
    else if KeywordAt(s, i) then Some(i)
    else FirstKeyword(s, i + 1)
  }

  /** FirstKeyword stops at the first keyword that matches. */
  lemma {:induction false} FirstKeywordSpec(s: string, i: nat)
    requires i <= |Keywords|
    decreases |Keywords| - i
    ensures var r := FirstKeyword(s, i);
      && (r.Some? ==> KeywordAt(s, r.value))
      && (forall j :: i <= j < (if r.Some? then r.value else |Keywords|) ==> !KeywordAt(s, j))
  {
    if i < |Keywords| && !KeywordAt(s, i) {
      FirstKeywordSpec(s, i + 1);
    }
  }

  /** `s` starts with the `i`-th keyword and a word boundary follows it. */
  predicate KeywordAt(s: string, i: nat)
    requires i < |Keywords|
  {
    var k := Keywords[i];
    |k| <= |s| && s[..|k|] == k && (|k| == |s| || !IsWordChar(s[|k|]))
  }

  /** `^(int|float|...|New)\b`. */
  function MatchKeyword(s: string): (n: nat)
    ensures n <= |s|
  {
    match FirstKeyword(s, 0)
    case None => 0
    case Some(i) => |Keywords[i]|
  }

  // A keyword only where no word character follows, so `intx` is not a
  // keyword; when no keyword is followed by a boundary the match is empty.
  lemma MatchKeywordSpec(s: string)
    ensures var n := MatchKeyword(s);
      && (n > 0 ==> s[..n] in Keywords && (n == |s| || !IsWordChar(s[n])))
      && (n == 0 ==> forall i :: 0 <= i < |Keywords| ==> !KeywordAt(s, i))
  {
    FirstKeywordSpec(s, 0);
  }

  /** `^::`. */
  function MatchMacro(s: string): (n: nat)
    ensures n <= |s|
  {
    if |s| >= 2 && s[0] == ':' && s[1] == ':' then 2 else 0
  }

  // `^([+\-*/=<>!%&|^]=?|\+\+|--|&&|\|\||\*=|<<=?|>>=?|~|\?|:)`.
  function MatchOperator(s: string): (n: nat)
    ensures n <= |s|
  {
    if |s| > 0 && IsOperatorChar(s[0]) then
      if |s| > 1 && s[1] == '=' then 2 else 1
    else if |s| > 0 && (s[0] == '~' || s[0] == '?' || s[0] == ':') then 1
    else 0
  }

  // The first alternative matches whenever the text starts with one of its
  // characters, so the later alternatives `++`, `--`, `&&`, `||`, `*=`,
  // `<<=?` and `>>=?` never decide the match; `~`, `?` and `:` still can.
  lemma MatchOperatorSpec(s: string)
    ensures var n := MatchOperator(s);
      && (|s| > 0 && IsOperatorChar(s[0]) ==> IsLongestMatch(s, n, IsFirstOperatorAlternative) && n > 0)
      && (|s| > 0 && !IsOperatorChar(s[0]) ==> n == (if s[0] == '~' || s[0] == '?' || s[0] == ':' then 1 else 0))
      && (|s| == 0 ==> n == 0)
      && (n > 0 ==> IsOperatorText(s[..n]))
  {
    if |s| > 0 && IsOperatorChar(s[0]) {
      if |s| > 1 && s[1] == '=' {
        assert forall m :: 2 < m <= |s| ==> !IsFirstOperatorAlternative(s[..m]);
      }
    } else if |s| > 0 && (s[0] == '~' || s[0] == '?' || s[0] == ':') {
      assert s[..1] == [s[0]];
    }
  }

  /** `^[{}()\[\];,.]`: exactly one character. */
  function MatchPunctuation(s: string): (n: nat)
    ensures n == (if |s| > 0 && IsPunctuationChar(s[0]) then 1 else 0)
  {
    if |s| > 0 && IsPunctuationChar(s[0]) then 1 else 0
  }

  /** `^[a-zA-Z_]\w*`. */
  function MatchIdentifier(s: string): (n: nat)
    ensures n <= |s|
  {
    if |s| > 0 && (IsLetter(s[0]) || s[0] == '_') then 1 + Span(s[1..], IsWordChar)
    else 0
  }

  lemma MatchIdentifierSpec(s: string)
    ensures IsLongestMatch(s, MatchIdentifier(s), IsIdentifierText)
  {
    if |s| > 0 && (IsLetter(s[0]) || s[0] == '_') {
      var k := Span(s[1..], IsWordChar);
      SpanSpec(s[1..], IsWordChar);
      assert s[..1 + k][1..] == s[1..][..k];
      forall m | 1 + k < m <= |s| ensures !IsIdentifierText(s[..m]) {
        assert s[..m][1..][k] == s[1..][k];
      }
    }
  }

  /** `^\s+`. */
  function MatchWhitespace(s: string): (n: nat)
    ensures n <= |s|
  {
    Span(s, IsSpace)
  }

  lemma MatchWhitespaceSpec(s: string)
    ensures IsLongestMatch(s, MatchWhitespace(s), IsWhitespaceText)
  {
    var k := Span(s, IsSpace);
    SpanSpec(s, IsSpace);
    forall m | k < m <= |s| ensures !IsWhitespaceText(s[..m]) {
      assert s[..m][k] == s[k];
    }
  }

  /** The empty pattern of Invalid: never a non-empty match. */
  function NoMatch(s: string): (n: nat)
    ensures n == 0
  {
    0
  }

  /** `GetRegexExpression`: the matcher of each kind, indexed by ordinal. */
  const Matchers: seq<string -> nat> :=
    [NoMatch, MatchComment, MatchPreprocessor, MatchNumber, MatchString, MatchKeyword,
     MatchMacro, MatchOperator, MatchPunctuation, MatchIdentifier, MatchWhitespace]

  lemma MatchersBounded(i: nat, s: string)
    requires i < |Matchers|
    ensures Matchers[i](s) <= |s|
  {
  }

  /** `GetRegexExpression` followed by `FindString`: the length of the text
      the pattern of a kind selects at the start of `s`. */
  function Match(k: TokenType, s: string): (n: nat)
    ensures n <= |s|
    ensures k == Invalid ==> n == 0
  {
    MatchersBounded(Ordinal(k), s);
    Matchers[Ordinal(k)](s)
  }

  /** The first kind numbered `i` or more (up to Whitespace) whose pattern
      selects a non-empty prefix of `s`, with that prefix's length. */
  function FirstMatchFrom(s: string, i: nat): (r: Option<(TokenType, nat)>)
    requires 1 <= i <= 11
    decreases 11 - i
    ensures r.Some? ==> i <= Ordinal(r.value.0) <= 10 && 0 < r.value.1 <= |s|
  {
    if i == 11 then None
    else if Match(KindAt(i), s) > 0 then Some((KindAt(i), Match(KindAt(i), s)))
    else FirstMatchFrom(s, i + 1)
  }

  /** The kind and length of the token the scanner takes at the start of `s`:
      the first kind, from Comment to Whitespace, with a non-empty match. */
  function FirstMatch(s: string): (r: Option<(TokenType, nat)>)
    ensures r.Some? ==> r.value.0 != Invalid && 0 < r.value.1 <= |s|
  {
    FirstMatchFrom(s, 1)
  }

  /** The kind FirstMatch picks has a non-empty match of that length, every
      kind tried before it matches nothing, and when it picks nothing no kind
      matches. */
  lemma FirstMatchIsFirst(s: string)
    ensures var r := FirstMatch(s);
      && (r.Some? ==> r.value.1 == Match(r.value.0, s))
      && (r.Some? ==> forall k :: 0 < Ordinal(k) < Ordinal(r.value.0) ==> Match(k, s) == 0)
      && (r.None? ==> forall k :: Match(k, s) == 0)
  {
    var r := FirstMatchFrom(s, 1);
    forall k | 0 < Ordinal(k) < (if r.Some? then Ordinal(r.value.0) else 11) ensures Match(k, s) == 0 {
      KindAtOrdinal(k);
    }
  }

  /** Kinds that match nothing are passed over. */
  lemma {:induction false} FirstMatchSkips(s: string, i: nat, j: nat)
    requires 1 <= i <= j <= 11
    requires forall l :: i <= l < j ==> Match(KindAt(l), s) == 0
    ensures FirstMatchFrom(s, i) == FirstMatchFrom(s, j)
    decreases j - i
  {
    if i < j {
      FirstMatchSkips(s, i + 1, j);
    }
  }

  /** The converse of FirstMatchIsFirst: a kind with a non-empty match, all
      of whose predecessors match nothing, is the one FirstMatch picks. */
  lemma FirstMatchIs(s: string, k: TokenType)
    requires Match(k, s) > 0
    requires forall k' :: 0 < Ordinal(k') < Ordinal(k) ==> Match(k', s) == 0
    ensures FirstMatch(s) == Some((k, Match(k, s)))
  {
    KindAtOrdinal(k);
    FirstMatchSkips(s, 1, Ordinal(k));
  }

  /** Every keyword is also identifier text, beginning with a letter. */
  lemma KeywordsAreIdentifiers(i: nat)
    requires i < |Keywords|
    ensures IsIdentifierText(Keywords[i]) && IsLetter(Keywords[i][0])
  {
  }

  /** Text that does not start with a letter, an underscore, a digit, `#` or
      a double quote matches none of the word-like patterns. */
  lemma NoWordMatch(s: string)
    requires |s| > 0 && !IsLetter(s[0]) && s[0] != '_' && !IsDigit(s[0]) && s[0] != '#' && s[0] != '"'
    ensures MatchPreprocessor(s) == 0 && MatchNumber(s) == 0 && MatchString(s) == 0
    ensures MatchKeyword(s) == 0 && MatchIdentifier(s) == 0
  {
    MatchPreprocessorSpec(s);
    MatchStringSpec(s);
    MatchIdentifierSpec(s);
    MatchKeywordSpec(s);
    var n := MatchKeyword(s);
    if n > 0 {
      var i :| 0 <= i < |Keywords| && Keywords[i] == s[..n];
      KeywordsAreIdentifiers(i);
    }
  }
}
