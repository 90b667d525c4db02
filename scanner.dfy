/** The scanner (src/tokenizer/main.go): line and column computation and the
    tokenizing loop. Each method is proved equal to a function that states
    what it computes; the lemmas below state what those functions promise. */
module Scanner {
  import opened Wrappers
  import opened Tokens
  import opened Patterns

  /** The 1-based line of offset `p`: one more than the newlines before it. */
  function Line(code: string, p: nat): (line: int)
    requires p <= |code|
    ensures line >= 1
  {
    if p == 0 then 1 else Line(code, p - 1) + (if code[p - 1] == '\n' then 1 else 0)
  }

  /** The 1-based column of offset `p`: one more than the characters between
      the last newline before it (or the start) and `p`. */
  function Column(code: string, p: nat): (col: int)
    requires p <= |code|
    ensures 1 <= col <= p + 1
  {
    if p == 0 then 1 else if code[p - 1] == '\n' then 1 else Column(code, p - 1) + 1
  }

  /** The line of `p` counts the newline characters of the text before it. */
  lemma {:induction false} LineCountsNewlines(code: string, p: nat)
    requires p <= |code|
    ensures Line(code, p) == 1 + multiset(code[..p])['\n']
  {
    if p > 0 {
      LineCountsNewlines(code, p - 1);
      assert code[..p] == code[..p - 1] + [code[p - 1]];
    }
  }

  /** The column of `p` is one past the run of non-newline characters that
      ends at `p`, and that run starts at the beginning of the text or right
      after a newline. */
  lemma {:induction false} ColumnFollowsNewline(code: string, p: nat)
    requires p <= |code|
    ensures var start := p - (Column(code, p) - 1);
      && 0 <= start <= p
      && (forall i :: start <= i < p ==> code[i] != '\n')
      && (start == 0 || code[start - 1] == '\n')
  {
    if p > 0 && code[p - 1] != '\n' {
      ColumnFollowsNewline(code, p - 1);
    }
  }

  /** `lineCol`: walks the text up to `position`, counting lines and resetting
      the column after each newline. */
  method LineCol(code: string, position: nat) returns (line: int, col: int)
    requires position <= |code|
    ensures line == Line(code, position) && col == Column(code, position)
  {
    line, col := 1, 1;
    for i := 0 to position
      invariant line == Line(code, i) && col == Column(code, i)
    {
      if code[i] == '\n' {
        line := line + 1;
        col := 1;
      } else {
        col := col + 1;
      }
    }
  }

  /** The scan stopped at an offset where no pattern matches. */
  datatype LexError = Unrecognized(offset: nat, line: int, column: int)

  /** Whether a token of kind `k` is kept in the output. */
  predicate Kept(k: TokenType, significantOnly: bool)
  {
    !significantOnly || (k != Whitespace && k != Comment)
  }

  /** How a scan picks the token at the start of the remaining text: its
      kind and length, or None when nothing matches there. */
  type Selector = string -> Option<(TokenType, nat)>

  /** A selector that always takes a non-empty prefix of its text. */
  ghost predicate Advances(select: Selector)
  {
    forall s :: select(s).Some? ==> 0 < select(s).value.1 <= |s|
  }

  /** The tokens a scan with `select` produces from offset `pos` on. */
  function Scan(select: Selector, code: string, pos: nat, significantOnly: bool): Result<seq<Token>, LexError>
    requires Advances(select) && pos <= |code|
    decreases |code| - pos
  {
    if pos == |code| then Ok([])
    else
      match select(code[pos..])
      case None => Err(Unrecognized(pos, Line(code, pos), Column(code, pos)))
      case Some((k, n)) =>
        var token := Token(k, code[pos..pos + n], Line(code, pos), Column(code, pos));
        var rest :- Scan(select, code, pos + n, significantOnly);
        Ok(if Kept(k, significantOnly) then [token] + rest else rest)
  }

  lemma FirstMatchAdvances()
    ensures Advances(FirstMatch)
  {
  }

  /** The scan the tokenizer performs: first match in priority order. */
  function ScanFrom(code: string, pos: nat, significantOnly: bool): Result<seq<Token>, LexError>
    requires pos <= |code|
  {
    FirstMatchAdvances();
    Scan(FirstMatch, code, pos, significantOnly)
  }

  /** `prefix` followed by the tokens of `r`, or the error of `r`. */
  function Then(prefix: seq<Token>, r: Result<seq<Token>, LexError>): Result<seq<Token>, LexError>
  {
    match r
    case Ok(ts) => Ok(prefix + ts)
    case Err(e) => Err(e)
  }

  /** The inner loop of `Tokenize`: tries the kinds from Comment to
      Whitespace in order and stops at the first whose pattern selects a
      non-empty prefix of the text at `position`; length 0 when none does. */
  method SelectAt(code: string, position: nat) returns (kind: TokenType, length: nat)
    requires position < |code|
    ensures length > 0 ==> FirstMatch(code[position..]) == Some((kind, length))
    ensures length == 0 ==> FirstMatch(code[position..]) == None
  {
    ghost var text := code[position..];
    kind, length := Invalid, 0;
    var tokenType := 1;
    while tokenType <= 10
      invariant 1 <= tokenType <= 11
      invariant FirstMatchFrom(text, 1) == FirstMatchFrom(text, tokenType)
      decreases 11 - tokenType
    {
      length := Match(KindAt(tokenType), code[position..]);
      if length > 0 {
        kind := KindAt(tokenType);
        return;
      }
      tokenType := tokenType + 1;
    }
  }

  /** `Tokenize`: at each offset, takes the token SelectAt picks, keeps it
      unless `significantOnly` excludes its kind, and advances by its length;
      fails where nothing matches. */
  method Tokenize(code: string, significantOnly: bool) returns (r: Result<seq<Token>, LexError>)
    ensures r == ScanFrom(code, 0, significantOnly)
  {
    var tokens: seq<Token> := [];
    var position: nat := 0;
    ghost var whole := ScanFrom(code, 0, significantOnly);
    assert whole.Ok? ==> [] + whole.value == whole.value;
    while position < |code|
      invariant position <= |code|
      invariant whole == Then(tokens, ScanFrom(code, position, significantOnly))
      decreases |code| - position
    {
      var line, col := LineCol(code, position);
      var kind, length := SelectAt(code, position);
      if length == 0 {
        ScanFromStops(code, position, significantOnly);
        return Err(Unrecognized(position, line, col));
      }
      var token := Token(kind, code[position..position + length], line, col);
      TokenizeStep(code, position, significantOnly, kind, length, token, tokens, whole);
      if Kept(kind, significantOnly) {
        tokens := tokens + [token];
      }
      position := position + length;
    }
    assert ScanFrom(code, position, significantOnly) == Ok([]);
    assert tokens + [] == tokens;
    return Ok(tokens);
  }

  /** One round of the loop of `Tokenize` keeps its invariant. */
  lemma TokenizeStep(code: string, pos: nat, significantOnly: bool, k: TokenType, n: nat,
                     token: Token, tokens: seq<Token>, whole: Result<seq<Token>, LexError>)
    requires pos < |code| && FirstMatch(code[pos..]) == Some((k, n))
    requires token == Token(k, code[pos..pos + n], Line(code, pos), Column(code, pos))
    requires whole == Then(tokens, ScanFrom(code, pos, significantOnly))
    ensures pos + n <= |code|
    ensures Kept(k, significantOnly) ==> whole == Then(tokens + [token], ScanFrom(code, pos + n, significantOnly))
    ensures !Kept(k, significantOnly) ==> whole == Then(tokens, ScanFrom(code, pos + n, significantOnly))
  {
    var taken := if Kept(k, significantOnly) then [token] else [];
    ScanFromTakes(code, pos, significantOnly, k, n, token.line, token.column);
    ThenThen(tokens, taken, ScanFrom(code, pos + n, significantOnly));
    assert tokens + [] == tokens;
  }

  /** Where nothing matches, the tokenizer's scan fails there. */
  lemma ScanFromStops(code: string, pos: nat, significantOnly: bool)
    requires pos < |code| && FirstMatch(code[pos..]) == None
    ensures ScanFrom(code, pos, significantOnly) == Err(Unrecognized(pos, Line(code, pos), Column(code, pos)))
  {
    FirstMatchAdvances();
  }

  /** ScanTakes for the tokenizer's own scan. */
  lemma ScanFromTakes(code: string, pos: nat, significantOnly: bool, k: TokenType, n: nat, line: int, col: int)
    requires pos < |code| && FirstMatch(code[pos..]) == Some((k, n))
    requires line == Line(code, pos) && col == Column(code, pos)
    ensures ScanFrom(code, pos, significantOnly) ==
      Then(if Kept(k, significantOnly) then [Token(k, code[pos..pos + n], line, col)] else [],
           ScanFrom(code, pos + n, significantOnly))
  {
    FirstMatchAdvances();
    ScanTakes(FirstMatch, code, pos, significantOnly, k, n);
  }

  /** `Then` composes: adding `a` to what adding `b` gives is adding `a + b`. */
  lemma ThenThen(a: seq<Token>, b: seq<Token>, r: Result<seq<Token>, LexError>)
    ensures Then(a, Then(b, r)) == Then(a + b, r)
  {
    if r.Ok? {
      assert a + (b + r.value) == (a + b) + r.value;
    }
  }

  /** Where the selector picks a token, the scan is that token, kept or not,
      followed by the scan after it. */
  lemma ScanTakes(select: Selector, code: string, pos: nat, significantOnly: bool, k: TokenType, n: nat)
    requires Advances(select) && pos < |code| && select(code[pos..]) == Some((k, n))
    ensures pos + n <= |code|
    ensures Scan(select, code, pos, significantOnly) ==
      Then(if Kept(k, significantOnly) then [Token(k, code[pos..pos + n], Line(code, pos), Column(code, pos))] else [],
           Scan(select, code, pos + n, significantOnly))
  {
    var rest := Scan(select, code, pos + n, significantOnly);
    if rest.Ok? {
      assert [] + rest.value == rest.value;
    }
  }

  // -----------------------------------------------------------------------
  // Properties of the scan, for any selector that takes non-empty prefixes

  /** The texts of `ts`, concatenated in order. */
  function Concat(ts: seq<Token>): string
  {
    if ts == [] then [] else ts[0].value + Concat(ts[1..])
  }

  /** Keeping every token, the texts of the tokens, concatenated in order,
      give back the scanned text. */
  lemma {:induction false} ScanRoundTrip(select: Selector, code: string, pos: nat)
    requires Advances(select) && pos <= |code|
    requires Scan(select, code, pos, false).Ok?
    ensures Concat(Scan(select, code, pos, false).value) == code[pos..]
    decreases |code| - pos
  {
    if pos < |code| {
      var n := select(code[pos..]).value.1;
      var ts := Scan(select, code, pos, false).value;
      var rest := Scan(select, code, pos + n, false).value;
      ScanRoundTrip(select, code, pos + n);
      assert ts[0].value == code[pos..pos + n] && ts[1..] == rest;
      assert code[pos..] == code[pos..pos + n] + code[pos + n..];
    }
  }

  /** The tokens other than whitespace and comments. */
  function Significant(ts: seq<Token>): (r: seq<Token>)
    ensures forall i :: 0 <= i < |r| ==> r[i].kind != Whitespace && r[i].kind != Comment
    ensures forall t :: t in r ==> t in ts
  {
    if ts == [] then []
    else if Kept(ts[0].kind, true) then [ts[0]] + Significant(ts[1..])
    else Significant(ts[1..])
  }

  /** Scanning in significant-only mode succeeds exactly when the full scan
      does, and yields the full scan's tokens without the whitespace and
      comment tokens, in the same order. */
  lemma {:induction false} SignificantOnlyFilters(select: Selector, code: string, pos: nat)
    requires Advances(select) && pos <= |code|
    ensures Scan(select, code, pos, true) ==
      match Scan(select, code, pos, false)
      case Ok(ts) => Ok(Significant(ts))
      case Err(e) => Err(e)
    decreases |code| - pos
  {
    if pos < |code| && select(code[pos..]).Some? {
      var n := select(code[pos..]).value.1;
      SignificantOnlyFilters(select, code, pos + n);
      var all := Scan(select, code, pos, false);
      if all.Ok? {
        assert all.value[1..] == Scan(select, code, pos + n, false).value;
      }
    }
  }

  /** In significant-only mode no whitespace or comment token is produced. */
  lemma SignificantOnlyHasNoLayout(select: Selector, code: string)
    requires Advances(select)
    requires Scan(select, code, 0, true).Ok?
    ensures forall t :: t in Scan(select, code, 0, true).value ==> t.kind != Whitespace && t.kind != Comment
  {
    SignificantOnlyFilters(select, code, 0);
  }

  /** Token `t` is what `select` picks at offset `p`: its text is the
      selected prefix there, and its line and column are those of `p`. */
  predicate SelectedAt(select: Selector, code: string, t: Token, p: nat)
  {
    p < |code| && select(code[p..]) == Some((t.kind, |t.value|))
    && p + |t.value| <= |code| && t.value == code[p..p + |t.value|]
    && t.line == Line(code, p) && t.column == Column(code, p)
  }

  /** Every token is non-empty and is what the selector picks at some offset
      the scan reached. */
  lemma {:induction false} ScanSound(select: Selector, code: string, pos: nat, significantOnly: bool)
    requires Advances(select) && pos <= |code|
    requires Scan(select, code, pos, significantOnly).Ok?
    ensures forall t :: t in Scan(select, code, pos, significantOnly).value ==>
      |t.value| > 0 && exists p :: pos <= p && SelectedAt(select, code, t, p)
    decreases |code| - pos
  {
    if pos < |code| {
      var n := select(code[pos..]).value.1;
      ScanSound(select, code, pos + n, significantOnly);
      var k := select(code[pos..]).value.0;
      var token := Token(k, code[pos..pos + n], Line(code, pos), Column(code, pos));
      assert SelectedAt(select, code, token, pos);
    }
  }

  /** A failed scan names an offset that the scan reached, where the selector
      picks nothing, with that offset's line and column. */
  lemma {:induction false} ScanError(select: Selector, code: string, pos: nat, significantOnly: bool)
    requires Advances(select) && pos <= |code|
    requires Scan(select, code, pos, significantOnly).Err?
    ensures var e := Scan(select, code, pos, significantOnly).error;
      pos <= e.offset < |code| && select(code[e.offset..]).None?
      && e.line == Line(code, e.offset) && e.column == Column(code, e.offset)
    decreases |code| - pos
  {
    if select(code[pos..]).Some? {
      ScanError(select, code, pos + select(code[pos..]).value.1, significantOnly);
    }
  }

  // -----------------------------------------------------------------------
  // How the priority order and the leftmost-first operator rule split text

  /** One of `&|+-*<>` not followed by `=` is a one-character operator. */
  lemma LoneOperator(s: string)
    requires |s| >= 1 && s[0] in "&|+-*<>" && (|s| == 1 || s[1] != '=')
    ensures FirstMatch(s) == Some((Operator, 1))
  {
    NoWordMatch(s);
    assert MatchComment(s) == 0 && MatchMacro(s) == 0 && MatchOperator(s) == 1;
    forall k | 0 < Ordinal(k) < Ordinal(Operator) ensures Match(k, s) == 0 {
    }
    FirstMatchIs(s, Operator);
  }

  /** `&&`, `||`, `++`, `--`, `**`, `<<` and `>>` are not single tokens: the
      first operator alternative takes the first character alone. */
  lemma DoubledOperatorsSplit(s: string)
    requires |s| >= 2 && s[0] == s[1] && s[0] in "&|+-*<>"
    ensures FirstMatch(s) == Some((Operator, 1))
  {
    LoneOperator(s);
  }

  /** An operator character followed by `=` is one two-character token, so
      `+=`, `==`, `<=`, `!=`, `&=` and `/=` are single operators. */
  lemma OperatorWithEquals(s: string)
    requires |s| >= 2 && IsOperatorChar(s[0]) && s[1] == '='
    ensures FirstMatch(s) == Some((Operator, 2))
  {
    NoWordMatch(s);
    assert MatchComment(s) == 0 && MatchMacro(s) == 0 && MatchOperator(s) == 2;
    forall k | 0 < Ordinal(k) < Ordinal(Operator) ensures Match(k, s) == 0 {
    }
    FirstMatchIs(s, Operator);
  }

  /** In the scan, a doubled operator not followed by `=` yields two
      one-character Operator tokens, at consecutive columns. */
  lemma DoubledOperatorScan(code: string, pos: nat, significantOnly: bool)
    requires pos + 2 <= |code| && code[pos] == code[pos + 1] && code[pos] in "&|+-*<>"
    requires pos + 2 == |code| || code[pos + 2] != '='
    ensures ScanFrom(code, pos, significantOnly) ==
      Then([Token(Operator, [code[pos]], Line(code, pos), Column(code, pos)),
            Token(Operator, [code[pos + 1]], Line(code, pos + 1), Column(code, pos + 1))],
           ScanFrom(code, pos + 2, significantOnly))
  {
    DoubledOperatorsSplit(code[pos..]);
    LoneOperator(code[pos + 1..]);
    FirstMatchAdvances();
    ScanTwoOneCharacter(FirstMatch, code, pos, significantOnly, Operator, Operator);
  }

  /** Two one-character selections in a row give their two tokens, in order. */
  lemma ScanTwoOneCharacter(select: Selector, code: string, pos: nat, significantOnly: bool,
                            k1: TokenType, k2: TokenType)
    requires Advances(select) && pos + 2 <= |code|
    requires select(code[pos..]) == Some((k1, 1)) && select(code[pos + 1..]) == Some((k2, 1))
    requires Kept(k1, significantOnly) && Kept(k2, significantOnly)
    ensures Scan(select, code, pos, significantOnly) ==
      Then([Token(k1, [code[pos]], Line(code, pos), Column(code, pos)),
            Token(k2, [code[pos + 1]], Line(code, pos + 1), Column(code, pos + 1))],
           Scan(select, code, pos + 2, significantOnly))
  {
    assert code[pos..pos + 1] == [code[pos]];
    assert code[pos + 1..pos + 2] == [code[pos + 1]];
    var first := Token(k1, [code[pos]], Line(code, pos), Column(code, pos));
    var second := Token(k2, [code[pos + 1]], Line(code, pos + 1), Column(code, pos + 1));
    ScanTakes(select, code, pos, significantOnly, k1, 1);
    ScanTakes(select, code, pos + 1, significantOnly, k2, 1);
    ThenThen([first], [second], Scan(select, code, pos + 2, significantOnly));
    assert [first] + [second] == [first, second];
  }

  /** `::` is a Macro token: Macro is tried before Operator. */
  lemma DoubleColonIsMacro(s: string)
    requires |s| >= 2 && s[0] == ':' && s[1] == ':'
    ensures FirstMatch(s) == Some((Macro, 2))
  {
    NoWordMatch(s);
    assert MatchComment(s) == 0 && MatchMacro(s) == 2;
    forall k | 0 < Ordinal(k) < Ordinal(Macro) ensures Match(k, s) == 0 {
    }
    FirstMatchIs(s, Macro);
  }

  /** Text starting with a letter is a Keyword when a keyword ends at a word
      boundary there, and an Identifier otherwise; either way the token is
      the whole word, so `intx` is one Identifier. */
  lemma WordIsKeywordOrIdentifier(s: string)
    requires |s| > 0 && IsLetter(s[0])
    ensures MatchKeyword(s) > 0 ==> FirstMatch(s) == Some((Keyword, MatchIdentifier(s)))
    ensures MatchKeyword(s) == 0 ==> FirstMatch(s) == Some((Identifier, MatchIdentifier(s)))
  {
    LetterStartsWord(s);
    var n := MatchKeyword(s);
    if n > 0 {
      KeywordIsWholeWord(s);
      forall k | 0 < Ordinal(k) < Ordinal(Keyword) ensures Match(k, s) == 0 {
      }
      FirstMatchIs(s, Keyword);
    } else {
      forall k | 0 < Ordinal(k) < Ordinal(Identifier) ensures Match(k, s) == 0 {
      }
      FirstMatchIs(s, Identifier);
    }
  }

  /** Only the keyword and identifier patterns can match at a letter. */
  lemma LetterStartsWord(s: string)
    requires |s| > 0 && IsLetter(s[0])
    ensures MatchComment(s) == 0 && MatchPreprocessor(s) == 0 && MatchNumber(s) == 0
    ensures MatchString(s) == 0 && MatchMacro(s) == 0 && MatchOperator(s) == 0
    ensures MatchPunctuation(s) == 0 && MatchIdentifier(s) > 0
  {
  }

  /** A keyword match is as long as the identifier match at the same place. */
  lemma KeywordIsWholeWord(s: string)
    requires MatchKeyword(s) > 0
    ensures MatchKeyword(s) == MatchIdentifier(s)
  {
    MatchKeywordSpec(s);
    MatchIdentifierSpec(s);
    var n := MatchKeyword(s);
    var m := MatchIdentifier(s);
    var i :| 0 <= i < |Keywords| && Keywords[i] == s[..n];
    KeywordsAreIdentifiers(i);
    forall j | n < j <= |s| ensures !IsIdentifierText(s[..j]) {
      assert s[..j][n] == s[n];
    }
  }

  /** Text starting with a digit is a Number token. */
  lemma DigitStartsNumber(s: string)
    requires |s| > 0 && IsDigit(s[0])
    ensures FirstMatch(s) == Some((Number, MatchNumber(s)))
  {
    assert MatchComment(s) == 0 && MatchPreprocessor(s) == 0;
    forall k | 0 < Ordinal(k) < Ordinal(Number) ensures Match(k, s) == 0 {
    }
    FirstMatchIs(s, Number);
  }
}
