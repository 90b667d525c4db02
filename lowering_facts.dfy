/** Properties of the number handling and the `printf` format strings of
    the lowering (src/builder/main.go): the decimal labels of blocks read
    back as the numbers they were made from, `strconv.Atoi` and
    `fmt.Sscanf` agree where both apply, the literals the scanner produces
    lower exactly when their magnitude fits a double, and a format string
    holds one conversion per argument. */
module LoweringFacts {
  import opened Wrappers
  import opened AstNode
  import opened Ir
  import P = Patterns
  import opened Lowering

  // -----------------------------------------------------------------------
  // Decimal labels

  /** Reading the digits of `Decimal(n)` gives `n` back. */
  lemma {:induction false} DecimalRoundTrip(n: nat)
    ensures DigitsValue(Decimal(n)) == n
  {
    if n >= 10 {
      DecimalRoundTrip(n / 10);
      var s := Decimal(n);
      assert s[..|s| - 1] == Decimal(n / 10);
    }
  }

  /** `Decimal` writes no leading zero. */
  lemma {:induction false} DecimalNoLeadingZero(n: nat)
    ensures Decimal(n)[0] == '0' <==> n == 0
  {
    if n >= 10 {
      DecimalNoLeadingZero(n / 10);
      assert Decimal(n)[0] == Decimal(n / 10)[0];
    }
  }

  /** Blocks numbered differently get different labels: the labels
      `prefix + Decimal(k)` of `generateConditional` and
      `generateWhileStatement` tell the counts apart. */
  lemma LabelsDiffer(prefix: string, j: nat, k: nat)
    requires j != k
    ensures prefix + Decimal(j) != prefix + Decimal(k)
  {
    if prefix + Decimal(j) == prefix + Decimal(k) {
      assert Decimal(j) == (prefix + Decimal(j))[|prefix|..];
      assert Decimal(k) == (prefix + Decimal(k))[|prefix|..];
      DecimalRoundTrip(j);
      DecimalRoundTrip(k);
    }
  }

  // -----------------------------------------------------------------------
  // Integer texts

  /** A run of digits is read to its end. */
  lemma DigitRunOfDigits(s: string)
    requires AllDigits(s)
    ensures DigitRun(s) == |s|
  {
  }

  /** `strconv.Atoi` reads a number written by `Decimal` exactly when it is
      within the range of an int. */
  lemma AtoiOfDecimal(n: nat)
    ensures Atoi(Decimal(n)) == if n <= MaxInt64 then Some(n) else None
  {
    var s := Decimal(n);
    assert SignSplit(s) == (false, 0);
    assert s[0..] == s;
    DecimalRoundTrip(n);
  }

  /** With a minus sign it reads the negated number, down to the least
      int. */
  lemma AtoiOfNegative(n: nat)
    ensures Atoi("-" + Decimal(n)) == if n <= -MinInt64 then Some(-(n as int)) else None
  {
    var s := "-" + Decimal(n);
    assert SignSplit(s) == (true, 1);
    assert s[1..] == Decimal(n);
    DecimalRoundTrip(n);
  }

  /** Where `strconv.Atoi` accepts a text, `fmt.Sscanf` with `%d` reads
      the same number from it. */
  lemma ScanIntAgreesWithAtoi(s: string)
    requires Atoi(s).Some?
    ensures ScanInt(s) == Atoi(s).value
  {
    var (negative, start) := SignSplit(s);
    var digits := s[start..];
    DigitRunOfDigits(digits);
    assert digits[..|digits|] == digits;
  }

  /** The digits run up to the first character that is not a digit. */
  lemma {:induction false} DigitRunStops(d: string, rest: string)
    requires AllDigits(d) && (0 < |rest| ==> !P.IsDigit(rest[0]))
    ensures DigitRun(d + rest) == |d|
  {
    if |d| > 0 {
      assert (d + rest)[1..] == d[1..] + rest;
      DigitRunStops(d[1..], rest);
    } else {
      assert d + rest == rest;
    }
  }

  /** `fmt.Sscanf` with `%d` stops at the first character after the digits:
      a number followed by anything that is not a digit reads as that
      number. */
  lemma ScanIntStopsAtNonDigit(n: nat, rest: string)
    requires n <= MaxInt64 && (0 < |rest| ==> !P.IsDigit(rest[0]))
    ensures ScanInt(Decimal(n) + rest) == n
  {
    var d := Decimal(n);
    var s := d + rest;
    assert SignSplit(s) == (false, 0);
    assert s[0..] == s;
    DigitRunStops(d, rest);
    assert s[..|d|] == d;
    DecimalRoundTrip(n);
  }

  // -----------------------------------------------------------------------
  // Literals from the scanner

  lemma {:induction false} Pow2Grows(m: nat, n: nat)
    requires m <= n
    ensures Pow2(m) <= Pow2(n)
  {
    if m < n {
      Pow2Grows(m, n - 1);
    }
  }

  /** Eight doublings multiply by 256. */
  lemma Pow2Eight(n: nat)
    ensures Pow2(n + 8) == 256 * Pow2(n)
  {
    assert Pow2(n + 2) == 4 * Pow2(n);
    assert Pow2(n + 4) == 4 * Pow2(n + 2);
    assert Pow2(n + 6) == 4 * Pow2(n + 4);
    assert Pow2(n + 8) == 4 * Pow2(n + 6);
  }

  /** The least int, negated, is 2^63. */
  lemma Pow2Of63()
    ensures Pow2(63) == -MinInt64
  {
    assert Pow2(7) == 0x80;
    Pow2Eight(7);
    assert Pow2(15) == 0x8000;
    Pow2Eight(15);
    assert Pow2(23) == 0x80_0000;
    Pow2Eight(23);
    assert Pow2(31) == 0x8000_0000;
    Pow2Eight(31);
    assert Pow2(39) == 0x80_0000_0000;
    Pow2Eight(39);
    assert Pow2(47) == 0x8000_0000_0000;
    Pow2Eight(47);
    assert Pow2(55) == 0x80_0000_0000_0000;
    Pow2Eight(55);
  }

  /** The bound is far above the range of an int. */
  lemma IntRangeBelowFloatOverflow()
    ensures MaxInt64 < FloatOverflow
  {
    Pow2Of63();
    Pow2Grows(63, 970);
    var x, y := Pow2(54) - 1, Pow2(970);
    assert x >= 1;
    assert x * y >= y;
  }

  /** The digits of a Number token's text run up to its `.`, or to its end
      when it has none. */
  lemma NumberTextDigits(t: string, d: nat)
    requires 0 < d <= |t| && P.All(t[..d], P.IsDigit) && (d == |t| || t[d] == '.')
    ensures DigitRun(t) == d
  {
    assert t == t[..d] + t[d..];
    DigitRunStops(t[..d], t[d..]);
  }

  /** A Number token's text with a `.` is a decimal number. */
  lemma NumberTextIsFloat(t: string, d: nat)
    requires 0 < d < |t| && P.All(t[..d], P.IsDigit) && t[d] == '.' && P.All(t[d + 1..], P.IsDigit)
    ensures IsFloatText(t) && !AllDigits(t)
  {
    assert SignSplit(t) == (false, 0);
    assert t[0..] == t;
    assert t[..d][0] == t[0];
    forall i | 0 <= i < |t| && i != d
      ensures P.IsDigit(t[i])
    {
      if i < d {
        assert t[..d][i] == t[i];
      } else {
        assert t[d + 1..][i - d - 1] == t[i];
      }
    }
  }

  /** A Number token without a `.` lowers to an i32 constant when it is in
      the range of an int, and otherwise to a double unless it overflows
      one. */
  lemma IntegerTokenLowers(t: string)
    requires 0 < |t| && AllDigits(t)
    ensures GenerateLiteral(Leaf(Literal, t)) ==
      if DigitsValue(t) <= MaxInt64 then Ok(IntConst(DigitsValue(t)))
      else if DigitsValue(t) < FloatOverflow then Ok(FloatConst(t))
      else Err(UnsupportedLiteral(t))
  {
    assert SignSplit(t) == (false, 0);
    assert t[0..] == t;
    DigitRunOfDigits(t);
    assert t[..|t|] == t;
    assert IsFloatText(t) by {
      assert P.IsDigit(t[0]);
    }
  }

  /** A Number token with a `.` after `d` digits lowers to a double
      constant unless the digits before the `.` overflow one. */
  lemma DecimalTokenLowers(t: string, d: nat)
    requires 0 < d < |t| && P.All(t[..d], P.IsDigit) && t[d] == '.' && P.All(t[d + 1..], P.IsDigit)
    ensures AllDigits(t[..d])
    ensures GenerateLiteral(Leaf(Literal, t)) ==
      if DigitsValue(t[..d]) < FloatOverflow then Ok(FloatConst(t)) else Err(UnsupportedLiteral(t))
  {
    assert SignSplit(t) == (false, 0);
    assert t[0..] == t;
    NumberTextDigits(t, d);
    NumberTextIsFloat(t, d);
  }

  /** Every Number token lowers, as a constant, exactly when the digits
      before its `.` stay below `FloatOverflow`; integers in the range of
      an int become i32 constants and every other number a double. */
  lemma NumberTokenLowers(t: string)
    requires P.IsNumberText(t)
    ensures GenerateLiteral(Leaf(Literal, t)).Ok? <==> DigitsValue(t[..DigitRun(t)]) < FloatOverflow
    ensures GenerateLiteral(Leaf(Literal, t)).Ok? ==>
      GenerateLiteral(Leaf(Literal, t)).value
        == if AllDigits(t) && DigitsValue(t) <= MaxInt64 then IntConst(DigitsValue(t)) else FloatConst(t)
  {
    var d :| 0 < d <= |t| && P.All(t[..d], P.IsDigit) && (d == |t| || (t[d] == '.' && P.All(t[d + 1..], P.IsDigit)));
    NumberTextDigits(t, d);
    if d == |t| {
      assert t[..d] == t;
      IntegerTokenLowers(t);
      IntRangeBelowFloatOverflow();
    } else {
      DecimalTokenLowers(t, d);
      assert !P.IsDigit(t[d]);
    }
  }

  // -----------------------------------------------------------------------
  // printf format strings

  predicate Printable(v: Value)
  {
    TypeOf(v) == I32 || TypeOf(v) == Double
  }

  /** The conversion letter of an i32 or double argument. */
  function ConversionLetter(v: Value): char
  {
    if TypeOf(v) == I32 then 'd' else 'f'
  }

  /** The conversions `%d` and `%f` of a sequence of i32 and double
      arguments, in order. */
  function Specifiers(args: seq<Value>): string
  {
    if |args| == 0 then "" else ['%', ConversionLetter(args[0])] + Specifiers(args[1..])
  }

  /** Two characters per argument: a `%` and the argument's letter. */
  lemma {:induction false} SpecifiersShape(args: seq<Value>)
    ensures |Specifiers(args)| == 2 * |args|
    ensures forall j :: 0 <= j < |args| ==>
      Specifiers(args)[2 * j] == '%' && Specifiers(args)[2 * j + 1] == ConversionLetter(args[j])
  {
    if |args| > 0 {
      SpecifiersShape(args[1..]);
      var rest := Specifiers(args[1..]);
      forall j | 1 <= j < |args|
        ensures Specifiers(args)[2 * j] == '%' && Specifiers(args)[2 * j + 1] == ConversionLetter(args[j])
      {
        assert args[1..][j - 1] == args[j];
        assert Specifiers(args)[2 * j] == rest[2 * (j - 1)];
        assert Specifiers(args)[2 * j + 1] == rest[2 * (j - 1) + 1];
      }
    }
  }

  /** From argument `i` on, i32 and double arguments append their
      conversions. */
  lemma {:induction false} ConversionsOfPrintable(args: seq<Value>, i: nat, acc: string)
    requires i <= |args| && forall j :: i <= j < |args| ==> Printable(args[j])
    ensures Conversions(args, i, acc) == Ok(acc + Specifiers(args[i..]))
    decreases |args| - i
  {
    if i < |args| {
      var c := ['%', ConversionLetter(args[i])];
      assert Conversion(TypeOf(args[i])) == Ok(c);
      ConversionsOfPrintable(args, i + 1, acc + c);
      assert args[i..][1..] == args[i + 1..];
      assert acc + c + Specifiers(args[i + 1..]) == acc + (c + Specifiers(args[i + 1..]));
    } else {
      assert args[i..] == [];
      assert acc + Specifiers(args[i..]) == acc;
    }
  }

  /** The first argument from `i` on that is neither an i32 nor a double
      fails the conversions, naming its type. */
  lemma {:induction false} ConversionsStopAt(args: seq<Value>, i: nat, acc: string, bad: nat)
    requires i <= bad < |args| && !Printable(args[bad])
    requires forall k :: i <= k < bad ==> Printable(args[k])
    ensures Conversions(args, i, acc) == Err(UnsupportedPrintfArgument(TypeOf(args[bad])))
    decreases bad - i
  {
    if i < bad {
      var c := ['%', ConversionLetter(args[i])];
      assert Conversion(TypeOf(args[i])) == Ok(c);
      ConversionsStopAt(args, i + 1, acc + c, bad);
    }
  }

  /** The format string of a `printf` whose arguments are all i32 or
      double values: their conversions, a newline and a NUL. */
  lemma FormatStringOfPrintable(args: seq<Value>)
    requires forall j :: 0 <= j < |args| ==> Printable(args[j])
    ensures FormatString(args) == Ok(Specifiers(args) + "\n\0")
  {
    ConversionsOfPrintable(args, 0, "");
    assert args[0..] == args;
    assert "" + Specifiers(args) == Specifiers(args);
  }

  /** A `printf` with an argument of any other type fails on the first
      such argument. */
  lemma FormatStringStopsAt(args: seq<Value>, bad: nat)
    requires bad < |args| && !Printable(args[bad]) && forall k :: 0 <= k < bad ==> Printable(args[k])
    ensures FormatString(args) == Err(UnsupportedPrintfArgument(TypeOf(args[bad])))
  {
    ConversionsStopAt(args, 0, "", bad);
  }
}
