/**
 * decimalToMinor and minorToDecimal (packages/amazon-adapter/src/mapping.ts:12-20, 39-41): decimal text
 * and whole minor units. A JSON number enters as the text that JavaScript prints for it.
 */
module MinorUnits {
  import opened Common
  import opened ChannelPort
  import opened Text

  // ---------------------------------------------------------------- reading

  /** A plain decimal: at most 15 digits, then perhaps a point and digits. */
  predicate Shape(whole: string, fraction: string) { AllDigits(whole) && 1 <= |whole| <= 15 && AllDigits(fraction) }

  /** `padEnd(2, '0')`. */
  function PadEnd2(s: string): (r: string) { if |s| == 0 then "00" else if |s| == 1 then s + "0" else s }

  /** The amount of a whole and a fraction part; None for a fraction finer than a hundredth. */
  function Hundredths(whole: string, fraction: string): (r: Option<int>)
    requires Shape(whole, fraction)
  {
    var frac := PadEnd2(fraction);
    if exists c :: c in frac[2..] && '1' <= c <= '9' then None
    else
      assert forall c :: c in frac ==> IsDigit(c);
      var minor := Decimal(whole) * 100 + Decimal(frac[..2]);
      if minor <= MAX_SAFE_INTEGER then Some(minor) else None
  }

  /** `decimalToMinor` of a text. */
  function DecimalToMinor(value: string): (r: Option<int>) {
    var text := Trim(value);
    var dot := IndexOfChar(text, '.');
    var whole, fraction := text[..dot], if dot == |text| then "" else text[dot + 1..];
    if Shape(whole, fraction) && (dot < |text| ==> fraction != "") then Hundredths(whole, fraction) else None
  }

  /** The text is the plain decimal of these parts. */
  predicate Spells(text: string, whole: string, fraction: string) {
    Shape(whole, fraction) && text == if fraction == "" then whole else whole + "." + fraction
  }

  /** The value of the parts is exactly `n` hundredths, compared without dividing. */
  predicate IsExactly(whole: string, fraction: string, n: int)
    requires Shape(whole, fraction)
  {
    n * Pow10(|fraction|) == 100 * (Decimal(whole) * Pow10(|fraction|) + Decimal(fraction))
  }

  lemma {:induction false} ZeroIsZeros(s: string)
    requires AllDigits(s)
    ensures Decimal(s) == 0 <==> !exists c :: c in s && '1' <= c <= '9'
  {
    if s != "" {
      var rest, last := s[..|s| - 1], s[|s| - 1];
      assert s == rest + [last];
      assert last in s && IsDigit(last);
      ZeroIsZeros(rest);
      if exists c :: c in rest && '1' <= c <= '9' {
        var c :| c in rest && '1' <= c <= '9';
        assert c in s;
      }
    }
  }

  /** A multiple of `m` that is less than `m` is zero. */
  lemma {:induction false} SmallMultiple(x: int, m: nat)
    requires m >= 1
    ensures x >= 1 ==> x * m >= m
    ensures x <= -1 ==> x * m + m <= 0
  {
    if x >= 1 {
      assert (x - 1) * m >= 0;
    }
    if x <= -1 {
      assert (-1 - x) * m >= 0;
    }
  }

  lemma {:induction false} ExactlyWhen(n: int, w: int, p: nat, q: nat, x: int, r: nat)
    requires q == 100 * p && r < p
    ensures n * q == 100 * (w * q + (x * p + r)) <==> r == 0 && n == w * 100 + x
  {
    var y := n - 100 * w - x;
    assert n * q == 100 * (n * p) && w * q == 100 * (w * p);
    assert y * p == n * p - 100 * (w * p) - x * p;
    SmallMultiple(y, p);
  }

  lemma {:induction false} FineFraction(whole: string, fraction: string, n: int)
    requires Shape(whole, fraction) && |fraction| >= 2
    ensures IsExactly(whole, fraction, n) <==>
            Decimal(fraction[2..]) == 0 && n == Decimal(whole) * 100 + Decimal(fraction[..2])
  {
    var a, rest := fraction[..2], fraction[2..];
    assert fraction == a + rest;
    DecimalAppend(a, rest);
    DecimalBound(rest);
    assert |fraction| == |rest| + 2 && Pow10(|rest| + 1) == 10 * Pow10(|rest|);
    ExactlyWhen(n, Decimal(whole), Pow10(|rest|), Pow10(|fraction|), Decimal(a), Decimal(rest));
  }

  lemma {:induction false} HundredthsAreExact(whole: string, fraction: string, n: int)
    requires Shape(whole, fraction)
    ensures Hundredths(whole, fraction) == Some(n) <==> IsExactly(whole, fraction, n) && n <= MAX_SAFE_INTEGER
  {
    var frac := PadEnd2(fraction);
    assert Pow10(0) == 1 && Pow10(1) == 10;
    if |fraction| >= 2 {
      FineFraction(whole, fraction, n);
      ZeroIsZeros(fraction[2..]);
    } else if |fraction| == 1 {
      assert frac[..2] == fraction + "0" && frac[2..] == "";
      DecimalAppend(fraction, "0");
      assert Decimal("0") == 0;
    } else {
      assert frac[..2] == "00" && Decimal("00") == 0 && Decimal("") == 0;
    }
  }

  lemma {:induction false} PointIsFound(whole: string, fraction: string)
    requires '.' !in whole
    ensures var t := whole + "." + fraction;
            IndexOfChar(t, '.') == |whole| && t[..|whole|] == whole && t[|whole| + 1..] == fraction
  {
    var tail := ['.'] + fraction;
    IndexAfter(whole, '.', tail);
    assert whole + "." + fraction == whole + tail;
  }

  lemma {:induction false} NoPointIsFound(whole: string)
    requires '.' !in whole
    ensures IndexOfChar(whole, '.') == |whole|
  {
    IndexAfter(whole, '.', "");
    assert whole + "" == whole;
  }

  /** The parts of a text are its own: what it spells is found at its first point. */
  lemma {:induction false} PartsAreFound(text: string, whole: string, fraction: string)
    requires Spells(text, whole, fraction)
    ensures IndexOfChar(text, '.') == |whole| && text[..|whole|] == whole
    ensures if fraction == "" then |text| == |whole| else |text| > |whole| && text[|whole| + 1..] == fraction
  {
    assert '.' !in whole;
    if fraction == "" {
      NoPointIsFound(whole);
    } else {
      PointIsFound(whole, fraction);
    }
  }

  lemma {:induction false} PartsSpell(text: string)
    ensures var dot := IndexOfChar(text, '.');
            dot < |text| ==> text == text[..dot] + "." + text[dot + 1..]
  {
  }

  lemma {:induction false} SpelledIsRead(value: string, whole: string, fraction: string, n: int)
    requires Spells(Trim(value), whole, fraction)
    ensures DecimalToMinor(value) == Some(n) <==> IsExactly(whole, fraction, n) && n <= MAX_SAFE_INTEGER
  {
    PartsAreFound(Trim(value), whole, fraction);
    HundredthsAreExact(whole, fraction, n);
  }

  lemma {:induction false} ReadIsSpelled(value: string) returns (whole: string, fraction: string)
    requires DecimalToMinor(value).Some?
    ensures Spells(Trim(value), whole, fraction)
  {
    var text := Trim(value);
    var dot := IndexOfChar(text, '.');
    PartsSpell(text);
    assert text[..|text|] == text;
    whole, fraction := text[..dot], if dot == |text| then "" else text[dot + 1..];
  }

  /**
   * decimalToMinor never rounds: it gives `n` exactly when the text, without white space around it, is
   * a plain decimal of at most 15 digits before the point whose value is `n` hundredths, and `n` is a
   * safe integer.
   */
  lemma {:induction false} ReadsExactly(value: string, n: int)
    ensures DecimalToMinor(value) == Some(n) <==>
            n <= MAX_SAFE_INTEGER
            && exists whole, fraction :: Spells(Trim(value), whole, fraction) && IsExactly(whole, fraction, n)
  {
    if DecimalToMinor(value) == Some(n) {
      var whole, fraction := ReadIsSpelled(value);
      SpelledIsRead(value, whole, fraction, n);
    }
    if exists whole, fraction :: Spells(Trim(value), whole, fraction) && IsExactly(whole, fraction, n) {
      var whole, fraction :| Spells(Trim(value), whole, fraction) && IsExactly(whole, fraction, n);
      SpelledIsRead(value, whole, fraction, n);
    }
  }

  // ---------------------------------------------------------------- printing

  function Abs(n: int): (r: nat) { if n < 0 then -n else n }

  /** `${Math.trunc(minor / 100)}`: the sign of a negative zero is not printed. */
  function PrintWhole(minor: int): (s: string) {
    (if minor <= -100 then "-" else "") + Print(Abs(minor) / 100)
  }

  /** The digits that minorToDecimal makes a number of. */
  function MinorToDecimal(minor: int): (s: string) {
    var cents := Abs(minor) % 100;
    PrintWhole(minor) + "." + [DigitChar(cents / 10), DigitChar(cents % 10)]
  }

  /** The same number as JSON prints it, without zeros at its end. */
  function Shortest(minor: nat): (s: string) {
    var cents := minor % 100;
    Print(minor / 100) + if cents == 0 then "" else if cents % 10 == 0 then "." + [DigitChar(cents / 10)]
                         else "." + [DigitChar(cents / 10), DigitChar(cents % 10)]
  }

  lemma {:induction false} NoSpace(text: string)
    requires text != "" && (IsDigit(text[0]) || text[0] == '-') && IsDigit(text[|text| - 1])
    ensures Trim(text) == text
  {
  }

  /** What a text with these digits before and after its point reads as. */
  lemma {:induction false} ReadsAs(whole: string, fraction: string, n: nat)
    requires Shape(whole, fraction) && IsExactly(whole, fraction, n) && n <= MAX_SAFE_INTEGER
    ensures DecimalToMinor(if fraction == "" then whole else whole + "." + fraction) == Some(n)
  {
    var text := if fraction == "" then whole else whole + "." + fraction;
    assert text[0] == whole[0] && whole[0] in whole;
    if fraction == "" {
      assert text[|text| - 1] in whole;
    } else {
      assert text[|text| - 1] == fraction[|fraction| - 1] && fraction[|fraction| - 1] in fraction;
    }
    NoSpace(text);
    assert Spells(Trim(text), whole, fraction);
    ReadsExactly(text, n);
  }

  lemma {:induction false} WholeFits(n: nat)
    requires n <= MAX_SAFE_INTEGER
    ensures AllDigits(Print(n / 100)) && 1 <= |Print(n / 100)| <= 15 && Decimal(Print(n / 100)) == n / 100
  {
    Pow15();
    PrintLength(n / 100, 15);
    DecimalPrint(n / 100);
  }

  lemma {:induction false} Pow15()
    ensures Pow10(15) == 1000000000000000
  {
    assert Pow10(5) == 100000;
    assert Pow10(10) == 10000000000;
  }

  lemma {:induction false} Digit1(a: nat)
    requires a < 10
    ensures AllDigits([DigitChar(a)]) && Decimal([DigitChar(a)]) == a
  {
    assert [DigitChar(a)][..0] == "";
  }

  lemma {:induction false} Digits2(a: nat, b: nat)
    requires a < 10 && b < 10
    ensures AllDigits([DigitChar(a), DigitChar(b)]) && Decimal([DigitChar(a), DigitChar(b)]) == 10 * a + b
  {
    var s := [DigitChar(a), DigitChar(b)];
    Digit1(a);
    assert s[..1] == [DigitChar(a)];
  }

  lemma {:induction false} TwoDigitsReadBack(n: nat)
    requires n <= MAX_SAFE_INTEGER
    ensures DecimalToMinor(Print(n / 100) + "." + [DigitChar(n % 100 / 10), DigitChar(n % 100 % 10)]) == Some(n)
  {
    var two := [DigitChar(n % 100 / 10), DigitChar(n % 100 % 10)];
    WholeFits(n);
    Digits2(n % 100 / 10, n % 100 % 10);
    assert Pow10(2) == 100;
    ReadsAs(Print(n / 100), two, n);
  }

  lemma {:induction false} OneDigitReadsBack(n: nat)
    requires n <= MAX_SAFE_INTEGER && n % 10 == 0
    ensures DecimalToMinor(Print(n / 100) + "." + [DigitChar(n % 100 / 10)]) == Some(n)
  {
    WholeFits(n);
    Digit1(n % 100 / 10);
    assert Pow10(1) == 10;
    ReadsAs(Print(n / 100), [DigitChar(n % 100 / 10)], n);
  }

  lemma {:induction false} NoDigitsReadBack(n: nat)
    requires n <= MAX_SAFE_INTEGER && n % 100 == 0
    ensures DecimalToMinor(Print(n / 100)) == Some(n)
  {
    WholeFits(n);
    assert Pow10(0) == 1 && Decimal("") == 0;
    ReadsAs(Print(n / 100), "", n);
  }

  /** The digits of an amount from zero on. */
  lemma {:induction false} PrintedDigits(n: nat)
    ensures MinorToDecimal(n) == Print(n / 100) + "." + [DigitChar(n % 100 / 10), DigitChar(n % 100 % 10)]
    ensures Shortest(n) == if n % 100 == 0 then Print(n / 100)
                           else if n % 10 == 0 then Print(n / 100) + "." + [DigitChar(n % 100 / 10)]
                           else Print(n / 100) + "." + [DigitChar(n % 100 / 10), DigitChar(n % 100 % 10)]
  {
    var whole, a, b := Print(n / 100), DigitChar(n % 100 / 10), DigitChar(n % 100 % 10);
    assert "" + whole == whole && whole + "" == whole;
    assert n % 100 % 10 == n % 10;
    assert whole + ("." + [a]) == whole + "." + [a] && whole + ("." + [a, b]) == whole + "." + [a, b];
  }

  /** Printed digits read back, with the zeros at their end or without, for every safe amount from zero on. */
  lemma {:induction false} PrintedReadsBack(n: nat)
    requires n <= MAX_SAFE_INTEGER
    ensures DecimalToMinor(MinorToDecimal(n)) == Some(n) && DecimalToMinor(Shortest(n)) == Some(n)
  {
    PrintedDigits(n);
    TwoDigitsReadBack(n);
    if n % 100 == 0 {
      NoDigitsReadBack(n);
    } else if n % 10 == 0 {
      OneDigitReadsBack(n);
    }
  }

  lemma {:induction false} SignIsNotRead(text: string)
    requires text != "" && text[0] == '-' && IsDigit(text[|text| - 1])
    ensures DecimalToMinor(text).None?
  {
    NoSpace(text);
    var dot := IndexOfChar(text, '.');
    assert dot > 0 && text[..dot][0] == '-';
    assert '-' in text[..dot];
  }

  /**
   * For which amounts minorToDecimal's digits read back: exactly the safe ones from zero on. Below
   * minus 99 the sign is printed and the reader takes no sign; from minus 99 to minus 1 the sign is
   * lost, and the digits read as the opposite amount.
   */
  lemma {:induction false} ReadsBackExactly(minor: int)
    requires -MAX_SAFE_INTEGER <= minor <= MAX_SAFE_INTEGER
    ensures DecimalToMinor(MinorToDecimal(minor)) == Some(minor) <==> minor >= 0
    ensures -100 < minor < 0 ==> DecimalToMinor(MinorToDecimal(minor)) == Some(-minor)
    ensures minor <= -100 ==> DecimalToMinor(MinorToDecimal(minor)).None?
  {
    PrintedReadsBack(Abs(minor));
    if -100 < minor < 0 {
      assert MinorToDecimal(minor) == MinorToDecimal(-minor);
    } else if minor <= -100 {
      SignIsNotRead(MinorToDecimal(minor));
    }
  }
}
