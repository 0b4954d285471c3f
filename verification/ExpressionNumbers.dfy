/** Which numbers the literals of the expression language denote: the finite decimals, and none. */
module ExpressionNumbers {
  import opened Expressions
  import opened ExpressionGrammar
  import opened ExpressionTokens

  function Pow10(k: nat): (p: nat)
    ensures p >= 1
  {
    if k == 0 then 1 else 10 * Pow10(k - 1)
  }

  /** So many units of the last of so many decimals. */
  predicate IsUnits(r: real, m: nat, k: nat) {
    r * Pow10(k) as real == m as real
  }

  /** A non-negative number that is written with finitely many decimals, or not a number. */
  ghost predicate IsDecimal(n: Num) {
    n.NaN? || exists m: nat, k: nat :: IsUnits(n.value, m, k)
  }

  predicate IsNumberText(text: string) {
    Spellable(NumberLit(text))
  }

  // ------------------------------------------------ literals denote decimals

  function DigitAt(s: string, i: nat): int
    requires i < |s|
  {
    s[i] as int - '0' as int
  }

  lemma {:induction false} DigitsAreNatural(s: string) returns (m: nat)
    requires All(s, IsDigit)
    ensures DigitsValue(s) == m as real
  {
    m := 0;
    if s != "" {
      var front := DigitsAreNatural(s[..|s| - 1]);
      m := front * 10 + DigitAt(s, |s| - 1);
    }
  }

  lemma {:induction false} FractionsAreDecimal(s: string) returns (m: nat)
    requires All(s, IsDigit)
    ensures IsUnits(FractionValue(s), m, |s|)
  {
    m := 0;
    if s != "" {
      var rest := FractionsAreDecimal(s[1..]);
      var d, p := DigitAt(s, 0), Pow10(|s| - 1);
      m := d * p + rest;
      UnitsOfTenth(d, FractionValue(s[1..]), rest, |s| - 1);
    }
  }

  lemma {:induction false} TenthOfSum(d: real, f: real, p: real)
    ensures (d + f) / 10.0 * (10.0 * p) == d * p + f * p
  {
  }

  lemma {:induction false} PartsAreDigits(s: string)
    requires All(s, InNumber)
    ensures forall i :: 0 <= i < |Split(s)| ==> All(Split(s)[i], IsDigit)
  {
    if s != "" {
      PartsAreDigits(s[1..]);
    }
  }

  lemma {:induction false} LiteralIsDecimal(text: string)
    requires IsNumberText(text)
    ensures IsDecimal(ToNumber(text))
  {
    var parts := Split(text);
    PartsAreDigits(text);
    if |parts| <= 2 {
      var whole := DigitsAreNatural(parts[0]);
      if |parts| == 1 {
        assert IsUnits(ToNumber(text).value, whole, 0);
      } else {
        var rest := FractionsAreDecimal(parts[1]);
        UnitsOfSum(whole, FractionValue(parts[1]), rest, |parts[1]|);
        assert IsUnits(ToNumber(text).value, whole * Pow10(|parts[1]|) + rest, |parts[1]|);
      }
    }
  }

  lemma {:induction false} SumScaled(whole: nat, f: real, p: nat, rest: nat)
    requires f * p as real == rest as real && p >= 1
    ensures (whole as real + f) * p as real == (whole * p + rest) as real
  {
  }

  lemma {:induction false} UnitsOfSum(whole: nat, f: real, rest: nat, k: nat)
    requires IsUnits(f, rest, k)
    ensures IsUnits(whole as real + f, whole * Pow10(k) + rest, k)
  {
    SumScaled(whole, f, Pow10(k), rest);
  }

  // ------------------------------------------------- decimals have literals

  function DigitChar(d: nat): (c: char)
    requires d < 10
    ensures IsDigit(c) && c as int - '0' as int == d
  {
    ('0' as int + d) as char
  }

  function WholeText(m: nat): (s: string)
    ensures s != "" && All(s, IsDigit)
  {
    if m < 10 then [DigitChar(m)] else WholeText(m / 10) + [DigitChar(m % 10)]
  }

  lemma {:induction false} WholeTextIsRight(m: nat)
    ensures DigitsValue(WholeText(m)) == m as real
  {
    var s := WholeText(m);
    if m >= 10 {
      WholeTextIsRight(m / 10);
      assert s[..|s| - 1] == WholeText(m / 10);
    } else {
      assert s[..0] == "";
    }
  }

  lemma {:induction false} LeadingDigit(m: nat, p: nat)
    requires p >= 1 && m < 10 * p
    ensures m / p < 10 && m == (m / p) * p + m % p
  {
  }

  /** So many hundredths, thousandths and so on, written out with all their zeros. */
  function FractionText(m: nat, k: nat): (s: string)
    requires m < Pow10(k)
    ensures |s| == k && All(s, IsDigit)
  {
    if k == 0 then ""
    else
      LeadingDigit(m, Pow10(k - 1));
      [DigitChar(m / Pow10(k - 1))] + FractionText(m % Pow10(k - 1), k - 1)
  }

  lemma {:induction false} FractionTextIsRight(m: nat, k: nat)
    requires m < Pow10(k)
    ensures IsUnits(FractionValue(FractionText(m, k)), m, k)
  {
    if k > 0 {
      var s, p := FractionText(m, k), Pow10(k - 1);
      LeadingDigit(m, p);
      FractionTextIsRight(m % p, k - 1);
      assert s[1..] == FractionText(m % p, k - 1);
      UnitsOfTenth(m / p, FractionValue(s[1..]), m % p, k - 1);
    }
  }

  lemma {:induction false} UnitsOfTenth(d: nat, f: real, rest: nat, k: nat)
    requires IsUnits(f, rest, k)
    ensures IsUnits((d as real + f) / 10.0, d * Pow10(k) + rest, k + 1)
  {
    TenthOfSum(d as real, f, Pow10(k) as real);
    assert Pow10(k + 1) as real == 10.0 * Pow10(k) as real;
  }

  lemma {:induction false} SameScaled(a: real, b: real, p: real)
    requires p >= 1.0 && a * p == b * p
    ensures a == b
  {
    assert (a - b) * p == 0.0;
  }

  lemma {:induction false} DigitsAreDotFree(s: string)
    requires All(s, IsDigit)
    ensures '.' !in s
  {
  }

  /** Digits, a dot, and digits again. */
  lemma {:induction false} DottedText(whole: string, fraction: string) returns (text: string)
    requires All(whole, IsDigit) && All(fraction, IsDigit) && whole != ""
    ensures IsNumberText(text) && ToNumber(text) == Real(DigitsValue(whole) + FractionValue(fraction))
  {
    DigitsAreDotFree(whole);
    DigitsAreDotFree(fraction);
    text := whole + "." + fraction;
    assert JoinParts([whole, fraction]) == text;
    JoinThenSplit([whole, fraction]);
  }

  lemma {:induction false} WholeAndRest(m: nat, p: nat) returns (whole: nat, rest: nat)
    requires p >= 1
    ensures whole * p + rest == m && rest < p
  {
    whole, rest := m / p, m % p;
  }

  /** The text of a whole part and so many units: the digits of both, with a dot between them. */
  lemma {:induction false} DecimalText(whole: nat, rest: nat, k: nat) returns (text: string)
    requires rest < Pow10(k)
    ensures IsNumberText(text) && ToNumber(text).Real?
    ensures IsUnits(ToNumber(text).value, whole * Pow10(k) + rest, k)
  {
    var fraction := FractionText(rest, k);
    text := DottedText(WholeText(whole), fraction);
    WholeTextIsRight(whole);
    FractionTextIsRight(rest, k);
    UnitsOfSum(whole, FractionValue(fraction), rest, k);
  }

  lemma {:induction false} SameUnits(a: real, b: real, m: nat, k: nat)
    requires IsUnits(a, m, k) && IsUnits(b, m, k)
    ensures a == b
  {
    SameScaled(a, b, Pow10(k) as real);
  }

  lemma {:induction false} UnitsHaveLiteral(r: real, m: nat, k: nat) returns (text: string)
    requires IsUnits(r, m, k)
    ensures IsNumberText(text) && ToNumber(text) == Real(r)
  {
    var whole, rest := WholeAndRest(m, Pow10(k));
    text := DecimalText(whole, rest, k);
    SameUnits(ToNumber(text).value, r, m, k);
  }

  lemma {:induction false} NoNumberHasLiteral()
    ensures IsNumberText("0..") && ToNumber("0..") == NaN
  {
    JoinThenSplit(["0", "", ""]);
    assert JoinParts(["", ""]) == "." && JoinParts(["0", "", ""]) == "0..";
  }

  /** The numbers that literals denote are exactly the finite decimals, and what is not a number. */
  lemma {:induction false} LiteralsAreDecimals(n: Num)
    ensures (exists text :: IsNumberText(text) && ToNumber(text) == n) <==> IsDecimal(n)
  {
    if text :| IsNumberText(text) && ToNumber(text) == n {
      LiteralIsDecimal(text);
    }
    if n.NaN? {
      NoNumberHasLiteral();
    } else if IsDecimal(n) {
      var m: nat, k: nat :| IsUnits(n.value, m, k);
      var text := UnitsHaveLiteral(n.value, m, k);
    }
  }
}
