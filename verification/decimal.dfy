/** Python's `float(text)` on the decimal notation the sensor logs use, with
    exact real arithmetic: optional surrounding whitespace, an optional sign,
    and digits with at most one decimal point and at least one digit. */
module Decimal {
  import opened Results
  import opened Text

  predicate AllDigits(s: string) {
    forall i :: 0 <= i < |s| ==> IsDigit(s[i])
  }

  /** The number a run of decimal digits spells (0 for no digits). */
  function DigitsValue(s: string): nat
    requires AllDigits(s)
  {
    if |s| == 0 then 0 else 10 * DigitsValue(s[..|s| - 1]) + DigitValue(s[|s| - 1])
  }

  function Pow10(n: nat): (r: nat)
    ensures r >= 1
  {
    if n == 0 then 1 else 10 * Pow10(n - 1)
  }

  /** An unsigned decimal: `digits`, `digits.`, `.digits` or `digits.digits`. */
  function ParseUnsigned(s: string): Option<real> {
    var k := FindFirst(s, '.');
    if k == |s| then DecimalValue(s, []) else DecimalValue(s[..k], s[k + 1..])
  }

  /** The value of the digits `whole` before and `frac` after a point. */
  function DecimalValue(whole: string, frac: string): Option<real> {
    if AllDigits(whole) && AllDigits(frac) && |whole| + |frac| > 0 then
      Some(DigitsValue(whole) as real + DigitsValue(frac) as real / Pow10(|frac|) as real)
    else None
  }

  /** `float(text)`, or `None` where Python raises ValueError. */
  function ParseFloat(text: string): Option<real> {
    var t := Strip(text);
    if |t| > 0 && t[0] == '-' then
      match ParseUnsigned(t[1..])
      case Some(v) => Some(-v)
      case None => None
    else if |t| > 0 && t[0] == '+' then ParseUnsigned(t[1..])
    else ParseUnsigned(t)
  }

  /** `float(text)` as a step that can fail: Python's ValueError becomes
      `NotANumber` naming the text. */
  function Float(text: string): (r: Result<real>)
    ensures r.Ok? <==> ParseFloat(text).Some?
    ensures r.Ok? ==> r.value == ParseFloat(text).value
    ensures r.Err? ==> r.error == NotANumber(text)
  {
    match ParseFloat(text)
    case Some(v) => Ok(v)
    case None => Err(NotANumber(text))
  }

  function DigitChar(d: nat): (c: char)
    requires d <= 9
    ensures IsDigit(c) && DigitValue(c) == d
  {
    ('0' as int + d) as char
  }

  /** The decimal numeral of `n`, most significant digit first. */
  function Numeral(n: nat): (s: string)
    ensures |s| > 0 && AllDigits(s)
  {
    if n < 10 then [DigitChar(n)] else Numeral(n / 10) + [DigitChar(n % 10)]
  }

  lemma {:induction false} NumeralValue(n: nat)
    ensures DigitsValue(Numeral(n)) == n
  {
    if n >= 10 {
      NumeralValue(n / 10);
      var s := Numeral(n);
      assert s[..|s| - 1] == Numeral(n / 10);
    }
  }

  function Zeros(k: nat): (s: string)
    ensures |s| == k && AllDigits(s)
  {
    if k == 0 then [] else Zeros(k - 1) + ['0']
  }

  lemma {:induction false} ZerosValue(k: nat)
    ensures DigitsValue(Zeros(k)) == 0
  {
    if k > 0 {
      var z := Zeros(k - 1);
      ZerosValue(k - 1);
      assert Zeros(k) == z + ['0'];
      assert (z + ['0'])[..k - 1] == z;
    }
  }

  lemma {:induction false} LeadingZerosValue(k: nat, s: string)
    requires AllDigits(s)
    ensures DigitsValue(Zeros(k) + s) == DigitsValue(s)
    decreases |s|
  {
    var t := Zeros(k) + s;
    if |s| == 0 {
      assert t == Zeros(k);
      ZerosValue(k);
    } else {
      assert t[..|t| - 1] == Zeros(k) + s[..|s| - 1];
      assert t[|t| - 1] == s[|s| - 1];
      LeadingZerosValue(k, s[..|s| - 1]);
    }
  }

  /** `f` written with exactly `d` digits, padded with leading zeros. */
  function FractionDigits(f: nat, d: nat): (s: string)
    requires f < Pow10(d)
    ensures |s| == d && AllDigits(s)
    ensures DigitsValue(s) == f
  {
    if f == 0 then
      LeadingZerosValue(d, []);
      assert Zeros(d) + [] == Zeros(d);
      Zeros(d)
    else
    NumeralFits(f, d);
    NumeralValue(f);
    LeadingZerosValue(d - |Numeral(f)|, Numeral(f));
    Zeros(d - |Numeral(f)|) + Numeral(f)
  }

  lemma {:induction false} NumeralFits(f: nat, d: nat)
    requires 0 < f < Pow10(d)
    ensures |Numeral(f)| <= d
  {
    if f >= 10 {
      assert d > 0;
      assert f / 10 < Pow10(d - 1);
      if f / 10 > 0 {
        NumeralFits(f / 10, d - 1);
      }
    } else {
      assert d > 0;
    }
  }

  lemma DigitsHaveNoPoint(s: string)
    requires AllDigits(s)
    ensures FindFirst(s, '.') == |s|
  {
    forall i | 0 <= i < |s|
      ensures s[i] != '.'
    {
      assert IsDigit(s[i]);
    }
    FindFirstAbsent(s, '.');
  }

  lemma DigitsAreSpaceFree(s: string)
    requires AllDigits(s)
    ensures SpaceFree(s)
  {
  }

  /** Text that starts with a digit and holds no whitespace. */
  predicate UnsignedText(s: string) {
    |s| > 0 && IsDigit(s[0]) && SpaceFree(s)
  }

  /** Text that starts with a digit and has no whitespace is read as an
      unsigned number, and with a minus sign in front as its negation. */
  lemma ParseFloatOfUnsigned(s: string)
    requires UnsignedText(s)
    ensures ParseFloat(s) == ParseUnsigned(s)
    ensures ParseFloat("-" + s) ==
            match ParseUnsigned(s) case Some(v) => Some(-v) case None => None
  {
    StripOfSpaceFree(s);
    var t := "-" + s;
    assert SpaceFree(t);
    StripOfSpaceFree(t);
    assert t[1..] == s;
  }

  lemma ParseFloatSigned(s: string, v: real)
    requires UnsignedText(s) && ParseUnsigned(s) == Some(v)
    ensures ParseFloat(s) == Some(v) && ParseFloat("-" + s) == Some(-v)
  {
    ParseFloatOfUnsigned(s);
  }

  /** Digits without a point read as the whole number they spell. */
  lemma UnsignedWhole(a: string)
    requires |a| > 0 && AllDigits(a)
    ensures ParseUnsigned(a) == Some(DigitsValue(a) as real)
  {
    DigitsHaveNoPoint(a);
    UnsignedWithoutPoint(a);
    WholeValue(a);
  }

  lemma UnsignedWithoutPoint(s: string)
    requires FindFirst(s, '.') == |s|
    ensures ParseUnsigned(s) == DecimalValue(s, [])
  {
  }

  lemma WholeValue(a: string)
    requires |a| > 0 && AllDigits(a)
    ensures DecimalValue(a, []) == Some(DigitsValue(a) as real)
  {
    assert DigitsValue([]) == 0 && Pow10(0) == 1;
  }

  /** `a.b` reads as `a` plus `b` tenths, hundredths, ... */
  lemma UnsignedFixed(a: string, b: string)
    requires AllDigits(a) && AllDigits(b) && |a| + |b| > 0
    ensures ParseUnsigned(a + "." + b) == DecimalValue(a, b)
  {
    var s := a + "." + b;
    assert s[..|a|] == a;
    assert s[|a|] == '.';
    assert s[|a| + 1..] == b;
    DigitsHaveNoPoint(a);
    assert '.' !in a;
    FindFirstAt(s, '.', |a|);
    assert ParseUnsigned(s) == DecimalValue(a, b);
  }

  /** A whole number written as a numeral, with or without a minus sign,
      reads back as that number. */
  lemma NumeralRoundTrip(n: nat)
    ensures ParseFloat(Numeral(n)) == Some(n as real)
    ensures ParseFloat("-" + Numeral(n)) == Some(-(n as real))
  {
    var s := Numeral(n);
    NumeralValue(n);
    UnsignedWhole(s);
    ParseFloatSigned(s, n as real);
  }

  /** The number `w.f` stands for when `f` is written with `d` digits. */
  function FixedValue(w: nat, f: nat, d: nat): real {
    w as real + f as real / Pow10(d) as real
  }

  /** Fixed-point notation `w.f` with `d` fractional digits reads back as
      `w + f / 10^d`, with or without a minus sign. */
  lemma FixedPointRoundTrip(w: nat, f: nat, d: nat)
    requires f < Pow10(d)
    ensures ParseFloat(Numeral(w) + "." + FractionDigits(f, d)) ==
            Some(FixedValue(w, f, d))
    ensures ParseFloat("-" + (Numeral(w) + "." + FractionDigits(f, d))) ==
            Some(-(FixedValue(w, f, d)))
  {
    FixedPointText(w, f, d);
    ParseFloatSigned(Numeral(w) + "." + FractionDigits(f, d), FixedValue(w, f, d));
  }

  lemma FixedPointText(w: nat, f: nat, d: nat)
    requires f < Pow10(d)
    ensures var s := Numeral(w) + "." + FractionDigits(f, d);
            && UnsignedText(s)
            && ParseUnsigned(s) == Some(FixedValue(w, f, d))
  {
    var a := Numeral(w);
    var b := FractionDigits(f, d);
    var s := a + "." + b;
    NumeralValue(w);
    UnsignedFixed(a, b);
    assert DecimalValue(a, b) == Some(FixedValue(w, f, d));
    DigitsAreSpaceFree(a);
    DigitsAreSpaceFree(b);
    assert s[0] == a[0];
  }

  /** Text that is not a number is refused. */
  lemma Refusals()
    ensures ParseFloat("") == None
    ensures ParseFloat(".") == None
    ensures ParseFloat("-") == None
  {
    assert Strip("") == "";
    assert Strip(".") == ".";
    assert Strip("-") == "-";
    assert "-"[1..] == "";
    FindFirstAbsent("", '.');
  }
}
