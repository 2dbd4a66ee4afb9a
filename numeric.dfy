/**
 * The numeric primitives of the host language the calculator leans on,
 * over exact reals: `round(x, 2)`, a reference reading of decimal text
 * (what `float(text)` does on plain decimal literals) and the text an
 * f-string shows for a value with at most two decimal places.
 */
module Numeric {
  import opened Options
  import opened Text

  /** `x` is a whole number of hundredths. */
  predicate IsCentesimal(x: real) {
    (x * 100.0).Floor as real == x * 100.0
  }

  /** `round(x, 2)`, with halves rounded up. */
  function Round2(x: real): (r: real)
    ensures IsCentesimal(r)
    ensures x - 0.005 < r <= x + 0.005
  {
    ((x * 100.0 + 0.5).Floor as real) / 100.0
  }

  /** Round2 picks the only whole number of hundredths within half a hundredth below or at half a hundredth above. */
  lemma Round2Unique(x: real, y: real)
    requires IsCentesimal(y)
    requires x - 0.005 < y <= x + 0.005
    ensures Round2(x) == y
  {
    var k := (y * 100.0).Floor;
    assert k as real == y * 100.0;
    assert x * 100.0 - 0.5 < k as real <= x * 100.0 + 0.5;
    assert (x * 100.0 + 0.5).Floor == k;
  }

  lemma Round2NonNegative(x: real)
    requires x >= 0.0
    ensures Round2(x) >= 0.0
  {
    var r := Round2(x);
    var k := (r * 100.0).Floor;
    assert k as real == r * 100.0;
    assert k as real > -0.5;
  }

  lemma Round2Centesimal(x: real)
    requires IsCentesimal(x)
    ensures Round2(x) == x
  {
    Round2Unique(x, x);
  }

  // ---------- reading decimal text ----------

  /** The value of the digits `whole` '.' `fraction`. */
  function DecimalValue(whole: string, fraction: string): real
    requires AllDigits(whole) && AllDigits(fraction)
  {
    DigitsValue(whole) as real + DigitsValue(fraction) as real / Pow10(|fraction|) as real
  }

  /** Digits with at most one '.', at least one digit in all: "170", "22.49", "5.", ".5". */
  function ParseUnsigned(s: string): (r: Option<real>)
    ensures r.Some? ==> HasDigit(s)
  {
    var i := IndexOf(s, '.');
    if i == |s| then
      if |s| > 0 && AllDigits(s) then
        assert IsDigit(s[0]);
        Some(DigitsValue(s) as real)
      else
        None
    else
      var whole, fraction := s[..i], s[i + 1..];
      if AllDigits(whole) && AllDigits(fraction) && |whole| + |fraction| > 0 then
        assert if |whole| > 0 then IsDigit(s[0]) else IsDigit(s[i + 1]) by {
          if |whole| > 0 {
            assert s[0] == whole[0];
          } else {
            assert s[i + 1] == fraction[0];
          }
        }
        Some(DecimalValue(whole, fraction))
      else
        None
  }

  /**
   * A reference parser: an optional sign followed by an unsigned decimal.
   * Unlike `float()`, which also reads `inf` and `nan`, it accepts only text
   * with a digit.
   */
  function DecimalParse(s: string): (r: Option<real>)
    ensures r.Some? ==> HasDigit(s)
  {
    if |s| > 0 && (s[0] == '-' || s[0] == '+') then
      match ParseUnsigned(s[1..])
      case None => None
      case Some(v) =>
        HasDigitTail(s);
        Some(if s[0] == '-' then -v else v)
    else
      ParseUnsigned(s)
  }

  lemma ParseDigits(s: string)
    requires |s| > 0 && AllDigits(s)
    ensures DecimalParse(s) == Some(DigitsValue(s) as real)
  {
    assert IsDigit(s[0]);
    assert '.' !in s by {
      forall i | 0 <= i < |s| ensures s[i] != '.' {
        assert IsDigit(s[i]);
      }
    }
  }

  // ---------- showing a value ----------

  /** The fractional digits of `f` hundredths, a trailing zero dropped but at least one digit kept. */
  function FractionDigits(f: nat): (s: string)
    requires f < 100
    ensures AllDigits(s) && 1 <= |s| <= 2
  {
    if f % 10 == 0 then [DigitChar(f / 10)] else [DigitChar(f / 10), DigitChar(f % 10)]
  }

  /** The text for `m` hundredths, `m` not negative: the whole part, '.', the fraction. */
  function UnsignedHundredths(m: nat): (s: string)
    ensures |s| > 0 && IsDigit(s[0]) && '\n' !in s && ':' !in s
  {
    NatToDigits(m / 100) + "." + FractionDigits(m % 100)
  }

  /** The text for `n` hundredths: a '-' for negative values, then the magnitude. */
  function FormatHundredths(n: int): (s: string)
    ensures '\n' !in s && ':' !in s
  {
    if n < 0 then "-" + UnsignedHundredths(-n) else UnsignedHundredths(n)
  }

  /** The text `f"{x}"` shows for a whole number of hundredths: "22.49", "22.5", "20.0", "-0.05". */
  function FormatReal(x: real): (s: string)
    ensures '\n' !in s && ':' !in s
  {
    FormatHundredths((x * 100.0).Floor)
  }

  lemma FractionValue(f: nat)
    requires f < 100
    ensures DigitsValue(FractionDigits(f)) as real / Pow10(|FractionDigits(f)|) as real == f as real / 100.0
  {
    var s := FractionDigits(f);
    var tens, units := f / 10, f % 10;
    assert f == tens * 10 + units;
    if units == 0 {
      assert s[..0] == [];
      assert DigitsValue(s) == tens;
      assert Pow10(1) == 10;
    } else {
      assert s[..1] == [DigitChar(tens)];
      assert s[..1][..0] == [];
      assert DigitsValue(s[..1]) == tens;
      assert DigitsValue(s) == f;
      assert Pow10(2) == 100;
    }
  }

  /** Digits, '.', digits: the value is the whole part plus the fraction scaled by its length. */
  lemma ParseWithDot(whole: string, fraction: string)
    requires |whole| > 0 && AllDigits(whole) && AllDigits(fraction)
    ensures ParseUnsigned(whole + "." + fraction) == Some(DecimalValue(whole, fraction))
  {
    var s := whole + "." + fraction;
    assert '.' !in whole by {
      forall i | 0 <= i < |whole| ensures whole[i] != '.' {
        assert IsDigit(whole[i]);
      }
    }
    IndexOfFirst(whole, '.', fraction);
    var i := IndexOf(s, '.');
    assert i == |whole| < |s|;
    assert s[..i] == whole;
    assert s[i + 1..] == fraction;
  }

  lemma {:induction false} UnsignedRoundTrip(m: nat)
    ensures ParseUnsigned(UnsignedHundredths(m)) == Some(m as real / 100.0)
  {
    ParseWithDot(NatToDigits(m / 100), FractionDigits(m % 100));
    DigitsRoundTrip(m / 100);
    FractionValue(m % 100);
    assert (m / 100) as real + (m % 100) as real / 100.0 == m as real / 100.0;
  }

  /** Text that starts with a digit is read unsigned. */
  lemma ParseUnsignedText(body: string)
    requires |body| > 0 && IsDigit(body[0])
    ensures DecimalParse(body) == ParseUnsigned(body)
  {
  }

  /** A leading '-' negates what follows. */
  lemma ParseNegated(body: string, v: real)
    requires ParseUnsigned(body) == Some(v)
    ensures DecimalParse("-" + body) == Some(-v)
  {
    assert ("-" + body)[1..] == body;
  }

  lemma NegativeRoundTrip(m: nat)
    ensures DecimalParse("-" + UnsignedHundredths(m)) == Some(-(m as real / 100.0))
  {
    UnsignedRoundTrip(m);
    ParseNegated(UnsignedHundredths(m), m as real / 100.0);
  }

  lemma NonNegativeRoundTrip(n: nat)
    ensures DecimalParse(UnsignedHundredths(n)) == Some(n as real / 100.0)
  {
    UnsignedRoundTrip(n);
    ParseUnsignedText(UnsignedHundredths(n));
  }

  /** Reading back the text shown for `n` hundredths gives `n / 100`. */
  lemma FormatHundredthsRoundTrip(n: int)
    ensures DecimalParse(FormatHundredths(n)) == Some(n as real / 100.0)
  {
    if n < 0 {
      var m: nat := -n;
      NegativeRoundTrip(m);
      assert FormatHundredths(n) == "-" + UnsignedHundredths(m);
      assert -(m as real / 100.0) == n as real / 100.0;
    } else {
      NonNegativeRoundTrip(n);
    }
  }

  /** Reading back the text shown for a whole number of hundredths gives that number. */
  lemma FormatRealRoundTrip(x: real)
    requires IsCentesimal(x)
    ensures DecimalParse(FormatReal(x)) == Some(x)
  {
    var n := (x * 100.0).Floor;
    FormatHundredthsRoundTrip(n);
    assert n as real / 100.0 == x;
  }
}
