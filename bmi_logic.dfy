/**
 * `calculate_bmi_value`: from height (cm) and weight (kg) given as text to
 * the BMI rounded to two places, or `None` when a value does not parse or
 * the height is zero.
 */
module BmiLogic {
  import opened Options
  import opened Numeric

  /** The textbook formula with the height in centimetres: kilograms per square metre. */
  function BmiFormula(heightCm: real, weightKg: real): real
    requires heightCm != 0.0
  {
    10000.0 * weightKg / heightCm / heightCm
  }

  lemma ScaleDivision(h: real, a: real)
    requires h != 0.0
    ensures a / (h / 100.0) == 100.0 * a / h
    ensures (100.0 * a) / h == 100.0 * (a / h)
  {
  }

  /** Dividing twice by the height in metres is the formula with the height in centimetres. */
  lemma MetreConversion(h: real, w: real)
    requires h != 0.0
    ensures w / (h / 100.0) / (h / 100.0) == BmiFormula(h, w)
  {
    var once := w / (h / 100.0);
    ScaleDivision(h, w);
    ScaleDivision(h, once);
    ScaleDivision(h, w / h);
    ScaleDivision(h, 100.0 * w);
    ScaleDivision(h, 100.0 * w / h);
    assert once / (h / 100.0) == 100.0 * (100.0 * (w / h) / h);
  }

  /**
   * Over the reals the square of the height in metres is zero exactly when
   * the height is, so testing `heightM` for zero finds the division by zero.
   */
  lemma SquareZero(heightM: real)
    ensures heightM != 0.0 ==> heightM * heightM != 0.0
    ensures heightM == 0.0 ==> heightM * heightM == 0.0
  {
  }

  /** Dividing by `a` and then by `b` is dividing once by their product. */
  lemma DivisionByProduct(w: real, a: real, b: real)
    requires a != 0.0 && b != 0.0
    ensures a * b != 0.0
    ensures w / a / b == w / (a * b)
  {
    var twice := w / a / b;
    assert twice * (a * b) == w;
    var once := w / (a * b);
    assert once * (a * b) == w;
    assert (twice - once) * (a * b) == 0.0;
  }

  /**
   * `parse` is the host language's text-to-number conversion (`float`);
   * `None` from it is a `ValueError`. Dividing by a zero square raises
   * `ZeroDivisionError`, which the function also turns into `None`; by
   * SquareZero that square is zero exactly when `height_m` is. The
   * division by `height_m ** 2` is written as two divisions by `height_m`;
   * CalculateBySquare states the result with the square.
   */
  function CalculateBmiValue(parse: string -> Option<real>, heightCm: string, weightKg: string): (r: Option<real>)
    ensures r.None? <==> parse(heightCm).None? || parse(weightKg).None? || parse(heightCm) == Some(0.0)
    ensures r.Some? ==>
              && parse(heightCm).Some? && parse(weightKg).Some? && parse(heightCm).value != 0.0
              && r.value == Round2(BmiFormula(parse(heightCm).value, parse(weightKg).value))
  {
    match parse(heightCm)
    case None => None
    case Some(h) =>
      var heightM := h / 100.0;
      match parse(weightKg)
      case None => None
      case Some(w) =>
        if heightM == 0.0 then None
        else
          MetreConversion(h, w);
          Some(Round2(w / heightM / heightM))
  }

  /**
   * The result is the rounded quotient of the weight by the square of the
   * height in metres, `heightM`, exactly as the source writes it.
   */
  lemma CalculateBySquare(parse: string -> Option<real>, heightCm: string, weightKg: string, heightM: real)
    requires CalculateBmiValue(parse, heightCm, weightKg).Some?
    requires heightM == parse(heightCm).value / 100.0
    ensures heightM * heightM != 0.0
    ensures CalculateBmiValue(parse, heightCm, weightKg).value == Round2(parse(weightKg).value / (heightM * heightM))
  {
    var h, w := parse(heightCm).value, parse(weightKg).value;
    DivisionByProduct(w, heightM, heightM);
    MetreConversion(h, w);
  }

  /** A computed BMI is a whole number of hundredths within half a hundredth of the exact quotient. */
  lemma CalculateWithinHalfHundredth(parse: string -> Option<real>, heightCm: string, weightKg: string)
    requires CalculateBmiValue(parse, heightCm, weightKg).Some?
    ensures var bmi := CalculateBmiValue(parse, heightCm, weightKg).value;
            var exact := BmiFormula(parse(heightCm).value, parse(weightKg).value);
            IsCentesimal(bmi) && exact - 0.005 < bmi <= exact + 0.005
  {
  }

  /** A zero weight with a non-zero height yields the value 0, not `None`. */
  lemma ZeroWeight(parse: string -> Option<real>, heightCm: string, weightKg: string)
    requires parse(heightCm).Some? && parse(heightCm).value != 0.0
    requires parse(weightKg) == Some(0.0)
    ensures CalculateBmiValue(parse, heightCm, weightKg) == Some(0.0)
  {
  }

  /** The height only enters squared: a negated height gives the same result, negative heights are not rejected. */
  lemma NegatedHeight(parse: string -> Option<real>, height: string, negated: string, weightKg: string)
    requires parse(height).Some? && parse(negated) == Some(-parse(height).value)
    ensures CalculateBmiValue(parse, negated, weightKg) == CalculateBmiValue(parse, height, weightKg)
  {
    var h := parse(height).value;
    if h != 0.0 && parse(weightKg).Some? {
      var w := parse(weightKg).value;
      assert 10000.0 * w / (-h) == -(10000.0 * w / h);
      assert -(10000.0 * w / h) / (-h) == 10000.0 * w / h / h;
    }
  }

  /** A non-negative weight with a non-zero height never yields a negative BMI. */
  lemma NonNegativeBmi(parse: string -> Option<real>, heightCm: string, weightKg: string)
    requires parse(heightCm).Some? && parse(heightCm).value != 0.0
    requires parse(weightKg).Some? && parse(weightKg).value >= 0.0
    ensures CalculateBmiValue(parse, heightCm, weightKg).Some?
    ensures CalculateBmiValue(parse, heightCm, weightKg).value >= 0.0
  {
    var h, w := parse(heightCm).value, parse(weightKg).value;
    if h < 0.0 {
      assert 10000.0 * w / h <= 0.0;
    }
    Round2NonNegative(BmiFormula(h, w));
  }

  /** The documented example ("170", "65") gives 22.49. */
  lemma ExampleShortHeight()
    ensures CalculateBmiValue(DecimalParse, "170", "65") == Some(22.49)
  {
    ParseDigits("170");
    ParseDigits("65");
    Round2Unique(BmiFormula(170.0, 65.0), 22.49);
  }

  /** The documented example (175, 70) gives 22.86. */
  lemma ExampleTallHeight()
    ensures CalculateBmiValue(DecimalParse, "175", "70") == Some(22.86)
  {
    ParseDigits("175");
    ParseDigits("70");
    Round2Unique(BmiFormula(175.0, 70.0), 22.86);
  }

  /** The documented example ("abc", "65") gives `None`. */
  lemma ExampleNotANumber()
    ensures CalculateBmiValue(DecimalParse, "abc", "65") == None
  {
  }

  /** A zero height: the division fails and the result is `None`. */
  lemma ExampleZeroHeight()
    ensures CalculateBmiValue(DecimalParse, "0", "65") == None
  {
    ParseDigits("0");
  }
}
