/**
 * The main window's calculate handler: it validates the two input fields,
 * asks the calculator for the BMI, shows the advice text in the result
 * label and appends the weight to the records the chart is drawn from.
 * Message boxes become an `Outcome` value; widgets other than the result
 * label, and the chart's drawing, are not modelled.
 */
module BmiApp {
  import opened Options
  import opened Text
  import opened Numeric
  import opened BmiLogic
  import opened BmiEngine

  /** What the validation step makes of the two fields. */
  datatype InputCheck = NotANumber | NotPositive | Accepted(height: real, weight: real)

  /**
   * The validation step: a field that does not convert is a format error;
   * otherwise both values must be greater than zero.
   */
  function CheckInputs(parse: string -> Option<real>, hText: string, wText: string): (r: InputCheck)
    ensures r == NotANumber <==> parse(hText).None? || parse(wText).None?
    ensures r.Accepted? <==> parse(hText).Some? && parse(wText).Some? && parse(hText).value > 0.0 && parse(wText).value > 0.0
    ensures r.Accepted? ==> r.height == parse(hText).value && r.weight == parse(wText).value
  {
    match (parse(hText), parse(wText))
    case (Some(h), Some(w)) => if h <= 0.0 || w <= 0.0 then NotPositive else Accepted(h, w)
    case _ => NotANumber
  }

  /** A warning box: its title and its message. A shown result carries the BMI. */
  datatype Outcome = Warning(title: string, message: string) | Shown(bmi: real)

  const FormatWarning := Warning("輸入錯誤", "請輸入正確的數字格式")
  const PositivityWarning := Warning("輸入錯誤", "身高和體重都必須大於 0")
  const CalculationWarning := Warning("計算錯誤", "計算失敗，請檢查輸入")

  /** The first line of the result label: the two fields as typed, each shown verbatim after its caption. */
  function InputLine(hText: string, wText: string): (s: string)
    ensures |s| == |hText| + |wText| + 16
    ensures s[..4] == "身高: " && s[4..4 + |hText|] == hText
    ensures s[4 + |hText|..13 + |hText|] == " cm  體重: " && s[13 + |hText|..13 + |hText| + |wText|] == wText
    ensures s[13 + |hText| + |wText|..] == " kg"
  {
    "身高: " + hText + " cm  體重: " + wText + " kg"
  }

  /**
   * The text the result label shows for a computed BMI. With fields free
   * of line breaks it has five lines: the inputs, then the advice of the
   * kind the BMI falls in.
   */
  function DisplayText(hText: string, wText: string, bmi: real): (s: string)
    ensures '\n' !in hText && '\n' !in wText ==>
              var c := CreateAdvice(bmi);
              SplitLines(s) == [InputLine(hText, wText), Header(c, bmi), DietLine(c), ExerciseLine(c), DoctorLine(c)]
  {
    var advice := GetInfo(CreateAdvice(bmi), bmi);
    DisplayLines(hText, wText, advice);
    InputLine(hText, wText) + "\n" + advice
  }

  /** The input line of fields without line breaks holds none, so it splits off as the first line. */
  lemma DisplayLines(hText: string, wText: string, advice: string)
    ensures '\n' !in hText && '\n' !in wText ==>
              SplitLines(InputLine(hText, wText) + "\n" + advice) == [InputLine(hText, wText)] + SplitLines(advice)
  {
    if '\n' !in hText && '\n' !in wText {
      var line := InputLine(hText, wText);
      assert '\n' !in line by {
        assert forall x: char :: x in line ==> x in "身高: " || x in hText || x in " cm  體重: " || x in wText || x in " kg";
      }
      SplitLinesCons(line, advice);
    }
  }

  /**
   * Inputs the validation accepts always calculate: the calculator's own
   * failure branch is unreachable from the handler, and the BMI it gives
   * is the rounded formula of the accepted values, never negative.
   */
  lemma AcceptedInputsCalculate(parse: string -> Option<real>, hText: string, wText: string)
    requires CheckInputs(parse, hText, wText).Accepted?
    ensures var r := CalculateBmiValue(parse, hText, wText);
            var check := CheckInputs(parse, hText, wText);
            r.Some? && r.value == Round2(BmiFormula(check.height, check.weight)) && r.value >= 0.0
  {
    NonNegativeBmi(parse, hText, wText);
  }

  /** A field the calculator cannot convert is already a format error for the validation. */
  lemma UnreadableInputsRejected(parse: string -> Option<real>, hText: string, wText: string)
    requires parse(hText).None? || parse(wText).None?
    ensures CalculateBmiValue(parse, hText, wText) == None
    ensures CheckInputs(parse, hText, wText) == NotANumber
  {
  }

  /** The validation is stricter than the calculator: a negative height has a BMI, but is refused. */
  lemma NegativeHeightRefused()
    ensures CalculateBmiValue(DecimalParse, "-170", "65") == Some(22.49)
    ensures CheckInputs(DecimalParse, "-170", "65") == NotPositive
  {
    ParseDigits("170");
    ParseDigits("65");
    assert "-170"[1..] == "170";
    assert ParseUnsigned("170") == Some(170.0) by {
      ParseUnsignedText("170");
    }
    ParseNegated("170", 170.0);
    assert "-" + "170" == "-170";
    NegatedHeight(DecimalParse, "170", "-170", "65");
    ExampleShortHeight();
  }

  class App {
    /** The text-to-number conversion the handler and the calculator use. */
    const parse: string -> Option<real>
    /** Every weight a successful calculation recorded, oldest first. */
    var weightRecords: seq<real>
    /** The text of the result label. */
    var resultLabel: string
    /** The records last handed to the chart. */
    var chartSeries: seq<real>

    /** Every recorded weight passed validation, and the chart shows the current records. */
    ghost predicate Valid()
      reads this
    {
      && (forall i :: 0 <= i < |weightRecords| ==> weightRecords[i] > 0.0)
      && chartSeries == weightRecords
    }

    /** A new window: no records yet; the label holds whatever text the window layout gave it. */
    constructor (parse: string -> Option<real>, initialLabel: string)
      ensures Valid()
      ensures this.parse == parse && weightRecords == [] && resultLabel == initialLabel
    {
      this.parse := parse;
      weightRecords := [];
      resultLabel := initialLabel;
      chartSeries := [];
    }

    /**
     * `handle_calculation` with the two field texts. A warning leaves the
     * window as it was; a shown result sets the label and appends the
     * weight to the records and the chart.
     */
    method HandleCalculation(hText: string, wText: string) returns (outcome: Outcome)
      requires Valid()
      modifies this
      ensures Valid()
      ensures CheckInputs(parse, hText, wText) == NotANumber ==> outcome == FormatWarning && unchanged(this)
      ensures CheckInputs(parse, hText, wText) == NotPositive ==> outcome == PositivityWarning && unchanged(this)
      ensures CheckInputs(parse, hText, wText).Accepted? ==>
                && CalculateBmiValue(parse, hText, wText).Some?
                && var bmi := CalculateBmiValue(parse, hText, wText).value;
                && outcome == Shown(bmi)
                && resultLabel == DisplayText(hText, wText, bmi)
                && weightRecords == old(weightRecords) + [CheckInputs(parse, hText, wText).weight]
                && chartSeries == weightRecords
    {
      var h, w := parse(hText), parse(wText);
      if h.None? || w.None? {
        return FormatWarning;
      }
      if h.value <= 0.0 || w.value <= 0.0 {
        return PositivityWarning;
      }
      var bmiResult := CalculateBmiValue(parse, hText, wText);
      if bmiResult.Some? {
        resultLabel := DisplayText(hText, wText, bmiResult.value);
        weightRecords := weightRecords + [parse(wText).value];
        chartSeries := weightRecords;
        outcome := Shown(bmiResult.value);
      } else {
        outcome := CalculationWarning;
      }
    }
  }

  /** The example 160 cm, 50 kg: a BMI of 19.53, which is in the normal range. */
  lemma ExampleNormal()
    ensures CheckInputs(DecimalParse, "160", "50") == Accepted(160.0, 50.0)
    ensures CalculateBmiValue(DecimalParse, "160", "50") == Some(19.53)
    ensures CreateAdvice(19.53) == Normal
  {
    ParseDigits("160");
    ParseDigits("50");
    Round2Unique(BmiFormula(160.0, 50.0), 19.53);
  }

  /** Inputs that do not convert, and a zero height. */
  lemma ExampleRejected()
    ensures CheckInputs(DecimalParse, "abc", "50") == NotANumber
    ensures CheckInputs(DecimalParse, "0", "50") == NotPositive
  {
    ParseDigits("0");
    ParseDigits("50");
  }

  /**
   * Three clicks in a fresh window: an accepted pair, a pair that does not
   * convert, another accepted pair. Only the accepted weights are recorded,
   * in the order of the clicks, and the label shows the last result.
   */
  method Session(parse: string -> Option<real>, h1: string, w1: string, h2: string, w2: string, h3: string, w3: string)
      returns (outcomes: seq<Outcome>, records: seq<real>, shownText: string)
    requires CheckInputs(parse, h1, w1).Accepted?
    requires CheckInputs(parse, h2, w2) == NotANumber
    requires CheckInputs(parse, h3, w3).Accepted?
    ensures |outcomes| == 3 && outcomes[0].Shown? && outcomes[1] == FormatWarning && outcomes[2].Shown?
    ensures records == [parse(w1).value, parse(w3).value]
    ensures shownText == DisplayText(h3, w3, outcomes[2].bmi)
  {
    var app := new App(parse, "");
    var first := app.HandleCalculation(h1, w1);
    var second := app.HandleCalculation(h2, w2);
    var third := app.HandleCalculation(h3, w3);
    outcomes, records, shownText := [first, second, third], app.weightRecords, app.resultLabel;
  }
}
