# BMI calculator — a Dafny model

This project models the core of a small desktop BMI calculator:

- `calculate_bmi_value` reads a height in centimetres and a weight in
  kilograms, both as text. It converts the height to metres, divides the
  weight by the square of the height and rounds to two places. Over the
  reals it gives `None` exactly when either text does not convert or the
  height is zero (for the floating-point overflow the model leaves out, see
  "Left out").
- The advice engine is a simple factory. It picks one of three advice kinds
  (underweight below 18.5, normal from 18.5 up to 24, overweight from 24).
  Each kind's `get_info` builds a fixed four-line text: a header carrying the
  BMI, a diet line, a weekly-exercise line and a see-a-doctor line.
- The main window's `handle_calculation` runs in order:
  1. It checks that both fields convert and are greater than zero, and
     shows a warning otherwise.
  2. It asks the calculator for the BMI.
  3. It writes the height, the weight and the advice into the result label.
  4. It appends the weight to the `weight_records` list that feeds the
     weight chart.

Arithmetic is over exact reals:

- `Round2` is `round(x, 2)`.
- The text-to-number conversion is a parameter, `parse: string -> Option<real>`. Both the handler and the calculator use that one parameter.
- `DecimalParse` is a reference instance of `parse`. It reads plain decimal literals, signed or not, and the examples and round trips are stated with it.
- `FormatReal` is the text an f-string shows for a value with at most two decimal places.

Modules:

- `Options`: the `Option` type.
- `Text`: digits, searching, splitting and joining lines.
- `Numeric`: rounding, reading and showing numbers.
- `BmiLogic`: `bmi_logic.py`.
- `BmiEngine`: `bmi_engine.py`.
- `BmiApp`: `handle_calculation` and the window state in `main.py`.

## Model

| member | source | states |
|---|---|---|
| Numeric.Round2 | bmi_logic.py:39 | the rounded value is a whole number of hundredths within half a hundredth of the input |
| Numeric.Round2Unique | bmi_logic.py:39 | the rounded value is the only whole number of hundredths in that half-open window, so rounding is determined by it |
| Numeric.Round2Centesimal | bmi_logic.py:39 | rounding a value that already has two places leaves it unchanged |
| Numeric.Round2NonNegative | bmi_logic.py:39 | rounding a non-negative value never gives a negative one |
| Numeric.DecimalParse | bmi_logic.py:36-37 | a reference reading of the text-to-number conversion for plain decimal literals: unlike `float()`, which also reads `inf` and `nan`, it accepts no text without a decimal digit |
| Numeric.ParseDigits | bmi_logic.py:36-37 | a string of decimal digits converts to the number those digits denote |
| Numeric.ParseWithDot | bmi_logic.py:36-37 | digits, a point and digits convert to the whole part plus the fraction scaled by its length |
| Numeric.ParseNegated | bmi_logic.py:36-37 | a leading minus sign negates the number the rest converts to |
| Numeric.UnsignedRoundTrip | bmi_engine.py:11 | converting back the text shown for a non-negative number of hundredths gives that number |
| Numeric.FormatHundredthsRoundTrip | bmi_engine.py:11 | converting back the text shown for any number of hundredths, negative ones included, gives that number |
| Numeric.FormatRealRoundTrip | bmi_engine.py:11 | converting back the text shown for a value with at most two decimal places gives the value |
| Numeric.FormatReal | bmi_engine.py:11 | the text shown for a value holds no line break and no colon |
| Text.DigitsRoundTrip | bmi_engine.py:11 | the decimal digits shown for a natural number read back as that number |
| Text.SplitJoin | bmi_engine.py:11-14 | lines without line breaks, joined by line breaks, split back into the same lines |
| BmiLogic.CalculateBmiValue | bmi_logic.py:35-41 | the result is `None` exactly when the height or the weight does not convert or the height is zero; otherwise it is the formula rounded to two places |
| BmiLogic.CalculateBySquare | bmi_logic.py:36-39 | a computed BMI equals the weight divided by the square of the height in metres, rounded to two places, and that square is not zero |
| BmiLogic.DivisionByProduct | bmi_logic.py:38 | dividing by two non-zero factors in turn equals dividing once by their product, which is not zero |
| BmiLogic.MetreConversion | bmi_logic.py:36-38 | dividing the weight by the height in metres twice equals 10000 times the weight divided twice by the height in centimetres |
| BmiLogic.SquareZero | bmi_logic.py:38 | the square of the height in metres is zero exactly when the height is, so testing the height finds the division by zero |
| BmiLogic.CalculateWithinHalfHundredth | bmi_logic.py:36-39 | a computed BMI is a whole number of hundredths within half a hundredth of the exact quotient |
| BmiLogic.ZeroWeight | bmi_logic.py:37-39 | a zero weight with a non-zero height gives 0, not `None` |
| BmiLogic.NegatedHeight | bmi_logic.py:38 | negating the height gives the same result, so negative heights are not rejected |
| BmiLogic.NonNegativeBmi | bmi_logic.py:36-39 | a non-negative weight with a non-zero height gives a value, and it is not negative |
| BmiLogic.ExampleShortHeight | bmi_logic.py:23-25 | "170", "65" gives 22.49 |
| BmiLogic.ExampleTallHeight | bmi_logic.py:26-27 | the 175, 70 example, given as the texts "175", "70", gives 22.86 |
| BmiLogic.ExampleNotANumber | bmi_logic.py:28-29 | "abc", "65" gives `None` |
| BmiLogic.ExampleZeroHeight | bmi_logic.py:36-41 | "0", "65" gives `None` through the caught division by zero |
| BmiEngine.CreateAdvice | bmi_engine.py:36-42 | underweight exactly below 18.5, normal exactly on [18.5, 24), overweight exactly from 24, so every value has exactly one kind |
| BmiEngine.CreateAdviceMonotone | bmi_engine.py:37-42 | a larger BMI never gets a lighter kind in the order underweight, normal, overweight |
| BmiEngine.CreateAdviceBoundaries | bmi_engine.py:37-42 | 0 and 18.49 are underweight, 18.5 and 23.99 normal, 24 overweight |
| BmiEngine.GetInfo | bmi_engine.py:9-31 | the advice text splits into exactly four lines: the header "BMI " value ": " verdict, then the diet, exercise and doctor lines of the kind |
| BmiEngine.HeaderValue | bmi_engine.py:11 | the value between "BMI " and the first colon of the header converts back to the BMI given, for a value with two places |
| BmiEngine.GetInfoTail | bmi_engine.py:12-14 | only the header depends on the BMI; the last three lines are the same for any value of one kind |
| BmiEngine.DoctorRecommendation | bmi_engine.py:14 | the doctor line opens "🏥 建議：" and answers 是 exactly for underweight and overweight, 否 exactly for normal |
| BmiEngine.DietLinesDiffer | bmi_engine.py:12 | the diet lines of two different kinds differ |
| BmiEngine.GetInfoDistinguishes | bmi_engine.py:9-31 | advice texts of two different kinds differ, whatever BMI they show |
| BmiApp.CheckInputs | main.py:74-82 | a format error exactly when a field does not convert; accepted exactly when both convert and both are greater than zero, carrying the two values |
| BmiApp.AcceptedInputsCalculate | main.py:74-87 | accepted inputs always give a BMI (the calculation-failure branch cannot be reached), equal to the rounded formula of the accepted values and not negative |
| BmiApp.UnreadableInputsRejected | main.py:74-82 | a field that does not convert is a format error for the handler and `None` for the calculator alike |
| BmiApp.NegativeHeightRefused | main.py:77-79 | "-170", "65" has a BMI of 22.49 for the calculator but is refused by the positivity check |
| BmiApp.InputLine | main.py:93 | the first label line shows the height text and the weight text verbatim, each after its caption, in that order, with " kg" at the end |
| BmiApp.DisplayLines | main.py:93 | a label line without line breaks splits off as the first line, ahead of the advice text's own lines |
| BmiApp.DisplayText | main.py:89-93 | with fields free of line breaks the label has five lines: the heights-and-weights line, then the four advice lines of the kind the BMI falls in |
| BmiApp.App.constructor | main.py:32-50 | a new window has no weight records, and the chart has been handed none |
| BmiApp.App.HandleCalculation | main.py:52-101 | a format or positivity warning leaves the window unchanged; accepted inputs show the BMI and set the label to the display text. They also append the parsed weight to the records and hand the records to the chart. Every record stays greater than zero |
| BmiApp.ExampleNormal | main.py:74-90 | "160", "50" is accepted and gives 19.53, which is normal |
| BmiApp.ExampleRejected | main.py:74-82 | "abc" is a format error and a zero height a positivity error |
| BmiApp.Session | main.py:97-98 | for three clicks (accepted, not convertible, accepted), only the two accepted weights are recorded, in click order, and the label shows the last result |

## Left out

- The PyQt5 window has no model: loading the layout, placeholders, the chart container, signal wiring, the event loop and the message boxes (`Outcome.Warning` carries their title and text). The initial label text comes from the layout file `bmi_ui.ui`, which is not part of this model; the constructor takes it as a parameter.
- `chart_tool.py` is not part of this model. The `update_chart` call is modelled only as the field `chartSeries` receiving the whole record list.
- IEEE-754 behaviour has no model. This covers binary rounding, NaN passing the positivity check and then landing in the overweight branch, infinities, and a tiny height whose square underflows to zero.
- `float()`'s grammar (blanks, exponents, underscores, `inf`, `nan`) is left open: the model takes the conversion as the parameter `parse`. `DecimalParse` is only a reference instance for plain decimal literals.
- Numeric.Round2: rounds halves up over exact reals. It does not reproduce Python's rounding of the binary value (ties to even).
- Numeric.FormatReal: shows a value as its whole number of hundredths: digits, a point, then one or two fraction digits. It matches Python's float text only for values with at most two decimal places and below 10^16, where Python switches to exponent notation. It shows -0.0 as 0.0. The calculator's results always have at most two decimal places. A BMI of 10^16 or more (height "1", weight "10000000000000") passes the guard, and Python shows it in exponent form, which this model does not reproduce.
- BmiLogic.CalculateBmiValue: is defined by dividing twice by the height in metres rather than once by its square, and tests the height rather than the square for zero. Over the reals the two agree: `CalculateBySquare` proves the result is the rounded quotient by the square, and `SquareZero` that the square is zero exactly when the height is.
- BmiLogic.CalculateBmiValue: does not model the `OverflowError` that `height_m ** 2` raises when the square of the height in metres exceeds the largest float, from about 1.34e156 cm (the text "1e157", say). The `except` clause names only `ValueError` and `ZeroDivisionError`, so the error escapes the calculator, and `handle_calculation` calls it outside any `try` (main.py:85), so it escapes the handler too. The model, over unbounded reals, gives a value there.
- BmiLogic.CalculateBmiValue: takes both arguments as text. The docstring also allows numbers, but the one caller in this model, `handle_calculation`, passes the field texts; `float()` of a number is that number.
- The empty base class `HealthAdvice` has no model: it is never instantiated. The three advice classes become the constructors of `Category`.
- BmiApp.App.HandleCalculation: the model keeps the calculation-failure branch as written. Its postcondition has no case for it, because `AcceptedInputsCalculate` proves the branch cannot be reached.
