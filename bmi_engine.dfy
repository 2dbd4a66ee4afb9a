/**
 * The advice engine: a simple factory that picks one of three health-advice
 * kinds from a BMI, and the four-line advice text each kind shows.
 */
module BmiEngine {
  import opened Options
  import opened Text
  import opened Numeric

  /** The three advice kinds the factory can build. */
  datatype Category = Underweight | Normal | Overweight

  /**
   * The factory: below 18.5 underweight, from 18.5 up to (not including) 24
   * normal, otherwise overweight. Each kind covers exactly one interval, and
   * together they cover every value.
   */
  function CreateAdvice(bmi: real): (c: Category)
    ensures c == Underweight <==> bmi < 18.5
    ensures c == Normal <==> 18.5 <= bmi < 24.0
    ensures c == Overweight <==> 24.0 <= bmi
  {
    if bmi < 18.5 then Underweight
    else if 18.5 <= bmi < 24.0 then Normal
    else Overweight
  }

  /** The order of the kinds along the BMI axis. */
  function Rank(c: Category): (k: nat)
    ensures k <= 2
  {
    match c
    case Underweight => 0
    case Normal => 1
    case Overweight => 2
  }

  /** A larger BMI never gets a lighter kind. */
  lemma CreateAdviceMonotone(a: real, b: real)
    requires a <= b
    ensures Rank(CreateAdvice(a)) <= Rank(CreateAdvice(b))
  {
  }

  /** The boundaries: 18.5 already counts as normal, 24 already as overweight. */
  lemma CreateAdviceBoundaries()
    ensures CreateAdvice(18.49) == Underweight && CreateAdvice(18.5) == Normal
    ensures CreateAdvice(23.99) == Normal && CreateAdvice(24.0) == Overweight
    ensures CreateAdvice(0.0) == Underweight
  {
  }

  // ---------- the advice text ----------

  function Verdict(c: Category): string {
    match c
    case Underweight => "您的體重過輕"
    case Normal => "您的體重正常"
    case Overweight => "您的體重過重"
  }

  function DietLine(c: Category): string {
    match c
    case Underweight => "飲食建議：增加高蛋白食物（肉類、蛋、豆類）、堅果、乳製品"
    case Normal => "飲食建議：繼續保持均衡飲食，五穀雜糧、蔬果、蛋白質適量"
    case Overweight => "飲食建議：減少精緻糖、油炸食品；增加蔬菜水果和高纖食物"
  }

  function ExerciseLine(c: Category): string {
    match c
    case Underweight => "每周運動時長：3-5 小時溫和運動（快走、瑜伽）"
    case Normal => "每周運動時長：3.5-5 小時中等強度運動（快走、騎單車、游泳）"
    case Overweight => "每周運動時長：5-7 小時有氧運動（跑步、快走、健身操）"
  }

  function DoctorLine(c: Category): string {
    match c
    case Underweight => "🏥 建議：是，請看醫生診斷是否有代謝或營養不良問題"
    case Normal => "🏥 建議：否，定期體檢即可"
    case Overweight => "🏥 建議：是，建議就醫評估心血管健康狀況"
  }

  /** The first line: "BMI ", the value as the host language shows it, ": ", the verdict. */
  function Header(c: Category, bmi: real): string {
    "BMI " + FormatReal(bmi) + ": " + Verdict(c)
  }

  /** `get_info(bmi)` of the advice object of kind `c`: the four lines joined by line breaks. */
  function GetInfo(c: Category, bmi: real): (s: string)
    ensures SplitLines(s) == [Header(c, bmi), DietLine(c), ExerciseLine(c), DoctorLine(c)]
  {
    var lines := [Header(c, bmi), DietLine(c), ExerciseLine(c), DoctorLine(c)];
    HeaderUnbroken(c, bmi);
    FixedLinesUnbroken(c);
    SplitJoin(lines);
    JoinLines(lines)
  }

  /** The header contains no line break. */
  lemma HeaderUnbroken(c: Category, bmi: real)
    ensures '\n' !in Header(c, bmi)
  {
    var num, v := FormatReal(bmi), Verdict(c);
    assert '\n' !in v;
    assert forall x: char :: x in "BMI " + num + ": " + v ==> x in "BMI " || x in num || x in ": " || x in v;
  }

  /** The three fixed lines of a kind contain no line break. */
  lemma FixedLinesUnbroken(c: Category)
    ensures '\n' !in DietLine(c) && '\n' !in ExerciseLine(c) && '\n' !in DoctorLine(c)
  {
    match c
    case Underweight => UnderweightDietUnbroken(); UnderweightExerciseUnbroken(); UnderweightDoctorUnbroken();
    case Normal => NormalDietUnbroken(); NormalExerciseUnbroken(); NormalDoctorUnbroken();
    case Overweight => OverweightDietUnbroken(); OverweightExerciseUnbroken(); OverweightDoctorUnbroken();
  }

  // One lemma per literal: checking all three lines of a kind in one proof
  // costs the solver far more than checking them one at a time.
  lemma UnderweightDietUnbroken() ensures '\n' !in DietLine(Underweight) {}
  lemma UnderweightExerciseUnbroken() ensures '\n' !in ExerciseLine(Underweight) {}
  lemma UnderweightDoctorUnbroken() ensures '\n' !in DoctorLine(Underweight) {}
  lemma NormalDietUnbroken() ensures '\n' !in DietLine(Normal) {}
  lemma NormalExerciseUnbroken() ensures '\n' !in ExerciseLine(Normal) {}
  lemma NormalDoctorUnbroken() ensures '\n' !in DoctorLine(Normal) {}
  lemma OverweightDietUnbroken() ensures '\n' !in DietLine(Overweight) {}
  lemma OverweightExerciseUnbroken() ensures '\n' !in ExerciseLine(Overweight) {}
  lemma OverweightDoctorUnbroken() ensures '\n' !in DoctorLine(Overweight) {}

  /** The doctor line opens "🏥 建議：" and answers 是 (see a doctor) exactly for the two kinds that are not normal. */
  lemma DoctorRecommendation(c: Category)
    ensures |DoctorLine(c)| > 5 && DoctorLine(c)[..5] == "🏥 建議："
    ensures DoctorLine(c)[5] == '是' <==> c != Normal
    ensures DoctorLine(c)[5] == '否' <==> c == Normal
  {
  }

  /** The diet advice of two kinds differs right after its "飲食建議：" label. */
  lemma DietLinesDiffer(c1: Category, c2: Category)
    requires c1 != c2
    ensures DietLine(c1) != DietLine(c2)
  {
    assert DietLine(c1)[5] != DietLine(c2)[5];
  }

  /** The advice text tells the three kinds apart, whatever values are shown. */
  lemma GetInfoDistinguishes(c1: Category, bmi1: real, c2: Category, bmi2: real)
    requires c1 != c2
    ensures GetInfo(c1, bmi1) != GetInfo(c2, bmi2)
  {
    DietLinesDiffer(c1, c2);
    assert SplitLines(GetInfo(c1, bmi1))[1] != SplitLines(GetInfo(c2, bmi2))[1];
  }

  /** Only the first line depends on the value: the last three lines are fixed per kind. */
  lemma GetInfoTail(c: Category, bmi1: real, bmi2: real)
    ensures SplitLines(GetInfo(c, bmi1))[1..] == SplitLines(GetInfo(c, bmi2))[1..]
  {
  }

  /** In `prefix + num + ": " + rest`, with no ':' before the ": ", the first ':' ends `num`. */
  lemma ColonAfter(prefix: string, num: string, rest: string)
    requires ':' !in prefix && ':' !in num
    ensures var h := prefix + num + ": " + rest;
            IndexOf(h, ':') == |prefix| + |num| && h[..|prefix|] == prefix && h[|prefix|..|prefix| + |num|] == num
  {
    var h := prefix + num + ": " + rest;
    assert h == (prefix + num) + [':'] + (" " + rest);
    assert ':' !in prefix + num by {
      assert forall x: char :: x in prefix + num ==> x in prefix || x in num;
    }
    IndexOfFirst(prefix + num, ':', " " + rest);
  }

  /** The value shown between "BMI " and the first ':' reads back as the value given, for a whole number of hundredths. */
  lemma HeaderValue(c: Category, bmi: real)
    requires IsCentesimal(bmi)
    ensures var h := Header(c, bmi);
            h[..4] == "BMI " && 4 <= IndexOf(h, ':') && DecimalParse(h[4..IndexOf(h, ':')]) == Some(bmi)
  {
    ColonAfter("BMI ", FormatReal(bmi), Verdict(c));
    FormatRealRoundTrip(bmi);
  }
}
