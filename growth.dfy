/**
  The growth analytics of a patient's record (components/PatientManager.tsx:17-97
  and 192-196): a linear placeholder for the WHO medians, a five-band
  percentile classifier, the age in calendar months, the body-mass index of
  the latest measurement, and the colour a percentile is shown in.

  Quantities are exact reals.  The source divides by the median and by the
  squared height; where such a divisor is zero, or a date does not parse,
  the source computes with IEEE infinities or NaN, and the model spells out
  which band that lands in.
 */
module Growth {
  import opened Types
  import opened Dates

  datatype Measure = WeightKg | HeightCm | BodyMassIndex

  /** `getWHOMedian`: the reference value for a child of `ageMonths` months. */
  function WhoMedian(ageMonths: int, sex: Sex, m: Measure): real
  {
    match m
    case HeightCm => (if sex == Male then 50.0 else 49.0) + ageMonths as real * 0.8
    case WeightKg => (if sex == Male then 3.4 else 3.2) + ageMonths as real * 0.25
    case BodyMassIndex => 16.0
  }

  /** Older children have a strictly larger height and weight median; the BMI median is flat. */
  lemma MedianIncreasing(a1: int, a2: int, sex: Sex, m: Measure)
    requires a1 < a2
    ensures m != BodyMassIndex ==> WhoMedian(a1, sex, m) < WhoMedian(a2, sex, m)
    ensures m == BodyMassIndex ==> WhoMedian(a1, sex, m) == WhoMedian(a2, sex, m)
  {
  }

  /** Girls' medians sit below boys' at every age. */
  lemma MedianBySex(age: int, m: Measure)
    ensures m != BodyMassIndex ==> WhoMedian(age, Female, m) < WhoMedian(age, Male, m)
  {
  }

  /** No whole number of months makes a median zero, so the classifier never divides by zero on them. */
  lemma MedianNonZero(age: int, sex: Sex, m: Measure)
    ensures WhoMedian(age, sex, m) != 0.0
  {
    if m == HeightCm {
      if age <= -63 {
        assert age as real * 0.8 <= -50.4;
      } else {
        assert age as real * 0.8 >= -49.6;
      }
    } else if m == WeightKg {
      if age <= -14 {
        assert age as real * 0.25 <= -3.5;
      } else {
        assert age as real * 0.25 >= -3.25;
      }
    }
  }

  /** The relative deviation from the median, in percent. */
  function Deviation(v: real, median: real): real
    requires median != 0.0
  {
    (v - median) / median * 100.0
  }

  /**
    `calculatePercentile`.  For a zero median the source divides by zero:
    a negative value gives -Infinity (band 3), a positive one +Infinity and
    zero gives NaN, which fails every comparison (band 97).
   */
  function Percentile(v: real, median: real): (p: int)
    ensures p == 3 || p == 15 || p == 50 || p == 85 || p == 97
  {
    if median == 0.0 then (if v < 0.0 then 3 else 97)
    else
      var d := Deviation(v, median);
      if d < -20.0 then 3
      else if d < -10.0 then 15
      else if d < 10.0 then 50
      else if d < 20.0 then 85
      else 97
  }

  /** The five bands are left-closed intervals of the deviation. */
  lemma PercentileBands(v: real, median: real)
    requires median != 0.0
    ensures Percentile(v, median) == 3 <==> Deviation(v, median) < -20.0
    ensures Percentile(v, median) == 15 <==> -20.0 <= Deviation(v, median) < -10.0
    ensures Percentile(v, median) == 50 <==> -10.0 <= Deviation(v, median) < 10.0
    ensures Percentile(v, median) == 85 <==> 10.0 <= Deviation(v, median) < 20.0
    ensures Percentile(v, median) == 97 <==> 20.0 <= Deviation(v, median)
  {
  }

  /** A value on the median is in the middle band. */
  lemma PercentileAtMedian(median: real)
    requires median != 0.0
    ensures Percentile(median, median) == 50
  {
  }

  lemma DeviationMonotone(v1: real, v2: real, median: real)
    requires median > 0.0 && v1 <= v2
    ensures Deviation(v1, median) <= Deviation(v2, median)
  {
    var q1, q2 := (v1 - median) / median, (v2 - median) / median;
    assert q2 - q1 == (v2 - v1) / median;
    assert (v2 - v1) / median >= 0.0;
  }

  /** For a positive median a larger value never lands in a lower band. */
  lemma PercentileMonotone(v1: real, v2: real, median: real)
    requires median > 0.0 && v1 <= v2
    ensures Percentile(v1, median) <= Percentile(v2, median)
  {
    DeviationMonotone(v1, v2, median);
  }

  /** `getAgeInMonths`: whole calendar months between the two dates' months. */
  function AgeInMonths(birth: CalendarDate, target: CalendarDate): int
  {
    (target.year - birth.year) * 12 + (target.month - birth.month)
  }

  /** The age is the difference of the two month indices, so it is additive over intermediate dates. */
  lemma AgeIsMonthDifference(birth: CalendarDate, target: CalendarDate)
    ensures AgeInMonths(birth, target) == MonthIndex(target) - MonthIndex(birth)
  {
  }

  /** The day of the month plays no part: two targets in the same month give the same age. */
  lemma AgeIgnoresDay(birth: CalendarDate, t1: CalendarDate, t2: CalendarDate)
    requires t1.year == t2.year && t1.month == t2.month
    ensures AgeInMonths(birth, t1) == AgeInMonths(birth, t2)
  {
  }

  /** A target on or after the birth date (calendar order) has a non-negative age. */
  lemma AgeNonNegative(birth: CalendarDate, target: CalendarDate)
    requires ValidDate(birth) && ValidDate(target) && DateLe(birth, target)
    ensures AgeInMonths(birth, target) >= 0
  {
    MonthIndexMonotone(birth, target);
  }

  /** The body-mass index `weight / (height/100)^2`; `None` where the height is zero. */
  function Bmi(weight: real, height: real): (r: Option<real>)
    ensures r.Some? <==> height != 0.0
    ensures r.Some? ==> r.value * (height / 100.0) * (height / 100.0) == weight
  {
    if height == 0.0 then None
    else
      var m := height / 100.0;
      assert m * m != 0.0;
      Some(weight / (m * m))
  }

  /** The age of a record: `None` when either date does not parse (the source then computes with NaN). */
  function RecordAge(birthDate: string, recordDate: string): Option<int>
  {
    match (ParseIsoDate(birthDate), ParseIsoDate(recordDate))
    case (Some(b), Some(t)) => Some(AgeInMonths(b, t))
    case _ => None
  }

  /** The median at an age that may be NaN: a NaN median fails every comparison, giving band 97. */
  function PercentileAtAge(v: real, age: Option<int>, sex: Sex, m: Measure): (p: int)
    ensures p == 3 || p == 15 || p == 50 || p == 85 || p == 97
    ensures age.None? && m != BodyMassIndex ==> p == 97
  {
    if age.None? && m != BodyMassIndex then 97
    else
      var a := if age.Some? then age.value else 0;
      Percentile(v, WhoMedian(a, sex, m))
  }

  /** What `currentAnalysis` returns; `bmi` is `None` for a zero height, where the source shows "Infinity" or "NaN". */
  datatype Analysis = Analysis(pWeight: int, pHeight: int, pBmi: int, bmi: Option<real>)

  /** `currentAnalysis`: the percentiles of the latest growth record of the selected patient. */
  function CurrentAnalysis(selected: Option<Patient>): (r: Option<Analysis>)
    ensures r.None? <==> selected.None? || |selected.value.growthHistory| == 0
  {
    if selected.None? || |selected.value.growthHistory| == 0 then None
    else
      var p := selected.value;
      var latest := p.growthHistory[|p.growthHistory| - 1];
      var age := RecordAge(p.birthDate, latest.date);
      var bmi := Bmi(latest.weight, latest.height);
      Some(Analysis(
        PercentileAtAge(latest.weight, age, p.gender, WeightKg),
        PercentileAtAge(latest.height, age, p.gender, HeightCm),
        // with a zero height the source's BMI is -Infinity, NaN or +Infinity
        if bmi.Some? then PercentileAtAge(bmi.value, age, p.gender, BodyMassIndex)
        else if latest.weight < 0.0 then 3 else 97,
        bmi))
  }

  /** Only the latest record, the birth date and the sex enter the analysis. */
  lemma AnalysisUsesLatest(p: Patient, q: Patient)
    requires |p.growthHistory| > 0 && |q.growthHistory| > 0
    requires p.growthHistory[|p.growthHistory| - 1] == q.growthHistory[|q.growthHistory| - 1]
    requires p.birthDate == q.birthDate && p.gender == q.gender
    ensures CurrentAnalysis(Some(p)) == CurrentAnalysis(Some(q))
  {
  }

  /** With parseable dates the weight and height bands are those of the medians at the record's age, and a nonzero height gives the BMI and its band against the flat median 16. */
  lemma AnalysisAtAge(p: Patient, b: CalendarDate, t: CalendarDate)
    requires |p.growthHistory| > 0
    requires ParseIsoDate(p.birthDate) == Some(b)
    requires ParseIsoDate(p.growthHistory[|p.growthHistory| - 1].date) == Some(t)
    ensures CurrentAnalysis(Some(p)).Some?
    ensures var latest := p.growthHistory[|p.growthHistory| - 1];
      && CurrentAnalysis(Some(p)).value.pWeight == Percentile(latest.weight, WhoMedian(AgeInMonths(b, t), p.gender, WeightKg))
      && CurrentAnalysis(Some(p)).value.pHeight == Percentile(latest.height, WhoMedian(AgeInMonths(b, t), p.gender, HeightCm))
    ensures var latest := p.growthHistory[|p.growthHistory| - 1];
      latest.height != 0.0 ==>
        && CurrentAnalysis(Some(p)).value.bmi == Bmi(latest.weight, latest.height)
        && CurrentAnalysis(Some(p)).value.pBmi == Percentile(Bmi(latest.weight, latest.height).value, 16.0)
  {
  }

  /** The badge colour of a percentile (`getPercentileColor`). */
  datatype Tone = Green | Amber | Red

  function PercentileTone(p: int): Tone
  {
    if p == 50 then Green
    else if p == 15 || p == 85 then Amber
    else Red
  }

  /** On the classifier's outputs: green in the middle band, amber one band out, red at the extremes. */
  lemma ToneOfBands(v: real, median: real)
    ensures var p := Percentile(v, median);
      && (PercentileTone(p) == Green <==> p == 50)
      && (PercentileTone(p) == Amber <==> p == 15 || p == 85)
      && (PercentileTone(p) == Red <==> p == 3 || p == 97)
  {
  }

  /** The "Evaluación" card: "Normal" exactly for a middle-band BMI, "--" without an analysis. */
  function Evaluation(a: Option<Analysis>): (s: string)
    ensures a.None? ==> s == "--"
    ensures a.Some? ==> (s == "Normal" <==> a.value.pBmi == 50)
  {
    if a.None? then "--" else if a.value.pBmi == 50 then "Normal" else "Seguimiento"
  }
}
