/**
 * The student-gain card against the per-student gains, before rounding
 * (reports/provision_teacher_performance_report.py).
 */
module GainMetrics {
  import opened Wrappers
  import opened TeacherReport

  predicate MatchedScores(r: StudentRow) {
    r.baseline.Some? && r.mastery.Some?
  }

  /** SUM(CASE WHEN matched THEN baseline END); a SUM over no values is NULL, here 0 with `AnyMatched`. */
  function BaselineSum(rows: seq<StudentRow>): real {
    if rows == [] then 0.0
    else
      var r := rows[|rows| - 1];
      BaselineSum(rows[..|rows| - 1]) + (if MatchedScores(r) then r.baseline.value else 0.0)
  }

  function MasterySum(rows: seq<StudentRow>): real {
    if rows == [] then 0.0
    else
      var r := rows[|rows| - 1];
      MasterySum(rows[..|rows| - 1]) + (if MatchedScores(r) then r.mastery.value else 0.0)
  }

  predicate AnyMatched(rows: seq<StudentRow>) {
    exists r :: r in rows && MatchedScores(r)
  }

  /** The card: NULL without a matched student or with baselines that sum to zero. */
  function AggregateGain(rows: seq<StudentRow>): Option<real> {
    if !AnyMatched(rows) || BaselineSum(rows) == 0.0 then None
    else Some((MasterySum(rows) - BaselineSum(rows)) / BaselineSum(rows))
  }

  /** A student's gain times the baseline; 0 for a student without a gain. */
  function Weighted(r: StudentRow): real {
    if Gain(r.baseline, r.mastery).Some? then r.baseline.value * Gain(r.baseline, r.mastery).value else 0.0
  }

  /** The gains weighted by baseline, over the students that have one. */
  function WeightedGains(rows: seq<StudentRow>): real {
    if rows == [] then 0.0 else WeightedGains(rows[..|rows| - 1]) + Weighted(rows[|rows| - 1])
  }

  /** Mastery of the matched students whose baseline is zero, and who therefore have no gain. */
  function MasteryFromZero(rows: seq<StudentRow>): real {
    if rows == [] then 0.0
    else
      var r := rows[|rows| - 1];
      MasteryFromZero(rows[..|rows| - 1])
      + (if MatchedScores(r) && r.baseline.value == 0.0 then r.mastery.value else 0.0)
  }

  ghost predicate PositiveBaselines(rows: seq<StudentRow>) {
    forall r :: r in rows && MatchedScores(r) ==> r.baseline.value > 0.0
  }

  ghost predicate NonNegativeBaselines(rows: seq<StudentRow>) {
    forall r :: r in rows && MatchedScores(r) ==> r.baseline.value >= 0.0
  }

  lemma GainTimesBaseline(b: real, m: real)
    requires b != 0.0
    ensures b * ((m - b) / b) == m - b
  {
  }

  lemma StudentDecomposes(r: StudentRow)
    ensures MatchedScores(r) ==>
      r.mastery.value - r.baseline.value == Weighted(r) + (if r.baseline.value == 0.0 then r.mastery.value else 0.0)
    ensures !MatchedScores(r) ==> Weighted(r) == 0.0
  {
    if MatchedScores(r) && r.baseline.value != 0.0 {
      GainTimesBaseline(r.baseline.value, r.mastery.value);
    }
  }

  /** For any rows: mastery minus baseline is the weighted gains plus the mastery gained from zero. */
  lemma {:induction false} SumsDecompose(rows: seq<StudentRow>)
    ensures MasterySum(rows) - BaselineSum(rows) == WeightedGains(rows) + MasteryFromZero(rows)
  {
    hide Weighted;
    if rows != [] {
      SumsDecompose(rows[..|rows| - 1]);
      StudentDecomposes(rows[|rows| - 1]);
    }
  }

  lemma {:induction false} PositiveSums(rows: seq<StudentRow>)
    requires PositiveBaselines(rows)
    ensures BaselineSum(rows) >= 0.0 && MasteryFromZero(rows) == 0.0
    ensures AnyMatched(rows) <==> BaselineSum(rows) > 0.0
  {
    if rows != [] {
      var n := |rows| - 1;
      PositiveSums(rows[..n]);
      assert rows == rows[..n] + [rows[n]];
      assert AnyMatched(rows) <==> AnyMatched(rows[..n]) || MatchedScores(rows[n]);
    }
  }

  lemma {:induction false} SumNeedsMatched(rows: seq<StudentRow>)
    ensures BaselineSum(rows) != 0.0 ==> AnyMatched(rows)
  {
    if rows != [] {
      var n := |rows| - 1;
      SumNeedsMatched(rows[..n]);
      assert rows == rows[..n] + [rows[n]];
      assert rows[n] in rows && forall r :: r in rows[..n] ==> r in rows;
    }
  }

  lemma QuotientsDiffer(a: real, c: real, b: real)
    requires b != 0.0
    ensures (a + c) / b == a / b <==> c == 0.0
  {
    assert (a + c) / b == a / b + c / b;
    assert c != 0.0 ==> (c / b) * b == c;
  }

  /**
   * Wherever the card is not NULL it is the baseline-weighted mean of the individual gains exactly
   * when the matched students starting from zero add no mastery.
   */
  lemma CardIsMeanIffNothingFromZero(rows: seq<StudentRow>)
    requires BaselineSum(rows) != 0.0
    ensures AggregateGain(rows) == Some((WeightedGains(rows) + MasteryFromZero(rows)) / BaselineSum(rows))
    ensures AggregateGain(rows) == Some(WeightedGains(rows) / BaselineSum(rows)) <==> MasteryFromZero(rows) == 0.0
  {
    hide BaselineSum, MasterySum, WeightedGains, MasteryFromZero, AnyMatched;
    SumNeedsMatched(rows);
    SumsDecompose(rows);
    QuotientsDiffer(WeightedGains(rows), MasteryFromZero(rows), BaselineSum(rows));
  }

  /** With positive baselines the card is the baseline-weighted mean of the individual gains. */
  lemma CardIsWeightedMean(rows: seq<StudentRow>)
    requires PositiveBaselines(rows) && AnyMatched(rows)
    ensures BaselineSum(rows) > 0.0
    ensures AggregateGain(rows) == Some(WeightedGains(rows) / BaselineSum(rows))
  {
    hide MasteryFromZero, AggregateGain, BaselineSum;
    PositiveSums(rows);
    CardIsMeanIffNothingFromZero(rows);
  }

  ghost predicate GainsWithin(rows: seq<StudentRow>, low: real, high: real) {
    forall r :: r in rows && Gain(r.baseline, r.mastery).Some? ==> low <= Gain(r.baseline, r.mastery).value <= high
  }

  predicate Between(low: real, high: real, weight: real, sum: real) {
    low * weight <= sum <= high * weight
  }

  lemma Extend(low: real, high: real, weight: real, sum: real, b: real, g: real)
    requires Between(low, high, weight, sum) && b > 0.0 && low <= g <= high
    ensures Between(low, high, weight + b, sum + b * g)
  {
    assert low * b <= b * g <= high * b;
    assert low * (weight + b) == low * weight + low * b;
    assert high * (weight + b) == high * weight + high * b;
  }

  lemma {:induction false} WeightedWithin(rows: seq<StudentRow>, low: real, high: real)
    requires NonNegativeBaselines(rows) && GainsWithin(rows, low, high)
    ensures BaselineSum(rows) >= 0.0
    ensures Between(low, high, BaselineSum(rows), WeightedGains(rows))
  {
    assert Between(low, high, 0.0, 0.0);
    hide Between, Weighted, Gain;
    if rows != [] {
      var n := |rows| - 1;
      WeightedWithin(rows[..n], low, high);
      assert rows[n] in rows;
      ExtendByStudent(rows[n], low, high, BaselineSum(rows[..n]), WeightedGains(rows[..n]));
    }
  }

  lemma ExtendByStudent(r: StudentRow, low: real, high: real, weight: real, sum: real)
    requires Between(low, high, weight, sum)
    requires MatchedScores(r) ==> r.baseline.value >= 0.0
    requires Gain(r.baseline, r.mastery).Some? ==> low <= Gain(r.baseline, r.mastery).value <= high
    ensures Between(low, high, weight + (if MatchedScores(r) then r.baseline.value else 0.0), sum + Weighted(r))
  {
    assert Gain(r.baseline, r.mastery).Some? <==> MatchedScores(r) && r.baseline.value != 0.0;
    assert !Gain(r.baseline, r.mastery).Some? ==> Weighted(r) == 0.0;
    hide Between, Gain;
    if Gain(r.baseline, r.mastery).Some? {
      Extend(low, high, weight, sum, r.baseline.value, Gain(r.baseline, r.mastery).value);
    }
  }

  lemma Divide(w: real, b: real, low: real, high: real)
    requires b > 0.0 && Between(low, high, b, w)
    ensures low <= w / b <= high
  {
    assert (w / b) * b == w;
  }

  /**
   * Without negative baselines, a card that is such a mean lies within any bounds of the individual
   * gains, in particular their minimum and maximum.
   */
  lemma CardWithinGains(rows: seq<StudentRow>, low: real, high: real)
    requires NonNegativeBaselines(rows) && BaselineSum(rows) != 0.0 && MasteryFromZero(rows) == 0.0
    requires GainsWithin(rows, low, high)
    ensures AggregateGain(rows).Some? && low <= AggregateGain(rows).value <= high
  {
    hide Between, BaselineSum, MasteryFromZero, WeightedGains, AggregateGain, GainsWithin, NonNegativeBaselines;
    CardIsMeanIffNothingFromZero(rows);
    WeightedWithin(rows, low, high);
    Divide(WeightedGains(rows), BaselineSum(rows), low, high);
  }

  /** In particular when all matched students have a positive baseline. */
  lemma CardWithinGainsIfPositive(rows: seq<StudentRow>, low: real, high: real)
    requires PositiveBaselines(rows) && AnyMatched(rows) && GainsWithin(rows, low, high)
    ensures AggregateGain(rows).Some? && low <= AggregateGain(rows).value <= high
  {
    PositiveSums(rows);
    hide BaselineSum, MasteryFromZero, AggregateGain, GainsWithin;
    CardWithinGains(rows, low, high);
  }

  lemma SumsOfOne(r: StudentRow)
    requires MatchedScores(r)
    ensures BaselineSum([r]) == r.baseline.value && MasterySum([r]) == r.mastery.value
  {
    assert [r][..0] == [];
    assert BaselineSum([]) == 0.0 && MasterySum([]) == 0.0;
  }

  /** A student with baseline zero moves the card but has no gain: here it exceeds every gain. */
  lemma ZeroBaselineEscapes(rows: seq<StudentRow>, a: StudentRow, b: StudentRow)
    requires rows == [a, b]
    requires a.baseline == Some(0.0) && a.mastery == Some(10.0)
    requires b.baseline == Some(10.0) && b.mastery == Some(10.0)
    ensures GainsWithin(rows, 0.0, 0.0) && AggregateGain(rows) == Some(1.0)
  {
    SumsOfOne(a);
    assert rows[..1] == [a] && rows[1] == b;
    assert BaselineSum(rows) == BaselineSum([a]) + 10.0;
    assert MasterySum(rows) == MasterySum([a]) + 10.0;
    assert a in rows && MatchedScores(a);
  }
}
