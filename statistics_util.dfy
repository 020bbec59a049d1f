/**
 * StatisticsUtil.java: static helpers over lists of integers (an average, a Pearson
 * correlation with its guards, a crash rule) and two labelling rules. The list
 * walks are methods with loops, specified by the functions of Stats.
 */
module StatisticsUtil {

  import opened Stats
  import Analytics

  /** average: 0 for an empty list, otherwise the sum over the size, which lies
      between the smallest and the largest element. */
  method Average(list: seq<int>) returns (avg: real)
    ensures list == [] ==> avg == 0.0
    ensures list != [] ==> avg == Mean(Reals(list))
    ensures list != [] ==> MinOf(Reals(list)) <= avg <= MaxOf(Reals(list))
  {
    if list == [] {
      return 0.0;
    }
    ghost var xs := Reals(list);
    var sum := 0.0;
    var i := 0;
    while i < |list|
      invariant 0 <= i <= |list|
      invariant sum == Sum(xs[..i])
    {
      SumStep(xs, i);
      sum := sum + list[i] as real;
      i := i + 1;
    }
    assert xs[..i] == xs;
    avg := sum / |list| as real;
    MeanBounds(Reals(list));
  }

  /** classifyEnergy(int): by the thresholds 70 and 45. */
  function ClassifyEnergy(score: int): (tag: string)
    ensures tag == "High Energy" <==> score >= 70
    ensures tag == "Moderate Energy" <==> 45 <= score < 70
    ensures tag == "Low Energy" <==> score < 45
  {
    if score >= 70 then "High Energy"
    else if score >= 45 then "Moderate Energy"
    else "Low Energy"
  }

  /** The position of a label in Low < Moderate < High. */
  function EnergyRank(tag: string): int
  {
    if tag == "Low Energy" then 0 else if tag == "Moderate Energy" then 1 else 2
  }

  /** A higher score never gets a lower label. */
  lemma ClassifyEnergyMonotone(a: int, b: int)
    requires a <= b
    ensures EnergyRank(ClassifyEnergy(a)) <= EnergyRank(ClassifyEnergy(b))
  {
  }

  /** What correlation returns: the literal 0 for lists of different sizes, for fewer
      than two pairs and for a zero denominator; otherwise numerator / sqrt(radicand),
      which is itself 0 when the numerator is. */
  function Pearson(sleep: seq<int>, energy: seq<int>): (c: Correlation)
    ensures c != NaN
    ensures |sleep| != |energy| || |sleep| < 2 ==> c == Zero
    ensures c.Ratio? ==> c.radicand > 0.0
  {
    if |sleep| != |energy| || |sleep| < 2 then Zero
    else
      var m := Deviations(Reals(sleep), Reals(energy));
      ZeroVarianceIffConstant(Reals(sleep), Reals(energy));
      if Radicand(m) == 0.0 then Zero else Ratio(m.num, Radicand(m))
  }

  /** The guarded branches return their literal 0 exactly for mismatched or short lists
      and for a constant series; otherwise the radicand under the square root is positive. */
  lemma PearsonZeroIff(sleep: seq<int>, energy: seq<int>)
    ensures Pearson(sleep, energy) != NaN
    ensures Pearson(sleep, energy) == Zero <==>
              |sleep| != |energy| || |sleep| < 2 || IsConstant(Reals(sleep)) || IsConstant(Reals(energy))
    ensures Pearson(sleep, energy).Ratio? ==> Pearson(sleep, energy).radicand > 0.0
  {
    if |sleep| == |energy| && |sleep| >= 2 {
      ZeroVarianceIffConstant(Reals(sleep), Reals(energy));
    }
  }

  /** Two varying series can still correlate to 0 through the quotient rather than the
      guard: for [1, 2, 3] and [1, 0, 1] the deviation products cancel while the
      radicand is positive. */
  lemma ZeroNumeratorExample()
    ensures Pearson([1, 2, 3], [1, 0, 1]) == Ratio(0.0, 4.0 / 3.0)
  {
    var xs, ys := Reals([1, 2, 3]), Reals([1, 0, 1]);
    assert xs == [1.0, 2.0, 3.0] && ys == [1.0, 0.0, 1.0];
    var x1, x2, y1, y2 := [1.0], [1.0, 2.0], [1.0], [1.0, 0.0];
    assert xs[..2] == x2 && x2[..1] == x1 && x1[..0] == [];
    assert ys[..2] == y2 && y2[..1] == y1 && y1[..0] == [];
    assert Sum(x1) == 1.0 && Sum(x2) == 3.0 && Sum(xs) == 6.0;
    assert Sum(y1) == 1.0 && Sum(y2) == 1.0 && Sum(ys) == 2.0;
    var mx, my := Mean(xs), Mean(ys);
    assert mx == 2.0 && my == 2.0 / 3.0;
    var m1 := CoMoments(x1, y1, mx, my);
    assert m1 == Moments(-1.0 / 3.0, 1.0, 1.0 / 9.0);
    var m2 := CoMoments(x2, y2, mx, my);
    assert m2 == Moments(-1.0 / 3.0, 1.0, 5.0 / 9.0);
    assert CoMoments(xs, ys, mx, my) == Moments(0.0, 2.0, 2.0 / 3.0);
  }


  /** Swapping the two lists leaves the correlation unchanged. */
  lemma PearsonSymmetric(sleep: seq<int>, energy: seq<int>)
    ensures Pearson(sleep, energy) == Pearson(energy, sleep)
  {
    if |sleep| == |energy| && |sleep| >= 2 {
      DeviationsSymmetric(Reals(sleep), Reals(energy));
    }
  }

  /** The loop of correlation: the sums of deviation products about the given averages. */
  method DeviationLoop(sleep: seq<int>, energy: seq<int>, avgSleep: real, avgEnergy: real) returns (m: Moments)
    requires |sleep| == |energy|
    ensures m == CoMoments(Reals(sleep), Reals(energy), avgSleep, avgEnergy)
  {
    ghost var xs, ys := Reals(sleep), Reals(energy);
    var numerator, denS, denE := 0.0, 0.0, 0.0;
    var i := 0;
    while i < |sleep|
      invariant 0 <= i <= |sleep|
      invariant Moments(numerator, denS, denE) == CoMoments(xs[..i], ys[..i], avgSleep, avgEnergy)
    {
      CoMomentsStep(xs, ys, i, avgSleep, avgEnergy);
      var ds := sleep[i] as real - avgSleep;
      var de := energy[i] as real - avgEnergy;
      assert ds == xs[i] - avgSleep && de == ys[i] - avgEnergy;
      assert ds * de == Cross(ds, de) && ds * ds == Sq(ds) && de * de == Sq(de);
      numerator := numerator + ds * de;
      denS := denS + ds * ds;
      denE := denE + de * de;
      i := i + 1;
    }
    assert xs[..i] == xs && ys[..i] == ys;
    m := Moments(numerator, denS, denE);
  }

  /** correlation(sleep, energy). */
  method Correlation(sleep: seq<int>, energy: seq<int>) returns (r: Correlation)
    ensures r == Pearson(sleep, energy)
  {
    if |sleep| != |energy| || |sleep| < 2 {
      return Zero;
    }
    var avgSleep := Average(sleep);
    var avgEnergy := Average(energy);
    var m := DeviationLoop(sleep, energy, avgSleep, avgEnergy);
    assert m == Deviations(Reals(sleep), Reals(energy));
    var denominator := Radicand(m);
    r := if denominator == 0.0 then Zero else Ratio(m.num, denominator);
  }

  /** productivityTier(avg): by the thresholds 4 and 2.5. */
  function ProductivityTier(avg: real): (tier: string)
    ensures tier == "High Productivity" <==> avg >= 4.0
    ensures tier == "Moderate Productivity" <==> 2.5 <= avg < 4.0
    ensures tier == "Low Productivity" <==> avg < 2.5
  {
    if avg >= 4.0 then "High Productivity"
    else if avg >= 2.5 then "Moderate Productivity"
    else "Low Productivity"
  }

  /** The tracker's weekly tier uses the same thresholds: the two rules agree on every average. */
  lemma TiersAgree(avg: real)
    ensures ProductivityTier(avg) == "High Productivity" <==> Analytics.PerformerTier(avg) == "High Performer"
    ensures ProductivityTier(avg) == "Moderate Productivity" <==> Analytics.PerformerTier(avg) == "Moderate Performer"
    ensures ProductivityTier(avg) == "Low Productivity" <==> Analytics.PerformerTier(avg) == "Low Performer"
  {
  }

  /** The crash rule: at least four scores, and the last below 60% of the average. */
  predicate Crashes(scores: seq<int>)
    ensures Crashes(scores) ==> |scores| >= 4
  {
    |scores| >= 4 && (scores[|scores| - 1] as real) < Mean(Reals(scores)) * 0.6
  }

  /** crashDetected. */
  method CrashDetected(energyScores: seq<int>) returns (crash: bool)
    ensures crash == Crashes(energyScores)
    ensures |energyScores| < 4 ==> !crash
  {
    if |energyScores| < 4 {
      return false;
    }
    var last := energyScores[|energyScores| - 1];
    var totalAvg := Average(energyScores);
    crash := (last as real) < totalAvg * 0.6;
  }

  /** A list that holds one score throughout: */
  predicate Flat(scores: seq<int>, c: int)
  {
    forall i :: 0 <= i < |scores| ==> scores[i] == c
  }

  lemma MeanOfFlat(scores: seq<int>, c: int)
    requires scores != [] && Flat(scores, c)
    ensures Mean(Reals(scores)) == c as real
  {
    var r := Reals(scores);
    assert IsConstant(r);
    MeanOfConstant(r);
  }

  /** ... never crashes when the score is not negative, ... */
  lemma FlatNonNegativeNeverCrashes(scores: seq<int>, c: int)
    requires Flat(scores, c) && c >= 0
    ensures !Crashes(scores)
  {
    if |scores| >= 4 {
      MeanOfFlat(scores, c);
    }
  }

  /** ... and always crashes, once it has four scores, when the score is negative: 60% of a
      negative average lies above it. */
  lemma FlatNegativeCrashes(scores: seq<int>, c: int)
    requires Flat(scores, c) && c < 0 && |scores| >= 4
    ensures Crashes(scores)
  {
    MeanOfFlat(scores, c);
  }

  /** With a non-negative average, a crash puts the last score below the average, so the
      last score is not a largest one. */
  lemma CrashBelowAverage(scores: seq<int>)
    requires Crashes(scores) && Mean(Reals(scores)) >= 0.0
    ensures (scores[|scores| - 1] as real) < Mean(Reals(scores))
    ensures exists i :: 0 <= i < |scores| && scores[i] > scores[|scores| - 1]
  {
    var r := Reals(scores);
    MeanBounds(r);
    var k :| 0 <= k < |r| && r[k] == MaxOf(r);
    assert scores[k] > scores[|scores| - 1];
  }
}
