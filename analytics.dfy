/**
 * The analytics of EnergyTracker.java over its list of entries: windows of the latest
 * days, averages and extremes, the crash rule, the labels, the deep-work recommendation,
 * the bar graph, the sleep/energy correlation and the weekly figures. Queries that only
 * read the list are functions of it; the loops the source writes over a map or arrays are
 * methods proved against those functions.
 */
module Analytics {

  import opened Wrappers
  import opened Text
  import opened Ordering
  import opened Stats
  import opened EnergyEntry

  // ---------------------------------------------------------------- windows and averages

  /** The k latest days: the list sorted newest first (stably) and limited to k. */
  function LatestK(es: seq<Entry>, k: nat): (w: seq<Entry>)
    ensures |w| == if k < |es| then k else |es|
  {
    Take(SortBy(es, NewestFirst), k)
  }

  /** The window holds entries of the list, newest first, and every entry it leaves out is
      no newer than any it keeps. */
  lemma LatestKSpec(es: seq<Entry>, k: nat)
    ensures var w := LatestK(es, k);
            && multiset(w) <= multiset(es)
            && (forall i, j :: 0 <= i < j < |w| ==> DateKey(w[j].date) <= DateKey(w[i].date))
            && (forall x :: x in es && x !in w ==> forall i :: 0 <= i < |w| ==> DateKey(x.date) <= DateKey(w[i].date))
  {
    var s := SortBy(es, NewestFirst);
    TakeOfSorted(s, NewestFirst, k);
    TakeLeavesLarger(s, NewestFirst, k);
    forall x | x in es ensures x in s {
      assert x in multiset(es);
    }
  }

  /** Every entry of a window is an entry of the list. */
  lemma LatestKMembers(es: seq<Entry>, k: nat)
    ensures forall i :: 0 <= i < |LatestK(es, k)| ==> LatestK(es, k)[i] in es
  {
    LatestKSpec(es, k);
    var w := LatestK(es, k);
    forall i | 0 <= i < |w| ensures w[i] in es {
      assert w[i] in multiset(w);
    }
  }

  /** Every entry of a window turned oldest first is an entry of the list. */
  lemma WindowMembers(es: seq<Entry>, k: nat)
    ensures forall x :: x in Reverse(LatestK(es, k)) ==> x in es
  {
    LatestKMembers(es, k);
    ReverseMembers(LatestK(es, k));
  }

  /** In a list with strictly ascending dates the k latest days are its last k entries,
      newest first. */
  lemma LatestOfAscending(es: seq<Entry>, k: nat)
    requires StrictlySortedBy(es, DateOrder)
    ensures LatestK(es, k) == Take(Reverse(es), k)
  {
    SortByDecreasing(es, NewestFirst);
  }

  /** averageEnergy: 0 for an empty journal, else the mean score. */
  function AverageEnergy(es: seq<Entry>): (avg: real)
    ensures es == [] ==> avg == 0.0
    ensures es != [] ==> avg * |es| as real == Sum(Scores(es))
  {
    if es == [] then 0.0 else Mean(Scores(es))
  }

  /** The average lies between the lowest and the highest score. */
  lemma AverageEnergyBounds(es: seq<Entry>)
    requires es != []
    ensures MinOf(Scores(es)) <= AverageEnergy(es) <= MaxOf(Scores(es))
  {
    MeanBounds(Scores(es));
  }

  /** highestEnergy: Stream.max keeps the earlier of two equal scores, so this is the
      first entry with the highest score. */
  function HighestEnergy(es: seq<Entry>): (r: Option<Entry>)
    ensures r.None? <==> es == []
    ensures r.Some? ==> exists i :: IsFirstMax(Scores(es), i) && r.value == es[i]
  {
    if es == [] then None else Some(es[FirstMaxIndex(Scores(es))])
  }

  /** lowestEnergy: the first entry with the lowest score. */
  function LowestEnergy(es: seq<Entry>): (r: Option<Entry>)
    ensures r.None? <==> es == []
    ensures r.Some? ==> exists i :: IsFirstMin(Scores(es), i) && r.value == es[i]
  {
    if es == [] then None else Some(es[FirstMinIndex(Scores(es))])
  }

  /** predictTomorrow: 0 for an empty journal, else the mean score of the three latest days. */
  function PredictTomorrow(es: seq<Entry>): (p: real)
    ensures es == [] ==> p == 0.0
    ensures es != [] ==> var s := Scores(LatestK(es, 3)); p == Sum(s) / |s| as real
    ensures es != [] ==> var s := Scores(LatestK(es, 3)); MinOf(s) <= p <= MaxOf(s)
  {
    if es == [] then 0.0
    else
      var s := Scores(LatestK(es, 3));
      MeanBounds(s);
      Mean(s)
  }

  /** The prediction averages min(3, n) scores and never leaves the range of scores the
      journal has seen. */
  lemma PredictTomorrowBounds(es: seq<Entry>)
    requires es != []
    ensures |Scores(LatestK(es, 3))| == (if |es| < 3 then |es| else 3)
    ensures MinOf(Scores(es)) <= PredictTomorrow(es) <= MaxOf(Scores(es))
  {
    var w := LatestK(es, 3);
    var s := Scores(w);
    LatestKMembers(es, 3);
    var i :| 0 <= i < |s| && s[i] == MinOf(s);
    var j :| 0 <= j < |es| && es[j] == w[i];
    assert Scores(es)[j] == s[i];
    var k :| 0 <= k < |s| && s[k] == MaxOf(s);
    var l :| 0 <= l < |es| && es[l] == w[k];
    assert Scores(es)[l] == s[k];
  }

  /** isCrashing: with two days or more, whether the mean of the two latest scores is
      below 90% of the overall mean. */
  function IsCrashing(es: seq<Entry>): (crash: bool)
    ensures crash ==> |es| >= 2
  {
    if |es| < 2 then false
    else Mean(Scores(LatestK(es, 2))) < AverageEnergy(es) * 0.9
  }

  /** In a journal with strictly ascending dates, a crash is signalled exactly when the two
      last days average below 90% of the journal's average. */
  lemma CrashRule(es: seq<Entry>)
    requires StrictlySortedBy(es, DateOrder) && |es| >= 2
    ensures IsCrashing(es) <==>
            (EnergyScore(es[|es| - 1]) + EnergyScore(es[|es| - 2])) / 2.0 < AverageEnergy(es) * 0.9
  {
    LatestOfAscending(es, 2);
    var w := LatestK(es, 2);
    assert w == [es[|es| - 1], es[|es| - 2]];
    var s := Scores(w);
    assert |s| == 2 && s[..1][..0] == [];
    assert Sum(s[..1]) == s[0];
    assert Sum(s) == s[0] + s[1] by { assert s[..|s| - 1] == s[..1]; }
  }

  /** A crash means one of the two latest days scored below 90% of the journal's average;
      when that average is not negative, the day is below the average itself and some day
      of the journal scored more. */
  lemma CrashHasLowDay(es: seq<Entry>)
    requires IsCrashing(es)
    ensures exists d :: d in LatestK(es, 2) && EnergyScore(d) < AverageEnergy(es) * 0.9
    ensures AverageEnergy(es) >= 0.0 ==>
              exists d, x :: d in LatestK(es, 2) && x in es && EnergyScore(d) < AverageEnergy(es) <= EnergyScore(x)
  {
    var w := LatestK(es, 2);
    var s := Scores(w);
    MeanBounds(s);
    var i :| 0 <= i < |s| && s[i] == MinOf(s);
    assert w[i] in w;
    if AverageEnergy(es) >= 0.0 {
      AverageEnergyBounds(es);
      var t := Scores(es);
      var j :| 0 <= j < |t| && t[j] == MaxOf(t);
      assert es[j] in es;
    }
  }

  /** A journal whose scores never change and are not negative never signals a crash. */
  lemma ConstantScoresNeverCrash(es: seq<Entry>)
    requires IsConstant(Scores(es))
    requires forall i :: 0 <= i < |es| ==> EnergyScore(es[i]) >= 0.0
    ensures !IsCrashing(es)
  {
    if |es| >= 2 {
      var w := LatestK(es, 2);
      var c := EnergyScore(es[0]);
      LatestKMembers(es, 2);
      forall i | 0 <= i < |w| ensures Scores(w)[i] == c {
        var j :| 0 <= j < |es| && es[j] == w[i];
        assert Scores(es)[j] == Scores(es)[0];
      }
      MeanOfConstant(Scores(w));
      MeanOfConstant(Scores(es));
    }
  }

  /** Four days at 80 followed by two at 10 signal a crash: 10 is below 90% of 56.67. */
  lemma CrashExample(es: seq<Entry>)
    requires |es| == 6 && StrictlySortedBy(es, DateOrder)
    requires Scores(es) == [80.0, 80.0, 80.0, 80.0, 10.0, 10.0]
    ensures IsCrashing(es)
  {
    LatestOfAscending(es, 2);
    var w := LatestK(es, 2);
    assert w == [es[5], es[4]];
    assert Scores(w) == [10.0, 10.0];
    assert Sum([10.0, 10.0]) == 20.0 by {
      assert [10.0, 10.0][..1] == [10.0];
      assert [10.0][..0] == [];
    }
    var s := Scores(es);
    assert s[..5][..4][..3][..2][..1][..0] == [];
    assert Sum(s[..1]) == 80.0;
    assert Sum(s[..2]) == 160.0 by { assert s[..2][..1] == s[..1]; }
    assert Sum(s[..3]) == 240.0 by { assert s[..3][..2] == s[..2]; }
    assert Sum(s[..4]) == 320.0 by { assert s[..4][..3] == s[..3]; }
    assert Sum(s[..5]) == 330.0 by { assert s[..5][..4] == s[..4]; }
    assert Sum(s) == 340.0 by { assert s[..5] == s[..|s| - 1]; }
  }

  // ---------------------------------------------------------------- labels

  /** classifyEnergy. */
  function ClassifyEnergy(score: real): (tag: string)
    ensures tag == "High" <==> score >= 80.0
    ensures tag == "Medium" <==> 50.0 <= score < 80.0
    ensures tag == "Low" <==> 20.0 <= score < 50.0
    ensures tag == "Critical" <==> score < 20.0
  {
    if score >= 80.0 then "High"
    else if score >= 50.0 then "Medium"
    else if score >= 20.0 then "Low"
    else "Critical"
  }

  /** The position of a label in Critical < Low < Medium < High. */
  function EnergyLevelRank(level: string): int
  {
    if level == "Critical" then 0 else if level == "Low" then 1 else if level == "Medium" then 2 else 3
  }

  /** A higher score never gets a lower label. */
  lemma ClassifyEnergyMonotone(a: real, b: real)
    requires a <= b
    ensures EnergyLevelRank(ClassifyEnergy(a)) <= EnergyLevelRank(ClassifyEnergy(b))
  {
  }

  function Abs(r: real): real { if r < 0.0 then -r else r }

  /** interpretCorrelation: the strength of a correlation by its absolute value. */
  function InterpretCorrelation(r: real): (tag: string)
    ensures tag == "Strong" <==> Abs(r) >= 0.8
    ensures tag == "Moderate" <==> 0.5 <= Abs(r) < 0.8
    ensures tag == "Weak" <==> 0.3 <= Abs(r) < 0.5
    ensures tag == "Very weak or none" <==> Abs(r) < 0.3
  {
    var ar := Abs(r);
    if ar >= 0.8 then "Strong"
    else if ar >= 0.5 then "Moderate"
    else if ar >= 0.3 then "Weak"
    else "Very weak or none"
  }

  /** A correlation and its negation are described alike. */
  lemma InterpretCorrelationSymmetric(r: real)
    ensures InterpretCorrelation(-r) == InterpretCorrelation(r)
  {
  }

  /** predictMood: 3 for an empty journal, else the mean mood of the three latest days
      rounded half up and cast to int. */
  function PredictMood(es: seq<Entry>): (mood: int)
    ensures es == [] ==> mood == 3
    ensures -0x8000_0000 <= mood < 0x8000_0000
    ensures es != [] && -0x8000_0000 <= RoundHalfUp(Mean(Moods(LatestK(es, 3)))) < 0x8000_0000 ==>
              mood == RoundHalfUp(Mean(Moods(LatestK(es, 3))))
  {
    if es == [] then 3 else IntRound(Mean(Moods(LatestK(es, 3))))
  }

  /** Moods on the 1 to 5 scale predict a mood on that scale. */
  lemma PredictMoodInRange(es: seq<Entry>)
    requires forall i :: 0 <= i < |es| ==> 1 <= es[i].mood <= 5
    ensures 1 <= PredictMood(es) <= 5
  {
    if es != [] {
      var w := LatestK(es, 3);
      LatestKMembers(es, 3);
      MeanBounds(Moods(w));
      assert 1.0 <= MinOf(Moods(w)) && MaxOf(Moods(w)) <= 5.0 by {
        assert MinOf(Moods(w)) in Moods(w) && MaxOf(Moods(w)) in Moods(w);
      }
      IntRoundWithin(Mean(Moods(w)), 1, 5);
    }
  }

  /** With moods on the 1 to 5 scale, the prediction is the mean mood of the three latest
      days rounded to the nearest integer, halves up. */
  lemma PredictMoodNearMean(es: seq<Entry>)
    requires es != []
    requires forall i :: 0 <= i < |es| ==> 1 <= es[i].mood <= 5
    ensures var m := Mean(Moods(LatestK(es, 3))); m - 0.5 < PredictMood(es) as real <= m + 0.5
  {
    var m := Mean(Moods(LatestK(es, 3)));
    assert 1.0 <= m <= 5.0 by {
      var w := LatestK(es, 3);
      LatestKMembers(es, 3);
      MeanBounds(Moods(w));
      assert MinOf(Moods(w)) in Moods(w) && MaxOf(Moods(w)) in Moods(w);
    }
    assert PredictMood(es) == RoundHalfUp(m);
  }

  /** The tier EnergyTracker gives a mean productivity. */
  function PerformerTier(avg: real): string
  {
    if avg >= 4.0 then "High Performer" else if avg >= 2.5 then "Moderate Performer" else "Low Performer"
  }

  /** productivityTier: "No data" for an empty journal, else the tier of the mean
      productivity of the seven latest days. */
  function ProductivityTier(es: seq<Entry>): (tier: string)
    ensures tier == "No data" <==> es == []
    ensures es != [] ==> tier in {"High Performer", "Moderate Performer", "Low Performer"}
    ensures es != [] ==> var avg := Mean(Productivities(LatestK(es, 7)));
              && (tier == "High Performer" <==> avg >= 4.0)
              && (tier == "Moderate Performer" <==> 2.5 <= avg < 4.0)
              && (tier == "Low Performer" <==> avg < 2.5)
  {
    if es == [] then "No data" else PerformerTier(Mean(Productivities(LatestK(es, 7))))
  }

  /** A week at productivity 4 or more is "High Performer"; one at 2 or less is "Low Performer". */
  lemma ProductivityTierExtremes(es: seq<Entry>)
    requires es != []
    ensures (forall i :: 0 <= i < |es| ==> es[i].productivity >= 4) ==> ProductivityTier(es) == "High Performer"
    ensures (forall i :: 0 <= i < |es| ==> es[i].productivity <= 2) ==> ProductivityTier(es) == "Low Performer"
  {
    LatestKMembers(es, 7);
    WeekTierExtremes(LatestK(es, 7));
  }

  /** The tier of a week whose every productivity is at least 4 or at most 2. */
  lemma WeekTierExtremes(w: seq<Entry>)
    requires w != []
    ensures (forall i :: 0 <= i < |w| ==> w[i].productivity >= 4) ==> PerformerTier(Mean(Productivities(w))) == "High Performer"
    ensures (forall i :: 0 <= i < |w| ==> w[i].productivity <= 2) ==> PerformerTier(Mean(Productivities(w))) == "Low Performer"
  {
    MeanBounds(Productivities(w));
    assert MinOf(Productivities(w)) in Productivities(w) && MaxOf(Productivities(w)) in Productivities(w);
  }

  // ---------------------------------------------------------------- deep work

  /** The non-blank peak times of a list, in order. */
  function Votes(es: seq<Entry>): (v: seq<string>)
    ensures forall i :: 0 <= i < |v| ==> v[i] != ""
  {
    if es == [] then []
    else Votes(es[..|es| - 1]) + (if es[|es| - 1].peakTime == "" then [] else [es[|es| - 1].peakTime])
  }

  /** The top half by score: sorted highest first (stably), limited to max(1, n / 2). */
  function TopHalf(es: seq<Entry>): (top: seq<Entry>)
    ensures |top| == if es == [] then 0 else if |es| / 2 < 1 then 1 else |es| / 2
    ensures multiset(top) <= multiset(es)
  {
    var s, k := SortBy(es, HighestScoreFirst), if |es| / 2 < 1 then 1 else |es| / 2;
    TakeOfSorted(s, HighestScoreFirst, k);
    Take(s, k)
  }

  /** The top half of a non-empty list has max(1, n / 2) entries of the list, and every
      entry it leaves out scores no higher than any it keeps. */
  lemma TopHalfSpec(es: seq<Entry>)
    requires es != []
    ensures var top := TopHalf(es);
            && |top| == (if |es| / 2 < 1 then 1 else |es| / 2)
            && multiset(top) <= multiset(es)
            && (forall x :: x in es && x !in top ==> forall i :: 0 <= i < |top| ==> EnergyScore(x) <= EnergyScore(top[i]))
  {
    var s := SortBy(es, HighestScoreFirst);
    var k := if |es| / 2 < 1 then 1 else |es| / 2;
    TakeOfSorted(s, HighestScoreFirst, k);
    TakeLeavesLarger(s, HighestScoreFirst, k);
    forall x | x in es ensures x in s {
      assert x in multiset(es);
    }
  }

  /** p has at least as many votes as any other peak time. */
  predicate MostVoted(votes: seq<string>, p: string)
  {
    forall q :: q in votes ==> multiset(votes)[q] <= multiset(votes)[p]
  }

  /** The label recommendDeepWorkTime gives a peak time. */
  function PeakLabel(p: string): (tag: string)
    ensures tag == "Morning" <==> p == "M"
    ensures tag == "Afternoon" <==> p == "A"
    ensures tag == "Night" <==> p == "N"
    ensures tag == "Unknown" <==> p !in {"M", "A", "N"}
  {
    if p == "M" then "Morning" else if p == "A" then "Afternoon" else if p == "N" then "Night" else "Unknown"
  }

  /** What recommendDeepWorkTime may answer: "No data" for an empty journal; with no
      votes in the top half, Morning when the mean sleep is at least 7 hours and Afternoon
      otherwise; else the label of some most voted peak time (the map's iteration order
      decides between ties). */
  predicate IsDeepWorkRecommendation(es: seq<Entry>, r: string)
    ensures IsDeepWorkRecommendation(es, r) ==> (r == "No data" <==> es == [])
  {
    if es == [] then r == "No data"
    else
      var votes := Votes(TopHalf(es));
      if votes == [] then r == (if Mean(Sleeps(es)) >= 7.0 then "Morning" else "Afternoon")
      else LabelsMostVoted(votes, r)
  }

  /** r is the label of some most voted peak time. */
  predicate LabelsMostVoted(votes: seq<string>, r: string)
  {
    exists i :: 0 <= i < |votes| && MostVoted(votes, votes[i]) && r == PeakLabel(votes[i])
  }

  /** A peak time with more votes than any other decides the label. */
  lemma ClearWinner(votes: seq<string>, p: string, r: string)
    requires LabelsMostVoted(votes, r)
    requires forall q :: q != p ==> multiset(votes)[q] < multiset(votes)[p]
    ensures r == PeakLabel(p)
  {
    WinnerIsVoted(votes, p);
    var i :| 0 <= i < |votes| && MostVoted(votes, votes[i]) && r == PeakLabel(votes[i]);
    assert multiset(votes)[p] <= multiset(votes)[votes[i]];
  }

  /** A peak time with more votes than any other has at least one. */
  lemma WinnerIsVoted(votes: seq<string>, p: string)
    requires forall q :: q != p ==> multiset(votes)[q] < multiset(votes)[p]
    ensures p in votes
  {
    var other := p + "x";
    assert |other| != |p|;
    assert multiset(votes)[other] < multiset(votes)[p];
    assert p in multiset(votes);
  }

  /** A peak time with more top-half votes than any other decides the recommendation. */
  lemma DeepWorkClearWinner(es: seq<Entry>, p: string, r: string)
    requires es != [] && IsDeepWorkRecommendation(es, r)
    requires forall q :: q != p ==> multiset(Votes(TopHalf(es)))[q] < multiset(Votes(TopHalf(es)))[p]
    ensures r == PeakLabel(p)
  {
    var votes := Votes(TopHalf(es));
    WinnerIsVoted(votes, p);
    ClearWinner(votes, p, r);
  }

  // ---------------------------------------------------------------- graph

  /** One line of asciiGraph: the date and its bar of '|' characters. */
  datatype GraphRow = GraphRow(date: LocalDate, bar: string, score: real)

  /** The days asciiGraph shows: the `days` latest, oldest first. */
  function GraphWindow(es: seq<Entry>, days: nat): (w: seq<Entry>)
    ensures |w| == if days < |es| then days else |es|
    ensures forall x :: x in w ==> x in es
  {
    WindowMembers(es, days);
    Reverse(LatestK(es, days))
  }

  /** The score a full bar stands for: the highest score shown, but at least 1. */
  function GraphScale(w: seq<Entry>): (m: real)
    ensures m >= 1.0
    ensures w != [] ==> m >= MaxOf(Scores(w))
    ensures w != [] && MaxOf(Scores(w)) >= 1.0 ==> m == MaxOf(Scores(w))
  {
    if w == [] then 1.0
    else
      var m := MaxOf(Scores(w));
      if m < 1.0 then 1.0 else m
  }

  /** (int) Math.round(score / scale * 30): the rounded share of 30 characters, wrapped
      to 32 bits by the cast when it does not fit in an int. */
  function BarLength(score: real, scale: real): (n: int)
    requires scale > 0.0
    ensures -0x8000_0000 <= n < 0x8000_0000
    ensures -0x8000_0000 <= RoundHalfUp(score / scale * 30.0) < 0x8000_0000 ==>
              n == RoundHalfUp(score / scale * 30.0)
  {
    IntRound(score / scale * 30.0)
  }

  /** The cast is visible: a stored score of -100000000 against a scale of 1 rounds to
      -3000000000, which the cast turns into a bar of 1294967296 characters. */
  lemma BarWrapExample()
    ensures RoundHalfUp(-100000000.0 / 1.0 * 30.0) == -3000000000
    ensures BarLength(-100000000.0, 1.0) == 1294967296
    ensures |Bar(BarLength(-100000000.0, 1.0))| == 1294967296
  {
    assert MathRound(-3000000000.0) == -3000000000;
    assert -3000000000 % 0x1_0000_0000 == 1294967296;
  }

  /** n bar characters; none for n <= 0, as a loop up to n runs no times. */
  function Bar(n: int): (r: string)
    ensures |r| == if n < 0 then 0 else n
    ensures forall i :: 0 <= i < |r| ==> r[i] == '|'
  {
    if n <= 0 then "" else Bar(n - 1) + "|"
  }

  /** The row of one day: its date, its bar scaled against `scale`, and its score. */
  function Row(e: Entry, scale: real): GraphRow
    requires scale > 0.0
  {
    GraphRow(e.date, Bar(BarLength(EnergyScore(e), scale)), EnergyScore(e))
  }

  /** The rows of a window, each bar scaled against the window's scale. */
  function GraphRows(w: seq<Entry>): (rows: seq<GraphRow>)
    ensures |rows| == |w|
    ensures forall i :: 0 <= i < |w| ==> rows[i] == Row(w[i], GraphScale(w))
  {
    seq(|w|, i requires 0 <= i < |w| => Row(w[i], GraphScale(w)))
  }

  /** A score at most the scale gets at most 30 characters, a score of at least 0 at least none. */
  lemma BarAtMost30(score: real, scale: real)
    requires scale > 0.0 && 0.0 <= score <= scale
    ensures 0 <= BarLength(score, scale) <= 30
  {
    assert scale * 0.0 == 0.0 && scale * 1.0 == scale;
    DivideBounds(score, scale, 0.0, 1.0);
    IntRoundWithin(score / scale * 30.0, 0, 30);
  }

  /** The score the scale stands for gets exactly 30 characters. */
  lemma BarOfScale(scale: real)
    requires scale > 0.0
    ensures BarLength(scale, scale) == 30
  {
    DivideBounds(scale, scale, 1.0, 1.0);
  }

  /** A higher score never gets a shorter bar, as long as both rounded lengths fit in an int. */
  lemma BarMonotone(a: real, b: real, scale: real)
    requires a <= b && scale > 0.0
    requires -2147483648.0 <= a / scale * 30.0 && b / scale * 30.0 < 2147483647.0
    ensures BarLength(a, scale) <= BarLength(b, scale)
  {
    ScaledMonotone(a, b, scale);
    var xa, xb := a / scale * 30.0, b / scale * 30.0;
    RoundMonotone(xa, xb);
    assert -0x8000_0000 <= RoundHalfUp(xa) <= RoundHalfUp(xb) < 0x8000_0000;
  }

  lemma ScaledMonotone(a: real, b: real, scale: real)
    requires a <= b && scale > 0.0
    ensures a / scale * 30.0 <= b / scale * 30.0
  {
    var qa, qb := a / scale, b / scale;
    assert qa * scale == a && qb * scale == b;
    assert qa > qb ==> (qa - qb) * scale > 0.0;
  }

  /** In a graph of non-negative scores no bar is longer than 30, and a day with the
      highest score, when that is at least 1, gets exactly 30. */
  lemma GraphBars(w: seq<Entry>)
    requires forall i :: 0 <= i < |w| ==> EnergyScore(w[i]) >= 0.0
    ensures forall i :: 0 <= i < |w| ==> |GraphRows(w)[i].bar| <= 30
    ensures forall i :: 0 <= i < |w| && EnergyScore(w[i]) == MaxOf(Scores(w)) >= 1.0 ==> |GraphRows(w)[i].bar| == 30
  {
    var rows := GraphRows(w);
    forall i | 0 <= i < |w| ensures |rows[i].bar| <= 30 {
      assert Scores(w)[i] <= MaxOf(Scores(w));
      BarAtMost30(EnergyScore(w[i]), GraphScale(w));
    }
    forall i | 0 <= i < |w| && EnergyScore(w[i]) == MaxOf(Scores(w)) >= 1.0 ensures |rows[i].bar| == 30 {
      BarOfScale(GraphScale(w));
    }
  }

  /** The row loop of asciiGraph: one row per day, in window order. */
  method GraphLines(last: seq<Entry>, max: real) returns (out: seq<GraphRow>)
    requires max > 0.0
    ensures |out| == |last|
    ensures forall k :: 0 <= k < |last| ==> out[k] == Row(last[k], max)
  {
    out := [];
    var i := 0;
    while i < |last|
      invariant 0 <= i <= |last| && |out| == i
      invariant forall k :: 0 <= k < i ==> out[k] == Row(last[k], max)
    {
      var e := last[i];
      var barLen := IntRound(EnergyScore(e) / max * 30.0);
      var bar := BarOf(barLen);
      out := out + [GraphRow(e.date, bar, EnergyScore(e))];
      i := i + 1;
    }
  }

  /** The inner loop of asciiGraph: barLen characters '|', none when barLen <= 0. */
  method BarOf(barLen: int) returns (bar: string)
    ensures bar == Bar(barLen)
  {
    bar := "";
    var j := 0;
    while j < barLen
      invariant 0 <= j && (barLen >= 0 ==> j <= barLen) && (barLen < 0 ==> j == 0)
      invariant bar == Bar(j)
    {
      bar := bar + "|";
      j := j + 1;
    }
  }

  // ---------------------------------------------------------------- correlation

  /** The days sleepEnergyCorrelation uses: the 30 latest, oldest first. */
  function CorrelationWindow(es: seq<Entry>): seq<Entry>
  {
    Reverse(LatestK(es, 30))
  }

  /** sleepEnergyCorrelation: NaN with fewer than two days or a zero denominator, else
      Σdx·dy / sqrt(Σdx² · Σdy²) over sleep and score of the window. */
  function SleepEnergyPearson(es: seq<Entry>): (c: Correlation)
    ensures |es| < 2 ==> c == NaN
    ensures c != Zero
  {
    if |es| < 2 then NaN else WindowPearson(CorrelationWindow(es))
  }

  /** The correlation of sleep and score over a non-empty window. */
  function WindowPearson(w: seq<Entry>): (c: Correlation)
    requires w != []
    ensures c != Zero
    ensures c.Ratio? ==> c.radicand > 0.0
  {
    ZeroVarianceIffConstant(Sleeps(w), Scores(w));
    var m := Deviations(Sleeps(w), Scores(w));
    if Radicand(m) == 0.0 then NaN else Ratio(m.num, Radicand(m))
  }

  /** Over a window the correlation is undefined exactly when sleep or score does not vary;
      otherwise the square root is taken of a positive number. */
  lemma WindowPearsonUndefined(w: seq<Entry>)
    requires w != []
    ensures WindowPearson(w).NaN? <==> IsConstant(Sleeps(w)) || IsConstant(Scores(w))
    ensures WindowPearson(w).Ratio? ==> WindowPearson(w).radicand > 0.0
  {
    ZeroVarianceIffConstant(Sleeps(w), Scores(w));
  }

  /** The correlation is undefined exactly when there are fewer than two days or sleep
      or score does not vary over the window. */
  lemma SleepEnergyUndefined(es: seq<Entry>)
    ensures var w := CorrelationWindow(es);
            SleepEnergyPearson(es).NaN? <==> |es| < 2 || IsConstant(Sleeps(w)) || IsConstant(Scores(w))
    ensures SleepEnergyPearson(es).Ratio? ==> SleepEnergyPearson(es).radicand > 0.0
  {
    if |es| >= 2 {
      var w := CorrelationWindow(es);
      assert |w| >= 2;
      WindowPearsonUndefined(w);
    }
  }

  // ---------------------------------------------------------------- weekly insights

  /** The figures weeklyInsights prints. */
  datatype WeeklySummary = WeeklySummary(
    days: nat, avgEnergy: real, level: string, best: Entry, worst: Entry,
    avgSleep: real, caffeineSpikeDays: nat, tier: string)

  /** weeklyInsights: None ("No data") for an empty journal, else the figures of the
      seven latest days, oldest first. */
  function WeeklyInsights(es: seq<Entry>): (s: Option<WeeklySummary>)
    ensures s.None? <==> es == []
    ensures s.Some? ==> s.value.days == (if |es| < 7 then |es| else 7) && s.value.caffeineSpikeDays <= s.value.days
    ensures s.Some? ==> var w := Reverse(LatestK(es, 7));
              && s.value.avgEnergy == Sum(Scores(w)) / s.value.days as real
              && s.value.level == ClassifyEnergy(s.value.avgEnergy)
              && HighestEnergy(w) == Some(s.value.best) && LowestEnergy(w) == Some(s.value.worst)
              && s.value.avgSleep == Sum(Sleeps(w)) / s.value.days as real
              && s.value.caffeineSpikeDays == CountHighCaffeine(w)
              && s.value.tier == ProductivityTier(es)
  {
    if es == [] then None else Some(Summarize(Reverse(LatestK(es, 7)), ProductivityTier(es)))
  }

  /** The figures of a non-empty week. */
  function Summarize(w: seq<Entry>, tier: string): (r: WeeklySummary)
    requires w != []
    ensures r.days == |w| && r.tier == tier
    ensures r.avgEnergy == Sum(Scores(w)) / |w| as real && r.level == ClassifyEnergy(r.avgEnergy)
    ensures HighestEnergy(w) == Some(r.best) && LowestEnergy(w) == Some(r.worst)
    ensures r.avgSleep == Sum(Sleeps(w)) / |w| as real && r.caffeineSpikeDays == CountHighCaffeine(w)
  {
    var avg := Mean(Scores(w));
    WeeklySummary(|w|, avg, ClassifyEnergy(avg), HighestEnergy(w).value, LowestEnergy(w).value,
                  Mean(Sleeps(w)), CountHighCaffeine(w), tier)
  }

  /** The first best day of a non-empty list scores no less than the mean, the first worst
      day no more. */
  lemma BestWorstBounds(w: seq<Entry>)
    requires w != []
    ensures HighestEnergy(w).value in w && LowestEnergy(w).value in w
    ensures EnergyScore(LowestEnergy(w).value) <= Mean(Scores(w)) <= EnergyScore(HighestEnergy(w).value)
  {
    var b := FirstMaxIndex(Scores(w));
    var c := FirstMinIndex(Scores(w));
    MeanBounds(Scores(w));
    assert MaxOf(Scores(w)) in Scores(w) && MinOf(Scores(w)) in Scores(w);
    assert Scores(w)[b] == EnergyScore(w[b]) && Scores(w)[c] == EnergyScore(w[c]);
  }

  /** The week has min(7, n) days, its worst day scores no more than its average and its
      best day no less, and no more days had 3+ cups than the week has. */
  lemma WeeklyInsightsSpec(es: seq<Entry>)
    requires es != []
    ensures var s := WeeklyInsights(es).value;
            && s.days == (if |es| < 7 then |es| else 7)
            && s.best in es && s.worst in es
            && EnergyScore(s.worst) <= s.avgEnergy <= EnergyScore(s.best)
            && s.caffeineSpikeDays <= s.days
  {
    var w := Reverse(LatestK(es, 7));
    WindowMembers(es, 7);
    BestWorstBounds(w);
    assert WeeklyInsights(es).value == Summarize(w, ProductivityTier(es));
  }

  /** Votes grow by the peak time of each further entry, when it is not blank. */
  lemma VotesStep(s: seq<Entry>, i: nat)
    requires i < |s|
    ensures Votes(s[..i + 1]) == Votes(s[..i]) + (if s[i].peakTime == "" then [] else [s[i].peakTime])
  {
    assert s[..i + 1][..i] == s[..i];
  }

  /** count holds, for each peak time seen, how often it was seen, and nothing else. */
  ghost predicate Counts(count: map<string, nat>, seen: multiset<string>)
  {
    && (forall t :: t in count ==> count[t] == seen[t] > 0)
    && (forall t :: t !in count ==> seen[t] == 0)
  }

  /** Counting one more occurrence of t keeps the map exact. */
  lemma CountsStep(count: map<string, nat>, seen: multiset<string>, t: string)
    requires Counts(count, seen)
    ensures Counts(count[t := (if t in count then count[t] else 0) + 1], seen + multiset{t})
  {
  }

  /** The multiset of votes grows by the peak time of each further entry, when it is not blank. */
  lemma TallyStep(s: seq<Entry>, i: nat, seen: multiset<string>)
    requires i < |s| && seen == multiset(Votes(s[..i]))
    ensures multiset(Votes(s[..i + 1])) == if s[i].peakTime == "" then seen else seen + multiset{s[i].peakTime}
  {
    VotesStep(s, i);
  }

  /** An empty count means there were no votes. */
  lemma NoCountsNoVotes(count: map<string, nat>, votes: seq<string>)
    requires Counts(count, multiset(votes)) && count == map[]
    ensures votes == []
  {
    assert multiset(votes) == multiset{};
  }

  /** A key whose count no other key exceeds is a most voted peak time. */
  lemma MostCountedIsMostVoted(count: map<string, nat>, votes: seq<string>, best: string)
    requires Counts(count, multiset(votes)) && best in count
    requires forall t :: t in count ==> count[t] <= count[best]
    ensures best in votes && MostVoted(votes, best)
    ensures LabelsMostVoted(votes, PeakLabel(best))
  {
    assert best in multiset(votes);
    var i :| 0 <= i < |votes| && votes[i] == best;
    assert MostVoted(votes, votes[i]);
  }

  /** The counting loop of recommendDeepWorkTime: how often each non-blank peak time
      occurs in s; absent keys occur nowhere. */
  method Tally(s: seq<Entry>) returns (count: map<string, nat>)
    ensures Counts(count, multiset(Votes(s)))
  {
    count := map[];
    ghost var seen: multiset<string> := multiset{};
    var i := 0;
    while i < |s|
      invariant 0 <= i <= |s|
      invariant seen == multiset(Votes(s[..i]))
      invariant Counts(count, seen)
    {
      var t := s[i].peakTime;
      TallyStep(s, i, seen);
      if t != "" {
        CountsStep(count, seen, t);
        count := count[t := (if t in count then count[t] else 0) + 1];
        seen := seen + multiset{t};
      }
      i := i + 1;
    }
    assert s[..i] == s;
  }

  /** Collections.max over the entries of a count map by value: the first key in the
      map's iteration order (any order) whose count no later key exceeds. */
  method MostCounted(count: map<string, nat>) returns (best: string)
    requires count != map[]
    ensures best in count
    ensures forall t :: t in count ==> count[t] <= count[best]
  {
    var keys := count.Keys;
    best :| best in keys;
    keys := keys - {best};
    while keys != {}
      invariant best in count && keys <= count.Keys
      invariant forall t :: t in count && t !in keys ==> count[t] <= count[best]
      decreases |keys|
    {
      var t :| t in keys;
      if count[t] > count[best] {
        best := t;
      }
      keys := keys - {t};
    }
  }

  /** The array loops of sleepEnergyCorrelation over a non-empty window. */
  method WindowCorrelation(last: seq<Entry>) returns (r: Correlation)
    requires last != []
    ensures r == WindowPearson(last)
  {
    var n := |last|;
    var x := new real[n];
    var y := new real[n];
    ghost var xs, ys := Sleeps(last), Scores(last);
    var i := 0;
    while i < n
      invariant 0 <= i <= n
      invariant forall k :: 0 <= k < i ==> x[k] == xs[k]
      invariant forall k :: 0 <= k < i ==> y[k] == ys[k]
    {
      x[i] := last[i].sleepHours as real;
      y[i] := EnergyScore(last[i]);
      i := i + 1;
    }
    assert x[..] == xs && y[..] == ys;
    var m := ArrayDeviations(x, y);
    var denom := m.denX * m.denY;
    assert denom == Radicand(m);
    if denom == 0.0 {
      r := NaN;
    } else {
      r := Ratio(m.num, denom);
    }
  }


}
