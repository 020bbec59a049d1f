/**
 * screen_recordings/InsightGenerator.java: static queries over a list of entries, each a
 * loop that walks the list once. A query that answers "No data" for an empty list
 * returns None there; the text around a day and its score is not modelled.
 */
module InsightGenerator {

  import opened Wrappers
  import opened Stats
  import opened EnergyEntry
  import opened Analytics

  /** bestEnergyDay: the running best moves only to a strictly higher score, so the result
      is the first entry with the highest score, the same entry highestEnergy picks. */
  method BestEnergyDay(entries: seq<Entry>) returns (best: Option<Entry>)
    ensures best == HighestEnergy(entries)
  {
    if entries == [] {
      return None;
    }
    ghost var ss := Scores(entries);
    var b := entries[0];
    ghost var bi := 0;
    var i := 0;
    while i < |entries|
      invariant 0 <= i <= |entries| && 0 <= bi < |entries| && b == entries[bi]
      invariant (i == 0 && bi == 0) || IsFirstMax(ss[..i], bi)
    {
      FirstMaxStep(ss, i, bi);
      if EnergyScore(entries[i]) > EnergyScore(b) {
        b := entries[i];
        bi := i;
      }
      i := i + 1;
    }
    assert ss[..i] == ss;
    FirstExtremesUnique(ss, bi, FirstMaxIndex(ss));
    best := Some(b);
  }

  /** worstEnergyDay: the first entry with the lowest score, as lowestEnergy. */
  method WorstEnergyDay(entries: seq<Entry>) returns (worst: Option<Entry>)
    ensures worst == LowestEnergy(entries)
  {
    if entries == [] {
      return None;
    }
    ghost var ss := Scores(entries);
    var w := entries[0];
    ghost var wi := 0;
    var i := 0;
    while i < |entries|
      invariant 0 <= i <= |entries| && 0 <= wi < |entries| && w == entries[wi]
      invariant (i == 0 && wi == 0) || IsFirstMin(ss[..i], wi)
    {
      FirstMinStep(ss, i, wi);
      if EnergyScore(entries[i]) < EnergyScore(w) {
        w := entries[i];
        wi := i;
      }
      i := i + 1;
    }
    assert ss[..i] == ss;
    FirstExtremesUnique(ss, wi, FirstMinIndex(ss));
    worst := Some(w);
  }

  /** The values of one integer field of each entry, as doubles. */
  function FieldValues(entries: seq<Entry>, field: Entry -> int): (r: seq<real>)
    ensures |r| == |entries|
    ensures forall i :: 0 <= i < |entries| ==> r[i] == field(entries[i]) as real
  {
    seq(|entries|, i requires 0 <= i < |entries| => field(entries[i]) as real)
  }

  /** The loop shared by averageSleep, averageMood and averageProductivity: 0 for an empty
      list, else the field's sum over the size, between its smallest and largest value. */
  method FieldAverage(entries: seq<Entry>, field: Entry -> int) returns (avg: real)
    ensures entries == [] ==> avg == 0.0
    ensures entries != [] ==> avg == Mean(FieldValues(entries, field))
    ensures entries != [] ==> MinOf(FieldValues(entries, field)) <= avg <= MaxOf(FieldValues(entries, field))
  {
    if entries == [] {
      return 0.0;
    }
    ghost var vs := FieldValues(entries, field);
    var sum := 0.0;
    var i := 0;
    while i < |entries|
      invariant 0 <= i <= |entries|
      invariant sum == Sum(vs[..i])
    {
      SumStep(vs, i);
      sum := sum + field(entries[i]) as real;
      i := i + 1;
    }
    assert vs[..i] == vs;
    avg := sum / |entries| as real;
    MeanBounds(vs);
  }

  /** averageSleep. */
  method AverageSleep(entries: seq<Entry>) returns (avg: real)
    ensures entries == [] ==> avg == 0.0
    ensures entries != [] ==> avg == Mean(Sleeps(entries))
    ensures entries != [] ==> MinOf(Sleeps(entries)) <= avg <= MaxOf(Sleeps(entries))
  {
    avg := FieldAverage(entries, (e: Entry) => e.sleepHours);
    assert FieldValues(entries, (e: Entry) => e.sleepHours) == Sleeps(entries);
  }

  /** averageMood. */
  method AverageMood(entries: seq<Entry>) returns (avg: real)
    ensures entries == [] ==> avg == 0.0
    ensures entries != [] ==> avg == Mean(Moods(entries))
    ensures entries != [] ==> MinOf(Moods(entries)) <= avg <= MaxOf(Moods(entries))
  {
    avg := FieldAverage(entries, (e: Entry) => e.mood);
    assert FieldValues(entries, (e: Entry) => e.mood) == Moods(entries);
  }

  /** averageProductivity. */
  method AverageProductivity(entries: seq<Entry>) returns (avg: real)
    ensures entries == [] ==> avg == 0.0
    ensures entries != [] ==> avg == Mean(Productivities(entries))
    ensures entries != [] ==> MinOf(Productivities(entries)) <= avg <= MaxOf(Productivities(entries))
  {
    avg := FieldAverage(entries, (e: Entry) => e.productivity);
    assert FieldValues(entries, (e: Entry) => e.productivity) == Productivities(entries);
  }

  /** The first loop of mostCommonPeakTime: every peak time, the empty one included,
      mapped to the number of entries that have it. */
  method CountPeakTimes(entries: seq<Entry>) returns (count: map<string, nat>)
    ensures Counts(count, multiset(PeakTimes(entries)))
  {
    ghost var ps := PeakTimes(entries);
    count := map[];
    ghost var seen: multiset<string> := multiset{};
    var i := 0;
    while i < |entries|
      invariant 0 <= i <= |entries|
      invariant seen == multiset(ps[..i])
      invariant Counts(count, seen)
    {
      var p := entries[i].peakTime;
      assert ps[..i + 1] == ps[..i] + [p];
      CountsStep(count, seen, p);
      count := count[p := (if p in count then count[p] else 0) + 1];
      seen := seen + multiset{p};
      i := i + 1;
    }
    assert ps[..i] == ps;
  }

  /** The second loop: starting from ("", 0), take each key of the map, in the map's
      iteration order (any order), whose count beats the best so far. */
  method MostFrequent(count: map<string, nat>) returns (best: string)
    requires count != map[] && forall t :: t in count ==> count[t] > 0
    ensures best in count
    ensures forall t :: t in count ==> count[t] <= count[best]
  {
    best := "";
    var max := 0;
    var keys := count.Keys;
    while keys != {}
      invariant keys <= count.Keys
      invariant (best in count && count[best] == max) || (best == "" && max == 0)
      invariant forall t :: t in count && t !in keys ==> count[t] <= max
      decreases |keys|
    {
      var key :| key in keys;
      if count[key] > max {
        max := count[key];
        best := key;
      }
      keys := keys - {key};
    }
    ghost var some :| some in count;
    assert count[some] <= max;
  }

  /** mostCommonPeakTime: None ("No data") for an empty list, otherwise a peak time that
      no other peak time outnumbers; a blank peak time competes like any other. */
  method MostCommonPeakTime(entries: seq<Entry>) returns (r: Option<string>)
    ensures entries == [] <==> r.None?
    ensures r.Some? ==> r.value in PeakTimes(entries) && MostVoted(PeakTimes(entries), r.value)
  {
    if entries == [] {
      return None;
    }
    var count := CountPeakTimes(entries);
    assert PeakTimes(entries)[0] in multiset(PeakTimes(entries));
    var best := MostFrequent(count);
    MostCountedIsMostVoted(count, PeakTimes(entries), best);
    r := Some(best);
  }

  /** highCaffeineDays: the number of entries with three or more cups. */
  method HighCaffeineDays(entries: seq<Entry>) returns (count: nat)
    ensures count == CountHighCaffeine(entries)
  {
    count := 0;
    var i := 0;
    while i < |entries|
      invariant 0 <= i <= |entries|
      invariant count == CountHighCaffeine(entries[..i])
    {
      CountHighCaffeineStep(entries, i);
      if entries[i].caffeine >= 3 {
        count := count + 1;
      }
      i := i + 1;
    }
    assert entries[..i] == entries;
  }
}
