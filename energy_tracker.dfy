/**
 * The journal object (EnergyTracker.java): a list of entries kept in date order and in
 * step with the data file, and the queries the source writes as loops.
 */
module EnergyTracker {

  import opened Wrappers
  import opened Text
  import opened Ordering
  import opened Stats
  import opened EnergyEntry
  import opened Journal
  import opened Analytics

  /** The figures summaryDashboard prints for a non-empty journal. */
  datatype Dashboard = Dashboard(
    latest: Entry, level: string, deepWork: string, tomorrow: real, tomorrowLevel: string,
    mood: int, crash: bool, correlation: Correlation, graph: seq<GraphRow>, week: WeeklySummary)

  class Tracker {

    /** The journal, kept in date order. */
    var entries: seq<Entry>

    predicate Valid()
      reads this
    {
      SortedBy(entries, DateOrder)
    }

    /** new EnergyTracker(filename): an empty list, then whatever the file holds. */
    constructor (file: Option<seq<string>>)
      ensures entries == if file.None? then [] else SortBy(ParseLines(file.value), DateOrder)
      ensures Valid()
    {
      entries := [];
      new;
      LoadFromFile(file);
      if file.Some? {
        ConcatEmpty(ParseLines(file.value));
      }
    }

    /** loadFromFile: append every line that reads as an entry, then sort by date. A
        missing file leaves the list as it is. */
    method LoadFromFile(file: Option<seq<string>>)
      modifies this
      ensures entries == if file.None? then old(entries) else SortBy(old(entries) + ParseLines(file.value), DateOrder)
      ensures file.Some? ==> Valid()
    {
      if file.None? {
        return;
      }
      AppendLines(file.value, ReadLine);
      entries := SortBy(entries, DateOrder);
    }

    /** The read loop of loadFromFile, for a line reader `read` (trim, skip blank lines,
        fromCSV, skip rejected lines): appends what each line yields, in file order. */
    method AppendLines(lines: seq<string>, read: string -> Option<Entry>)
      modifies this
      ensures entries == old(entries) + Collect(lines, read)
    {
      var i := 0;
      while i < |lines|
        invariant 0 <= i <= |lines|
        invariant entries == old(entries) + Collect(lines[..i], read)
      {
        CollectStep(lines, i, read);
        var parsed := read(lines[i]);
        if parsed.Some? {
          entries := entries + [parsed.value];
        }
        i := i + 1;
      }
      assert lines[..i] == lines;
    }

    /** addEntry: drop every entry of e's date, add e, sort by date and save. Returns the
        lines written to the file. */
    method AddEntry(e: Entry) returns (saved: seq<string>)
      modifies this
      ensures entries == Replaced(old(entries), e)
      ensures Valid() && e in entries
      ensures WithKey(entries, DateOrder, DateOrder(e)) == [e]
      ensures forall x :: x in old(entries) && x.date != e.date ==> x in entries
      ensures forall x :: x in entries ==> x == e || (x in old(entries) && x.date != e.date)
      ensures StrictlySortedBy(old(entries), DateOrder) ==> StrictlySortedBy(entries, DateOrder)
      ensures saved == CsvLines(entries)
    {
      ReplacedMembers(entries, e);
      ReplacedOnce(entries, e);
      if StrictlySortedBy(entries, DateOrder) {
        ReplacedStrictlySorted(entries, e);
      }
      entries := RemoveDate(entries, e.date);
      entries := entries + [e];
      entries := SortBy(entries, DateOrder);
      saved := SaveToFile();
    }

    /** recommendDeepWorkTime. */
    method RecommendDeepWorkTime() returns (r: string)
      ensures IsDeepWorkRecommendation(entries, r)
    {
      if entries == [] {
        return "No data";
      }
      var sorted := SortBy(entries, HighestScoreFirst);
      var take := if |sorted| / 2 < 1 then 1 else |sorted| / 2;
      assert sorted[..take] == TopHalf(entries);
      var count := Tally(sorted[..take]);
      if count == map[] {
        NoCountsNoVotes(count, Votes(TopHalf(entries)));
        var avgSleep := Mean(Sleeps(entries));
        r := if avgSleep >= 7.0 then "Morning" else "Afternoon";
      } else {
        var best := MostCounted(count);
        MostCountedIsMostVoted(count, Votes(TopHalf(entries)), best);
        r := PeakLabel(best);
      }
    }

    /** asciiGraph(days): None ("No data to graph.") for an empty journal, else one row
        per day of the window, oldest first, with a bar of BarLength characters. */
    method AsciiGraph(days: nat) returns (rows: Option<seq<GraphRow>>)
      ensures entries == [] <==> rows.None?
      ensures rows.Some? ==> rows.value == GraphRows(GraphWindow(entries, days))
    {
      if entries == [] {
        return None;
      }
      var last := Reverse(LatestK(entries, days));
      var max := if last == [] then 1.0 else MaxOf(Scores(last));
      if max < 1.0 {
        max := 1.0;
      }
      assert max == GraphScale(last);
      var out := GraphLines(last, max);
      assert out == GraphRows(last);
      rows := Some(out);
    }

    /** sleepEnergyCorrelation: sleep and score of the 30 latest days copied into two
        arrays, then the sums of deviation products about their means. */
    method SleepEnergyCorrelation() returns (r: Correlation)
      ensures r == SleepEnergyPearson(entries)
    {
      if |entries| < 2 {
        return NaN;
      }
      var last := Reverse(LatestK(entries, 30));
      r := WindowCorrelation(last);
    }

    /** summaryDashboard: None ("No data yet") for an empty journal, otherwise the
        figures of the last entry and of the other queries. The list being in date
        order, the last entry is of the latest day. */
    method SummaryDashboard() returns (d: Option<Dashboard>)
      requires Valid()
      ensures entries == [] <==> d.None?
      ensures d.Some? ==> IsDashboard(entries, d.value)
      ensures d.Some? ==> forall x :: x in entries ==> DateOrder(x) <= DateOrder(d.value.latest)
    {
      if entries == [] {
        return None;
      }
      var deepWork := RecommendDeepWorkTime();
      var graph := AsciiGraph(7);
      var correlation := SleepEnergyCorrelation();
      var figures := Assemble(entries, deepWork, graph.value, correlation);
      DashboardShowsLatestDay(entries, figures);
      d := Some(figures);
    }

    /** saveToFile: the lines written for the current list. */
    method SaveToFile() returns (lines: seq<string>)
      ensures lines == CsvLines(entries)
    {
      lines := WriteLines(entries);
    }
  }

  /** What summaryDashboard shows for a non-empty journal `es`: its last entry with the
      label of its score, and the answers of the other queries. */
  ghost predicate IsDashboard(es: seq<Entry>, d: Dashboard)
  {
    DayFigures(es, d) && WindowFigures(es, d)
  }

  /** The figures of the last day and the one-line predictions. */
  ghost predicate DayFigures(es: seq<Entry>, d: Dashboard)
  {
    && es != [] && d.latest == es[|es| - 1]
    && d.level == ClassifyEnergy(EnergyScore(d.latest))
    && IsDeepWorkRecommendation(es, d.deepWork)
    && d.tomorrow == PredictTomorrow(es) && d.tomorrowLevel == ClassifyEnergy(PredictTomorrow(es))
    && d.mood == PredictMood(es) && d.crash == IsCrashing(es)
  }

  /** The figures computed over a window of days. */
  ghost predicate WindowFigures(es: seq<Entry>, d: Dashboard)
  {
    && d.correlation == SleepEnergyPearson(es)
    && d.graph == GraphRows(GraphWindow(es, 7))
    && Some(d.week) == WeeklyInsights(es)
  }

  /** The dashboard of a non-empty journal, given the answers of the queries with loops. */
  function DashboardOf(es: seq<Entry>, deepWork: string, graph: seq<GraphRow>, correlation: Correlation): Dashboard
    requires es != []
  {
    var latest := es[|es| - 1];
    Dashboard(latest, ClassifyEnergy(EnergyScore(latest)), deepWork, PredictTomorrow(es),
              ClassifyEnergy(PredictTomorrow(es)), PredictMood(es), IsCrashing(es), correlation, graph,
              WeeklyInsights(es).value)
  }

  lemma DayFiguresOf(es: seq<Entry>, deepWork: string, graph: seq<GraphRow>, correlation: Correlation)
    requires es != [] && IsDeepWorkRecommendation(es, deepWork)
    ensures DayFigures(es, DashboardOf(es, deepWork, graph, correlation))
  {
  }

  lemma WindowFiguresOf(es: seq<Entry>, deepWork: string, graph: seq<GraphRow>, correlation: Correlation)
    requires es != []
    requires graph == GraphRows(GraphWindow(es, 7)) && correlation == SleepEnergyPearson(es)
    ensures WindowFigures(es, DashboardOf(es, deepWork, graph, correlation))
  {
  }

  /** The dashboard's remaining figures, which need no loop. */
  method Assemble(es: seq<Entry>, deepWork: string, graph: seq<GraphRow>, correlation: Correlation)
    returns (d: Dashboard)
    requires es != [] && IsDeepWorkRecommendation(es, deepWork)
    requires graph == GraphRows(GraphWindow(es, 7)) && correlation == SleepEnergyPearson(es)
    ensures IsDashboard(es, d)
  {
    d := DashboardOf(es, deepWork, graph, correlation);
    DayFiguresOf(es, deepWork, graph, correlation);
    WindowFiguresOf(es, deepWork, graph, correlation);
  }

  /** In a date-ordered journal, the dashboard's entry is of the latest day. */
  lemma DashboardShowsLatestDay(es: seq<Entry>, d: Dashboard)
    requires IsDashboard(es, d) && SortedBy(es, DateOrder)
    ensures forall x :: x in es ==> DateOrder(x) <= DateOrder(d.latest)
  {
    LastIsLargest(es, DateOrder);
  }
}
