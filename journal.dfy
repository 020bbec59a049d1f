/**
 * The data file of EnergyTracker.java and the list it keeps: what loading a file of
 * comma-separated lines yields, the lines saving writes, and the list addEntry makes.
 * The file is a parameter: the lines it holds, or None when it does not exist.
 */
module Journal {

  import opened Wrappers
  import opened Text
  import opened Ordering
  import opened Stats
  import opened EnergyEntry

  // ---------------------------------------------------------------- the data file

  /** What one line of the file contributes on load: nothing for a blank line or one
      fromCSV rejects, otherwise the entry read from the trimmed line. */
  function ReadLine(line: string): (r: Option<Entry>)
    ensures Trim(line) == [] ==> r == None
    ensures r.Some? ==> ParseDate(Split(Trim(line))[0]) == Some(r.value.date)
  {
    var t := Trim(line);
    if t == [] then None else FromCsv(t)
  }

  /** The values `read` yields for the lines, in order, skipping the lines it rejects. */
  function Collect(lines: seq<string>, read: string -> Option<Entry>): (r: seq<Entry>)
    ensures |r| <= |lines|
  {
    if lines == [] then []
    else
      Collect(lines[..|lines| - 1], read) +
        (match read(lines[|lines| - 1]) case Some(e) => [e] case None => [])
  }

  /** The entries read from the file's lines, in file order. */
  function ParseLines(lines: seq<string>): (r: seq<Entry>)
    ensures |r| <= |lines|
  {
    Collect(lines, ReadLine)
  }

  /** Reading a file in two parts reads each part in turn. */
  lemma {:induction false} CollectAppend(a: seq<string>, b: seq<string>, read: string -> Option<Entry>)
    ensures Collect(a + b, read) == Collect(a, read) + Collect(b, read)
  {
    if b != [] {
      var c := a + b;
      assert c[..|c| - 1] == a + b[..|b| - 1];
      CollectAppend(a, b[..|b| - 1], read);
    } else {
      assert a + b == a;
    }
  }

  /** An entry is collected exactly when some line reads as it; a line and a copy of it
      both count, so repeats are kept. */
  lemma {:induction false} CollectMembers(lines: seq<string>, read: string -> Option<Entry>)
    ensures forall e :: e in Collect(lines, read) <==> exists i :: 0 <= i < |lines| && read(lines[i]) == Some(e)
    ensures |Collect(lines, read)| <= |lines|
  {
    if lines != [] {
      var p := lines[..|lines| - 1];
      CollectMembers(p, read);
      forall e ensures (exists i :: 0 <= i < |p| && read(p[i]) == Some(e)) <==>
                       (exists i :: 0 <= i < |lines| - 1 && read(lines[i]) == Some(e))
      {
        if exists i :: 0 <= i < |p| && read(p[i]) == Some(e) {
          var i :| 0 <= i < |p| && read(p[i]) == Some(e);
          assert lines[i] == p[i];
        }
      }
    }
  }

  /** Loading a file in two parts loads each part in turn. */
  lemma ParseLinesAppend(a: seq<string>, b: seq<string>)
    ensures ParseLines(a + b) == ParseLines(a) + ParseLines(b)
  {
    CollectAppend(a, b, ReadLine);
  }

  /** Load keeps exactly the entries that some non-blank line reads as, once per such
      line, so two lines for one date both stay. */
  lemma ParseLinesMembers(lines: seq<string>)
    ensures forall e :: e in ParseLines(lines) <==> exists i :: 0 <= i < |lines| && ReadLine(lines[i]) == Some(e)
    ensures |ParseLines(lines)| <= |lines|
  {
    CollectMembers(lines, ReadLine);
  }

  /** saveToFile: one toCSV line per entry, in list order. */
  function CsvLines(es: seq<Entry>): (lines: seq<string>)
    ensures |lines| == |es| && forall i :: 0 <= i < |es| ==> lines[i] == ToCsv(es[i])
  {
    seq(|es|, i requires 0 <= i < |es| => ToCsv(es[i]))
  }

  /** The write loop of saveToFile: println(e.toCSV()) for each entry, in list order. */
  method WriteLines(es: seq<Entry>) returns (lines: seq<string>)
    ensures lines == CsvLines(es)
  {
    lines := MapEach(es, ToCsv);
  }

  /** An entry that survives a save and a load unchanged. */
  predicate Storable(e: Entry)
  {
    0 <= e.date.year <= 9999 && Normalised(e) && ',' !in e.workType && ',' !in e.peakTime
  }

  /** Collecting one more line adds what that line reads as. */
  lemma CollectStep(lines: seq<string>, i: nat, read: string -> Option<Entry>)
    requires i < |lines|
    ensures Collect(lines[..i + 1], read) ==
            Collect(lines[..i], read) + (if read(lines[i]).Some? then [read(lines[i]).value] else [])
  {
    assert lines[..i + 1][..i] == lines[..i];
  }

  /** When every line reads as the matching value, all of them are collected. */
  lemma {:induction false} CollectAll(lines: seq<string>, read: string -> Option<Entry>, es: seq<Entry>)
    requires |lines| == |es| && forall i :: 0 <= i < |lines| ==> read(lines[i]) == Some(es[i])
    ensures Collect(lines, read) == es
  {
    if lines != [] {
      CollectAll(lines[..|lines| - 1], read, es[..|es| - 1]);
    }
  }

  /** A saved line reads back as the entry it was written for. */
  lemma ReadSavedLine(e: Entry)
    requires Storable(e)
    ensures ReadLine(ToCsv(e)) == Some(e)
  {
    SavedLineIsTrimmed(e);
    CsvRoundTripNormalised(e);
    var s := ToCsv(e);
    assert s != [] by {
      CsvFieldCount(e);
    }
  }

  /** Loading the lines a save wrote gives back the saved entries, in the same order. */
  lemma LoadAfterSave(es: seq<Entry>)
    requires forall i :: 0 <= i < |es| ==> Storable(es[i])
    ensures ParseLines(CsvLines(es)) == es
  {
    var lines := CsvLines(es);
    forall i | 0 <= i < |lines| ensures ReadLine(lines[i]) == Some(es[i]) {
      ReadSavedLine(es[i]);
    }
    CollectAll(lines, ReadLine, es);
  }

  /** A sorted list saved and loaded back, which sorts it again, is unchanged. */
  lemma LoadSortedAfterSave(es: seq<Entry>)
    requires forall i :: 0 <= i < |es| ==> Storable(es[i])
    requires SortedBy(es, DateOrder)
    ensures SortBy(ParseLines(CsvLines(es)), DateOrder) == es
  {
    LoadAfterSave(es);
    SortBySorted(es, DateOrder);
  }

  // ---------------------------------------------------------------- replacing a day

  /** entries.removeIf(x -> x.getDate().equals(d)): every entry of date d goes, every
      other entry stays, as often as it occurred. */
  function RemoveDate(es: seq<Entry>, d: LocalDate): (r: seq<Entry>)
    ensures forall x :: x in r <==> x in es && x.date != d
    ensures forall x :: multiset(r)[x] == if x.date == d then 0 else multiset(es)[x]
    ensures multiset(r) <= multiset(es)
  {
    if es == [] then []
    else
      var p := es[..|es| - 1];
      assert es == p + [es[|es| - 1]];
      RemoveDate(p, d) + (if es[|es| - 1].date == d then [] else [es[|es| - 1]])
  }

  /** The entries kept of one element: none when it has date d, otherwise itself. */
  function KeptOf(x: Entry, d: LocalDate): seq<Entry>
  {
    if x.date == d then [] else [x]
  }

  lemma RemoveDateSnoc(s: seq<Entry>, x: Entry, d: LocalDate)
    ensures RemoveDate(s + [x], d) == RemoveDate(s, d) + KeptOf(x, d)
  {
    assert (s + [x])[..|s + [x]| - 1] == s;
  }

  /** removeIf decides each element on its own and keeps the survivors in list order:
      removing from a concatenation removes from each part. */
  lemma {:induction false} RemoveDateAppend(a: seq<Entry>, b: seq<Entry>, d: LocalDate)
    ensures RemoveDate(a + b, d) == RemoveDate(a, d) + RemoveDate(b, d)
  {
    if b == [] {
      assert a + b == a;
      assert RemoveDate(a, d) + [] == RemoveDate(a, d);
    } else {
      var b', x := b[..|b| - 1], b[|b| - 1];
      assert b == b' + [x];
      ConcatAssoc(a, b', [x]);
      RemoveDateSnoc(a + b', x, d);
      RemoveDateAppend(a, b', d);
      RemoveDateSnoc(b', x, d);
      ConcatAssoc(RemoveDate(a, d), RemoveDate(b', d), KeptOf(x, d));
    }
  }


  /** Removing elements from a strictly ordered list keeps it strictly ordered. */
  lemma {:induction false} RemoveDateStrictlySorted(es: seq<Entry>, d: LocalDate)
    requires StrictlySortedBy(es, DateOrder)
    ensures StrictlySortedBy(RemoveDate(es, d), DateOrder)
  {
    if es != [] {
      var p, last := es[..|es| - 1], es[|es| - 1];
      assert StrictlySortedBy(p, DateOrder);
      RemoveDateStrictlySorted(p, d);
      var r := RemoveDate(p, d);
      if last.date == d {
        assert RemoveDate(es, d) == r;
      } else {
        BeforeLastIsSmaller(es, DateOrder);
        assert forall i :: 0 <= i < |r| ==> r[i] in p;
        assert RemoveDate(es, d) == r + [last];
        SnocStrictlySorted(r, last, DateOrder);
      }
    }
  }

  /** The list addEntry builds from `es` and `e`: the other days, then e, sorted by date. */
  function Replaced(es: seq<Entry>, e: Entry): (r: seq<Entry>)
    ensures SortedBy(r, DateOrder)
  {
    SortBy(RemoveDate(es, e.date) + [e], DateOrder)
  }

  /** After addEntry, e is present and is the only entry of its date; every entry of
      another day is kept and nothing else is added. */
  lemma ReplacedMembers(es: seq<Entry>, e: Entry)
    ensures var r := Replaced(es, e);
            && e in r
            && (forall x :: x in r && x.date == e.date ==> x == e)
            && (forall x :: x in es && x.date != e.date ==> x in r)
            && (forall x :: x in r ==> x == e || (x in es && x.date != e.date))
            && multiset(r) == multiset(RemoveDate(es, e.date)) + multiset{e}
  {
    var kept := RemoveDate(es, e.date);
    var r := Replaced(es, e);
    assert multiset(r) == multiset(kept) + multiset{e};
    forall x | x in r ensures x == e || x in kept {
      assert x in multiset(r);
    }
    forall x | x in kept ensures x in r {
      assert x in multiset(r);
    }
    assert e in multiset(r);
  }

  /** After addEntry the date of e occurs exactly once, as e itself. */
  lemma ReplacedOnce(es: seq<Entry>, e: Entry)
    ensures WithKey(Replaced(es, e), DateOrder, DateOrder(e)) == [e]
  {
    var kept := RemoveDate(es, e.date);
    forall x | x in kept ensures DateOrder(x) != DateOrder(e) {
      SameKeySameDate(x, e);
    }
    forall i | 0 <= i < |kept| ensures DateOrder(kept[i]) != DateOrder(e) {
      assert kept[i] in kept;
    }
    WithKeyAbsent(kept, DateOrder, DateOrder(e));
    assert (kept + [e])[..|kept|] == kept;
    SortByIsStable(kept + [e], DateOrder, DateOrder(e));
  }

  /** When the dates were pairwise distinct before addEntry they still are after it, so
      the list is in strictly ascending date order. */
  lemma ReplacedStrictlySorted(es: seq<Entry>, e: Entry)
    requires StrictlySortedBy(es, DateOrder)
    ensures StrictlySortedBy(Replaced(es, e), DateOrder)
  {
    var kept := RemoveDate(es, e.date);
    forall i | 0 <= i < |kept| ensures DateOrder(kept[i]) != DateOrder(e) {
      assert kept[i] in kept;
      SameKeySameDate(kept[i], e);
    }
    assert (kept + [e])[..|kept|] == kept;
    RemoveDateStrictlySorted(es, e.date);
    SortBySorted(kept, DateOrder);
    InsertStrictlySorted(kept, e, DateOrder);
  }

  /** Two entries share a place in the date order exactly when they share a date. */
  lemma SameKeySameDate(x: Entry, y: Entry)
    ensures DateOrder(x) == DateOrder(y) <==> x.date == y.date
  {
    DateKeyOrder(x.date, y.date);
  }
}
