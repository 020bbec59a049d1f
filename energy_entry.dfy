/**
 * One day of the energy journal (EnergyEntry.java): an ISO calendar date, four integer
 * ratings, a work type, a peak time and an energy score, with the comma-separated line
 * format the tracker stores them in.
 *
 * An entry is a value here. Java assigns its fields in the constructor and fromCSV
 * overwrites the score once, before the object is handed out; nothing changes it
 * afterwards, so a record and a record update say the same thing.
 *
 * Scores are kept in hundredths of a point: the formula score is an integer, and the
 * stored score text carries at most two decimals, so hundredths represent both exactly.
 */
module EnergyEntry {

  import opened Wrappers
  import opened Text

  // ---------------------------------------------------------------- dates

  /** A proleptic Gregorian date, as java.time.LocalDate holds it. */
  datatype Date = Date(year: int, month: int, day: int)

  predicate IsLeapYear(y: int)
  {
    y % 4 == 0 && (y % 100 != 0 || y % 400 == 0)
  }

  function DaysInMonth(y: int, m: int): int
  {
    if m == 2 then (if IsLeapYear(y) then 29 else 28)
    else if m == 4 || m == 6 || m == 9 || m == 11 then 30
    else 31
  }

  /** The dates LocalDate can represent. */
  predicate ValidDate(d: Date)
  {
    && -999_999_999 <= d.year <= 999_999_999
    && 1 <= d.month <= 12
    && 1 <= d.day <= DaysInMonth(d.year, d.month)
  }

  type LocalDate = d: Date | ValidDate(d) witness Date(2000, 1, 1)

  /** A number whose order is the chronological order of dates. */
  function DateKey(d: LocalDate): int
  {
    d.year * 372 + (d.month - 1) * 31 + (d.day - 1)
  }

  /** LocalDate.compareTo compares year, then month, then day; the key agrees with it
      and tells different dates apart. */
  lemma DateKeyOrder(a: LocalDate, b: LocalDate)
    ensures DateKey(a) < DateKey(b) <==>
      a.year < b.year || (a.year == b.year && (a.month < b.month || (a.month == b.month && a.day < b.day)))
    ensures DateKey(a) == DateKey(b) <==> a == b
  {
    var ra, rb := (a.month - 1) * 31 + (a.day - 1), (b.month - 1) * 31 + (b.day - 1);
    assert 0 <= ra < 372 && 0 <= rb < 372;
    if a.year < b.year {
      assert a.year * 372 + 372 <= b.year * 372;
    } else if a.year > b.year {
      assert b.year * 372 + 372 <= a.year * 372;
    }
  }

  /** ISO_LOCAL_DATE's year: four digits, zero-padded, with a sign when it does not fit. */
  function FormatYear(y: int): string
  {
    if y > 9999 then "+" + NatToString(y)
    else if y >= 0 then Fixed4(y)
    else if y > -10000 then "-" + Fixed4(-y)
    else "-" + NatToString(-y)
  }

  /** date.format(ISO_LOCAL_DATE): yyyy-MM-dd. */
  function FormatDate(d: LocalDate): (s: string)
    ensures 0 <= d.year <= 9999 ==> |s| == 10 && s[4] == '-' && s[7] == '-'
  {
    FormatYear(d.year) + "-" + Fixed2(d.month) + "-" + Fixed2(d.day)
  }

  /** LocalDate.parse(s, ISO_LOCAL_DATE) for four-digit years: the date, or None where
      Java throws (bad shape or a day the month does not have). */
  function ParseDate(s: string): (r: Option<LocalDate>)
    ensures r.Some? ==> |s| == 10 && s[4] == '-' && s[7] == '-' && AllDigits(s[..4])
  {
    if |s| == 10 && s[4] == '-' && s[7] == '-'
       && AllDigits(s[..4]) && AllDigits(s[5..7]) && AllDigits(s[8..])
    then
      var d := Date(DigitsValue(s[..4]), DigitsValue(s[5..7]), DigitsValue(s[8..]));
      if ValidDate(d) then Some(d) else None
    else None
  }

  /** Parsing a formatted date gives the date back. */
  lemma DateRoundTrip(d: LocalDate)
    requires 0 <= d.year <= 9999
    ensures ParseDate(FormatDate(d)) == Some(d)
  {
    var s := FormatDate(d);
    assert s[..4] == Fixed4(d.year);
    assert s[5..7] == Fixed2(d.month);
    assert s[8..] == Fixed2(d.day);
    Fixed4RoundTrip(d.year);
    Fixed2RoundTrip(d.month);
    Fixed2RoundTrip(d.day);
  }

  /** A date text that parses is the one the formatter writes for that date. */
  lemma ParseDateCanonical(s: string)
    requires ParseDate(s).Some?
    ensures FormatDate(ParseDate(s).value) == s
  {
    Fixed4Canonical(s[..4]);
    Fixed2Canonical(s[5..7]);
    Fixed2Canonical(s[8..]);
    assert s == s[..4] + "-" + s[5..7] + "-" + s[8..];
  }

  // ---------------------------------------------------------------- score text

  /** String.format("%.2f", h / 100) with a '.' decimal separator. */
  function FormatScore(h: int): string
  {
    if h < 0 then "-" + UnsignedScoreText(-h) else UnsignedScoreText(h)
  }

  function UnsignedScoreText(a: nat): string
  {
    NatToString(a / 100) + "." + Fixed2(a % 100)
  }

  /** Double.parseDouble for decimal text with at most two fraction digits, in hundredths:
      surrounding blanks, an optional sign, digits, and an optional point with up to two
      digits, at least one digit in all. */
  function ParseScore(s: string): (r: Option<int>)
    ensures Trim(s) == [] ==> r == None
    ensures r.Some? && Trim(s)[0] == '-' ==> r.value <= 0
    ensures r.Some? && Trim(s)[0] != '-' ==> r.value >= 0
  {
    var t := Trim(s);
    if t == [] then None
    else if t[0] == '-' then
      match ParseUnsignedScore(t[1..])
      case Some(v) => Some(-v)
      case None => None
    else if t[0] == '+' then ParseUnsignedScore(t[1..])
    else ParseUnsignedScore(t)
  }

  function ParseUnsignedScore(s: string): (r: Option<int>)
    ensures r.Some? ==> r.value >= 0
  {
    var n := |s|;
    var k := if n >= 1 && s[n - 1] == '.' then 1 else if n >= 2 && s[n - 2] == '.' then 2
             else if n >= 3 && s[n - 3] == '.' then 3 else 0;
    if k == 0 then Hundredths(s, "") else Hundredths(s[..n - k], s[n - k + 1..])
  }

  /** whole.frac in hundredths, for a fraction of at most two digits. */
  function Hundredths(whole: string, frac: string): (r: Option<int>)
    requires |frac| <= 2
    ensures r.Some? ==> r.value >= 0
  {
    if AllDigits(whole) && AllDigits(frac) && |whole| + |frac| >= 1 then
      Some(DigitsValue(whole) * 100 + DigitsValue(frac) * (if |frac| == 1 then 10 else 1))
    else None
  }

  /** The two-decimal text of a score parses back to the same number of hundredths. */
  lemma ScoreRoundTrip(h: int)
    ensures ParseScore(FormatScore(h)) == Some(h)
  {
    var a: nat := if h < 0 then -h else h;
    var u := UnsignedScoreText(a);
    UnsignedScoreRoundTrip(a);
    if h < 0 {
      NegativeScore(u, a);
      assert FormatScore(h) == "-" + u;
    } else {
      UnsignedScore(u, a);
      assert FormatScore(h) == u;
    }
  }

  /** Text that starts and ends with a digit is read without trimming or a sign. */
  lemma UnsignedScore(u: string, a: int)
    requires u != [] && IsDigit(u[0]) && IsDigit(u[|u| - 1]) && ParseUnsignedScore(u) == Some(a)
    ensures ParseScore(u) == Some(a)
  {
    assert IsTrimmed(u);
    TrimOfTrimmed(u);
  }

  /** A leading minus sign negates what follows. */
  lemma NegativeScore(u: string, a: int)
    requires u != [] && IsDigit(u[0]) && IsDigit(u[|u| - 1]) && ParseUnsignedScore(u) == Some(a)
    ensures ParseScore("-" + u) == Some(-a)
  {
    var s := "-" + u;
    assert s[0] == '-' && s[|s| - 1] == u[|u| - 1] && s[1..] == u;
    TrimOfTrimmed(s);
    assert Trim(s) == s;
  }

  lemma UnsignedScoreRoundTrip(a: nat)
    ensures var u := UnsignedScoreText(a);
            ParseUnsignedScore(u) == Some(a) && IsDigit(u[0]) && IsDigit(u[|u| - 1])
  {
    var w, f := NatToString(a / 100), Fixed2(a % 100);
    var u := w + "." + f;
    NatToStringRoundTrip(a / 100);
    Fixed2RoundTrip(a % 100);
    var n := |u|;
    assert u[n - 1] == f[1] && u[n - 2] == f[0] && u[n - 3] == '.';
    assert u[..n - 3] == w;
    assert u[n - 2..] == f;
    assert u[0] == w[0];
  }

  // ---------------------------------------------------------------- entries

  datatype Entry = Entry(
    date: LocalDate,
    sleepHours: Int32,
    mood: Int32,
    productivity: Int32,
    caffeine: Int32,
    workType: string,
    peakTime: string,
    scoreHundredths: int)

  /** getEnergyScore(). */
  function EnergyScore(e: Entry): real
  {
    e.scoreHundredths as real / 100.0
  }

  /** calculateScore: sleep·2 + mood·3 + productivity·3 − caffeine, raised to 0 when negative. */
  function CalculateScore(sleep: int, mood: int, productivity: int, caffeine: int): (score: int)
    ensures score >= 0
    ensures score >= sleep * 2 + mood * 3 + productivity * 3 - caffeine
    ensures score == 0 || score == sleep * 2 + mood * 3 + productivity * 3 - caffeine
  {
    var raw := sleep * 2 + mood * 3 + productivity * 3 - caffeine;
    if raw < 0 then 0 else raw
  }

  /** sanitize: a missing or blank work type becomes "Mixed", any other is trimmed. */
  function Sanitize(s: Option<string>): (r: string)
    ensures r != [] && IsTrimmed(r)
    ensures (s == None || Trim(s.value) == []) ==> r == "Mixed"
    ensures (s != None && Trim(s.value) != []) ==> r == Trim(s.value)
  {
    TrimSpec(if s == None then "" else s.value);
    if s == None then "Mixed"
    else
      var t := Trim(s.value);
      if t == [] then "Mixed" else t
  }

  /** A missing peak time becomes the empty text; any other is upper-cased. */
  function NormalizePeak(p: Option<string>): (r: string)
    ensures p == None ==> r == ""
    ensures p != None ==> |r| == |p.value|
    ensures p != None ==> forall i :: 0 <= i < |r| ==> r[i] == UpperChar(p.value[i])
    ensures forall i :: 0 <= i < |r| ==> !('a' <= r[i] <= 'z')
  {
    if p == None then "" else Upper(p.value)
  }

  /** The EnergyEntry constructor. */
  function NewEntry(date: LocalDate, sleep: Int32, mood: Int32, productivity: Int32, caffeine: Int32,
                    workType: Option<string>, peakTime: Option<string>): (e: Entry)
    ensures e.date == date && e.sleepHours == sleep && e.mood == mood
    ensures e.productivity == productivity && e.caffeine == caffeine
    ensures e.workType == Sanitize(workType) && e.peakTime == NormalizePeak(peakTime)
    ensures EnergyScore(e) == CalculateScore(sleep, mood, productivity, caffeine) as real
  {
    Entry(date, sleep, mood, productivity, caffeine, Sanitize(workType), NormalizePeak(peakTime),
          100 * CalculateScore(sleep, mood, productivity, caffeine))
  }

  /** What every constructed entry satisfies: a trimmed, non-empty work type and an
      upper-case peak time. */
  predicate Normalised(e: Entry)
  {
    e.workType != [] && IsTrimmed(e.workType) && Upper(e.peakTime) == e.peakTime
  }

  /** Construction normalises the text fields and never yields a negative score. */
  lemma NewEntryNormalised(date: LocalDate, sleep: Int32, mood: Int32, productivity: Int32, caffeine: Int32,
                           workType: Option<string>, peakTime: Option<string>)
    ensures var e := NewEntry(date, sleep, mood, productivity, caffeine, workType, peakTime);
            Normalised(e) && EnergyScore(e) >= 0.0
  {
    if peakTime != None {
      UpperIdempotent(peakTime.value);
    }
  }

  /** Sleeping 7 hours with mood 4, productivity 5 and 2 cups of coffee scores 39. */
  lemma ScoreExample()
    ensures CalculateScore(7, 4, 5, 2) == 39
  {
  }

  /** Sanitising an already sanitised work type changes nothing. */
  lemma SanitizeIdempotent(s: Option<string>)
    ensures Sanitize(Some(Sanitize(s))) == Sanitize(s)
  {
    TrimOfTrimmed(Sanitize(s));
  }

  /** Re-normalising the peak time of a normalised entry changes nothing. */
  lemma NormalizePeakIdempotent(p: Option<string>)
    ensures NormalizePeak(Some(NormalizePeak(p))) == NormalizePeak(p)
  {
    if p != None {
      UpperIdempotent(p.value);
    }
  }

  // ---------------------------------------------------------------- the stored line

  /** The eight fields toCSV writes: only the work type has its commas replaced. */
  function CsvFields(e: Entry): (fields: seq<string>)
    ensures |fields| == 8
  {
    [FormatDate(e.date), IntToString(e.sleepHours), IntToString(e.mood), IntToString(e.productivity),
     IntToString(e.caffeine), ReplaceChar(e.workType, ',', ' '), e.peakTime, FormatScore(e.scoreHundredths)]
  }

  /** toCSV. */
  function ToCsv(e: Entry): (line: string)
    ensures FormatDate(e.date) <= line
  {
    Join(CsvFields(e))
  }

  /** fromCSV: None wherever Java throws (fewer than seven fields, a bad date or a bad
      integer); a score field that parses replaces the formula score, a missing or
      unparsable one leaves it; fields after the eighth are ignored. */
  function FromCsv(line: string): (r: Option<Entry>)
    ensures r.Some? ==> |Split(line)| >= 7 && ParseDate(Split(line)[0]) == Some(r.value.date)
  {
    var parts := Split(line);
    if |parts| < 7 then None
    else
      var d, s, m, p, c := ParseDate(parts[0]), ParseInt(parts[1]), ParseInt(parts[2]),
                           ParseInt(parts[3]), ParseInt(parts[4]);
      if d == None || s == None || m == None || p == None || c == None then None
      else
        var e := NewEntry(d.value, s.value, m.value, p.value, c.value, Some(parts[5]), Some(parts[6]));
        var stored := if |parts| >= 8 then ParseScore(parts[7]) else None;
        Some(if stored == None then e else e.(scoreHundredths := stored.value))
  }

  /** The exact conditions under which a line is rejected. */
  lemma FromCsvRejects(line: string)
    ensures var parts := Split(line);
            FromCsv(line) == None <==>
              (|parts| < 7 || ParseDate(parts[0]) == None || ParseInt(parts[1]) == None ||
               ParseInt(parts[2]) == None || ParseInt(parts[3]) == None || ParseInt(parts[4]) == None)
  {
  }

  /** An accepted line keeps its integers and date and normalises its text; its score is the
      stored one when that parses and the formula score otherwise, even a negative stored
      score or one that disagrees with the formula. */
  lemma FromCsvFields(line: string)
    requires FromCsv(line).Some?
    ensures var parts, e := Split(line), FromCsv(line).value;
            && Some(e.date) == ParseDate(parts[0])
            && Some(e.sleepHours) == ParseInt(parts[1]) && Some(e.mood) == ParseInt(parts[2])
            && Some(e.productivity) == ParseInt(parts[3]) && Some(e.caffeine) == ParseInt(parts[4])
            && e.workType == Sanitize(Some(parts[5])) && e.peakTime == Upper(parts[6])
            && Normalised(e)
            && (|parts| >= 8 && ParseScore(parts[7]).Some? ==> Some(e.scoreHundredths) == ParseScore(parts[7]))
            && (|parts| < 8 || ParseScore(parts[7]) == None ==>
                  e.scoreHundredths == 100 * CalculateScore(e.sleepHours, e.mood, e.productivity, e.caffeine))
  {
    var parts := Split(line);
    UpperIdempotent(parts[6]);
  }

  /** Text appended after an eighth field does not change what is read. */
  lemma FromCsvIgnoresExtraFields(line: string, extra: string)
    requires |Split(line)| >= 8
    ensures FromCsv(line + "," + extra) == FromCsv(line)
  {
    assert line + "," + extra == line + [','] + extra;
    SplitAtComma(line, extra);
    var parts, more := Split(line), Split(line + "," + extra);
    assert forall k :: 0 <= k < 8 ==> more[k] == parts[k];
  }

  lemma DigitsHaveNoComma(s: string)
    requires AllDigits(s)
    ensures ',' !in s
  {
  }

  /** Only the peak time can put a comma into a field of a stored line. */
  lemma CsvFieldCommas(e: Entry)
    ensures forall k :: 0 <= k < 8 && k != 6 ==> ',' !in CsvFields(e)[k]
  {
    var fields := CsvFields(e);
    var y := e.date.year;
    var a := if y < 0 then -y else y;
    DigitsHaveNoComma(if a > 9999 then NatToString(a) else Fixed4(a));
    DigitsHaveNoComma(Fixed2(e.date.month));
    DigitsHaveNoComma(Fixed2(e.date.day));
    assert ',' !in fields[0];
    forall n: int ensures ',' !in IntToString(n) {
      DigitsHaveNoComma(NatToString(if n < 0 then -n else n));
    }
    var h := e.scoreHundredths;
    var b := if h < 0 then -h else h;
    DigitsHaveNoComma(NatToString(b / 100));
    DigitsHaveNoComma(Fixed2(b % 100));
  }

  /** A stored line splits into exactly one field per comma of the peak time plus eight,
      so it has eight fields exactly when the peak time has no comma. */
  lemma CsvFieldCount(e: Entry)
    ensures |Split(ToCsv(e))| == 8 + multiset(e.peakTime)[',']
    ensures |Split(ToCsv(e))| == 8 <==> ',' !in e.peakTime
  {
    var fields := CsvFields(e);
    SplitCount(ToCsv(e));
    JoinCommas(fields);
    CsvFieldCommas(e);
    CommasInOne(fields, 6);
    assert ',' in e.peakTime <==> ',' in multiset(e.peakTime);
  }

  /** Reading a stored line gives the entry back, with the commas of its work type
      turned into blanks and the result sanitised, as long as the peak time has no comma
      and is upper case and the year has four digits. */
  lemma CsvRoundTrip(e: Entry)
    requires 0 <= e.date.year <= 9999
    requires ',' !in e.peakTime && Upper(e.peakTime) == e.peakTime
    ensures FromCsv(ToCsv(e)) == Some(e.(workType := Sanitize(Some(ReplaceChar(e.workType, ',', ' ')))))
  {
    var fields := CsvFields(e);
    CsvFieldCommas(e);
    SplitJoin(fields);
    FieldsParseBack(e);
    FromCsvOfFields(ToCsv(e), e.date, e.sleepHours, e.mood, e.productivity, e.caffeine, Some(e.scoreHundredths));
  }

  /** Every field toCSV writes, except the free-text ones, parses back to its value. */
  lemma FieldsParseBack(e: Entry)
    requires 0 <= e.date.year <= 9999
    ensures ParseDate(CsvFields(e)[0]) == Some(e.date)
    ensures ParseInt(CsvFields(e)[1]) == Some(e.sleepHours) && ParseInt(CsvFields(e)[2]) == Some(e.mood)
    ensures ParseInt(CsvFields(e)[3]) == Some(e.productivity) && ParseInt(CsvFields(e)[4]) == Some(e.caffeine)
    ensures ParseScore(CsvFields(e)[7]) == Some(e.scoreHundredths)
  {
    DateRoundTrip(e.date);
    IntFieldsParseBack(e);
    ScoreRoundTrip(e.scoreHundredths);
  }

  lemma IntFieldsParseBack(e: Entry)
    ensures ParseInt(CsvFields(e)[1]) == Some(e.sleepHours) && ParseInt(CsvFields(e)[2]) == Some(e.mood)
    ensures ParseInt(CsvFields(e)[3]) == Some(e.productivity) && ParseInt(CsvFields(e)[4]) == Some(e.caffeine)
  {
    var f := CsvFields(e);
    assert f[1] == IntToString(e.sleepHours) && f[2] == IntToString(e.mood);
    assert f[3] == IntToString(e.productivity) && f[4] == IntToString(e.caffeine);
    IntRoundTrip(e.sleepHours);
    IntRoundTrip(e.mood);
    IntRoundTrip(e.productivity);
    IntRoundTrip(e.caffeine);
  }

  /** What fromCSV builds from a line whose first five fields parse to the given values
      and whose score field parses to `stored`, if present. */
  lemma FromCsvOfFields(line: string, d: LocalDate, s: Int32, m: Int32, p: Int32, c: Int32, stored: Option<int>)
    requires var parts := Split(line);
             && |parts| >= 7 && ParseDate(parts[0]) == Some(d)
             && ParseInt(parts[1]) == Some(s) && ParseInt(parts[2]) == Some(m)
             && ParseInt(parts[3]) == Some(p) && ParseInt(parts[4]) == Some(c)
             && stored == (if |parts| >= 8 then ParseScore(parts[7]) else None)
    ensures var parts := Split(line);
            var e := NewEntry(d, s, m, p, c, Some(parts[5]), Some(parts[6]));
            FromCsv(line) == Some(if stored == None then e else e.(scoreHundredths := stored.value))
  {
  }

  /** A normalised entry whose text fields have no comma survives a save and load unchanged. */
  lemma CsvRoundTripNormalised(e: Entry)
    requires 0 <= e.date.year <= 9999 && Normalised(e)
    requires ',' !in e.workType && ',' !in e.peakTime
    ensures FromCsv(ToCsv(e)) == Some(e)
  {
    CsvRoundTrip(e);
    TrimOfTrimmed(e.workType);
  }

  /** A stored line has no blanks at either end, so trimming it on load changes nothing. */
  lemma SavedLineIsTrimmed(e: Entry)
    ensures Trim(ToCsv(e)) == ToCsv(e)
  {
    var fields := CsvFields(e);
    DateTextEnds(e.date);
    ScoreTextEnds(e.scoreHundredths);
    JoinEnds(fields);
    TrimOfTrimmed(ToCsv(e));
  }

  /** A date's text starts with a digit or a sign. */
  lemma DateTextEnds(d: LocalDate)
    ensures FormatDate(d) != [] && !IsTrimmable(FormatDate(d)[0])
  {
    var y := FormatYear(d.year);
    assert y != [] && !IsTrimmable(y[0]);
    assert FormatDate(d)[0] == y[0];
  }

  /** A score's text ends with a digit. */
  lemma ScoreTextEnds(h: int)
    ensures FormatScore(h) != [] && !IsTrimmable(FormatScore(h)[|FormatScore(h)| - 1])
  {
    var a: nat := if h < 0 then -h else h;
    var u := UnsignedScoreText(a);
    assert u[|u| - 1] == Fixed2(a % 100)[1];
    assert FormatScore(h)[|FormatScore(h)| - 1] == u[|u| - 1];
  }

  /** A comma in the peak time, which toCSV does not replace, shifts the fields after it:
      the text before the comma comes back as the peak time, and the text after it is read
      as the score field, which replaces the score when it parses. */
  lemma PeakCommaShiftsFields(e: Entry, p1: string, p2: string)
    requires 0 <= e.date.year <= 9999
    requires e.peakTime == p1 + "," + p2 && ',' !in p1 && ',' !in p2
    ensures FromCsv(ToCsv(e)) == Some(e.(
              workType := Sanitize(Some(ReplaceChar(e.workType, ',', ' '))),
              peakTime := Upper(p1),
              scoreHundredths :=
                if ParseScore(p2) == None then 100 * CalculateScore(e.sleepHours, e.mood, e.productivity, e.caffeine)
                else ParseScore(p2).value))
  {
    var fields, line := CsvFields(e), ToCsv(e);
    PeakCommaSplit(e, p1, p2);
    var parts := Split(line);
    assert parts[..5] == fields[..5];
    assert |parts| == 9 && parts[5] == fields[5] && parts[6] == p1 && parts[7] == p2;
    FieldsParseBack(e);
    FromCsvOfFields(line, e.date, e.sleepHours, e.mood, e.productivity, e.caffeine, ParseScore(p2));
    RebuiltEntry(e, parts[5], p1);
  }

  /** The entry fromCSV builds from the written fields of e, before any stored score. */
  lemma RebuiltEntry(e: Entry, workType: string, peakTime: string)
    ensures NewEntry(e.date, e.sleepHours, e.mood, e.productivity, e.caffeine, Some(workType), Some(peakTime))
            == e.(workType := Sanitize(Some(workType)), peakTime := Upper(peakTime),
                  scoreHundredths := 100 * CalculateScore(e.sleepHours, e.mood, e.productivity, e.caffeine))
  {
  }

  lemma PeakCommaSplit(e: Entry, p1: string, p2: string)
    requires e.peakTime == p1 + "," + p2 && ',' !in p1 && ',' !in p2
    ensures Split(ToCsv(e)) == CsvFields(e)[..6] + [p1, p2] + CsvFields(e)[7..]
  {
    var fields := CsvFields(e);
    var g := fields[..6] + [p1, p2] + fields[7..];
    JoinSplitField(fields, 6, p1, p2);
    CsvFieldCommas(e);
    forall k | 0 <= k < |g| ensures ',' !in g[k] {
      if k < 6 { assert g[k] == fields[k]; }
      else if k == 8 { assert g[k] == fields[7]; }
    }
    SplitJoin(g);
  }

  /** Peak time "M,A" comes back as "M", and a stored score is lost: the "A" after the
      comma is read as the score field, fails to parse, and the formula score returns. */
  lemma PeakCommaExample(e: Entry)
    requires 0 <= e.date.year <= 9999 && e.peakTime == "M,A"
    ensures FromCsv(ToCsv(e)).Some?
    ensures FromCsv(ToCsv(e)).value.peakTime == "M"
    ensures FromCsv(ToCsv(e)).value.scoreHundredths == 100 * CalculateScore(e.sleepHours, e.mood, e.productivity, e.caffeine)
  {
    LetterIsNoScore();
    assert e.peakTime == "M" + "," + "A";
    PeakCommaShiftsFields(e, "M", "A");
    var r := FromCsv(ToCsv(e));
    assert r.Some? && r.value.peakTime == Upper("M");
    assert r.value.scoreHundredths == 100 * CalculateScore(e.sleepHours, e.mood, e.productivity, e.caffeine);
    UpperOfCapital();
  }

  lemma UpperOfCapital()
    ensures Upper("M") == "M"
  {
    assert Upper("M")[0] == 'M';
  }

  lemma LetterIsNoScore()
    ensures ParseScore("A") == None
  {
    assert ParseUnsignedScore("A") == None;
    TrimOfTrimmed("A");
  }

  // ---------------------------------------------------------------- views of a list of entries

  /** Comparator.comparing(getDate). */
  function DateOrder(e: Entry): int { DateKey(e.date) }

  /** Comparator.comparing(getDate).reversed(). */
  function NewestFirst(e: Entry): int { -DateKey(e.date) }

  /** Comparator.comparingDouble(getEnergyScore).reversed(). */
  function HighestScoreFirst(e: Entry): int { -e.scoreHundredths }

  function Scores(es: seq<Entry>): (r: seq<real>)
    ensures |r| == |es| && forall i :: 0 <= i < |es| ==> r[i] == EnergyScore(es[i])
  {
    seq(|es|, i requires 0 <= i < |es| => EnergyScore(es[i]))
  }

  function Sleeps(es: seq<Entry>): (r: seq<real>)
    ensures |r| == |es| && forall i :: 0 <= i < |es| ==> r[i] == es[i].sleepHours as real
  {
    seq(|es|, i requires 0 <= i < |es| => es[i].sleepHours as real)
  }

  function Moods(es: seq<Entry>): (r: seq<real>)
    ensures |r| == |es| && forall i :: 0 <= i < |es| ==> r[i] == es[i].mood as real
  {
    seq(|es|, i requires 0 <= i < |es| => es[i].mood as real)
  }

  function Productivities(es: seq<Entry>): (r: seq<real>)
    ensures |r| == |es| && forall i :: 0 <= i < |es| ==> r[i] == es[i].productivity as real
  {
    seq(|es|, i requires 0 <= i < |es| => es[i].productivity as real)
  }

  function PeakTimes(es: seq<Entry>): (r: seq<string>)
    ensures |r| == |es| && forall i :: 0 <= i < |es| ==> r[i] == es[i].peakTime
  {
    seq(|es|, i requires 0 <= i < |es| => es[i].peakTime)
  }

  /** The number of days with three or more cups of coffee. */
  function CountHighCaffeine(es: seq<Entry>): (n: nat)
    ensures n <= |es|
  {
    if es == [] then 0
    else CountHighCaffeine(es[..|es| - 1]) + (if es[|es| - 1].caffeine >= 3 then 1 else 0)
  }

  /** Every day counts exactly when every day had 3+ cups; none counts exactly when none had. */
  lemma {:induction false} CountHighCaffeineExtremes(es: seq<Entry>)
    ensures CountHighCaffeine(es) == |es| <==> forall i :: 0 <= i < |es| ==> es[i].caffeine >= 3
    ensures CountHighCaffeine(es) == 0 <==> forall i :: 0 <= i < |es| ==> es[i].caffeine < 3
  {
    if es != [] {
      var p := es[..|es| - 1];
      CountHighCaffeineExtremes(p);
      assert forall i :: 0 <= i < |p| ==> p[i] == es[i];
    }
  }

  /** The counting loop's step: one more day adds one exactly when it had 3+ cups. */
  lemma CountHighCaffeineStep(es: seq<Entry>, i: nat)
    requires i < |es|
    ensures CountHighCaffeine(es[..i + 1]) == CountHighCaffeine(es[..i]) + (if es[i].caffeine >= 3 then 1 else 0)
  {
    assert es[..i + 1][..i] == es[..i];
  }
}
