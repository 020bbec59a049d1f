# EnergyPredictor in Dafny

EnergyPredictor is a console journal of daily energy. Each day records these fields:

- sleep hours, mood, productivity and cups of coffee;
- a work type and a peak time ("M", "A", "N" or blank);
- an energy score computed from the four numbers.

The tracker keeps the entries in date order in a comma-separated data file. It answers these queries over them:

- average, highest and lowest energy;
- a prediction for tomorrow and a crash warning;
- energy labels, a deep-work recommendation and a productivity tier;
- an ASCII bar graph, a sleep/energy Pearson correlation, a weekly summary and a dashboard.

Two more helper classes answer similar questions: `StatisticsUtil`, over lists of integers, and `InsightGenerator`, over lists of entries.

The model has one module per concern:

| module | file | models |
|---|---|---|
| `Wrappers` | wrappers.dfy | `Option` |
| `Text` | text.dfy | the Java string and integer text operations the file format relies on (trim, upper case, split with limit -1, join, `Integer.parseInt`, `String.valueOf`, zero padding) |
| `Ordering` | ordering.dfy | Java's stable sort by a key, `reversed()` comparators, `limit`, `Collections.reverse` |
| `Stats` | stats.dfy | sums, means, extremes, `Math.round`, the first maximum and minimum that a strict scan keeps, and the deviation sums of a Pearson correlation |
| `EnergyEntry` | energy_entry.dfy | an entry (a value), its constructor, its score formula, `toCSV` and `fromCSV` |
| `Journal` | journal.dfy | what loading the data file yields, what saving writes, and the list `addEntry` builds |
| `Analytics` | analytics.dfy | the queries of `EnergyTracker` as functions of the entry list, with their loops as methods |
| `EnergyTracker` | energy_tracker.dfy | the tracker object: a class whose `entries` field its methods update |
| `StatisticsUtil` | statistics_util.dfy | `StatisticsUtil` |
| `InsightGenerator` | insight_generator.dfy | `screen_recordings/InsightGenerator` |

Scores are held as integer hundredths. The formula score is an integer, and a stored score has at most two decimals, so this representation is exact. Doubles are modelled as reals.

## Model

| member | source | states |
|---|---|---|
| Text.TrimSpec | EnergyEntry.java:69 | trim yields a trimmed infix of the input; the result is empty exactly when every char is at most U+0020 |
| Text.TrimFrom | EnergyEntry.java:69 | trim's start index passes only chars at most U+0020 and stops at the first other char |
| Text.TrimTo | EnergyEntry.java:69 | trim's end index moves back only over chars at most U+0020, never below the start, and stops after a non-blank char |
| Text.TrimOfTrimmed | EnergyTracker.java:35 | trimming text with no blank at either end changes nothing |
| Text.Trim | EnergyEntry.java:69 | trim is never longer than its input, and its result neither starts nor ends with a char at most U+0020 |
| Text.UpperChar | EnergyEntry.java:24 | toUpperCase maps ASCII a-z to A-Z and keeps every other char |
| Text.Upper | EnergyEntry.java:24 | toUpperCase keeps the length and upper-cases each char in place (ASCII), so no lower-case letter is left |
| Text.UpperIdempotent | EnergyEntry.java:24 | upper-casing keeps the length, leaves no lower-case letter and is idempotent |
| Text.Split | EnergyEntry.java:31 | split(",", -1) yields at least one field and no field holds a comma |
| Text.SplitCount | EnergyEntry.java:31 | split yields one field more than the text has commas |
| Text.SplitJoin | EnergyEntry.java:31-57 | splitting the join of comma-free fields gives those fields back, empty ones included |
| Text.Join | EnergyEntry.java:48-57 | String.join(",", fields) starts with the first field, followed by a comma when there is a second |
| Text.JoinCommas | EnergyEntry.java:48-57 | the joined line has one comma per separator plus the commas inside the fields |
| Text.JoinSplitField | EnergyEntry.java:48-57 | a field "a,b" joins to the same line as the two fields a and b |
| Text.ReplaceChar | EnergyEntry.java:54 | replace(",", " ") keeps the length, turns each comma into a blank, keeps every other char in place and leaves no comma |
| Text.NatToStringRoundTrip | EnergyEntry.java:50-53 | the digits String.valueOf writes for n >= 0 read back as n |
| Text.IntRoundTrip | EnergyEntry.java:33-53 | Integer.parseInt(String.valueOf(n)) == n for every 32-bit n |
| Text.NegativeIntRoundTrip | EnergyEntry.java:33-53 | a negative 32-bit value written with its minus sign reads back as itself |
| Text.ParseInt | EnergyEntry.java:33-36 | Integer.parseInt accepts only text that starts with a sign or a digit and ends with a digit, and a negative value only after a minus sign |
| Text.Fixed2RoundTrip | EnergyEntry.java:49 | a two-digit zero-padded field reads back as its value |
| Text.Fixed4RoundTrip | EnergyEntry.java:49 | a four-digit zero-padded year reads back as its value |
| Text.Fixed2Canonical | EnergyEntry.java:32 | every two-digit text is the padding of the value it reads as |
| Text.Fixed4Canonical | EnergyEntry.java:32 | every four-digit text is the padding of the value it reads as |
| Ordering.SortBy | EnergyTracker.java:22 | the sort returns a sorted permutation of its input |
| Ordering.SortByIsStable | EnergyTracker.java:22 | elements with equal keys keep their input order (List.sort is stable) |
| Ordering.SortBySorted | EnergyTracker.java:44 | sorting an already sorted list changes nothing |
| Ordering.SortByDecreasing | EnergyTracker.java:75-78 | sorting a strictly ascending list by the reversed key reverses it |
| Ordering.TakeOfSorted | EnergyTracker.java:75-78 | limit(k) of a sorted list is sorted and a sub-multiset of it |
| Ordering.TakeLeavesLarger | EnergyTracker.java:75-78 | every element that limit(k) leaves out sorts after every element it keeps |
| Ordering.MapEach | EnergyTracker.java:52 | the for-each loop yields f of each element, in list order |
| Ordering.Reverse | EnergyTracker.java:136 | Collections.reverse puts element i at position n-1-i |
| Ordering.LastIsLargest | EnergyTracker.java:237 | the last element of a sorted list has the largest key |
| Stats.MinOf | EnergyTracker.java:68-70 | the minimum is an element and no element is smaller |
| Stats.MaxOf | EnergyTracker.java:137 | the maximum is an element and no element is larger |
| Stats.MeanBounds | StatisticsUtil.java:5-10 | a mean lies between the minimum and the maximum |
| Stats.MeanOfConstant | StatisticsUtil.java:5-10 | the mean of a constant list is that constant |
| Stats.Mean | StatisticsUtil.java:5-10 | the mean taken as many times as there are values gives their sum |
| Stats.RoundHalfUp | EnergyTracker.java:189 | rounding gives the nearest integer, a half rounded up: x - 0.5 < r <= x + 0.5 |
| Stats.RoundWithin | EnergyTracker.java:189 | Math.round of a value between two integers stays between them |
| Stats.RoundMonotone | EnergyTracker.java:142 | rounding never reverses the order of two values |
| Stats.MathRound | EnergyTracker.java:142 | Math.round(double) returns a long: the rounded value when it fits, Long.MIN_VALUE or Long.MAX_VALUE beyond |
| Stats.IntCast | EnergyTracker.java:142 | the (int) cast of a long is the int congruent to it modulo 2^32, and keeps every value that fits in an int |
| Stats.IntRound | EnergyTracker.java:142 | (int) Math.round(x) is an int, equal to the rounded value whenever that fits in an int |
| Stats.IntRoundWithin | EnergyTracker.java:189 | (int) Math.round of a value between two ints stays between them |
| Stats.FirstMaxIndex | EnergyTracker.java:64-66 | Stream.max keeps the earlier of equal elements, so it picks the first position of a largest value |
| Stats.FirstMinIndex | EnergyTracker.java:68-70 | Stream.min picks the first position of a smallest value |
| Stats.FirstMaxStep | screen_recordings/InsightGenerator.java:8-13 | moving to a later element only when it is strictly larger keeps the first maximum of the prefix |
| Stats.FirstMinStep | screen_recordings/InsightGenerator.java:20-25 | moving to a later element only when it is strictly smaller keeps the first minimum of the prefix |
| Stats.FirstExtremesUnique | screen_recordings/InsightGenerator.java:5-27 | a list has exactly one first maximum and one first minimum |
| Stats.DeviationSums | EnergyTracker.java:168-175 | the accumulation loop over two arrays computes the sums of deviation products and squares |
| Stats.ArrayDeviations | EnergyTracker.java:160-175 | the loop runs about the arrays' own means |
| Stats.CoMomentsSymmetric | StatisticsUtil.java:25-32 | swapping the series keeps the numerator and swaps the two sums of squares |
| Stats.DeviationsSymmetric | StatisticsUtil.java:25-34 | swapping the series keeps the numerator and the radicand denS*denE |
| Stats.SquaresZero | EnergyTracker.java:168-177 | a sum of squared deviations is non-negative, and zero exactly when every value equals the centre |
| Stats.ZeroVarianceIffConstant | EnergyTracker.java:176-177 | the denominator is zero exactly when one series is constant, and positive otherwise |
| EnergyEntry.DateKeyOrder | EnergyTracker.java:22 | the date key orders dates by year, then month, then day, and two dates have equal keys exactly when they are equal |
| EnergyEntry.FormatDate | EnergyEntry.java:49 | the ISO text of a date with a four-digit year is ten chars with dashes at positions 4 and 7 |
| EnergyEntry.ParseDate | EnergyEntry.java:32 | a text that parses as a date has the yyyy-MM-dd shape: ten chars, four year digits, dashes at positions 4 and 7 |
| EnergyEntry.DateRoundTrip | EnergyEntry.java:32-49 | LocalDate.parse of the ISO text of a date with a four-digit year gives the date back |
| EnergyEntry.ParseDateCanonical | EnergyEntry.java:32-49 | a date text that parses is exactly the text the formatter writes for that date |
| EnergyEntry.ScoreRoundTrip | EnergyEntry.java:41-56 | parseDouble of format("%.2f", score) gives the score back, negative scores included |
| EnergyEntry.UnsignedScoreRoundTrip | EnergyEntry.java:41-56 | the digits, point and two decimals written for a magnitude read back as that magnitude |
| EnergyEntry.ParseScore | EnergyEntry.java:41 | blank text is no score; a parsed score is not positive after a minus sign and not negative otherwise |
| EnergyEntry.UnsignedScore | EnergyEntry.java:41 | text that starts and ends with a digit parses as its unsigned value |
| EnergyEntry.NegativeScore | EnergyEntry.java:41 | a leading minus sign negates the value parseDouble reads |
| EnergyEntry.CalculateScore | EnergyEntry.java:60-65 | the score is sleep*2 + mood*3 + productivity*3 - caffeine, or 0 when that is negative |
| EnergyEntry.ScoreExample | EnergyEntry.java:60-65 | 7 hours of sleep, mood 4, productivity 5 and 2 cups score 39 |
| EnergyEntry.Sanitize | EnergyEntry.java:67-72 | a missing or blank work type becomes "Mixed", any other is trimmed; the result is non-empty and trimmed |
| EnergyEntry.SanitizeIdempotent | EnergyEntry.java:67-72 | sanitising twice equals sanitising once |
| EnergyEntry.NormalizePeakIdempotent | EnergyEntry.java:24 | normalising the peak time twice equals normalising it once |
| EnergyEntry.NormalizePeak | EnergyEntry.java:24 | a missing peak time becomes the empty text; any other becomes its upper-cased text, char by char, with no lower-case letter left |
| EnergyEntry.NewEntry | EnergyEntry.java:16-26 | the constructor stores the numbers, a sanitised work type, an upper-cased or empty peak time and the formula score |
| EnergyEntry.NewEntryNormalised | EnergyEntry.java:16-26 | every constructed entry has normalised text fields and a non-negative score |
| EnergyEntry.CsvFields | EnergyEntry.java:47-58 | toCSV writes eight fields |
| EnergyEntry.ToCsv | EnergyEntry.java:47-58 | a saved line starts with the entry's ISO date |
| EnergyEntry.FromCsv | EnergyEntry.java:29-44 | an accepted line has at least seven fields, and the entry's date is the one its first field parses as |
| EnergyEntry.FromCsvRejects | EnergyEntry.java:29-44 | fromCSV fails exactly when there are fewer than seven fields, or the date or one of the four integers does not parse |
| EnergyEntry.FromCsvFields | EnergyEntry.java:29-44 | an accepted line keeps its date and integers and normalises its text; a stored score that parses wins, otherwise the formula score is kept |
| EnergyEntry.FromCsvIgnoresExtraFields | EnergyEntry.java:29-44 | fields after the eighth are ignored |
| EnergyEntry.CsvFieldCommas | EnergyEntry.java:47-58 | no field except the peak time can hold a comma |
| EnergyEntry.CsvFieldCount | EnergyEntry.java:47-58 | a saved line splits into 8 fields plus one per comma of the peak time |
| EnergyEntry.PeakCommaSplit | EnergyEntry.java:31-57 | a peak time "p1,p2" splits into the two fields p1 and p2 between the work type and the score |
| EnergyEntry.CsvRoundTrip | EnergyEntry.java:29-58 | reading a saved line gives the entry back, with commas in the work type turned to blanks, when the peak time is comma-free and upper case |
| EnergyEntry.CsvRoundTripNormalised | EnergyEntry.java:29-58 | a normalised entry with comma-free text comes back unchanged |
| EnergyEntry.FieldsParseBack | EnergyEntry.java:29-58 | each written field parses back to the value it was written from |
| EnergyEntry.IntFieldsParseBack | EnergyEntry.java:33-53 | the four integer fields parse back to the sleep, mood, productivity and caffeine written |
| EnergyEntry.SavedLineIsTrimmed | EnergyEntry.java:47-58 | a saved line has no blank at either end, so the trim on load keeps it |
| EnergyEntry.PeakCommaShiftsFields | EnergyEntry.java:29-58 | a comma in the peak time shifts the fields: the peak time is cut at the comma, and the text after it is read as the score |
| EnergyEntry.PeakCommaExample | EnergyEntry.java:29-58 | peak time "M,A" reloads as "M", and the stored score is replaced by the formula score |
| EnergyEntry.CountHighCaffeine | EnergyTracker.java:223 | the number of days with three or more cups is at most the number of days |
| EnergyEntry.CountHighCaffeineExtremes | EnergyTracker.java:223 | the count is the number of days exactly when every day has 3+ cups, and 0 exactly when no day does |
| Journal.CollectMembers | EnergyTracker.java:34-43 | load keeps exactly the entries that some line reads as, and no more entries than lines |
| Journal.ReadLine | EnergyTracker.java:35-39 | a blank line yields nothing; an entry read from a line has the date its trimmed first field parses as |
| Journal.ParseLines | EnergyTracker.java:34-43 | loading yields at most one entry per line |
| Journal.ParseLinesAppend | EnergyTracker.java:34-43 | loading two files' lines in turn is loading their concatenation |
| Journal.ParseLinesMembers | EnergyTracker.java:34-43 | an entry is loaded exactly when some line reads as it |
| Journal.CsvLines | EnergyTracker.java:50-56 | save writes one line per entry, in list order |
| Journal.WriteLines | EnergyTracker.java:50-56 | the write loop produces exactly the lines of the list's entries, in order |
| Journal.ReadSavedLine | EnergyTracker.java:35-39 | a saved line of a storable entry loads as that entry |
| Journal.LoadAfterSave | EnergyTracker.java:30-56 | loading what save wrote gives back the same list in the same order |
| Journal.LoadSortedAfterSave | EnergyTracker.java:30-56 | for a date-ordered list, load's sort by date changes nothing |
| Journal.RemoveDate | EnergyTracker.java:19 | removeIf drops every entry of the date and keeps every entry of another date exactly as often as it occurred |
| Journal.RemoveDateAppend | EnergyTracker.java:19 | removeIf decides each element on its own and keeps the survivors in list order: removing from a concatenation removes from each part |
| Journal.RemoveDateStrictlySorted | EnergyTracker.java:19 | removing entries keeps a list with strictly increasing dates strictly increasing |
| Journal.Replaced | EnergyTracker.java:17-24 | the list addEntry builds is sorted by date |
| Journal.ReplacedMembers | EnergyTracker.java:17-24 | addEntry adds e, drops every other entry of e's date, keeps every entry of another date and adds nothing else |
| Journal.ReplacedOnce | EnergyTracker.java:17-24 | after addEntry, e is the only entry of its date |
| Journal.ReplacedStrictlySorted | EnergyTracker.java:17-24 | addEntry keeps at most one entry per date |
| Journal.SameKeySameDate | EnergyTracker.java:19-22 | the sort key identifies the date that removeIf compares |
| Analytics.LatestK | EnergyTracker.java:75-78 | the k-day window has min(k, n) entries |
| Analytics.LatestKSpec | EnergyTracker.java:75-78 | the window is a sub-multiset of the entries, newest first, and no left-out entry is newer than a kept one |
| Analytics.LatestKMembers | EnergyTracker.java:75-78 | every window entry is a journal entry |
| Analytics.WindowMembers | EnergyTracker.java:132-136 | the reversed window holds only journal entries |
| Analytics.LatestOfAscending | EnergyTracker.java:75-78 | in a journal with one entry per date, the window is the last k entries, newest first |
| Analytics.AverageEnergy | EnergyTracker.java:59-62 | 0 for an empty journal, otherwise the average times the number of days is the total score |
| Analytics.AverageEnergyBounds | EnergyTracker.java:59-62 | averageEnergy lies between the lowest and the highest score |
| Analytics.HighestEnergy | EnergyTracker.java:64-66 | empty exactly for an empty journal, otherwise the first entry with the highest score |
| Analytics.LowestEnergy | EnergyTracker.java:68-70 | empty exactly for an empty journal, otherwise the first entry with the lowest score |
| Analytics.PredictTomorrow | EnergyTracker.java:73-80 | 0 for an empty journal, otherwise the sum of the latest min(3, n) scores divided by their number, which lies between the lowest and the highest of them |
| Analytics.PredictTomorrowBounds | EnergyTracker.java:73-80 | the prediction's window holds min(3, n) scores, and the prediction never leaves the range of the journal's scores |
| Analytics.IsCrashing | EnergyTracker.java:83-92 | no crash is signalled with fewer than two days |
| Analytics.CrashRule | EnergyTracker.java:83-92 | with distinct ascending dates and two days or more: a crash exactly when the mean of the two last scores is below 90% of the journal's average |
| Analytics.CrashHasLowDay | EnergyTracker.java:83-92 | a crash means one of the two latest days scored below 90% of the average; with a non-negative average it is below the average and some day scored more |
| Analytics.ConstantScoresNeverCrash | EnergyTracker.java:83-92 | a journal with one non-negative score throughout never signals a crash |
| Analytics.CrashExample | EnergyTracker.java:83-92 | four days at 80 followed by two at 10 signal a crash |
| Analytics.ClassifyEnergy | EnergyTracker.java:95-100 | "High" from 80, "Medium" from 50, "Low" from 20, "Critical" below |
| Analytics.ClassifyEnergyMonotone | EnergyTracker.java:95-100 | a higher score never gets a lower label |
| Analytics.InterpretCorrelation | EnergyTracker.java:257-263 | the label by the absolute value: 0.8, 0.5 and 0.3 thresholds |
| Analytics.InterpretCorrelationSymmetric | EnergyTracker.java:257-263 | r and -r get the same label |
| Analytics.PredictMood | EnergyTracker.java:182-190 | 3 for an empty journal; always an int; the mean mood of the latest min(3, n) days rounded half up whenever that fits in an int |
| Analytics.PredictMoodNearMean | EnergyTracker.java:182-190 | with moods in 1..5 the prediction is within half a point of the mean mood of the three latest days (halves rounding up) |
| Analytics.PredictMoodInRange | EnergyTracker.java:182-190 | with moods in 1..5 the predicted mood is in 1..5 (3 for an empty journal) |
| Analytics.ProductivityTier | EnergyTracker.java:193-203 | "No data" exactly for an empty journal; otherwise High Performer iff the mean productivity of the latest min(7, n) days is at least 4, Moderate iff it is in [2.5, 4), Low iff below 2.5 |
| Analytics.ProductivityTierExtremes | EnergyTracker.java:193-203 | a journal of productivity 4+ is "High Performer", one of productivity 2 or less "Low Performer" |
| Analytics.WeekTierExtremes | EnergyTracker.java:199-202 | the same for the tier of any non-empty week |
| Analytics.Votes | EnergyTracker.java:111-112 | blank peak times cast no vote |
| Analytics.TopHalf | EnergyTracker.java:105-108 | max(1, n/2) entries of a non-empty journal, none for an empty one, all drawn from the journal |
| Analytics.TopHalfSpec | EnergyTracker.java:105-108 | the top half has max(1, n/2) entries of the journal, and none it leaves out scores higher |
| Analytics.PeakLabel | EnergyTracker.java:121-126 | "M", "A" and "N" are labelled Morning, Afternoon and Night, every other key Unknown |
| Analytics.IsDeepWorkRecommendation | EnergyTracker.java:103-127 | a recommendation is "No data" exactly when the journal is empty |
| Analytics.ClearWinner | EnergyTracker.java:120-126 | a peak time with strictly more votes than any other decides the recommendation |
| Analytics.WinnerIsVoted | EnergyTracker.java:120 | such a peak time received a vote |
| Analytics.DeepWorkClearWinner | EnergyTracker.java:103-127 | when one peak time wins the top half outright, recommendDeepWorkTime returns its label |
| Analytics.GraphWindow | EnergyTracker.java:132-136 | the graph shows min(days, n) days, all of them journal entries |
| Analytics.GraphScale | EnergyTracker.java:137-138 | the scale is at least 1, and the top score when that is at least 1 |
| Analytics.Bar | EnergyTracker.java:144 | a bar is barLen '|' characters, none when barLen is negative |
| Analytics.BarLength | EnergyTracker.java:142 | (int) Math.round(score / max * 30) is an int, equal to the rounded share of 30 whenever that fits in an int |
| Analytics.BarWrapExample | EnergyTracker.java:142-144 | a score of -100000000 against a scale of 1 rounds to -3000000000, which the cast turns into a bar of 1294967296 characters |
| Analytics.GraphRows | EnergyTracker.java:130-146 | one row per window day, oldest first, each with its date, its bar and its score |
| Analytics.BarAtMost30 | EnergyTracker.java:142 | a score between 0 and the scale gets a bar of 0..30 characters |
| Analytics.BarOfScale | EnergyTracker.java:142 | the score equal to the scale gets 30 characters |
| Analytics.BarMonotone | EnergyTracker.java:142 | a higher score never gets a shorter bar, while both rounded lengths fit in an int |
| Analytics.GraphBars | EnergyTracker.java:130-146 | with non-negative scores no bar exceeds 30, and a top score of at least 1 gets exactly 30 |
| Analytics.GraphLines | EnergyTracker.java:141-146 | the row loop builds the row of each day in turn |
| Analytics.BarOf | EnergyTracker.java:144 | the inner loop builds barLen '|' characters |
| Analytics.SleepEnergyPearson | EnergyTracker.java:151-178 | NaN with fewer than two days, and never the literal 0 of StatisticsUtil |
| Analytics.WindowPearson | EnergyTracker.java:166-178 | over a window the result is NaN or a quotient whose radicand is positive |
| Analytics.WindowPearsonUndefined | EnergyTracker.java:176-177 | the correlation is NaN exactly when the sleep or the score series of the window is constant; otherwise its radicand is positive |
| Analytics.SleepEnergyUndefined | EnergyTracker.java:151-178 | sleepEnergyCorrelation is NaN exactly for fewer than two entries or a constant series in the 30-day window |
| Analytics.WindowCorrelation | EnergyTracker.java:157-178 | copying the window into two arrays and running the loop gives the window's correlation |
| Analytics.BestWorstBounds | EnergyTracker.java:215-218 | the week's best and worst days are week days, and the average lies between their scores |
| Analytics.WeeklyInsights | EnergyTracker.java:206-227 | no summary exactly for an empty journal; otherwise min(7, n) days, the week's mean score and its level, the week's first best and worst days, the week's mean sleep, the count of days with 3+ cups, and the journal's tier |
| Analytics.Summarize | EnergyTracker.java:213-224 | the figures of a week: its day count, mean score and level, first best and worst days, mean sleep and high-caffeine day count |
| Analytics.WeeklyInsightsSpec | EnergyTracker.java:206-227 | the summary covers min(7, n) days; best and worst are journal entries bracketing the average; caffeine days never exceed the days |
| Analytics.NoCountsNoVotes | EnergyTracker.java:115-119 | an empty count means there were no votes, which is when the sleep fallback applies |
| Analytics.MostCountedIsMostVoted | EnergyTracker.java:120 | a key no other key outnumbers in the count is a most voted peak time |
| Analytics.Tally | EnergyTracker.java:109-114 | the counting loop maps each vote of the list, blank peak times skipped, to its number of occurrences and holds no other key |
| Analytics.MostCounted | EnergyTracker.java:120 | Collections.max by value returns a key whose count no other key exceeds |
| EnergyTracker.Tracker.constructor | EnergyTracker.java:10-14 | a new tracker holds the entries of the file sorted by date, or none when there is no file |
| EnergyTracker.Tracker.LoadFromFile | EnergyTracker.java:30-48 | a missing file changes nothing; otherwise the file's entries are appended and the list is sorted by date |
| EnergyTracker.Tracker.AppendLines | EnergyTracker.java:34-43 | the read loop appends what each line yields, in file order |
| EnergyTracker.Tracker.AddEntry | EnergyTracker.java:17-24 | e replaces every entry of its date, the list stays sorted, other days are kept, and the saved lines are those of the new list |
| EnergyTracker.Tracker.RecommendDeepWorkTime | EnergyTracker.java:103-127 | "No data" for no entries; the label of a most voted top-half peak time; otherwise the sleep fallback |
| EnergyTracker.Tracker.AsciiGraph | EnergyTracker.java:130-148 | nothing to graph exactly for an empty journal, otherwise the rows of the window |
| EnergyTracker.Tracker.SleepEnergyCorrelation | EnergyTracker.java:151-178 | the method computes the correlation of the 30 latest days |
| EnergyTracker.Tracker.SummaryDashboard | EnergyTracker.java:230-255 | no dashboard exactly for an empty journal, otherwise the last entry, which in the date-ordered list has the latest date, and the answers of the other queries |
| EnergyTracker.Tracker.SaveToFile | EnergyTracker.java:50-56 | save writes the line of each entry in list order |
| EnergyTracker.Assemble | EnergyTracker.java:237-252 | the dashboard's remaining figures are those of the queries |
| EnergyTracker.DashboardShowsLatestDay | EnergyTracker.java:237 | in a date-ordered journal the dashboard's entry (the last of the list) has the latest date |
| StatisticsUtil.Average | StatisticsUtil.java:5-10 | 0 for an empty list; otherwise the mean, between the minimum and the maximum |
| StatisticsUtil.ClassifyEnergy | StatisticsUtil.java:12-16 | "High Energy" from 70, "Moderate Energy" from 45, "Low Energy" below |
| StatisticsUtil.ClassifyEnergyMonotone | StatisticsUtil.java:12-16 | a higher score never gets a lower label |
| StatisticsUtil.Pearson | StatisticsUtil.java:18-37 | never NaN; the literal 0 for lists of different sizes or fewer than two pairs; a quotient only over a positive radicand |
| StatisticsUtil.PearsonZeroIff | StatisticsUtil.java:18-37 | the guarded branches return their literal 0 exactly for lists of different sizes, fewer than two pairs or a constant list; otherwise the radicand is positive |
| StatisticsUtil.ZeroNumeratorExample | StatisticsUtil.java:25-36 | two varying lists, [1, 2, 3] and [1, 0, 1], still give 0 through the quotient: the numerator cancels and the radicand is 4/3 |
| StatisticsUtil.PearsonSymmetric | StatisticsUtil.java:18-37 | correlation(a, b) == correlation(b, a) |
| StatisticsUtil.DeviationLoop | StatisticsUtil.java:25-32 | the loop computes the sums of deviation products and squares about the given averages |
| StatisticsUtil.Correlation | StatisticsUtil.java:18-37 | the method returns the guarded Pearson correlation |
| StatisticsUtil.ProductivityTier | StatisticsUtil.java:39-43 | "High Productivity" from 4, "Moderate Productivity" from 2.5, "Low Productivity" below |
| StatisticsUtil.TiersAgree | StatisticsUtil.java:39-43 | this tier and the tracker's weekly tier agree on every average |
| StatisticsUtil.Crashes | StatisticsUtil.java:45-52 | a crash needs at least four scores |
| StatisticsUtil.CrashDetected | StatisticsUtil.java:45-52 | false below four scores; otherwise true exactly when the last score is below 60% of the average |
| StatisticsUtil.FlatNonNegativeNeverCrashes | StatisticsUtil.java:45-52 | a list of one non-negative score never crashes |
| StatisticsUtil.FlatNegativeCrashes | StatisticsUtil.java:45-52 | a list of four or more copies of one negative score always crashes |
| StatisticsUtil.CrashBelowAverage | StatisticsUtil.java:45-52 | with a non-negative average, a crash puts the last score below the average and below some earlier score |
| InsightGenerator.BestEnergyDay | screen_recordings/InsightGenerator.java:5-15 | no day for an empty list, otherwise the first entry with the highest score, the same entry highestEnergy picks |
| InsightGenerator.WorstEnergyDay | screen_recordings/InsightGenerator.java:17-27 | no day for an empty list, otherwise the first entry with the lowest score |
| InsightGenerator.FieldAverage | screen_recordings/InsightGenerator.java:29-57 | 0 for an empty list; otherwise the field's mean, between its minimum and maximum |
| InsightGenerator.AverageSleep | screen_recordings/InsightGenerator.java:29-37 | 0 for an empty list; otherwise the mean sleep, between the least and the most |
| InsightGenerator.AverageMood | screen_recordings/InsightGenerator.java:39-47 | 0 for an empty list; otherwise the mean mood, between the least and the most |
| InsightGenerator.AverageProductivity | screen_recordings/InsightGenerator.java:49-57 | 0 for an empty list; otherwise the mean productivity, between the least and the most |
| InsightGenerator.CountPeakTimes | screen_recordings/InsightGenerator.java:62-66 | the map holds each peak time, blank included, with its number of entries, and no other key |
| InsightGenerator.MostFrequent | screen_recordings/InsightGenerator.java:68-77 | starting from ("", 0), the scan ends on a key whose count no other key exceeds |
| InsightGenerator.MostCommonPeakTime | screen_recordings/InsightGenerator.java:59-78 | no answer for an empty list, otherwise a peak time of some entry that no other peak time outnumbers |
| InsightGenerator.HighCaffeineDays | screen_recordings/InsightGenerator.java:80-89 | the loop's count is the number of entries with 3 or more cups, the same count weeklyInsights reports |

## Left out

- File I/O is modelled as a parameter. The data file is the sequence of its lines, or None when it does not exist. Read and write errors, which the source only reports on the console, are not modelled, and neither is the file name.
- EnergyEntry.ParseScore: accepts only an optional sign, digits and at most two decimals. Other texts that Double.parseDouble accepts fall back to the formula score here: more decimals, exponents, "NaN", "Infinity", hex forms and type suffixes. Files the program writes itself only hold the accepted form.
- EnergyEntry.ParseDate: reads only unsigned four-digit years; ISO_LOCAL_DATE also reads negative years ("-0001-01-01") and '+'-signed years beyond 9999. The formatter writes every year the way Java does, so a saved entry dated before year 0 or after 9999 is written but dropped on reload by this model, where Java would read it back.
- Text.ParseInt: ASCII digits only. Integer.parseInt also accepts other Unicode decimal digits. Upper-casing is likewise modelled for ASCII only.
- Floating point is modelled as exact reals. Rounding of doubles, "-0.0" and the locale of String.format are not modelled. The `(int) Math.round` casts are modelled exactly: saturation at the long range, then the low 32 bits.
- Analytics.BarMonotone: stated only while both rounded bar lengths fit in an int. Beyond that range the (int) cast wraps (Analytics.BarWrapExample), and a higher score can get a shorter bar.
- Analytics.WindowCorrelation, StatisticsUtil.Correlation, EnergyTracker.Tracker.SleepEnergyCorrelation: square roots are not modelled. A result Ratio(n, d) stands for n / sqrt(d) with d > 0, so the bound |r| <= 1 is not stated. For the same reason, the dashboard's correlation label (interpretCorrelation applied to that quotient) is not computed. InterpretCorrelation itself is modelled.
- The text that asciiGraph, weeklyInsights, summaryDashboard, toString, bestEnergyDay and worstEnergyDay build is not modelled ("%.0f" and "%.2f" numbers, headings, "date (score)"). The model returns the rows, figures and entries that the text is made of.
- InsightGenerator.MostCommonPeakTime, Analytics.MostCounted, EnergyTracker.Tracker.RecommendDeepWorkTime: HashMap iteration order is not modelled, so ties between equally common peak times are left open. The contracts say "some most common key".
- EnergyTracker.Tracker.AsciiGraph: days is a nat; a negative argument, which Stream.limit rejects with an exception, is not modelled.
- getAll (EnergyTracker.java:26-28) returns a read-only view of the list. The model reads the `entries` field directly.
- Java object identity is not modelled, because an entry is a value. Nothing changes an entry after fromCSV hands it out, so aliasing cannot be observed.
- InsightGenerator calls getCaffeineIntake, which EnergyEntry does not define. The model uses the caffeine field.
- Nulls are modelled only where the source checks for them: a missing work type or peak time is None. A null list or a null entry is not modelled.
- FileManager.java and Main.java are not part of this model: the console menu and the file helper.
