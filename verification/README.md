# chargelog in Dafny

This project models the analysis core of *chargelog*. Chargelog logs how
many TYPE 2 connectors of one charging station are free, and derives two
weekly reports from the log. The model covers three scripts.

- `logger_once.py` counts the TYPE 2 connectors, and the free ones, in
  the text of the station's web page (`Connectors`).
- `recommend_week.py` reads the CSV log and keeps the rows that have
  connectors and fall inside the 09:00–17:00 window. It counts samples and
  successes per weekday and 15-minute bin. For each weekday from Monday to
  Saturday it reports one of three things:
  - the runs of contiguous "safe" bins, where a bin is safe when at least
    80 % of its samples saw a free connector;
  - otherwise the three best runs of observed bins;
  - otherwise the number of measures it had.

  The row readers are in `Rows`, `Text` and `Samples`. The counting is in
  `Aggregation`. Run cutting and scoring are in `Runs`, the stable ranking
  in `Ranking`, and the report in `Recommend`.
- `heatmap_week.py` fills a 7 × `SLOTS_PER_DAY` table of measures and
  successes. It turns that table into a Monday–Saturday probability matrix,
  in which a cell is undefined when it has no measure. It reports "no
  usable data" when every cell is undefined, and labels the whole hours of
  the x axis (`Heatmap`).

`Agreement` relates the last two scripts. Suppose the bin width divides an
hour and the window lies inside 09:00–17:00. Then heatmap column `s` is the
recommendation bin that starts `s` bins after 09:00, and it holds the same
counts.

Modelling choices:

- Probabilities are exact rationals (`real`, `ok / n`), and the threshold
  0.80 is exact too.
- Reading a timestamp string is a parameter of the model, `Localiser`.
  Reading it means: rewriting `Z`, running `fromisoformat`, treating a
  naive time as UTC and converting to Europe/Paris.
- A CSV row is a sequence of `(key, value)` columns in header order. When
  a header name repeats, the last column carrying it supplies the value,
  as in the dict `csv.DictReader` builds. That dict keeps the repeated
  key at the place of its first column, so `row.keys()` lists the
  distinct keys in first-occurrence order.
- Both scripts share the settings in `Binning`: window start, window end
  and bin width, in minutes. The thresholds of the recommendation are in
  `Policy`. `DefaultBinning` and `DefaultPolicy` hold the constants of the
  scripts: 09:00, 17:00, 15, 0.80, 2, 1 and 3.

Where the code and its documented intent differ, the model follows the
code:

- **Fallback with safe bins.** The recommendation falls back to the best
  observed runs whenever `merge_and_score` returns nothing. That also
  happens when safe bins exist but no run of them reaches two bins.
  `Recommend.FallbackDespiteSafeBin` gives such a day.
- **Interval end.** A reported interval ends at the *start* of its last
  bin (`r[-1]`), not at the end of that bin.
- **Hour ticks.** The heatmap comment promises ticks up to 17:00, but the
  last column starts before 17:00, so no tick is labelled later than 16:00,
  whatever the bin width (`Heatmap.HourTicks`,
  `Heatmap.TicksStopBeforeSeventeen`). Which hours get a tick depends on
  the width. With 15-minute bins every hour from 09:00 to 16:00 does. With
  45-minute bins only 09:00, 12:00 and 15:00 do. A bin wider than 480
  minutes leaves no column and so no tick.
- **Heatmap origin.** The heatmap counts its columns from 09:00 and its
  width from a fixed eight hours, whatever the window.
  - When the bin width does not divide 480, rows in the last partial bin
    pass the window filter but are dropped by the bounds check
    (`Heatmap.PartialColumnDropped`).
  - With an aligned configuration the bounds check never rejects a row
    (`Heatmap.BoundsCheckNeverRejects`).
- **No data.** The recommendation's "no data" outcome depends on every
  row, Sunday rows included. A log with Sunday rows only therefore yields
  a week of empty days, not "no data". Adding a Sunday row to a non-empty
  log changes nothing (`Recommend.SundayIgnored`).

## Model

| member | source | states |
|---|---|---|
| Rows.NormKey | recommend_week.py:26-28 | `safe_norm_key` keeps `None` as `None`, and otherwise gives a name with no upper-case ASCII letter and no whitespace at either end |
| Rows.NormKeyTolerant | recommend_week.py:26-28 | any number of leading BOMs and surrounding whitespace are dropped and the name lower-cased, whatever it holds inside, so `"﻿ Timestamp_UTC "` normalises to `timestamp_utc` |
| Rows.Lookup | recommend_week.py:39 | `row.get(key)` is the value of the last column carrying exactly that key, since `csv.DictReader` builds the row with `dict(zip(...))`, and `None` when no column carries it |
| Rows.LookupRepeatedHeader | recommend_week.py:66 | with `available` twice in the header, the second column's value is the one read |
| Rows.LastMatch | recommend_week.py:36-38 | finds the last position holding a given normalised name, and reports none exactly when no position holds it |
| Rows.FirstKeyed | recommend_week.py:40 | the first column with a non-`None` key: every earlier column is keyless, and none exists exactly when all are keyless |
| Rows.DictKeyNormsAt | recommend_week.py:32-35 | the keys `get_ts_from_row` walks are the row's distinct keys in first-occurrence order: a column names a dict key, with its normalised name, exactly when no earlier column carries the same key |
| Rows.NormIndexLastWins | recommend_week.py:32-36 | a normalised name is in the `norm` dict exactly when some dict key normalises to it, and it then maps to the last such dict key |
| Rows.TimestampOf | recommend_week.py:30-41 | the timestamp is the value under the last dict key normalising to `timestamp`, else to `timestamp_utc`, else under the first keyed column, else it is `None` |
| Rows.TimestampRepeatedHeader | recommend_week.py:30-41 | with the header `timestamp,Timestamp,timestamp` and the values `x,y,z` the timestamp read is `y`: the repeated `timestamp` keeps its first place in the dict, so `Timestamp` is the later key |
| Rows.ToIntOrZero | recommend_week.py:43-47 | a non-zero result is the integer that `int()` reads from the stripped value, so `None` and unreadable values give 0 |
| Rows.ToIntOrZeroPadded | recommend_week.py:43-47 | an integer written with surrounding whitespace reads back as that integer |
| Rows.ToIntOrZeroNonNumeric | recommend_week.py:43-47 | a value without any digit reads as 0 (the `except` branch) |
| Rows.LStripBoms | recommend_week.py:28 | `lstrip("﻿")` removes exactly the leading BOMs |
| Text.LowerAt | recommend_week.py:28 | `lower()` maps each character on its own and leaves no upper-case ASCII letter |
| Text.StripShape | recommend_week.py:28 | `strip()` returns a piece of the input with only whitespace around it and no whitespace at either end |
| Text.StripPadded | recommend_week.py:28 | stripping whitespace padding around a non-blank core gives the core back |
| Text.TrimStartShape | recommend_week.py:28 | removing leading whitespace leaves a suffix that starts with a non-space, and only whitespace was removed |
| Text.TrimEndShape | recommend_week.py:28 | removing trailing whitespace leaves a prefix that ends with a non-space, and only whitespace was removed |
| Text.ParseShowInt | recommend_week.py:45 | `int(str(n)) == n` for every integer, negative ones included |
| Text.SplitLines | logger_once.py:23 | no line returned by `splitlines()` contains a line boundary |
| Text.SplitJoin | logger_once.py:23 | `splitlines` inverts `"\n".join` on non-empty lines without line boundaries |
| Clock.InWindowByMinute | recommend_week.py:70 | for whole-minute bounds, the half-open `time()` window test depends only on the minute of the day |
| Clock.BinMinute | recommend_week.py:73 | the bin minute is a multiple of the bin width and holds the row's minute |
| Samples.Stamp | recommend_week.py:54-64 | a stamp exists only when the timestamp cell exists and is non-empty, and then it is what the `Localiser` makes of the cell |
| Samples.ReadRow | recommend_week.py:54-67 | a row with a readable timestamp yields that stamp and the `to_int_or_zero` of `available` and `total`, and any other row yields nothing |
| Samples.ReadRowsAt | recommend_week.py:53-67 | each row is read on its own |
| Samples.Normalise | recommend_week.py:66-75 | a read row is kept iff `total > 0` and its time lies in the window, and its record keeps the weekday, hour and `available` |
| Samples.NormaliseBin | recommend_week.py:73-75 | the record's bin starts on a multiple of the width and holds the row's minute |
| Samples.Records | recommend_week.py:50-75 | each record comes from some row, and there are none iff no row passes the filters |
| Samples.RecordsAppend | recommend_week.py:53-75 | the records of concatenated logs are the concatenated records |
| Samples.RecordsPermutation | recommend_week.py:53-75 | reordering the rows reorders the records and nothing else |
| Aggregation.Aggregate | recommend_week.py:85-89 | a bin is present iff some record fell in it, and then holds the number of its records and of those with `available >= 1` |
| Aggregation.AppendRecord | recommend_week.py:86-89 | one more record adds one to `n`, and one to `ok` on success, in its own bin, and changes no other bin |
| Aggregation.CellsBounded | recommend_week.py:85-89 | every present bin has `1 <= n` and `ok <= n` |
| Aggregation.OkHitsAtMostHits | recommend_week.py:89 | successes never outnumber samples |
| Aggregation.HitsAppend | recommend_week.py:86-89 | counts over concatenated records add up |
| Aggregation.HitsPermutation | recommend_week.py:86-89 | the counts of a bin depend only on the multiset of records |
| Aggregation.AggregateOrderIndependent | recommend_week.py:85-89 | the order of the records does not change the aggregate |
| Aggregation.DayBins | recommend_week.py:167 | `bins_data[wd]` holds exactly that weekday's bins, unchanged |
| Runs.ToMinOrdersLikeTuples | recommend_week.py:104-106 | `to_min` orders bins exactly like Python's tuple order on `(h, m)`, and is injective |
| Runs.MinSlot | recommend_week.py:104 | the earliest bin belongs to the set and comes no later than any member |
| Runs.SortedSlots | recommend_week.py:104 | `sorted(keys)` lists each bin of the set once, in strictly increasing time |
| Runs.SplitRuns | recommend_week.py:108-114 | the runs are non-empty and their concatenation is the key list. Neighbours inside a run are `step` apart, and adjacent runs are not |
| Runs.SplitRunsOrdered | recommend_week.py:104-114 | runs cut from sorted keys come in time order, and the last run ends with the last key |
| Runs.Prob | recommend_week.py:97 | a bin's rate lies in `[0, 1]` whenever `ok <= n` |
| Runs.ScoreRun | recommend_week.py:119-123 | an interval runs from the run's first bin to its last, and its `n` is the run's total sample count |
| Runs.WeightedIsPooled | recommend_week.py:120-122 | the sample-weighted sum of rates is the number of successes |
| Runs.Mediant | recommend_week.py:122 | pooling two ratios gives a value between them |
| Runs.PooledWithinMembers | recommend_week.py:119-122 | the pooled rate of a run lies between the lowest and the highest rate of its bins |
| Runs.WeightedWithinMembers | recommend_week.py:119-123 | the weighted rate is the pooled rate `ok / n` of the run, and lies between its bins' lowest and highest rates |
| Runs.WeightedAtLeast | recommend_week.py:99-122 | a run of bins each at or above a threshold scores at or above it |
| Runs.ScoreRuns | recommend_week.py:116-124 | every interval is the score of a run that is long enough and has samples, and there are at most as many intervals as runs |
| Runs.ScoreRunsComplete | recommend_week.py:116-124 | every kept run gets its interval |
| Runs.ScoredStartAfter | recommend_week.py:116-123 | an interval starts no earlier than its run |
| Runs.ScoreRunsOrdered | recommend_week.py:116-124 | runs in time order yield intervals in time order that do not overlap |
| Runs.ScoreRunsAtLeast | recommend_week.py:99-124 | scoring runs of bins at the threshold only yields intervals at the threshold |
| Ranking.Insert | recommend_week.py:158 | one insertion step adds exactly the new element |
| Ranking.InsertSorted | recommend_week.py:158 | insertion keeps the list sorted by `(wp, n)` descending |
| Ranking.InsertStable | recommend_week.py:158 | an element inserted later goes after the elements with the same key |
| Ranking.SortByRank | recommend_week.py:158 | `sort(key=(wp, n), reverse=True)` is a permutation, sorted descending, and stable: elements with equal keys keep their order |
| Ranking.Take | recommend_week.py:159 | Python's `s[:k]` is a prefix of the expected length, for negative `k` too |
| Ranking.TakeKeepsBest | recommend_week.py:158-159 | every element cut from a ranking ranks no higher than all the kept ones |
| Ranking.TopOfRankingCount | recommend_week.py:158-159 | the top `k` have the length Python's slice gives, and repeat no element more often than it was ranked |
| Ranking.TopOfRankingFrom | recommend_week.py:158-159 | the top `k` are drawn from the ranked elements |
| Recommend.Observed | recommend_week.py:93-98 | `probs` holds exactly the bins with samples, with their counters |
| Recommend.SafeKeys | recommend_week.py:93-100 | a bin is a safe key iff it has samples, its rate is at the threshold and it has enough samples |
| Recommend.RunsOf | recommend_week.py:104-114 | the runs partition the key set into maximal chains of neighbouring bins, in time order |
| Recommend.SafeRuns | recommend_week.py:99-114 | the runs of safe bins are made of safe keys only, in time order |
| Recommend.MergeAndScore | recommend_week.py:91-124 | `merge_and_score` returns intervals in time order that do not overlap, each the score of a long-enough run of safe bins |
| Recommend.MergedMeetThreshold | recommend_week.py:91-124 | every merged interval reaches the threshold |
| Recommend.MergedComplete | recommend_week.py:116-124 | every run of safe bins with at least `MIN_RUN_BINS` bins is reported |
| Recommend.MergedEmptyIff | recommend_week.py:101-124 | nothing is merged iff every run of safe bins is shorter than `MIN_RUN_BINS` |
| Recommend.Scored | recommend_week.py:128-156 | each fallback candidate is the score of a long-enough run of observed bins |
| Recommend.TopKRuns | recommend_week.py:126-159 | `top_k_runs` returns `min(k, number of scored runs)` intervals, ranked by `(wp, n)` descending. Each is the score of a long-enough observed run, and none appears more often than among the scored runs |
| Recommend.TopKAreBest | recommend_week.py:158-159 | each scored run left out ranks no higher than every run returned |
| Recommend.TopKEmptyIff | recommend_week.py:134-159 | for `k >= 1`, the fallback is empty iff every run of observed bins is shorter than `MIN_RUN_BINS` |
| Recommend.DayReportOf | recommend_week.py:166-186 | a "safe" day lists the ordered intervals of `merge_and_score`. A "best observed" day had nothing merged and lists the ranked intervals of `top_k_runs`. A day with nothing usable had neither, and reports the day's `total_measures` |
| Recommend.Measures | recommend_week.py:185 | `total_measures` is zero for a day without bins and counts at least every bin's samples |
| Recommend.SumOverSlots | recommend_week.py:185 | the sum of samples over a set of bins is any one bin's samples plus the sum over the others, whatever the order |
| Recommend.MeasuresBump | recommend_week.py:86-88 | one more sample in one bin, and no other change, adds one to `total_measures` |
| Recommend.MeasuresStep | recommend_week.py:86-88 | each record adds one to the `total_measures` of its weekday |
| Recommend.MeasuresCountsRecords | recommend_week.py:85-185 | `total_measures` of a weekday is the number of that weekday's records |
| Recommend.DayReportMeaning | recommend_week.py:166-186 | the day is reported safe iff some run of safe bins is long enough, and then every interval is at the threshold. It has nothing usable iff no run of observed bins is long enough either |
| Recommend.Recommend | recommend_week.py:77-186 | the report is "no data" iff no row passes the filters, and otherwise has one entry per weekday from Monday to Saturday, each the day report of that weekday's bins in the aggregate of all records |
| Recommend.RecommendOrderIndependent | recommend_week.py:50-89 | the report does not depend on the order of the rows |
| Recommend.DayBinsOtherDay | recommend_week.py:86-89 | a record only affects its own weekday's bins |
| Recommend.SundayIgnored | recommend_week.py:166 | a Sunday row added to a log that already has records changes nothing in the report |
| Recommend.SingleRun | recommend_week.py:108-114 | a single key forms a single run |
| Recommend.FallbackNoSafeRun | recommend_week.py:99-124 | with 09:00 at 1/2 and 09:15 at 1/1, nothing is merged |
| Recommend.FallbackObservedRun | recommend_week.py:137-156 | on that day the only observed run scores 2/3 over 3 samples |
| Recommend.FallbackDespiteSafeBin | recommend_week.py:168-183 | a day with a safe bin but no long-enough safe run is reported as "best observed" |
| Heatmap.SlotsPerDayCover | heatmap_week.py:25 | `SLOTS_PER_DAY` whole bins fit in eight hours, leaving less than one bin |
| Heatmap.HeatSlotHolds | heatmap_week.py:97-98 | a row's column is the bin, counted from 09:00, that holds its minute |
| Heatmap.HeatEntry | heatmap_week.py:75-104 | a row is counted iff it has a readable timestamp, `total > 0`, a time inside the window and a column inside the table. It is counted in its weekday's row and the column `minutes_since_start // BIN_MINUTES`, as a success iff `available >= 1` |
| Heatmap.BoundsCheckNeverRejects | heatmap_week.py:97-100 | when the window lies within 09:00–17:00 and the bin width divides 480, a row is counted iff it passes the `total` and window filters |
| Heatmap.PartialColumnDropped | heatmap_week.py:25 | with 7-minute bins, a row at 16:59 passes the window filter but falls in column 68, which the bounds check drops |
| Heatmap.Bump | heatmap_week.py:103-104 | one increment adds one measure, and one success if `a >= 1`, to one cell and leaves the others |
| Heatmap.ScanRows | heatmap_week.py:71-104 | the scan leaves a 7 × `SLOTS_PER_DAY` table, `rows_total` equal to the number of rows, and `rows_parsed` no larger |
| Heatmap.ScanCounters | heatmap_week.py:59-86 | `rows_total` counts every row, and `rows_parsed` every row whose timestamp was read |
| Heatmap.ScanCell | heatmap_week.py:71-104 | each cell holds the number of rows counted in it, and among them those with a free connector |
| Heatmap.CellConsistent | heatmap_week.py:103-104 | no cell has more successes than measures |
| Heatmap.Matrix | heatmap_week.py:107-113 | `M` is 6 × `SLOTS_PER_DAY`, defined exactly where the cell has measures, and then `M * n == ok` |
| Heatmap.HeatmapOf | heatmap_week.py:107-125 | the outcome carries both counters. It is "no usable data" iff the matrix built from the scanned table is all undefined, and otherwise it draws that matrix |
| Heatmap.MatrixBounded | heatmap_week.py:107-113 | every defined probability lies in `[0, 1]` |
| Heatmap.NoUsableDataIff | heatmap_week.py:116 | "no usable data" is reported iff no row is counted on a Monday-to-Saturday cell |
| Heatmap.CountedMeansDefined | heatmap_week.py:103-113 | a counted Monday-to-Saturday row makes its cell defined |
| Heatmap.DefinedMeansCounted | heatmap_week.py:103-116 | a defined cell has a row behind it |
| Heatmap.TicksFrom | heatmap_week.py:145-151 | the ticks are in column order, and each marks a column that starts on a whole hour, with hour `9 + minutes // 60` |
| Heatmap.TicksComplete | heatmap_week.py:145-151 | every column that starts on a whole hour gets a tick |
| Heatmap.HourTicks | heatmap_week.py:143-151 | every tick marks a whole-hour column and is labelled with an hour from 9 to 16 |
| Heatmap.TicksStopBeforeSeventeen | heatmap_week.py:142-151 | no tick is labelled 17:00 for any bin width, and with 15-minute bins column 28 is labelled 16:00 |
| Heatmap.Label | heatmap_week.py:151 | the tick label is two digits that read back as the hour, followed by `:00` |
| Agreement.ColumnSlot | heatmap_week.py:97-98 | heatmap column `s` starts `s` bins after 09:00 |
| Agreement.ColumnOfBin | heatmap_week.py:97-98 | for an aligned binning, a row's column and its recommendation bin start at the same minute |
| Agreement.RowAgrees | heatmap_week.py:88-104 | with aligned settings, a row is counted in a heatmap column iff it becomes a record in the matching recommendation bin, with the same success |
| Agreement.ColumnCounts | heatmap_week.py:71-104 | a heatmap cell holds the recommendation's sample and success counts for the matching bin |
| Agreement.HeatmapAgreesWithRecommend | heatmap_week.py:103-104 | a heatmap cell equals the recommendation's aggregate for that bin, or is empty when the bin was never seen |
| Agreement.MatrixAgreesWithDayBins | heatmap_week.py:107-113 | from Monday to Saturday, `M` is defined exactly on the recommendation's observed bins, with the same rate |
| Connectors.Clean | logger_once.py:23 | every line the comprehension keeps is non-empty, and there are no more lines than pieces |
| Connectors.CleanOne | logger_once.py:23 | a single piece is kept in its stripped form, unless it strips to nothing |
| Connectors.CleanAppend | logger_once.py:23 | the pieces of two texts clean to the two cleaned lists, one after the other |
| Connectors.CleanLines | logger_once.py:23 | every cleaned line is non-empty, has no surrounding whitespace and no line boundary |
| Connectors.CleanKeepsCleanLines | logger_once.py:23 | cleaning already clean lines leaves them as they are |
| Connectors.CleanLinesIdempotent | logger_once.py:23 | cleaning the joined cleaned lines gives the same lines |
| Connectors.Type2LinesStep | logger_once.py:26-30 | one loop step adds the current line to the TYPE 2 lines, and to the free ones, exactly when it qualifies |
| Connectors.FreeAtMostAll | logger_once.py:27-30 | every free TYPE 2 line is a TYPE 2 line |
| Connectors.ExtractType2Counts | logger_once.py:22-33 | the result is the error `Aucun connecteur TYPE 2 détecté.` iff no line reads `TYPE 2`. Otherwise it is `(free, all)`: `all` counts the TYPE 2 lines, `free` those whose next line contains `disponible`, and `1 <= all` with `free <= all` |

## Left out

- File I/O, `csv.DictReader` and the missing-CSV branch of the heatmap are left out. The model starts from rows as sequences of columns, where a surplus field has a `None` key.
- Timestamp parsing and time zones are not modelled. `str.replace("Z", "+00:00")`, `datetime.fromisoformat`, the naive-as-UTC rule and `astimezone(Europe/Paris)` are outside it, because they are library code. They are the `Localiser` parameter, and daylight-saving folds are left to it.
- `datetime.now`, the report header and the `print` formatting are left out: they are output only. This includes `round(p*100)`, `fmt_hm` and the weekday names.
- Plotting, PNG output and the weekly archive copy are left out: they are rendering and file I/O.
- `Samples.Stamp`: Python's truthiness test on the timestamp cell is modelled for strings only; other cell types cannot occur once the CSV is read.
- `Runs.Prob`: rates are exact rationals. IEEE-754 rounding of `ok / n` and of the weighted sum is not modelled, so a float comparison `p >= 0.8` that rounds differently is out of scope.
- `Text.ParseShowInt`: `int()` is modelled for ASCII digits with an optional sign. Underscores between digits and non-ASCII decimal digits, which Python also accepts, are left out, so `to_int_or_zero` reads such a cell as 0 where Python reads a number.
- `Text.Lower` and `Text.Upper` map ASCII letters only, where Python maps every cased character. The tests the scripts make still come out the same. A non-ASCII character only maps to something holding ASCII letters in a few cases. Upper-casing sends `ı` to `I`, `ſ` to `S`, `ß` to `SS`, ligatures such as `ﬁ` to `FI` or `ﬅ` to `ST`, and a few letters such as `ẗ` or `ẙ` to an ASCII letter followed by a combining mark. Lower-casing sends the Kelvin sign to `k` and `İ` to `i` followed by a combining dot. None of the all-ASCII results is a piece of `TYPE 2`. A combining mark never belongs to `TYPE 2`, `disponible`, `timestamp` or `timestamp_utc`. So for every line and header, the `TYPE 2` test, the `disponible` test and the header names come out in Python as in the model.
- `Heatmap.Label`: only two-digit hours are formatted. Every hour the ticks use lies between 9 and 16.
- The Playwright scraping, the CSV header creation and the row write of `logger_once.py` are left out. They are browser automation and file I/O; only `extract_type2_counts` is modelled.
