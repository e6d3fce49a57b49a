# Seasonal period classifier — a Dafny model

This project models the classification core of `scripts/classify_dates.py`.
The script reads a table of dated environmental samples (Year, Month, Day
and measurements such as Chla, Temperature and Phosphate) and works in two steps:

1. `addJulDay` gives every sample a `JulianDay` column: the 1-based day of
   its date within its own year, in the proleptic Gregorian calendar.
2. `match_ranges` classifies each sample into a seasonal *period* (Spring,
   Clear, Summer, Autumn, Winter). A sample gets period P when it lies in
   P's inclusive `[low, high]` range on *every* classification key.
   Samples that match no period are "Unknown". So are samples that match
   two or more periods. The script returns only the samples that received
   a period. It also writes the Period column in place on the caller's table.

Modules:

- `Calendar` (calendar.dfy): leap years, month lengths, date validity and
  day-of-year. It replaces `datetime.date(...).timetuple().tm_yday`. It also
  has the inverse map from a day number back to (month, day) and proves
  that the numbering keeps calendar order.
- `Metadata` (metadata.dfy): the table. A sample has an id and numeric
  cells by column, and a cell may be NaN. The module also holds the error
  datatype for the script's exceptions.
- `JulianDay` (julian_day.dfy): `addJulDay`. It is a loop that fills a
  dictionary from sample id to day of year. Its result is then joined to
  the table as a new column.
- `RangeMatch` (range_match.dfy): `match_ranges`. Each key of a period
  resolves to a column and a range. For "Date", the period's Month/Day
  bounds become days of 2012, and JulianDay is compared against them.
  `CollectMatches` builds the per-key candidate list and keeps the rows
  named once per key. The class `Table` carries the Period column, and
  `MatchRanges` updates it in place. The periods are visited in an arbitrary
  order, just as dictionary order is arbitrary, and the contract holds for
  every order: the result is pinned down by a deterministic specification,
  `Classify`.
- `DefaultRanges` (default_ranges.dfy): the script's module-level range
  table and period order, and the keys its entry point uses. It also holds
  facts about that table.

Behaviour kept as the code has it:

- Date bounds are numbered in 2012, a leap year. April 5 is therefore day
  96, not 95 as a common-year reading would give. The model follows the
  code.
- A sample's own JulianDay is numbered in its own year. After February, a
  common-year sample therefore lands one day earlier than the bounds
  assume (`Calendar.LeapShift`, `DefaultRanges.SpringOpeningDay`).
- A key missing from a period raises in the middle of the loop over
  periods. It is not caught before evaluation. By then the Period column
  may already be partly written.
- A Date key reads the JulianDay column. If that column is absent, the
  lookup fails (`MissingColumn("JulianDay")`).

## Model

| member | source | states |
|---|---|---|
| `Calendar.IsLeapYear` | scripts/classify_dates.py:57-59 | the Gregorian leap rule: only years divisible by 4 are leap years, and century years only when divisible by 400 |
| `Calendar.DaysInYear` | scripts/classify_dates.py:57-59 | a year has 365 or 366 days |
| `Calendar.DaysInMonth` | scripts/classify_dates.py:57-59 | months have 28 to 31 days; 29 only for February of a leap year |
| `Calendar.DaysBeforeMonthIsSum` | scripts/classify_dates.py:57-59 | the cumulative month table equals the month lengths added up one by one |
| `Calendar.YearLength` | scripts/classify_dates.py:57-59 | the twelve months add up to the length of the year |
| `Calendar.YearDay` | scripts/classify_dates.py:57-59 | a valid date's day of year lies in 1..DaysInYear and equals the earlier months' days plus the day |
| `Calendar.DayOfYear` | scripts/classify_dates.py:57-59 | defined exactly for dates `datetime.date` accepts (year 1..9999, month 1..12, day within the month), with a value in 1..DaysInYear equal to the earlier months' days plus the day (`tm_yday`); None where the constructor raises |
| `Calendar.YearDayOrder` | scripts/classify_dates.py:31-37 | day-of-year numbering preserves and reflects calendar order, and is injective, within a year |
| `Calendar.MonthDayFrom` | scripts/classify_dates.py:57-59 | searching from month m finds a valid (month, day) at or after m whose day of year is n |
| `Calendar.MonthDay` | scripts/classify_dates.py:57-59 | every day number 1..DaysInYear is the day of year of some valid date |
| `Calendar.YearDayRoundTrip` | scripts/classify_dates.py:57-59 | MonthDay inverts YearDay on every valid date |
| `Calendar.YearDayLandmarks` | scripts/classify_dates.py:57-59 | Jan 1 is day 1, Dec 31 is day 365/366, Feb 29 of a leap year is day 60, Mar 1 is 60/61 |
| `Calendar.LeapShift` | scripts/classify_dates.py:57 | a date after February is one day later in a leap year than in a common year; Jan/Feb dates agree |
| `JulianDay.Truncate` | scripts/classify_dates.py:57 | `int()` of a float truncates toward zero |
| `JulianDay.IntCell` | scripts/classify_dates.py:56-57 | `int(r.<column>)` succeeds exactly when the cell is present and not NaN, with the truncated value; otherwise it raises for that sample and column |
| `JulianDay.RowDayOfYear` | scripts/classify_dates.py:56-59 | a row gets a day of year exactly when Year, Month and Day are present, non-NaN and, truncated, form a valid date; the value is in 1..366 and equals the earlier months' days plus the day |
| `JulianDay.WithJulianDay` | scripts/classify_dates.py:60-62 | the joined row keeps its id and every cell and gains JulianDay |
| `JulianDay.AddJulianDay` | scripts/classify_dates.py:52-63 | succeeds exactly when every row's date is readable and valid (via `RowDayOfYear`); then returns every row with its own day of year added; otherwise fails with the first failing row's error |
| `RangeMatch.BoundDay` | scripts/classify_dates.py:31-36 | a Date bound succeeds exactly when (2012, month, day), each truncated as the `date` constructor reads a float, is a valid date; it is then that date's day of year, and otherwise the period's bound raises |
| `RangeMatch.ResolveKey` | scripts/classify_dates.py:30-41 | a measurement key compares its own column against the period's range and fails when the period or the table lacks it; Date succeeds exactly when the period has Month and Day ranges, both bound dates are valid and the table has JulianDay, and then compares JulianDay against the two bound days; its errors come in the lookup order Month range, Day range, bound date, JulianDay column |
| `RangeMatch.DateCriterion` | scripts/classify_dates.py:30-37 | a Date range of whole months and days resolves to the days of year in 2012 of its two ends |
| `RangeMatch.MeasurementHit` | scripts/classify_dates.py:38-41 | on a measurement key a sample hits exactly when its cell lies in the inclusive range (NaN never does) |
| `RangeMatch.DateHit` | scripts/classify_dates.py:37 | on Date a sample hits exactly when its JulianDay lies in the window |
| `RangeMatch.HitCountFull` | scripts/classify_dates.py:42-43 | a row is listed at most once per key, and exactly once per key precisely when every key hits |
| `RangeMatch.CollectMatches` | scripts/classify_dates.py:28-43 | returns exactly the rows that lie in the period's range on every key (none when there are no keys), or the error of the first key that cannot be looked up |
| `RangeMatch.ClassifyCases` | scripts/classify_dates.py:42-49 | Unclassified iff no period matches; MatchedTo(p) iff p is the one matching period; Ambiguous iff two distinct periods match |
| `RangeMatch.LabelIsUnknownOrPeriod` | scripts/classify_dates.py:25-49 | the final Period is "Unknown" or the name of a period of the table |
| `RangeMatch.EmptyKeysClassifyNothing` | scripts/classify_dates.py:28-43 | with an empty key list no sample gets a period |
| `RangeMatch.OneMissedKeyExcludes` | scripts/classify_dates.py:29-43 | failing a single key excludes the sample from that period |
| `RangeMatch.InvertedDateRangeMatchesNothing` | scripts/classify_dates.py:30-37 | a Date window whose start day is after its end day admits no sample |
| `RangeMatch.LeapYearDateHit` | scripts/classify_dates.py:30-37 | for a leap-year sample, the Date key holds iff its (month, day) lies between the bound dates in calendar order |
| `RangeMatch.Classify` | scripts/classify_dates.py:42-49 | a sample is assigned a period only if that period is in the table and the sample matches it on every key |
| `RangeMatch.Label` | scripts/classify_dates.py:44-49 | the Period text is the matched period's name, and "Unknown" for no match or several |
| `RangeMatch.KeptPositions` | scripts/classify_dates.py:50 | the positions of the rows whose Period is one of the names, strictly increasing, covering every such row and no other |
| `RangeMatch.Retained` | scripts/classify_dates.py:50 | the returned rows are the rows whose Period is a period name, once each and in table order, each with its Period |
| `RangeMatch.RetainedMembers` | scripts/classify_dates.py:50 | every returned row has a period name, and every row with a period name is returned |
| `RangeMatch.MatchingInExtend` | scripts/classify_dates.py:42-46 | evaluating one more period adds it to a sample's matches, and one to its count, exactly when the sample matches it |
| `RangeMatch.ProgressStep` | scripts/classify_dates.py:27-46 | assigning a period to exactly its matching rows keeps counts equal to the number of matched periods and Period one of them |
| `RangeMatch.ProgressFinal` | scripts/classify_dates.py:47-49 | after all periods, resetting rows counted more than once gives every row the label of its classification |
| `RangeMatch.Table.Assign` | scripts/classify_dates.py:42-46 | writes the period into exactly the matched rows and adds one to exactly their counts |
| `RangeMatch.Table.ResetConflicts` | scripts/classify_dates.py:47-49 | sets exactly the rows counted more than once back to "Unknown" |
| `RangeMatch.Table.EvaluatePeriods` | scripts/classify_dates.py:27-46 | fails iff some period has a key that cannot be looked up; otherwise every period has been evaluated, with counts and Period kept consistent |
| `RangeMatch.Table.MatchRanges` | scripts/classify_dates.py:24-50 | fails iff some period has a key that cannot be looked up (range, bound date or column); otherwise every row's Period in place is the label of its order-independent classification and the result is exactly the rows with a period name; rows and columns are unchanged |
| `DefaultRanges.Ranges` | scripts/classify_dates.py:14-18 | the `ranges` table has exactly the five periods, and each defines Month, Day, Temperature, Chla and Phosphate ranges |
| `DefaultRanges.RangesLookup` | scripts/classify_dates.py:14-18 | lookup helper: reads each period's definition back out of the table literal |
| `DefaultRanges.MeasurementRanges` | scripts/classify_dates.py:14-18 | lookup helper: reads each period's Chla, Temperature and Phosphate ranges back out of the table literal |
| `DefaultRanges.OrderListsEveryPeriodOnce` | scripts/classify_dates.py:14-20 | `order` (`ORDER`) lists each period of the table exactly once |
| `DefaultRanges.SpringWindow` | scripts/classify_dates.py:14 | Spring's Date window is days 96..116 |
| `DefaultRanges.ClearWindow` | scripts/classify_dates.py:15 | Clear's Date window spans months: April 27 to June 10, days 118..162 |
| `DefaultRanges.SummerWindow` | scripts/classify_dates.py:16 | Summer's Date window is days 167..238 |
| `DefaultRanges.AutumnWindow` | scripts/classify_dates.py:17 | Autumn's Date window is days 254..299 |
| `DefaultRanges.WinterWindow` | scripts/classify_dates.py:18 | Winter's Date window is days 11..56 |
| `DefaultRanges.MainKeysResolve` | scripts/classify_dates.py:86 | with the entry point's keys (`MAIN_KEYS`: Chla, Temperature, Phosphate), no period lacks a key, so only a missing column can make matching fail |
| `DefaultRanges.DateHitWindow` | scripts/classify_dates.py:14-18 | a Date hit puts JulianDay in that period's window |
| `DefaultRanges.DateWindowsNeverOverlap` | scripts/classify_dates.py:24 | matching on the default key list (`DEFAULT_KEYS`, Date alone), no sample is ambiguous |
| `DefaultRanges.OnlySpringAdmitsChlaTen` | scripts/classify_dates.py:14-18 | only Spring admits a Chla of 10 |
| `DefaultRanges.MatchesOnMainKeys` | scripts/classify_dates.py:86 | a period matches when Chla, Temperature and Phosphate all lie in its ranges |
| `DefaultRanges.SpringSample` | scripts/classify_dates.py:14-18 | Chla 10, Temperature 4, Phosphate 0.3 is classified Spring |
| `DefaultRanges.ClearSummerOverlap` | scripts/classify_dates.py:15-16 | Chla 1, Temperature 10, Phosphate 0.3 matches both Clear and Summer and so ends "Unknown" |
| `DefaultRanges.SpringOpeningDay` | scripts/classify_dates.py:31-37 | April 5 hits Spring's Date window in a leap year and misses it in a common year |

## Left out

- `main` (scripts/classify_dates.py:65-95): argument parsing, reading the tab-separated file, stripping header whitespace and writing the Period column to standard output are I/O. The `Table` constructor stands in for the table that was read.
- Plotting (scripts/classify_dates.py:10-11, 22, 91-95): boxplots and font settings are calls into a plotting library.
- The `--rangedef` option (scripts/classify_dates.py:72-73): declared but not implemented, so there is no behaviour to model.
- `defvars` (scripts/classify_dates.py:21): defined but never used.
- Index labels: rows are addressed by position, and ids are assumed distinct (`DistinctIds`, `Table.Valid`). With duplicate index labels, pandas would update or count several rows at once.
- Column order: columns are a set, so the position of the appended JulianDay column is not modelled.
- JulianDay.AddJulianDay: the join keeps the input row order. pandas builds the day-of-year frame from a dictionary and aligns the two indexes, so it may return the rows sorted by id instead when the input is not already in id order.
- An input that already has a JulianDay column: the model replaces it, where pandas would keep two columns of that name.
- Exception classes: KeyError, ValueError and AttributeError are not told apart; the error value names the offending sample, period, key or column instead.
- Number types: cells and bounds are exact reals. Binary floating-point rounding of literals such as 0.1 and 0.35 is not modelled. A Month/Day bound is truncated toward zero, as the `date` constructor of Python 2 reads a float argument (it also warns, which is not modelled).
- RangeMatch.Table.MatchRanges: on failure, the contract states only that every Period is "Unknown" or a period name. It does not say which periods were written before the failing one, because that depends on dictionary order.
- RangeMatch.Table.MatchRanges: when several periods lack keys, the contract says only that the error comes from one of them. Which one is raised depends on dictionary order.
