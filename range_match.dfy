/**
 * match_ranges: classify every sample into the one period whose ranges it
 * satisfies on all the given keys, mark it "Unknown" when it satisfies none
 * or more than one, and return the samples that received a period.
 */
module RangeMatch {
  import opened Wrappers
  import opened Metadata
  import Calendar
  import opened JulianDay

  const UNKNOWN := "Unknown"
  const DATE_KEY := "Date"
  /** The (leap) year in which a period's Month/Day bounds are turned into days of year. */
  const BOUNDARY_YEAR := 2012

  /** An inclusive range (low, high). */
  datatype Bounds = Bounds(low: real, high: real)

  /** One period of the range table: its range for each key. */
  type PeriodDef = map<string, Bounds>

  /** The range table: period name to its ranges. */
  type RangeTable = map<string, PeriodDef>

  /** What one key of one period compares: a column of the table against a range. */
  datatype Criterion = Criterion(column: string, bounds: Bounds)

  /**
   * `datetime.date(2012, month, day).timetuple().tm_yday` for one end of a
   * Date range. The Python 2 `date` constructor reads a float argument as
   * `int()` does, so each bound is truncated toward zero before the date is
   * checked.
   */
  function BoundDay(period: string, month: real, day: real): (r: Result<int, Error>)
    ensures r.Ok? <==> Calendar.ValidDate(BOUNDARY_YEAR, Truncate(month), Truncate(day))
    ensures r.Ok? ==> 1 <= r.value <= 366
    ensures r.Ok? ==> r.value == Calendar.MonthsLength(BOUNDARY_YEAR, Truncate(month)) + Truncate(day)
    ensures r.Err? ==> r.error == InvalidBoundDate(period)
  {
    match Calendar.DayOfYear(BOUNDARY_YEAR, Truncate(month), Truncate(day))
    case Some(n) => Ok(n)
    case None => Err(InvalidBoundDate(period))
  }

  /**
   * The column and range that `key` compares for `period`, or the exception
   * raised while looking them up. "Date" reads the Month and Day ranges,
   * turns both ends into days of BOUNDARY_YEAR and compares JulianDay.
   */
  function ResolveKey(period: string, def: PeriodDef, key: string, columns: set<string>): (r: Result<Criterion, Error>)
    ensures r.Ok? ==> r.value.column in columns
    ensures key != DATE_KEY ==> (r.Ok? <==> key in def && key in columns)
    ensures key != DATE_KEY && r.Ok? ==> r.value == Criterion(key, def[key])
    ensures key == DATE_KEY && r.Ok? ==>
      && MONTH in def && DAY in def
      && var start, end := BoundDay(period, def[MONTH].low, def[DAY].low), BoundDay(period, def[MONTH].high, def[DAY].high);
         start.Ok? && end.Ok? && r.value == Criterion(JULIAN_DAY, Bounds(start.value as real, end.value as real))
    ensures r.Err? && key in def && key != DATE_KEY ==> r.error == MissingColumn(key)
    ensures key == DATE_KEY ==>
      (r.Ok? <==>
        && MONTH in def && DAY in def
        && BoundDay(period, def[MONTH].low, def[DAY].low).Ok?
        && BoundDay(period, def[MONTH].high, def[DAY].high).Ok?
        && JULIAN_DAY in columns)
    ensures key == DATE_KEY && MONTH !in def ==> r == Err(MissingRange(period, MONTH))
    ensures key == DATE_KEY && MONTH in def && DAY !in def ==> r == Err(MissingRange(period, DAY))
    ensures key == DATE_KEY && MONTH in def && DAY in def &&
      (BoundDay(period, def[MONTH].low, def[DAY].low).Err? || BoundDay(period, def[MONTH].high, def[DAY].high).Err?)
      ==> r == Err(InvalidBoundDate(period))
    ensures key == DATE_KEY && MONTH in def && DAY in def && JULIAN_DAY !in columns &&
      BoundDay(period, def[MONTH].low, def[DAY].low).Ok? && BoundDay(period, def[MONTH].high, def[DAY].high).Ok?
      ==> r == Err(MissingColumn(JULIAN_DAY))
    ensures r.Err? && key !in def && key != DATE_KEY ==> r.error == MissingRange(period, key)
  {
    if key == DATE_KEY then
      if MONTH !in def then Err(MissingRange(period, MONTH))
      else if DAY !in def then Err(MissingRange(period, DAY))
      else
        var start :- BoundDay(period, def[MONTH].low, def[DAY].low);
        var end :- BoundDay(period, def[MONTH].high, def[DAY].high);
        if JULIAN_DAY !in columns then Err(MissingColumn(JULIAN_DAY))
        else Ok(Criterion(JULIAN_DAY, Bounds(start as real, end as real)))
    else if key !in def then Err(MissingRange(period, key))
    else if key !in columns then Err(MissingColumn(key))
    else Ok(Criterion(key, def[key]))
  }

  /** A Date range given by whole months and days turns into the days of year of its two ends. */
  lemma DateCriterion(period: string, def: PeriodDef, columns: set<string>, m0: int, d0: int, m1: int, d1: int)
    requires MONTH in def && def[MONTH] == Bounds(m0 as real, m1 as real)
    requires DAY in def && def[DAY] == Bounds(d0 as real, d1 as real)
    requires Calendar.ValidMonthDay(BOUNDARY_YEAR, m0, d0) && Calendar.ValidMonthDay(BOUNDARY_YEAR, m1, d1)
    requires JULIAN_DAY in columns
    ensures ResolveKey(period, def, DATE_KEY, columns) ==
      Ok(Criterion(JULIAN_DAY, Bounds(Calendar.YearDay(BOUNDARY_YEAR, m0, d0) as real,
                                      Calendar.YearDay(BOUNDARY_YEAR, m1, d1) as real)))
  {
    assert Truncate(m0 as real) == m0 && Truncate(d0 as real) == d0;
    assert Truncate(m1 as real) == m1 && Truncate(d1 as real) == d1;
  }

  /** `low <= v <= high`; a NaN cell compares false. */
  predicate InBounds(v: Value, b: Bounds) {
    v.Num? && b.low <= v.x <= b.high
  }

  predicate Satisfies(x: Sample, c: Criterion) {
    c.column in x.cells && InBounds(x.cells[c.column], c.bounds)
  }

  /** Sample `x` lies in `period`'s range for `key`. */
  predicate Hit(x: Sample, period: string, def: PeriodDef, key: string, columns: set<string>) {
    var c := ResolveKey(period, def, key, columns);
    c.Ok? && Satisfies(x, c.value)
  }

  /** On a measurement key, a period's range is used as written and compared with that column. */
  lemma MeasurementHit(x: Sample, period: string, def: PeriodDef, key: string, columns: set<string>)
    requires key != DATE_KEY && key in def && key in columns
    ensures Hit(x, period, def, key, columns) <==> key in x.cells && InBounds(x.cells[key], def[key])
  {
  }

  /** On the Date key, a sample hits exactly when its JulianDay lies in the period's window. */
  lemma DateHit(x: Sample, period: string, def: PeriodDef, columns: set<string>, window: Bounds)
    requires ResolveKey(period, def, DATE_KEY, columns) == Ok(Criterion(JULIAN_DAY, window))
    ensures Hit(x, period, def, DATE_KEY, columns) <==> JULIAN_DAY in x.cells && InBounds(x.cells[JULIAN_DAY], window)
  {
  }

  /** Every key of the list can be looked up for `period`. */
  predicate KeysResolve(period: string, def: PeriodDef, keys: seq<string>, columns: set<string>) {
    forall k :: 0 <= k < |keys| ==> ResolveKey(period, def, keys[k], columns).Ok?
  }

  /** `e` is what the first key that cannot be looked up for `period` raises. */
  predicate FirstKeyError(e: Error, period: string, def: PeriodDef, keys: seq<string>, columns: set<string>) {
    exists k :: 0 <= k < |keys| && ResolveKey(period, def, keys[k], columns) == Err(e) &&
      KeysResolve(period, def, keys[..k], columns)
  }

  /** The sample lies in `period`'s range on every key, and there is at least one key. */
  predicate MatchesPeriod(x: Sample, period: string, def: PeriodDef, keys: seq<string>, columns: set<string>) {
    |keys| > 0 && forall k :: 0 <= k < |keys| ==> Hit(x, period, def, keys[k], columns)
  }

  /** How many times the per-key candidate lists of `period` name the sample. */
  function HitCount(x: Sample, period: string, def: PeriodDef, keys: seq<string>, columns: set<string>): nat
    decreases |keys|
  {
    if keys == [] then 0
    else
      HitCount(x, period, def, keys[..|keys| - 1], columns) +
      (if Hit(x, period, def, keys[|keys| - 1], columns) then 1 else 0)
  }

  /** A sample is named once per key at most, so it is named `|keys|` times exactly when every key hits. */
  lemma {:induction false} HitCountFull(x: Sample, period: string, def: PeriodDef, keys: seq<string>, columns: set<string>)
    ensures HitCount(x, period, def, keys, columns) <= |keys|
    ensures HitCount(x, period, def, keys, columns) == |keys| <==>
              forall k :: 0 <= k < |keys| ==> Hit(x, period, def, keys[k], columns)
    decreases |keys|
  {
    if keys != [] {
      var init := keys[..|keys| - 1];
      HitCountFull(x, period, def, init, columns);
      assert forall k :: 0 <= k < |init| ==> init[k] == keys[k];
    }
  }

  /**
   * The candidate step for one period: for each key in turn, append to a list
   * every row whose value lies in the range; then keep the rows the list names
   * once per key. A key that cannot be looked up raises.
   */
  method CollectMatches(samples: seq<Sample>, columns: set<string>, period: string, def: PeriodDef, keys: seq<string>)
    returns (r: Result<set<nat>, Error>)
    ensures r.Ok? <==> KeysResolve(period, def, keys, columns)
    ensures r.Err? ==> FirstKeyError(r.error, period, def, keys, columns)
    ensures r.Ok? ==>
      r.value == set s: nat | s < |samples| && MatchesPeriod(samples[s], period, def, keys, columns)
  {
    var hits: seq<int> := [];
    for ki := 0 to |keys|
      invariant KeysResolve(period, def, keys[..ki], columns)
      invariant forall j :: 0 <= j < |hits| ==> 0 <= hits[j] < |samples|
      invariant forall s :: 0 <= s < |samples| ==>
        multiset(hits)[s] == HitCount(samples[s], period, def, keys[..ki], columns)
    {
      var c := ResolveKey(period, def, keys[ki], columns);
      if c.Err? {
        assert FirstKeyError(c.error, period, def, keys, columns);
        return Err(c.error);
      }
      ghost var before := hits;
      for s := 0 to |samples|
        invariant forall j :: 0 <= j < |hits| ==> 0 <= hits[j] < |samples|
        invariant forall t :: 0 <= t < |samples| ==>
          multiset(hits)[t] == multiset(before)[t] + (if t < s && Satisfies(samples[t], c.value) then 1 else 0)
      {
        if Satisfies(samples[s], c.value) {
          hits := hits + [s];
        }
      }
      assert keys[..ki + 1][..ki] == keys[..ki];
    }
    assert keys[..|keys|] == keys;
    var matched := set s: nat | s in hits && multiset(hits)[s] == |keys|;
    forall s: nat
      ensures s in matched <==> s < |samples| && MatchesPeriod(samples[s], period, def, keys, columns)
    {
      if s < |samples| {
        HitCountFull(samples[s], period, def, keys, columns);
      }
    }
    return Ok(matched);
  }

  /** The periods among `names` whose ranges the sample satisfies on every key. */
  function MatchingIn(x: Sample, names: set<string>, ranges: RangeTable, keys: seq<string>, columns: set<string>): set<string> {
    set p | p in names && p in ranges && MatchesPeriod(x, p, ranges[p], keys, columns)
  }

  function MatchingPeriods(x: Sample, ranges: RangeTable, keys: seq<string>, columns: set<string>): set<string> {
    MatchingIn(x, ranges.Keys, ranges, keys, columns)
  }

  /** Before it is written into the Period column, a classification tells "none" from "several". */
  datatype Outcome = Unclassified | Ambiguous | MatchedTo(name: string)

  /** The classification the whole range table gives one sample, whatever the order of its periods. */
  ghost function Classify(x: Sample, ranges: RangeTable, keys: seq<string>, columns: set<string>): (o: Outcome)
    ensures o.MatchedTo? ==> o.name in ranges && MatchesPeriod(x, o.name, ranges[o.name], keys, columns)
  {
    var m := MatchingPeriods(x, ranges, keys, columns);
    if m == {} then Unclassified
    else if |m| == 1 then (var p :| p in m; MatchedTo(p))
    else Ambiguous
  }

  /** The Period column's text for an outcome: none and several both read "Unknown". */
  function Label(o: Outcome): (l: string)
    ensures o.MatchedTo? ==> l == o.name
    ensures !o.MatchedTo? ==> l == UNKNOWN
  {
    match o
    case MatchedTo(name) => name
    case _ => UNKNOWN
  }

  lemma SingletonMember(m: set<string>, p: string, q: string)
    requires |m| == 1 && p in m && q in m
    ensures p == q
  {
    assert |m - {p}| == 0;
    assert q in m - {p} || q == p;
  }

  /**
   * A sample is Unclassified exactly when no period matches it, MatchedTo(p)
   * exactly when p is the one period that matches it, and Ambiguous exactly
   * when two different periods match it.
   */
  lemma ClassifyCases(x: Sample, ranges: RangeTable, keys: seq<string>, columns: set<string>)
    ensures Classify(x, ranges, keys, columns) == Unclassified <==>
      forall p :: p in ranges ==> !MatchesPeriod(x, p, ranges[p], keys, columns)
    ensures forall p :: Classify(x, ranges, keys, columns) == MatchedTo(p) <==>
      && p in ranges && MatchesPeriod(x, p, ranges[p], keys, columns)
      && forall q :: q in ranges && MatchesPeriod(x, q, ranges[q], keys, columns) ==> q == p
    ensures Classify(x, ranges, keys, columns) == Ambiguous <==>
      exists p, q :: p in ranges && q in ranges && p != q &&
        MatchesPeriod(x, p, ranges[p], keys, columns) && MatchesPeriod(x, q, ranges[q], keys, columns)
  {
    var m := MatchingPeriods(x, ranges, keys, columns);
    forall p | p in ranges && MatchesPeriod(x, p, ranges[p], keys, columns) ensures p in m { }
    if |m| == 1 {
      var c := Classify(x, ranges, keys, columns).name;
      assert c in m;
      forall q | q in m ensures q == c { SingletonMember(m, c, q); }
    } else if |m| > 1 {
      var p :| p in m;
      assert |m - {p}| == |m| - 1;
      var q :| q in m - {p};
      assert p in ranges && q in ranges && p != q;
    }
  }

  /** The Period a sample ends with is "Unknown" or the name of a period of the table. */
  lemma LabelIsUnknownOrPeriod(x: Sample, ranges: RangeTable, keys: seq<string>, columns: set<string>)
    ensures Label(Classify(x, ranges, keys, columns)) == UNKNOWN ||
            Label(Classify(x, ranges, keys, columns)) in ranges
  {
    ClassifyCases(x, ranges, keys, columns);
  }

  /** With no keys, the candidate list is empty and no sample is ever given a period. */
  lemma EmptyKeysClassifyNothing(x: Sample, ranges: RangeTable, columns: set<string>)
    ensures Classify(x, ranges, [], columns) == Unclassified
  {
    ClassifyCases(x, ranges, [], columns);
  }

  /** Failing a single key of a period excludes the sample from that period. */
  lemma OneMissedKeyExcludes(x: Sample, period: string, def: PeriodDef, keys: seq<string>, columns: set<string>, k: int)
    requires 0 <= k < |keys| && !Hit(x, period, def, keys[k], columns)
    ensures !MatchesPeriod(x, period, def, keys, columns)
  {
  }

  /** A Date range whose first day comes after its last day admits no sample. */
  lemma InvertedDateRangeMatchesNothing(x: Sample, period: string, def: PeriodDef, columns: set<string>)
    requires ResolveKey(period, def, DATE_KEY, columns).Ok?
    requires ResolveKey(period, def, DATE_KEY, columns).value.bounds.low > ResolveKey(period, def, DATE_KEY, columns).value.bounds.high
    ensures !Hit(x, period, def, DATE_KEY, columns)
  {
  }

  /**
   * For a sample of a leap year, whose JulianDay is numbered like the
   * bounds, the Date key holds exactly when its (month, day) lies between
   * the period's first and last (month, day) in calendar order.
   */
  lemma LeapYearDateHit(x: Sample, period: string, def: PeriodDef, columns: set<string>, y: int, m: int, d: int)
    requires ResolveKey(period, def, DATE_KEY, columns).Ok?
    requires Calendar.IsLeapYear(y) && Calendar.ValidMonthDay(y, m, d)
    requires JULIAN_DAY in x.cells && x.cells[JULIAN_DAY] == Num(Calendar.YearDay(y, m, d) as real)
    ensures Calendar.ValidMonthDay(y, Truncate(def[MONTH].low), Truncate(def[DAY].low))
    ensures Calendar.ValidMonthDay(y, Truncate(def[MONTH].high), Truncate(def[DAY].high))
    ensures Hit(x, period, def, DATE_KEY, columns) <==>
      && !Calendar.Before(m, d, Truncate(def[MONTH].low), Truncate(def[DAY].low))
      && !Calendar.Before(Truncate(def[MONTH].high), Truncate(def[DAY].high), m, d)
  {
    var m0, d0 := Truncate(def[MONTH].low), Truncate(def[DAY].low);
    var m1, d1 := Truncate(def[MONTH].high), Truncate(def[DAY].high);
    Calendar.DaysBeforeMonthIsSum(BOUNDARY_YEAR, m0);
    Calendar.DaysBeforeMonthIsSum(BOUNDARY_YEAR, m1);
    Calendar.DaysBeforeMonthIsSum(y, m0);
    Calendar.DaysBeforeMonthIsSum(y, m1);
    assert Calendar.YearDay(y, m0, d0) == Calendar.YearDay(BOUNDARY_YEAR, m0, d0);
    assert Calendar.YearDay(y, m1, d1) == Calendar.YearDay(BOUNDARY_YEAR, m1, d1);
    Calendar.YearDayOrder(y, m, d, m0, d0);
    Calendar.YearDayOrder(y, m1, d1, m, d);
  }

  /** A row of the returned table: the sample with its Period. */
  datatype Labelled = Labelled(sample: Sample, period: string)

  /** The positions, in increasing order, of the rows whose Period is one of `names`. */
  function KeptPositions(period: seq<string>, names: set<string>): (idx: seq<nat>)
    ensures forall j :: 0 <= j < |idx| ==> idx[j] < |period| && period[idx[j]] in names
    ensures forall j, k :: 0 <= j < k < |idx| ==> idx[j] < idx[k]
    ensures forall i :: 0 <= i < |period| && period[i] in names ==> i in idx
    decreases |period|
  {
    if period == [] then []
    else
      var n := |period| - 1;
      KeptPositions(period[..n], names) + (if period[n] in names then [n] else [])
  }

  /**
   * `meta[meta["Period"].isin(names)]`: every row whose Period is one of
   * `names`, once each, in table order, and no other row.
   */
  function Retained(samples: seq<Sample>, period: seq<string>, names: set<string>): (r: seq<Labelled>)
    requires |period| == |samples|
    ensures |r| == |KeptPositions(period, names)|
    ensures forall j :: 0 <= j < |r| ==>
      var i := KeptPositions(period, names)[j]; r[j] == Labelled(samples[i], period[i])
    decreases |samples|
  {
    if samples == [] then []
    else
      var n := |samples| - 1;
      var rest := Retained(samples[..n], period[..n], names);
      assert forall j :: 0 <= j < |rest| ==>
        var i := KeptPositions(period[..n], names)[j]; rest[j] == Labelled(samples[i], period[i]);
      rest + (if period[n] in names then [Labelled(samples[n], period[n])] else [])
  }

  /** Each row of `Retained` is a row of the table with its Period, and every kept row appears. */
  lemma RetainedMembers(samples: seq<Sample>, period: seq<string>, names: set<string>)
    requires |period| == |samples|
    ensures forall l :: l in Retained(samples, period, names) ==> l.period in names
    ensures forall i :: 0 <= i < |samples| && period[i] in names ==> Labelled(samples[i], period[i]) in Retained(samples, period, names)
  {
    var r, idx := Retained(samples, period, names), KeptPositions(period, names);
    forall i | 0 <= i < |samples| && period[i] in names
      ensures Labelled(samples[i], period[i]) in r
    {
      var j :| 0 <= j < |idx| && idx[j] == i;
      assert r[j] == Labelled(samples[i], period[i]);
    }
  }

  /** How many periods have matched row `i` so far: the dictionary holds only rows matched at least once. */
  function Tally(counts: map<nat, nat>, i: nat): nat {
    if i in counts then counts[i] else 0
  }

  /** Evaluating one more period adds it to a sample's matches exactly when the sample matches it. */
  lemma MatchingInExtend(x: Sample, names: set<string>, p: string, ranges: RangeTable, keys: seq<string>, columns: set<string>)
    requires p !in names
    ensures MatchingIn(x, names + {p}, ranges, keys, columns) ==
      if p in ranges && MatchesPeriod(x, p, ranges[p], keys, columns)
      then MatchingIn(x, names, ranges, keys, columns) + {p}
      else MatchingIn(x, names, ranges, keys, columns)
    ensures |MatchingIn(x, names + {p}, ranges, keys, columns)| ==
      |MatchingIn(x, names, ranges, keys, columns)| +
      (if p in ranges && MatchesPeriod(x, p, ranges[p], keys, columns) then 1 else 0)
  {
    var before := MatchingIn(x, names, ranges, keys, columns);
    assert p !in before;
  }

  /**
   * The state of the classification after the periods in `done` have been
   * evaluated: each row's count is the number of those periods it matched,
   * and its Period is "Unknown" if it matched none of them, else one of them.
   */
  ghost predicate Progress(samples: seq<Sample>, columns: set<string>, ranges: RangeTable, keys: seq<string>,
                           done: set<string>, period: seq<string>, counts: map<nat, nat>)
  {
    && |period| == |samples|
    && (forall s :: s in counts ==> s < |samples|)
    && (forall i :: 0 <= i < |samples| ==>
          Tally(counts, i) == |MatchingIn(samples[i], done, ranges, keys, columns)|)
    && (forall i :: 0 <= i < |samples| ==>
          if MatchingIn(samples[i], done, ranges, keys, columns) == {} then period[i] == UNKNOWN
          else period[i] in MatchingIn(samples[i], done, ranges, keys, columns))
  }

  /** Assigning one more period to exactly the rows that match it keeps Progress. */
  lemma ProgressStep(samples: seq<Sample>, columns: set<string>, ranges: RangeTable, keys: seq<string>,
                     done: set<string>, name: string, matched: set<nat>,
                     period: seq<string>, counts: map<nat, nat>, period': seq<string>, counts': map<nat, nat>)
    requires Progress(samples, columns, ranges, keys, done, period, counts)
    requires name !in done && name in ranges
    requires matched == set s: nat | s < |samples| && MatchesPeriod(samples[s], name, ranges[name], keys, columns)
    requires |period'| == |period|
    requires forall i :: 0 <= i < |period| ==> period'[i] == if i in matched then name else period[i]
    requires forall i: nat :: Tally(counts', i) == Tally(counts, i) + (if i in matched then 1 else 0)
    requires counts'.Keys == counts.Keys + matched
    ensures Progress(samples, columns, ranges, keys, done + {name}, period', counts')
  {
    forall i | 0 <= i < |samples|
      ensures Tally(counts', i) == |MatchingIn(samples[i], done + {name}, ranges, keys, columns)|
      ensures if MatchingIn(samples[i], done + {name}, ranges, keys, columns) == {} then period'[i] == UNKNOWN
              else period'[i] in MatchingIn(samples[i], done + {name}, ranges, keys, columns)
    {
      MatchingInExtend(samples[i], done, name, ranges, keys, columns);
      assert i in matched <==> MatchesPeriod(samples[i], name, ranges[name], keys, columns);
    }
  }

  /** Once every period is evaluated, resetting the rows counted twice or more yields each row's Label. */
  lemma ProgressFinal(samples: seq<Sample>, columns: set<string>, ranges: RangeTable, keys: seq<string>,
                      period: seq<string>, counts: map<nat, nat>, period': seq<string>)
    requires Progress(samples, columns, ranges, keys, ranges.Keys, period, counts)
    requires |period'| == |period|
    requires forall i :: 0 <= i < |period| ==> period'[i] == if Tally(counts, i) > 1 then UNKNOWN else period[i]
    ensures forall i :: 0 <= i < |samples| ==> period'[i] == Label(Classify(samples[i], ranges, keys, columns))
  {
    forall i | 0 <= i < |samples|
      ensures period'[i] == Label(Classify(samples[i], ranges, keys, columns))
    {
      var m := MatchingPeriods(samples[i], ranges, keys, columns);
      if |m| == 1 {
        var c := Classify(samples[i], ranges, keys, columns).name;
        SingletonMember(m, c, period[i]);
      }
    }
  }

  /**
   * The metadata table. match_ranges writes its Period column in place, so
   * the caller sees the new Period of every row, not only of the rows it returns.
   */
  class Table {
    var columns: set<string>
    var samples: seq<Sample>
    var period: seq<string>

    ghost predicate Valid()
      reads this
    {
      WellFormed(columns, samples)
    }

    constructor (columns: set<string>, samples: seq<Sample>)
      requires WellFormed(columns, samples)
      ensures Valid()
      ensures this.columns == columns && this.samples == samples && period == []
    {
      this.columns := columns;
      this.samples := samples;
      period := [];
    }

    /** Writes `name` into the Period of every row of `matched` and counts one more match for each. */
    method Assign(name: string, matched: set<nat>, counts: map<nat, nat>) returns (counts': map<nat, nat>)
      requires forall s :: s in matched ==> s < |period|
      modifies this`period
      ensures |period| == |old(period)|
      ensures forall i :: 0 <= i < |period| ==> period[i] == if i in matched then name else old(period[i])
      ensures forall i: nat :: Tally(counts', i) == Tally(counts, i) + (if i in matched then 1 else 0)
      ensures counts'.Keys == counts.Keys + matched
    {
      counts' := counts;
      var todo := matched;
      while todo != {}
        invariant todo <= matched
        invariant |period| == |old(period)|
        invariant forall i :: 0 <= i < |period| ==>
          period[i] == if i in matched - todo then name else old(period[i])
        invariant forall i: nat :: Tally(counts', i) == Tally(counts, i) + (if i in matched - todo then 1 else 0)
        invariant counts'.Keys == counts.Keys + (matched - todo)
        decreases todo
      {
        var s :| s in todo;
        period := period[s := name];
        if s in counts' {
          counts' := counts'[s := counts'[s] + 1];
        } else {
          counts' := counts'[s := 1];
        }
        todo := todo - {s};
      }
    }

    /** The second pass: every row counted more than once goes back to "Unknown". */
    method ResetConflicts(counts: map<nat, nat>)
      requires forall s :: s in counts ==> s < |period|
      modifies this`period
      ensures |period| == |old(period)|
      ensures forall i :: 0 <= i < |period| ==>
        period[i] == if Tally(counts, i) > 1 then UNKNOWN else old(period[i])
    {
      var todo := counts.Keys;
      while todo != {}
        invariant todo <= counts.Keys
        invariant |period| == |old(period)|
        invariant forall i :: 0 <= i < |period| ==>
          period[i] == if i !in todo && Tally(counts, i) > 1 then UNKNOWN else old(period[i])
        decreases todo
      {
        var s :| s in todo;
        if counts[s] > 1 {
          period := period[s := UNKNOWN];
        }
        todo := todo - {s};
      }
    }

    /**
     * The loop over the periods, taken in an arbitrary order: each writes its
     * name into the rows that match it on every key and counts the match.
     * Stops at the first period with a key that cannot be looked up.
     */
    method EvaluatePeriods(ranges: RangeTable, keys: seq<string>) returns (counts: map<nat, nat>, failure: Option<Error>)
      requires Progress(samples, columns, ranges, keys, {}, period, map[])
      modifies this`period
      ensures failure.None? <==> forall p :: p in ranges ==> KeysResolve(p, ranges[p], keys, columns)
      ensures failure.Some? ==> exists p :: p in ranges && FirstKeyError(failure.value, p, ranges[p], keys, columns)
      ensures exists done :: done <= ranges.Keys && Progress(samples, columns, ranges, keys, done, period, counts)
      ensures failure.None? ==> Progress(samples, columns, ranges, keys, ranges.Keys, period, counts)
    {
      counts := map[];
      var pending := ranges.Keys;
      ghost var done: set<string> := {};
      while pending != {}
        invariant pending !! done && pending + done == ranges.Keys
        invariant forall p :: p in done ==> KeysResolve(p, ranges[p], keys, columns)
        invariant Progress(samples, columns, ranges, keys, done, period, counts)
        decreases pending
      {
        var name :| name in pending;
        var matched := CollectMatches(samples, columns, name, ranges[name], keys);
        if matched.Err? {
          return counts, Some(matched.error);
        }
        ghost var period0, counts0 := period, counts;
        counts := Assign(name, matched.value, counts);
        ProgressStep(samples, columns, ranges, keys, done, name, matched.value, period0, counts0, period, counts);
        pending := pending - {name};
        done := done + {name};
      }
      return counts, None;
    }

    /**
     * match_ranges. Every row starts as "Unknown"; every period is evaluated;
     * then rows counted more than once are reset to "Unknown". Returns the
     * rows whose Period names a period of the table.
     */
    method MatchRanges(ranges: RangeTable, keys: seq<string>) returns (r: Result<seq<Labelled>, Error>)
      requires Valid()
      modifies this`period
      ensures Valid() && |period| == |samples|
      ensures r.Ok? <==> forall p :: p in ranges ==> KeysResolve(p, ranges[p], keys, columns)
      ensures r.Err? ==> exists p :: p in ranges && FirstKeyError(r.error, p, ranges[p], keys, columns)
      ensures forall i :: 0 <= i < |period| ==> period[i] == UNKNOWN || period[i] in ranges
      ensures r.Ok? ==> forall i :: 0 <= i < |samples| ==>
        period[i] == Label(Classify(samples[i], ranges, keys, columns))
      ensures r.Ok? ==> r.value == Retained(samples, period, ranges.Keys)
    {
      period := seq(|samples|, _ => UNKNOWN);
      var counts, failure := EvaluatePeriods(ranges, keys);
      if failure.Some? {
        return Err(failure.value);
      }
      ghost var period0 := period;
      ResetConflicts(counts);
      ProgressFinal(samples, columns, ranges, keys, period0, counts, period);
      forall i | 0 <= i < |samples| ensures period[i] == UNKNOWN || period[i] in ranges {
        LabelIsUnknownOrPeriod(samples[i], ranges, keys, columns);
      }
      r := Ok(Retained(samples, period, ranges.Keys));
    }
  }
}
