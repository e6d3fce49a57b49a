/**
 * addJulDay: derive each sample's day of year from its Year, Month and Day
 * columns and return the table with one more column, JulianDay.
 */
module JulianDay {
  import opened Wrappers
  import opened Metadata
  import Calendar

  /** Python's `int()` on a float: truncation toward zero. */
  function Truncate(x: real): (n: int)
    ensures 0.0 <= x ==> n as real <= x < n as real + 1.0
    ensures x < 0.0 ==> n as real - 1.0 < x <= n as real
  {
    if x >= 0.0 then x.Floor else -((-x).Floor)
  }

  /** `int(r.<column>)` on one row: a missing column or a NaN cell raises. */
  function IntCell(x: Sample, column: string): (r: Result<int, Error>)
    ensures r.Ok? <==> column in x.cells && x.cells[column].Num?
    ensures r.Ok? ==> r.value == Truncate(x.cells[column].x)
    ensures r.Err? ==> r.error == MissingValue(x.id, column)
  {
    if column in x.cells && x.cells[column].Num? then Ok(Truncate(x.cells[column].x))
    else Err(MissingValue(x.id, column))
  }

  /** The day of year one row is given, or the exception its date raises. */
  function RowDayOfYear(x: Sample): (r: Result<int, Error>)
    ensures r.Ok? ==> 1 <= r.value <= 366
    ensures r.Ok? ==>
      && YEAR in x.cells && x.cells[YEAR].Num?
      && MONTH in x.cells && x.cells[MONTH].Num?
      && DAY in x.cells && x.cells[DAY].Num?
      && var y, m, d := Truncate(x.cells[YEAR].x), Truncate(x.cells[MONTH].x), Truncate(x.cells[DAY].x);
         Calendar.ValidDate(y, m, d) && r.value == Calendar.MonthsLength(y, m) + d
    ensures
      (&& YEAR in x.cells && x.cells[YEAR].Num?
       && MONTH in x.cells && x.cells[MONTH].Num?
       && DAY in x.cells && x.cells[DAY].Num?
       && Calendar.ValidDate(Truncate(x.cells[YEAR].x), Truncate(x.cells[MONTH].x), Truncate(x.cells[DAY].x)))
      ==> r.Ok?
    ensures r.Err? ==> r.error.MissingValue? || r.error == InvalidDate(x.id)
  {
    var y :- IntCell(x, YEAR);
    var m :- IntCell(x, MONTH);
    var d :- IntCell(x, DAY);
    match Calendar.DayOfYear(y, m, d)
    case Some(n) => Ok(n)
    case None => Err(InvalidDate(x.id))
  }

  /** A row with its JulianDay cell added; every other cell is kept as it was. */
  function WithJulianDay(x: Sample, n: int): (y: Sample)
    ensures y.id == x.id
    ensures y.cells.Keys == x.cells.Keys + {JULIAN_DAY}
    ensures forall c :: c in x.cells && c != JULIAN_DAY ==> y.cells[c] == x.cells[c]
    ensures y.cells[JULIAN_DAY] == Num(n as real)
  {
    Sample(x.id, x.cells[JULIAN_DAY := Num(n as real)])
  }

  /**
   * Fills a dictionary from sample id to day of year, row by row, and then
   * joins it to the table as the JulianDay column, aligned on the id. The
   * rows keep their input order (a sort by id that the join may perform is
   * not modelled). The first row whose date raises aborts the whole
   * operation.
   */
  method AddJulianDay(samples: seq<Sample>) returns (r: Result<seq<Sample>, Error>)
    requires DistinctIds(samples)
    ensures r.Ok? <==> forall i :: 0 <= i < |samples| ==> RowDayOfYear(samples[i]).Ok?
    ensures r.Ok? ==>
      && |r.value| == |samples|
      && forall i :: 0 <= i < |samples| ==>
           r.value[i] == WithJulianDay(samples[i], RowDayOfYear(samples[i]).value)
    ensures r.Err? ==>
      exists i :: 0 <= i < |samples| && RowDayOfYear(samples[i]) == Err(r.error) &&
        forall j :: 0 <= j < i ==> RowDayOfYear(samples[j]).Ok?
  {
    var juldays: map<Id, int> := map[];
    for i := 0 to |samples|
      invariant forall j :: 0 <= j < i ==>
        RowDayOfYear(samples[j]).Ok? && samples[j].id in juldays &&
        juldays[samples[j].id] == RowDayOfYear(samples[j]).value
    {
      var n := RowDayOfYear(samples[i]);
      if n.Err? {
        return Err(n.error);
      }
      juldays := juldays[samples[i].id := n.value];
    }
    var joined: seq<Sample> := [];
    for i := 0 to |samples|
      invariant |joined| == i
      invariant forall j :: 0 <= j < i ==> joined[j] == WithJulianDay(samples[j], juldays[samples[j].id])
    {
      joined := joined + [WithJulianDay(samples[i], juldays[samples[i].id])];
    }
    return Ok(joined);
  }
}
