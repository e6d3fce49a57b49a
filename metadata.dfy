/**
 * The metadata table the classifier works on: one row per sample, keyed by
 * a unique sample identifier, with named numeric columns.
 */
module Metadata {

  /** A numeric cell; NaN stands for a missing measurement. */
  datatype Value = Num(x: real) | NaN

  type Id = string

  /** One row of the table: its index label and its cells by column name. */
  datatype Sample = Sample(id: Id, cells: map<string, Value>)

  /** The exceptions the two operations can raise, by the input they name. */
  datatype Error =
    | MissingValue(sample: Id, column: string)   // a date column absent or NaN in addJulDay
    | InvalidDate(sample: Id)                     // datetime.date rejects a row's Year/Month/Day
    | MissingRange(period: string, key: string)   // the range table has no entry for a key
    | InvalidBoundDate(period: string)            // datetime.date rejects a period's Month/Day bound
    | MissingColumn(column: string)               // the table has no column for a key

  const YEAR := "Year"
  const MONTH := "Month"
  const DAY := "Day"
  const JULIAN_DAY := "JulianDay"

  predicate DistinctIds(samples: seq<Sample>) {
    forall i, j :: 0 <= i < j < |samples| ==> samples[i].id != samples[j].id
  }

  /** Every row has exactly the table's columns, and the index has no duplicate label. */
  predicate WellFormed(columns: set<string>, samples: seq<Sample>) {
    DistinctIds(samples) &&
    forall i :: 0 <= i < |samples| ==> samples[i].cells.Keys == columns
  }
}
