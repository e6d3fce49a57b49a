/**
 * The range table and period order the script defines at module level, and
 * the keys its entry point classifies on.
 */
module DefaultRanges {
  import opened Wrappers
  import opened Metadata
  import opened RangeMatch
  import Calendar

  const SPRING := "Spring"
  const CLEAR := "Clear"
  const SUMMER := "Summer"
  const AUTUMN := "Autumn"
  const WINTER := "Winter"

  const TEMPERATURE := "Temperature"
  const CHLA := "Chla"
  const PHOSPHATE := "Phosphate"

  function SpringRanges(): PeriodDef {
    map[MONTH := Bounds(4.0, 4.0), DAY := Bounds(5.0, 25.0), TEMPERATURE := Bounds(3.0, 5.0),
        CHLA := Bounds(4.0, 14.0), PHOSPHATE := Bounds(0.1, 0.5)]
  }

  /** Clear's Date window runs from April 27 to June 10. */
  function ClearRanges(): PeriodDef {
    map[MONTH := Bounds(4.0, 6.0), DAY := Bounds(27.0, 10.0), TEMPERATURE := Bounds(5.0, 15.0),
        CHLA := Bounds(0.5, 2.0), PHOSPHATE := Bounds(0.2, 0.4)]
  }

  function SummerRanges(): PeriodDef {
    map[MONTH := Bounds(6.0, 8.0), DAY := Bounds(15.0, 25.0), TEMPERATURE := Bounds(10.0, 20.0),
        CHLA := Bounds(0.2, 4.0), PHOSPHATE := Bounds(0.1, 0.35)]
  }

  function AutumnRanges(): PeriodDef {
    map[MONTH := Bounds(9.0, 10.0), DAY := Bounds(10.0, 25.0), TEMPERATURE := Bounds(5.0, 17.0),
        CHLA := Bounds(0.6, 2.5), PHOSPHATE := Bounds(0.1, 0.2)]
  }

  function WinterRanges(): PeriodDef {
    map[MONTH := Bounds(1.0, 2.0), DAY := Bounds(11.0, 25.0), TEMPERATURE := Bounds(0.5, 5.0),
        CHLA := Bounds(0.2, 2.0), PHOSPHATE := Bounds(0.5, 1.0)]
  }

  /** The module-level `ranges` table: five periods, each with a Month, Day and three measurement ranges. */
  function Ranges(): (r: RangeTable)
    ensures r.Keys == {SPRING, CLEAR, SUMMER, AUTUMN, WINTER}
    ensures forall p :: p in r ==> r[p].Keys == {MONTH, DAY, TEMPERATURE, CHLA, PHOSPHATE}
  {
    map[SPRING := SpringRanges(), CLEAR := ClearRanges(), SUMMER := SummerRanges(),
        AUTUMN := AutumnRanges(), WINTER := WinterRanges()]
  }

  /** The five periods of the table and nothing else. */
  lemma RangesLookup()
    ensures Ranges().Keys == {SPRING, CLEAR, SUMMER, AUTUMN, WINTER}
    ensures Ranges()[SPRING] == SpringRanges() && Ranges()[CLEAR] == ClearRanges()
    ensures Ranges()[SUMMER] == SummerRanges() && Ranges()[AUTUMN] == AutumnRanges()
    ensures Ranges()[WINTER] == WinterRanges()
  {
  }

  /** The module-level `order` of the periods, used to order plot categories. */
  const ORDER: seq<string> := [SPRING, CLEAR, SUMMER, AUTUMN, WINTER]

  /** The keys the entry point passes to match_ranges. */
  const MAIN_KEYS: seq<string> := [CHLA, TEMPERATURE, PHOSPHATE]

  /** match_ranges' default keys. */
  const DEFAULT_KEYS: seq<string> := [DATE_KEY]

  /** The measurement ranges of each period, read through the table. */
  lemma MeasurementRanges()
    ensures Ranges()[SPRING][CHLA] == Bounds(4.0, 14.0) && Ranges()[SPRING][TEMPERATURE] == Bounds(3.0, 5.0)
    ensures Ranges()[SPRING][PHOSPHATE] == Bounds(0.1, 0.5)
    ensures Ranges()[CLEAR][CHLA] == Bounds(0.5, 2.0) && Ranges()[CLEAR][TEMPERATURE] == Bounds(5.0, 15.0)
    ensures Ranges()[CLEAR][PHOSPHATE] == Bounds(0.2, 0.4)
    ensures Ranges()[SUMMER][CHLA] == Bounds(0.2, 4.0) && Ranges()[SUMMER][TEMPERATURE] == Bounds(10.0, 20.0)
    ensures Ranges()[SUMMER][PHOSPHATE] == Bounds(0.1, 0.35)
    ensures Ranges()[AUTUMN][CHLA] == Bounds(0.6, 2.5) && Ranges()[AUTUMN][TEMPERATURE] == Bounds(5.0, 17.0)
    ensures Ranges()[AUTUMN][PHOSPHATE] == Bounds(0.1, 0.2)
    ensures Ranges()[WINTER][CHLA] == Bounds(0.2, 2.0) && Ranges()[WINTER][TEMPERATURE] == Bounds(0.5, 5.0)
    ensures Ranges()[WINTER][PHOSPHATE] == Bounds(0.5, 1.0)
  {
    RangesLookup();
  }

  /** `order` lists each period of `ranges` once. */
  lemma OrderListsEveryPeriodOnce()
    ensures forall p :: p in Ranges() <==> p in ORDER
    ensures forall i, j :: 0 <= i < j < |ORDER| ==> ORDER[i] != ORDER[j]
  {
  }

  /** Spring's Date window: April 5 to April 25 of 2012, days 96 to 116. */
  lemma SpringWindow(columns: set<string>)
    requires JULIAN_DAY in columns
    ensures ResolveKey(SPRING, SpringRanges(), DATE_KEY, columns) == Ok(Criterion(JULIAN_DAY, Bounds(96.0, 116.0)))
  {
    DateCriterion(SPRING, SpringRanges(), columns, 4, 5, 4, 25);
  }

  /** Clear's Date window: April 27 to June 10 of 2012, days 118 to 162. */
  lemma ClearWindow(columns: set<string>)
    requires JULIAN_DAY in columns
    ensures ResolveKey(CLEAR, ClearRanges(), DATE_KEY, columns) == Ok(Criterion(JULIAN_DAY, Bounds(118.0, 162.0)))
  {
    DateCriterion(CLEAR, ClearRanges(), columns, 4, 27, 6, 10);
  }

  /** Summer's Date window: June 15 to August 25 of 2012, days 167 to 238. */
  lemma SummerWindow(columns: set<string>)
    requires JULIAN_DAY in columns
    ensures ResolveKey(SUMMER, SummerRanges(), DATE_KEY, columns) == Ok(Criterion(JULIAN_DAY, Bounds(167.0, 238.0)))
  {
    DateCriterion(SUMMER, SummerRanges(), columns, 6, 15, 8, 25);
  }

  /** Autumn's Date window: September 10 to October 25 of 2012, days 254 to 299. */
  lemma AutumnWindow(columns: set<string>)
    requires JULIAN_DAY in columns
    ensures ResolveKey(AUTUMN, AutumnRanges(), DATE_KEY, columns) == Ok(Criterion(JULIAN_DAY, Bounds(254.0, 299.0)))
  {
    DateCriterion(AUTUMN, AutumnRanges(), columns, 9, 10, 10, 25);
  }

  /** Winter's Date window: January 11 to February 25 of 2012, days 11 to 56. */
  lemma WinterWindow(columns: set<string>)
    requires JULIAN_DAY in columns
    ensures ResolveKey(WINTER, WinterRanges(), DATE_KEY, columns) == Ok(Criterion(JULIAN_DAY, Bounds(11.0, 56.0)))
  {
    DateCriterion(WINTER, WinterRanges(), columns, 1, 11, 2, 25);
  }

  /** Every period defines every key the entry point uses, so that call raises only for a missing column. */
  lemma MainKeysResolve(columns: set<string>)
    requires CHLA in columns && TEMPERATURE in columns && PHOSPHATE in columns
    ensures forall p :: p in Ranges() ==> KeysResolve(p, Ranges()[p], MAIN_KEYS, columns)
  {
  }

  /** Which window a Date hit puts the sample's JulianDay in. */
  lemma DateHitWindow(x: Sample, p: string, columns: set<string>)
    requires JULIAN_DAY in columns && p in Ranges()
    requires Hit(x, p, Ranges()[p], DATE_KEY, columns)
    ensures JULIAN_DAY in x.cells && x.cells[JULIAN_DAY].Num?
    ensures var v := x.cells[JULIAN_DAY].x;
      || (p == SPRING && 96.0 <= v <= 116.0)
      || (p == CLEAR && 118.0 <= v <= 162.0)
      || (p == SUMMER && 167.0 <= v <= 238.0)
      || (p == AUTUMN && 254.0 <= v <= 299.0)
      || (p == WINTER && 11.0 <= v <= 56.0)
  {
    RangesLookup();
    assert p in {SPRING, CLEAR, SUMMER, AUTUMN, WINTER};
    if p == SPRING {
      SpringWindow(columns);
      DateHit(x, p, SpringRanges(), columns, Bounds(96.0, 116.0));
    } else if p == CLEAR {
      ClearWindow(columns);
      DateHit(x, p, ClearRanges(), columns, Bounds(118.0, 162.0));
    } else if p == SUMMER {
      SummerWindow(columns);
      DateHit(x, p, SummerRanges(), columns, Bounds(167.0, 238.0));
    } else if p == AUTUMN {
      AutumnWindow(columns);
      DateHit(x, p, AutumnRanges(), columns, Bounds(254.0, 299.0));
    } else {
      WinterWindow(columns);
      DateHit(x, p, WinterRanges(), columns, Bounds(11.0, 56.0));
    }
  }

  /** Matching on Date alone, the table's windows are disjoint: no sample is ambiguous. */
  lemma DateWindowsNeverOverlap(x: Sample, columns: set<string>)
    requires JULIAN_DAY in columns
    ensures Classify(x, Ranges(), DEFAULT_KEYS, columns) != Ambiguous
  {
    ClassifyCases(x, Ranges(), DEFAULT_KEYS, columns);
    if Classify(x, Ranges(), DEFAULT_KEYS, columns) == Ambiguous {
      var p, q :| p in Ranges() && q in Ranges() && p != q &&
        MatchesPeriod(x, p, Ranges()[p], DEFAULT_KEYS, columns) &&
        MatchesPeriod(x, q, Ranges()[q], DEFAULT_KEYS, columns);
      assert Hit(x, p, Ranges()[p], DEFAULT_KEYS[0], columns);
      assert Hit(x, q, Ranges()[q], DEFAULT_KEYS[0], columns);
      DateHitWindow(x, p, columns);
      DateHitWindow(x, q, columns);
      assert false;
    }
  }

  /** Only Spring admits a Chla of 10. */
  lemma OnlySpringAdmitsChlaTen(x: Sample, columns: set<string>)
    requires CHLA in columns
    requires CHLA in x.cells && x.cells[CHLA] == Num(10.0)
    ensures forall q :: q in Ranges() && MatchesPeriod(x, q, Ranges()[q], MAIN_KEYS, columns) ==> q == SPRING
  {
    forall q | q in Ranges() && MatchesPeriod(x, q, Ranges()[q], MAIN_KEYS, columns) ensures q == SPRING {
      assert Hit(x, q, Ranges()[q], MAIN_KEYS[0], columns);
      MeasurementHit(x, q, Ranges()[q], CHLA, columns);
      MeasurementRanges();
      RangesLookup();
      assert q in {SPRING, CLEAR, SUMMER, AUTUMN, WINTER};
    }
  }

  /** A period matches when each of the three measurements lies in its range. */
  lemma MatchesOnMainKeys(x: Sample, p: string, columns: set<string>)
    requires CHLA in columns && TEMPERATURE in columns && PHOSPHATE in columns
    requires p in Ranges()
    requires CHLA in x.cells && InBounds(x.cells[CHLA], Ranges()[p][CHLA])
    requires TEMPERATURE in x.cells && InBounds(x.cells[TEMPERATURE], Ranges()[p][TEMPERATURE])
    requires PHOSPHATE in x.cells && InBounds(x.cells[PHOSPHATE], Ranges()[p][PHOSPHATE])
    ensures MatchesPeriod(x, p, Ranges()[p], MAIN_KEYS, columns)
  {
    MainKeysResolve(columns);
    MeasurementHit(x, p, Ranges()[p], CHLA, columns);
    MeasurementHit(x, p, Ranges()[p], TEMPERATURE, columns);
    MeasurementHit(x, p, Ranges()[p], PHOSPHATE, columns);
  }

  /**
   * Chla 10, Temperature 4, Phosphate 0.3 lies in Spring's ranges and in no
   * other period's: such a sample is classified Spring.
   */
  lemma SpringSample(x: Sample, columns: set<string>)
    requires CHLA in columns && TEMPERATURE in columns && PHOSPHATE in columns
    requires CHLA in x.cells && x.cells[CHLA] == Num(10.0)
    requires TEMPERATURE in x.cells && x.cells[TEMPERATURE] == Num(4.0)
    requires PHOSPHATE in x.cells && x.cells[PHOSPHATE] == Num(0.3)
    ensures Classify(x, Ranges(), MAIN_KEYS, columns) == MatchedTo(SPRING)
  {
    MeasurementRanges();
    RangesLookup();
    MatchesOnMainKeys(x, SPRING, columns);
    OnlySpringAdmitsChlaTen(x, columns);
    ClassifyCases(x, Ranges(), MAIN_KEYS, columns);
  }

  /**
   * Chla 1, Temperature 10, Phosphate 0.3 lies in both Clear's and Summer's
   * ranges, so such a sample ends as "Unknown" whichever of the two is
   * evaluated last.
   */
  lemma ClearSummerOverlap(x: Sample, columns: set<string>)
    requires CHLA in columns && TEMPERATURE in columns && PHOSPHATE in columns
    requires CHLA in x.cells && x.cells[CHLA] == Num(1.0)
    requires TEMPERATURE in x.cells && x.cells[TEMPERATURE] == Num(10.0)
    requires PHOSPHATE in x.cells && x.cells[PHOSPHATE] == Num(0.3)
    ensures Classify(x, Ranges(), MAIN_KEYS, columns) == Ambiguous
    ensures Label(Classify(x, Ranges(), MAIN_KEYS, columns)) == UNKNOWN
  {
    MeasurementRanges();
    RangesLookup();
    MatchesOnMainKeys(x, CLEAR, columns);
    MatchesOnMainKeys(x, SUMMER, columns);
    ClassifyCases(x, Ranges(), MAIN_KEYS, columns);
  }

  /**
   * A sample's JulianDay is numbered in its own year while the windows are
   * numbered in 2012: April 5 opens Spring in a leap year but, numbered 95
   * in a common year, falls before the window.
   */
  lemma SpringOpeningDay(x: Sample, columns: set<string>, y: int)
    requires JULIAN_DAY in columns
    requires JULIAN_DAY in x.cells && x.cells[JULIAN_DAY] == Num(Calendar.YearDay(y, 4, 5) as real)
    ensures Calendar.IsLeapYear(y) ==> Hit(x, SPRING, Ranges()[SPRING], DATE_KEY, columns)
    ensures !Calendar.IsLeapYear(y) ==> !Hit(x, SPRING, Ranges()[SPRING], DATE_KEY, columns)
  {
    RangesLookup();
    SpringWindow(columns);
    DateHit(x, SPRING, SpringRanges(), columns, Bounds(96.0, 116.0));
  }
}
