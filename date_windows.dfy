/** The `transform_query` of the four date-window endpoints: a `start_date` or `end_date` that
    is missing or `None` gets a default computed from today's date, written into the caller's
    own params dict (`transformed_params = params` is the same dict). Today's date is a
    parameter. */
module DateWindows {
  import opened Outcomes
  import opened Dates
  import opened Records

  datatype Endpoint =
    | EquityHistorical      // start: a year back, end: today
    | HistoricalMarketCap   // start: five years back, end: today
    | CalendarDividend      // start: today, end: 30 days ahead
    | HistoricalDividends   // start: today's month and day in year 1, end: today

  /** The default start date, or the error computing it raises. */
  function StartDefault(e: Endpoint, today: CivilDate): Result<CivilDate>
  {
    match e
    case EquityHistorical => ShiftYears(today, -1)        // now - relativedelta(years=1)
    case HistoricalMarketCap => ShiftYears(today, -5)     // now - relativedelta(years=5)
    case CalendarDividend => Ok(today)
    case HistoricalDividends => WithYear(today, 1)        // now - relativedelta(year=1)
  }

  /** The default end date, or the error computing it raises. */
  function EndDefault(e: Endpoint, today: CivilDate): Result<CivilDate>
  {
    match e
    case CalendarDividend =>                              // now + relativedelta(days=30)
      (match AddDays(today, 30) case Some(d) => Ok(d) case None => Err(OverflowError))
    case _ => Ok(today)
  }

  /** `params.get(key) is None`. */
  predicate Missing(entries: Row, key: string)
  {
    key !in entries || entries[key] == Null
  }

  /** One default: the entries afterwards and the error raised, if any. */
  function FillOne(entries: Row, key: string, default: Result<CivilDate>): (Row, Option<Error>)
  {
    if !Missing(entries, key) then (entries, None)
    else match default
      case Err(err) => (entries, Some(err))
      case Ok(d) => (entries[key := DateValue(d)], None)
  }

  /** Both defaults in the order of the source: the start date is written before the end date
      is computed, so a failing end date leaves the start date written. */
  function Fill(e: Endpoint, today: CivilDate, entries: Row): (Row, Option<Error>)
  {
    var (afterStart, err) := FillOne(entries, "start_date", StartDefault(e, today));
    if err.Some? then (afterStart, err)
    else FillOne(afterStart, "end_date", EndDefault(e, today))
  }

  /** The caller's params dict. */
  class Params {
    var entries: Row

    constructor (entries: Row)
      ensures this.entries == entries
    {
      this.entries := entries;
    }

    method FillDefault(key: string, default: Result<CivilDate>) returns (err: Option<Error>)
      modifies this
      ensures (entries, err) == FillOne(old(entries), key, default)
    {
      err := None;
      if key !in entries || entries[key] == Null {
        match default {
          case Err(e) => err := Some(e);
          case Ok(d) => entries := entries[key := DateValue(d)];
        }
      }
    }

    /** `transform_query` up to building the query model. */
    method TransformQuery(e: Endpoint, today: CivilDate) returns (err: Option<Error>)
      modifies this
      ensures (entries, err) == Fill(e, today, old(entries))
    {
      err := FillDefault("start_date", StartDefault(e, today));
      if err.None? {
        err := FillDefault("end_date", EndDefault(e, today));
      }
    }
  }

  /** A date the caller gave is never overwritten, and no key other than the two dates is
      touched, whatever the outcome. */
  lemma FillKeepsGiven(e: Endpoint, today: CivilDate, entries: Row)
    ensures forall k :: k in entries && !Missing(entries, k) ==> k in Fill(e, today, entries).0 && Fill(e, today, entries).0[k] == entries[k]
    ensures forall k :: k != "start_date" && k != "end_date" ==>
      (k in Fill(e, today, entries).0 <==> k in entries) &&
      (k in entries ==> Fill(e, today, entries).0[k] == entries[k])
  {
    var (afterStart, err) := FillOne(entries, "start_date", StartDefault(e, today));
    FillOneKeeps(entries, "start_date", StartDefault(e, today));
    if err.None? {
      FillOneKeeps(afterStart, "end_date", EndDefault(e, today));
    }
  }

  /** One default touches only its own key, and only when that key is missing. */
  lemma FillOneKeeps(entries: Row, key: string, default: Result<CivilDate>)
    ensures forall k :: k in entries && !Missing(entries, k) ==>
      k in FillOne(entries, key, default).0 && FillOne(entries, key, default).0[k] == entries[k] &&
      !Missing(FillOne(entries, key, default).0, k)
    ensures forall k :: k != key ==>
      (k in FillOne(entries, key, default).0 <==> k in entries) &&
      (k in entries ==> FillOne(entries, key, default).0[k] == entries[k])
  {
  }

  /** When nothing is raised, both dates are present afterwards, and each missing one holds its
      default. */
  lemma FillDefaults(e: Endpoint, today: CivilDate, entries: Row)
    requires Fill(e, today, entries).1.None?
    ensures !Missing(Fill(e, today, entries).0, "start_date") && !Missing(Fill(e, today, entries).0, "end_date")
    ensures Missing(entries, "start_date") ==> Fill(e, today, entries).0["start_date"] == DateValue(StartDefault(e, today).value)
    ensures Missing(entries, "end_date") ==> Fill(e, today, entries).0["end_date"] == DateValue(EndDefault(e, today).value)
  {
  }

  /** When the caller gives both dates nothing is computed, so nothing is raised and the dict is
      left as it is. */
  lemma FillBothGiven(e: Endpoint, today: CivilDate, entries: Row)
    requires !Missing(entries, "start_date") && !Missing(entries, "end_date")
    ensures Fill(e, today, entries) == (entries, None)
  {
  }

  /** The defaults of each endpoint, and the only days on which computing them raises: going
      back past year 1, or 30 days past 9999-12-31. */
  lemma DefaultWindows(today: CivilDate)
    ensures StartDefault(EquityHistorical, today).Ok? <==> today.year > 1
    ensures StartDefault(EquityHistorical, today).Ok? ==> Before(StartDefault(EquityHistorical, today).value, today)
    ensures StartDefault(HistoricalMarketCap, today).Ok? <==> today.year > 5
    ensures StartDefault(HistoricalMarketCap, today).Ok? ==> StartDefault(HistoricalMarketCap, today).value.year == today.year - 5
    ensures StartDefault(CalendarDividend, today) == Ok(today)
    ensures EndDefault(CalendarDividend, today).Ok? <==> Ordinal(today) + 30 <= MaxOrdinal
    ensures EndDefault(CalendarDividend, today).Ok? ==> Ordinal(EndDefault(CalendarDividend, today).value) == Ordinal(today) + 30
    ensures EndDefault(CalendarDividend, today).Err? ==> EndDefault(CalendarDividend, today).error == OverflowError
    ensures forall e :: e != CalendarDividend ==> EndDefault(e, today) == Ok(today)
  {
    AddDaysOrdinal(today, 30);
    if StartDefault(EquityHistorical, today).Ok? {
      ShiftYearsBack(today, 1);
    }
  }

  /** `relativedelta(year=1)` sets the year rather than subtracting it: the historical-dividends
      start is today's month and day in year 1, February 29 becoming February 28, and it never
      raises. */
  lemma DividendHistoryStart(today: CivilDate)
    ensures StartDefault(HistoricalDividends, today).Ok?
    ensures StartDefault(HistoricalDividends, today).value.year == 1
    ensures StartDefault(HistoricalDividends, today).value.month == today.month
    ensures StartDefault(HistoricalDividends, today).value.day ==
      if today.month == 2 && today.day == 29 then 28 else today.day
  {
    WithYearKeepsDay(today, 1);
  }

  /** Near the end of the calendar the dividend calendar's end date raises after its start date
      has already been written into the caller's dict. */
  lemma CalendarPartialWrite()
    ensures Fill(CalendarDividend, Date(9999, 12, 15), map[]) ==
      (map["start_date" := DateValue(Date(9999, 12, 15))], Some(OverflowError))
  {
    var today: CivilDate := Date(9999, 12, 15);
    var last: CivilDate := Date(9999, 12, 31);
    NextDayOrdinal(last);
    assert Ordinal(today) == Ordinal(last) - 16;
    AddDaysOrdinal(today, 30);
  }
}
