/** The `date_validate` before-validators of the two dividend data models: the dividend
    calendar parses with `datetime.strptime(v, "%Y-%m-%d")`, the historical dividends with
    `date.fromisoformat(v)`. Both read the `YYYY-MM-DD` strings the extraction step writes. */
module Dividends {
  import opened Outcomes
  import opened Dates
  import opened Records
  import opened Frames
  import opened Extraction

  /** Python's `bool(v)` for the values a cell can hold. */
  predicate Truthy(v: Value)
  {
    match v
    case Null => false
    case Int(i) => i != 0
    case Num(x) => x != 0.0
    case Bool(b) => b
    case Str(s) => s != ""
    case DateValue(_) => true
    case NaN => true
    case Dict(fields) => fields != map[]
  }

  /** The dividend calendar's `datetime.strptime(v, "%Y-%m-%d") if v else None`. */
  function CalendarDateValidate(v: Value): Result<Value>
  {
    if !Truthy(v) then Ok(Null)
    else if !v.Str? then Err(TypeError("strptime() argument 1 must be str"))
    else match Strptime(v.s)
      case Err(e) => Err(e)
      case Ok(d) => Ok(DateValue(d))
  }

  /** The historical dividends' validator: a non-string is passed on, `""` becomes `None`,
      anything else goes to `date.fromisoformat`. */
  function HistoricalDateValidate(v: Value): Result<Value>
  {
    if !v.Str? then Ok(v)
    else if v.s == "" then Ok(Null)
    else match ParseIso(v.s)
      case None => Err(ValueError("Invalid isoformat string"))
      case Some(d) => Ok(DateValue(d))
  }

  /** The calendar validator: falsy values become `None`, any other non-string raises
      `TypeError`, and a string yields a date exactly when `strptime` accepts it. */
  lemma CalendarDateValidateCases(v: Value)
    ensures !Truthy(v) ==> CalendarDateValidate(v) == Ok(Null)
    ensures Truthy(v) && !v.Str? ==> CalendarDateValidate(v).Err? && CalendarDateValidate(v).error.TypeError?
    ensures v.Str? && v.s != "" ==>
      (CalendarDateValidate(v).Ok? <==> Strptime(v.s).Ok?) &&
      (CalendarDateValidate(v).Ok? ==> CalendarDateValidate(v) == Ok(DateValue(Strptime(v.s).value)))
    ensures CalendarDateValidate(v).Ok? ==> CalendarDateValidate(v).value == Null || CalendarDateValidate(v).value.DateValue?
  {
  }

  /** The historical validator: non-strings pass through unchanged, `""` becomes `None`, and a
      string is accepted only in the exact `YYYY-MM-DD` form of the date it yields. */
  lemma HistoricalDateValidateCases(v: Value)
    ensures !v.Str? ==> HistoricalDateValidate(v) == Ok(v)
    ensures v == Str("") ==> HistoricalDateValidate(v) == Ok(Null)
    ensures v.Str? && HistoricalDateValidate(v).Ok? && HistoricalDateValidate(v).value.DateValue? ==>
      Format(HistoricalDateValidate(v).value.at, '-') == v.s
    ensures v.Str? && v.s != "" && HistoricalDateValidate(v).Err? ==> HistoricalDateValidate(v).error.ValueError?
  {
    if v.Str? && v.s != "" && ParseIso(v.s).Some? {
      ParseIsoOnlyFormatted(v.s);
    }
  }

  /** Formatting a date as `YYYY-MM-DD` and validating it gives the date back, for both. */
  lemma DateValidateRoundTrip(d: CivilDate)
    ensures CalendarDateValidate(Str(Format(d, '-'))) == Ok(DateValue(d))
    ensures HistoricalDateValidate(Str(Format(d, '-'))) == Ok(DateValue(d))
  {
    StrptimeFormat(d);
    ParseIsoFormat(d);
    FormatShape(d, '-');
  }

  /** The two validators disagree: `strptime` takes `2024-1-5`, `fromisoformat` does not, and a
      zero is `None` to one and passed on by the other. */
  lemma DateValidatorsDiffer()
    ensures CalendarDateValidate(Str("2024-1-5")) == Ok(DateValue(Date(2024, 1, 5)))
    ensures HistoricalDateValidate(Str("2024-1-5")).Err?
    ensures CalendarDateValidate(Int(0)) == Ok(Null) && HistoricalDateValidate(Int(0)) == Ok(Int(0))
    ensures CalendarDateValidate(Int(5)).Err? && HistoricalDateValidate(Int(5)) == Ok(Int(5))
  {
    StrptimeLenient();
  }

  /** A `YYYY-MM-DD` cell the extraction step wrote validates, with either validator, to the
      date it denotes. */
  lemma IsoCellValidates(row: Row, col: string)
    requires col in row && IsoCell(row[col])
    ensures CalendarDateValidate(row[col]) == Ok(DateValue(IsoDate(row, col)))
    ensures HistoricalDateValidate(row[col]) == Ok(DateValue(IsoDate(row, col)))
  {
    ParseIsoOnlyFormatted(row[col].s);
    DateValidateRoundTrip(IsoDate(row, col));
  }

  /** The NaN that `.dt.strftime` writes for a missing date is truthy and not a string: the
      calendar's validator hands it to `strptime`, which raises `TypeError`, and the historical
      one passes it on. */
  lemma MissingDateCell()
    ensures Truthy(NaN)
    ensures CalendarDateValidate(NaN) == Err(TypeError("strptime() argument 1 must be str"))
    ensures HistoricalDateValidate(NaN) == Ok(NaN)
  {
  }

  /** A rendered cell validates to its date with either validator, unless it is the NaN of a
      missing date, which the calendar's validator rejects. */
  lemma RenderedCellValidates(row: Row, col: string)
    requires col in row && (IsoCell(row[col]) || row[col].NaN?)
    ensures row[col] != NaN ==>
      CalendarDateValidate(row[col]).Ok? && CalendarDateValidate(row[col]).value.DateValue? &&
      HistoricalDateValidate(row[col]).Ok? && HistoricalDateValidate(row[col]).value.DateValue?
    ensures row[col] == NaN ==>
      CalendarDateValidate(row[col]).Err? && HistoricalDateValidate(row[col]) == Ok(NaN)
  {
    if row[col] != NaN {
      IsoCellValidates(row, col);
    }
  }

  /** Every date cell of a successful dividend extraction is present; a rendered date validates
      to that date with either validator, and the only other cell is the NaN of a missing date,
      which the calendar's validator rejects. */
  lemma DividendRowsValidate(rows: seq<Row>, out: seq<Row>, i: int, col: string)
    requires PostQuery(rows, DividendOrigin, DividendSteps) == Ok(out)
    requires col == "date" || col == "recordDate" || col == "paymentDate"
    requires 0 <= i < |out|
    ensures col in out[i]
    ensures out[i][col] != NaN ==>
      CalendarDateValidate(out[i][col]).Ok? && CalendarDateValidate(out[i][col]).value.DateValue? &&
      HistoricalDateValidate(out[i][col]).Ok? && HistoricalDateValidate(out[i][col]).value.DateValue?
    ensures out[i][col] == NaN ==>
      CalendarDateValidate(out[i][col]).Err? && HistoricalDateValidate(out[i][col]) == Ok(NaN)
  {
    DividendExtract(rows);
    assert RenderedColumn(out, col);
    RenderedCellValidates(out[i], col);
  }
}
