/** The `Literal[...]` query fields with a default: `period` on the statement endpoints and
    `interval` on historical prices. */
module Periods {
  import opened Outcomes
  import opened Records
  import opened References

  /** A `Literal` field: the strings it admits and the value used when the caller gives none. */
  datatype LiteralField = LiteralField(name: string, choices: seq<string>, default: string)

  /** Validating the field: a missing field takes the default; a given value must be one of
      the strings, and anything else (`None` included) is a validation error. */
  function ParseLiteral(field: LiteralField, given: Option<Value>): (r: Result<string>)
    ensures given.None? ==> r == Ok(field.default)
    ensures given.Some? ==> (r.Ok? <==> given.value.Str? && given.value.s in field.choices)
    ensures given.Some? && r.Ok? ==> r.value == given.value.s
    ensures r.Err? ==> r.error == ValidationError(field.name)
  {
    match given
    case None => Ok(field.default)
    case Some(v) =>
      if v.Str? && v.s in field.choices then Ok(v.s) else Err(ValidationError(field.name))
  }

  const AnnualOrYtd := LiteralField("period", ["annual", "ytd"], "annual")
  const AnnualOrQuarter := LiteralField("period", ["annual", "quarter"], "annual")
  const ReportPeriods := LiteralField("period", ["fy", "q1", "q2ytd", "q3ytd", "annual"], "fy")
  const DailyInterval := LiteralField("interval", ["1d"], "1d")

  /** The `period` of the balance sheet, balance sheet growth, cash flow, cash flow growth,
      income statement and financial ratios: `annual` by default, otherwise `annual` or `ytd`. */
  lemma AnnualOrYtdPeriod(given: Option<Value>)
    ensures var r := ParseLiteral(AnnualOrYtd, given);
      (r.Ok? ==> r.value == "annual" || r.value == "ytd") &&
      (given.None? ==> r == Ok("annual")) &&
      (given == Some(Str("ytd")) ==> r == Ok("ytd")) &&
      (given == Some(Str("quarter")) ==> r.Err?) &&
      (r.Ok? ==> r.value != "ttm")
  {
  }

  /** The income statement growth `period`: `annual` by default, otherwise `annual` or
      `quarter`. */
  lemma AnnualOrQuarterPeriod(given: Option<Value>)
    ensures var r := ParseLiteral(AnnualOrQuarter, given);
      (r.Ok? ==> r.value == "annual" || r.value == "quarter") &&
      (given.None? ==> r == Ok("annual")) &&
      (given == Some(Str("ytd")) ==> r.Err?)
  {
  }

  /** Every period the operational capability endpoint admits is one `get_report_month`
      knows, so that lookup never raises there; the statement endpoints' `ytd` and `quarter`
      are outside its domain. */
  lemma ReportPeriodsKnown(given: Option<Value>)
    ensures var r := ParseLiteral(ReportPeriods, given);
      (given.None? ==> r == Ok("fy")) &&
      (r.Ok? ==> ReportMonth(r.value).Ok?)
    ensures ReportMonth("ytd").Err? && ReportMonth("quarter").Err?
    ensures ReportMonth("q2").Err? && ReportMonth("q3").Err?
  {
  }

  /** Historical prices take only the daily interval. */
  lemma DailyIntervalOnly(given: Option<Value>)
    ensures var r := ParseLiteral(DailyInterval, given);
      r.Ok? ==> r.value == "1d"
    ensures ParseLiteral(DailyInterval, Some(Str("1w"))) == Err(ValidationError("interval"))
  {
  }
}
