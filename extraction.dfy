/** The post-query code of each modelled fetcher, as a list of column steps, with what each
    guarantees about the rows it hands on. */
module Extraction {
  import opened Outcomes
  import opened Text
  import opened Dates
  import opened Records
  import opened Sorting
  import opened Frames

  /** A string that `date.fromisoformat` accepts. */
  predicate IsoCell(v: Value)
  {
    v.Str? && ParseIso(v.s).Some?
  }

  /** Every row's `col` is a `YYYY-MM-DD` string. */
  predicate IsoColumn(rows: seq<Row>, col: string)
  {
    forall i :: 0 <= i < |rows| ==> col in rows[i] && IsoCell(rows[i][col])
  }

  /** Every row's `col` is a `YYYY-MM-DD` string, or NaN where the date was missing. */
  predicate RenderedColumn(rows: seq<Row>, col: string)
  {
    forall i :: 0 <= i < |rows| ==> col in rows[i] && (IsoCell(rows[i][col]) || rows[i][col].NaN?)
  }

  /** The date a row's `YYYY-MM-DD` cell denotes. */
  function IsoDate(row: Row, col: string): CivilDate
    requires col in row && IsoCell(row[col])
  {
    ParseIso(row[col].s).value
  }

  /** The rows run from the latest date in `col` to the earliest, and missing dates come last. */
  predicate LatestFirst(rows: seq<Row>, col: string)
    requires RenderedColumn(rows, col)
  {
    forall i, j :: 0 <= i < j < |rows| ==>
      (rows[i][col].NaN? ==> rows[j][col].NaN?) &&
      (IsoCell(rows[i][col]) && IsoCell(rows[j][col]) ==> !Before(IsoDate(rows[i], col), IsoDate(rows[j], col)))
  }

  lemma IsoRendered(rows: seq<Row>, col: string)
    requires IsoColumn(rows, col)
    ensures RenderedColumn(rows, col)
  {
  }

  /** Rendering a datetime column gives a rendered column, and rendering a date column a column
      of `YYYY-MM-DD` strings. */
  lemma RenderedDates(rows: seq<Row>, col: string)
    requires DatetimeColumn(rows, col)
    ensures RenderedColumn(RenderAll(rows, col), col)
    ensures DateColumn(rows, col) ==> IsoColumn(RenderAll(rows, col), col)
  {
  }

  /** Whether a column is rendered does not depend on the order of the rows. */
  lemma RenderedPermuted(a: seq<Row>, b: seq<Row>, col: string)
    requires multiset(a) == multiset(b)
    ensures RenderedColumn(a, col) ==> RenderedColumn(b, col)
    ensures IsoColumn(a, col) ==> IsoColumn(b, col)
  {
    forall i | 0 <= i < |b|
      ensures b[i] in multiset(a)
    {
    }
  }

  /** Rendering one column leaves every other column as it was. */
  lemma RenderKeepsOther(rows: seq<Row>, col: string, other: string)
    requires other != col
    ensures var f := RenderAll(rows, col);
      (DatetimeColumn(f, other) <==> DatetimeColumn(rows, other)) &&
      (DateColumn(f, other) <==> DateColumn(rows, other)) &&
      (RenderedColumn(rows, other) ==> RenderedColumn(f, other) && (LatestFirst(rows, other) ==> LatestFirst(f, other))) &&
      (IsoColumn(rows, other) ==> IsoColumn(f, other))
  {
  }

  /** Sorting a rendered column puts the latest date first and the missing ones last. */
  lemma {:induction false} SortRenderedLatestFirst(f: seq<Row>, col: string)
    requires RenderedColumn(f, col)
    ensures SortColumn(f, col).Ok?
    ensures RenderedColumn(SortColumn(f, col).value, col) && LatestFirst(SortColumn(f, col).value, col)
  {
    assert StrColumn(f, col);
    var out := SortColumn(f, col).value;
    RenderedPermuted(f, out, col);
    SortColumnDescending(f, col);
    forall i, j | 0 <= i < j < |out|
      ensures out[i][col].NaN? ==> out[j][col].NaN?
      ensures IsoCell(out[i][col]) && IsoCell(out[j][col]) ==> !Before(IsoDate(out[i], col), IsoDate(out[j], col))
    {
      PairLatestFirst(out[i], out[j], col);
    }
  }

  /** Two rendered cells in sorted order: a missing date comes after every present one, and the
      later of two dates first. */
  lemma PairLatestFirst(x: Row, y: Row, col: string)
    requires col in x && (IsoCell(x[col]) || x[col].NaN?)
    requires col in y && (IsoCell(y[col]) || y[col].NaN?)
    requires !Ahead(CellKey(y, col), CellKey(x, col))
    ensures x[col].NaN? ==> y[col].NaN?
    ensures IsoCell(x[col]) && IsoCell(y[col]) ==> !Before(IsoDate(x, col), IsoDate(y, col))
  {
    if IsoCell(x[col]) && IsoCell(y[col]) {
      ParseIsoOnlyFormatted(x[col].s);
      ParseIsoOnlyFormatted(y[col].s);
      FormatOrder(IsoDate(x, col), IsoDate(y, col), '-');
    }
  }

  /** Rendering rows that run latest first keeps them latest first. */
  lemma RenderChronological(s: seq<Row>, col: string)
    requires DatetimeColumn(s, col) && Chronological(s, col)
    ensures RenderedColumn(RenderAll(s, col), col) && LatestFirst(RenderAll(s, col), col)
  {
    var f := RenderAll(s, col);
    RenderedDates(s, col);
    forall i, j | 0 <= i < j < |f| && IsoCell(f[i][col]) && IsoCell(f[j][col])
      ensures !Before(IsoDate(f[i], col), IsoDate(f[j], col))
    {
      assert IsoDate(f[i], col) == s[i][col].at;
      assert IsoDate(f[j], col) == s[j][col].at;
    }
  }

  /** The step list is consumed from the front. */
  lemma ApplyStepsCons(rows: seq<Row>, step: Step, rest: seq<Step>)
    ensures ApplyStep(rows, step).Err? ==> ApplySteps(rows, [step] + rest) == Err(ApplyStep(rows, step).error)
    ensures ApplyStep(rows, step).Ok? ==> ApplySteps(rows, [step] + rest) == ApplySteps(ApplyStep(rows, step).value, rest)
  {
    assert ([step] + rest)[0] == step && ([step] + rest)[1..] == rest;
  }

  // ---------------------------------------------------------------------------------------
  // Render a column, then sort by it

  /** Render `col` (with `.dt` or with `.apply`), then sort by it: this succeeds exactly when the
      rendering does, and hands on the rendered rows, latest first. */
  lemma {:induction false} RenderThenSort(rows: seq<Row>, fmt: Step, col: string)
    requires fmt == FormatDates(col) || fmt == FormatEach(col)
    ensures var r := ApplySteps(rows, [fmt, SortDescending(col)]);
      (r.Ok? <==> ApplyStep(rows, fmt).Ok?) &&
      (r.Ok? ==>
        multiset(r.value) == multiset(RenderAll(rows, col)) &&
        RenderedColumn(r.value, col) && LatestFirst(r.value, col))
  {
    ApplyStepsCons(rows, fmt, [SortDescending(col)]);
    if ApplyStep(rows, fmt).Ok? {
      var f := RenderAll(rows, col);
      assert DatetimeColumn(rows, col);
      RenderedDates(rows, col);
      SortRenderedLatestFirst(f, col);
      ApplyStepsCons(f, SortDescending(col), []);
    }
  }

  /** balance sheet, balance sheet growth, cash flow, cash flow growth (host framework's error)
      and income statement growth (pandas' error): `df["报告期"].dt.strftime(...)`, then sort by
      it. The growth endpoints scale some columns in between, which touches neither the dates nor
      the order. */
  const ReportDateSteps: seq<Step> := [FormatDates("报告期"), SortDescending("报告期")]

  const BalanceSheetOrigin := Framework
  const CashFlowOrigin := Framework
  const IncomeStatementGrowthOrigin := Pandas

  /** The report-date pipeline: an empty frame is the empty-data error; otherwise it succeeds
      exactly when `报告期` is a datetime column, and then hands on the same rows, each with
      `报告期` rendered (a missing date as NaN), latest report first. */
  lemma {:induction false} ReportDateExtract(rows: seq<Row>, origin: Origin)
    ensures EmptyFrame(rows) ==> PostQuery(rows, origin, ReportDateSteps) == Err(EmptyData(origin))
    ensures rows != [] ==> (PostQuery(rows, origin, ReportDateSteps).Ok? <==> DatetimeColumn(rows, "报告期"))
    ensures var r := PostQuery(rows, origin, ReportDateSteps);
      r.Ok? ==>
        multiset(r.value) == multiset(RenderAll(rows, "报告期")) &&
        RenderedColumn(r.value, "报告期") && LatestFirst(r.value, "报告期") &&
        (DateColumn(rows, "报告期") ==> IsoColumn(r.value, "报告期"))
  {
    var col := "报告期";
    RenderThenSort(rows, FormatDates(col), col);
    var r := PostQuery(rows, origin, ReportDateSteps);
    if r.Ok? && DateColumn(rows, col) {
      RenderedDates(rows, col);
      RenderedPermuted(RenderAll(rows, col), r.value, col);
    }
  }

  /** financial ratios and income statement: `df["报告期"].apply(lambda x: x.strftime(...))`,
      then sort by it (host framework's error). */
  const FinancialRatiosSteps: seq<Step> := [FormatEach("报告期"), SortDescending("报告期")]

  const FinancialRatiosOrigin := Framework

  /** An empty frame is the empty-data error; otherwise it succeeds exactly when every report date
      is present, a missing one raises `ValueError`, and the rows come back rendered, latest
      report first. */
  lemma {:induction false} FinancialRatiosExtract(rows: seq<Row>)
    ensures EmptyFrame(rows) ==> PostQuery(rows, FinancialRatiosOrigin, FinancialRatiosSteps) == Err(EmptyData(Framework))
    ensures rows != [] ==> (PostQuery(rows, FinancialRatiosOrigin, FinancialRatiosSteps).Ok? <==> DateColumn(rows, "报告期"))
    ensures rows != [] && DatetimeColumn(rows, "报告期") && !DateColumn(rows, "报告期") ==>
      PostQuery(rows, FinancialRatiosOrigin, FinancialRatiosSteps).Err? &&
      PostQuery(rows, FinancialRatiosOrigin, FinancialRatiosSteps).error.ValueError?
    ensures var r := PostQuery(rows, FinancialRatiosOrigin, FinancialRatiosSteps);
      r.Ok? ==>
        multiset(r.value) == multiset(RenderAll(rows, "报告期")) &&
        IsoColumn(r.value, "报告期") && LatestFirst(r.value, "报告期")
  {
    var col := "报告期";
    RenderThenSort(rows, FormatEach(col), col);
    ApplyStepsCons(rows, FormatEach(col), [SortDescending(col)]);
    var r := PostQuery(rows, FinancialRatiosOrigin, FinancialRatiosSteps);
    if r.Ok? {
      RenderedDates(rows, col);
      RenderedPermuted(RenderAll(rows, col), r.value, col);
    }
  }

  // ---------------------------------------------------------------------------------------
  // Render two columns, then sort by the first

  /** finance operational capability: `.apply(... strftime ...)` on `报告期` and on
      `timestamp`, then sort by `报告期` (host framework's error). */
  const OperationalCapabilitySteps: seq<Step> :=
    [FormatEach("报告期"), FormatEach("timestamp"), SortDescending("报告期")]

  const OperationalCapabilityOrigin := Framework

  /** Render `b` in rows whose `a` is already rendered, then sort by `a`. */
  lemma {:induction false} FormatThenSort(f1: seq<Row>, b: string, a: string)
    requires a != b && IsoColumn(f1, a)
    ensures var r := ApplySteps(f1, [FormatEach(b), SortDescending(a)]);
      (r.Ok? <==> DateColumn(f1, b)) &&
      (r.Ok? ==>
        multiset(r.value) == multiset(RenderAll(f1, b)) &&
        IsoColumn(r.value, a) && IsoColumn(r.value, b) && LatestFirst(r.value, a))
  {
    ApplyStepsCons(f1, FormatEach(b), [SortDescending(a)]);
    if DateColumn(f1, b) {
      var f2 := RenderAll(f1, b);
      RenderKeepsOther(f1, b, a);
      RenderedDates(f1, b);
      IsoRendered(f2, a);
      SortRenderedLatestFirst(f2, a);
      var out := SortColumn(f2, a).value;
      RenderedPermuted(f2, out, a);
      RenderedPermuted(f2, out, b);
      ApplyStepsCons(f2, SortDescending(a), []);
    }
  }

  /** Render `a` and `b` one cell at a time, then sort by `a`. */
  lemma {:induction false} FormatTwoThenSort(rows: seq<Row>, a: string, b: string)
    requires a != b
    ensures var r := ApplySteps(rows, [FormatEach(a), FormatEach(b), SortDescending(a)]);
      (r.Ok? <==> DateColumn(rows, a) && DateColumn(rows, b)) &&
      (r.Ok? ==>
        multiset(r.value) == multiset(RenderAll(RenderAll(rows, a), b)) &&
        IsoColumn(r.value, a) && IsoColumn(r.value, b) && LatestFirst(r.value, a))
  {
    ApplyStepsCons(rows, FormatEach(a), [FormatEach(b), SortDescending(a)]);
    if DateColumn(rows, a) {
      var f1 := RenderAll(rows, a);
      RenderedDates(rows, a);
      RenderKeepsOther(rows, a, b);
      FormatThenSort(f1, b, a);
    }
  }

  /** An empty frame is the empty-data error; otherwise it succeeds exactly when every report date
      and every timestamp is present, and hands on the same rows with both rendered, latest report
      first. */
  lemma {:induction false} OperationalCapabilityExtract(rows: seq<Row>)
    ensures EmptyFrame(rows) ==> PostQuery(rows, OperationalCapabilityOrigin, OperationalCapabilitySteps) == Err(EmptyData(Framework))
    ensures rows != [] ==>
      (PostQuery(rows, OperationalCapabilityOrigin, OperationalCapabilitySteps).Ok? <==>
       DateColumn(rows, "报告期") && DateColumn(rows, "timestamp"))
    ensures var r := PostQuery(rows, OperationalCapabilityOrigin, OperationalCapabilitySteps);
      r.Ok? ==>
        multiset(r.value) == multiset(RenderAll(RenderAll(rows, "报告期"), "timestamp")) &&
        IsoColumn(r.value, "报告期") && IsoColumn(r.value, "timestamp") && LatestFirst(r.value, "报告期")
  {
    FormatTwoThenSort(rows, "报告期", "timestamp");
  }

  // ---------------------------------------------------------------------------------------
  // Sort by a date column, then render three columns

  /** dividend calendar and historical dividends: sort by `date` while it still holds dates,
      then `.dt.strftime(...)` on `date`, `recordDate` and `paymentDate` (pandas' error). */
  const DividendSteps: seq<Step> :=
    [SortDescending("date"), FormatDates("date"), FormatDates("recordDate"), FormatDates("paymentDate")]

  const DividendOrigin := Pandas

  /** Render `b`, then `c`, in rows whose `a` is rendered and runs latest first. */
  lemma {:induction false} FormatTwoKeepsOrder(f1: seq<Row>, a: string, b: string, c: string)
    requires a != b && a != c && b != c
    requires RenderedColumn(f1, a) && LatestFirst(f1, a)
    ensures var r := ApplySteps(f1, [FormatDates(b), FormatDates(c)]);
      (r.Ok? <==> DatetimeColumn(f1, b) && DatetimeColumn(f1, c)) &&
      (r.Ok? ==>
        r.value == RenderAll(RenderAll(f1, b), c) &&
        RenderedColumn(r.value, a) && RenderedColumn(r.value, b) && RenderedColumn(r.value, c) &&
        LatestFirst(r.value, a))
  {
    ApplyStepsCons(f1, FormatDates(b), [FormatDates(c)]);
    if DatetimeColumn(f1, b) {
      var f2 := RenderAll(f1, b);
      RenderKeepsOther(f1, b, a);
      RenderKeepsOther(f1, b, c);
      RenderedDates(f1, b);
      ApplyStepsCons(f2, FormatDates(c), []);
      if DatetimeColumn(f2, c) {
        RenderKeepsOther(f2, c, a);
        RenderKeepsOther(f2, c, b);
        RenderedDates(f2, c);
      }
    }
  }

  /** Sort by the date column `a`, then render `a`, `b` and `c`. */
  lemma {:induction false} SortThenFormatThree(rows: seq<Row>, a: string, b: string, c: string)
    requires a != b && a != c && b != c
    ensures var r := ApplySteps(rows, [SortDescending(a), FormatDates(a), FormatDates(b), FormatDates(c)]);
      (r.Ok? <==> DatetimeColumn(rows, a) && DatetimeColumn(rows, b) && DatetimeColumn(rows, c)) &&
      (r.Ok? ==>
        multiset(r.value) == multiset(RenderAll(RenderAll(RenderAll(rows, a), b), c)) &&
        RenderedColumn(r.value, a) && RenderedColumn(r.value, b) && RenderedColumn(r.value, c) &&
        LatestFirst(r.value, a))
  {
    ApplyStepsCons(rows, SortDescending(a), [FormatDates(a), FormatDates(b), FormatDates(c)]);
    var sorted := SortColumn(rows, a);
    if sorted.Ok? {
      var s := sorted.value;
      DatetimeColumnPermuted(rows, s, a);
      DatetimeColumnPermuted(rows, s, b);
      DatetimeColumnPermuted(rows, s, c);
      ApplyStepsCons(s, FormatDates(a), [FormatDates(b), FormatDates(c)]);
      if DatetimeColumn(rows, a) {
        SortColumnChronological(rows, a);
        var f1 := RenderAll(s, a);
        RenderChronological(s, a);
        RenderKeepsOther(s, a, b);
        RenderKeepsOther(s, a, c);
        FormatTwoKeepsOrder(f1, a, b, c);
        RenderAllPermutation(s, rows, a);
        RenderAllPermutation(f1, RenderAll(rows, a), b);
        RenderAllPermutation(RenderAll(f1, b), RenderAll(RenderAll(rows, a), b), c);
      }
    }
  }

  /** An empty frame is the empty-data error; otherwise it succeeds exactly when the three columns
      are datetime columns, and hands on the same rows with all three rendered (a missing date as
      NaN), latest `date` first. */
  lemma {:induction false} DividendExtract(rows: seq<Row>)
    ensures EmptyFrame(rows) ==> PostQuery(rows, DividendOrigin, DividendSteps) == Err(EmptyData(Pandas))
    ensures rows != [] ==>
      (PostQuery(rows, DividendOrigin, DividendSteps).Ok? <==>
       DatetimeColumn(rows, "date") && DatetimeColumn(rows, "recordDate") && DatetimeColumn(rows, "paymentDate"))
    ensures var r := PostQuery(rows, DividendOrigin, DividendSteps);
      r.Ok? ==>
        multiset(r.value) == multiset(RenderAll(RenderAll(RenderAll(rows, "date"), "recordDate"), "paymentDate")) &&
        RenderedColumn(r.value, "date") && RenderedColumn(r.value, "recordDate") && RenderedColumn(r.value, "paymentDate") &&
        LatestFirst(r.value, "date")
  {
    SortThenFormatThree(rows, "date", "recordDate", "paymentDate");
  }

  // ---------------------------------------------------------------------------------------
  // Sort only

  /** historical market cap: sort by `timestamp` only (host framework's error). */
  const MarketCapSteps: seq<Step> := [SortDescending("timestamp")]

  const MarketCapOrigin := Framework

  /** On the datetime column the query returns, no rows is the empty-data error; otherwise the
      same rows come back, latest `timestamp` first. */
  lemma MarketCapExtract(rows: seq<Row>)
    requires DatetimeColumn(rows, "timestamp")
    ensures EmptyFrame(rows) ==> PostQuery(rows, MarketCapOrigin, MarketCapSteps) == Err(EmptyData(Framework))
    ensures var r := PostQuery(rows, MarketCapOrigin, MarketCapSteps);
      rows != [] ==>
        r.Ok? && multiset(r.value) == multiset(rows) &&
        DatetimeColumn(r.value, "timestamp") && Chronological(r.value, "timestamp")
  {
    if rows != [] {
      SortColumnChronological(rows, "timestamp");
      assert PostQuery(rows, MarketCapOrigin, MarketCapSteps) == SortColumn(rows, "timestamp");
    }
  }

  /** A frame with rows but no columns is empty too: the empty-data error comes before any
      column step can raise `KeyError`. */
  lemma ColumnlessFrameIsEmpty()
    ensures PostQuery([map[]], MarketCapOrigin, MarketCapSteps) == Err(EmptyData(Framework))
    ensures PostQuery([map[], map[]], BalanceSheetOrigin, ReportDateSteps) == Err(EmptyData(Framework))
  {
  }
}
