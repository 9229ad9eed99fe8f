/** The valuation-multiples fetcher's own logic: only listed symbols are queried, each report
    date is aligned to a trading day, and the joined frame loses its helper columns. The
    listing and the trading-day lookup come from the data store and are parameters. */
module ValuationMultiples {
  import opened Outcomes
  import opened Text
  import opened Dates
  import opened Records
  import opened Frames
  import opened Seqs

  /** `[s for s in symbols if s in stock_listing_info]`. */
  function KeepListed(symbols: seq<string>, listing: seq<string>): (r: seq<string>)
    ensures |r| <= |symbols|
  {
    if symbols == [] then []
    else (if symbols[0] in listing then [symbols[0]] else []) + KeepListed(symbols[1..], listing)
  }

  /** `a` is `b` with some elements left out, the rest in their order. */
  predicate IsSubsequence(a: seq<string>, b: seq<string>)
    decreases |b|
  {
    if a == [] then true
    else if b == [] then false
    else (a[0] == b[0] && IsSubsequence(a[1..], b[1..])) || IsSubsequence(a, b[1..])
  }

  /** The kept symbols are exactly the requested ones that are listed, in request order, each as
      many times as it was requested. */
  lemma {:induction false} KeepListedContents(symbols: seq<string>, listing: seq<string>)
    ensures forall s :: s in KeepListed(symbols, listing) <==> s in symbols && s in listing
    ensures forall s :: multiset(KeepListed(symbols, listing))[s] == if s in listing then multiset(symbols)[s] else 0
    ensures IsSubsequence(KeepListed(symbols, listing), symbols)
  {
    if symbols != [] {
      KeepListedContents(symbols[1..], listing);
      HeadTail(symbols);
      assert multiset(symbols) == multiset{symbols[0]} + multiset(symbols[1..]);
      var rest := KeepListed(symbols[1..], listing);
      if symbols[0] in listing {
        DropHead(symbols[0], rest);
      } else {
        assert KeepListed(symbols, listing) == rest;
        SubsequenceSkip(rest, symbols);
      }
    }
  }

  lemma {:induction false} SubsequenceSkip(a: seq<string>, b: seq<string>)
    requires b != [] && IsSubsequence(a, b[1..])
    ensures IsSubsequence(a, b)
  {
  }

  /** The symbol selection: the comma-split query symbols that are listed, or the empty-data
      error, raised before any finance query, when none is. */
  function SelectSymbols(symbol: string, listing: seq<string>): (r: Result<seq<string>>)
  {
    var kept := KeepListed(Split(symbol, ','), listing);
    if kept == [] then Err(EmptyData(Framework)) else Ok(kept)
  }

  lemma SelectSymbolsEmpty(symbol: string, listing: seq<string>)
    ensures SelectSymbols(symbol, listing).Err? <==> forall s :: s in Split(symbol, ',') ==> s !in listing
    ensures SelectSymbols(symbol, listing).Err? ==> SelectSymbols(symbol, listing).error == EmptyData(Framework)
  {
    KeepListedContents(Split(symbol, ','), listing);
    if SelectSymbols(symbol, listing).Ok? {
      assert KeepListed(Split(symbol, ','), listing)[0] in KeepListed(Split(symbol, ','), listing);
    }
  }

  // The report dates `df["报告期"]` are `Timestamp`s (the later `merge_asof` joins on them as
  // dates). `adjacent(d, k)` stands for `reader.get_adjacent_trade_day(d, k)`: the trading day
  // at offset `k` from `d`, `k = 0` giving `d` itself when `d` is a trading day.

  /** The alignment as written: the day-0 trading day, rendered as a `%Y.%m.%d` string, is
      compared with the report date itself, a `Timestamp`. A `str` never equals a `Timestamp`
      in Python, so the comparison is between two cells of different kinds. */
  function AlignDatesAsWritten(dates: seq<CivilDate>, adjacent: (CivilDate, int) -> CivilDate): (r: seq<string>)
    ensures |r| == |dates|
  {
    seq(|dates|, i requires 0 <= i < |dates| =>
      if Str(Format(adjacent(dates[i], 0), '.')) == DateValue(dates[i])
      then Format(adjacent(dates[i], 0), '.')
      else Format(adjacent(dates[i], 1), '.'))
  }

  /** The day-0 branch of the alignment as written never fires: every report date, trading day
      or not, is replaced by the day-+1 trading day. */
  lemma AlignDatesAsWrittenAlwaysMoves(dates: seq<CivilDate>, adjacent: (CivilDate, int) -> CivilDate)
    ensures forall i :: 0 <= i < |dates| ==>
      AlignDatesAsWritten(dates, adjacent)[i] == Format(adjacent(dates[i], 1), '.')
  {
  }

  /** A lookup in which 2024-09-30 is a trading day and 2024-10-08 the one after it. */
  function SeptemberCalendar(d: CivilDate, k: int): CivilDate
  {
    if k == 0 then d else Date(2024, 10, 8)
  }

  /** The discrepancy on one input: the report date 2024-09-30 is a trading day, yet the
      alignment as written moves it to 2024-10-08, where the intended rule keeps it. */
  lemma TradingDayMovedAsWritten()
    ensures SeptemberCalendar(Date(2024, 9, 30), 0) == Date(2024, 9, 30)
    ensures AlignDatesAsWritten([Date(2024, 9, 30)], SeptemberCalendar) == [Format(Date(2024, 10, 8), '.')]
    ensures AlignDates([Date(2024, 9, 30)], SeptemberCalendar) == [Format(Date(2024, 9, 30), '.')]
    ensures AlignDatesAsWritten([Date(2024, 9, 30)], SeptemberCalendar) != AlignDates([Date(2024, 9, 30)], SeptemberCalendar)
  {
    var kept, moved := Date(2024, 9, 30), Date(2024, 10, 8);
    assert AlignDatesAsWritten([kept], SeptemberCalendar)[0] == Format(moved, '.');
    assert AlignDates([kept], SeptemberCalendar)[0] == Format(kept, '.');
    FormatInjective(kept, moved, '.');
  }

  /** The alignment as intended: a report date that is a trading day is kept, any other moves
      to the next trading day; either way the result is rendered as `%Y.%m.%d`. */
  function AlignDates(dates: seq<CivilDate>, adjacent: (CivilDate, int) -> CivilDate): (r: seq<string>)
    ensures |r| == |dates|
  {
    seq(|dates|, i requires 0 <= i < |dates| =>
      if Format(adjacent(dates[i], 0), '.') == Format(dates[i], '.')
      then Format(adjacent(dates[i], 0), '.')
      else Format(adjacent(dates[i], 1), '.'))
  }

  /** A report date that is a trading day is kept; any other is replaced by the next trading
      day. */
  lemma AlignDatesRule(dates: seq<CivilDate>, adjacent: (CivilDate, int) -> CivilDate, i: int)
    requires 0 <= i < |dates|
    ensures adjacent(dates[i], 0) == dates[i] ==> AlignDates(dates, adjacent)[i] == Format(dates[i], '.')
    ensures adjacent(dates[i], 0) != dates[i] ==> AlignDates(dates, adjacent)[i] == Format(adjacent(dates[i], 1), '.')
  {
    FormatInjective(adjacent(dates[i], 0), dates[i], '.');
  }

  /** The two alignments part exactly on the report dates that are trading days whose next
      trading day is another date. */
  lemma AlignDatesDiffer(dates: seq<CivilDate>, adjacent: (CivilDate, int) -> CivilDate, i: int)
    requires 0 <= i < |dates|
    ensures AlignDatesAsWritten(dates, adjacent)[i] != AlignDates(dates, adjacent)[i] <==>
      adjacent(dates[i], 0) == dates[i] && adjacent(dates[i], 1) != dates[i]
  {
    AlignDatesRule(dates, adjacent, i);
    FormatInjective(adjacent(dates[i], 1), dates[i], '.');
  }

  /** The columns `df.drop` removes. */
  const DroppedColumns: seq<string> := ["timestamp_y", "symbol_y", "报告期", "timestamp_x"]

  /** `df.rename(columns={"symbol_x": "symbol"})` on one record. */
  function RenameSymbol(row: Row): Row
  {
    if "symbol_x" in row then (row - {"symbol_x"})["symbol" := row["symbol_x"]] else row
  }

  /** The first of `cols` that is not a column of the frame. */
  function FirstMissing(rows: seq<Row>, cols: seq<string>): (r: Option<string>)
    ensures r.None? <==> forall i :: 0 <= i < |cols| ==> HasColumn(rows, cols[i])
    ensures r.Some? ==> r.value in cols && !HasColumn(rows, r.value)
  {
    if cols == [] then None
    else if !HasColumn(rows, cols[0]) then Some(cols[0])
    else
      var rest := FirstMissing(rows, cols[1..]);
      assert rest.None? ==> forall i :: 0 <= i < |cols| ==> HasColumn(rows, cols[i]) by {
        if rest.None? {
          forall i | 0 <= i < |cols|
            ensures HasColumn(rows, cols[i])
          {
            if i > 0 { assert cols[i] == cols[1..][i - 1]; }
          }
        }
      }
      rest
  }

  /** `df.drop(columns=[...])` then the rename; dropping a column the frame lacks raises
      `KeyError`. */
  function Reshape(rows: seq<Row>): (r: Result<seq<Row>>)
  {
    match FirstMissing(rows, DroppedColumns)
    case Some(col) => Err(KeyError(col))
    case None =>
      Ok(seq(|rows|, i requires 0 <= i < |rows| => RenameSymbol(rows[i] - set c | c in DroppedColumns)))
  }

  /** Reshaping fails exactly when one of the four columns is missing; otherwise each record
      loses the four columns, has `symbol_x` moved to `symbol`, and keeps everything else. */
  lemma ReshapeContents(rows: seq<Row>)
    ensures Reshape(rows).Ok? <==> forall c :: c in DroppedColumns ==> HasColumn(rows, c)
    ensures Reshape(rows).Err? ==> Reshape(rows).error.KeyError? && Reshape(rows).error.key in DroppedColumns
    ensures Reshape(rows).Ok? ==> |Reshape(rows).value| == |rows|
    ensures Reshape(rows).Ok? ==>
      forall i :: 0 <= i < |rows| ==>
        (forall c :: c in DroppedColumns ==> c !in Reshape(rows).value[i]) &&
        "symbol_x" !in Reshape(rows).value[i] &&
        ("symbol_x" in rows[i] ==> Reshape(rows).value[i]["symbol"] == rows[i]["symbol_x"])
    ensures Reshape(rows).Ok? ==>
      forall i, k :: 0 <= i < |rows| && k in rows[i] && k !in DroppedColumns && k != "symbol_x" && k != "symbol" ==>
        k in Reshape(rows).value[i] && Reshape(rows).value[i][k] == rows[i][k]
  {
    if Reshape(rows).Ok? {
      forall c | c in DroppedColumns
        ensures HasColumn(rows, c)
      {
        var j :| 0 <= j < |DroppedColumns| && DroppedColumns[j] == c;
      }
    }
  }
}
