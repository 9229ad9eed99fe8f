# openbb_xiaoyuan: a verified model of the fetchers' own logic

`openbb_xiaoyuan` is a data-provider extension for the OpenBB platform. Its fetchers answer
OpenBB queries from the XiaoYuan data store. Each fetcher has three stages:

- `transform_query` validates the query parameters and fills in default dates.
- `extract_data` builds a query script, runs it against the store, and tidies the resulting
  DataFrame: an empty result is an error, date columns become `YYYY-MM-DD` strings, and rows
  are sorted latest first.
- `transform_data` reshapes the records and validates them against the endpoint's data model.

This project models everything the fetchers compute themselves. The store, the clock and the
host framework's helpers are parameters or left out. The modules are:

| module | what it models |
|---|---|
| `Seqs` | facts about sequences of any element type, used by the proofs about record lists |
| `Outcomes` | the errors a fetcher raises (`Result`, `Option`, `Error`) |
| `Text` | Python `str` operations used by the fetchers: `split`, `join`, single-pass `replace`, `list.index`, `<` on strings |
| `Dates` | civil dates; `strftime`; `date.fromisoformat`; the lenient `datetime.strptime`; `toordinal`; `+ timedelta`; `relativedelta` on years |
| `Records` | a record as a dict of cells; the `replace_zero` validator shared by the statement models; a dict mutated in place (`Record`, with `pop`) |
| `Symbols` | the symbol validators (dash to dot, `upper()`), `symbol[-6:]`, splitting a comma-joined symbol list |
| `Periods` | the `Literal` `period` and `interval` fields with their defaults |
| `References` | `get_report_month` and the `get_query_financel_sql` template, with Python's `repr` of string lists |
| `Sorting` | Python's stable `sorted(key=...)`, used also for `sort_values` |
| `Frames` | a DataFrame as its rows; date rendering (`.dt.strftime` and cell-by-cell `.apply`), descending sort with missing values last, and the empty-data check; a `Frame` class holding the rows the code updates in place |
| `Extraction` | each endpoint's post-query steps and what they guarantee about the rows handed on |
| `DateWindows` | `transform_query` of the four date-window endpoints, writing defaults into the caller's dict (class `Params`) |
| `FactorLists` | the factor list derived from an alias table (`list(alias.values())`, then `remove(alias["date"])`) |
| `FinancialRatios` | `transform_data` of financial ratios: key rewriting, the `ttm` stamp, the pops |
| `IncomeStatement` | `transform_data` of the income statement, as written and corrected |
| `KeyMetrics` | `transform_query` and `transform_data` of key metrics: order by requested symbol, drop records without a market cap, pop dict-valued fields in place |
| `ValuationMultiples` | the valuation-multiples fetcher: listed symbols only, report dates moved to trading days, helper columns dropped |

Sources are cited relative to the repository root. Where a rule is copied in several files,
one copy is cited.

## Model

| member | source | states |
|---|---|---|
| Records.ReplaceZeroRow | openbb_xiaoyuan/models/balance_sheet.py:143-151 | the cleaned dict has the same keys and no value equal to zero |
| Records.ReplaceZero | openbb_xiaoyuan/models/financial_ratios.py:220-228 | a dict stays a dict with the same keys; any value that is not a dict passes through unchanged |
| Records.ReplaceZeroChangesExactlyZeros | openbb_xiaoyuan/models/income_statement.py:106-114 | an entry changes exactly when it is `0`, `0.0` or `False`, and then it becomes `None` |
| Records.ReplaceZeroIdempotent | openbb_xiaoyuan/models/cash_flow.py:70-78 | validating twice is the same as validating once |
| Records.ReplaceZeroFixedPoint | openbb_xiaoyuan/models/balance_sheet_growth.py:266-274 | a dict is left as it is exactly when it holds no zero |
| Records.Record.Pop | openbb_xiaoyuan/models/income_statement.py:171-172 | `pop(key, None)` removes only `key` and returns its old value, or `None` when it was absent |
| Symbols.HandleSymbol | openbb_xiaoyuan/models/balance_sheet.py:39-43 | same length; each dash becomes a dot and every other character is kept; no dash remains |
| Symbols.HandleSymbolIdempotent | openbb_xiaoyuan/models/balance_sheet.py:39-43 | normalising twice is normalising once; a symbol is already normal exactly when it has no dash |
| Symbols.ToUpper | openbb_xiaoyuan/standard_models/financial_metrics_per_share.py:18-22 | same length; each character is upper-cased on its own |
| Symbols.ToUpperProperties | openbb_xiaoyuan/standard_models/financial_metrics_per_share.py:18-22 | no lower-case letter remains; every other character is unchanged; upper-casing is idempotent |
| Symbols.ToUpperExample | openbb_xiaoyuan/standard_models/financial_metrics_per_share.py:18-22 | `SH600519` is left alone and `sh600519` becomes `SH600519` |
| Symbols.ToUpperValidator | openbb_xiaoyuan/standard_models/financial_metrics_per_share.py:18-22 | the validator succeeds exactly on strings and returns them upper-cased; any other value raises `AttributeError` |
| Symbols.LastSix | openbb_xiaoyuan/models/historical_dividends.py:97-99 | the result is a suffix of the symbol, six characters long, or the whole of a shorter symbol |
| Symbols.LastSixExample | openbb_xiaoyuan/models/historical_dividends.py:97-99 | `SH600519` gives the code `600519` |
| Symbols.SplitSymbols | openbb_xiaoyuan/models/equity_historical.py:104 | at least one piece; no piece holds a comma; the pieces join back to the query string; there is one more piece than there are commas |
| Text.Split | openbb_xiaoyuan/models/key_metrics.py:199 | `split(",")` never gives an empty list, and no piece holds the separator |
| Text.JoinSplit | openbb_xiaoyuan/models/key_metrics.py:199 | joining the pieces of a split with the separator gives the string back |
| Text.SplitJoin | openbb_xiaoyuan/models/key_metrics.py:199 | splitting a join of separator-free pieces gives the pieces back |
| Text.SplitCount | openbb_xiaoyuan/models/key_metrics.py:199 | a split yields one more piece than there are separators |
| Text.IndexOf | openbb_xiaoyuan/models/key_metrics.py:205-207 | `symbols.index(s)` is the first position holding `s`; the length is returned exactly when `s` is absent |
| Text.RemoveAllLength | openbb_xiaoyuan/models/financial_ratios.py:298-301 | `replace("ttm", "")` shortens the key by three characters per occurrence that `count` finds |
| Text.RemoveAllAbsent | openbb_xiaoyuan/models/financial_ratios.py:298-301 | a key without `ttm` is left unchanged |
| Text.RemoveAllSinglePass | openbb_xiaoyuan/models/financial_ratios.py:298-301 | the pass is not repeated: `tttmtm` becomes `ttm` |
| Dates.FormatOrder | openbb_xiaoyuan/models/balance_sheet.py:209-210 | `YYYY-MM-DD` strings compare as strings exactly as their dates compare in time, so sorting the rendered column sorts by date |
| Dates.ParseIsoFormat | openbb_xiaoyuan/models/historical_dividends.py:53-57 | `date.fromisoformat` reads back what `strftime("%Y-%m-%d")` wrote |
| Dates.ParseIsoOnlyFormatted | openbb_xiaoyuan/models/historical_dividends.py:53-57 | every string `fromisoformat` accepts is the `YYYY-MM-DD` rendering of the date it yields |
| Dates.StrptimeFormat | openbb_xiaoyuan/models/calendar_dividend.py:56-58 | `datetime.strptime(s, "%Y-%m-%d")` reads back what `strftime("%Y-%m-%d")` wrote |
| Dates.StrptimeLenient | openbb_xiaoyuan/models/calendar_dividend.py:56-58 | `strptime` accepts `2024-1-5` as 5 January 2024, where `fromisoformat` rejects it |
| Dates.OrdinalBounds | openbb_xiaoyuan/models/calendar_dividend.py:78 | every representable date has an ordinal from 1 to that of 9999-12-31 |
| Dates.NextDayOrdinal | openbb_xiaoyuan/models/calendar_dividend.py:78 | the next day has the next ordinal, and only 9999-12-31 has no next day |
| Dates.AddDaysOrdinal | openbb_xiaoyuan/models/calendar_dividend.py:78 | `+ timedelta(days=n)` moves the ordinal by exactly `n`, and overflows exactly when that passes 9999-12-31 |
| Dates.WithYear | openbb_xiaoyuan/models/historical_dividends.py:77 | setting the year succeeds exactly for years 1 to 9999; the month is kept and the day is clamped to the month's length |
| Dates.WithYearKeepsDay | openbb_xiaoyuan/models/historical_dividends.py:77 | only February 29 moves, to February 28, and only when the new year is not a leap year |
| Dates.ShiftYearsBack | openbb_xiaoyuan/models/equity_historical.py:80 | going back a positive number of years lands strictly before the date |
| Periods.ParseLiteral | openbb_xiaoyuan/models/balance_sheet.py:34-37 | a missing field takes the default; a given value is accepted exactly when it is one of the listed strings; the error names the field |
| Periods.AnnualOrYtdPeriod | openbb_xiaoyuan/models/financial_ratios.py:36-39 | `period` is `annual` by default and only `annual` or `ytd` otherwise, so it is never `ttm` |
| Periods.AnnualOrQuarterPeriod | openbb_xiaoyuan/models/income_statement_growth.py:37-40 | `period` is `annual` by default, otherwise `annual` or `quarter`; `ytd` is rejected |
| Periods.ReportPeriodsKnown | openbb_xiaoyuan/models/finance_operational_capability.py:32-35 | every admitted period is known to `get_report_month`; `ytd`, `quarter`, `q2` and `q3` are not |
| Periods.DailyIntervalOnly | openbb_xiaoyuan/models/equity_historical.py:34-36 | only the `1d` interval is accepted |
| References.ReportMonth | openbb_xiaoyuan/utils/references.py:42-60 | succeeds exactly on the five known tokens; any other token raises `ValueError` naming it |
| References.FragmentWithoutMonth | openbb_xiaoyuan/utils/references.py:53-59 | with no month the fragment has no month filter and keeps only the latest period |
| References.FragmentWithMonth | openbb_xiaoyuan/utils/references.py:53-59 | with a month the fragment filters on that month and keeps the latest four periods |
| References.ReportMonthShape | openbb_xiaoyuan/utils/references.py:42-60 | `fy` keeps one period with no filter; `q1`, `q2ytd`, `q3ytd` and `annual` filter on months 03, 06, 09 and 12 and keep four periods |
| References.ReportMonthContext | openbb_xiaoyuan/utils/references.py:53-59 | every fragment holds the `context by ... order by 报告期` clause |
| References.ReportMonthInjective | openbb_xiaoyuan/utils/references.py:42-60 | distinct tokens give distinct fragments |
| References.ReprOfSafe | openbb_xiaoyuan/utils/references.py:34-35 | a factor name with no quote, backslash or control character is rendered between single quotes verbatim |
| References.ParseListRepr | openbb_xiaoyuan/utils/references.py:34-35 | the rendering of a list of such names reads back as the same list |
| References.DisassembleAssemble | openbb_xiaoyuan/utils/references.py:30-39 | for any template, the factor list, symbol and fragment can be read back from the assembled text |
| References.DecodeFinancelQueryInverse | openbb_xiaoyuan/utils/references.py:30-39 | the query holds the factor list, the symbol and the fragment verbatim and in that order, whatever the fragment |
| References.FinancelQueryInjective | openbb_xiaoyuan/utils/references.py:30-39 | different factor lists, symbols or fragments give different queries |
| Sorting.Insert | openbb_xiaoyuan/models/key_metrics.py:200-209 | inserting adds exactly the one item |
| Sorting.SortBy | openbb_xiaoyuan/models/key_metrics.py:200-209 | sorting yields a permutation of the input |
| Sorting.SortByOrdered | openbb_xiaoyuan/models/key_metrics.py:200-209 | for a strict total order, no item comes after one whose key it must precede |
| Sorting.SortByStable | openbb_xiaoyuan/models/key_metrics.py:200-209 | items with equal keys keep their input order |
| Frames.RenderRow | openbb_xiaoyuan/models/balance_sheet.py:209 | one record with `col` rendered: same keys, every other cell kept; a date reads back, by `fromisoformat`, as that date; a missing date (`NaT`) becomes NaN |
| Frames.RenderAll | openbb_xiaoyuan/models/balance_sheet.py:209 | one rendered record per record, in order |
| Frames.RenderAllPermutation | openbb_xiaoyuan/models/balance_sheet.py:209-210 | rendering commutes with reordering: permuted inputs give permuted outputs |
| Frames.FormatColumn | openbb_xiaoyuan/models/balance_sheet.py:209 | `.dt.strftime` succeeds exactly on a datetime column (dates and `NaT`), a missing column is a `KeyError` and any other column an `AttributeError`; the result is the input rows, each rendered in place, a `NaT` written as NaN |
| Frames.FirstNonDate | openbb_xiaoyuan/models/financial_ratios.py:288 | the cells before the position are dates and the one at it is not |
| Frames.FormatEachColumn | openbb_xiaoyuan/models/financial_ratios.py:288 | `.apply(x.strftime)` succeeds exactly when every cell is a date; a missing column is a `KeyError`; otherwise the first non-date cell decides: `NaT` raises `ValueError`, anything else `AttributeError`; the result is the input rows, each rendered |
| Frames.SortColumn | openbb_xiaoyuan/models/balance_sheet.py:210 | `sort_values` succeeds exactly on a present column of strings, of dates or of numbers (missing cells allowed); a missing column is a `KeyError` and any other column a `TypeError`; the rows are permuted |
| Frames.AheadStrictTotal | openbb_xiaoyuan/models/balance_sheet.py:210 | the descending order with missing values last is a strict total order |
| Frames.SortColumnDescending | openbb_xiaoyuan/models/balance_sheet.py:210 | after sorting, no row has a smaller key than a later row, and missing values come after all present ones |
| Frames.SortColumnChronological | openbb_xiaoyuan/models/historical_market_cap.py:96 | sorting a datetime column succeeds; the rows run latest date first, with the `NaT` rows last |
| Frames.DatetimeColumnPermuted | openbb_xiaoyuan/models/historical_market_cap.py:96 | being a datetime column, or a column of dates only, does not depend on the order of the rows |
| Frames.ApplySteps | openbb_xiaoyuan/models/balance_sheet.py:209-210 | the column steps keep the number of rows and never raise the empty-data error |
| Frames.PostQuery | openbb_xiaoyuan/models/balance_sheet.py:207-212 | the empty-data error arises exactly when the frame is empty (`df.empty`: no rows, or no columns); otherwise the row count is kept |
| Frames.Frame.FormatDates | openbb_xiaoyuan/models/balance_sheet.py:209 | the frame's rows become the rendered column, or stay as they were and the error is returned |
| Frames.Frame.FormatEach | openbb_xiaoyuan/models/financial_ratios.py:288 | the frame's rows become the cell-by-cell rendered column, or stay as they were and the error is returned |
| Frames.Frame.SortDescending | openbb_xiaoyuan/models/balance_sheet.py:210 | the frame's rows become the sorted rows, or stay as they were and the error is returned |
| Frames.Frame.Apply | openbb_xiaoyuan/models/balance_sheet.py:209-210 | one step applied in place: on success the rows become the step's result; on an error the rows are left as they were and the error is returned |
| Frames.StepAt | openbb_xiaoyuan/models/balance_sheet.py:209-210 | running the steps from position `i` is running step `i`, then the rest on its result, stopping at the first error |
| Frames.Extract | openbb_xiaoyuan/models/balance_sheet.py:207-212 | the statement-by-statement code on a `Frame` returns exactly the post-query result |
| Extraction.RenderedDates | openbb_xiaoyuan/models/balance_sheet.py:209 | rendering a datetime column leaves a column of `YYYY-MM-DD` strings and NaNs, and only strings when no date was missing |
| Extraction.RenderedPermuted | openbb_xiaoyuan/models/balance_sheet.py:209-210 | being a rendered column does not depend on the order of the rows |
| Extraction.RenderKeepsOther | openbb_xiaoyuan/models/calendar_dividend.py:111-113 | rendering one column leaves every other column as it was |
| Extraction.SortRenderedLatestFirst | openbb_xiaoyuan/models/balance_sheet.py:209-210 | sorting a rendered column as strings succeeds and orders the rows latest date first, NaN rows last |
| Extraction.PairLatestFirst | openbb_xiaoyuan/models/balance_sheet.py:210 | two rendered cells in sorted order are in descending date order, a NaN only followed by NaN |
| Extraction.RenderChronological | openbb_xiaoyuan/models/calendar_dividend.py:110-113 | rendering a column that already runs latest first keeps it latest first |
| Extraction.RenderThenSort | openbb_xiaoyuan/models/balance_sheet.py:209-210 | rendering then sorting succeeds exactly when the rendering does; the result is a permutation of the rendered input rows, latest first |
| Extraction.ReportDateExtract | openbb_xiaoyuan/models/cash_flow.py:116-119 | the same steps as balance_sheet.py:207-210, balance_sheet_growth.py:313-318 and cash_flow_growth.py:271-276; an empty frame is the empty-data error; otherwise it succeeds exactly when `报告期` is a datetime column, and the result is a permutation of the input rows with `报告期` rendered (`NaT` as NaN), latest report first |
| Extraction.FinancialRatiosExtract | openbb_xiaoyuan/models/financial_ratios.py:286-289 | the same steps as income_statement.py:158-161; an empty frame is the empty-data error; otherwise it succeeds exactly when every `报告期` is a date, a `NaT` raises `ValueError`, and the result is a permutation of the rendered input rows, latest report first |
| Extraction.FormatThenSort | openbb_xiaoyuan/models/finance_operational_capability.py:111-112 | rendering a second column then sorting by the first succeeds exactly when the second holds dates only; a permutation of the rendered rows, latest first |
| Extraction.FormatTwoThenSort | openbb_xiaoyuan/models/finance_operational_capability.py:110-112 | rendering two columns cell by cell then sorting by the first succeeds exactly when both hold dates only; the result is a permutation of the input rows with both rendered, latest first by the first |
| Extraction.OperationalCapabilityExtract | openbb_xiaoyuan/models/finance_operational_capability.py:108-112 | an empty frame is the empty-data error; it succeeds exactly when `报告期` and `timestamp` hold dates only, and the result is a permutation of the input rows with both rendered, latest report first |
| Extraction.FormatTwoKeepsOrder | openbb_xiaoyuan/models/calendar_dividend.py:111-113 | rendering two more columns of rows that run latest first succeeds exactly when both are datetime columns, and keeps the order |
| Extraction.SortThenFormatThree | openbb_xiaoyuan/models/historical_dividends.py:104-107 | sorting by a date column then rendering three columns succeeds exactly when all three are datetime columns; the result is a permutation of the input rows with all three rendered, latest first |
| Extraction.DividendExtract | openbb_xiaoyuan/models/calendar_dividend.py:108-113 | an empty frame is the empty-data error; it succeeds exactly when `date`, `recordDate` and `paymentDate` are datetime columns, and the result is a permutation of the input rows with all three rendered (`NaT` as NaN), latest `date` first |
| Extraction.MarketCapExtract | openbb_xiaoyuan/models/historical_market_cap.py:94-96 | an empty frame is the empty-data error; otherwise a permutation of the input rows comes back, latest `timestamp` first |
| Extraction.ColumnlessFrameIsEmpty | openbb_xiaoyuan/models/historical_market_cap.py:94-96 | a frame with rows but no columns raises the empty-data error, not the `KeyError` of the sort or the rendering |
| Dividends.CalendarDateValidateCases | openbb_xiaoyuan/models/calendar_dividend.py:48-58 | falsy values become `None`; other non-strings raise `TypeError`; a string yields a date exactly when `strptime` accepts it |
| Dividends.HistoricalDateValidateCases | openbb_xiaoyuan/models/historical_dividends.py:48-57 | non-strings pass through; `""` becomes `None`; an accepted string is the exact `YYYY-MM-DD` form of its date; a rejected one raises `ValueError` |
| Dividends.DateValidateRoundTrip | openbb_xiaoyuan/models/calendar_dividend.py:56-58 | both validators turn a rendered date back into that date |
| Dividends.DateValidatorsDiffer | openbb_xiaoyuan/models/historical_dividends.py:53-57 | the validators disagree on `2024-1-5`, on `0` and on `5` |
| Dividends.IsoCellValidates | openbb_xiaoyuan/models/historical_dividends.py:53-57 | a rendered cell validates, with either validator, to the date it denotes |
| Dividends.MissingDateCell | openbb_xiaoyuan/models/calendar_dividend.py:56-58 | the NaN a missing date becomes is truthy, so the calendar's validator hands it to `strptime`, which raises `TypeError`; the historical validator passes it through |
| Dividends.RenderedCellValidates | openbb_xiaoyuan/models/calendar_dividend.py:48-58 | a rendered date validates to a date with either validator; a NaN is rejected by the calendar's validator and kept by the historical one |
| Dividends.DividendRowsValidate | openbb_xiaoyuan/models/calendar_dividend.py:108-113 | every date cell of a successful dividend extraction is present; a rendered date validates to a date with either validator, and a NaN fails the calendar's validation |
| DateWindows.Params.FillDefault | openbb_xiaoyuan/models/equity_historical.py:78-79 | the caller's dict gets the default only when the key is missing or `None`; a failing default is raised and leaves the dict as it was |
| DateWindows.Params.TransformQuery | openbb_xiaoyuan/models/equity_historical.py:74-83 | the start default is written before the end default is computed; the new dict and the error are those given by `Fill` |
| DateWindows.FillOneKeeps | openbb_xiaoyuan/models/historical_market_cap.py:55-56 | one default touches only its own key, and only when that key is missing |
| DateWindows.FillKeepsGiven | openbb_xiaoyuan/models/historical_market_cap.py:52-59 | a date the caller gave is never overwritten, and no other key is touched, whatever the outcome |
| DateWindows.FillDefaults | openbb_xiaoyuan/models/calendar_dividend.py:72-78 | when nothing is raised both dates are present, each missing one holding its default |
| DateWindows.FillBothGiven | openbb_xiaoyuan/models/historical_dividends.py:73-79 | when both dates are given nothing is computed or raised and the dict is unchanged |
| DateWindows.DefaultWindows | openbb_xiaoyuan/models/equity_historical.py:76-83 | the defaults per endpoint: a year back, five years back, today, 30 days ahead; each raises exactly when it leaves years 1 to 9999 |
| DateWindows.DividendHistoryStart | openbb_xiaoyuan/models/historical_dividends.py:76-77 | `relativedelta(year=1)` sets the year to 1, keeping month and day (February 29 becomes 28), and never raises |
| DateWindows.CalendarPartialWrite | openbb_xiaoyuan/models/calendar_dividend.py:75-78 | on 9999-12-15 the end date overflows after the start date was already written |
| FactorLists.Values | openbb_xiaoyuan/models/equity_historical.py:106 | the store column names in declaration order |
| FactorLists.Lookup | openbb_xiaoyuan/models/equity_historical.py:107 | `alias[key]` succeeds exactly for a declared key and gives its column; otherwise it raises `KeyError` |
| FactorLists.RemoveFirst | openbb_xiaoyuan/models/equity_historical.py:107 | `remove` drops the first occurrence and keeps the rest in order; a missing value raises `ValueError` |
| FactorLists.Factors | openbb_xiaoyuan/models/historical_market_cap.py:78-79 | the factor list exists exactly when the table declares `date`, and is all columns but the date's first occurrence |
| FactorLists.DateFirst | openbb_xiaoyuan/models/historical_market_cap.py:78-79 | when `date` leads the table, its column is the first value and removing it drops the first value |
| FactorLists.EquityHistoricalFactors | openbb_xiaoyuan/models/equity_historical.py:42-50 | the price query asks for open, close, high, low, volume and the adjusted close, in that order |
| FactorLists.MarketCapFactors | openbb_xiaoyuan/models/historical_market_cap.py:30-33 | the market-cap query asks for the market cap alone |
| FinancialRatios.RewriteKeysContents | openbb_xiaoyuan/models/financial_ratios.py:298-301 | the keys are the new names of the columns, and each holds the value of the last column with that new name |
| FinancialRatios.NewKeyCanKeepTtm | openbb_xiaoyuan/models/financial_ratios.py:299 | a rewritten key can still hold `ttm` |
| FinancialRatios.Rewritten | openbb_xiaoyuan/models/financial_ratios.py:298-301 | one rewritten record per record, in order |
| FinancialRatios.PopAll | openbb_xiaoyuan/models/financial_ratios.py:306-308 | every record loses `symbol` and `dividend_yiel_percentage`, and nothing else |
| FinancialRatios.TransformDataRecords | openbb_xiaoyuan/models/financial_ratios.py:294-309 | outside `ttm` it succeeds with one record per record; the keys are the rewritten names minus the two popped ones, each holding its column's value |
| FinancialRatios.TransformDataTtm | openbb_xiaoyuan/models/financial_ratios.py:302-305 | with `ttm`, no records raise `IndexError`; otherwise only the first record is stamped |
| FinancialRatios.TtmStampKept | openbb_xiaoyuan/models/financial_ratios.py:302-308 | the stamp survives the pops: period `TTM` and today's date as a `YYYY-MM-DD` string that reads back as today |
| FinancialRatios.StampFirstInPlace | openbb_xiaoyuan/models/financial_ratios.py:302-305 | `results[0].update(...)` is the stamp on the first record |
| FinancialRatios.PopDropped | openbb_xiaoyuan/models/financial_ratios.py:306-308 | the pop loop gives every record without the two keys, with all other entries kept |
| FinancialRatios.Transform | openbb_xiaoyuan/models/financial_ratios.py:294-309 | the step-by-step code returns exactly `TransformData` |
| IncomeStatement.Validate | openbb_xiaoyuan/models/income_statement.py:62 | validation succeeds exactly when `symbol` holds a string, and returns the record with zeros replaced |
| IncomeStatement.ValidateAll | openbb_xiaoyuan/models/income_statement.py:173 | the list validates exactly when each record does, giving one validated record per record |
| IncomeStatement.Without | openbb_xiaoyuan/models/income_statement.py:170-172 | each record loses exactly the popped keys |
| IncomeStatement.AsWrittenRejectsEveryRecord | openbb_xiaoyuan/models/income_statement.py:170-173 | as written, any non-empty list fails validation on `symbol` |
| IncomeStatement.CorrectedAcceptsRecordsWithSymbol | openbb_xiaoyuan/models/income_statement.py:170-173 | corrected, it succeeds exactly when every record has a string `symbol`; each record loses only `cik` and keeps its `symbol` |
| IncomeStatement.PopSymbolAndCik | openbb_xiaoyuan/models/income_statement.py:170-172 | every dict the list holds loses `symbol` and `cik`, even one held twice |
| IncomeStatement.PopCik | openbb_xiaoyuan/models/income_statement.py:170-172 | every dict the list holds loses `cik` only |
| IncomeStatement.TransformAsWritten | openbb_xiaoyuan/models/income_statement.py:166-173 | the caller's dicts are popped in place and the result is `TransformDataAsWritten` of their old contents |
| IncomeStatement.Transform | openbb_xiaoyuan/models/income_statement.py:166-173 | the corrected version on the caller's dicts gives `TransformDataCorrected` of their old contents |
| KeyMetrics.PeriodWarningCases | openbb_xiaoyuan/models/key_metrics.py:121-125 | for any parameter dict: no warning when `period` is missing, `None` or `annual`; a warning for any other value |
| KeyMetrics.PeriodWarningIgnoresOthers | openbb_xiaoyuan/models/key_metrics.py:121-125 | setting any parameter other than `period` does not change whether the warning fires |
| KeyMetrics.Reordered | openbb_xiaoyuan/models/key_metrics.py:200-209 | reordering by symbol rank permutes the records |
| KeyMetrics.ReorderedOrder | openbb_xiaoyuan/models/key_metrics.py:200-209 | records come in the order of the requested symbols, and records of unrequested symbols come last |
| KeyMetrics.ReorderedStable | openbb_xiaoyuan/models/key_metrics.py:200-209 | records of one rank keep their input order |
| KeyMetrics.TransformDataMissingSymbol | openbb_xiaoyuan/models/key_metrics.py:200-209 | the call fails with `KeyError("symbol")` exactly when some record has no `symbol` |
| KeyMetrics.StripDicts | openbb_xiaoyuan/models/key_metrics.py:218-221 | exactly the dict-valued fields go; every other field keeps its value |
| KeyMetrics.DropDictFields | openbb_xiaoyuan/models/key_metrics.py:218-221 | popping over a copy of the items leaves the record with its dict-valued fields removed |
| KeyMetrics.StripKeepsMarketCap | openbb_xiaoyuan/models/key_metrics.py:214-221 | stripping keeps the market cap of a record that has one |
| KeyMetrics.StripIdempotent | openbb_xiaoyuan/models/key_metrics.py:218-221 | stripping twice is stripping once, and changes nothing exactly when there is no dict field |
| KeyMetrics.SurvivorsConcat | openbb_xiaoyuan/models/key_metrics.py:211-224 | the kept records of two lists are those of each, in order |
| KeyMetrics.SurvivorsPermutation | openbb_xiaoyuan/models/key_metrics.py:211-224 | permuting the input permutes the kept records |
| KeyMetrics.SurvivorsCount | openbb_xiaoyuan/models/key_metrics.py:211-224 | as many records are kept as have a market cap |
| KeyMetrics.SurvivorsFrom | openbb_xiaoyuan/models/key_metrics.py:211-224 | every result is an input record with a market cap, stripped of its dict fields |
| KeyMetrics.SurvivorsKeepOrder | openbb_xiaoyuan/models/key_metrics.py:211-224 | two kept records come out in their input order |
| KeyMetrics.TransformDataContents | openbb_xiaoyuan/models/key_metrics.py:197-225 | the results are the records with a market cap, as many as there are, none holding a dict field |
| KeyMetrics.StripOne | openbb_xiaoyuan/models/key_metrics.py:214-224 | a record without a market cap is skipped and left alone; any other is stripped in place and its contents appended |
| KeyMetrics.StripAgain | openbb_xiaoyuan/models/key_metrics.py:211-224 | a second turn on a dict held twice finds the same market cap and appends the same contents |
| KeyMetrics.StripInOrder | openbb_xiaoyuan/models/key_metrics.py:211-224 | the loop appends exactly the kept records in order, strips exactly the records with a market cap, and leaves every other dict of the caller unchanged |
| KeyMetrics.Transform | openbb_xiaoyuan/models/key_metrics.py:191-225 | the result is `TransformData` of the old contents; each of the caller's dicts with a market cap is stripped in place, unless the call fails |
| ValuationMultiples.KeepListed | openbb_xiaoyuan/models/equity_valuation_multiples.py:78 | no more symbols than requested |
| ValuationMultiples.KeepListedContents | openbb_xiaoyuan/models/equity_valuation_multiples.py:77-78 | exactly the listed requested symbols are kept, in request order and with their multiplicity |
| ValuationMultiples.SelectSymbolsEmpty | openbb_xiaoyuan/models/equity_valuation_multiples.py:70-80 | the empty-data error arises exactly when no requested symbol is listed |
| ValuationMultiples.AlignDatesAsWritten | openbb_xiaoyuan/models/equity_valuation_multiples.py:91-98 | the alignment as written: one `%Y.%m.%d` date per report date |
| ValuationMultiples.AlignDatesAsWrittenAlwaysMoves | openbb_xiaoyuan/models/equity_valuation_multiples.py:91-98 | as written, the day-0 branch never fires: every report date becomes its day-+1 trading day |
| ValuationMultiples.TradingDayMovedAsWritten | openbb_xiaoyuan/models/equity_valuation_multiples.py:91-98 | the trading day 2024-09-30 is moved to 2024-10-08 as written, and kept by the corrected rule |
| ValuationMultiples.AlignDates | openbb_xiaoyuan/models/equity_valuation_multiples.py:91-98 | the corrected alignment: one `%Y.%m.%d` date per report date |
| ValuationMultiples.AlignDatesRule | openbb_xiaoyuan/models/equity_valuation_multiples.py:91-98 | corrected, a report date that is a trading day is kept, and any other becomes the next trading day |
| ValuationMultiples.AlignDatesDiffer | openbb_xiaoyuan/models/equity_valuation_multiples.py:91-98 | the two versions differ on a date exactly when it is a trading day whose day-+1 trading day is another date |
| Dates.FormatInjective | openbb_xiaoyuan/models/equity_valuation_multiples.py:93-94 | two dates render to the same `strftime` string exactly when they are the same date |
| ValuationMultiples.FirstMissing | openbb_xiaoyuan/models/equity_valuation_multiples.py:110 | `None` exactly when all the columns are present; otherwise the column found is one of them and missing |
| ValuationMultiples.ReshapeContents | openbb_xiaoyuan/models/equity_valuation_multiples.py:110-111 | succeeds exactly when all four dropped columns exist (else `KeyError` on one of them); each row loses them, `symbol_x` moves to `symbol`, everything else is kept |

## Left out

- I/O: the data-store reader, the query scripts it runs and their results are not modelled. The rows a query returns, the stock listing and the trading-day lookup are inputs.
- The clock: `datetime.now()` and `pd.Timestamp.now()` are a `today` parameter.
- The host framework's `to_snake_case` is a parameter of `FinancialRatios.NewKey`.
- Model validation beyond what is modelled: only the income statement's required `symbol` check and the `replace_zero`, `date_validate`, `handle_symbol` and `to_upper` validators are modelled. Field coercion and the other data-model fields are not.
- The statement fetchers call `get_report_month(period, -limit)` and `get_query_finance_sql`. Neither matches the helpers in `utils/references.py`, which take one argument or have another name. The fetchers also import `get_query_finance_sql`, `extractMonthDayFromTime`, `getFiscalQuarterFromTime` and `get_specific_daily_sql` from that file, which defines none of them, so those imports do not resolve either. Those calls are not modelled; the helpers as defined are.
- Dates: a date in the model is any date of years 1 to 9999, where a pandas `datetime64[ns]` column spans only 1677-09-21 to 2262-04-11; and `Format` zero-pads a year below 1000 to four digits, where glibc's `%Y` does not pad. No date the fetchers handle falls outside 1677 to 2262, so neither difference reaches their output.
- The `df[columns] /= 100` scaling of the growth endpoints is floating point and is not modelled. Extraction covers only its formatting and sorting.
- `pd.merge_asof` in key metrics and valuation multiples is not modelled. Valuation multiples models the steps around it.
- `warn()` only writes a message. `KeyMetrics.PeriodWarning` records whether it fires; skipping a record is modelled.
- Frames.SortColumn: pandas' default sort is not stable. The model fixes ties in a stable order, so it claims which of two equal-keyed rows comes first where pandas promises nothing.
- Frames.SortColumn: a column mixing strings with numbers or dates, or holding dicts, raises `TypeError` in the model; pandas may sort some such mixes (a `bool` among numbers) by its own rules, which are not modelled. Numbers of any kind are compared by value.
- In a date column `None` stands for `NaT`. An object column holding Python `None` (where `.dt` would raise) is not distinguished from a datetime column with missing values.
- Dates.ParseIso: only the `YYYY-MM-DD` form is modelled. The extra forms Python 3.11's `fromisoformat` accepts (`YYYYMMDD`, week dates) are rejected by the model.
- Dates.Strptime: the `%Y` field is read as four digits. Shorter or space-padded years are not modelled.
- A `datetime` and a `date` are the same value in the model: the time of day is not kept.
- Symbols.ToUpper: only ASCII letters are upper-cased. Python's Unicode case mapping is not modelled.
- References.Repr: non-ASCII characters are taken to be printable. Python escapes unprintable ones.
- ValuationMultiples: the trading-day lookup `get_adjacent_trade_day` is a parameter from a date and an offset to a date; the calendar behind it is not modelled.
- The fetchers that only build a query and hand on its rows, with no logic of their own, are not modelled. Their data models' field declarations are not modelled either.
- Frames.Frame.FormatDates renders a column in one step, as pandas does. No per-cell loop is modelled.
- The concurrency of `aextract_data` is not modelled; the calls are sequential in the model.

## Findings

| source | as written | input that shows it | evidently intended | confidence | as-written member | corrected member |
|---|---|---|---|---|---|---|
| openbb_xiaoyuan/models/income_statement.py:170-173 | `transform_data` pops `symbol` from each record, then validates against a data model whose `symbol: str` field (line 62) is required | any non-empty list of records, e.g. one record `{"symbol": "SH600519"}` | pop only `cik`, so that `symbol` reaches validation | not executed | IncomeStatement.AsWrittenRejectsEveryRecord | IncomeStatement.CorrectedAcceptsRecordsWithSymbol |
| openbb_xiaoyuan/models/equity_valuation_multiples.py:91-98 | the report date `i` is a `Timestamp` and is compared with the string `get_adjacent_trade_day(i, 0).strftime("%Y.%m.%d")`; a `str` never equals a `Timestamp`, so every date takes the day-+1 branch | the report date 2024-09-30 when it is a trading day: it is moved to the next trading day (2024-10-08) | compare the day-0 trading day with the report date itself, keeping a report date that is a trading day | not executed | ValuationMultiples.TradingDayMovedAsWritten | ValuationMultiples.AlignDatesRule |
