/** What every fetcher does with the rows the query returns before handing them on: raise the
    empty-data error on zero rows, render date columns as `YYYY-MM-DD` strings, and sort by a
    column in descending order. A DataFrame is modelled as its sequence of row dicts; in a date
    column `Null` stands for a missing date (`NaT`). */
module Frames {
  import opened Outcomes
  import opened Text
  import opened Dates
  import opened Records
  import opened Sorting
  import opened Seqs

  predicate HasColumn(rows: seq<Row>, col: string)
  {
    forall i :: 0 <= i < |rows| ==> col in rows[i]
  }

  /** Every row holds a date in `col`. */
  predicate DateColumn(rows: seq<Row>, col: string)
  {
    forall i :: 0 <= i < |rows| ==> col in rows[i] && rows[i][col].DateValue?
  }

  /** A datetime column: every row holds a date or a missing date (`NaT`) in `col`. */
  predicate DatetimeColumn(rows: seq<Row>, col: string)
  {
    forall i :: 0 <= i < |rows| ==> col in rows[i] && (rows[i][col].DateValue? || rows[i][col].Null?)
  }

  /** A missing value as `sort_values` sees it: `None`, `NaT` or NaN. */
  predicate Missing(v: Value)
  {
    v.Null? || v.NaN?
  }

  /** A column of strings, some of them possibly missing. */
  predicate StrColumn(rows: seq<Row>, col: string)
  {
    forall i :: 0 <= i < |rows| ==> col in rows[i] && (rows[i][col].Str? || Missing(rows[i][col]))
  }

  /** A column of numbers (a `bool` is a number), some of them possibly missing. */
  predicate NumberColumn(rows: seq<Row>, col: string)
  {
    forall i :: 0 <= i < |rows| ==>
      col in rows[i] && (rows[i][col].Int? || rows[i][col].Num? || rows[i][col].Bool? || Missing(rows[i][col]))
  }

  // ---------------------------------------------------------------------------------------
  // Rendering dates

  /** `strftime("%Y-%m-%d")` on one cell, as `.dt` applies it: a date is rendered and a missing
      date becomes NaN. */
  function RenderCell(v: Value): Value
  {
    match v
    case DateValue(d) => Str(Format(d, '-'))
    case Null => NaN
    case _ => v
  }

  /** One row with its `col` cell rendered; every other cell is kept, and the rendered date
      reads back, by `date.fromisoformat`, as the date it was. */
  function RenderRow(row: Row, col: string): (r: Row)
    ensures r.Keys == row.Keys && forall k :: k in row && k != col ==> r[k] == row[k]
    ensures col in row && row[col].DateValue? ==> r[col].Str? && ParseIso(r[col].s) == Some(row[col].at)
    ensures col in row && row[col].Null? ==> r[col] == NaN
  {
    if col !in row then row
    else if row[col].DateValue? then
      ParseIsoFormat(row[col].at);
      row[col := RenderCell(row[col])]
    else row[col := RenderCell(row[col])]
  }

  /** Every row rendered, in order. */
  function RenderAll(rows: seq<Row>, col: string): (r: seq<Row>)
    ensures |r| == |rows| && forall i :: 0 <= i < |rows| ==> r[i] == RenderRow(rows[i], col)
  {
    Map(rows, row => RenderRow(row, col))
  }

  /** Rendering commutes with reordering: permuted rows render to permuted rows. */
  lemma RenderAllPermutation(a: seq<Row>, b: seq<Row>, col: string)
    requires multiset(a) == multiset(b)
    ensures multiset(RenderAll(a, col)) == multiset(RenderAll(b, col))
  {
    MapPermutation(a, b, row => RenderRow(row, col));
  }

  /** `df[col] = df[col].dt.strftime("%Y-%m-%d")`: a missing column is a `KeyError`, and a
      column that is not a datetime column an `AttributeError`; otherwise every row is
      rendered: its date becomes a string that `date.fromisoformat` reads back, a missing date
      becomes NaN, and all other cells are kept. */
  function FormatColumn(rows: seq<Row>, col: string): (r: Result<seq<Row>>)
    ensures r.Ok? <==> DatetimeColumn(rows, col)
    ensures !HasColumn(rows, col) ==> r == Err(KeyError(col))
    ensures HasColumn(rows, col) && r.Err? ==> r.error.AttributeError?
    ensures r.Ok? ==> r.value == RenderAll(rows, col)
    ensures r.Ok? ==> |r.value| == |rows| && forall i :: 0 <= i < |rows| ==>
      r.value[i].Keys == rows[i].Keys &&
      (forall k :: k in rows[i] && k != col ==> r.value[i][k] == rows[i][k]) &&
      (rows[i][col].DateValue? ==> r.value[i][col].Str? && ParseIso(r.value[i][col].s) == Some(rows[i][col].at)) &&
      (rows[i][col].Null? ==> r.value[i][col] == NaN)
  {
    if !HasColumn(rows, col) then Err(KeyError(col))
    else if !DatetimeColumn(rows, col) then Err(AttributeError("Can only use .dt accessor with datetimelike values"))
    else Ok(RenderAll(rows, col))
  }

  /** The position of the first row whose `col` is not a date, or `|rows|` when there is none. */
  function FirstNonDate(rows: seq<Row>, col: string): (i: nat)
    requires HasColumn(rows, col)
    ensures i <= |rows|
    ensures forall j :: 0 <= j < i ==> rows[j][col].DateValue?
    ensures i < |rows| ==> !rows[i][col].DateValue?
  {
    if rows == [] || !rows[0][col].DateValue? then 0 else 1 + FirstNonDate(rows[1..], col)
  }

  /** `df[col] = df[col].apply(lambda x: x.strftime("%Y-%m-%d"))`: the cells are rendered one
      by one, so the first cell that is not a date decides the error: `NaT.strftime` raises
      `ValueError`, any other value has no `strftime` and raises `AttributeError`. */
  function FormatEachColumn(rows: seq<Row>, col: string): (r: Result<seq<Row>>)
    ensures r.Ok? <==> DateColumn(rows, col)
    ensures !HasColumn(rows, col) ==> r == Err(KeyError(col))
    ensures HasColumn(rows, col) && r.Err? ==>
      (r.error.ValueError? <==> rows[FirstNonDate(rows, col)][col].Null?) &&
      (r.error.ValueError? || r.error.AttributeError?)
    ensures r.Ok? ==> r.value == RenderAll(rows, col)
  {
    if !HasColumn(rows, col) then Err(KeyError(col))
    else
      var i := FirstNonDate(rows, col);
      if i == |rows| then Ok(RenderAll(rows, col))
      else if rows[i][col].Null? then Err(ValueError("NaTType does not support strftime"))
      else Err(AttributeError("object has no attribute 'strftime'"))
  }

  // ---------------------------------------------------------------------------------------
  // Sorting

  /** What a cell sorts by: a string itself; a date its `YYYY-MM-DD` rendering (which orders
      dates chronologically, by `FormatOrder`); a number its value; a missing value nothing. */
  datatype SortKey = KeyText(s: string) | KeyNumber(x: real) | KeyMissing

  function CellKey(row: Row, col: string): SortKey
  {
    if col !in row then KeyMissing
    else match row[col]
      case Str(s) => KeyText(s)
      case DateValue(d) => KeyText(Format(d, '-'))
      case Int(i) => KeyNumber(i as real)
      case Num(x) => KeyNumber(x)
      case Bool(b) => KeyNumber(if b then 1.0 else 0.0)
      case _ => KeyMissing
  }

  /** `sort_values(ascending=False)`: a larger key goes ahead of a smaller one, and a missing
      value goes after every present one (`na_position="last"`). Texts and numbers never meet
      in a column that sorts; the order between them only makes the relation total. */
  function Ahead(a: SortKey, b: SortKey): bool
  {
    match (a, b)
    case (KeyMissing, _) => false
    case (_, KeyMissing) => true
    case (KeyText(x), KeyText(y)) => LexLess(y, x)
    case (KeyNumber(x), KeyNumber(y)) => x > y
    case (KeyText(_), KeyNumber(_)) => true
    case (KeyNumber(_), KeyText(_)) => false
  }

  lemma AheadStrictTotal()
    ensures StrictTotal(Ahead)
  {
    forall a: SortKey
      ensures !Ahead(a, a)
    {
      if a.KeyText? { LexLessIrreflexive(a.s); }
    }
    forall a: SortKey, b: SortKey, c: SortKey | Ahead(a, b) && Ahead(b, c)
      ensures Ahead(a, c)
    {
      if a.KeyText? && b.KeyText? && c.KeyText? { LexLessTransitive(c.s, b.s, a.s); }
    }
    forall a: SortKey, b: SortKey | a != b
      ensures Ahead(a, b) || Ahead(b, a)
    {
      if a.KeyText? && b.KeyText? { LexLessTotal(a.s, b.s); }
    }
  }

  /** `df.sort_values(by=col, ascending=False)` on a column of strings, of dates or of numbers,
      any of them possibly missing; a missing column is a `KeyError` and a column mixing kinds
      a `TypeError`. The rows are permuted. */
  function SortColumn(rows: seq<Row>, col: string): (r: Result<seq<Row>>)
    ensures r.Ok? <==> StrColumn(rows, col) || DatetimeColumn(rows, col) || NumberColumn(rows, col)
    ensures !HasColumn(rows, col) ==> r == Err(KeyError(col))
    ensures HasColumn(rows, col) && r.Err? ==> r.error.TypeError?
    ensures r.Ok? ==> multiset(r.value) == multiset(rows)
  {
    if !HasColumn(rows, col) then Err(KeyError(col))
    else if !(StrColumn(rows, col) || DatetimeColumn(rows, col) || NumberColumn(rows, col)) then
      Err(TypeError("'<' not supported between these values"))
    else Ok(SortBy(rows, row => CellKey(row, col), Ahead))
  }

  /** A sorted result never has a row whose key should go ahead of an earlier row's key: larger
      keys first, missing values last. */
  lemma SortColumnDescending(rows: seq<Row>, col: string)
    requires SortColumn(rows, col).Ok?
    ensures var out := SortColumn(rows, col).value;
      forall i, j :: 0 <= i < j < |out| ==> !Ahead(CellKey(out[j], col), CellKey(out[i], col))
  {
    AheadStrictTotal();
    SortByOrdered(rows, row => CellKey(row, col), Ahead);
  }

  /** The rows run from the latest date to the earliest, missing dates last. */
  predicate Chronological(rows: seq<Row>, col: string)
    requires DatetimeColumn(rows, col)
  {
    forall i, j :: 0 <= i < j < |rows| ==>
      (rows[i][col].Null? ==> rows[j][col].Null?) &&
      (rows[i][col].DateValue? && rows[j][col].DateValue? ==> !Before(rows[i][col].at, rows[j][col].at))
  }

  /** Sorting a datetime column succeeds and orders the rows latest date first. */
  lemma {:induction false} SortColumnChronological(rows: seq<Row>, col: string)
    requires DatetimeColumn(rows, col)
    ensures SortColumn(rows, col).Ok?
    ensures DatetimeColumn(SortColumn(rows, col).value, col)
    ensures Chronological(SortColumn(rows, col).value, col)
  {
    var out := SortColumn(rows, col).value;
    SortColumnDescending(rows, col);
    DatetimeColumnPermuted(rows, out, col);
    forall i, j | 0 <= i < j < |out|
      ensures out[i][col].Null? ==> out[j][col].Null?
      ensures out[i][col].DateValue? && out[j][col].DateValue? ==> !Before(out[i][col].at, out[j][col].at)
    {
      PairChronological(out[i], out[j], col);
    }
  }

  /** Two datetime cells in descending sort order are latest first, a missing date only
      followed by another. */
  lemma PairChronological(x: Row, y: Row, col: string)
    requires col in x && (x[col].DateValue? || x[col].Null?)
    requires col in y && (y[col].DateValue? || y[col].Null?)
    requires !Ahead(CellKey(y, col), CellKey(x, col))
    ensures x[col].Null? ==> y[col].Null?
    ensures x[col].DateValue? && y[col].DateValue? ==> !Before(x[col].at, y[col].at)
  {
    if x[col].DateValue? && y[col].DateValue? {
      FormatOrder(x[col].at, y[col].at, '-');
    }
  }

  /** A datetime column stays one when the rows are permuted. */
  lemma DatetimeColumnPermuted(rows: seq<Row>, out: seq<Row>, col: string)
    requires multiset(out) == multiset(rows)
    ensures DatetimeColumn(rows, col) <==> DatetimeColumn(out, col)
    ensures DateColumn(rows, col) <==> DateColumn(out, col)
  {
    forall i | 0 <= i < |out|
      ensures out[i] in multiset(rows)
    {
    }
    forall i | 0 <= i < |rows|
      ensures rows[i] in multiset(out)
    {
    }
  }

  // ---------------------------------------------------------------------------------------
  // The post-query code

  /** A whole-column step of the post-query code: `.dt.strftime`, `.apply(... strftime ...)`,
      or a descending sort. */
  datatype Step = FormatDates(column: string) | FormatEach(column: string) | SortDescending(column: string)

  function ApplyStep(rows: seq<Row>, step: Step): Result<seq<Row>>
  {
    match step
    case FormatDates(col) => FormatColumn(rows, col)
    case FormatEach(col) => FormatEachColumn(rows, col)
    case SortDescending(col) => SortColumn(rows, col)
  }

  /** The steps in order; the first failing one decides the error. None of them raises the
      empty-data error, and none changes the number of rows. */
  function ApplySteps(rows: seq<Row>, steps: seq<Step>): (r: Result<seq<Row>>)
    ensures r.Err? ==> !r.error.EmptyData?
    ensures r.Ok? ==> |r.value| == |rows|
    decreases |steps|
  {
    if steps == [] then Ok(rows)
    else match ApplyStep(rows, steps[0])
      case Err(e) => Err(e)
      case Ok(next) => ApplySteps(next, steps[1..])
  }

  /** `df.empty`: the frame has no rows, or no columns, so that every row is an empty record
      (vacuously so when there are no rows). */
  predicate EmptyFrame(rows: seq<Row>)
  {
    forall i :: 0 <= i < |rows| ==> rows[i] == map[]
  }

  /** The post-query handling: an empty frame is the empty-data error of the endpoint's
      `origin`, and that error arises from nothing else. */
  function PostQuery(rows: seq<Row>, origin: Origin, steps: seq<Step>): (r: Result<seq<Row>>)
    ensures r == Err(EmptyData(origin)) <==> EmptyFrame(rows)
    ensures r.Ok? ==> |r.value| == |rows| && !EmptyFrame(rows)
  {
    if EmptyFrame(rows) then Err(EmptyData(origin)) else ApplySteps(rows, steps)
  }

  /** A query result held in place, as the fetchers hold their DataFrame. */
  class Frame {
    var rows: seq<Row>

    constructor (rows: seq<Row>)
      ensures this.rows == rows
    {
      this.rows := rows;
    }

    /** `df[col] = df[col].dt.strftime("%Y-%m-%d")`; on an error the frame is left as it
        was. */
    method FormatDates(col: string) returns (err: Option<Error>)
      modifies this
      ensures FormatColumn(old(rows), col).Ok? ==> err == None && rows == FormatColumn(old(rows), col).value
      ensures FormatColumn(old(rows), col).Err? ==> err == Some(FormatColumn(old(rows), col).error) && rows == old(rows)
    {
      var r := FormatColumn(rows, col);
      if r.Err? {
        return Some(r.error);
      }
      rows := r.value;
      return None;
    }

    /** `df[col] = df[col].apply(lambda x: x.strftime("%Y-%m-%d"))`; on an error the frame is
        left as it was. */
    method FormatEach(col: string) returns (err: Option<Error>)
      modifies this
      ensures FormatEachColumn(old(rows), col).Ok? ==> err == None && rows == FormatEachColumn(old(rows), col).value
      ensures FormatEachColumn(old(rows), col).Err? ==> err == Some(FormatEachColumn(old(rows), col).error) && rows == old(rows)
    {
      var r := FormatEachColumn(rows, col);
      if r.Err? {
        return Some(r.error);
      }
      rows := r.value;
      return None;
    }

    /** `df.sort_values(by=col, ascending=False, inplace=True)`, or `df = df.sort_values(...)`. */
    method SortDescending(col: string) returns (err: Option<Error>)
      modifies this
      ensures SortColumn(old(rows), col).Ok? ==> err == None && rows == SortColumn(old(rows), col).value
      ensures SortColumn(old(rows), col).Err? ==> err == Some(SortColumn(old(rows), col).error) && rows == old(rows)
    {
      var r := SortColumn(rows, col);
      if r.Err? {
        return Some(r.error);
      }
      rows := r.value;
      return None;
    }

    /** One step applied in place; on an error the frame is left as it was. */
    method Apply(step: Step) returns (err: Option<Error>)
      modifies this
      ensures ApplyStep(old(rows), step).Ok? ==> err == None && rows == ApplyStep(old(rows), step).value
      ensures ApplyStep(old(rows), step).Err? ==> err == Some(ApplyStep(old(rows), step).error) && rows == old(rows)
    {
      match step
      case FormatDates(col) => err := FormatDates(col);
      case FormatEach(col) => err := FormatEach(col);
      case SortDescending(col) => err := SortDescending(col);
    }
  }

  /** The steps from `i` on are step `i`, then the steps after it. */
  lemma StepAt(rows: seq<Row>, steps: seq<Step>, i: int)
    requires 0 <= i < |steps|
    ensures ApplyStep(rows, steps[i]).Err? ==> ApplySteps(rows, steps[i..]) == Err(ApplyStep(rows, steps[i]).error)
    ensures ApplyStep(rows, steps[i]).Ok? ==> ApplySteps(rows, steps[i..]) == ApplySteps(ApplyStep(rows, steps[i]).value, steps[i + 1..])
  {
    assert steps[i..][0] == steps[i] && steps[i..][1..] == steps[i + 1..];
  }

  /** A fetcher's post-query code run on the query result `rows`, ending in
      `df.to_dict(orient="records")`. */
  method Extract(rows: seq<Row>, origin: Origin, steps: seq<Step>) returns (r: Result<seq<Row>>)
    ensures r == PostQuery(rows, origin, steps)
  {
    if EmptyFrame(rows) {
      return Err(EmptyData(origin));
    }
    var frame := new Frame(rows);
    var i := 0;
    while i < |steps|
      invariant 0 <= i <= |steps|
      invariant ApplySteps(rows, steps) == ApplySteps(frame.rows, steps[i..])
    {
      ghost var before := frame.rows;
      StepAt(before, steps, i);
      var err := frame.Apply(steps[i]);
      if err.Some? {
        assert ApplySteps(rows, steps) == Err(err.value);
        return Err(err.value);
      }
      assert ApplySteps(rows, steps) == ApplySteps(frame.rows, steps[i + 1..]);
      i := i + 1;
    }
    assert steps[i..] == [];
    return Ok(frame.rows);
  }
}
