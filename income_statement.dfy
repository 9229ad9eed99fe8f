/** The income-statement fetcher's `transform_data`: `symbol` and `cik` are popped from every
    record in place, then each record goes through model validation, whose data model declares
    `symbol: str` as a required field. */
module IncomeStatement {
  import opened Outcomes
  import opened Records

  /** The one check of model validation kept here: after the `replace_zero` before-validator,
      the required `symbol` must hold a string. */
  function Validate(row: Row): (r: Result<Row>)
    ensures r.Ok? <==> "symbol" in row && row["symbol"].Str?
    ensures r.Ok? ==> r.value == ReplaceZeroRow(row)
    ensures r.Err? ==> r.error == ValidationError("symbol")
  {
    var cleaned := ReplaceZeroRow(row);
    if "symbol" in cleaned && cleaned["symbol"].Str? then Ok(cleaned)
    else Err(ValidationError("symbol"))
  }

  /** `[model_validate(d) for d in data]`: the first failure is raised. */
  function ValidateAll(rows: seq<Row>): (r: Result<seq<Row>>)
    ensures r.Ok? <==> forall i :: 0 <= i < |rows| ==> Validate(rows[i]).Ok?
    ensures r.Ok? ==> |r.value| == |rows| && forall i :: 0 <= i < |rows| ==> r.value[i] == Validate(rows[i]).value
  {
    if rows == [] then Ok([])
    else
      match Validate(rows[0])
      case Err(e) => Err(e)
      case Ok(first) =>
        match ValidateAll(rows[1..])
        case Err(e) => Err(e)
        case Ok(rest) => Ok([first] + rest)
  }

  function Without(rows: seq<Row>, keys: set<string>): (r: seq<Row>)
    ensures |r| == |rows| && forall i :: 0 <= i < |rows| ==> r[i] == rows[i] - keys
  {
    seq(|rows|, i requires 0 <= i < |rows| => rows[i] - keys)
  }

  /** `transform_data` as written: validation runs on records that no longer hold `symbol`. */
  function TransformDataAsWritten(rows: seq<Row>): Result<seq<Row>>
  {
    ValidateAll(Without(rows, {"symbol", "cik"}))
  }

  /** As written, any non-empty list of records fails validation on `symbol`. */
  lemma AsWrittenRejectsEveryRecord(rows: seq<Row>)
    requires rows != []
    ensures TransformDataAsWritten(rows) == Err(ValidationError("symbol"))
  {
    assert Validate(Without(rows, {"symbol", "cik"})[0]).Err?;
  }

  /** `transform_data` with only `cik` popped, so that the required `symbol` reaches validation. */
  function TransformDataCorrected(rows: seq<Row>): Result<seq<Row>>
  {
    ValidateAll(Without(rows, {"cik"}))
  }

  /** Corrected, the call succeeds exactly when every record has a string `symbol`; it returns one
      record per record, none with `cik`, every other key kept and only zeros replaced. */
  lemma CorrectedAcceptsRecordsWithSymbol(rows: seq<Row>)
    ensures TransformDataCorrected(rows).Ok? <==> forall i :: 0 <= i < |rows| ==> "symbol" in rows[i] && rows[i]["symbol"].Str?
    ensures TransformDataCorrected(rows).Ok? ==>
      |TransformDataCorrected(rows).value| == |rows| &&
      forall i :: 0 <= i < |rows| ==>
        TransformDataCorrected(rows).value[i].Keys == rows[i].Keys - {"cik"} &&
        TransformDataCorrected(rows).value[i]["symbol"] == rows[i]["symbol"]
  {
    if TransformDataCorrected(rows).Ok? {
      forall i | 0 <= i < |rows|
        ensures "symbol" in rows[i] && rows[i]["symbol"].Str?
      {
        assert Validate(Without(rows, {"cik"})[i]).Ok?;
      }
    }
  }

  /** The pop loop over the caller's dicts, as written: a record held twice in the list is
      popped twice, to no further effect. */
  method PopSymbolAndCik(data: seq<Record>)
    modifies data
    ensures forall x :: x in data ==> x.fields == old(x.fields) - {"symbol", "cik"}
  {
    var i := 0;
    while i < |data|
      invariant 0 <= i <= |data|
      invariant forall x :: x in data ==>
        x.fields == if x in data[..i] then old(x.fields) - {"symbol", "cik"} else old(x.fields)
    {
      var result := data[i];
      var _ := result.Pop("symbol");
      var _ := result.Pop("cik");
      assert data[..i + 1] == data[..i] + [result];
      i := i + 1;
    }
    assert data[..i] == data;
  }

  /** The corrected pop loop. */
  method PopCik(data: seq<Record>)
    modifies data
    ensures forall x :: x in data ==> x.fields == old(x.fields) - {"cik"}
  {
    var i := 0;
    while i < |data|
      invariant 0 <= i <= |data|
      invariant forall x :: x in data ==>
        x.fields == if x in data[..i] then old(x.fields) - {"cik"} else old(x.fields)
    {
      var result := data[i];
      var _ := result.Pop("cik");
      assert data[..i + 1] == data[..i] + [result];
      i := i + 1;
    }
    assert data[..i] == data;
  }

  /** `transform_data` as written, on the caller's dicts. */
  method TransformAsWritten(data: seq<Record>) returns (r: Result<seq<Row>>)
    modifies data
    ensures forall x :: x in data ==> x.fields == old(x.fields) - {"symbol", "cik"}
    ensures r == TransformDataAsWritten(old(Snapshot(data)))
  {
    ghost var rows := Snapshot(data);
    PopSymbolAndCik(data);
    assert Snapshot(data) == Without(rows, {"symbol", "cik"});
    r := ValidateAll(Snapshot(data));
  }

  /** The corrected `transform_data`, on the caller's dicts. */
  method Transform(data: seq<Record>) returns (r: Result<seq<Row>>)
    modifies data
    ensures forall x :: x in data ==> x.fields == old(x.fields) - {"cik"}
    ensures r == TransformDataCorrected(old(Snapshot(data)))
  {
    ghost var rows := Snapshot(data);
    PopCik(data);
    assert Snapshot(data) == Without(rows, {"cik"});
    r := ValidateAll(Snapshot(data));
  }
}
