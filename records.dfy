/** The records the fetchers pass around: a row of a query result, turned into a Python dict
    by `DataFrame.to_dict(orient="records")`, and the `replace_zero` before-validator that the
    statement models share. */
module Records {
  import opened Dates

  /** A cell or dict value. Numbers are exact: the model does not follow floating point. */
  datatype Value =
    | Null                          // None
    | Int(i: int)
    | Num(x: real)
    | Bool(b: bool)
    | Str(s: string)
    | DateValue(at: CivilDate)      // a pandas Timestamp or a datetime.date
    | NaN                           // float("nan"), what `.dt.strftime` writes for a missing date
    | Dict(fields: map<string, Value>)

  type Row = map<string, Value>

  /** Python's `v == 0`: true for integer zero, a numeric zero and `False` (a `bool` is an
      `int`), and for nothing else: not for `None`, NaN, `"0"` or an empty dict. */
  predicate IsZero(v: Value)
  {
    v == Int(0) || v == Num(0.0) || v == Bool(false)
  }

  /** The dict comprehension `{k: None if v == 0 else v for k, v in values.items()}`. */
  function ReplaceZeroRow(row: Row): (r: Row)
    ensures r.Keys == row.Keys
    ensures forall k :: k in r ==> !IsZero(r[k])
  {
    map k | k in row :: if IsZero(row[k]) then Null else row[k]
  }

  /** `replace_zero`: a dict has its zero values replaced by `None`; anything else that reaches
      the validator is passed through. */
  function ReplaceZero(v: Value): (r: Value)
    ensures r.Dict? <==> v.Dict?
    ensures !v.Dict? ==> r == v
    ensures v.Dict? ==> r.fields.Keys == v.fields.Keys
  {
    if v.Dict? then Dict(ReplaceZeroRow(v.fields)) else v
  }

  /** Exactly the zero-valued entries change, and they become `None`; every other entry keeps its
      value. */
  lemma ReplaceZeroChangesExactlyZeros(row: Row, k: string)
    requires k in row
    ensures ReplaceZeroRow(row)[k] != row[k] <==> IsZero(row[k])
    ensures ReplaceZeroRow(row)[k] != row[k] ==> ReplaceZeroRow(row)[k] == Null
  {
  }

  /** Applying the validator twice is the same as applying it once. */
  lemma ReplaceZeroIdempotent(v: Value)
    ensures ReplaceZero(ReplaceZero(v)) == ReplaceZero(v)
  {
    if v.Dict? {
      var once := ReplaceZeroRow(v.fields);
      assert ReplaceZeroRow(once) == once;
    }
  }

  /** A dict is left as it is exactly when it holds no zero value. */
  lemma ReplaceZeroFixedPoint(row: Row)
    ensures ReplaceZeroRow(row) == row <==> forall k :: k in row ==> !IsZero(row[k])
  {
    if forall k :: k in row ==> !IsZero(row[k]) {
      assert ReplaceZeroRow(row) == row;
    } else {
      var k :| k in row && IsZero(row[k]);
      assert ReplaceZeroRow(row)[k] != row[k];
    }
  }

  /** A dict that the code mutates in place (`dict.pop`), shared by every list that holds it. */
  class Record {
    var fields: Row

    constructor (fields: Row)
      ensures this.fields == fields
    {
      this.fields := fields;
    }

    /** `d.pop(key, None)`: removes `key` if present and returns its value, or `None`. */
    method Pop(key: string) returns (v: Value)
      modifies this
      ensures fields == old(fields) - {key}
      ensures v == if key in old(fields) then old(fields)[key] else Null
    {
      v := if key in fields then fields[key] else Null;
      fields := fields - {key};
    }
  }

  /** The records as the list `data` holds them. */
  function Snapshot(data: seq<Record>): (rows: seq<Row>)
    reads data
    ensures |rows| == |data| && forall i :: 0 <= i < |data| ==> rows[i] == data[i].fields
  {
    if data == [] then [] else [data[0].fields] + Snapshot(data[1..])
  }
}
