/** The financial-ratios fetcher's `transform_data`: every key of every record is rewritten to
    its snake-case form with `"ttm"` removed, a `"ttm"` period would stamp the first record, and
    two keys are popped from each rewritten record. */
module FinancialRatios {
  import opened Outcomes
  import opened Text
  import opened Dates
  import opened Records

  /** A record as `DataFrame.to_dict` hands it over: its items in column order. */
  type Items = seq<(string, Value)>

  /** The new name of a column. `to_snake_case` belongs to the host framework and is a
      parameter here. */
  function NewKey(snake: string -> string, k: string): string
  {
    RemoveAll(snake(k), "ttm")
  }

  /** `{to_snake_case(k).replace("ttm", ""): v for k, v in item.items()}`: items are inserted
      in order, so when two columns get the same new name the later one wins. */
  function RewriteKeys(snake: string -> string, items: Items): (r: Row)
  {
    if items == [] then map[]
    else
      var last := items[|items| - 1];
      RewriteKeys(snake, items[..|items| - 1])[NewKey(snake, last.0) := last.1]
  }

  /** The keys of a rewritten record are the new names of its columns, and each holds the value
      of the last column with that new name. */
  lemma {:induction false} RewriteKeysContents(snake: string -> string, items: Items, key: string)
    ensures key in RewriteKeys(snake, items) <==> exists i :: 0 <= i < |items| && NewKey(snake, items[i].0) == key
    ensures key in RewriteKeys(snake, items) ==>
      exists i :: 0 <= i < |items| && NewKey(snake, items[i].0) == key && RewriteKeys(snake, items)[key] == items[i].1 &&
        (forall j :: i < j < |items| ==> NewKey(snake, items[j].0) != key)
  {
    if items != [] {
      var init := items[..|items| - 1];
      var last := items[|items| - 1];
      RewriteKeysContents(snake, init, key);
      if NewKey(snake, last.0) != key {
        if key in RewriteKeys(snake, items) {
          var i :| 0 <= i < |init| && NewKey(snake, init[i].0) == key && RewriteKeys(snake, init)[key] == init[i].1 &&
            forall j :: i < j < |init| ==> NewKey(snake, init[j].0) != key;
          LaterKeysDiffer(snake, items, init, key, i);
        } else {
          forall i | 0 <= i < |items|
            ensures NewKey(snake, items[i].0) != key
          {
            if i < |init| { assert items[i] == init[i]; }
          }
        }
      }
    }
  }

  /** A match that is the last one among all items but the final one, where the final one does
      not match, is the last one among all items. */
  lemma LaterKeysDiffer(snake: string -> string, items: Items, init: Items, key: string, i: int)
    requires items != [] && init == items[..|items| - 1] && NewKey(snake, items[|items| - 1].0) != key
    requires 0 <= i < |init| && forall j :: i < j < |init| ==> NewKey(snake, init[j].0) != key
    ensures forall j :: i < j < |items| ==> NewKey(snake, items[j].0) != key
  {
    forall j | i < j < |items|
      ensures NewKey(snake, items[j].0) != key
    {
      if j < |init| { assert items[j] == init[j]; }
    }
  }

  /** `replace` is one pass, so a rewritten key can still hold `"ttm"`. */
  lemma NewKeyCanKeepTtm()
    ensures NewKey(s => s, "tttmtm") == "ttm"
  {
    RemoveAllSinglePass();
  }

  /** The two keys popped from each record. */
  const Dropped: set<string> := {"symbol", "dividend_yiel_percentage"}

  /** The stamp the `"ttm"` branch puts on the first record, with today's date. */
  function TtmStamp(today: CivilDate): Row
  {
    map["period" := Str("TTM"), "date" := Str(Format(today, '-'))]
  }

  /** `results[0].update(...)` when the period is `"ttm"`; an empty list raises `IndexError`. */
  function StampFirst(period: string, today: CivilDate, results: seq<Row>): (r: Result<seq<Row>>)
  {
    if period != "ttm" then Ok(results)
    else if results == [] then Err(IndexError)
    else Ok([results[0] + TtmStamp(today)] + results[1..])
  }

  /** The list comprehension over the records. */
  function Rewritten(snake: string -> string, data: seq<Items>): (rows: seq<Row>)
    ensures |rows| == |data| && forall i :: 0 <= i < |data| ==> rows[i] == RewriteKeys(snake, data[i])
  {
    seq(|data|, i requires 0 <= i < |data| => RewriteKeys(snake, data[i]))
  }

  /** Every record without the two popped keys. */
  function PopAll(rows: seq<Row>): (out: seq<Row>)
    ensures |out| == |rows| && forall i :: 0 <= i < |rows| ==> out[i] == rows[i] - Dropped
  {
    seq(|rows|, i requires 0 <= i < |rows| => rows[i] - Dropped)
  }

  /** What `transform_data` returns, before model validation. */
  function TransformData(snake: string -> string, period: string, today: CivilDate, data: seq<Items>): (r: Result<seq<Row>>)
  {
    match StampFirst(period, today, Rewritten(snake, data))
    case Err(e) => Err(e)
    case Ok(stamped) => Ok(PopAll(stamped))
  }

  /** One record out per record in; none keeps `symbol` or `dividend_yiel_percentage`; every
      other key is a rewritten column name and holds that column's value. */
  lemma TransformDataRecords(snake: string -> string, period: string, today: CivilDate, data: seq<Items>)
    requires period != "ttm"
    ensures TransformData(snake, period, today, data).Ok?
    ensures |TransformData(snake, period, today, data).value| == |data|
    ensures forall i :: 0 <= i < |data| ==>
      TransformData(snake, period, today, data).value[i].Keys == RewriteKeys(snake, data[i]).Keys - Dropped
    ensures forall i, k :: 0 <= i < |data| && k in TransformData(snake, period, today, data).value[i] ==>
      TransformData(snake, period, today, data).value[i][k] == RewriteKeys(snake, data[i])[k]
  {
  }

  /** The `"ttm"` branch: it fails on no records, and otherwise stamps only the first one. */
  lemma TransformDataTtm(snake: string -> string, today: CivilDate, data: seq<Items>)
    ensures TransformData(snake, "ttm", today, data).Err? <==> data == []
    ensures data == [] ==> TransformData(snake, "ttm", today, data) == Err(IndexError)
    ensures data != [] ==>
      TransformData(snake, "ttm", today, data).value[0] == (RewriteKeys(snake, data[0]) + TtmStamp(today)) - Dropped
    ensures forall i :: 1 <= i < |data| ==>
      TransformData(snake, "ttm", today, data).value[i] == RewriteKeys(snake, data[i]) - Dropped
  {
    var rows := Rewritten(snake, data);
    if data != [] {
      var stamped := [rows[0] + TtmStamp(today)] + rows[1..];
      assert StampFirst("ttm", today, rows) == Ok(stamped);
      assert TransformData(snake, "ttm", today, data) == Ok(PopAll(stamped));
      assert forall i :: 1 <= i < |data| ==> stamped[i] == rows[i];
    }
  }

  /** The stamp survives the pops: the first record ends up with period `"TTM"` and today's date
      as `YYYY-MM-DD`. */
  lemma TtmStampKept(row: Row, today: CivilDate)
    ensures ((row + TtmStamp(today)) - Dropped)["period"] == Str("TTM")
    ensures ((row + TtmStamp(today)) - Dropped)["date"] == Str(Format(today, '-'))
    ensures ParseIso(((row + TtmStamp(today)) - Dropped)["date"].s) == Some(today)
  {
    ParseIsoFormat(today);
  }

  /** The loop `for item in results: item.pop("symbol", None); item.pop(...)` over the freshly
      built list. */
  method PopDropped(results: seq<Row>) returns (out: seq<Row>)
    ensures out == PopAll(results)
    ensures forall i :: 0 <= i < |out| ==> out[i].Keys == results[i].Keys - Dropped
    ensures forall i, k :: 0 <= i < |out| && k in out[i] ==> out[i][k] == results[i][k]
  {
    out := results;
    var i := 0;
    while i < |out|
      invariant 0 <= i <= |out| == |results|
      invariant forall j :: 0 <= j < i ==> out[j] == results[j] - Dropped
      invariant forall j :: i <= j < |out| ==> out[j] == results[j]
    {
      out := out[i := out[i] - {"symbol"}];
      out := out[i := out[i] - {"dividend_yiel_percentage"}];
      i := i + 1;
    }
    assert out == PopAll(results);
  }

  /** The `"ttm"` stamp is the update of the first record in place. */
  lemma StampFirstInPlace(today: CivilDate, rows: seq<Row>)
    requires rows != []
    ensures StampFirst("ttm", today, rows) == Ok(rows[0 := rows[0] + TtmStamp(today)])
  {
    assert rows[0 := rows[0] + TtmStamp(today)] == [rows[0] + TtmStamp(today)] + rows[1..];
  }

  /** `transform_data` step by step. */
  method Transform(snake: string -> string, period: string, today: CivilDate, data: seq<Items>) returns (r: Result<seq<Row>>)
    ensures r == TransformData(snake, period, today, data)
  {
    var results := Rewritten(snake, data);
    ghost var built := results;
    if period == "ttm" {
      if results == [] {
        return Err(IndexError);
      }
      results := results[0 := results[0] + TtmStamp(today)];
      StampFirstInPlace(today, built);
    }
    var out := PopDropped(results);
    return Ok(out);
  }
}
