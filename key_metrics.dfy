/** The key-metrics fetcher's `transform_query` and `transform_data`: the records are put in the
    order of the requested symbols, records without a market cap are dropped, and fields that
    came back as a dict (a bad response) are removed from the records that remain. */
module KeyMetrics {
  import opened Outcomes
  import opened Text
  import opened Records
  import opened Sorting
  import opened Seqs

  const MarketCap := "总市值"

  /** `transform_query` warns when a period other than `"annual"` is given (a `None` counts as
      not given) and otherwise passes the parameters on unchanged. */
  function PeriodWarning(params: Row): (warn: bool)
  {
    "period" in params && params["period"] != Null && params["period"] != Str("annual")
  }

  /** For any parameters: no warning when `period` is missing, `None` or `"annual"`, and a
      warning for every other period value. */
  lemma PeriodWarningCases(params: Row)
    ensures "period" !in params ==> !PeriodWarning(params)
    ensures "period" in params && (params["period"] == Null || params["period"] == Str("annual")) ==> !PeriodWarning(params)
    ensures "period" in params && params["period"] != Null && params["period"] != Str("annual") ==> PeriodWarning(params)
  {
  }

  /** Setting any parameter other than `period` does not change whether the warning fires. */
  lemma PeriodWarningIgnoresOthers(params: Row, k: string, v: Value)
    requires k != "period"
    ensures PeriodWarning(params[k := v]) == PeriodWarning(params)
  {
  }

  /** The sort key: the position of the record's symbol among the requested ones, or one past
      the end for a symbol that was not requested (the value can be anything, and only a
      string can be equal to a requested symbol). A record without `"symbol"` is never given a
      key: that raises a `KeyError` before anything is sorted. */
  function Rank(symbols: seq<string>, row: Row): nat
  {
    if "symbol" in row && row["symbol"].Str? then IndexOf(symbols, row["symbol"].s)
    else |symbols|
  }

  predicate Listed(symbols: seq<string>, row: Row)
  {
    "symbol" in row && row["symbol"].Str? && row["symbol"].s in symbols
  }

  function Ascending(a: nat, b: nat): bool
  {
    a < b
  }

  lemma AscendingStrictTotal()
    ensures StrictTotal(Ascending)
  {
  }

  /** `sorted(data, key=...)`: a stable sort by rank. */
  function Reordered(symbols: seq<string>, rows: seq<Row>): (r: seq<Row>)
    ensures multiset(r) == multiset(rows)
  {
    SortBy(rows, row => Rank(symbols, row), Ascending)
  }

  /** The `item.get("总市值") is None or isinstance(..., dict)` test, negated. */
  predicate HasMarketCap(row: Row)
  {
    MarketCap in row && row[MarketCap] != Null && !row[MarketCap].Dict?
  }

  predicate NoDictFields(row: Row)
  {
    forall k :: k in row ==> !row[k].Dict?
  }

  /** The record after its dict-valued fields are popped. */
  function StripDicts(row: Row): (r: Row)
    ensures NoDictFields(r)
    ensures forall k :: k in row ==> (k in r <==> !row[k].Dict?)
    ensures forall k :: k in r ==> k in row && r[k] == row[k]
  {
    map k | k in row && !row[k].Dict? :: row[k]
  }

  /** The records that are kept, in order, each with its dict fields removed. */
  function Survivors(rows: seq<Row>): seq<Row>
  {
    if rows == [] then []
    else (if HasMarketCap(rows[0]) then [StripDicts(rows[0])] else []) + Survivors(rows[1..])
  }

  function CountWithMarketCap(rows: seq<Row>): nat
  {
    if rows == [] then 0
    else (if HasMarketCap(rows[0]) then 1 else 0) + CountWithMarketCap(rows[1..])
  }

  predicate MissingSymbol(rows: seq<Row>)
  {
    exists i :: 0 <= i < |rows| && "symbol" !in rows[i]
  }

  /** What `transform_data` returns for the records `rows` and the query's `symbol` string. */
  function TransformData(symbol: string, rows: seq<Row>): (r: Result<seq<Row>>)
  {
    if MissingSymbol(rows) then Err(KeyError("symbol"))
    else Ok(Survivors(Reordered(Split(symbol, ','), rows)))
  }

  lemma {:induction false} SurvivorsConcat(a: seq<Row>, b: seq<Row>)
    ensures Survivors(a + b) == Survivors(a) + Survivors(b)
  {
    if a != [] {
      assert (a + b)[1..] == a[1..] + b;
      SurvivorsConcat(a[1..], b);
    } else {
      assert a + b == b;
    }
  }

  lemma RemoveMatching(a: seq<Row>, b: seq<Row>, k: int)
    requires multiset(a) == multiset(b) && a != [] && 0 <= k < |b| && b[k] == a[0]
    ensures multiset(a[1..]) == multiset(b[..k] + b[k + 1..])
  {
    assert b == b[..k] + [b[k]] + b[k + 1..];
    assert a == [a[0]] + a[1..];
    assert multiset(b) == multiset(b[..k]) + multiset([b[k]]) + multiset(b[k + 1..]);
    assert multiset(b[..k] + b[k + 1..]) == multiset(b[..k]) + multiset(b[k + 1..]);
    assert multiset(a[1..]) == multiset(a) - multiset{a[0]};
  }

  lemma SurvivorsAround(b: seq<Row>, k: int)
    requires 0 <= k < |b|
    ensures multiset(Survivors(b)) == multiset(Survivors([b[k]])) + multiset(Survivors(b[..k] + b[k + 1..]))
  {
    var l, m, r := b[..k], [b[k]], b[k + 1..];
    SplitAt(b, k);
    SurvivorsConcat(l, m + r);
    SurvivorsConcat(m, r);
    SurvivorsConcat(l, r);
    MultisetMiddle(Survivors(l), Survivors(m), Survivors(r));
  }

  /** Survivors, as a collection, do not depend on the order of the records. */
  lemma {:induction false} SurvivorsPermutation(a: seq<Row>, b: seq<Row>)
    requires multiset(a) == multiset(b)
    ensures multiset(Survivors(a)) == multiset(Survivors(b))
    decreases |a|
  {
    if a != [] {
      var k := FindIn(a[0], b);
      RemoveMatching(a, b, k);
      SurvivorsPermutation(a[1..], b[..k] + b[k + 1..]);
      SurvivorsAround(b, k);
      SurvivorsHead(a);
    } else {
      assert |b| == |multiset(b)| == 0;
    }
  }

  lemma FindIn(x: Row, b: seq<Row>) returns (k: int)
    requires x in multiset(b)
    ensures 0 <= k < |b| && b[k] == x
  {
    assert x in b;
    k :| 0 <= k < |b| && b[k] == x;
  }

  lemma SurvivorsHead(a: seq<Row>)
    requires a != []
    ensures multiset(Survivors(a)) == multiset(Survivors([a[0]])) + multiset(Survivors(a[1..]))
  {
    assert [a[0]][1..] == [];
  }

  lemma {:induction false} SurvivorsCount(rows: seq<Row>)
    ensures |Survivors(rows)| == CountWithMarketCap(rows)
  {
    if rows != [] {
      SurvivorsCount(rows[1..]);
    }
  }

  /** Every result is a kept record with its dict fields removed, and the results are exactly
      as many as the records that have a market cap. */
  lemma {:induction false} SurvivorsFrom(rows: seq<Row>, i: int)
    requires 0 <= i < |Survivors(rows)|
    ensures exists j :: 0 <= j < |rows| && HasMarketCap(rows[j]) && Survivors(rows)[i] == StripDicts(rows[j])
  {
    if HasMarketCap(rows[0]) && i == 0 {
      assert Survivors(rows)[0] == StripDicts(rows[0]);
    } else {
      var i' := if HasMarketCap(rows[0]) then i - 1 else i;
      assert Survivors(rows)[i] == Survivors(rows[1..])[i'];
      SurvivorsFrom(rows[1..], i');
      var j :| 0 <= j < |rows[1..]| && HasMarketCap(rows[1..][j]) && Survivors(rows[1..])[i'] == StripDicts(rows[1..][j]);
      assert rows[1..][j] == rows[j + 1];
    }
  }

  /** A record without `"symbol"` makes the whole call fail, whatever the other records are. */
  lemma TransformDataMissingSymbol(symbol: string, rows: seq<Row>)
    ensures TransformData(symbol, rows).Err? <==> MissingSymbol(rows)
    ensures TransformData(symbol, rows).Err? ==> TransformData(symbol, rows).error == KeyError("symbol")
  {
  }

  /** The results are the records with a market cap, as a collection the same as in the input
      order, none holding a dict field. */
  lemma TransformDataContents(symbol: string, rows: seq<Row>)
    requires !MissingSymbol(rows)
    ensures multiset(TransformData(symbol, rows).value) == multiset(Survivors(rows))
    ensures |TransformData(symbol, rows).value| == CountWithMarketCap(rows)
    ensures forall i :: 0 <= i < |TransformData(symbol, rows).value| ==> NoDictFields(TransformData(symbol, rows).value[i])
  {
    var sorted := Reordered(Split(symbol, ','), rows);
    SurvivorsPermutation(sorted, rows);
    SurvivorsCount(rows);
    assert |Survivors(sorted)| == |multiset(Survivors(sorted))| == |multiset(Survivors(rows))| == |Survivors(rows)|;
    forall i | 0 <= i < |Survivors(sorted)|
      ensures NoDictFields(Survivors(sorted)[i])
    {
      SurvivorsFrom(sorted, i);
    }
  }

  /** The sorted records come in the order of the requested symbols, records of a symbol that
      was not requested last. */
  lemma ReorderedOrder(symbols: seq<string>, rows: seq<Row>)
    ensures forall i, j :: 0 <= i < j < |Reordered(symbols, rows)| ==>
      Rank(symbols, Reordered(symbols, rows)[i]) <= Rank(symbols, Reordered(symbols, rows)[j])
    ensures forall i, j :: 0 <= i < j < |Reordered(symbols, rows)| && Listed(symbols, Reordered(symbols, rows)[j]) ==>
      Listed(symbols, Reordered(symbols, rows)[i])
  {
    AscendingStrictTotal();
    SortByOrdered(rows, row => Rank(symbols, row), Ascending);
  }

  /** Records of one rank keep their input order. */
  lemma ReorderedStable(symbols: seq<string>, rows: seq<Row>, n: nat)
    ensures WithKey(Reordered(symbols, rows), row => Rank(symbols, row), n) == WithKey(rows, row => Rank(symbols, row), n)
  {
    SortByStable(rows, row => Rank(symbols, row), Ascending, n);
  }

  /** The results keep the ranked order, since dropping records never reorders the rest. */
  lemma {:induction false} SurvivorsKeepOrder(rows: seq<Row>, i: int, j: int) returns (i': int, j': int)
    requires 0 <= i < j < |rows|
    requires HasMarketCap(rows[i]) && HasMarketCap(rows[j])
    ensures 0 <= i' < j' < |Survivors(rows)|
    ensures Survivors(rows)[i'] == StripDicts(rows[i]) && Survivors(rows)[j'] == StripDicts(rows[j])
  {
    var l, mid, r := rows[..i], rows[i + 1..j], rows[j + 1..];
    SplitTwice(rows, i, j);
    SurvivorsConcat(l, [rows[i]] + (mid + ([rows[j]] + r)));
    SurvivorsConcat([rows[i]], mid + ([rows[j]] + r));
    SurvivorsConcat(mid, [rows[j]] + r);
    SurvivorsConcat([rows[j]], r);
    SurvivorsOne(rows[i]);
    SurvivorsOne(rows[j]);
    KeepPositions(Survivors(l), Survivors(mid), Survivors(r), StripDicts(rows[i]), StripDicts(rows[j]));
    i' := |Survivors(l)|;
    j' := |Survivors(l)| + 1 + |Survivors(mid)|;
  }


  lemma SurvivorsOne(x: Row)
    ensures Survivors([x]) == if HasMarketCap(x) then [StripDicts(x)] else []
  {
    assert [x][1..] == [];
  }

  lemma SurvivorsSnoc(rows: seq<Row>, j: int)
    requires 0 <= j < |rows|
    ensures Survivors(rows[..j + 1]) == Survivors(rows[..j]) + (if HasMarketCap(rows[j]) then [StripDicts(rows[j])] else [])
  {
    assert rows[..j + 1] == rows[..j] + [rows[j]];
    SurvivorsConcat(rows[..j], [rows[j]]);
    assert [rows[j]][1..] == [];
  }

  /** One turn of the loop extends the survivors of the records seen so far. */
  lemma SurvivorsStep(rows: seq<Row>, j: int, results: seq<Row>, kept: seq<Row>)
    requires 0 <= j < |rows| && results == Survivors(rows[..j])
    requires kept == if HasMarketCap(rows[j]) then [StripDicts(rows[j])] else []
    ensures results + kept == Survivors(rows[..j + 1])
  {
    SurvivorsSnoc(rows, j);
  }

  /** Stripping keeps the market cap of a record that has one. */
  lemma StripKeepsMarketCap(row: Row)
    ensures HasMarketCap(StripDicts(row)) <==> HasMarketCap(row)
  {
  }

  lemma StripIdempotent(row: Row)
    ensures StripDicts(StripDicts(row)) == row <==> NoDictFields(row)
    ensures StripDicts(StripDicts(row)) == StripDicts(row)
  {
    if NoDictFields(row) {
      assert StripDicts(row) == row;
    }
  }

  function Zip(rows: seq<Row>, data: seq<Record>): (r: seq<(Row, Record)>)
    requires |rows| == |data|
    ensures |r| == |data| && forall i :: 0 <= i < |data| ==> r[i] == (rows[i], data[i])
  {
    if data == [] then [] else [(rows[0], data[0])] + Zip(rows[1..], data[1..])
  }

  /** `for key, value in item.copy().items(): if isinstance(value, dict): item.pop(key)`. */
  method DropDictFields(item: Record)
    modifies item
    ensures item.fields == StripDicts(old(item.fields))
  {
    var keys := item.fields.Keys;
    while keys != {}
      invariant keys <= old(item.fields).Keys
      invariant forall k :: k in item.fields <==> k in old(item.fields) && (k in keys || !old(item.fields)[k].Dict?)
      invariant forall k :: k in item.fields ==> item.fields[k] == old(item.fields)[k]
      decreases |keys|
    {
      var key :| key in keys;
      if item.fields[key].Dict? {
        var _ := item.Pop(key);
      }
      keys := keys - {key};
    }
    assert item.fields == StripDicts(old(item.fields));
  }

  /** One turn of the loop: a record without a market cap is skipped and left alone; any other
      is stripped in place and its contents kept. */
  method StripOne(item: Record) returns (kept: seq<Row>)
    modifies item
    ensures HasMarketCap(old(item.fields)) ==> item.fields == StripDicts(old(item.fields)) && kept == [item.fields]
    ensures !HasMarketCap(old(item.fields)) ==> item.fields == old(item.fields) && kept == []
  {
    kept := [];
    if HasMarketCap(item.fields) {
      DropDictFields(item);
      kept := [item.fields];
    }
  }

  /** A record's second turn changes nothing: whether it was stripped before or not, the turn
      leaves it as one turn would have, and keeps the same contents. */
  lemma StripAgain(orig: Row, current: Row, seen: bool)
    requires current == if seen && HasMarketCap(orig) then StripDicts(orig) else orig
    ensures HasMarketCap(current) <==> HasMarketCap(orig)
    ensures HasMarketCap(current) ==> StripDicts(current) == StripDicts(orig)
    ensures !HasMarketCap(current) ==> current == orig
  {
    StripKeepsMarketCap(orig);
    StripIdempotent(orig);
  }

  /** The loop of `transform_data` over the sorted records, each paired with its contents as
      they were before the loop. A record the list holds twice is checked again when its
      second turn comes: stripping it again changes nothing. */
  method StripInOrder(sorted: seq<(Row, Record)>, data: seq<Record>) returns (results: seq<Row>)
    requires forall p :: 0 <= p < |sorted| ==> sorted[p].1 in data && sorted[p].0 == sorted[p].1.fields
    modifies data
    ensures results == Survivors(Firsts(sorted))
    ensures forall p :: 0 <= p < |sorted| ==>
      sorted[p].1.fields == (if HasMarketCap(sorted[p].0) then StripDicts(sorted[p].0) else sorted[p].0)
    ensures forall x :: x in data && x !in RecordsOf(sorted) ==> x.fields == old(x.fields)
  {
    ghost var keys := Firsts(sorted);
    results := [];
    var j := 0;
    ghost var done: set<Record> := {};
    while j < |sorted|
      invariant 0 <= j <= |sorted|
      invariant results == Survivors(keys[..j])
      invariant forall p :: 0 <= p < j ==> sorted[p].1 in done
      invariant done <= RecordsOf(sorted)
      invariant forall x :: x in data ==>
        x.fields == if x in done && HasMarketCap(old(x.fields)) then StripDicts(old(x.fields)) else old(x.fields)
    {
      var item := sorted[j].1;
      ghost var before := sorted[j].0;
      assert item in data && old(item.fields) == before == keys[j];
      StripAgain(before, item.fields, item in done);
      var kept := StripOne(item);
      SurvivorsStep(keys, j, results, kept);
      DoneGrows(sorted, j, done);
      results := results + kept;
      done := done + {item};
      j := j + 1;
    }
    assert keys[..j] == keys;
  }

  /** The records the sorted list holds. */
  function RecordsOf(sorted: seq<(Row, Record)>): set<Record>
  {
    set p | 0 <= p < |sorted| :: sorted[p].1
  }

  lemma DoneGrows(sorted: seq<(Row, Record)>, j: int, done: set<Record>)
    requires 0 <= j < |sorted| && forall p :: 0 <= p < j ==> sorted[p].1 in done
    requires done <= RecordsOf(sorted)
    ensures forall p :: 0 <= p < j + 1 ==> sorted[p].1 in done + {sorted[j].1}
    ensures done + {sorted[j].1} <= RecordsOf(sorted)
  {
  }

  /** The records paired with their contents, sorted by the rank of the contents. */
  function SortedPairs(symbols: seq<string>, rows: seq<Row>, data: seq<Record>): seq<(Row, Record)>
    requires |rows| == |data|
  {
    SortBy(Zip(rows, data), (p: (Row, Record)) => Rank(symbols, p.0), Ascending)
  }

  lemma SortedPairsFirsts(symbols: seq<string>, rows: seq<Row>, data: seq<Record>)
    requires |rows| == |data|
    ensures Firsts(SortedPairs(symbols, rows, data)) == Reordered(symbols, rows)
  {
    var pairs := Zip(rows, data);
    SortByFirsts(pairs, row => Rank(symbols, row), (p: (Row, Record)) => Rank(symbols, p.0), Ascending);
    assert Firsts(pairs) == rows;
  }

  lemma SortedPairsFrom(symbols: seq<string>, rows: seq<Row>, data: seq<Record>, p: int)
    requires |rows| == |data| && 0 <= p < |SortedPairs(symbols, rows, data)|
    ensures exists i :: 0 <= i < |data| && SortedPairs(symbols, rows, data)[p] == (rows[i], data[i])
  {
    var pairs := Zip(rows, data);
    assert SortedPairs(symbols, rows, data)[p] in multiset(pairs);
  }

  lemma SortedPairsCover(symbols: seq<string>, rows: seq<Row>, data: seq<Record>, i: int)
    requires |rows| == |data| && 0 <= i < |data|
    ensures exists p :: 0 <= p < |SortedPairs(symbols, rows, data)| && SortedPairs(symbols, rows, data)[p] == (rows[i], data[i])
  {
    var pairs := Zip(rows, data);
    assert pairs[i] in multiset(SortedPairs(symbols, rows, data));
  }

  /** `transform_data`. Every record of `data` with a market cap is stripped in place, unless
      the call fails. */
  method Transform(symbol: string, data: seq<Record>) returns (r: Result<seq<Row>>)
    modifies data
    ensures r == TransformData(symbol, old(Snapshot(data)))
    ensures forall x :: x in data ==>
      x.fields == if r.Ok? && HasMarketCap(old(x.fields)) then StripDicts(old(x.fields)) else old(x.fields)
  {
    var rows := Snapshot(data);
    if exists i :: 0 <= i < |rows| && "symbol" !in rows[i] {
      return Err(KeyError("symbol"));
    }
    var sorted := SortedPairs(Split(symbol, ','), rows, data);
    SortedPairsFirsts(Split(symbol, ','), rows, data);
    forall p | 0 <= p < |sorted|
      ensures sorted[p].1 in data && sorted[p].0 == sorted[p].1.fields
    {
      SortedPairsFrom(Split(symbol, ','), rows, data, p);
      var i :| 0 <= i < |data| && sorted[p] == (rows[i], data[i]);
    }
    var results := StripInOrder(sorted, data);
    r := Ok(results);
    forall x | x in data
      ensures x.fields == if HasMarketCap(old(x.fields)) then StripDicts(old(x.fields)) else old(x.fields)
    {
      var i :| 0 <= i < |data| && data[i] == x;
      SortedPairsCover(Split(symbol, ','), rows, data, i);
      var p :| 0 <= p < |sorted| && sorted[p] == (rows[i], data[i]);
    }
  }
}
