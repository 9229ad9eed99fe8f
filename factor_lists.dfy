/** The factor lists of the price and market-cap endpoints: every column of the data model's
    alias table except the one `date` maps to (`factors = list(alias.values())` followed by
    `factors.remove(alias["date"])`). */
module FactorLists {
  import opened Outcomes
  import opened Text

  /** An alias table as its items in declaration order; the key of each pair is a field name,
      the value the store's column name. */
  type AliasTable = seq<(string, string)>

  function Values(table: AliasTable): (r: seq<string>)
    ensures |r| == |table| && forall i :: 0 <= i < |table| ==> r[i] == table[i].1
  {
    seq(|table|, i requires 0 <= i < |table| => table[i].1)
  }

  /** `alias[key]`, a `KeyError` when the key is absent. */
  function Lookup(table: AliasTable, key: string): (r: Result<string>)
    ensures r.Ok? <==> exists i :: 0 <= i < |table| && table[i].0 == key
    ensures r.Ok? ==> exists i :: 0 <= i < |table| && table[i] == (key, r.value)
    ensures r.Err? ==> r.error == KeyError(key)
  {
    if table == [] then Err(KeyError(key))
    else if table[0].0 == key then Ok(table[0].1)
    else
      var rest := Lookup(table[1..], key);
      assert rest.Ok? ==> exists i :: 1 <= i < |table| && table[i] == (key, rest.value) by {
        if rest.Ok? {
          var i :| 0 <= i < |table[1..]| && table[1..][i] == (key, rest.value);
          assert table[i + 1] == (key, rest.value);
        }
      }
      assert (exists i :: 0 <= i < |table| && table[i].0 == key) ==> exists i :: 0 <= i < |table[1..]| && table[1..][i].0 == key by {
        if exists i :: 0 <= i < |table| && table[i].0 == key {
          var i :| 0 <= i < |table| && table[i].0 == key;
          assert table[1..][i - 1] == table[i];
        }
      }
      rest
  }

  /** Python's `xs.remove(x)`: the first occurrence goes, and a missing value is a
      `ValueError`. */
  function RemoveFirst(xs: seq<string>, x: string): (r: Result<seq<string>>)
    ensures r.Ok? <==> x in xs
    ensures r.Err? ==> r.error.ValueError?
    ensures r.Ok? ==> exists i :: 0 <= i < |xs| && xs[i] == x && x !in xs[..i] && r.value == xs[..i] + xs[i + 1..]
  {
    var i := IndexOf(xs, x);
    if i == |xs| then Err(ValueError("list.remove(x): x not in list"))
    else
      assert x !in xs[..i];
      Ok(xs[..i] + xs[i + 1..])
  }

  /** The factor list derived from an alias table. */
  method Factors(table: AliasTable) returns (r: Result<seq<string>>)
    ensures r.Ok? <==> Lookup(table, "date").Ok?
    ensures r.Ok? ==> r == RemoveFirst(Values(table), Lookup(table, "date").value)
    ensures r.Err? ==> r.error == KeyError("date")
  {
    var factors := Values(table);
    var date := Lookup(table, "date");
    if date.Err? {
      return Err(date.error);
    }
    assert date.value in factors by {
      var i :| 0 <= i < |table| && table[i] == ("date", date.value);
      assert factors[i] == date.value;
    }
    r := RemoveFirst(factors, date.value);
  }

  /** The store's column names the two alias tables use. */
  const Timestamp := "timestamp"
  const Open := "开盘价（不复权）"
  const Close := "收盘价（不复权）"
  const High := "最高价（不复权）"
  const Low := "最低价（不复权）"
  const Volume := "成交量（不复权）"
  const AdjClose := "收盘价（前复权）"
  const MarketCap := "总市值"

  /** The price endpoint's alias table. */
  const EquityHistoricalAliases: AliasTable := [
    ("date", Timestamp), ("open", Open), ("close", Close), ("high", High), ("low", Low),
    ("volume", Volume), ("adj_close", AdjClose)
  ]

  /** The market-cap endpoint's alias table. */
  const MarketCapAliases: AliasTable := [("date", Timestamp), ("market_cap", MarketCap)]

  /** The price endpoint's factor list: the six price and volume columns in declaration
      order. */
  lemma EquityHistoricalFactors()
    ensures RemoveFirst(Values(EquityHistoricalAliases), Lookup(EquityHistoricalAliases, "date").value) ==
      Ok([Open, Close, High, Low, Volume, AdjClose])
  {
    DateFirst(EquityHistoricalAliases);
    EquityHistoricalColumns();
  }

  /** The price table's columns after the date's. */
  lemma EquityHistoricalColumns()
    ensures Values(EquityHistoricalAliases)[1..] == [Open, Close, High, Low, Volume, AdjClose]
  {
    var v := Values(EquityHistoricalAliases)[1..];
    assert |v| == 6;
    assert v[0] == Open && v[1] == Close && v[2] == High && v[3] == Low && v[4] == Volume && v[5] == AdjClose;
    SixItems(v);
  }

  /** The market-cap endpoint's factor list: the market cap alone. */
  lemma MarketCapFactors()
    ensures RemoveFirst(Values(MarketCapAliases), Lookup(MarketCapAliases, "date").value) == Ok([MarketCap])
  {
    DateFirst(MarketCapAliases);
    var w := Values(MarketCapAliases)[1..];
    assert |w| == 1 && w[0] == MarketCap;
    assert w == [w[0]];
  }

  lemma SixItems(v: seq<string>)
    requires |v| == 6
    ensures v == [v[0], v[1], v[2], v[3], v[4], v[5]]
  {
  }

  /** When `date` leads a table, removing its column drops the first value. */
  lemma DateFirst(table: AliasTable)
    requires table != [] && table[0].0 == "date"
    ensures Lookup(table, "date") == Ok(table[0].1)
    ensures RemoveFirst(Values(table), table[0].1) == Ok(Values(table)[1..])
  {
    var v := Values(table);
    assert IndexOf(v, table[0].1) == 0;
    assert v[..0] + v[1..] == v[1..];
  }
}
