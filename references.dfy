/** The query helpers of `utils/references.py`: the period-to-fragment lookup and the
    financial-factor query template, modelled as string assembly. */
module References {
  import opened Outcomes
  import opened Text

  // ---------------------------------------------------------------------------------------
  // get_report_month

  /** The `period_to_month` table: `fy` has no month, the others the last month of their
      quarter. */
  function MonthOf(period: string): Option<string>
  {
    if period == "fy" then Some("")
    else if period == "q1" then Some("03")
    else if period == "q2ytd" then Some("06")
    else if period == "q3ytd" then Some("09")
    else if period == "annual" then Some("12")
    else None
  }

  predicate KnownPeriod(period: string)
  {
    period in {"fy", "q1", "q2ytd", "q3ytd", "annual"}
  }

  const FilterHead := " and monthOfYear(报告期) = "
  const GroupHead := "context by symbol, " + "factor_name, groupByTime(报告期) "
  const OrderClause := "order by 报告期"
  const ContextClause := GroupHead + OrderClause
  const LatestFour := " limit -4;"
  const LatestOne := " limit -1;"

  /** The two fragment shapes: with a month, the month filter and the latest four periods;
      without one, the latest period only. */
  function Fragment(month: string): string
  {
    if month != "" then FilterHead + (month + (" " + (GroupHead + (OrderClause + LatestFour))))
    else GroupHead + (OrderClause + LatestOne)
  }

  /** `get_report_month(period)`: an unknown token is a `ValueError`. */
  function ReportMonth(period: string): (r: Result<string>)
    ensures r.Ok? <==> KnownPeriod(period)
    ensures r.Err? ==> r.error == ValueError("Invalid period: " + period)
  {
    match MonthOf(period)
    case None => Err(ValueError("Invalid period: " + period))
    case Some(month) => Ok(Fragment(month))
  }

  /** The month a fragment filters on, read back from its text. */
  function FilteredMonth(fragment: string): Option<string>
  {
    if |fragment| >= |FilterHead| + 2 && fragment[..|FilterHead|] == FilterHead then
      Some(fragment[|FilterHead|..|FilterHead| + 2])
    else None
  }

  /** Without a month: no month filter, the latest period only. */
  lemma FragmentWithoutMonth()
    ensures FilteredMonth(Fragment("")) == None
    ensures HasSuffix(Fragment(""), OrderClause + LatestOne)
  {
    var f := Fragment("");
    SuffixExtend(GroupHead, OrderClause + LatestOne, OrderClause + LatestOne);
    assert f[0] == GroupHead[0] == 'c' && FilterHead[0] == ' ';
    if |f| >= |FilterHead| + 2 {
      assert f[..|FilterHead|][0] == 'c';
    }
  }

  /** With a two-digit month: the month filter, the latest four periods. */
  lemma FragmentWithMonth(month: string)
    requires |month| == 2
    ensures FilteredMonth(Fragment(month)) == Some(month)
    ensures HasSuffix(Fragment(month), OrderClause + LatestFour)
  {
    var tail := OrderClause + LatestFour;
    var rest := " " + (GroupHead + tail);
    var f := Fragment(month);
    assert f == FilterHead + (month + rest);
    assert f[..|FilterHead|] == FilterHead;
    assert f[|FilterHead|..] == month + rest;
    assert f[|FilterHead|..|FilterHead| + 2] == (month + rest)[..2] == month;
    SuffixExtend(GroupHead, tail, tail);
    SuffixExtend(" ", GroupHead + tail, tail);
    SuffixExtend(month, rest, tail);
    SuffixExtend(FilterHead, month + rest, tail);
  }

  /** The quarterly tokens filter on months 03, 06, 09 and 12 and keep four periods; `fy` has no
      month filter and keeps one. */
  lemma {:induction false} ReportMonthShape(period: string)
    requires KnownPeriod(period)
    ensures var f := ReportMonth(period).value;
      (period == "fy" ==> FilteredMonth(f) == None && HasSuffix(f, OrderClause + LatestOne)) &&
      (period != "fy" ==> FilteredMonth(f) == MonthOf(period) && HasSuffix(f, OrderClause + LatestFour))
    ensures period == "q1" ==> FilteredMonth(ReportMonth(period).value) == Some("03")
    ensures period == "q2ytd" ==> FilteredMonth(ReportMonth(period).value) == Some("06")
    ensures period == "q3ytd" ==> FilteredMonth(ReportMonth(period).value) == Some("09")
    ensures period == "annual" ==> FilteredMonth(ReportMonth(period).value) == Some("12")
  {
    if period == "fy" {
      FragmentWithoutMonth();
    } else {
      FragmentWithMonth(MonthOf(period).value);
    }
  }

  /** Every fragment carries the `context by ... order by 报告期` clause. */
  lemma ReportMonthContext(period: string)
    requires KnownPeriod(period)
    ensures Contains(ReportMonth(period).value, ContextClause)
  {
    var month := MonthOf(period).value;
    if month == "" {
      InfixFront(GroupHead, OrderClause, LatestOne);
    } else {
      InfixFront(GroupHead, OrderClause, LatestFour);
      var x := GroupHead + (OrderClause + LatestFour);
      InfixExtend(" ", x, ContextClause, 0);
      InfixExtend(month, " " + x, ContextClause, 1);
      InfixExtend(FilterHead, month + (" " + x), ContextClause, |month| + 1);
    }
  }

  /** Distinct tokens give distinct fragments. */
  lemma ReportMonthInjective(p: string, q: string)
    requires KnownPeriod(p) && KnownPeriod(q) && p != q
    ensures ReportMonth(p).value != ReportMonth(q).value
  {
    ReportMonthShape(p);
    ReportMonthShape(q);
  }

  // ---------------------------------------------------------------------------------------
  // Python's repr of a str and str of a list of str

  function HexDigit(n: int): char
    requires 0 <= n < 16
  {
    "0123456789abcdef"[n]
  }

  /** One character of `repr(s)` inside the chosen quotes. Non-ASCII characters are taken to be
      printable. */
  function EscapeChar(c: char, quote: char): string
  {
    if c == quote || c == '\\' then ['\\', c]
    else if c == '\t' then "\\t"
    else if c == '\n' then "\\n"
    else if c == '\r' then "\\r"
    else if c < ' ' || c == 0x7f as char then ['\\', 'x', HexDigit(c as int / 16), HexDigit(c as int % 16)]
    else [c]
  }

  function EscapeAll(s: string, quote: char): string
  {
    if s == [] then "" else EscapeChar(s[0], quote) + EscapeAll(s[1..], quote)
  }

  /** `repr(s)`: single quotes unless the string holds a single quote and no double quote. */
  function Repr(s: string): string
  {
    var quote := if '\'' in s && '"' !in s then '"' else '\'';
    [quote] + EscapeAll(s, quote) + [quote]
  }

  /** A string that `repr` renders verbatim between single quotes. */
  predicate ReprSafe(s: string)
  {
    forall i :: 0 <= i < |s| ==> s[i] != '\'' && s[i] != '"' && s[i] != '\\' && ' ' <= s[i] && s[i] != 0x7f as char
  }

  lemma {:induction false} EscapeAllSafe(s: string)
    requires ReprSafe(s)
    ensures EscapeAll(s, '\'') == s
  {
    if s != [] {
      assert ReprSafe(s[1..]);
      EscapeAllSafe(s[1..]);
      assert s == [s[0]] + s[1..];
    }
  }

  lemma ReprOfSafe(s: string)
    requires ReprSafe(s)
    ensures Repr(s) == "'" + s + "'"
  {
    EscapeAllSafe(s);
  }

  /** `", ".join(repr(x) for x in xs)`. */
  function Items(xs: seq<string>): string
    requires |xs| >= 1
  {
    Repr(xs[0]) + (if |xs| == 1 then "" else ", " + Items(xs[1..]))
  }

  /** `str(xs)` for a list of strings: `['a', 'b']`. */
  function ListRepr(xs: seq<string>): string
  {
    if xs == [] then "[]" else "[" + Items(xs) + "]"
  }

  /** Index of the first single quote at or after `i`, or `|t|`. */
  function FindQuote(t: string, i: nat): (j: nat)
    requires i <= |t|
    ensures i <= j <= |t|
    decreases |t| - i
  {
    if i == |t| then |t| else if t[i] == '\'' then i else FindQuote(t, i + 1)
  }

  /** Reads `'x', 'y', ...]` and returns the items and what follows the bracket. */
  function ParseElems(t: string): Option<(seq<string>, string)>
    decreases |t|
  {
    if |t| < 2 || t[0] != '\'' then None
    else
      var j := FindQuote(t, 1);
      if j == |t| then None
      else
        var item, rest := t[1..j], t[j + 1..];
        if |rest| >= 1 && rest[0] == ']' then Some(([item], rest[1..]))
        else if |rest| >= 2 && rest[..2] == ", " then
          match ParseElems(rest[2..])
          case None => None
          case Some(more) => Some(([item] + more.0, more.1))
        else None
  }

  /** Reads a list display of single-quoted strings and returns it and what follows it. */
  function ParseList(t: string): Option<(seq<string>, string)>
  {
    if |t| >= 2 && t[..2] == "[]" then Some(([], t[2..]))
    else if |t| >= 1 && t[0] == '[' then ParseElems(t[1..])
    else None
  }

  lemma {:induction false} FindQuoteSkips(x: string, r: string, i: nat)
    requires ReprSafe(x) && 1 <= i <= |x| + 1
    ensures FindQuote("'" + x + "'" + r, i) == |x| + 1
    decreases |x| + 1 - i
  {
    var t := "'" + x + "'" + r;
    if i <= |x| {
      assert t[i] == x[i - 1];
      FindQuoteSkips(x, r, i + 1);
    } else {
      assert t[i] == '\'';
    }
  }

  /** One quoted item, then what follows it. */
  lemma ParseElemsHead(x: string, r: string)
    requires ReprSafe(x)
    ensures var t := "'" + x + "'" + r;
      ParseElems(t) ==
        if |r| >= 1 && r[0] == ']' then Some(([x], r[1..]))
        else if |r| >= 2 && r[..2] == ", " then
          match ParseElems(r[2..])
          case None => None
          case Some(more) => Some(([x] + more.0, more.1))
        else None
  {
    var t := "'" + x + "'" + r;
    FindQuoteSkips(x, r, 1);
    assert t[1..|x| + 1] == x;
    assert t[|x| + 2..] == r;
  }

  lemma {:induction false} ParseElemsItems(xs: seq<string>, rest: string)
    requires |xs| >= 1 && forall i :: 0 <= i < |xs| ==> ReprSafe(xs[i])
    ensures ParseElems(Items(xs) + "]" + rest) == Some((xs, rest))
  {
    var x := xs[0];
    ReprOfSafe(x);
    if |xs| == 1 {
      var r := "]" + rest;
      assert Items(xs) + "]" + rest == "'" + x + "'" + r;
      ParseElemsHead(x, r);
      assert r[1..] == rest;
      assert xs == [x];
    } else {
      var r := ", " + (Items(xs[1..]) + "]" + rest);
      assert Items(xs) == "'" + x + "'" + (", " + Items(xs[1..]));
      assert Items(xs) + "]" + rest == "'" + x + "'" + r;
      ParseElemsHead(x, r);
      ParseElemsItems(xs[1..], rest);
      assert r[..2] == ", ";
      assert r[2..] == Items(xs[1..]) + "]" + rest;
      assert [x] + xs[1..] == xs;
    }
  }

  /** Reading back the list display gives the list and the text after it. */
  lemma {:induction false} ParseListRepr(xs: seq<string>, rest: string)
    requires forall i :: 0 <= i < |xs| ==> ReprSafe(xs[i])
    ensures ParseList(ListRepr(xs) + rest) == Some((xs, rest))
  {
    var t := ListRepr(xs) + rest;
    if xs == [] {
      assert t == "[]" + rest;
      assert t[..2] == "[]" && t[2..] == rest;
    } else {
      var body := Items(xs) + "]" + rest;
      assert t == "[" + body;
      assert t[1..] == body;
      ParseElemsItems(xs, rest);
      ReprOfSafe(xs[0]);
      assert body[0] == '\'';
      assert t[..2][1] == '\'';
    }
  }

  // ---------------------------------------------------------------------------------------
  // get_query_financel_sql

  /** The fixed text of a query around its three parameters. */
  datatype Template = Template(head: string, symbolHead: string, fragmentHead: string, tail: string)

  const FinancelTemplate := Template(
    "\n        t = select 报告期, symbol, factor_name ,value \n        from loadTable(\"dfs://finance_factors_1Y\", `cn_finance_factors_1Q) \n        where factor_name in ",
    " \n            and symbol in ",
    " \n            ",
    " \n        t = select value from t pivot by factor_name,报告期;\n        t\n        ")

  /** The f-string: the factor list, the one-element symbol list and the fragment spliced into
      the template. */
  function Assemble(t: Template, factorNames: seq<string>, symbol: string, reportMonth: string): string
  {
    t.head + (ListRepr(factorNames) + (t.symbolHead + (ListRepr([symbol]) + (t.fragmentHead + (reportMonth + t.tail)))))
  }

  function DropPrefix(head: string, q: string): Option<string>
  {
    if |q| >= |head| && q[..|head|] == head then Some(q[|head|..]) else None
  }

  function DropSuffix(tail: string, q: string): Option<string>
  {
    if |q| >= |tail| && q[|q| - |tail|..] == tail then Some(q[..|q| - |tail|]) else None
  }

  lemma DropPrefixConcat(head: string, x: string)
    ensures DropPrefix(head, head + x) == Some(x)
  {
    assert (head + x)[..|head|] == head && (head + x)[|head|..] == x;
  }

  lemma DropSuffixConcat(tail: string, x: string)
    ensures DropSuffix(tail, x + tail) == Some(x)
  {
    assert (x + tail)[|x|..] == tail && (x + tail)[..|x|] == x;
  }

  /** Splits a query back into the factor list, the symbol and the fragment. */
  function Disassemble(t: Template, q: string): Option<(seq<string>, string, string)>
  {
    match DropPrefix(t.head, q)
    case None => None
    case Some(a) =>
      match ParseList(a)
      case None => None
      case Some(first) =>
        match DropPrefix(t.symbolHead, first.1)
        case None => None
        case Some(b) =>
          match ParseList(b)
          case None => None
          case Some(second) =>
            if |second.0| != 1 then None
            else match DropPrefix(t.fragmentHead, second.1)
              case None => None
              case Some(c) =>
                match DropSuffix(t.tail, c)
                case None => None
                case Some(fragment) => Some((first.0, second.0[0], fragment))
  }

  lemma {:induction false} DisassembleAssemble(t: Template, factorNames: seq<string>, symbol: string, reportMonth: string)
    requires forall i :: 0 <= i < |factorNames| ==> ReprSafe(factorNames[i])
    requires ReprSafe(symbol)
    ensures Disassemble(t, Assemble(t, factorNames, symbol, reportMonth)) == Some((factorNames, symbol, reportMonth))
  {
    var q := Assemble(t, factorNames, symbol, reportMonth);
    var c := reportMonth + t.tail;
    var r2 := t.fragmentHead + c;
    var b := ListRepr([symbol]) + r2;
    var r1 := t.symbolHead + b;
    var a := ListRepr(factorNames) + r1;
    assert q == t.head + a;
    DropPrefixConcat(t.head, a);
    assert DropPrefix(t.head, q) == Some(a);
    ParseListRepr(factorNames, r1);
    assert ParseList(a) == Some((factorNames, r1));
    DropPrefixConcat(t.symbolHead, b);
    assert DropPrefix(t.symbolHead, r1) == Some(b);
    assert forall i :: 0 <= i < |[symbol]| ==> ReprSafe([symbol][i]);
    ParseListRepr([symbol], r2);
    assert ParseList(b) == Some(([symbol], r2));
    DropPrefixConcat(t.fragmentHead, c);
    assert DropPrefix(t.fragmentHead, r2) == Some(c);
    DropSuffixConcat(t.tail, reportMonth);
    assert DropSuffix(t.tail, c) == Some(reportMonth);
  }

  /** `get_query_financel_sql(factor_names, symbol, report_month)`. */
  function FinancelQuery(factorNames: seq<string>, symbol: string, reportMonth: string): string
  {
    Assemble(FinancelTemplate, factorNames, symbol, reportMonth)
  }

  function DecodeFinancelQuery(q: string): Option<(seq<string>, string, string)>
  {
    Disassemble(FinancelTemplate, q)
  }

  /** The query holds the factor list, then the symbol list, then the fragment, each verbatim:
      they can be read back from it, whatever the fragment is. */
  lemma DecodeFinancelQueryInverse(factorNames: seq<string>, symbol: string, reportMonth: string)
    requires forall i :: 0 <= i < |factorNames| ==> ReprSafe(factorNames[i])
    requires ReprSafe(symbol)
    ensures DecodeFinancelQuery(FinancelQuery(factorNames, symbol, reportMonth)) == Some((factorNames, symbol, reportMonth))
  {
    DisassembleAssemble(FinancelTemplate, factorNames, symbol, reportMonth);
  }

  /** A different factor list, symbol or fragment gives a different query. */
  lemma FinancelQueryInjective(f1: seq<string>, s1: string, m1: string, f2: seq<string>, s2: string, m2: string)
    requires forall i :: 0 <= i < |f1| ==> ReprSafe(f1[i])
    requires forall i :: 0 <= i < |f2| ==> ReprSafe(f2[i])
    requires ReprSafe(s1) && ReprSafe(s2)
    requires FinancelQuery(f1, s1, m1) == FinancelQuery(f2, s2, m2)
    ensures f1 == f2 && s1 == s2 && m1 == m2
  {
    DecodeFinancelQueryInverse(f1, s1, m1);
    DecodeFinancelQueryInverse(f2, s2, m2);
  }
}
