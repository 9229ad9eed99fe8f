/** The symbol normalisers: dash to dot, upper-casing, the six-digit code, and splitting a
    comma-joined symbol list. */
module Symbols {
  import opened Outcomes
  import opened Text
  import opened Records

  /** `v.replace("-", ".")`. */
  function HandleSymbol(v: string): (r: string)
    ensures |r| == |v|
    ensures forall i :: 0 <= i < |v| ==> r[i] == if v[i] == '-' then '.' else v[i]
    ensures '-' !in r
  {
    if v == [] then "" else [if v[0] == '-' then '.' else v[0]] + HandleSymbol(v[1..])
  }

  /** Normalising twice is normalising once, and a symbol without a dash is already normal. */
  lemma HandleSymbolIdempotent(v: string)
    ensures HandleSymbol(HandleSymbol(v)) == HandleSymbol(v)
    ensures HandleSymbol(v) == v <==> '-' !in v
  {
    if '-' in v {
      var i :| 0 <= i < |v| && v[i] == '-';
      assert HandleSymbol(v)[i] != v[i];
    }
  }

  predicate IsLower(c: char) { 'a' <= c <= 'z' }

  /** ASCII `str.upper()` on one character. */
  function UpperChar(c: char): (u: char)
    ensures !IsLower(u)
  {
    if IsLower(c) then (c as int - 32) as char else c
  }

  /** `v.upper()` for ASCII text: lower-case letters become upper-case, everything else stays. */
  function ToUpper(v: string): (r: string)
    ensures |r| == |v|
    ensures forall i :: 0 <= i < |v| ==> r[i] == UpperChar(v[i])
  {
    if v == [] then "" else [UpperChar(v[0])] + ToUpper(v[1..])
  }

  /** The result has no lower-case letter; digits, punctuation and capitals are unchanged; and
      upper-casing is idempotent. */
  lemma ToUpperProperties(v: string)
    ensures forall i :: 0 <= i < |v| ==> !IsLower(ToUpper(v)[i])
    ensures forall i :: 0 <= i < |v| && !IsLower(v[i]) ==> ToUpper(v)[i] == v[i]
    ensures ToUpper(ToUpper(v)) == ToUpper(v)
  {
  }

  /** An already upper-case code is left alone. */
  lemma ToUpperExample()
    ensures ToUpper("SH600519") == "SH600519"
    ensures ToUpper("sh600519") == "SH600519"
  {
    assert forall i :: 0 <= i < |"SH600519"| ==> !IsLower("SH600519"[i]);
  }

  /** The `to_upper` before-validator: it calls `.upper()` on whatever arrives, so a value that is
      not a string is an `AttributeError`. */
  function ToUpperValidator(v: Value): (r: Result<Value>)
    ensures r.Ok? <==> v.Str?
    ensures r.Ok? ==> r.value.Str? && r.value.s == ToUpper(v.s)
  {
    if v.Str? then Ok(Str(ToUpper(v.s))) else Err(AttributeError("object has no attribute 'upper'"))
  }

  /** `symbol[-6:]`: the last six characters, or all of a shorter string. */
  function LastSix(s: string): (r: string)
    ensures |r| == if |s| < 6 then |s| else 6
    ensures HasSuffix(s, r)
  {
    if |s| <= 6 then s else s[|s| - 6..]
  }

  lemma LastSixExample()
    ensures LastSix("SH600519") == "600519"
    ensures LastSix("600519") == "600519"
  {
  }

  /** `query.symbol.split(",")`: the pieces hold no comma and join back to the query. */
  lemma SplitSymbols(symbols: string)
    ensures |Split(symbols, ',')| >= 1
    ensures forall i :: 0 <= i < |Split(symbols, ',')| ==> ',' !in Split(symbols, ',')[i]
    ensures Join(Split(symbols, ','), ',') == symbols
    ensures |Split(symbols, ',')| == multiset(symbols)[','] + 1
  {
    JoinSplit(symbols, ',');
    SplitCount(symbols, ',');
  }
}
