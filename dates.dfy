/** Proleptic Gregorian dates as Python's `datetime.date` has them (years 1 to 9999), their
    `strftime` rendering, the two parsers the dividend validators use, and the date arithmetic
    of the default query windows. */
module Dates {
  import opened Outcomes
  import opened Text

  datatype Date = Date(year: int, month: int, day: int)

  predicate IsLeap(y: int)
  {
    y % 4 == 0 && (y % 100 != 0 || y % 400 == 0)
  }

  function DaysInMonth(y: int, m: int): (n: int)
    requires 1 <= m <= 12
    ensures 28 <= n <= 31
  {
    if m == 2 then (if IsLeap(y) then 29 else 28)
    else if m == 4 || m == 6 || m == 9 || m == 11 then 30
    else 31
  }

  /** What `datetime.date(year, month, day)` accepts. */
  predicate Valid(d: Date)
  {
    1 <= d.year <= 9999 && 1 <= d.month <= 12 && 1 <= d.day <= DaysInMonth(d.year, d.month)
  }

  type CivilDate = d: Date | Valid(d) witness Date(1970, 1, 1)

  /** Chronological order: `a < b` on dates. */
  predicate Before(a: Date, b: Date)
  {
    a.year < b.year || (a.year == b.year && (a.month < b.month || (a.month == b.month && a.day < b.day)))
  }

  // ---------------------------------------------------------------------------------------
  // Rendering: strftime("%Y-%m-%d") and strftime("%Y.%m.%d")

  function Pow10(w: nat): (p: nat)
    ensures p >= 1
  {
    if w == 0 then 1 else 10 * Pow10(w - 1)
  }

  predicate IsDigit(c: char) { '0' <= c <= '9' }

  predicate AllDigits(s: string) { forall i :: 0 <= i < |s| ==> IsDigit(s[i]) }

  function Digit(k: int): (c: char)
    requires 0 <= k < 10
    ensures IsDigit(c) && c as int - '0' as int == k
  {
    ('0' as int + k) as char
  }

  /** `n` in exactly `w` decimal digits, zero padded (the low `w` digits when `n` is wider). */
  function Pad(n: nat, w: nat): (r: string)
    ensures |r| == w && AllDigits(r)
    decreases w
  {
    if w == 0 then "" else Pad(n / 10, w - 1) + [Digit(n % 10)]
  }

  /** The value of a string of decimal digits, as `int(s)` reads it. */
  function DigitsValue(s: string): nat
    requires AllDigits(s)
  {
    if s == [] then 0 else DigitsValue(s[..|s| - 1]) * 10 + (s[|s| - 1] as int - '0' as int)
  }

  lemma {:induction false} PadValue(n: nat, w: nat)
    requires n < Pow10(w)
    ensures DigitsValue(Pad(n, w)) == n
    decreases w
  {
    if w > 0 {
      PadValue(n / 10, w - 1);
      var p := Pad(n, w);
      assert p[..|p| - 1] == Pad(n / 10, w - 1);
    }
  }

  lemma {:induction false} DigitsValuePad(s: string)
    requires AllDigits(s)
    ensures DigitsValue(s) < Pow10(|s|) && Pad(DigitsValue(s), |s|) == s
  {
    if s != [] {
      var init := s[..|s| - 1];
      DigitsValuePad(init);
      var v := DigitsValue(s);
      var last := s[|s| - 1] as int - '0' as int;
      assert v / 10 == DigitsValue(init) && v % 10 == last;
      assert Digit(last) == s[|s| - 1];
      assert s == init + [s[|s| - 1]];
    }
  }

  /** Two zero-padded numbers of the same width compare as strings as they compare as numbers. */
  lemma {:induction false} PadOrder(a: nat, b: nat, w: nat)
    requires a < Pow10(w) && b < Pow10(w)
    ensures LexLess(Pad(a, w), Pad(b, w)) <==> a < b
    decreases w
  {
    if w == 0 {
      LexLessIrreflexive("");
    } else {
      PadOrder(a / 10, b / 10, w - 1);
      PadValue(a / 10, w - 1);
      PadValue(b / 10, w - 1);
      LexLessConcat(Pad(a / 10, w - 1), [Digit(a % 10)], Pad(b / 10, w - 1), [Digit(b % 10)]);
      assert LexLess([Digit(a % 10)], [Digit(b % 10)]) <==> a % 10 < b % 10 by {
        assert [Digit(a % 10)][1..] == [] && [Digit(b % 10)][1..] == [];
        LexLessIrreflexive([]);
      }
    }
  }

  /** `strftime("%Y" + sep + "%m" + sep + "%d")`. */
  function Format(d: CivilDate, sep: char): string
  {
    Pad(d.year, 4) + ([sep] + (Pad(d.month, 2) + ([sep] + Pad(d.day, 2))))
  }

  lemma FormatShape(d: CivilDate, sep: char)
    ensures var s := Format(d, sep);
      |s| == 10 && s[4] == sep && s[7] == sep &&
      s[..4] == Pad(d.year, 4) && s[5..7] == Pad(d.month, 2) && s[8..] == Pad(d.day, 2)
  {
    var y, m, dd := Pad(d.year, 4), Pad(d.month, 2), Pad(d.day, 2);
    var tail := [sep] + dd;
    var rest := m + tail;
    var s := y + ([sep] + rest);
    assert Format(d, sep) == s;
    assert s[..4] == y && s[4..] == [sep] + rest;
    assert s[5..] == rest;
    assert s[5..7] == rest[..2] == m;
    assert s[7..] == rest[2..] == tail;
    assert s[8..] == tail[1..] == dd;
  }

  /** The lemma behind sorting report dates as strings: zero-padded `YYYY-MM-DD` strings sort
      lexicographically in chronological order. */
  lemma {:induction false} FormatOrder(a: CivilDate, b: CivilDate, sep: char)
    ensures LexLess(Format(a, sep), Format(b, sep)) <==> Before(a, b)
  {
    var ya, yb := Pad(a.year, 4), Pad(b.year, 4);
    var ma, mb := Pad(a.month, 2), Pad(b.month, 2);
    var da, db := Pad(a.day, 2), Pad(b.day, 2);
    PadOrder(a.year, b.year, 4);
    PadOrder(a.month, b.month, 2);
    PadOrder(a.day, b.day, 2);
    PadInjective(a.year, b.year, 4);
    PadInjective(a.month, b.month, 2);
    LexLessConcat(ya, [sep] + (ma + ([sep] + da)), yb, [sep] + (mb + ([sep] + db)));
    SeparatorLess(sep, ma + ([sep] + da), mb + ([sep] + db));
    LexLessConcat(ma, [sep] + da, mb, [sep] + db);
    SeparatorLess(sep, da, db);
  }

  /** Two dates render to the same string only when they are the same date. */
  lemma FormatInjective(a: CivilDate, b: CivilDate, sep: char)
    ensures Format(a, sep) == Format(b, sep) <==> a == b
  {
    if a != b {
      FormatOrder(a, b, sep);
      FormatOrder(b, a, sep);
      LexLessIrreflexive(Format(a, sep));
    }
  }

  /** A shared leading separator does not decide the comparison. */
  lemma SeparatorLess(sep: char, x: string, y: string)
    ensures LexLess([sep] + x, [sep] + y) <==> LexLess(x, y)
  {
    LexLessIrreflexive([sep]);
    LexLessConcat([sep], x, [sep], y);
  }

  /** Zero padding to a width wide enough for both numbers keeps them apart. */
  lemma PadInjective(a: nat, b: nat, w: nat)
    requires a < Pow10(w) && b < Pow10(w)
    ensures Pad(a, w) == Pad(b, w) <==> a == b
  {
    PadValue(a, w);
    PadValue(b, w);
  }

  // ---------------------------------------------------------------------------------------
  // Parsing: date.fromisoformat and datetime.strptime(v, "%Y-%m-%d")

  /** `date.fromisoformat(s)` for the `YYYY-MM-DD` form: exactly ten characters, ASCII digits
      and two dashes, and a date that exists. */
  function ParseIso(s: string): Option<CivilDate>
  {
    if |s| == 10 && s[4] == '-' && s[7] == '-' &&
       AllDigits(s[..4]) && AllDigits(s[5..7]) && AllDigits(s[8..]) then
      var d := Date(DigitsValue(s[..4]), DigitsValue(s[5..7]), DigitsValue(s[8..]));
      if Valid(d) then Some(d) else None
    else None
  }

  /** Parsing a formatted date gives it back. */
  lemma ParseIsoFormat(d: CivilDate)
    ensures ParseIso(Format(d, '-')) == Some(d)
  {
    FormatShape(d, '-');
    PadValue(d.year, 4);
    PadValue(d.month, 2);
    PadValue(d.day, 2);
  }

  /** ... and every string `fromisoformat` accepts is the rendering of the date it yields. */
  lemma ParseIsoOnlyFormatted(s: string)
    requires ParseIso(s).Some?
    ensures Format(ParseIso(s).value, '-') == s
  {
    var d := ParseIso(s).value;
    DigitsValuePad(s[..4]);
    DigitsValuePad(s[5..7]);
    DigitsValuePad(s[8..]);
    FormatShape(d, '-');
    assert s == s[..4] + ([s[4]] + (s[5..7] + ([s[7]] + s[8..])));
  }

  predicate NonZeroDigit(c: char) { '1' <= c <= '9' }

  /** CPython's `%d` pattern `3[01]|[12]\d|0[1-9]|[1-9]| [1-9]`: the length of the first
      alternative that matches at the start of `u`. Nothing follows it in the format, so the
      first match is final. */
  function MatchDay(u: string): Option<nat>
  {
    if |u| >= 2 && u[0] == '3' && (u[1] == '0' || u[1] == '1') then Some(2)
    else if |u| >= 2 && (u[0] == '1' || u[0] == '2') && IsDigit(u[1]) then Some(2)
    else if |u| >= 2 && u[0] == '0' && NonZeroDigit(u[1]) then Some(2)
    else if |u| >= 1 && NonZeroDigit(u[0]) then Some(1)
    else if |u| >= 2 && u[0] == ' ' && NonZeroDigit(u[1]) then Some(2)
    else None
  }

  /** CPython's `%m` pattern `1[0-2]|0[1-9]|[1-9]`: lengths of the alternatives that match at
      the start of `t`, in the order the regular expression tries them. */
  function MonthCandidates(t: string): seq<nat>
  {
    (if |t| >= 2 && t[0] == '1' && '0' <= t[1] <= '2' then [2] else []) +
    (if |t| >= 2 && t[0] == '0' && NonZeroDigit(t[1]) then [2] else []) +
    (if |t| >= 1 && NonZeroDigit(t[0]) then [1] else [])
  }

  /** Month alternative, the literal separator, then the day: the regular expression backs
      off to the next month alternative when the rest does not match. */
  function MatchMonthDay(t: string, candidates: seq<nat>): Option<(nat, nat)>
  {
    if candidates == [] then None
    else
      var k := candidates[0];
      if k < |t| && t[k] == '-' && MatchDay(t[k + 1..]).Some? then Some((k, MatchDay(t[k + 1..]).value))
      else MatchMonthDay(t, candidates[1..])
  }

  /** The value of a matched day field (the last alternative has a leading space). */
  function DayValue(u: string): nat
  {
    if |u| == 2 && u[0] == ' ' && IsDigit(u[1]) then DigitsValue(u[1..])
    else if AllDigits(u) then DigitsValue(u)
    else 0
  }

  /** `datetime.strptime(s, "%Y-%m-%d")`, keeping the date: the pattern is matched at the start
      of `s`, characters left over are an error, and the date must exist. */
  function Strptime(s: string): Result<CivilDate>
  {
    if |s| < 5 || !AllDigits(s[..4]) || s[4] != '-' then Err(ValueError("time data does not match format"))
    else
      var t := s[5..];
      match MatchMonthDay(t, MonthCandidates(t))
      case None => Err(ValueError("time data does not match format"))
      case Some(lengths) =>
        var (mk, dk) := lengths;
        if 5 + mk + 1 + dk != |s| then Err(ValueError("unconverted data remains"))
        else if !AllDigits(s[5..5 + mk]) then Err(ValueError("time data does not match format"))
        else
          var d := Date(DigitsValue(s[..4]), DigitsValue(s[5..5 + mk]), DayValue(s[6 + mk..]));
          if Valid(d) then Ok(d) else Err(ValueError("day is out of range for month"))
  }

  lemma PadTwo(n: nat)
    requires n < 100
    ensures Pad(n, 2) == [Digit(n / 10), Digit(n % 10)]
  {
    assert (n / 10) % 10 == n / 10;
    assert Pad(n / 10, 1) == Pad(n / 100, 0) + [Digit((n / 10) % 10)] == [Digit(n / 10)];
    assert Pad(n, 2) == Pad(n / 10, 1) + [Digit(n % 10)];
  }

  /** A rendered month is matched first by a two-digit alternative. */
  lemma MonthField(m: nat, rest: string)
    requires 1 <= m <= 12
    ensures var t := Pad(m, 2) + rest; |MonthCandidates(t)| >= 1 && MonthCandidates(t)[0] == 2
  {
    PadTwo(m);
    var t := Pad(m, 2) + rest;
    assert t[0] == Digit(m / 10) && t[1] == Digit(m % 10);
    if m < 10 {
      assert t[0] == '0' && NonZeroDigit(t[1]);
    } else {
      assert t[0] == '1' && '0' <= t[1] <= '2';
    }
  }

  /** A rendered day is matched by a two-digit alternative. */
  lemma DayField(dd: nat)
    requires 1 <= dd <= 31
    ensures MatchDay(Pad(dd, 2)) == Some(2)
  {
    PadTwo(dd);
    var u := Pad(dd, 2);
    assert u[0] == Digit(dd / 10) && u[1] == Digit(dd % 10);
    if dd < 10 {
      assert u[0] == '0' && NonZeroDigit(u[1]);
    } else if dd < 30 {
      assert u[0] == '1' || u[0] == '2';
    } else {
      assert u[0] == '3' && (u[1] == '0' || u[1] == '1');
    }
  }

  /** The month and day fields of a rendered date match their two-digit alternatives. */
  lemma MatchPadded(m: nat, dd: nat)
    requires 1 <= m <= 12 && 1 <= dd <= 31
    ensures var t := Pad(m, 2) + ['-'] + Pad(dd, 2);
      MatchMonthDay(t, MonthCandidates(t)) == Some((2, 2))
  {
    var t := Pad(m, 2) + ['-'] + Pad(dd, 2);
    MonthField(m, ['-'] + Pad(dd, 2));
    assert t == Pad(m, 2) + (['-'] + Pad(dd, 2));
    DayField(dd);
    assert t[2] == '-' && t[2 + 1..] == Pad(dd, 2);
  }

  /** `strptime` reads back what `strftime("%Y-%m-%d")` wrote. */
  lemma {:induction false} StrptimeFormat(d: CivilDate)
    ensures Strptime(Format(d, '-')) == Ok(d)
  {
    var s := Format(d, '-');
    FormatShape(d, '-');
    PadValue(d.year, 4);
    PadValue(d.month, 2);
    PadValue(d.day, 2);
    var t := s[5..];
    assert t == Pad(d.month, 2) + ['-'] + Pad(d.day, 2);
    MatchPadded(d.month, d.day);
    assert s[5..5 + 2] == Pad(d.month, 2);
    assert s[6 + 2..] == Pad(d.day, 2);
    assert DayValue(s[6 + 2..]) == d.day;
  }

  /** Unlike `fromisoformat`, `strptime` also takes months and days without the leading zero. */
  lemma StrptimeLenient()
    ensures Strptime("2024-1-5") == Ok(Date(2024, 1, 5))
    ensures ParseIso("2024-1-5") == None
  {
    var s := "2024-1-5";
    var t := s[5..];
    assert t == "1-5";
    assert MonthCandidates(t) == [1];
    assert t[2..] == "5";
    assert MatchDay("5") == Some(1);
    assert MatchMonthDay(t, [1]) == Some((1, 1));
    assert s[..4] == "2024";
    assert DigitsValue("2024") == 2024 by {
      assert "2024"[..3] == "202" && "202"[..2] == "20" && "20"[..1] == "2" && "2"[..0] == "";
    }
    assert s[5..6] == "1" && DigitsValue("1") == 1 by { assert "1"[..0] == ""; }
    assert s[7..] == "5" && DigitsValue("5") == 5 by { assert "5"[..0] == ""; }
  }

  // ---------------------------------------------------------------------------------------
  // Ordinals and day arithmetic: date.toordinal and date + timedelta(days=n)

  function DaysBeforeYear(y: int): int
  {
    var p := y - 1;
    p * 365 + p / 4 - p / 100 + p / 400
  }

  function DaysBeforeMonth(y: int, m: int): (n: int)
    requires 1 <= m <= 12
    ensures n >= 0
  {
    if m == 1 then 0 else DaysBeforeMonth(y, m - 1) + DaysInMonth(y, m - 1)
  }

  function YearLength(y: int): int { if IsLeap(y) then 366 else 365 }

  /** `date.toordinal()`: 0001-01-01 is day 1. */
  function Ordinal(d: CivilDate): int
  {
    DaysBeforeYear(d.year) + DaysBeforeMonth(d.year, d.month) + d.day
  }

  /** The ordinal of 9999-12-31, the last date Python represents. */
  const MaxOrdinal: int := 3652059

  lemma DaysBeforeYearStep(y: int)
    requires 1 <= y
    ensures DaysBeforeYear(y + 1) == DaysBeforeYear(y) + YearLength(y)
  {
    QuotientStep4(y);
    QuotientStep100(y);
    QuotientStep400(y);
    Divides4Of100(y);
    Divides100Of400(y);
  }

  /** Going from `y - 1` to `y` adds one to `y / 4` exactly when 4 divides `y`; likewise for 100
      and 400. */
  lemma QuotientStep4(y: int)
    ensures y / 4 - (y - 1) / 4 == if y % 4 == 0 then 1 else 0
  {
    var q, r := y / 4, y % 4;
    assert y == 4 * q + r;
    if r == 0 {
      assert y - 1 == 4 * (q - 1) + 3;
    } else {
      assert y - 1 == 4 * q + (r - 1);
    }
  }

  lemma QuotientStep100(y: int)
    ensures y / 100 - (y - 1) / 100 == if y % 100 == 0 then 1 else 0
  {
    var q, r := y / 100, y % 100;
    assert y == 100 * q + r;
    if r == 0 {
      assert y - 1 == 100 * (q - 1) + 99;
    } else {
      assert y - 1 == 100 * q + (r - 1);
    }
  }

  lemma Divides4Of100(y: int)
    ensures y % 100 == 0 ==> y % 4 == 0
  {
    if y % 100 == 0 {
      assert y == 4 * (25 * (y / 100));
    }
  }

  lemma QuotientStep400(y: int)
    ensures y / 400 - (y - 1) / 400 == if y % 400 == 0 then 1 else 0
  {
    var q, r := y / 400, y % 400;
    assert y == 400 * q + r;
    if r == 0 {
      assert y - 1 == 400 * (q - 1) + 399;
    } else {
      assert y - 1 == 400 * q + (r - 1);
    }
  }

  lemma Divides100Of400(y: int)
    ensures y % 400 == 0 ==> y % 100 == 0
  {
    if y % 400 == 0 {
      assert y == 100 * (4 * (y / 400));
    }
  }

  lemma DaysBeforeDecember(y: int)
    ensures DaysBeforeMonth(y, 12) + 31 == YearLength(y)
  {
    assert DaysBeforeMonth(y, 1) == 0;
    assert DaysBeforeMonth(y, 2) == 31;
    assert DaysBeforeMonth(y, 3) == 31 + DaysInMonth(y, 2);
    assert DaysBeforeMonth(y, 4) == DaysBeforeMonth(y, 3) + 31;
    assert DaysBeforeMonth(y, 5) == DaysBeforeMonth(y, 4) + 30;
    assert DaysBeforeMonth(y, 6) == DaysBeforeMonth(y, 5) + 31;
    assert DaysBeforeMonth(y, 7) == DaysBeforeMonth(y, 6) + 30;
    assert DaysBeforeMonth(y, 8) == DaysBeforeMonth(y, 7) + 31;
    assert DaysBeforeMonth(y, 9) == DaysBeforeMonth(y, 8) + 31;
    assert DaysBeforeMonth(y, 10) == DaysBeforeMonth(y, 9) + 30;
    assert DaysBeforeMonth(y, 11) == DaysBeforeMonth(y, 10) + 31;
    assert DaysBeforeMonth(y, 12) == DaysBeforeMonth(y, 11) + 30;
  }

  lemma {:induction false} DaysBeforeMonthBound(y: int, m: int)
    requires 1 <= m <= 12
    ensures DaysBeforeMonth(y, m) + DaysInMonth(y, m) <= YearLength(y)
  {
    DaysBeforeDecember(y);
    var k := m;
    while k < 12
      invariant m <= k <= 12
      invariant DaysBeforeMonth(y, m) + DaysInMonth(y, m) <= DaysBeforeMonth(y, k) + DaysInMonth(y, k)
    {
      k := k + 1;
    }
  }

  lemma {:induction false} DaysBeforeYearMonotone(a: int, b: int)
    requires 1 <= a <= b
    ensures DaysBeforeYear(a) + (b - a) * 365 <= DaysBeforeYear(b)
    decreases b - a
  {
    if a < b {
      DaysBeforeYearStep(a);
      DaysBeforeYearMonotone(a + 1, b);
    }
  }

  /** Every representable date lies between ordinal 1 and 9999-12-31's. */
  lemma OrdinalBounds(d: CivilDate)
    ensures 1 <= Ordinal(d) <= MaxOrdinal
  {
    DaysBeforeMonthBound(d.year, d.month);
    DaysBeforeYearStep(d.year);
    DaysBeforeYearMonotone(d.year + 1, 10000);
    assert DaysBeforeYear(10000) == MaxOrdinal;
    DaysBeforeYearMonotone(1, d.year);
  }

  /** The day after `d`; `None` after 9999-12-31. */
  function NextDay(d: CivilDate): Option<CivilDate>
  {
    if d.day < DaysInMonth(d.year, d.month) then Some(Date(d.year, d.month, d.day + 1))
    else if d.month < 12 then Some(Date(d.year, d.month + 1, 1))
    else if d.year < 9999 then Some(Date(d.year + 1, 1, 1))
    else None
  }

  lemma NextDayOrdinal(d: CivilDate)
    ensures NextDay(d).Some? ==> Ordinal(NextDay(d).value) == Ordinal(d) + 1
    ensures NextDay(d).None? ==> Ordinal(d) == MaxOrdinal
  {
    if d.day < DaysInMonth(d.year, d.month) {
    } else if d.month < 12 {
      assert DaysBeforeMonth(d.year, d.month + 1) == DaysBeforeMonth(d.year, d.month) + DaysInMonth(d.year, d.month);
    } else if d.year < 9999 {
      DaysBeforeDecember(d.year);
      DaysBeforeYearStep(d.year);
    } else {
      LastDayOrdinal(d);
    }
  }

  /** 9999-12-31 has the largest ordinal. */
  lemma LastDayOrdinal(d: CivilDate)
    requires d.year == 9999 && d.month == 12 && d.day == 31
    ensures Ordinal(d) == MaxOrdinal
  {
    DaysBeforeDecember(9999);
    assert DaysBeforeYear(9999) == 3651694;
  }

  /** `d + timedelta(days=n)`, or `None` where Python raises `OverflowError`. */
  function AddDays(d: CivilDate, n: nat): Option<CivilDate>
    decreases n
  {
    if n == 0 then Some(d)
    else match NextDay(d)
      case None => None
      case Some(e) => AddDays(e, n - 1)
  }

  /** Adding days moves the ordinal by exactly that many, and it overflows exactly when the
      ordinal would pass 9999-12-31's. */
  lemma {:induction false} AddDaysOrdinal(d: CivilDate, n: nat)
    ensures AddDays(d, n).Some? <==> Ordinal(d) + n <= MaxOrdinal
    ensures AddDays(d, n).Some? ==> Ordinal(AddDays(d, n).value) == Ordinal(d) + n
    decreases n
  {
    OrdinalBounds(d);
    if n > 0 {
      NextDayOrdinal(d);
      if NextDay(d).Some? {
        AddDaysOrdinal(NextDay(d).value, n - 1);
      }
    }
  }

  /** Replacing the year (what `relativedelta` does for both `years=` and `year=`): the day is
      clamped to the new month's length, and a year outside 1..9999 is a `ValueError`. */
  function WithYear(d: CivilDate, y: int): (r: Result<CivilDate>)
    ensures r.Ok? <==> 1 <= y <= 9999
    ensures r.Ok? ==> r.value.year == y && r.value.month == d.month
    ensures r.Ok? ==> r.value.day == if d.day <= DaysInMonth(y, d.month) then d.day else DaysInMonth(y, d.month)
  {
    if 1 <= y <= 9999 then
      Ok(Date(y, d.month, if d.day <= DaysInMonth(y, d.month) then d.day else DaysInMonth(y, d.month)))
    else Err(ValueError("year is out of range"))
  }

  /** `d + relativedelta(years=n)`. */
  function ShiftYears(d: CivilDate, n: int): Result<CivilDate>
  {
    WithYear(d, d.year + n)
  }

  /** Only February 29 moves, to February 28, and only when the target year is not a leap year. */
  lemma {:induction false} WithYearKeepsDay(d: CivilDate, y: int)
    requires 1 <= y <= 9999
    ensures WithYear(d, y).value.day != d.day <==> d.month == 2 && d.day == 29 && !IsLeap(y)
    ensures WithYear(d, y).value.day != d.day ==> WithYear(d, y).value.day == 28
  {
  }

  /** Going back `n > 0` years lands strictly before `d`. */
  lemma ShiftYearsBack(d: CivilDate, n: int)
    requires n > 0 && ShiftYears(d, -n).Ok?
    ensures Before(ShiftYears(d, -n).value, d)
  {
  }
}
