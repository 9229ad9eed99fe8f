/** String helpers with Python's meaning: ordering, `in`, `split`, `join` and `replace`. */
module Text {

  /** Python's `a < b` on `str`: lexicographic comparison by code point. */
  predicate LexLess(a: string, b: string)
    decreases |a|
  {
    if |a| == 0 then |b| > 0
    else if |b| == 0 then false
    else if a[0] != b[0] then a[0] < b[0]
    else LexLess(a[1..], b[1..])
  }

  lemma {:induction false} LexLessIrreflexive(a: string)
    ensures !LexLess(a, a)
    decreases |a|
  {
    if |a| > 0 { LexLessIrreflexive(a[1..]); }
  }

  lemma {:induction false} LexLessTransitive(a: string, b: string, c: string)
    requires LexLess(a, b) && LexLess(b, c)
    ensures LexLess(a, c)
    decreases |a|
  {
    if |a| > 0 && a[0] == b[0] && b[0] == c[0] {
      LexLessTransitive(a[1..], b[1..], c[1..]);
    }
  }

  lemma {:induction false} LexLessTotal(a: string, b: string)
    requires a != b
    ensures LexLess(a, b) || LexLess(b, a)
    decreases |a|
  {
    if |a| > 0 && |b| > 0 && a[0] == b[0] {
      assert a == [a[0]] + a[1..] && b == [b[0]] + b[1..];
      LexLessTotal(a[1..], b[1..]);
    }
  }

  lemma {:induction false} LexLessAsymmetric(a: string, b: string)
    requires LexLess(a, b)
    ensures !LexLess(b, a)
  {
    if LexLess(b, a) {
      LexLessTransitive(a, b, a);
      LexLessIrreflexive(a);
    }
  }

  /** Comparing two concatenations whose first parts have equal length compares the first
      parts, and the second parts only when the first parts are equal. */
  lemma {:induction false} LexLessConcat(p1: string, q1: string, p2: string, q2: string)
    requires |p1| == |p2|
    ensures LexLess(p1 + q1, p2 + q2) <==> LexLess(p1, p2) || (p1 == p2 && LexLess(q1, q2))
    decreases |p1|
  {
    if |p1| == 0 {
      assert p1 + q1 == q1 && p2 + q2 == q2;
      LexLessIrreflexive(p1);
    } else {
      assert (p1 + q1)[0] == p1[0] && (p2 + q2)[0] == p2[0];
      if p1[0] == p2[0] {
        assert (p1 + q1)[1..] == p1[1..] + q1;
        assert (p2 + q2)[1..] == p2[1..] + q2;
        LexLessConcat(p1[1..], q1, p2[1..], q2);
        assert p1 == [p1[0]] + p1[1..] && p2 == [p2[0]] + p2[1..];
      } else {
        assert p1 != p2;
      }
    }
  }

  /** `t` occurs in `s` starting at index `i`. */
  predicate InfixAt(t: string, s: string, i: int)
  {
    0 <= i && i + |t| <= |s| && s[i..i + |t|] == t
  }

  /** Python's `t in s` for strings. */
  predicate Contains(s: string, t: string)
  {
    exists i | 0 <= i <= |s| - |t| :: InfixAt(t, s, i)
  }

  predicate HasSuffix(s: string, t: string)
  {
    |t| <= |s| && s[|s| - |t|..] == t
  }

  /** A suffix of `b` is a suffix of anything that ends with `b`. */
  lemma SuffixExtend(a: string, b: string, t: string)
    requires HasSuffix(b, t)
    ensures HasSuffix(a + b, t)
  {
    assert (a + b)[|a + b| - |t|..] == b[|b| - |t|..];
  }

  /** What occurs in `b` occurs in `a + b`, shifted by `|a|`. */
  lemma InfixExtend(a: string, b: string, t: string, i: int)
    requires InfixAt(t, b, i)
    ensures InfixAt(t, a + b, |a| + i)
  {
    assert (a + b)[|a| + i..|a| + i + |t|] == b[i..i + |t|];
  }

  /** `a + b` occurs at the start of `a + (b + c)`. */
  lemma InfixFront(a: string, b: string, c: string)
    ensures InfixAt(a + b, a + (b + c), 0)
  {
    assert (a + (b + c))[..|a + b|] == a + b;
  }

  /** Python's `s.split(sep)` for a one-character separator: the empty string splits into
      `[""]`, and adjacent separators give empty pieces. */
  function Split(s: string, sep: char): (r: seq<string>)
    ensures |r| >= 1
    ensures forall i :: 0 <= i < |r| ==> sep !in r[i]
  {
    if s == [] then [""]
    else
      var rest := Split(s[1..], sep);
      if s[0] == sep then [""] + rest
      else [[s[0]] + rest[0]] + rest[1..]
  }

  /** Python's `sep.join(xs)` for a non-empty list. */
  function Join(xs: seq<string>, sep: char): string
    requires |xs| >= 1
  {
    if |xs| == 1 then xs[0] else xs[0] + [sep] + Join(xs[1..], sep)
  }

  /** Joining the pieces of a split with the same separator gives the string back. */
  lemma {:induction false} JoinSplit(s: string, sep: char)
    ensures Join(Split(s, sep), sep) == s
  {
    if s != [] {
      JoinSplit(s[1..], sep);
      var rest := Split(s[1..], sep);
      if s[0] == sep {
        assert s == [sep] + s[1..];
      } else if |rest| == 1 {
        assert s == [s[0]] + rest[0];
      } else {
        assert Join(rest, sep) == rest[0] + [sep] + Join(rest[1..], sep);
        assert s == [s[0]] + s[1..];
      }
    }
  }

  lemma {:induction false} SplitPrefix(x: string, t: string, sep: char)
    requires sep !in x
    ensures Split(x + t, sep) == [x + Split(t, sep)[0]] + Split(t, sep)[1..]
  {
    if x != [] {
      assert x[0] in x;
      assert (x + t)[0] == x[0] && (x + t)[1..] == x[1..] + t;
      SplitPrefix(x[1..], t, sep);
      var r := Split(t, sep);
      assert Split(x + t, sep) == [[x[0]] + (x[1..] + r[0])] + r[1..];
      assert [x[0]] + (x[1..] + r[0]) == x + r[0];
    } else {
      assert x + t == t;
      var r := Split(t, sep);
      assert x + r[0] == r[0];
      assert [r[0]] + r[1..] == r;
    }
  }

  /** Splitting a join of separator-free pieces gives the pieces back. */
  lemma {:induction false} SplitJoin(xs: seq<string>, sep: char)
    requires |xs| >= 1
    requires forall i :: 0 <= i < |xs| ==> sep !in xs[i]
    ensures Split(Join(xs, sep), sep) == xs
  {
    if |xs| == 1 {
      SplitPrefix(xs[0], "", sep);
      assert Split("", sep) == [""];
      assert xs[0] + "" == xs[0];
      assert xs == [xs[0]];
    } else {
      SplitJoin(xs[1..], sep);
      var tail := [sep] + Join(xs[1..], sep);
      assert Join(xs, sep) == xs[0] + tail;
      SplitPrefix(xs[0], tail, sep);
      assert tail[1..] == Join(xs[1..], sep);
      assert Split(tail, sep) == [""] + xs[1..];
      assert xs[0] + "" == xs[0];
      assert xs == [xs[0]] + xs[1..];
    }
  }

  /** A split yields one more piece than there are separators. */
  lemma {:induction false} SplitCount(s: string, sep: char)
    ensures |Split(s, sep)| == multiset(s)[sep] + 1
  {
    if s != [] {
      SplitCount(s[1..], sep);
      assert s == [s[0]] + s[1..];
      assert multiset(s) == multiset{s[0]} + multiset(s[1..]);
    }
  }

  /** Python's `s.replace(pat, "")`: one left-to-right pass that deletes non-overlapping
      occurrences of `pat`. */
  function RemoveAll(s: string, pat: string): (r: string)
    requires |pat| > 0
    decreases |s|
  {
    if |s| < |pat| then s
    else if s[..|pat|] == pat then RemoveAll(s[|pat|..], pat)
    else [s[0]] + RemoveAll(s[1..], pat)
  }

  /** Python's `s.count(pat)`: non-overlapping occurrences, scanning left to right. */
  function CountOccurrences(s: string, pat: string): nat
    requires |pat| > 0
    decreases |s|
  {
    if |s| < |pat| then 0
    else if s[..|pat|] == pat then 1 + CountOccurrences(s[|pat|..], pat)
    else CountOccurrences(s[1..], pat)
  }

  /** `len(s.replace(pat, "")) == len(s) - len(pat) * s.count(pat)`. */
  lemma {:induction false} RemoveAllLength(s: string, pat: string)
    requires |pat| > 0
    ensures |RemoveAll(s, pat)| == |s| - |pat| * CountOccurrences(s, pat)
    decreases |s|
  {
    if |s| >= |pat| {
      if s[..|pat|] == pat {
        var rest := s[|pat|..];
        RemoveAllLength(rest, pat);
        var c := CountOccurrences(rest, pat);
        assert RemoveAll(s, pat) == RemoveAll(rest, pat) && CountOccurrences(s, pat) == 1 + c;
        MulSucc(|pat|, c);
      } else {
        RemoveAllLength(s[1..], pat);
        assert |RemoveAll(s, pat)| == 1 + |RemoveAll(s[1..], pat)|;
        assert CountOccurrences(s, pat) == CountOccurrences(s[1..], pat);
      }
    }
  }

  lemma MulSucc(n: int, c: int)
    ensures n * (1 + c) == n + n * c
  {
  }

  /** A string that does not contain `pat` is left unchanged. */
  lemma {:induction false} RemoveAllAbsent(s: string, pat: string)
    requires |pat| > 0
    requires !Contains(s, pat)
    ensures RemoveAll(s, pat) == s
    decreases |s|
  {
    if |s| >= |pat| {
      assert !InfixAt(pat, s, 0);
      ContainsShift(s, pat);
      RemoveAllAbsent(s[1..], pat);
      assert s == [s[0]] + s[1..];
    }
  }

  lemma ContainsShift(s: string, t: string)
    requires |s| > 0
    ensures Contains(s[1..], t) ==> Contains(s, t)
  {
    if Contains(s[1..], t) {
      var i :| 0 <= i <= |s[1..]| - |t| && InfixAt(t, s[1..], i);
      assert s[1..][i..i + |t|] == s[i + 1..i + 1 + |t|];
      assert InfixAt(t, s, i + 1);
    }
  }

  /** The pass is not repeated: deleting one occurrence can bring a new one together. */
  lemma RemoveAllSinglePass()
    ensures RemoveAll("tttmtm", "ttm") == "ttm"
  {
    assert "tttmtm"[..3][2] != "ttm"[2];
    assert "tttmtm"[1..] == "ttmtm";
    assert "ttmtm"[..3] == "ttm";
    assert "ttmtm"[3..] == "tm";
  }

  /** Python's `xs.index(x)` when `x in xs`, and `len(xs)` otherwise. */
  function IndexOf(xs: seq<string>, x: string): (i: nat)
    ensures i <= |xs|
    ensures i < |xs| ==> xs[i] == x && forall j :: 0 <= j < i ==> xs[j] != x
    ensures i == |xs| <==> x !in xs
  {
    if xs == [] then 0
    else if xs[0] == x then 0
    else 1 + IndexOf(xs[1..], x)
  }
}
