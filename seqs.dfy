/** Facts about sequences that do not depend on what they hold, stated once so that proofs about
    sequences of records do not have to reason about records to use them. */
module Seqs {

  /** A non-empty sequence is its head followed by its tail. */
  lemma HeadTail<T>(s: seq<T>)
    requires s != []
    ensures s == [s[0]] + s[1..]
  {
  }

  lemma DropHead<T>(x: T, s: seq<T>)
    ensures ([x] + s)[1..] == s
  {
  }

  /** A sequence split around its item at `k`. */
  lemma SplitAt<T>(s: seq<T>, k: int)
    requires 0 <= k < |s|
    ensures s == s[..k] + ([s[k]] + s[k + 1..])
  {
  }

  /** A sequence split around its items at `i` and `j`. */
  lemma SplitTwice<T>(s: seq<T>, i: int, j: int)
    requires 0 <= i < j < |s|
    ensures s == s[..i] + ([s[i]] + (s[i + 1..j] + ([s[j]] + s[j + 1..])))
  {
    SplitAt(s, i);
    assert s[i + 1..] == s[i + 1..j] + s[j..];
    assert s[j..] == [s[j]] + s[j + 1..];
  }

  /** Where the two marked items of `l + [x] + m + [y] + r` sit. */
  lemma KeepPositions<T>(l: seq<T>, m: seq<T>, r: seq<T>, x: T, y: T)
    ensures var s := l + ([x] + (m + ([y] + r)));
      |l| + 1 + |m| < |s| && s[|l|] == x && s[|l| + 1 + |m|] == y
  {
  }

  /** Taking the middle part out of a sequence takes its items out of the multiset. */
  lemma MultisetMiddle<T>(x: seq<T>, y: seq<T>, z: seq<T>)
    ensures multiset(x + (y + z)) == multiset(y) + multiset(x + z)
  {
  }

  /** `f` applied to every item, in order. */
  function Map<A, B>(xs: seq<A>, f: A -> B): (r: seq<B>)
    ensures |r| == |xs| && forall i :: 0 <= i < |xs| ==> r[i] == f(xs[i])
  {
    if xs == [] then [] else [f(xs[0])] + Map(xs[1..], f)
  }

  lemma {:induction false} MapConcat<A, B>(a: seq<A>, b: seq<A>, f: A -> B)
    ensures Map(a + b, f) == Map(a, f) + Map(b, f)
  {
  }

  /** Taking out the item at `j` takes it out of the multiset. */
  lemma RemoveAt<T>(b: seq<T>, j: int)
    requires 0 <= j < |b|
    ensures multiset(b) == multiset{b[j]} + multiset(b[..j] + b[j + 1..])
  {
    assert b == b[..j] + ([b[j]] + b[j + 1..]);
  }

  /** Two permutations of each other with the same item taken out. */
  lemma MultisetTail<T>(a: seq<T>, b: seq<T>, j: int)
    requires multiset(a) == multiset(b) && a != [] && 0 <= j < |b| && b[j] == a[0]
    ensures multiset(a[1..]) == multiset(b[..j] + b[j + 1..])
  {
    RemoveAt(b, j);
    RemoveAt(a, 0);
    assert a[..0] + a[1..] == a[1..];
    var rest := b[..j] + b[j + 1..];
    forall y
      ensures multiset(a[1..])[y] == multiset(rest)[y]
    {
      assert multiset(a)[y] == multiset(b)[y];
    }
  }

  /** The multiset of a mapped concatenation is the sum of the mapped parts' multisets. */
  lemma MapConcatMultiset<A, B>(a: seq<A>, b: seq<A>, f: A -> B)
    ensures multiset(Map(a + b, f)) == multiset(Map(a, f)) + multiset(Map(b, f))
  {
    MapConcat(a, b, f);
  }

  /** Mapping a sequence maps the item at `j` and the rest. */
  lemma MapAround<A, B>(b: seq<A>, j: int, f: A -> B)
    requires 0 <= j < |b|
    ensures multiset(Map(b, f)) == multiset{f(b[j])} + multiset(Map(b[..j] + b[j + 1..], f))
  {
    var pre, rest := b[..j], b[j..];
    assert b == pre + rest;
    assert rest[1..] == b[j + 1..];
    MapConcatMultiset(pre, rest, f);
    assert Map(rest, f) == [f(b[j])] + Map(b[j + 1..], f);
    MapConcatMultiset(pre, b[j + 1..], f);
  }

  /** Mapping commutes with reordering: permuted items map to permuted results. */
  lemma {:induction false} MapPermutation<A, B>(a: seq<A>, b: seq<A>, f: A -> B)
    requires multiset(a) == multiset(b)
    ensures multiset(Map(a, f)) == multiset(Map(b, f))
    decreases |a|
  {
    if a != [] {
      assert a[0] in multiset(b);
      var j :| 0 <= j < |b| && b[j] == a[0];
      MultisetTail(a, b, j);
      MapPermutation(a[1..], b[..j] + b[j + 1..], f);
      MapAround(b, j, f);
      MapAround(a, 0, f);
      assert a[..0] + a[1..] == a[1..];
    }
  }
}
