/** The reorderings the fetchers apply: Python's stable `sorted(..., key=...)` and
    `DataFrame.sort_values`. `key` gives each item its sort key, and `before(a, b)` says that
    key `a` must come ahead of key `b`. */
module Sorting {

  /** `before` is a strict total order on keys. */
  ghost predicate StrictTotal<K(!new)>(before: (K, K) -> bool)
  {
    (forall a :: !before(a, a)) &&
    (forall a, b, c :: before(a, b) && before(b, c) ==> before(a, c)) &&
    (forall a, b :: a != b ==> before(a, b) || before(b, a))
  }

  /** No item has a key that must come ahead of an earlier item's key. */
  ghost predicate Ordered<K, T>(xs: seq<T>, key: T -> K, before: (K, K) -> bool)
  {
    forall i, j :: 0 <= i < j < |xs| ==> !before(key(xs[j]), key(xs[i]))
  }

  /** The items whose key is `k`, in their order. */
  function WithKey<K(==), T>(xs: seq<T>, key: T -> K, k: K): seq<T>
  {
    if xs == [] then [] else (if key(xs[0]) == k then [xs[0]] else []) + WithKey(xs[1..], key, k)
  }

  /** Places `x` ahead of the first item whose key does not have to come ahead of its own. */
  function Insert<K, T>(x: T, ys: seq<T>, key: T -> K, before: (K, K) -> bool): (r: seq<T>)
    ensures multiset(r) == multiset{x} + multiset(ys)
  {
    if ys == [] then [x]
    else if before(key(ys[0]), key(x)) then
      assert ys == [ys[0]] + ys[1..];
      [ys[0]] + Insert(x, ys[1..], key, before)
    else [x] + ys
  }

  /** Insertion sort; an earlier item stays ahead of a later one with the same key. */
  function SortBy<K, T>(xs: seq<T>, key: T -> K, before: (K, K) -> bool): (r: seq<T>)
    ensures multiset(r) == multiset(xs)
    ensures |r| == |xs|
  {
    if xs == [] then []
    else
      assert xs == [xs[0]] + xs[1..];
      var r := Insert(xs[0], SortBy(xs[1..], key, before), key, before);
      assert |r| == |multiset(r)|;
      r
  }

  lemma {:induction false} InsertOrdered<K(!new), T>(x: T, ys: seq<T>, key: T -> K, before: (K, K) -> bool)
    requires StrictTotal(before)
    requires Ordered(ys, key, before)
    ensures Ordered(Insert(x, ys, key, before), key, before)
  {
    if ys != [] {
      var r := Insert(x, ys, key, before);
      if before(key(ys[0]), key(x)) {
        var tail := Insert(x, ys[1..], key, before);
        InsertOrdered(x, ys[1..], key, before);
        forall j | 0 <= j < |tail|
          ensures !before(key(tail[j]), key(ys[0]))
        {
          assert tail[j] in multiset(tail);
          if tail[j] != x {
            assert tail[j] in multiset(ys[1..]);
            var m :| 0 <= m < |ys[1..]| && ys[1..][m] == tail[j];
            assert ys[m + 1] == tail[j];
          }
        }
        assert r == [ys[0]] + tail;
      } else {
        forall j | 0 <= j < |ys|
          ensures !before(key(ys[j]), key(x))
        {
          if j > 0 && key(ys[j]) != key(ys[0]) {
            assert !before(key(ys[j]), key(ys[0]));
          }
        }
        assert r == [x] + ys;
      }
    }
  }

  /** The sorted order obeys `before`. */
  lemma {:induction false} SortByOrdered<K(!new), T>(xs: seq<T>, key: T -> K, before: (K, K) -> bool)
    requires StrictTotal(before)
    ensures Ordered(SortBy(xs, key, before), key, before)
  {
    if xs != [] {
      SortByOrdered(xs[1..], key, before);
      InsertOrdered(xs[0], SortBy(xs[1..], key, before), key, before);
    }
  }

  lemma {:induction false} WithKeyConcat<K, T>(a: seq<T>, b: seq<T>, key: T -> K, k: K)
    ensures WithKey(a + b, key, k) == WithKey(a, key, k) + WithKey(b, key, k)
  {
    if a != [] {
      assert (a + b)[1..] == a[1..] + b;
      WithKeyConcat(a[1..], b, key, k);
    } else {
      assert a + b == b;
    }
  }

  lemma WithKeySingle<K, T>(x: T, key: T -> K, k: K)
    ensures WithKey([x], key, k) == if key(x) == k then [x] else []
  {
    assert [x][1..] == [];
  }

  lemma {:induction false} InsertWithKey<K(!new), T>(x: T, ys: seq<T>, key: T -> K, before: (K, K) -> bool, k: K)
    requires forall a :: !before(a, a)
    ensures WithKey(Insert(x, ys, key, before), key, k) == WithKey([x], key, k) + WithKey(ys, key, k)
    decreases |ys|, 1
  {
    if ys == [] {
      assert Insert(x, ys, key, before) == [x];
      assert WithKey(ys, key, k) == [];
      assert [x] + [] == [x];
    } else if before(key(ys[0]), key(x)) {
      InsertAfterHead(x, ys, key, before, k);
    } else {
      assert Insert(x, ys, key, before) == [x] + ys;
      WithKeyConcat([x], ys, key, k);
    }
  }

  /** The step of `InsertWithKey` where `x` goes past the head of `ys`. */
  lemma {:induction false} InsertAfterHead<K(!new), T>(x: T, ys: seq<T>, key: T -> K, before: (K, K) -> bool, k: K)
    requires forall a :: !before(a, a)
    requires ys != [] && before(key(ys[0]), key(x))
    ensures WithKey(Insert(x, ys, key, before), key, k) == WithKey([x], key, k) + WithKey(ys, key, k)
    decreases |ys|, 0
  {
    var y := ys[0];
    var tail := Insert(x, ys[1..], key, before);
    assert Insert(x, ys, key, before) == [y] + tail;
    InsertWithKey(x, ys[1..], key, before, k);
    WithKeyConcat([y], tail, key, k);
    WithKeySingle(y, key, k);
    assert WithKey(ys, key, k) == WithKey([y], key, k) + WithKey(ys[1..], key, k);
    WithKeySingle(x, key, k);
    assert !before(key(x), key(x));
    assert key(y) != key(x);
    var wx, wy, wr := WithKey([x], key, k), WithKey([y], key, k), WithKey(ys[1..], key, k);
    if wx == [] {
      assert wx + wr == wr && wx + (wy + wr) == wy + wr;
    } else {
      assert wy == [];
      assert wy + (wx + wr) == wx + wr && wy + wr == wr;
    }
  }

  /** Stability: the items sharing a key keep their relative order. */
  lemma {:induction false} SortByStable<K(!new), T>(xs: seq<T>, key: T -> K, before: (K, K) -> bool, k: K)
    requires forall a :: !before(a, a)
    ensures WithKey(SortBy(xs, key, before), key, k) == WithKey(xs, key, k)
  {
    if xs != [] {
      var sortedRest := SortBy(xs[1..], key, before);
      assert SortBy(xs, key, before) == Insert(xs[0], sortedRest, key, before);
      SortByStable(xs[1..], key, before, k);
      InsertWithKey(xs[0], sortedRest, key, before, k);
      WithKeySingle(xs[0], key, k);
      assert WithKey(xs, key, k) == WithKey([xs[0]], key, k) + WithKey(xs[1..], key, k);
    }
  }

  /** The first components of a sequence of pairs. */
  function Firsts<A, B>(xs: seq<(A, B)>): (r: seq<A>)
    ensures |r| == |xs| && forall i :: 0 <= i < |xs| ==> r[i] == xs[i].0
  {
    if xs == [] then [] else [xs[0].0] + Firsts(xs[1..])
  }

  lemma {:induction false} InsertFirsts<K, A, B>(x: (A, B), ys: seq<(A, B)>, key: A -> K, pairKey: ((A, B)) -> K, before: (K, K) -> bool)
    requires forall p :: pairKey(p) == key(p.0)
    ensures Firsts(Insert(x, ys, pairKey, before)) == Insert(x.0, Firsts(ys), key, before)
  {
    if ys != [] {
      assert Firsts(ys)[1..] == Firsts(ys[1..]);
      if before(pairKey(ys[0]), pairKey(x)) {
        InsertFirsts(x, ys[1..], key, pairKey, before);
        assert Firsts([ys[0]] + Insert(x, ys[1..], pairKey, before)) == [ys[0].0] + Firsts(Insert(x, ys[1..], pairKey, before));
      } else {
        assert Firsts([x] + ys) == [x.0] + Firsts(ys);
      }
    }
  }

  /** Sorting pairs by a key of their first component, then projecting, is sorting the
      projections. */
  lemma {:induction false} SortByFirsts<K, A, B>(xs: seq<(A, B)>, key: A -> K, pairKey: ((A, B)) -> K, before: (K, K) -> bool)
    requires forall p :: pairKey(p) == key(p.0)
    ensures Firsts(SortBy(xs, pairKey, before)) == SortBy(Firsts(xs), key, before)
  {
    if xs != [] {
      SortByFirsts(xs[1..], key, pairKey, before);
      InsertFirsts(xs[0], SortBy(xs[1..], pairKey, before), key, pairKey, before);
      assert Firsts(xs)[1..] == Firsts(xs[1..]);
    }
  }
}
