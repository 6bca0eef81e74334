/**
 * Python's `sorted(xs, key=..., reverse=True)` and `list.sort(key=..., reverse=True)`:
 * a stable sort into non-increasing key order, where elements with equal keys
 * keep their input order. Keys are compared by a strict total order `lt`.
 */
module Sorting {
  import Strings

  /** `lt` is irreflexive, transitive and total on distinct keys. */
  ghost predicate StrictTotal<K(!new)>(lt: (K, K) -> bool) {
    && (forall a :: !lt(a, a))
    && (forall a, b, c :: lt(a, b) && lt(b, c) ==> lt(a, c))
    && (forall a, b :: a != b ==> lt(a, b) || lt(b, a))
  }

  /** No element is strictly smaller than one after it. */
  ghost predicate SortedDesc<T, K>(xs: seq<T>, key: T -> K, lt: (K, K) -> bool) {
    forall i, j :: 0 <= i < j < |xs| ==> !lt(key(xs[i]), key(xs[j]))
  }

  /** The elements whose key is `k`, in their order in `xs`. */
  function KeyFilter<T, K(==)>(xs: seq<T>, key: T -> K, k: K): (r: seq<T>)
    ensures |r| <= |xs|
    ensures forall i :: 0 <= i < |r| ==> key(r[i]) == k
  {
    if xs == [] then []
    else (if key(xs[0]) == k then [xs[0]] else []) + KeyFilter(xs[1..], key, k)
  }

  /** Places `x` in front of the first element whose key is strictly smaller than its own. */
  function Insert<T, K>(x: T, ys: seq<T>, key: T -> K, lt: (K, K) -> bool): (r: seq<T>)
    ensures |r| == |ys| + 1
  {
    if ys == [] then [x]
    else if lt(key(ys[0]), key(x)) then [x] + ys
    else [ys[0]] + Insert(x, ys[1..], key, lt)
  }

  /** `sorted(xs, key=key, reverse=True)`. */
  function SortDesc<T, K>(xs: seq<T>, key: T -> K, lt: (K, K) -> bool): (r: seq<T>)
    ensures |r| == |xs|
  {
    if xs == [] then [] else Insert(xs[|xs| - 1], SortDesc(xs[..|xs| - 1], key, lt), key, lt)
  }

  lemma {:induction false} KeyFilterAppend<T, K>(a: seq<T>, b: seq<T>, key: T -> K, k: K)
    ensures KeyFilter(a + b, key, k) == KeyFilter(a, key, k) + KeyFilter(b, key, k)
    decreases |a|
  {
    if a == [] {
      assert a + b == b;
    } else {
      assert (a + b)[1..] == a[1..] + b;
      KeyFilterAppend(a[1..], b, key, k);
    }
  }

  lemma {:induction false} InsertMultiset<T, K>(x: T, ys: seq<T>, key: T -> K, lt: (K, K) -> bool)
    ensures multiset(Insert(x, ys, key, lt)) == multiset(ys) + multiset{x}
    decreases |ys|
  {
    if ys != [] && !lt(key(ys[0]), key(x)) {
      InsertMultiset(x, ys[1..], key, lt);
      assert ys == [ys[0]] + ys[1..];
    }
  }

  lemma {:induction false} InsertSorted<T, K(!new)>(x: T, ys: seq<T>, key: T -> K, lt: (K, K) -> bool)
    requires StrictTotal(lt)
    requires SortedDesc(ys, key, lt)
    ensures SortedDesc(Insert(x, ys, key, lt), key, lt)
    ensures Insert(x, ys, key, lt)[0] == x || Insert(x, ys, key, lt)[0] == ys[0]
    decreases |ys|
  {
    var r := Insert(x, ys, key, lt);
    if ys == [] {
    } else if lt(key(ys[0]), key(x)) {
      forall j | 0 < j < |r| ensures !lt(key(x), key(r[j])) {
        assert r[j] == ys[j - 1];
        if j - 1 > 0 { assert !lt(key(ys[0]), key(ys[j - 1])); }
      }
    } else {
      InsertSorted(x, ys[1..], key, lt);
      var t := Insert(x, ys[1..], key, lt);
      assert r == [ys[0]] + t;
      assert multiset(t) == multiset(ys[1..]) + multiset{x} by { InsertMultiset(x, ys[1..], key, lt); }
      forall j | 0 < j < |r| ensures !lt(key(ys[0]), key(r[j])) {
        assert r[j] in multiset(t);
        assert r[j] in ys[1..] || r[j] == x;
      }
    }
  }

  /** The tail of a sorted list is sorted. */
  lemma SortedTail<T, K>(ys: seq<T>, key: T -> K, lt: (K, K) -> bool)
    requires ys != [] && SortedDesc(ys, key, lt)
    ensures SortedDesc(ys[1..], key, lt)
  {
    forall i, j | 0 <= i < j < |ys| - 1 ensures !lt(key(ys[1..][i]), key(ys[1..][j])) {
      assert ys[1..][i] == ys[i + 1] && ys[1..][j] == ys[j + 1];
    }
  }

  /** Inserting into a sorted list appends `x` to the run of elements with its key. */
  lemma {:induction false} InsertKeyFilter<T, K(!new)>(x: T, ys: seq<T>, key: T -> K, lt: (K, K) -> bool, k: K)
    requires StrictTotal(lt)
    requires SortedDesc(ys, key, lt)
    ensures KeyFilter(Insert(x, ys, key, lt), key, k) == KeyFilter(ys, key, k) + KeyFilter([x], key, k)
    decreases |ys|
  {
    if ys == [] {
    } else if lt(key(ys[0]), key(x)) {
      if key(x) == k {
        NoKeyBelow(ys, key, lt, key(x));
      }
      KeyFilterAppend([x], ys, key, k);
    } else {
      var t := Insert(x, ys[1..], key, lt);
      assert Insert(x, ys, key, lt) == [ys[0]] + t;
      SortedTail(ys, key, lt);
      InsertKeyFilter(x, ys[1..], key, lt, k);
      KeyFilterAppend([ys[0]], t, key, k);
      KeyFilterAppend([ys[0]], ys[1..], key, k);
      assert [ys[0]] + ys[1..] == ys;
    }
  }

  /** In a sorted list headed by a key below `k`, no key equals `k`. */
  lemma {:induction false} NoKeyBelow<T, K(!new)>(ys: seq<T>, key: T -> K, lt: (K, K) -> bool, k: K)
    requires StrictTotal(lt)
    requires SortedDesc(ys, key, lt)
    requires ys != [] && lt(key(ys[0]), k)
    ensures KeyFilter(ys, key, k) == []
    decreases |ys|
  {
    if |ys| > 1 {
      assert !lt(key(ys[0]), key(ys[1]));
      NoKeyBelow(ys[1..], key, lt, k);
    }
  }

  /** The output is a permutation of the input. */
  lemma {:induction false} SortDescPermutation<T, K>(xs: seq<T>, key: T -> K, lt: (K, K) -> bool)
    ensures multiset(SortDesc(xs, key, lt)) == multiset(xs)
    decreases |xs|
  {
    if xs != [] {
      var init := xs[..|xs| - 1];
      SortDescPermutation(init, key, lt);
      InsertMultiset(xs[|xs| - 1], SortDesc(init, key, lt), key, lt);
      assert xs == init + [xs[|xs| - 1]];
    }
  }

  /** The output is in non-increasing key order. */
  lemma {:induction false} SortDescSorted<T, K(!new)>(xs: seq<T>, key: T -> K, lt: (K, K) -> bool)
    requires StrictTotal(lt)
    ensures SortedDesc(SortDesc(xs, key, lt), key, lt)
    decreases |xs|
  {
    if xs != [] {
      SortDescSorted(xs[..|xs| - 1], key, lt);
      InsertSorted(xs[|xs| - 1], SortDesc(xs[..|xs| - 1], key, lt), key, lt);
    }
  }

  /** Stability: the elements sharing any one key come out in their input order. */
  lemma {:induction false} SortDescStable<T, K(!new)>(xs: seq<T>, key: T -> K, lt: (K, K) -> bool, k: K)
    requires StrictTotal(lt)
    ensures KeyFilter(SortDesc(xs, key, lt), key, k) == KeyFilter(xs, key, k)
    decreases |xs|
  {
    if xs != [] {
      var init := xs[..|xs| - 1];
      var last := xs[|xs| - 1];
      SortDescStable(init, key, lt, k);
      SortDescSorted(init, key, lt);
      InsertKeyFilter(last, SortDesc(init, key, lt), key, lt, k);
      assert xs == init + [last];
      KeyFilterAppend(init, [last], key, k);
    }
  }

  /** All three facts for the one call. */
  lemma SortDescSpec<T, K(!new)>(xs: seq<T>, key: T -> K, lt: (K, K) -> bool)
    requires StrictTotal(lt)
    ensures multiset(SortDesc(xs, key, lt)) == multiset(xs)
    ensures SortedDesc(SortDesc(xs, key, lt), key, lt)
    ensures forall k :: KeyFilter(SortDesc(xs, key, lt), key, k) == KeyFilter(xs, key, k)
  {
    SortDescPermutation(xs, key, lt);
    SortDescSorted(xs, key, lt);
    forall k ensures KeyFilter(SortDesc(xs, key, lt), key, k) == KeyFilter(xs, key, k) {
      SortDescStable(xs, key, lt, k);
    }
  }

  /**
   * A prefix of the sorted list holds elements of the input only, and no
   * element left out has a key above one kept.
   */
  lemma SortedPrefixTop<T, K(!new)>(xs: seq<T>, key: T -> K, lt: (K, K) -> bool, m: nat)
    requires StrictTotal(lt) && m <= |xs|
    ensures forall x :: x in SortDesc(xs, key, lt)[..m] ==> x in xs
    ensures forall x, t :: x in xs && x !in SortDesc(xs, key, lt)[..m] && t in SortDesc(xs, key, lt)[..m] ==>
      !lt(key(t), key(x))
  {
    var s := SortDesc(xs, key, lt);
    SortDescPermutation(xs, key, lt);
    SortDescSorted(xs, key, lt);
    var r := s[..m];
    forall x | x in r ensures x in xs {
      assert x in multiset(s);
    }
    forall x, t | x in xs && x !in r && t in r ensures !lt(key(t), key(x)) {
      assert x in multiset(xs);
      var j :| 0 <= j < |s| && s[j] == x;
      var i :| 0 <= i < m && r[i] == t;
      assert s[i] == t;
      assert j >= m;
    }
  }

  // ---------------------------------------------------------------------------
  // The two key orders the system sorts by
  // ---------------------------------------------------------------------------

  /** Numeric `<` on scores. */
  function RealLess(a: real, b: real): bool { a < b }

  /** Python `<` on strings (dates are compared as `YYYY-MM-DD...` text). */
  function StringLess(a: string, b: string): bool { Strings.LexLess(a, b) }

  lemma RealLessStrictTotal()
    ensures StrictTotal(RealLess)
  {
  }

  lemma StringLessStrictTotal()
    ensures StrictTotal(StringLess)
  {
    forall a: string ensures !StringLess(a, a) {
      Strings.LexLessIrreflexive(a);
    }
    forall a: string, b: string, c: string | StringLess(a, b) && StringLess(b, c) ensures StringLess(a, c) {
      Strings.LexLessTransitive(a, b, c);
    }
    forall a: string, b: string | a != b ensures StringLess(a, b) || StringLess(b, a) {
      Strings.LexLessTotal(a, b);
    }
  }
}
