/**
  The two collection operations the stores are built from: Swift's
  `sorted(by:)` with a "greater key first" comparison, and `filter`.
  Both are generic over the element and a key or keep function.
 */
module Sequences {

  /** `s` runs from the largest key to the smallest; equal keys may come in any order. */
  ghost predicate NonIncreasing<T>(s: seq<T>, key: T -> int) {
    forall i, j :: 0 <= i < j < |s| ==> key(s[i]) >= key(s[j])
  }

  /** No two elements of `s` share a key (for example, two icons the same id). */
  ghost predicate DistinctBy<T, K>(s: seq<T>, key: T -> K) {
    forall i, j :: 0 <= i < j < |s| ==> key(s[i]) != key(s[j])
  }

  /** No value occurs twice in `s`: distinct under the identity key. */
  ghost predicate Distinct<T>(s: seq<T>) {
    DistinctBy(s, (x: T) => x)
  }

  // ---------------------------------------------------------------------------
  // Sorting

  /** Places `x` in front of the first element whose key is not larger than its own. */
  function Insert<T>(x: T, s: seq<T>, key: T -> int): (r: seq<T>)
    requires NonIncreasing(s, key)
    ensures NonIncreasing(r, key)
    ensures multiset(r) == multiset(s) + multiset{x}
  {
    if s == [] || key(x) >= key(s[0]) then
      [x] + s
    else
      var rest := Insert(x, s[1..], key);
      assert s == [s[0]] + s[1..];
      HeadBoundsPermutation(s[0], x, s[1..], rest, key);
      [s[0]] + rest
  }

  /** An upper bound on `x` and on every element of `s` bounds any rearrangement of `s` plus `x`. */
  lemma HeadBoundsPermutation<T>(h: T, x: T, s: seq<T>, rest: seq<T>, key: T -> int)
    requires multiset(rest) == multiset(s) + multiset{x}
    requires key(h) >= key(x)
    requires forall j :: 0 <= j < |s| ==> key(h) >= key(s[j])
    ensures forall j :: 0 <= j < |rest| ==> key(h) >= key(rest[j])
  {
    forall j | 0 <= j < |rest| ensures key(h) >= key(rest[j]) {
      assert rest[j] in multiset(rest);
      if rest[j] != x {
        assert rest[j] in multiset(s);
      }
    }
  }

  /**
    A sort that leaves `s` ordered by descending key. It is an insertion sort,
    so it happens to keep equal keys in their input order; nothing in this
    model relies on that.
   */
  function SortDescending<T>(s: seq<T>, key: T -> int): (r: seq<T>)
    ensures NonIncreasing(r, key)
    ensures multiset(r) == multiset(s)
  {
    if s == [] then
      []
    else
      assert s == [s[0]] + s[1..];
      Insert(s[0], SortDescending(s[1..], key), key)
  }

  /** A permutation of a sequence without repeated keys has none either. */
  lemma {:induction false} PermutationKeepsDistinctBy<T, K>(a: seq<T>, b: seq<T>, key: T -> K)
    requires multiset(a) == multiset(b)
    requires DistinctBy(a, key)
    ensures DistinctBy(b, key)
  {
    forall i, j | 0 <= i < j < |b| ensures key(b[i]) != key(b[j]) {
      assert b[i] in multiset(a) && b[j] in multiset(a);
      var p :| 0 <= p < |a| && a[p] == b[i];
      var q :| 0 <= q < |a| && a[q] == b[j];
      if p == q {
        CountOfRepeated(b, i, j);
        CountOfDistinct(a, key, b[i]);
      }
    }
  }

  /** An element found at two positions occurs at least twice. */
  lemma CountOfRepeated<T>(s: seq<T>, i: int, j: int)
    requires 0 <= i < j < |s| && s[i] == s[j]
    ensures multiset(s)[s[i]] >= 2
  {
    assert s == s[..j] + [s[j]] + s[j + 1..];
    assert s[i] == s[..j][i];
  }

  /** In a sequence without repeated keys every element occurs at most once. */
  lemma {:induction false} CountOfDistinct<T, K>(s: seq<T>, key: T -> K, x: T)
    requires DistinctBy(s, key)
    ensures multiset(s)[x] <= 1
  {
    if s != [] {
      var init := s[..|s| - 1];
      assert s == init + [s[|s| - 1]];
      CountOfDistinct(init, key, x);
    }
  }

  // ---------------------------------------------------------------------------
  // Filtering

  /**
    The elements of `s` that `keep` accepts, in their order in `s`.
    Defined from the back, the way a loop appending one element at a time builds it.
   */
  function Filter<T(!new)>(s: seq<T>, keep: T -> bool): (r: seq<T>)
    ensures |r| <= |s|
    ensures forall j :: 0 <= j < |r| ==> keep(r[j])
  {
    if s == [] then []
    else Filter(s[..|s| - 1], keep) + (if keep(s[|s| - 1]) then [s[|s| - 1]] else [])
  }

  /** Every accepted element keeps its number of occurrences; every rejected one is gone. */
  lemma {:induction false} FilterCounts<T(!new)>(s: seq<T>, keep: T -> bool)
    ensures forall x :: multiset(Filter(s, keep))[x] == if keep(x) then multiset(s)[x] else 0
  {
    if s != [] {
      var init, last := s[..|s| - 1], s[|s| - 1];
      assert s == init + [last];
      FilterCounts(init, keep);
    }
  }

  /** `x` survives the filter exactly when it is in `s` and accepted. */
  lemma FilterMembership<T(!new)>(s: seq<T>, keep: T -> bool)
    ensures forall x :: x in Filter(s, keep) <==> x in s && keep(x)
  {
    FilterCounts(s, keep);
    forall x ensures x in Filter(s, keep) <==> x in s && keep(x) {
      assert x in Filter(s, keep) <==> x in multiset(Filter(s, keep));
      assert x in s <==> x in multiset(s);
    }
  }

  /** Filtering a concatenation filters each part. */
  lemma {:induction false} FilterConcat<T(!new)>(a: seq<T>, b: seq<T>, keep: T -> bool)
    ensures Filter(a + b, keep) == Filter(a, keep) + Filter(b, keep)
  {
    if b != [] {
      var init, last := b[..|b| - 1], b[|b| - 1];
      assert (a + b)[..|a + b| - 1] == a + init;
      assert (a + b)[|a + b| - 1] == last;
      FilterConcat(a, init, keep);
      assert Filter(b, keep) == Filter(init, keep) + (if keep(last) then [last] else []);
      assert Filter(a + b, keep) == Filter(a + init, keep) + (if keep(last) then [last] else []);
    } else {
      assert a + b == a;
    }
  }

  /** When `keep` accepts every element, nothing is removed. */
  lemma {:induction false} FilterKeepsAll<T(!new)>(s: seq<T>, keep: T -> bool)
    requires forall x :: x in s ==> keep(x)
    ensures Filter(s, keep) == s
  {
    if s != [] {
      var init := s[..|s| - 1];
      assert s == init + [s[|s| - 1]];
      FilterKeepsAll(init, keep);
    }
  }

  /**
    Where element `i` of `s` lands in `Filter(s, keep)`: the number of kept
    elements in front of it.
   */
  function Rank<T(!new)>(s: seq<T>, keep: T -> bool, i: nat): nat
    requires i <= |s|
  {
    |Filter(s[..i], keep)|
  }

  /** A kept element sits in the filtered sequence at its rank. */
  lemma FilterAtRank<T(!new)>(s: seq<T>, keep: T -> bool, i: nat)
    requires i < |s| && keep(s[i])
    ensures Rank(s, keep, i) < |Filter(s, keep)|
    ensures Filter(s, keep)[Rank(s, keep, i)] == s[i]
  {
    assert s[..i + 1][..i] == s[..i];
    assert s == s[..i + 1] + s[i + 1..];
    FilterConcat(s[..i + 1], s[i + 1..], keep);
  }

  /** Kept elements keep their relative order: a later one lands strictly later. */
  lemma RankIncreases<T(!new)>(s: seq<T>, keep: T -> bool, i: nat, j: nat)
    requires i < j < |s| && keep(s[i])
    ensures Rank(s, keep, i) < Rank(s, keep, j)
  {
    assert s[..i + 1][..i] == s[..i];
    assert s[..j] == s[..i + 1] + s[i + 1..j];
    FilterConcat(s[..i + 1], s[i + 1..j], keep);
  }

  /** Filtering a descending sequence leaves it descending. */
  lemma {:induction false} FilterKeepsNonIncreasing<T(!new)>(s: seq<T>, keep: T -> bool, key: T -> int)
    requires NonIncreasing(s, key)
    ensures NonIncreasing(Filter(s, keep), key)
  {
    if s != [] {
      var init, last := s[..|s| - 1], s[|s| - 1];
      assert s == init + [last];
      FilterKeepsNonIncreasing(init, keep, key);
      var f := Filter(init, keep);
      FilterMembership(init, keep);
      forall j | 0 <= j < |f| ensures key(f[j]) >= key(last) {
        assert f[j] in init;
      }
    }
  }

  /** Filtering a sequence without repeated keys creates none. */
  lemma {:induction false} FilterKeepsDistinctBy<T(!new), K>(s: seq<T>, keep: T -> bool, key: T -> K)
    requires DistinctBy(s, key)
    ensures DistinctBy(Filter(s, keep), key)
  {
    if s != [] {
      var init, last := s[..|s| - 1], s[|s| - 1];
      assert s == init + [last];
      FilterKeepsDistinctBy(init, keep, key);
      var f := Filter(init, keep);
      FilterMembership(init, keep);
      forall j | 0 <= j < |f| ensures key(f[j]) != key(last) {
        assert f[j] in init;
      }
    }
  }
}
