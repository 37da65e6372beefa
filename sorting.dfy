/**
 * Kotlin's `sortBy`, `sortedBy` and `sorted` as one stable insertion sort on a real-valued key.
 * Kotlin's sorts are stable, and a stable sort has exactly one result, so this definition
 * computes the same sequence as the library call it stands for.
 */
module Sorting {
  import opened Sequences

  /** The keys of `s` never decrease. */
  predicate SortedBy<T>(s: seq<T>, key: T -> real)
  {
    forall i, j :: 0 <= i < j < |s| ==> key(s[i]) <= key(s[j])
  }

  /** Inserts `x` after every element whose key is at most `key(x)`. */
  function InsBy<T>(s: seq<T>, x: T, key: T -> real): (r: seq<T>)
    ensures |r| == |s| + 1
  {
    if s == [] || key(x) < key(s[0]) then [x] + s
    else [s[0]] + InsBy(s[1..], x, key)
  }

  lemma {:induction false} InsByMultiset<T>(s: seq<T>, x: T, key: T -> real)
    ensures multiset(InsBy(s, x, key)) == multiset(s) + multiset{x}
  {
    if s != [] && key(x) >= key(s[0]) {
      InsByMultiset(s[1..], x, key);
      assert s == [s[0]] + s[1..];
    }
  }

  /** Every element of the result is `x` or an element of `s`, and its key lies between
      the least key of `s` and `key(x)`, or is a key of `s`. */
  lemma {:induction false} InsByElements<T>(s: seq<T>, x: T, key: T -> real, lo: real)
    requires forall i :: 0 <= i < |s| ==> lo <= key(s[i])
    requires lo <= key(x)
    ensures forall i :: 0 <= i < |s| + 1 ==> lo <= key(InsBy(s, x, key)[i])
  {
    if s != [] && key(x) >= key(s[0]) {
      InsByElements(s[1..], x, key, lo);
      var rest := InsBy(s[1..], x, key);
      assert forall i :: 1 <= i < |s| + 1 ==> InsBy(s, x, key)[i] == rest[i - 1];
    }
  }

  lemma {:induction false} InsBySorted<T>(s: seq<T>, x: T, key: T -> real)
    requires SortedBy(s, key)
    ensures SortedBy(InsBy(s, x, key), key)
  {
    var r := InsBy(s, x, key);
    if s == [] {
    } else if key(x) < key(s[0]) {
      assert forall i :: 1 <= i < |r| ==> r[i] == s[i - 1];
      assert forall i :: 0 <= i < |s| ==> key(x) <= key(s[i]) by {
        forall i | 0 <= i < |s| ensures key(x) <= key(s[i]) {
          if i > 0 { assert key(s[0]) <= key(s[i]); }
        }
      }
    } else {
      var rest := InsBy(s[1..], x, key);
      InsBySorted(s[1..], x, key);
      assert forall i :: 0 <= i < |s| - 1 ==> key(s[0]) <= key(s[1..][i]) by {
        forall i | 0 <= i < |s| - 1 ensures key(s[0]) <= key(s[1..][i]) {
          assert s[1..][i] == s[i + 1];
        }
      }
      InsByElements(s[1..], x, key, key(s[0]));
      assert r == [s[0]] + rest;
      forall i, j | 0 <= i < j < |r| ensures key(r[i]) <= key(r[j]) {
        if i == 0 {
          assert r[j] == rest[j - 1];
        } else {
          assert r[i] == rest[i - 1] && r[j] == rest[j - 1];
        }
      }
    }
  }

  /** The elements of `s` in key order; elements with equal keys keep their relative order. */
  function SortBy<T>(s: seq<T>, key: T -> real): (r: seq<T>)
    ensures |r| == |s|
  {
    if s == [] then [] else InsBy(SortBy(s[..|s| - 1], key), s[|s| - 1], key)
  }

  /** The result of `SortBy` is sorted and a permutation of its input. */
  lemma {:induction false} SortBySpec<T>(s: seq<T>, key: T -> real)
    ensures SortedBy(SortBy(s, key), key)
    ensures multiset(SortBy(s, key)) == multiset(s)
  {
    if s != [] {
      var init := s[..|s| - 1];
      SortBySpec(init, key);
      InsBySorted(SortBy(init, key), s[|s| - 1], key);
      InsByMultiset(SortBy(init, key), s[|s| - 1], key);
      assert s == init + [s[|s| - 1]];
    }
  }

  lemma SortBySingle<T>(x: T, key: T -> real)
    ensures SortBy([x], key) == [x]
  {
    assert [x][..0] == [];
  }

  /** The identity key, for sorting reals by their own value (Kotlin's `sorted`). */
  function Id(x: real): real { x }

  lemma {:induction false} SortByAppendOne<T>(s: seq<T>, x: T, key: T -> real)
    ensures SortBy(s + [x], key) == InsBy(SortBy(s, key), x, key)
  {
    assert (s + [x])[..|s + [x]| - 1] == s;
  }

  lemma FilterCons<T>(y: T, r: seq<T>, p: T -> bool)
    ensures Filter([y] + r, p) == (if p(y) then [y] else []) + Filter(r, p)
  {
    assert ([y] + r)[0] == y && ([y] + r)[1..] == r;
  }

  lemma SortedTail<T>(s: seq<T>, key: T -> real)
    requires SortedBy(s, key) && s != []
    ensures SortedBy(s[1..], key)
    ensures forall i :: 0 <= i < |s| ==> key(s[0]) <= key(s[i])
  {
    assert forall i, j :: 0 <= i < j < |s| - 1 ==> s[1..][i] == s[i + 1] && s[1..][j] == s[j + 1];
  }

  lemma InsByFront<T>(y: T, r: seq<T>, x: T, key: T -> real)
    requires key(y) <= key(x)
    ensures InsBy([y] + r, x, key) == [y] + InsBy(r, x, key)
  {
    assert ([y] + r)[0] == y && ([y] + r)[1..] == r;
  }

  lemma FilterInsByFront<T>(s: seq<T>, x: T, key: T -> real, p: T -> bool)
    requires SortedBy(s, key)
    requires s == [] || key(x) < key(s[0])
    ensures Filter(InsBy(s, x, key), p) == if p(x) then InsBy(Filter(s, p), x, key) else Filter(s, p)
  {
    FilterCons(x, s, p);
    var fs := Filter(s, p);
    if fs != [] {
      FilterSpec(s, p);
      assert fs[0] in s;
      var k :| 0 <= k < |s| && s[k] == fs[0];
      SortedTail(s, key);
      assert key(x) < key(fs[0]);
    }
  }

  /** Inserting an element into a sorted sequence commutes with filtering. */
  lemma {:induction false} FilterInsBy<T>(s: seq<T>, x: T, key: T -> real, p: T -> bool)
    requires SortedBy(s, key)
    ensures Filter(InsBy(s, x, key), p) == if p(x) then InsBy(Filter(s, p), x, key) else Filter(s, p)
  {
    if s == [] || key(x) < key(s[0]) {
      FilterInsByFront(s, x, key, p);
    } else {
      var s0, tail := s[0], s[1..];
      assert s == [s0] + tail;
      SortedTail(s, key);
      var ins := InsBy(tail, x, key);
      FilterInsBy(tail, x, key, p);
      assert InsBy(s, x, key) == [s0] + ins;
      FilterCons(s0, ins, p);
      FilterCons(s0, tail, p);
      var head: seq<T> := if p(s0) then [s0] else [];
      assert Filter(InsBy(s, x, key), p) == head + Filter(ins, p);
      assert Filter(s, p) == head + Filter(tail, p);
      if p(x) {
        if p(s0) {
          InsByFront(s0, Filter(tail, p), x, key);
        } else {
          assert head + InsBy(Filter(tail, p), x, key) == InsBy(Filter(tail, p), x, key);
          assert head + Filter(tail, p) == Filter(tail, p);
        }
      }
    }
  }

  /** Sorting commutes with filtering: the elements satisfying `p` appear in the sorted
      sequence exactly as they appear when they alone are sorted. */
  lemma {:induction false} FilterSortBy<T>(s: seq<T>, key: T -> real, p: T -> bool)
    ensures Filter(SortBy(s, key), p) == SortBy(Filter(s, p), key)
  {
    if s != [] {
      var init, last := s[..|s| - 1], s[|s| - 1];
      assert s == init + [last];
      FilterSortBy(init, key, p);
      SortBySpec(init, key);
      FilterInsBy(SortBy(init, key), last, key, p);
      FilterAppend(init, [last], p);
      assert [last][1..] == [];
      if p(last) {
        assert Filter([last], p) == [last];
        SortByAppendOne(Filter(init, p), last, key);
      } else {
        assert Filter([last], p) == [];
        assert Filter(init, p) + [] == Filter(init, p);
      }
    }
  }

  /** Sorting preserves how many elements satisfy any predicate. */
  lemma CountSortBy<T>(s: seq<T>, key: T -> real, p: T -> bool)
    ensures Count(SortBy(s, key), p) == Count(s, p)
  {
    FilterSortBy(s, key, p);
  }

  lemma {:induction false} InsByAtEnd<T>(s: seq<T>, x: T, key: T -> real)
    requires forall i :: 0 <= i < |s| ==> key(s[i]) <= key(x)
    ensures InsBy(s, x, key) == s + [x]
  {
    if s != [] {
      InsByAtEnd(s[1..], x, key);
      assert s == [s[0]] + s[1..];
    }
  }

  /** A sequence whose keys are all equal is left as it is. */
  lemma {:induction false} SortByEqualKeys<T>(s: seq<T>, key: T -> real)
    requires forall i, j :: 0 <= i < |s| && 0 <= j < |s| ==> key(s[i]) == key(s[j])
    ensures SortBy(s, key) == s
  {
    if s != [] {
      var init := s[..|s| - 1];
      SortByEqualKeys(init, key);
      InsByAtEnd(init, s[|s| - 1], key);
      assert init + [s[|s| - 1]] == s;
    }
  }

  /** Stability: for every key value, the elements having that key keep their input order. */
  lemma SortByStable<T>(s: seq<T>, key: T -> real, v: real)
    ensures Filter(SortBy(s, key), y => key(y) == v) == Filter(s, y => key(y) == v)
  {
    var p := y => key(y) == v;
    FilterSortBy(s, key, p);
    var f := Filter(s, p);
    FilterSpec(s, p);
    forall i, j | 0 <= i < |f| && 0 <= j < |f| ensures key(f[i]) == key(f[j]) {
      assert f[i] in f && f[j] in f;
    }
    SortByEqualKeys(f, key);
  }

  /** Projecting to the key commutes with insertion. */
  lemma {:induction false} MapInsBy<T>(s: seq<T>, x: T, key: T -> real)
    ensures Map(InsBy(s, x, key), key) == InsBy(Map(s, key), key(x), Id)
  {
    if s != [] && key(x) >= key(s[0]) {
      MapInsBy(s[1..], x, key);
      assert Map(s, key)[1..] == Map(s[1..], key);
      assert ([s[0]] + InsBy(s[1..], x, key))[1..] == InsBy(s[1..], x, key);
    } else if s != [] {
      assert ([x] + s)[1..] == s;
    }
  }

  /** The keys of a sorted sequence are the sorted keys. */
  lemma {:induction false} MapSortBy<T>(s: seq<T>, key: T -> real)
    ensures Map(SortBy(s, key), key) == SortBy(Map(s, key), Id)
  {
    if s != [] {
      var init, last := s[..|s| - 1], s[|s| - 1];
      MapSortBy(init, key);
      MapInsBy(SortBy(init, key), last, key);
      assert Map(s, key) == Map(init, key) + [key(last)];
      SortByAppendOne(Map(init, key), key(last), Id);
    }
  }
}
