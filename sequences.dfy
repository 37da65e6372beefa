/** Generic helpers over sequences: filtering, mapping, counting, sums and extremes. */
module Sequences {

  /** The elements of `s` that satisfy `p`, in their original order (Kotlin's `filter`). */
  function Filter<T>(s: seq<T>, p: T -> bool): (r: seq<T>)
    ensures |r| <= |s|
  {
    if s == [] then [] else (if p(s[0]) then [s[0]] else []) + Filter(s[1..], p)
  }

  /** What `Filter` keeps: elements of `s`, each satisfying `p`, no more often than in `s`. */
  lemma {:induction false} FilterSpec<T>(s: seq<T>, p: T -> bool)
    ensures forall y :: y in Filter(s, p) ==> y in s && p(y)
    ensures multiset(Filter(s, p)) <= multiset(s)
  {
    if s != [] {
      FilterSpec(s[1..], p);
      assert s == [s[0]] + s[1..];
    }
  }

  lemma {:induction false} FilterAppend<T>(s: seq<T>, t: seq<T>, p: T -> bool)
    ensures Filter(s + t, p) == Filter(s, p) + Filter(t, p)
  {
    if s == [] {
      assert s + t == t;
    } else {
      var h := if p(s[0]) then [s[0]] else [];
      assert (s + t)[0] == s[0] && (s + t)[1..] == s[1..] + t;
      assert Filter(s + t, p) == h + Filter(s[1..] + t, p);
      FilterAppend(s[1..], t, p);
      assert h + (Filter(s[1..], p) + Filter(t, p)) == (h + Filter(s[1..], p)) + Filter(t, p);
    }
  }

  /** The image of `s` under `f` (Kotlin's `map`). */
  function Map<T, U>(s: seq<T>, f: T -> U): (r: seq<U>)
    ensures |r| == |s|
    ensures forall i :: 0 <= i < |s| ==> r[i] == f(s[i])
  {
    if s == [] then [] else [f(s[0])] + Map(s[1..], f)
  }

  lemma MapAppend<T, U>(s: seq<T>, t: seq<T>, f: T -> U)
    ensures Map(s + t, f) == Map(s, f) + Map(t, f)
  {
    assert forall i :: 0 <= i < |s + t| ==> Map(s + t, f)[i] == (Map(s, f) + Map(t, f))[i];
  }

  /** Taking the first element of `a` out of a permutation `b` of `a` leaves a permutation of
      the rest of `a`. */
  lemma PermutationWithout<T>(a: seq<T>, b: seq<T>, x: T, p: seq<T>, q: seq<T>)
    requires multiset(a) == multiset(b) && a != [] && a[0] == x && b == p + [x] + q
    ensures multiset(a[1..]) == multiset(p + q)
  {
    assert a == [x] + a[1..];
    var ma, mr := multiset(a), multiset(a[1..]);
    assert ma == multiset{x} + mr;
    var mb, mpq := multiset(b), multiset(p + q);
    assert multiset(p + [x] + q) == multiset(p) + multiset{x} + multiset(q);
    assert mpq == multiset(p) + multiset(q);
    assert mb == mpq + multiset{x};
    assert mr == ma - multiset{x};
    assert mpq == mb - multiset{x};
  }

  /** An element of `s` splits it into the part before one of its occurrences and the part after. */
  lemma SplitAt<T>(s: seq<T>, x: T) returns (p: seq<T>, q: seq<T>)
    requires x in multiset(s)
    ensures s == p + [x] + q
  {
    var j :| 0 <= j < |s| && s[j] == x;
    p, q := s[..j], s[j + 1..];
    assert s == p + [x] + q;
  }

  /** Mapping two permutations of each other gives two permutations of each other. */
  lemma {:induction false} MapPermutation<T, U>(a: seq<T>, b: seq<T>, f: T -> U)
    requires multiset(a) == multiset(b)
    ensures multiset(Map(a, f)) == multiset(Map(b, f))
    decreases |a|
  {
    if a != [] {
      var x := a[0];
      assert x in multiset(a);
      var p, q := SplitAt(b, x);
      PermutationWithout(a, b, x, p, q);
      MapPermutation(a[1..], p + q, f);
      MapAround(p, x, q, f);
      assert Map(a, f) == [f(x)] + Map(a[1..], f);
      assert multiset(Map(a, f)) == multiset{f(x)} + multiset(Map(a[1..], f));
    }
  }

  lemma MapAround<T, U>(p: seq<T>, x: T, q: seq<T>, f: T -> U)
    ensures multiset(Map(p + [x] + q, f)) == multiset(Map(p + q, f)) + multiset{f(x)}
  {
    MapMultisetAppend(p + [x], q, f);
    MapMultisetAppend(p, [x], f);
    MapMultisetAppend(p, q, f);
    assert Map([x], f) == [f(x)];
  }

  lemma MapMultisetAppend<T, U>(s: seq<T>, t: seq<T>, f: T -> U)
    ensures multiset(Map(s + t, f)) == multiset(Map(s, f)) + multiset(Map(t, f))
  {
    MapAppend(s, t, f);
  }

  /** The number of elements of `s` that satisfy `p`. */
  function Count<T>(s: seq<T>, p: T -> bool): nat
  {
    |Filter(s, p)|
  }

  lemma {:induction false} FilterAll<T>(s: seq<T>, p: T -> bool)
    requires forall i :: 0 <= i < |s| ==> p(s[i])
    ensures Filter(s, p) == s
  {
    if s != [] {
      FilterAll(s[1..], p);
    }
  }

  /** A run of consecutive elements satisfying `p` is counted in full. */
  lemma CountRun<T>(s: seq<T>, p: T -> bool, a: int, b: int)
    requires 0 <= a <= b <= |s|
    requires forall i :: a <= i < b ==> p(s[i])
    ensures Count(s, p) >= b - a
  {
    assert s == s[..a] + s[a..b] + s[b..];
    FilterAppend(s[..a] + s[a..b], s[b..], p);
    FilterAppend(s[..a], s[a..b], p);
    FilterAll(s[a..b], p);
  }

  /** The sum of a sequence of reals (Kotlin's `sum`/`sumOf`). */
  function Sum(s: seq<real>): real
  {
    if s == [] then 0.0 else s[0] + Sum(s[1..])
  }

  lemma {:induction false} SumAppend(s: seq<real>, t: seq<real>)
    ensures Sum(s + t) == Sum(s) + Sum(t)
  {
    if s == [] {
      assert s + t == t;
    } else {
      assert (s + t)[0] == s[0] && (s + t)[1..] == s[1..] + t;
      SumAppend(s[1..], t);
    }
  }

  lemma {:induction false} SumBounds(s: seq<real>, lo: real, hi: real)
    requires forall i :: 0 <= i < |s| ==> lo <= s[i] <= hi
    ensures |s| as real * lo <= Sum(s) <= |s| as real * hi
  {
    if s != [] {
      SumBounds(s[1..], lo, hi);
    }
  }

  /** The mean of a non-empty sequence of reals (Kotlin's `average`). */
  function RealMean(s: seq<real>): real
    requires s != []
  {
    Sum(s) / |s| as real
  }

  /** The least element of a non-empty sequence (Kotlin's `minOf`). */
  function Min(s: seq<real>): (m: real)
    requires |s| > 0
    ensures m in s
    ensures forall i :: 0 <= i < |s| ==> m <= s[i]
  {
    if |s| == 1 then s[0]
    else
      var rest := Min(s[1..]);
      if s[0] <= rest then s[0] else rest
  }

  /** The greatest element of a non-empty sequence (Kotlin's `maxOf`). */
  function Max(s: seq<real>): (m: real)
    requires |s| > 0
    ensures m in s
    ensures forall i :: 0 <= i < |s| ==> s[i] <= m
  {
    if |s| == 1 then s[0]
    else
      var rest := Max(s[1..]);
      if s[0] >= rest then s[0] else rest
  }

  /** The concatenation of a sequence of sequences. */
  function Concat<T>(ss: seq<seq<T>>): (r: seq<T>)
  {
    if ss == [] then [] else ss[0] + Concat(ss[1..])
  }

  lemma {:induction false} ConcatAppend<T>(ss: seq<seq<T>>, tt: seq<seq<T>>)
    ensures Concat(ss + tt) == Concat(ss) + Concat(tt)
  {
    if ss == [] {
      assert ss + tt == tt;
    } else {
      assert (ss + tt)[0] == ss[0] && (ss + tt)[1..] == ss[1..] + tt;
      ConcatAppend(ss[1..], tt);
    }
  }

  /** The reverse of a sequence (Kotlin's `reverse`). */
  function Reverse<T>(s: seq<T>): (r: seq<T>)
    ensures |r| == |s|
    ensures forall i :: 0 <= i < |s| ==> r[i] == s[|s| - 1 - i]
  {
    if s == [] then [] else Reverse(s[1..]) + [s[0]]
  }
}
